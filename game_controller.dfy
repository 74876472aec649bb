/**
 * The GameController of app/controllers/game_controller.py: the game object,
 * the game-over flag, the winner and the last column played, driven by the
 * player's moves and by the computer's, whose search depth follows the
 * temperature controller (ai.max_depth, 3 at first, or thermal_ai.max_depth,
 * 2 at first, when it runs hot). The computer's
 * search is the column-major engine, always playing piece 2.
 */
module GameControl {
  import opened Wrappers
  import opened Rules
  import opened ConnectFour
  import TC = TemperatureControl
  import CM = ColumnMajor
  import opened SearchTree

  const AiPiece: int := 2

  /** board.T.tolist(): the row-major board as column lists of cell values. */
  function Transpose(b: Board): (t: CM.ColBoard)
    requires Rect(b)
    ensures |t| == Cols(b) && CM.Columns(t)
    ensures forall c :: 0 <= c < |t| ==> |t[c]| == |b|
    ensures forall c, r :: 0 <= c < Cols(b) && 0 <= r < |b| ==> t[c][r] == b[r][c].Value()
  {
    seq(Cols(b), c requires 0 <= c < Cols(b) => seq(|b|, r requires 0 <= r < |b| => b[r][c].Value()))
  }

  /** The numpy board as the engine indexes it when it is not 6 x 7: the rows stand for columns. */
  function RowLists(b: Board): (t: CM.ColBoard)
    requires Rect(b)
    ensures |t| == |b| && CM.Columns(t)
    ensures forall r, c :: 0 <= r < |b| && 0 <= c < Cols(b) ==> |t[r]| == Cols(b) && t[r][c] == b[r][c].Value()
  {
    seq(|b|, r requires 0 <= r < |b| => seq(Cols(b), c requires 0 <= c < Cols(b) => b[r][c].Value()))
  }

  /** The board make_ai_move hands to the engine: transposed when it is 6 x 7, as it is otherwise. */
  function EngineBoard(b: Board): (t: CM.ColBoard)
    requires Rect(b)
    ensures CM.Columns(t)
  {
    if |b| == 6 && Cols(b) == 7 then Transpose(b) else RowLists(b)
  }

  /** On the 6 x 7 board the engine's playable columns are exactly the game's legal moves. */
  lemma PlayableIsLegal(g: Game, col: int)
    requires Rect(g.board) && |g.board| == 6 && Cols(g.board) == 7
    ensures CM.Playable(EngineBoard(g.board), col) <==> IsValidMove(g, col)
  {
  }

  /** What find_best_move promises of the column it returns. */
  ghost predicate EngineChoice(b: CM.ColBoard, depth: int, best: int)
    requires CM.Columns(b) && depth >= 0
  {
    (best == 3 || CM.Playable(b, best)) &&
    ((forall c :: CM.Playable(b, c) ==> CM.MoveScore(b, AiPiece, depth, c) == NegInf) ==> best == 3) &&
    ((exists c :: CM.Playable(b, c) && CM.MoveScore(b, AiPiece, depth, c) != NegInf) ==>
      CM.Playable(b, best) && CM.MoveScore(b, AiPiece, depth, best) != NegInf &&
      (forall c :: CM.Playable(b, c) ==> Le(CM.MoveScore(b, AiPiece, depth, c), CM.MoveScore(b, AiPiece, depth, best))) &&
      (forall c :: CM.Playable(b, c) && c < best ==> Lt(CM.MoveScore(b, AiPiece, depth, c), CM.MoveScore(b, AiPiece, depth, best))))
  }

  /**
   * _check_end_conditions on the flags: a four in a row ends the game with
   * its owner as winner; otherwise a full board ends it with the winner
   * left as it was; otherwise nothing changes.
   */
  function Settle(over: bool, winner: Player, g: Game): (r: (bool, Player))
    requires Rect(g.board)
    ensures r.0 <==> over || IsGameOver(g)
    ensures CheckWin(g.board).Some? ==> r.1 == CheckWin(g.board).value
    ensures CheckWin(g.board).None? ==> r.1 == winner
  {
    if CheckWin(g.board).Some? then (true, CheckWin(g.board).value)
    else if IsDraw(g) then (true, winner)
    else (over, winner)
  }

  /** Settling twice on the same game changes nothing more. */
  lemma SettleIdempotent(over: bool, winner: Player, g: Game)
    requires Rect(g.board)
    ensures var r := Settle(over, winner, g); Settle(r.0, r.1, g) == r
  {
  }

  /** A draw never names a winner: from a fresh controller the winner stays EMPTY unless there is a four. */
  lemma DrawKeepsNoWinner(g: Game)
    requires Rect(g.board) && CheckWin(g.board).None? && IsDraw(g)
    ensures Settle(false, Empty, g) == (true, Empty)
  {
  }

  class GameController {
    var game: ConnectFourGame
    const temp: TC.TemperatureController
    var gameOver: bool
    var winner: Player
    var lastMoveColumn: Option<int>
    var lastNarrative: Option<string>
    /** ai.max_depth and thermal_ai.max_depth: the search depths when cool and when hot. */
    var aiDepth: int
    var thermalDepth: int

    ghost predicate Valid()
      reads this, game
    {
      game.Valid() && aiDepth >= 0 && thermalDepth >= 0
    }

    constructor ()
      ensures Valid() && fresh(game) && fresh(game.board) && fresh(temp)
      ensures game.State() == Rules.NewGame(6, 7) && temp.State() == TC.Thermo(40.0, false, 0)
      ensures !gameOver && winner == Empty && lastMoveColumn == None && lastNarrative == None
      ensures aiDepth == 3 && thermalDepth == 2
    {
      game := new ConnectFourGame(6, 7);
      temp := new TC.TemperatureController();
      aiDepth, thermalDepth := 3, 2;
      gameOver := false;
      winner := Empty;
      lastMoveColumn := None;
      lastNarrative := None;
    }

    /** new_game: a fresh 6 x 7 game and cleared flags. */
    method NewGame()
      requires Valid()
      modifies this
      ensures Valid() && fresh(game) && fresh(game.board)
      ensures game.State() == Rules.NewGame(6, 7)
      ensures !gameOver && winner == Empty && lastMoveColumn == None && lastNarrative == None
      ensures aiDepth == old(aiDepth) && thermalDepth == old(thermalDepth)
    {
      game := new ConnectFourGame(6, 7);
      gameOver := false;
      winner := Empty;
      lastMoveColumn := None;
      lastNarrative := None;
    }

    /** is_board_full: the game's is_draw. */
    predicate IsBoardFull()
      requires Valid()
      reads this, game, game.board
    {
      game.IsDraw()
    }

    /** _check_end_conditions */
    method CheckEndConditions()
      requires Valid()
      modifies this
      ensures aiDepth == old(aiDepth) && thermalDepth == old(thermalDepth)
      ensures Valid() && game == old(game) && lastMoveColumn == old(lastMoveColumn) && lastNarrative == old(lastNarrative)
      ensures (gameOver, winner) == Settle(old(gameOver), old(winner), game.State())
    {
      game.CellsShape();
      var w := game.CheckWin();
      if w.Some? {
        gameOver := true;
        winner := w.value;
        return;
      }
      if IsBoardFull() {
        gameOver := true;
      }
    }

    /** The shared tail of both moves: play col, and after a legal move record it and check for the end. */
    method PlayColumn(col: int) returns (ok: bool)
      requires Valid() && !gameOver
      modifies this, game, game.board
      ensures aiDepth == old(aiDepth) && thermalDepth == old(thermalDepth) && lastNarrative == old(lastNarrative)
      ensures Valid() && game == old(game) && game.board == old(game.board)
      ensures ok == IsValidMove(old(game.State()), col)
      ensures ok ==>
        game.State() == Rules.MakeMove(old(game.State()), col).value && lastMoveColumn == Some(col) &&
        (gameOver, winner) == Settle(false, old(winner), game.State())
      ensures !ok ==>
        game.State() == old(game.State()) && !gameOver && winner == old(winner) && lastMoveColumn == old(lastMoveColumn)
    {
      ok := game.MakeMove(col);
      if ok {
        lastMoveColumn := Some(col);
        CheckEndConditions();
      }
    }

    /** make_player_move: nothing once the game is over; otherwise the move, and the end check after a legal one. */
    method MakePlayerMove(col: int) returns (ok: bool)
      requires Valid()
      modifies this, game, game.board
      ensures aiDepth == old(aiDepth) && thermalDepth == old(thermalDepth) && lastNarrative == old(lastNarrative)
      ensures Valid() && game == old(game) && game.board == old(game.board)
      ensures old(gameOver) ==> !ok && game.State() == old(game.State()) && gameOver && winner == old(winner) && lastMoveColumn == old(lastMoveColumn)
      ensures !old(gameOver) ==> ok == IsValidMove(old(game.State()), col)
      ensures !old(gameOver) && ok ==>
        game.State() == Rules.MakeMove(old(game.State()), col).value && lastMoveColumn == Some(col) &&
        (gameOver, winner) == Settle(false, old(winner), game.State())
      ensures !old(gameOver) && !ok ==>
        game.State() == old(game.State()) && !gameOver && winner == old(winner) && lastMoveColumn == old(lastMoveColumn)
    {
      if gameOver {
        return false;
      }
      ok := PlayColumn(col);
    }

    /** The engine's pick for piece 2 on the current board at the given depth. */
    method EngineMove(depth: int) returns (col: int)
      requires Valid() && depth >= 0
      ensures EngineChoice(EngineBoard(game.State().board), depth, col)
    {
      var snapshot := game.Snapshot();
      game.CellsShape();
      var board := EngineBoard(snapshot.board);
      col := CM.FindBestMove(board, AiPiece, depth);
    }

    /**
     * make_ai_move: None once the game is over; otherwise the column the
     * engine picks for piece 2 at the temperature's depth, played like a
     * player's move (the game's own mover places the piece).
     */
    method MakeAiMove() returns (column: Option<int>)
      requires Valid()
      modifies this, game, game.board
      ensures aiDepth == old(aiDepth) && thermalDepth == old(thermalDepth) && lastNarrative == old(lastNarrative)
      ensures Valid() && game == old(game) && game.board == old(game.board)
      ensures old(gameOver) ==> column == None && game.State() == old(game.State()) && gameOver && winner == old(winner) && lastMoveColumn == old(lastMoveColumn)
      ensures !old(gameOver) ==>
        (column.Some? && EngineChoice(EngineBoard(old(game.State()).board), if old(temp.IsOverheating()) then old(thermalDepth) else old(aiDepth), column.value))
      ensures !old(gameOver) && column.Some? && IsValidMove(old(game.State()), column.value) ==>
        game.State() == Rules.MakeMove(old(game.State()), column.value).value && lastMoveColumn == Some(column.value) &&
        (gameOver, winner) == Settle(false, old(winner), game.State())
      ensures !old(gameOver) && column.Some? && !IsValidMove(old(game.State()), column.value) ==>
        game.State() == old(game.State()) && !gameOver && winner == old(winner) && lastMoveColumn == old(lastMoveColumn)
    {
      if gameOver {
        return None;
      }
      ghost var before := game.State();
      var hot := temp.IsOverheating();
      var depth := if hot then thermalDepth else aiDepth;
      var col := EngineMove(depth);
      ghost var chosen := EngineChoice(EngineBoard(before.board), depth, col);
      assert chosen;
      var ok := PlayColumn(col);
      column := Some(col);
    }

    /** get_board_data: a 6 x 7 grid of cell values, 0 wherever the board has no such cell. */
    method GetBoardData() returns (data: seq<seq<int>>)
      requires Valid()
      ensures |data| == 6 && forall r :: 0 <= r < 6 ==> |data[r]| == 7
      ensures forall r, c :: 0 <= r < 6 && 0 <= c < 7 ==>
        data[r][c] == if r < game.rows && c < game.cols then game.board[r, c].Value() else 0
    {
      data := [];
      var row := 0;
      while row < 6
        invariant 0 <= row <= 6 && |data| == row
        invariant forall r :: 0 <= r < row ==> |data[r]| == 7
        invariant forall r, c :: 0 <= r < row && 0 <= c < 7 ==>
          data[r][c] == if r < game.rows && c < game.cols then game.board[r, c].Value() else 0
      {
        var line: seq<int> := [];
        var col := 0;
        while col < 7
          invariant 0 <= col <= 7 && |line| == col
          invariant forall c :: 0 <= c < col ==> line[c] == if row < game.rows && c < game.cols then game.board[row, c].Value() else 0
        {
          var cell := 0;
          if row < game.rows && col < game.cols {
            cell := game.board[row, col].Value();
          }
          line := line + [cell];
          col := col + 1;
        }
        data := data + [line];
        row := row + 1;
      }
    }

    /** set_last_narrative */
    method SetLastNarrative(narrative: string)
      modifies this
      ensures aiDepth == old(aiDepth) && thermalDepth == old(thermalDepth)
      ensures lastNarrative == Some(narrative) && game == old(game) && gameOver == old(gameOver) && winner == old(winner)
      ensures lastMoveColumn == old(lastMoveColumn)
    {
      lastNarrative := Some(narrative);
    }
  }
}
