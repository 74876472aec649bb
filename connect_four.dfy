/**
 * The ConnectFourGame class of game/connect_four.py: a rows x cols board
 * updated in place, the player to move, the last move and the move counter.
 * State() gives the value the object stands for; every method is proved
 * against the value-level rules of module Rules.
 */
module ConnectFour {
  import opened Wrappers
  import opened Rules

  class ConnectFourGame {
    const rows: int
    const cols: int
    var board: array2<Player>
    var current: Player
    var lastMove: Option<(int, int)>
    var moveCount: int

    ghost predicate Valid()
      reads this
    {
      1 <= rows && 1 <= cols && board.Length0 == rows && board.Length1 == cols && current != Empty
    }

    /** The board as rows of cells. */
    ghost function Cells(): Board
      reads this, board
    {
      var a := board;
      seq(a.Length0, r requires 0 <= r < a.Length0 reads a =>
        seq(a.Length1, c requires 0 <= c < a.Length1 reads a => a[r, c]))
    }

    lemma CellsShape()
      requires Valid()
      ensures Rect(Cells()) && |Cells()| == rows && Cols(Cells()) == cols
      ensures forall r, c :: 0 <= r < rows && 0 <= c < cols ==> Cells()[r][c] == board[r, c]
    {
    }

    /** Cells() is the board b as soon as they agree cell by cell. */
    lemma CellsAre(b: Board)
      requires Valid() && |b| == rows && forall r :: 0 <= r < rows ==> |b[r]| == cols
      requires forall r, c :: 0 <= r < rows && 0 <= c < cols ==> b[r][c] == board[r, c]
      ensures Cells() == b
    {
      CellsShape();
      forall r | 0 <= r < rows
        ensures Cells()[r] == b[r]
      {
      }
    }

    ghost function State(): Game
      reads this, board
    {
      Game(Cells(), current, lastMove, moveCount)
    }

    constructor (rows: int, cols: int)
      requires rows >= 1 && cols >= 1
      ensures Valid() && fresh(board)
      ensures this.rows == rows && this.cols == cols
      ensures State() == NewGame(rows, cols)
    {
      this.rows := rows;
      this.cols := cols;
      board := new Player[rows, cols]((_, _) => Empty);
      current := One;
      lastMove := None;
      moveCount := 0;
      new;
      CellsAre(EmptyBoard(rows, cols));
    }

    /** is_valid_move */
    predicate IsValidMove(col: int)
      requires Valid()
      reads this, board
      ensures IsValidMove(col) <==> Rules.IsValidMove(State(), col)
    {
      0 <= col < cols && board[0, col] == Empty
    }

    /** get_valid_columns: the legal columns in increasing order. */
    method GetValidColumns() returns (cs: seq<int>)
      requires Valid()
      ensures cs == ValidColumns(State())
    {
      cs := [];
      var c := cols;
      while c > 0
        invariant 0 <= c <= cols
        invariant cs == ColumnsFrom(State(), c)
      {
        c := c - 1;
        if IsValidMove(c) {
          cs := [c] + cs;
        }
      }
    }

    /** get_next_open_row: scans the column from the bottom row upwards. */
    method GetNextOpenRow(col: int) returns (row: int)
      requires Valid() && 0 <= col < cols
      ensures row == NextOpenRow(Cells(), col)
    {
      row := rows - 1;
      while row >= 0
        invariant -1 <= row < rows
        invariant NextOpenRow(Cells(), col) == OpenRowFrom(Cells(), col, row)
      {
        if board[row, col] == Empty {
          return;
        }
        row := row - 1;
      }
    }

    /** make_move: drop the mover's piece into col and pass the turn; false for an illegal column. */
    method MakeMove(col: int) returns (ok: bool)
      requires Valid()
      modifies this, board
      ensures Valid() && board == old(board)
      ensures ok == Rules.IsValidMove(old(State()), col)
      ensures State() == if ok then Rules.MakeMove(old(State()), col).value else old(State())
    {
      if !IsValidMove(col) {
        return false;
      }
      CellsShape();
      ghost var before := State();
      var row := GetNextOpenRow(col);
      board[row, col] := current;
      lastMove := Some((row, col));
      moveCount := moveCount + 1;
      current := if current == One then Two else One;
      CellsAre(Place(before.board, row, col, before.current));
      return true;
    }

    /** The four cells one step of a check_win scan compares. */
    function ReadWindow(ghost b: Board, d: Dir, o: int, n: int): (w: seq<Player>)
      requires Valid() && b == Cells() && InScan(b, d, o, n)
      reads this, board
      ensures w == Window(b, d, o, n)
    {
      CellsShape();
      [board[CellRow(d, o, n, 0), CellCol(d, o, n, 0)], board[CellRow(d, o, n, 1), CellCol(d, o, n, 1)],
       board[CellRow(d, o, n, 2), CellCol(d, o, n, 2)], board[CellRow(d, o, n, 3), CellCol(d, o, n, 3)]]
    }

    /** One of the four nested scans of check_win. */
    method ScanDirection(ghost b: Board, d: Dir) returns (w: Option<Player>)
      requires Valid() && b == Cells() && Rect(b) && |b| == rows && Cols(b) == cols
      ensures w == Scan(b, d)
    {
      var o := OuterFrom(d);
      var oTo := OuterTo(d, rows, cols);
      while o < oTo
        invariant OuterFrom(d) <= o
        invariant Scan(b, d) == FirstFour(b, d, o, 0)
      {
        w := ScanLine(b, d, o);
        if w.Some? {
          return;
        }
        o := o + 1;
      }
      return None;
    }

    /** The inner loop of a scan: the windows started on one line, in order. */
    method ScanLine(ghost b: Board, d: Dir, o: int) returns (w: Option<Player>)
      requires Valid() && b == Cells() && Rect(b) && |b| == rows && Cols(b) == cols
      requires OuterFrom(d) <= o < OuterTo(d, rows, cols)
      ensures w.Some? ==> w == FirstFour(b, d, o, 0)
      ensures w.None? ==> FirstFour(b, d, o, 0) == FirstFour(b, d, o + 1, 0)
    {
      var n := 0;
      var nTo := InnerTo(d, rows, cols);
      while n < nTo
        invariant 0 <= n
        invariant FirstFour(b, d, o, 0) == FirstFour(b, d, o, n)
      {
        assert InScan(b, d, o, n);
        var cells := ReadWindow(b, d, o, n);
        FirstFourStep(b, d, o, n);
        if Four(cells) {
          return Some(cells[0]);
        }
        n := n + 1;
      }
      FirstFourNextOuter(b, d, o, n);
      return None;
    }

    /** check_win: the owner of the first four in a row found, or None. */
    method CheckWin() returns (w: Option<Player>)
      requires Valid()
      ensures w == Rules.CheckWin(Cells())
    {
      CellsShape();
      w := ScanDirection(Cells(), Horizontal);
      if w.Some? {
        return;
      }
      w := ScanDirection(Cells(), Vertical);
      if w.Some? {
        return;
      }
      w := ScanDirection(Cells(), Rising);
      if w.Some? {
        return;
      }
      w := ScanDirection(Cells(), Falling);
    }

    /** get_winner */
    method GetWinner() returns (w: Option<Player>)
      requires Valid()
      ensures w == Rules.CheckWin(Cells())
    {
      w := CheckWin();
    }

    /** is_draw */
    predicate IsDraw()
      requires Valid()
      reads this, board
      ensures IsDraw() <==> Rules.IsDraw(State())
    {
      moveCount == rows * cols
    }

    /** is_game_over */
    method IsGameOver() returns (over: bool)
      requires Valid()
      ensures over == Rules.IsGameOver(State())
    {
      var w := CheckWin();
      over := w.Some? || IsDraw();
    }

    /** copy: a new game object with its own copy of the board. */
    method Copy() returns (g: ConnectFourGame)
      requires Valid()
      ensures fresh(g) && fresh(g.board) && g.Valid()
      ensures g.rows == rows && g.cols == cols && g.State() == State()
    {
      g := new ConnectFourGame(rows, cols);
      var a := board;
      g.board := new Player[rows, cols]((r, c) reads a requires 0 <= r < a.Length0 && 0 <= c < a.Length1 => a[r, c]);
      g.current := current;
      g.lastMove := lastMove;
      g.moveCount := moveCount;
      CellsShape();
      g.CellsAre(Cells());
    }

    /** The value of the game as copy() hands it to the engines: the board read out row by row. */
    method Snapshot() returns (g: Game)
      requires Valid()
      ensures g == State()
    {
      var cells: Board := [];
      var r := 0;
      while r < rows
        invariant 0 <= r <= rows && |cells| == r
        invariant forall i :: 0 <= i < r ==> cells[i] == Cells()[i]
      {
        var line: seq<Player> := [];
        var c := 0;
        while c < cols
          invariant 0 <= c <= cols && |line| == c
          invariant forall j :: 0 <= j < c ==> line[j] == board[r, j]
        {
          line := line + [board[r, c]];
          c := c + 1;
        }
        CellsShape();
        assert line == Cells()[r];
        cells := cells + [line];
        r := r + 1;
      }
      assert cells == Cells();
      g := Game(cells, current, lastMove, moveCount);
    }

    /** reset: a fresh empty board, ONE to move, no last move, no moves counted. */
    method Reset()
      requires Valid()
      modifies this
      ensures Valid() && fresh(board) && State() == NewGame(rows, cols)
    {
      board := new Player[rows, cols]((_, _) => Empty);
      current := One;
      lastMove := None;
      moveCount := 0;
      CellsAre(EmptyBoard(rows, cols));
    }
  }
}
