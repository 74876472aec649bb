/**
 * The solver-free part of the StateValidator of demo/game/state_validator.py.
 * Its board is a grid read as board[col][row]: gravity and the four-in-a-row
 * scan index the first coordinate by column, and "above" a cell means a
 * higher second index. next_moves_for_win takes a game object instead,
 * whose board is row-major (a Rules.Game).
 */
module DemoValidator {
  import opened Wrappers
  import opened Rules
  import CM = ColumnMajor
  import GV = GameValidator

  /** A board as the validator reads it: the first index is the column. */
  type Grid = seq<seq<int>>

  /** The validator object: only its board dimensions matter here. */
  datatype StateValidator = StateValidator(rows: int, cols: int)

  /** The grid has cols columns of rows cells each. */
  predicate Fits(v: StateValidator, b: Grid)
  {
    |b| == v.cols && forall i :: 0 <= i < |b| ==> |b[i]| == v.rows
  }

  /** board[i][j] as Python reads it: None stands for the IndexError of a read past the end (no index here is ever negative). */
  function Read(b: Grid, i: int, j: int): Option<int>
  {
    if 0 <= i < |b| && 0 <= j < |b[i]| then Some(b[i][j]) else None
  }

  // ---------------------------------------------------------------------
  // _check_win(board, player)

  /** Column and row of the k-th cell of the window from (col, row) along d. */
  function StepCol(d: CM.Line, col: int, k: int): int
  {
    if d == CM.Down then col else col + k
  }

  function StepRow(d: CM.Line, row: int, k: int): int
  {
    match d
    case Across => row
    case Down => row + k
    case DownRight => row + k
    case UpRight => row - k
  }

  /** all(board[..][..] == player for i in range(k, 4)): stops at the first mismatch, or at a failing read. */
  function AllEqual(b: Grid, d: CM.Line, col: int, row: int, player: int, k: int): Option<bool>
    requires 0 <= k <= 4
    decreases 4 - k
  {
    if k == 4 then Some(true)
    else match Read(b, StepCol(d, col, k), StepRow(d, row, k))
      case None => None
      case Some(x) => if x != player then Some(false) else AllEqual(b, d, col, row, player, k + 1)
  }

  /** The cells k .. 3 of the window from (col, row) along d exist and hold player. */
  predicate Holds(b: Grid, d: CM.Line, col: int, row: int, player: int, k: int)
    requires 0 <= k <= 4
    decreases 4 - k
  {
    k == 4 || (Read(b, StepCol(d, col, k), StepRow(d, row, k)) == Some(player) && Holds(b, d, col, row, player, k + 1))
  }

  /** The whole window from (col, row) along d lies on the validator's grid. */
  predicate InGrid(v: StateValidator, d: CM.Line, col: int, row: int)
  {
    0 <= col < v.cols && 0 <= row < v.rows &&
    0 <= StepCol(d, col, 3) < v.cols && 0 <= StepRow(d, row, 3) < v.rows
  }

  /** Four cells of player in a line on the grid. */
  ghost predicate HasLine(v: StateValidator, b: Grid, player: int)
  {
    exists d, col, row :: InGrid(v, d, col, row) && Holds(b, d, col, row, player, 0)
  }

  /** The loops of _check_win per direction: outer bound, then inner start and bound. */
  function OuterEnd(v: StateValidator, d: CM.Line): int
  {
    match d
    case Across => v.rows
    case Down => v.cols
    case DownRight => v.cols - 3
    case UpRight => v.cols - 3
  }

  function InnerFrom(d: CM.Line): int
  {
    if d == CM.UpRight then 3 else 0
  }

  function InnerEnd(v: StateValidator, d: CM.Line): int
  {
    match d
    case Across => v.cols - 3
    case Down => v.rows - 3
    case DownRight => v.rows - 3
    case UpRight => v.rows
  }

  /** The horizontal scan runs over rows outside and columns inside; the others over columns outside. */
  function AnchorCol(d: CM.Line, o: int, n: int): int
  {
    if d == CM.Across then n else o
  }

  function AnchorRow(d: CM.Line, o: int, n: int): int
  {
    if d == CM.Across then o else n
  }

  /** The window at (col, row) is checked at loop position (o, n) or later in the scan of d. */
  predicate Pending(v: StateValidator, d: CM.Line, o: int, n: int, col: int, row: int)
  {
    var o', n' := if d == CM.Across then row else col, if d == CM.Across then col else row;
    o' < OuterEnd(v, d) && InnerFrom(d) <= n' < InnerEnd(v, d) && (o < o' || (o == o' && n <= n'))
  }

  /** One direction of _check_win from loop position (o, n): Some(true) on a line of player, None on an IndexError. */
  function ScanFor(v: StateValidator, b: Grid, player: int, d: CM.Line, o: int, n: int): Option<bool>
    requires 0 <= o && InnerFrom(d) <= n
    decreases OuterEnd(v, d) - o, InnerEnd(v, d) - n
  {
    if o >= OuterEnd(v, d) then Some(false)
    else if n >= InnerEnd(v, d) then ScanFor(v, b, player, d, o + 1, InnerFrom(d))
    else match AllEqual(b, d, AnchorCol(d, o, n), AnchorRow(d, o, n), player, 0)
      case None => None
      case Some(found) => if found then Some(true) else ScanFor(v, b, player, d, o, n + 1)
  }

  /** The next scan runs only after a scan that finished without a line. */
  function OrElse(first: Option<bool>, rest: Option<bool>): Option<bool>
  {
    if first == Some(false) then rest else first
  }

  /** _check_win: horizontal, vertical, down-right diagonal, up-right diagonal. */
  function CheckWin(v: StateValidator, b: Grid, player: int): Option<bool>
  {
    OrElse(ScanFor(v, b, player, CM.Across, 0, 0),
      OrElse(ScanFor(v, b, player, CM.Down, 0, 0),
        OrElse(ScanFor(v, b, player, CM.DownRight, 0, 0), ScanFor(v, b, player, CM.UpRight, 0, 3))))
  }

  /** On a window inside the grid all() reads every cell it needs and reports whether the line holds. */
  lemma {:induction false} AllEqualReads(b: Grid, d: CM.Line, col: int, row: int, player: int, k: int)
    requires 0 <= k <= 4
    requires forall j :: k <= j < 4 ==> Read(b, StepCol(d, col, j), StepRow(d, row, j)).Some?
    ensures AllEqual(b, d, col, row, player, k) == Some(Holds(b, d, col, row, player, k))
    decreases 4 - k
  {
    if k < 4 {
      AllEqualReads(b, d, col, row, player, k + 1);
    }
  }

  lemma AllEqualInGrid(v: StateValidator, b: Grid, d: CM.Line, col: int, row: int, player: int)
    requires Fits(v, b) && InGrid(v, d, col, row)
    ensures AllEqual(b, d, col, row, player, 0) == Some(Holds(b, d, col, row, player, 0))
  {
    forall j | 0 <= j < 4
      ensures Read(b, StepCol(d, col, j), StepRow(d, row, j)).Some?
    {
    }
    AllEqualReads(b, d, col, row, player, 0);
  }

  lemma PendingNextOuter(v: StateValidator, d: CM.Line, o: int, n: int)
    requires 0 <= o && n >= InnerEnd(v, d)
    ensures forall col, row :: Pending(v, d, o, n, col, row) <==> Pending(v, d, o + 1, InnerFrom(d), col, row)
  {
  }

  lemma PendingNextInner(v: StateValidator, d: CM.Line, o: int, n: int)
    requires 0 <= o < OuterEnd(v, d) && InnerFrom(d) <= n < InnerEnd(v, d)
    ensures Pending(v, d, o, n, AnchorCol(d, o, n), AnchorRow(d, o, n))
    ensures forall col, row :: Pending(v, d, o, n, col, row) <==>
      (col == AnchorCol(d, o, n) && row == AnchorRow(d, o, n)) || Pending(v, d, o, n + 1, col, row)
  {
  }

  /** The windows a direction's scan tests are exactly that direction's windows on the grid. */
  lemma PendingIsGrid(v: StateValidator, d: CM.Line, col: int, row: int)
    ensures Pending(v, d, 0, InnerFrom(d), col, row) <==> InGrid(v, d, col, row)
  {
  }

  /** Some window still to test from (o, n) in direction d holds four of player's cells. */
  ghost predicate LinePending(v: StateValidator, b: Grid, player: int, d: CM.Line, o: int, n: int)
  {
    exists col, row :: Pending(v, d, o, n, col, row) && Holds(b, d, col, row, player, 0)
  }

  lemma LineNextOuter(v: StateValidator, b: Grid, player: int, d: CM.Line, o: int, n: int)
    requires 0 <= o && n >= InnerEnd(v, d)
    ensures LinePending(v, b, player, d, o, n) <==> LinePending(v, b, player, d, o + 1, InnerFrom(d))
  {
    PendingNextOuter(v, d, o, n);
  }

  lemma LineNextInner(v: StateValidator, b: Grid, player: int, d: CM.Line, o: int, n: int)
    requires 0 <= o < OuterEnd(v, d) && InnerFrom(d) <= n < InnerEnd(v, d)
    ensures LinePending(v, b, player, d, o, n) <==>
      Holds(b, d, AnchorCol(d, o, n), AnchorRow(d, o, n), player, 0) || LinePending(v, b, player, d, o, n + 1)
  {
    PendingNextInner(v, d, o, n);
  }

  /** The window a scan tests at (o, n) lies on the grid, so all() reads it without an IndexError. */
  lemma AnchorReads(v: StateValidator, b: Grid, player: int, d: CM.Line, o: int, n: int)
    requires Fits(v, b) && 0 <= o < OuterEnd(v, d) && InnerFrom(d) <= n < InnerEnd(v, d)
    ensures AllEqual(b, d, AnchorCol(d, o, n), AnchorRow(d, o, n), player, 0) ==
      Some(Holds(b, d, AnchorCol(d, o, n), AnchorRow(d, o, n), player, 0))
  {
    var col, row := AnchorCol(d, o, n), AnchorRow(d, o, n);
    PendingNextInner(v, d, o, n);
    PendingIsGrid(v, d, col, row);
    AllEqualInGrid(v, b, d, col, row, player);
  }

  /** On a grid of the validator's shape a scan never fails, and it finds a line iff one is still to be checked. */
  lemma {:induction false} ScanForSpec(v: StateValidator, b: Grid, player: int, d: CM.Line, o: int, n: int)
    requires Fits(v, b) && 0 <= o && InnerFrom(d) <= n
    ensures ScanFor(v, b, player, d, o, n) == Some(LinePending(v, b, player, d, o, n))
    decreases OuterEnd(v, d) - o, InnerEnd(v, d) - n
  {
    if o >= OuterEnd(v, d) {
    } else if n >= InnerEnd(v, d) {
      ScanForSpec(v, b, player, d, o + 1, InnerFrom(d));
      LineNextOuter(v, b, player, d, o, n);
    } else {
      var col, row := AnchorCol(d, o, n), AnchorRow(d, o, n);
      LineNextInner(v, b, player, d, o, n);
      AnchorReads(v, b, player, d, o, n);
      if !Holds(b, d, col, row, player, 0) {
        ScanForSpec(v, b, player, d, o, n + 1);
      }
    }
  }

  /** _check_win on a grid of the validator's shape: Some(true) exactly when player holds four cells in a line. */
  lemma CheckWinSpec(v: StateValidator, b: Grid, player: int)
    requires Fits(v, b)
    ensures CheckWin(v, b, player) == Some(HasLine(v, b, player))
  {
    ScanForSpec(v, b, player, CM.Across, 0, 0);
    ScanForSpec(v, b, player, CM.Down, 0, 0);
    ScanForSpec(v, b, player, CM.DownRight, 0, 0);
    ScanForSpec(v, b, player, CM.UpRight, 0, 3);
    forall d, col, row | InGrid(v, d, col, row)
      ensures Pending(v, d, 0, InnerFrom(d), col, row)
    {
      PendingIsGrid(v, d, col, row);
    }
  }

  /**
   * A grid with fewer columns than the validator expects (and at least 4
   * rows) is never reported free of lines: the vertical scan reaches the
   * missing column unless it finds a line first, and that read fails.
   */
  lemma {:induction false} ShortGridDown(v: StateValidator, b: Grid, player: int, o: int, n: int)
    requires |b| < v.cols && v.rows >= 4 && 0 <= o && 0 <= n
    requires o < |b| || (o == |b| && n < InnerEnd(v, CM.Down))
    ensures ScanFor(v, b, player, CM.Down, o, n) != Some(false)
    decreases OuterEnd(v, CM.Down) - o, InnerEnd(v, CM.Down) - n
  {
    if n >= InnerEnd(v, CM.Down) {
      ShortGridDown(v, b, player, o + 1, 0);
    } else if o < |b| {
      if AllEqual(b, CM.Down, o, n, player, 0) == Some(false) {
        ShortGridDown(v, b, player, o, n + 1);
      }
    }
  }

  lemma ShortGridNeverClear(v: StateValidator, b: Grid, player: int)
    requires |b| < v.cols && v.rows >= 4
    ensures CheckWin(v, b, player) != Some(false)
  {
    ShortGridDown(v, b, player, 0, 0);
  }

  /** A grid holding player in at most one cell has no line of player. */
  lemma NoLineFromOneCell(v: StateValidator, b: Grid, player: int)
    requires forall c, r, c', r' :: Read(b, c, r) == Some(player) && Read(b, c', r') == Some(player) ==> c == c' && r == r'
    ensures !HasLine(v, b, player)
  {
    forall d, col, row | InGrid(v, d, col, row)
      ensures !Holds(b, d, col, row, player, 0)
    {
      assert Holds(b, d, col, row, player, 0) ==>
        Read(b, StepCol(d, col, 0), StepRow(d, row, 0)) == Some(player) &&
        Read(b, StepCol(d, col, 1), StepRow(d, row, 1)) == Some(player);
    }
  }

  // ---------------------------------------------------------------------
  // is_valid_state(board)

  /** The innermost gravity loop: the cells r .. rows-1 of a column are all empty. */
  function ZeroFrom(column: seq<int>, r: int, rows: int): bool
    requires 0 <= r && rows <= |column|
    decreases rows - r
  {
    r >= rows || (column[r] == 0 && ZeroFrom(column, r + 1, rows))
  }

  /**
   * The gravity loop over one column, testing cells first .. rows-1: once a
   * checked cell is empty, every cell from it upwards must be empty.
   */
  function ColumnSettled(column: seq<int>, rows: int, first: int): bool
    requires 0 <= first && rows <= |column|
    decreases rows - first
  {
    first >= rows || ((column[first] != 0 || ZeroFrom(column, first, rows)) && ColumnSettled(column, rows, first + 1))
  }

  /** The gravity rule over the columns c .. cols-1. */
  function GravityFrom(v: StateValidator, b: Grid, first: int, c: int): bool
    requires Fits(v, b) && 0 <= first && 0 <= c
    decreases v.cols - c
  {
    c >= v.cols || (ColumnSettled(b[c], v.rows, first) && GravityFrom(v, b, first, c + 1))
  }

  /** No piece above an empty cell, among the cells from index first on. */
  ghost predicate NoGap(v: StateValidator, b: Grid, first: int)
    requires Fits(v, b) && 0 <= first
  {
    forall c, r, r' :: 0 <= c < v.cols && first <= r <= r' < v.rows && b[c][r] == 0 ==> b[c][r'] == 0
  }

  lemma {:induction false} ZeroFromSpec(column: seq<int>, r: int, rows: int)
    requires 0 <= r && rows <= |column|
    ensures ZeroFrom(column, r, rows) <==> forall j :: r <= j < rows ==> column[j] == 0
    decreases rows - r
  {
    if r < rows {
      ZeroFromSpec(column, r + 1, rows);
    }
  }

  lemma {:induction false} ColumnSettledSpec(column: seq<int>, rows: int, first: int)
    requires 0 <= first && rows <= |column|
    ensures ColumnSettled(column, rows, first) <==>
      forall r, r' :: first <= r <= r' < rows && column[r] == 0 ==> column[r'] == 0
    decreases rows - first
  {
    if first < rows {
      ColumnSettledSpec(column, rows, first + 1);
      ZeroFromSpec(column, first, rows);
    }
  }

  lemma {:induction false} GravitySpec(v: StateValidator, b: Grid, first: int, c: int)
    requires Fits(v, b) && 0 <= first && 0 <= c
    ensures GravityFrom(v, b, first, c) <==>
      forall c', r, r' :: c <= c' < v.cols && first <= r <= r' < v.rows && b[c'][r] == 0 ==> b[c'][r'] == 0
    decreases v.cols - c
  {
    if c < v.cols {
      GravitySpec(v, b, first, c + 1);
      ColumnSettledSpec(b[c], v.rows, first);
    }
  }

  /** Pieces of one kind in a column, and on the whole board. */
  function CountColumn(column: seq<int>, x: int): nat
  {
    if column == [] then 0 else (if column[0] == x then 1 else 0) + CountColumn(column[1..], x)
  }

  function CountIn(b: Grid, x: int): nat
  {
    if b == [] then 0 else CountColumn(b[0], x) + CountIn(b[1..], x)
  }

  /**
   * The rules of is_valid_state, with the gravity loop testing the cells
   * from index first on: gravity, then the piece counts, then both players
   * winning, then a win with the wrong counts.
   */
  function StateCheck(v: StateValidator, b: Grid, first: int): bool
    requires Fits(v, b) && 0 <= first
  {
    if !GravityFrom(v, b, first, 0) then false
    else
      var p1, p2 := CountIn(b, 1), CountIn(b, 2);
      if !(p1 == p2 || p1 == p2 + 1) then false
      else
        var w1, w2 := CheckWin(v, b, 1) == Some(true), CheckWin(v, b, 2) == Some(true);
        if w1 && w2 then false
        else if w1 && p1 <= p2 then false
        else if w2 && p2 != p1 then false
        else true
  }

  /** is_valid_state as written: its gravity loop tests the cells from index 1 on. */
  function IsValidStateAsWritten(v: StateValidator, b: Grid): bool
    requires Fits(v, b)
  {
    StateCheck(v, b, 1)
  }

  /** is_valid_state with the gravity loop over every cell of a column, the lowest one included. */
  function IsValidState(v: StateValidator, b: Grid): bool
    requires Fits(v, b)
  {
    StateCheck(v, b, 0)
  }

  /**
   * What the checks accept: no piece above an empty cell (from index first
   * on), ONE has as many pieces as TWO or one more, at most one player has
   * a line, and a line belongs to the player who moved last.
   */
  lemma StateCheckSpec(v: StateValidator, b: Grid, first: int)
    requires Fits(v, b) && 0 <= first
    ensures StateCheck(v, b, first) <==>
      NoGap(v, b, first) &&
      (CountIn(b, 1) == CountIn(b, 2) || CountIn(b, 1) == CountIn(b, 2) + 1) &&
      !(HasLine(v, b, 1) && HasLine(v, b, 2)) &&
      (HasLine(v, b, 1) ==> CountIn(b, 1) == CountIn(b, 2) + 1) &&
      (HasLine(v, b, 2) ==> CountIn(b, 1) == CountIn(b, 2))
  {
    GravitySpec(v, b, first, 0);
    CheckWinSpec(v, b, 1);
    CheckWinSpec(v, b, 2);
  }

  /** The corrected check rejects every board with a piece above an empty cell. */
  lemma ValidStateHasNoGap(v: StateValidator, b: Grid)
    requires Fits(v, b) && IsValidState(v, b)
    ensures forall c, r, r' :: 0 <= c < v.cols && 0 <= r <= r' < v.rows && b[c][r] == 0 ==> b[c][r'] == 0
  {
    StateCheckSpec(v, b, 0);
  }

  /** The default 7 x 6 grid with one piece of ONE at index 1 of column 0, above the empty cell at index 0. */
  function FloatingBoard(): (b: Grid)
    ensures Fits(StateValidator(6, 7), b)
  {
    [[0, 1, 0, 0, 0, 0], [0, 0, 0, 0, 0, 0], [0, 0, 0, 0, 0, 0], [0, 0, 0, 0, 0, 0],
     [0, 0, 0, 0, 0, 0], [0, 0, 0, 0, 0, 0], [0, 0, 0, 0, 0, 0]]
  }

  /** The floating board holds ONE at index 1 of column 0 and nothing elsewhere. */
  lemma FloatingCells()
    ensures forall c, r :: 0 <= c < 7 && 0 <= r < 6 ==> FloatingBoard()[c][r] == (if c == 0 && r == 1 then 1 else 0)
  {
  }

  /** The floating board holds one piece of ONE, none of TWO, and no line for either player. */
  lemma FloatingPieces()
    ensures CountIn(FloatingBoard(), 1) == 1 && CountIn(FloatingBoard(), 2) == 0
    ensures !HasLine(StateValidator(6, 7), FloatingBoard(), 1)
    ensures !HasLine(StateValidator(6, 7), FloatingBoard(), 2)
  {
    FloatingCells();
    NoLineFromOneCell(StateValidator(6, 7), FloatingBoard(), 1);
    NoLineFromOneCell(StateValidator(6, 7), FloatingBoard(), 2);
  }

  /** The only gap of the floating board is its empty cell at index 0 of column 0. */
  lemma FloatingGaps()
    ensures NoGap(StateValidator(6, 7), FloatingBoard(), 1)
    ensures !NoGap(StateValidator(6, 7), FloatingBoard(), 0)
  {
    var b := FloatingBoard();
    FloatingCells();
    assert b[0][0] == 0 && b[0][1] != 0;
  }

  /** As written, is_valid_state accepts a piece floating above an empty cell; the corrected check rejects it. */
  lemma FloatingPieceAccepted()
    ensures IsValidStateAsWritten(StateValidator(6, 7), FloatingBoard())
    ensures !IsValidState(StateValidator(6, 7), FloatingBoard())
  {
    FloatingPieces();
    FloatingGaps();
    StateCheckSpec(StateValidator(6, 7), FloatingBoard(), 1);
    StateCheckSpec(StateValidator(6, 7), FloatingBoard(), 0);
  }

  // ---------------------------------------------------------------------
  // next_moves_for_win(game, player)

  /** The game's row-major board as numpy holds it: the first index is the row. */
  function RowView(b: Board): (g: Grid)
    ensures |g| == |b|
  {
    seq(|b|, r requires 0 <= r < |b| => seq(|b[r]|, c requires 0 <= c < |b[r]| => b[r][c].Value()))
  }

  /** The same board read column by column, the layout _check_win indexes. */
  function ColumnView(b: Board): (g: Grid)
    requires Rect(b)
    ensures Fits(StateValidator(|b|, Cols(b)), g)
    ensures forall c, r :: 0 <= c < Cols(b) && 0 <= r < |b| ==> g[c][r] == b[r][c].Value()
  {
    seq(Cols(b), c requires 0 <= c < Cols(b) => seq(|b|, r requires 0 <= r < |b| => b[r][c].Value()))
  }

  predicate AllLegal(g: Game, cs: seq<int>)
    requires Rect(g.board)
  {
    forall i :: 0 <= i < |cs| ==> IsValidMove(g, cs[i])
  }

  /**
   * next_moves_for_win as written, over the legal columns cs: it hands the
   * row-major board of the copy straight to _check_win, which indexes it
   * as board[col][row]; None is the IndexError that ends the call.
   */
  function NextMovesAsWrittenFrom(v: StateValidator, g: Game, player: Player, cs: seq<int>): Option<seq<int>>
    requires Rect(g.board) && AllLegal(g, cs)
  {
    if cs == [] then Some([])
    else match CheckWin(v, RowView(GV.DropBoard(g, cs[0], player)), player.Value())
      case None => None
      case Some(win) =>
        match NextMovesAsWrittenFrom(v, g, player, cs[1..])
        case None => None
        case Some(rest) => Some((if win then [cs[0]] else []) + rest)
  }

  function NextMovesForWinAsWritten(v: StateValidator, g: Game, player: Player): Option<seq<int>>
    requires Rect(g.board)
  {
    var cs := ValidColumns(g);
    assert forall i :: 0 <= i < |cs| ==> cs[i] in cs;
    NextMovesAsWrittenFrom(v, g, player, cs)
  }

  /** next_moves_for_win reading the copy's board column by column, as _check_win expects. */
  function NextMovesFrom(v: StateValidator, g: Game, player: Player, cs: seq<int>): seq<int>
    requires Rect(g.board) && AllLegal(g, cs)
  {
    if cs == [] then []
    else
      var win := CheckWin(v, ColumnView(GV.DropBoard(g, cs[0], player)), player.Value()) == Some(true);
      (if win then [cs[0]] else []) + NextMovesFrom(v, g, player, cs[1..])
  }

  function NextMovesForWin(v: StateValidator, g: Game, player: Player): seq<int>
    requires Rect(g.board)
  {
    var cs := ValidColumns(g);
    assert forall i :: 0 <= i < |cs| ==> cs[i] in cs;
    NextMovesFrom(v, g, player, cs)
  }

  /** A drop into col gives player a line on the board read column by column. */
  ghost predicate DropWins(v: StateValidator, g: Game, col: int, player: Player)
    requires Rect(g.board) && IsValidMove(g, col)
  {
    HasLine(v, ColumnView(GV.DropBoard(g, col, player)), player.Value())
  }

  lemma {:induction false} NextMovesFromSpec(v: StateValidator, g: Game, player: Player, cs: seq<int>)
    requires Rect(g.board) && AllLegal(g, cs) && v == StateValidator(|g.board|, Cols(g.board))
    ensures forall x :: x in NextMovesFrom(v, g, player, cs) <==> x in cs && DropWins(v, g, x, player)
  {
    if cs != [] {
      NextMovesFromSpec(v, g, player, cs[1..]);
      CheckWinSpec(v, ColumnView(GV.DropBoard(g, cs[0], player)), player.Value());
      assert forall x :: x in cs <==> x == cs[0] || x in cs[1..];
    }
  }

  /** The corrected next_moves_for_win lists exactly the legal columns where the drop makes a line of four. */
  lemma NextMovesForWinSpec(v: StateValidator, g: Game, player: Player)
    requires Rect(g.board) && v == StateValidator(|g.board|, Cols(g.board))
    ensures forall x :: x in NextMovesForWin(v, g, player) <==> IsValidMove(g, x) && DropWins(v, g, x, player)
  {
    var cs := ValidColumns(g);
    assert forall i :: 0 <= i < |cs| ==> cs[i] in cs;
    NextMovesFromSpec(v, g, player, cs);
  }

  /**
   * As written, on a board with fewer rows than columns (and at least 4
   * rows) next_moves_for_win either fails or reports every legal column.
   */
  lemma {:induction false} NextMovesAsWrittenFromAll(v: StateValidator, g: Game, player: Player, cs: seq<int>)
    requires Rect(g.board) && AllLegal(g, cs) && |g.board| == v.rows && 4 <= v.rows < v.cols
    ensures NextMovesAsWrittenFrom(v, g, player, cs) in {None, Some(cs)}
  {
    if cs != [] {
      ShortGridNeverClear(v, RowView(GV.DropBoard(g, cs[0], player)), player.Value());
      NextMovesAsWrittenFromAll(v, g, player, cs[1..]);
      assert [cs[0]] + cs[1..] == cs;
    }
  }

  /** On an empty board the dropped piece is its player's only one, so no single drop makes a line. */
  lemma NoDropWinsOnEmpty(v: StateValidator, g: Game, x: int, player: Player)
    requires v.rows >= 1 && v.cols >= 1 && g == NewGame(v.rows, v.cols) && IsValidMove(g, x) && player != Empty
    ensures !DropWins(v, g, x, player)
  {
    GV.LandingRow(g, x);
    var row := NextOpenRow(g.board, x);
    var drop := GV.DropBoard(g, x, player);
    assert forall r, c :: 0 <= r < v.rows && 0 <= c < v.cols ==> drop[r][c] == if r == row && c == x then player else Empty;
    var cells := ColumnView(drop);
    forall c, r | Read(cells, c, r) == Some(player.Value())
      ensures c == x && r == row
    {
    }
    NoLineFromOneCell(v, cells, player.Value());
  }

  /**
   * On an empty game with fewer rows than columns (6 x 7 among them) no
   * single drop wins, yet next_moves_for_win as written fails or reports
   * every column.
   */
  lemma NextMovesAsWrittenMisreports(v: StateValidator, g: Game)
    requires 4 <= v.rows < v.cols && g == NewGame(v.rows, v.cols)
    ensures forall x :: x !in NextMovesForWin(v, g, One)
    ensures NextMovesForWinAsWritten(v, g, One) == None || 0 in NextMovesForWinAsWritten(v, g, One).value
  {
    var cs := ValidColumns(g);
    assert forall i :: 0 <= i < |cs| ==> cs[i] in cs;
    assert g.board[0][0] == Empty;
    assert IsValidMove(g, 0) && 0 in cs;
    NextMovesAsWrittenFromAll(v, g, One, cs);
    NextMovesForWinSpec(v, g, One);
    forall x | IsValidMove(g, x)
      ensures !DropWins(v, g, x, One)
    {
      NoDropWinsOnEmpty(v, g, x, One);
    }
  }
}
