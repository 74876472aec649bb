/**
 * The MinimaxEngine of demo/game/minimax.py, the engine the game controller
 * calls as find_best_move(board, 2). Its boards are column-major lists of
 * integer cells, board[col][row] with row 0 at the top and 0 for empty,
 * and every read outside the lists goes through safe_get, which gives 0.
 * The loops run over the fixed ranges of a 7 x 6 board whatever the lists'
 * lengths.
 *
 * _minimax is proved to compute AlphaBeta of the tree Build unfolds a
 * position into; find_best_move then picks the first column of best plain
 * minimax value, or column 3.
 */
module ColumnMajor {
  import opened Wrappers
  import opened SearchTree

  /** board[col][row] */
  type ColBoard = seq<seq<int>>

  /** board[col][0] exists for every column, as the column tests of the engine read it. */
  predicate Columns(b: ColBoard)
  {
    forall c :: 0 <= c < |b| ==> |b[c]| >= 1
  }

  /** safe_get: the cell, or 0 off the lists. */
  function SafeGet(b: ColBoard, col: int, row: int): int
  {
    if 0 <= col < |b| && 0 <= row < |b[col]| then b[col][row] else 0
  }

  /** The opponent as _minimax computes it. */
  function OpponentOf(player: int): (o: int)
    ensures o != 0 && o != player
  {
    if player == 1 then 2 else 1
  }

  // ---------------------------------------------------------------------
  // _make_move

  /** The highest row below r (and within the column) holding 0, or -1. */
  function OpenRowBelow(column: seq<int>, r: int): (row: int)
    requires 0 <= r
    ensures -1 <= row < r && (row >= 0 ==> row < |column| && column[row] == 0)
    ensures forall k :: row < k < r && k < |column| ==> column[k] != 0
  {
    if r == 0 then -1
    else if r - 1 < |column| && column[r - 1] == 0 then r - 1
    else OpenRowBelow(column, r - 1)
  }

  /** _make_move on a copy: the board with the piece in the column's open row of rows 5..0, or None. */
  function Drop(b: ColBoard, column: int, player: int): Option<ColBoard>
  {
    if column < 0 || column >= |b| then None
    else
      var row := OpenRowBelow(b[column], 6);
      if row < 0 then None else Some(b[column := b[column][row := player]])
  }

  /**
   * A drop fails exactly for a column off the board or without a 0 in rows
   * 0..5; otherwise it writes the player into the highest-index such row,
   * the bottom-most free cell, and changes nothing else.
   */
  lemma DropSpec(b: ColBoard, column: int, player: int)
    ensures Drop(b, column, player).None? <==>
      column < 0 || column >= |b| || forall r :: 0 <= r < 6 && r < |b[column]| ==> b[column][r] != 0
    ensures Drop(b, column, player).Some? ==>
      var b' := Drop(b, column, player).value;
      var row := OpenRowBelow(b[column], 6);
      0 <= row < 6 && b[column][row] == 0 &&
      (forall r :: row < r < 6 && r < |b[column]| ==> b[column][r] != 0) &&
      |b'| == |b| && (forall c :: 0 <= c < |b| ==> |b'[c]| == |b[c]|) &&
      b'[column][row] == player &&
      (forall c, r :: 0 <= c < |b| && 0 <= r < |b[c]| && (c, r) != (column, row) ==> b'[c][r] == b[c][r])
  {
    if 0 <= column < |b| && OpenRowBelow(b[column], 6) < 0 {
      forall r | 0 <= r < 6 && r < |b[column]|
        ensures b[column][r] != 0
      {
      }
    }
  }

  /** _make_move: the loop over rows 5..0, writing into the board the caller passes (a copy). */
  method MakeMove(b: ColBoard, column: int, player: int) returns (ok: bool, b': ColBoard)
    ensures ok == Drop(b, column, player).Some?
    ensures b' == if ok then Drop(b, column, player).value else b
  {
    b' := b;
    if column < 0 || column >= |b| {
      return false, b';
    }
    var row := 5;
    while row >= 0
      invariant -1 <= row <= 5
      invariant OpenRowBelow(b[column], 6) == OpenRowBelow(b[column], row + 1)
    {
      if row < |b[column]| && b[column][row] == 0 {
        b' := b[column := b[column][row := player]];
        return true, b';
      }
      row := row - 1;
    }
    return false, b';
  }

  /** A column the search tries: on the board, one of the 7, with an empty top cell. */
  predicate Playable(b: ColBoard, col: int)
    requires Columns(b)
  {
    0 <= col < 7 && col < |b| && b[col][0] == 0
  }

  /** A playable column always takes the piece. */
  lemma PlayableDrops(b: ColBoard, col: int, player: int)
    requires Columns(b) && Playable(b, col)
    ensures Drop(b, col, player).Some? && Columns(Drop(b, col, player).value)
  {
    DropSpec(b, col, player);
  }

  // ---------------------------------------------------------------------
  // _check_win and _is_board_full

  /** The four scan directions of _check_win and the window offsets of _evaluate_board. */
  datatype Line = Across | Down | DownRight | UpRight

  function ColStep(d: Line): int
  {
    match d
    case Across => 1
    case Down => 0
    case DownRight => 1
    case UpRight => 1
  }

  function RowStep(d: Line): int
  {
    match d
    case Across => 0
    case Down => 1
    case DownRight => 1
    case UpRight => -1
  }

  /** The four cells from (col, row) along d, read with safe_get. */
  function WindowAt(b: ColBoard, d: Line, col: int, row: int): (w: seq<int>)
    ensures |w| == 4
  {
    var dc, dr := ColStep(d), RowStep(d);
    [SafeGet(b, col, row), SafeGet(b, col + dc, row + dr), SafeGet(b, col + 2 * dc, row + 2 * dr), SafeGet(b, col + 3 * dc, row + 3 * dr)]
  }

  predicate IsFour(w: seq<int>)
    requires |w| == 4
  {
    w[0] != 0 && w[0] == w[1] && w[1] == w[2] && w[2] == w[3]
  }

  /** The loops of _check_win per direction: the outer range, then the inner one. */
  function OuterEnd(d: Line): int
  {
    match d
    case Across => 6
    case Down => 7
    case DownRight => 4
    case UpRight => 4
  }

  function InnerFrom(d: Line): int
  {
    if d == UpRight then 3 else 0
  }

  function InnerEnd(d: Line): int
  {
    match d
    case Across => 4
    case Down => 3
    case DownRight => 3
    case UpRight => 6
  }

  /** The horizontal scan runs over rows outside and columns inside; the others over columns outside. */
  function AnchorCol(d: Line, o: int, n: int): int
  {
    if d == Across then n else o
  }

  function AnchorRow(d: Line, o: int, n: int): int
  {
    if d == Across then o else n
  }

  /** The window at (col, row) is checked at (o, n) or later in the scan of direction d. */
  predicate Pending(d: Line, o: int, n: int, col: int, row: int)
  {
    var o', n' := if d == Across then row else col, if d == Across then col else row;
    o' < OuterEnd(d) && InnerFrom(d) <= n' < InnerEnd(d) && (o < o' || (o == o' && n <= n'))
  }

  /** One direction of _check_win from loop position (o, n): the owner of the first four, or 0. */
  function ScanDir(b: ColBoard, d: Line, o: int, n: int): int
    requires 0 <= o && InnerFrom(d) <= n <= InnerEnd(d)
    decreases OuterEnd(d) - o, InnerEnd(d) - n
  {
    if o >= OuterEnd(d) then 0
    else if n == InnerEnd(d) then ScanDir(b, d, o + 1, InnerFrom(d))
    else
      var w := WindowAt(b, d, AnchorCol(d, o, n), AnchorRow(d, o, n));
      if IsFour(w) then w[0] else ScanDir(b, d, o, n + 1)
  }

  lemma PendingNextOuter(d: Line, o: int)
    requires 0 <= o
    ensures forall col, row :: Pending(d, o, InnerEnd(d), col, row) <==> Pending(d, o + 1, InnerFrom(d), col, row)
  {
  }

  lemma PendingNextInner(d: Line, o: int, n: int)
    requires 0 <= o < OuterEnd(d) && InnerFrom(d) <= n < InnerEnd(d)
    ensures Pending(d, o, n, AnchorCol(d, o, n), AnchorRow(d, o, n))
    ensures forall col, row :: Pending(d, o, n, col, row) <==>
      (col == AnchorCol(d, o, n) && row == AnchorRow(d, o, n)) || Pending(d, o, n + 1, col, row)
  {
  }

  /** No window still to test from (o, n) in direction d is a four. */
  ghost predicate NoPendingFour(b: ColBoard, d: Line, o: int, n: int)
  {
    forall col, row :: Pending(d, o, n, col, row) ==> !IsFour(WindowAt(b, d, col, row))
  }

  lemma NoFourNextOuter(b: ColBoard, d: Line, o: int)
    requires 0 <= o
    ensures NoPendingFour(b, d, o, InnerEnd(d)) <==> NoPendingFour(b, d, o + 1, InnerFrom(d))
  {
    PendingNextOuter(d, o);
  }

  lemma NoFourNextInner(b: ColBoard, d: Line, o: int, n: int)
    requires 0 <= o < OuterEnd(d) && InnerFrom(d) <= n < InnerEnd(d)
    ensures NoPendingFour(b, d, o, n) <==>
      !IsFour(WindowAt(b, d, AnchorCol(d, o, n), AnchorRow(d, o, n))) && NoPendingFour(b, d, o, n + 1)
  {
    PendingNextInner(d, o, n);
  }

  /** The scan of one direction reports 0 iff no window still to test is a four. */
  lemma {:induction false} ScanDirZero(b: ColBoard, d: Line, o: int, n: int)
    requires 0 <= o && InnerFrom(d) <= n <= InnerEnd(d)
    ensures ScanDir(b, d, o, n) == 0 <==> NoPendingFour(b, d, o, n)
    decreases OuterEnd(d) - o, InnerEnd(d) - n
  {
    if o >= OuterEnd(d) {
    } else if n == InnerEnd(d) {
      ScanDirZero(b, d, o + 1, InnerFrom(d));
      NoFourNextOuter(b, d, o);
    } else {
      NoFourNextInner(b, d, o, n);
      if !IsFour(WindowAt(b, d, AnchorCol(d, o, n), AnchorRow(d, o, n))) {
        ScanDirZero(b, d, o, n + 1);
      }
    }
  }

  /** A non-zero report of one direction's scan is the owner of a four still to test. */
  lemma {:induction false} ScanDirOwner(b: ColBoard, d: Line, o: int, n: int)
    requires 0 <= o && InnerFrom(d) <= n <= InnerEnd(d) && ScanDir(b, d, o, n) != 0
    ensures exists col, row :: Pending(d, o, n, col, row) && IsFour(WindowAt(b, d, col, row)) && WindowAt(b, d, col, row)[0] == ScanDir(b, d, o, n)
    decreases OuterEnd(d) - o, InnerEnd(d) - n
  {
    if n == InnerEnd(d) {
      ScanDirOwner(b, d, o + 1, InnerFrom(d));
      PendingNextOuter(d, o);
    } else {
      PendingNextInner(d, o, n);
      if !IsFour(WindowAt(b, d, AnchorCol(d, o, n), AnchorRow(d, o, n))) {
        ScanDirOwner(b, d, o, n + 1);
      }
    }
  }

  /** _check_win: horizontal, vertical, down-right, up-right; the first four found, or 0. */
  function CheckWin(b: ColBoard): int
  {
    var across := ScanDir(b, Across, 0, 0);
    if across != 0 then across
    else
      var down := ScanDir(b, Down, 0, 0);
      if down != 0 then down
      else
        var diagonal := ScanDir(b, DownRight, 0, 0);
        if diagonal != 0 then diagonal else ScanDir(b, UpRight, 0, 3)
  }

  /** Four equal non-empty cells in a line, all on the 7 x 6 grid. */
  predicate LineFour(b: ColBoard, d: Line, col: int, row: int)
  {
    0 <= col < 7 && 0 <= row < 6 &&
    0 <= col + 3 * ColStep(d) < 7 && 0 <= row + 3 * RowStep(d) < 6 &&
    IsFour(WindowAt(b, d, col, row))
  }

  /** The windows a direction's scan tests are exactly the lines of that direction on the grid. */
  lemma PendingIsGrid(d: Line, col: int, row: int)
    ensures Pending(d, 0, InnerFrom(d), col, row) <==>
      0 <= col < 7 && 0 <= row < 6 && 0 <= col + 3 * ColStep(d) < 7 && 0 <= row + 3 * RowStep(d) < 6
  {
  }

  /**
   * _check_win reports 0 exactly when no four equal non-empty cells lie in
   * a line on the 7 x 6 grid, and otherwise the owner of such a line.
   */
  lemma CheckWinSpec(b: ColBoard)
    ensures CheckWin(b) == 0 <==> forall d, col, row :: !LineFour(b, d, col, row)
    ensures CheckWin(b) != 0 ==> exists d, col, row :: LineFour(b, d, col, row) && WindowAt(b, d, col, row)[0] == CheckWin(b)
  {
    forall d: Line, col: int, row: int
      ensures LineFour(b, d, col, row) <==> Pending(d, 0, InnerFrom(d), col, row) && IsFour(WindowAt(b, d, col, row))
    {
      PendingIsGrid(d, col, row);
    }
    ScanDirZero(b, Across, 0, 0);
    ScanDirZero(b, Down, 0, 0);
    ScanDirZero(b, DownRight, 0, 0);
    ScanDirZero(b, UpRight, 0, 3);
    if CheckWin(b) != 0 {
      if ScanDir(b, Across, 0, 0) != 0 {
        ScanDirOwner(b, Across, 0, 0);
      } else if ScanDir(b, Down, 0, 0) != 0 {
        ScanDirOwner(b, Down, 0, 0);
      } else if ScanDir(b, DownRight, 0, 0) != 0 {
        ScanDirOwner(b, DownRight, 0, 0);
      } else {
        ScanDirOwner(b, UpRight, 0, 3);
      }
    }
  }

  /** _is_board_full: all seven columns exist and have a non-empty top cell. */
  predicate Full(b: ColBoard)
    requires Columns(b)
  {
    forall col :: 0 <= col < 7 ==> col < |b| && b[col][0] != 0
  }

  /** A full board has no playable column; with all seven columns present, the converse holds too. */
  lemma FullSpec(b: ColBoard)
    requires Columns(b)
    ensures Full(b) ==> forall col :: !Playable(b, col)
    ensures |b| >= 7 && (forall col :: 0 <= col < 7 ==> !Playable(b, col)) ==> Full(b)
  {
    if |b| >= 7 && (forall col :: 0 <= col < 7 ==> !Playable(b, col)) {
      forall col | 0 <= col < 7
        ensures col < |b| && b[col][0] != 0
      {
        assert !Playable(b, col);
      }
    }
  }

  // ---------------------------------------------------------------------
  // _evaluate_board

  /** list.count(x) */
  function CountOf(w: seq<int>, x: int): (n: nat)
    ensures n <= |w|
  {
    if w == [] then 0 else (if w[0] == x then 1 else 0) + CountOf(w[1..], x)
  }

  /** The points of one window: 100 / 5 / 2 for the player (first match), then -4 for an opponent's three. */
  function WindowPoints(w: seq<int>, player: int): int
    requires |w| == 4
  {
    var opponent := 3 - player;
    var own, theirs, empty := CountOf(w, player), CountOf(w, opponent), CountOf(w, 0);
    (if own == 4 then 100 else if own == 3 && empty == 1 then 5 else if own == 2 && empty == 2 then 2 else 0) +
    (if theirs == 3 && empty == 1 then -4 else 0)
  }

  lemma CountOfFour(w: seq<int>, x: int)
    requires |w| == 4
    ensures CountOf(w, x) == (if w[0] == x then 1 else 0) + (if w[1] == x then 1 else 0) + (if w[2] == x then 1 else 0) + (if w[3] == x then 1 else 0)
  {
    assert CountOf(w, x) == (if w[0] == x then 1 else 0) + CountOf(w[1..], x);
    assert CountOf(w[1..], x) == (if w[1] == x then 1 else 0) + CountOf(w[2..], x) by {
      assert w[1..][1..] == w[2..];
    }
    assert CountOf(w[2..], x) == (if w[2] == x then 1 else 0) + CountOf(w[3..], x) by {
      assert w[2..][1..] == w[3..];
    }
    assert CountOf(w[3..], x) == (if w[3] == x then 1 else 0) by {
      assert w[3..][1..] == [];
    }
  }

  /**
   * For a real player (1 or 2) a window is worth 100 iff it holds four of
   * the player's pieces, 5 iff three and a gap, 2 iff two and two gaps,
   * -4 iff the opponent holds three and a gap; an empty window is worth 0.
   */
  lemma WindowPointsSpec(w: seq<int>, player: int)
    requires |w| == 4 && (player == 1 || player == 2)
    ensures WindowPoints(w, player) == 100 <==> CountOf(w, player) == 4
    ensures WindowPoints(w, player) == 5 <==> CountOf(w, player) == 3 && CountOf(w, 0) == 1
    ensures WindowPoints(w, player) == 2 <==> CountOf(w, player) == 2 && CountOf(w, 0) == 2
    ensures WindowPoints(w, player) == -4 <==> CountOf(w, 3 - player) == 3 && CountOf(w, 0) == 1
    ensures w == [0, 0, 0, 0] ==> WindowPoints(w, player) == 0
  {
    CountOfFour(w, player);
    CountOfFour(w, 3 - player);
    CountOfFour(w, 0);
  }

  const Lines: seq<Line> := [Across, Down, DownRight, UpRight]

  /** The windows from (col, row) along Lines[i..], summed. */
  function DirsFrom(b: ColBoard, player: int, col: int, row: int, i: int): int
    requires 0 <= i <= 4
    decreases 4 - i
  {
    if i == 4 then 0 else WindowPoints(WindowAt(b, Lines[i], col, row), player) + DirsFrom(b, player, col, row, i + 1)
  }

  /** What one (col, row) of the double loop adds: nothing from an empty cell. */
  function CellPoints(b: ColBoard, player: int, col: int, row: int): int
  {
    if SafeGet(b, col, row) == 0 then 0 else DirsFrom(b, player, col, row, 0)
  }

  /** The points of the double loop from (col, row) on: columns outer, rows inner. */
  function CellsFrom(b: ColBoard, player: int, col: int, row: int): int
    requires 0 <= col <= 7 && 0 <= row <= 6
    decreases 7 - col, 6 - row
  {
    if col == 7 then 0
    else if row == 6 then CellsFrom(b, player, col + 1, 0)
    else CellPoints(b, player, col, row) + CellsFrom(b, player, col, row + 1)
  }

  /** How many of rows 0..n - 1 of the centre column 3 hold the player's piece. */
  function CenterCount(b: ColBoard, player: int, n: int): int
    requires 0 <= n <= 6
  {
    if n == 0 then 0 else CenterCount(b, player, n - 1) + (if SafeGet(b, 3, n - 1) == player then 1 else 0)
  }

  /** _evaluate_board */
  function Evaluate(b: ColBoard, player: int): int
  {
    3 * CenterCount(b, player, 6) + CellsFrom(b, player, 0, 0)
  }

  lemma {:induction false} EmptyCells(b: ColBoard, player: int, col: int, row: int)
    requires 0 <= col <= 7 && 0 <= row <= 6
    requires forall c, r :: SafeGet(b, c, r) == 0
    ensures CellsFrom(b, player, col, row) == 0
    decreases 7 - col, 6 - row
  {
    if col < 7 {
      if row == 6 {
        EmptyCells(b, player, col + 1, 0);
      } else {
        EmptyCells(b, player, col, row + 1);
      }
    }
  }

  lemma {:induction false} EmptyCenter(b: ColBoard, player: int, n: int)
    requires 0 <= n <= 6 && player != 0
    requires forall c, r :: SafeGet(b, c, r) == 0
    ensures CenterCount(b, player, n) == 0
  {
    if n > 0 {
      EmptyCenter(b, player, n - 1);
    }
  }

  /** A board without pieces is worth nothing to either player: only occupied cells start windows. */
  lemma EmptyBoardScoresZero(b: ColBoard, player: int)
    requires player != 0 && forall c, r :: SafeGet(b, c, r) == 0
    ensures Evaluate(b, player) == 0
  {
    EmptyCells(b, player, 0, 0);
    EmptyCenter(b, player, 6);
  }

  /** The centre-column count never exceeds the rows scanned. */
  lemma {:induction false} CenterCountBound(b: ColBoard, player: int, n: int)
    requires 0 <= n <= 6
    ensures 0 <= CenterCount(b, player, n) <= n
  {
    if n > 0 {
      CenterCountBound(b, player, n - 1);
    }
  }

  /** The centre-column bonus of _evaluate_board lies between 0 and 3 * 6 = 18. */
  lemma CenterBonusBound(b: ColBoard, player: int)
    ensures 0 <= Evaluate(b, player) - CellsFrom(b, player, 0, 0) <= 18
  {
    CenterCountBound(b, player, 6);
  }

  /** _evaluate_board's loops: the centre count, then every occupied cell's four windows. */
  method EvaluateBoard(b: ColBoard, player: int) returns (score: int)
    ensures score == Evaluate(b, player)
  {
    score := 0;
    var count := 0;
    var r := 0;
    while r < 6
      invariant 0 <= r <= 6 && count == CenterCount(b, player, r)
    {
      if SafeGet(b, 3, r) == player {
        count := count + 1;
      }
      r := r + 1;
    }
    score := score + count * 3;
    ghost var total := Evaluate(b, player);
    var col := 0;
    while col < 7
      invariant 0 <= col <= 7
      invariant score + CellsFrom(b, player, col, 0) == total
    {
      var row := 0;
      while row < 6
        invariant 0 <= row <= 6
        invariant score + CellsFrom(b, player, col, row) == total
      {
        if SafeGet(b, col, row) != 0 {
          var i := 0;
          ghost var before := score;
          while i < 4
            invariant 0 <= i <= 4
            invariant score + DirsFrom(b, player, col, row, i) == before + CellPoints(b, player, col, row)
          {
            var window := WindowAt(b, Lines[i], col, row);
            score := score + WindowPoints(window, player);
            i := i + 1;
          }
        }
        row := row + 1;
      }
      col := col + 1;
    }
  }

  // ---------------------------------------------------------------------
  // The search tree and _minimax

  /** How many of a column's rows 0..n - 1 hold 0. */
  function ZerosIn(s: seq<int>, n: int): nat
    requires 0 <= n
  {
    if n == 0 then 0 else ZerosIn(s, n - 1) + (if n - 1 < |s| && s[n - 1] == 0 then 1 else 0)
  }

  /** How many cells of columns 0..c - 1, rows 0..5, hold 0: what the search can still fill. */
  function ZeroCells(b: ColBoard, c: int): nat
    requires 0 <= c
  {
    if c == 0 then 0 else ZeroCells(b, c - 1) + (if c - 1 < |b| then ZerosIn(b[c - 1], 6) else 0)
  }

  lemma {:induction false} ZerosInUpdate(s: seq<int>, row: int, p: int, n: int)
    requires 0 <= row < |s| && s[row] == 0 && p != 0 && 0 <= n
    ensures ZerosIn(s[row := p], n) == ZerosIn(s, n) - (if row < n then 1 else 0)
  {
    if n > 0 {
      ZerosInUpdate(s, row, p, n - 1);
    }
  }

  lemma {:induction false} ZeroCellsUpdate(b: ColBoard, col: int, s: seq<int>, c: int)
    requires 0 <= col < |b| && ZerosIn(s, 6) == ZerosIn(b[col], 6) - 1 && 0 <= c
    ensures ZeroCells(b[col := s], c) == ZeroCells(b, c) - (if col < c then 1 else 0)
  {
    if c > 0 {
      ZeroCellsUpdate(b, col, s, c - 1);
    }
  }

  /** Dropping a non-empty piece into a playable column leaves one fewer free cell. */
  lemma DropFillsOne(b: ColBoard, col: int, p: int)
    requires Columns(b) && Playable(b, col)
    ensures Drop(b, col, p).Some?
    ensures p != 0 ==> ZeroCells(Drop(b, col, p).value, 7) == ZeroCells(b, 7) - 1
  {
    DropSpec(b, col, p);
    if p != 0 {
      var row := OpenRowBelow(b[col], 6);
      ZerosInUpdate(b[col], row, p, 6);
      ZeroCellsUpdate(b, col, b[col][row := p], 7);
    }
  }

  /**
   * The tree _minimax searches: a four of the player scores 1000 + depth, a
   * four of the opponent -1000 - depth, a full board or depth 0 the
   * evaluation; otherwise one subtree per playable column 0..6, the
   * maximiser dropping the player's piece and the minimiser the opponent's.
   * The precondition is what the decreases measure needs, and every caller
   * meets it: the controller searches for player 2. With player 0 the source
   * ends too: on a board without a four check_win's 0 equals the player and
   * scores at once, and otherwise the minimiser's piece 1 fills the board.
   */
  function Build(b: ColBoard, depth: int, isMax: bool, player: int): Tree
    requires Columns(b) && (player != 0 || depth >= 0)
    decreases if player != 0 then ZeroCells(b, 7) else 0, depth, 1
  {
    var winner := CheckWin(b);
    if winner == player then Leaf(1000 + depth)
    else if winner == OpponentOf(player) then Leaf(-1000 - depth)
    else if Full(b) || depth == 0 then Leaf(Evaluate(b, player))
    else Node(KidsFrom(b, depth, isMax, player, 0))
  }

  /** The subtrees of the playable columns among col..6, in order. */
  function KidsFrom(b: ColBoard, depth: int, isMax: bool, player: int, col: int): seq<Tree>
    requires Columns(b) && 0 <= col && (player != 0 || depth >= 1)
    decreases if player != 0 then ZeroCells(b, 7) else 0, depth, 0, 7 - col
  {
    if col >= 7 then []
    else if Playable(b, col) then
      var piece := if isMax then player else OpponentOf(player);
      PlayableDrops(b, col, piece);
      DropFillsOne(b, col, piece);
      [Build(Drop(b, col, piece).value, depth - 1, !isMax, player)] + KidsFrom(b, depth, isMax, player, col + 1)
    else KidsFrom(b, depth, isMax, player, col + 1)
  }

  /**
   * The terminal values: the player's four is worth 1000 + depth and the
   * opponent's -1000 - depth, so with more depth left (a nearer win) a win
   * is worth more and a loss less.
   */
  lemma TerminalScores(b: ColBoard, depth: int, isMax: bool, player: int)
    requires Columns(b) && (player != 0 || depth >= 0)
    ensures CheckWin(b) == player ==> Minimax(Build(b, depth, isMax, player), isMax) == Fin(1000 + depth)
    ensures CheckWin(b) != player && CheckWin(b) == OpponentOf(player) ==>
      Minimax(Build(b, depth, isMax, player), isMax) == Fin(-1000 - depth)
    ensures CheckWin(b) != player && CheckWin(b) != OpponentOf(player) && (Full(b) || depth == 0) ==>
      Minimax(Build(b, depth, isMax, player), isMax) == Fin(Evaluate(b, player))
  {
  }

  /** A nearer win outscores a farther one, and a farther loss a nearer one. */
  lemma NearerWinsFirst(b: ColBoard, b': ColBoard, d: int, d': int, isMax: bool, player: int)
    requires Columns(b) && Columns(b') && player != 0 && d > d'
    ensures CheckWin(b) == player && CheckWin(b') == player ==>
      Lt(Minimax(Build(b', d', isMax, player), isMax), Minimax(Build(b, d, isMax, player), isMax))
    ensures CheckWin(b) == OpponentOf(player) && CheckWin(b') == OpponentOf(player) ==>
      Lt(Minimax(Build(b, d, isMax, player), isMax), Minimax(Build(b', d', isMax, player), isMax))
  {
    TerminalScores(b, d, isMax, player);
    TerminalScores(b', d', isMax, player);
  }

  lemma BuildNode(b: ColBoard, depth: int, isMax: bool, player: int)
    requires Columns(b) && (player != 0 || depth >= 0)
    requires CheckWin(b) != player && CheckWin(b) != OpponentOf(player) && !Full(b) && depth != 0
    ensures Build(b, depth, isMax, player) == Node(KidsFrom(b, depth, isMax, player, 0))
  {
  }

  lemma KidsStep(b: ColBoard, depth: int, isMax: bool, player: int, col: int)
    requires Columns(b) && 0 <= col < 7 && (player != 0 || depth >= 1) && Playable(b, col)
    ensures Drop(b, col, if isMax then player else OpponentOf(player)).Some?
    ensures KidsFrom(b, depth, isMax, player, col) ==
      [Build(Drop(b, col, if isMax then player else OpponentOf(player)).value, depth - 1, !isMax, player)] +
      KidsFrom(b, depth, isMax, player, col + 1)
  {
    PlayableDrops(b, col, if isMax then player else OpponentOf(player));
  }

  /** _minimax: the terminal tests, then the pruned loop over columns 0..6. */
  method Search(b: ColBoard, depth: int, isMax: bool, alpha: Score, beta: Score, player: int) returns (r: Score)
    requires Columns(b) && (player != 0 || depth >= 0)
    ensures r == AlphaBeta(Build(b, depth, isMax, player), isMax, alpha, beta)
    decreases if player != 0 then ZeroCells(b, 7) else 0, depth, 2
  {
    var opponent := if player == 1 then 2 else 1;
    var winner := CheckWin(b);
    if winner == player {
      return Fin(1000 + depth);
    } else if winner == opponent {
      return Fin(-1000 - depth);
    } else if Full(b) || depth == 0 {
      var s := EvaluateBoard(b, player);
      return Fin(s);
    }
    BuildNode(b, depth, isMax, player);
    if isMax {
      r := MaxChildren(b, depth, alpha, beta, player);
    } else {
      r := MinChildren(b, depth, alpha, beta, player);
    }
  }

  /** The maximising loop: the player's piece in each playable column, best so far, alpha raised. */
  method MaxChildren(b: ColBoard, depth: int, alpha: Score, beta: Score, player: int) returns (r: Score)
    requires Columns(b) && (player != 0 || depth >= 1)
    ensures r == MaxLoop(KidsFrom(b, depth, true, player, 0), alpha, beta, NegInf)
    decreases if player != 0 then ZeroCells(b, 7) else 0, depth, 1
  {
    r := NegInf;
    var a := alpha;
    var col := 0;
    while col < 7
      invariant 0 <= col <= 7
      invariant MaxLoop(KidsFrom(b, depth, true, player, 0), alpha, beta, NegInf) == MaxLoop(KidsFrom(b, depth, true, player, col), a, beta, r)
    {
      var cut;
      a, r, cut := MaxStep(b, depth, col, a, beta, r, player);
      if cut {
        return;
      }
      col := col + 1;
    }
  }

  /** One column of the maximising loop: skipped when full, else the player's piece dropped and searched. */
  method MaxStep(b: ColBoard, depth: int, col: int, a: Score, beta: Score, r: Score, player: int)
    returns (a': Score, r': Score, cut: bool)
    requires Columns(b) && (player != 0 || depth >= 1) && 0 <= col < 7
    ensures cut ==> MaxLoop(KidsFrom(b, depth, true, player, col), a, beta, r) == r'
    ensures !cut ==> MaxLoop(KidsFrom(b, depth, true, player, col), a, beta, r) == MaxLoop(KidsFrom(b, depth, true, player, col + 1), a', beta, r')
    decreases if player != 0 then ZeroCells(b, 7) else 0, depth, 0
  {
    a', r', cut := a, r, false;
    if col >= |b| || b[col][0] != 0 {
      return;
    }
    PlayableDrops(b, col, player);
    var ok, copy := MakeMove(b, col, player);
    DropFillsOne(b, col, player);
    var score := Search(copy, depth - 1, false, a, beta, player);
    r' := Max(r, score);
    a' := Max(a, score);
    cut := Le(beta, a');
    MaxStepSpec(b, depth, col, a, beta, r, player, score);
  }

  /** The maximising loop's step in terms of the trees: the child's alpha-beta value updates best and alpha. */
  lemma MaxStepSpec(b: ColBoard, depth: int, col: int, a: Score, beta: Score, r: Score, player: int, score: Score)
    requires Columns(b) && (player != 0 || depth >= 1) && 0 <= col < 7 && Playable(b, col)
    requires Drop(b, col, player).Some? && score == AlphaBeta(Build(Drop(b, col, player).value, depth - 1, false, player), false, a, beta)
    ensures Le(beta, Max(a, score)) ==> MaxLoop(KidsFrom(b, depth, true, player, col), a, beta, r) == Max(r, score)
    ensures !Le(beta, Max(a, score)) ==>
      MaxLoop(KidsFrom(b, depth, true, player, col), a, beta, r) == MaxLoop(KidsFrom(b, depth, true, player, col + 1), Max(a, score), beta, Max(r, score))
  {
    KidsStep(b, depth, true, player, col);
    MaxLoopCons(Build(Drop(b, col, player).value, depth - 1, false, player), KidsFrom(b, depth, true, player, col + 1), a, beta, r);
  }

  /** The minimising loop: the opponent's piece in each playable column, lowest so far, beta lowered. */
  method MinChildren(b: ColBoard, depth: int, alpha: Score, beta: Score, player: int) returns (r: Score)
    requires Columns(b) && (player != 0 || depth >= 1)
    ensures r == MinLoop(KidsFrom(b, depth, false, player, 0), alpha, beta, PosInf)
    decreases if player != 0 then ZeroCells(b, 7) else 0, depth, 1
  {
    r := PosInf;
    var bt := beta;
    var col := 0;
    while col < 7
      invariant 0 <= col <= 7
      invariant MinLoop(KidsFrom(b, depth, false, player, 0), alpha, beta, PosInf) == MinLoop(KidsFrom(b, depth, false, player, col), alpha, bt, r)
    {
      var cut;
      bt, r, cut := MinStep(b, depth, col, alpha, bt, r, player);
      if cut {
        return;
      }
      col := col + 1;
    }
  }

  /** One column of the minimising loop: skipped when full, else the opponent's piece dropped and searched. */
  method MinStep(b: ColBoard, depth: int, col: int, alpha: Score, bt: Score, r: Score, player: int)
    returns (bt': Score, r': Score, cut: bool)
    requires Columns(b) && (player != 0 || depth >= 1) && 0 <= col < 7
    ensures cut ==> MinLoop(KidsFrom(b, depth, false, player, col), alpha, bt, r) == r'
    ensures !cut ==> MinLoop(KidsFrom(b, depth, false, player, col), alpha, bt, r) == MinLoop(KidsFrom(b, depth, false, player, col + 1), alpha, bt', r')
    decreases if player != 0 then ZeroCells(b, 7) else 0, depth, 0
  {
    bt', r', cut := bt, r, false;
    if col >= |b| || b[col][0] != 0 {
      return;
    }
    var opponent := OpponentOf(player);
    PlayableDrops(b, col, opponent);
    var ok, copy := MakeMove(b, col, opponent);
    DropFillsOne(b, col, opponent);
    var score := Search(copy, depth - 1, true, alpha, bt, player);
    r' := Min(r, score);
    bt' := Min(bt, score);
    cut := Le(bt', alpha);
    MinStepSpec(b, depth, col, alpha, bt, r, player, score);
  }

  /** The minimising loop's step in terms of the trees: the child's alpha-beta value updates best and beta. */
  lemma MinStepSpec(b: ColBoard, depth: int, col: int, alpha: Score, bt: Score, r: Score, player: int, score: Score)
    requires Columns(b) && (player != 0 || depth >= 1) && 0 <= col < 7 && Playable(b, col)
    requires Drop(b, col, OpponentOf(player)).Some?
    requires score == AlphaBeta(Build(Drop(b, col, OpponentOf(player)).value, depth - 1, true, player), true, alpha, bt)
    ensures Le(Min(bt, score), alpha) ==> MinLoop(KidsFrom(b, depth, false, player, col), alpha, bt, r) == Min(r, score)
    ensures !Le(Min(bt, score), alpha) ==>
      MinLoop(KidsFrom(b, depth, false, player, col), alpha, bt, r) == MinLoop(KidsFrom(b, depth, false, player, col + 1), alpha, Min(bt, score), Min(r, score))
  {
    KidsStep(b, depth, false, player, col);
    MinLoopCons(Build(Drop(b, col, OpponentOf(player)).value, depth - 1, true, player), KidsFrom(b, depth, false, player, col + 1), alpha, bt, r);
  }

  // ---------------------------------------------------------------------
  // find_best_move

  /** The full minimax value find_best_move compares for a column (the opponent to move next). */
  ghost function MoveScore(b: ColBoard, player: int, depth: int, col: int): Score
    requires Columns(b) && Playable(b, col) && (player != 0 || depth >= 0)
  {
    PlayableDrops(b, col, player);
    Minimax(Build(Drop(b, col, player).value, depth, false, player), false)
  }

  /** The score of every column 0..6, None where the column is full. */
  ghost function ColumnScores(b: ColBoard, player: int, depth: int): (s: seq<Option<Score>>)
    requires Columns(b) && (player != 0 || depth >= 0)
    ensures |s| == 7
    ensures forall c :: 0 <= c < 7 ==> (s[c].Some? <==> Playable(b, c))
    ensures forall c :: 0 <= c < 7 && Playable(b, c) ==> s[c] == Some(MoveScore(b, player, depth, c))
  {
    seq(7, c requires 0 <= c < 7 => if Playable(b, c) then Some(MoveScore(b, player, depth, c)) else None)
  }

  /**
   * After the first n columns of s: best holds the first column with the
   * highest score so far, or stays 3 while every score seen is -inf.
   */
  ghost predicate FirstBest(s: seq<Option<Score>>, n: int, best: int, bestScore: Score)
    requires 0 <= n <= |s|
  {
    (bestScore == NegInf ==> best == 3 && forall c :: 0 <= c < n && s[c].Some? ==> s[c].value == NegInf) &&
    (bestScore != NegInf ==>
      0 <= best < n && s[best] == Some(bestScore) &&
      (forall c :: 0 <= c < n && s[c].Some? ==> Le(s[c].value, bestScore)) &&
      (forall c :: 0 <= c < best && s[c].Some? ==> Lt(s[c].value, bestScore)))
  }

  /** One column more: a strictly better score takes over, anything else leaves the choice alone. */
  lemma FirstBestStep(s: seq<Option<Score>>, n: int, best: int, bestScore: Score)
    requires 0 <= n < |s| && FirstBest(s, n, best, bestScore)
    ensures s[n].None? ==> FirstBest(s, n + 1, best, bestScore)
    ensures s[n].Some? && Lt(bestScore, s[n].value) ==> FirstBest(s, n + 1, n, s[n].value)
    ensures s[n].Some? && !Lt(bestScore, s[n].value) ==> FirstBest(s, n + 1, best, bestScore)
  {
    if s[n].Some? && Lt(bestScore, s[n].value) && bestScore != NegInf {
      forall c | 0 <= c < n && s[c].Some?
        ensures Lt(s[c].value, s[n].value)
      {
        LeLtTrans(s[c].value, bestScore, s[n].value);
      }
    }
  }

  /**
   * find_best_move: the first playable column whose score beats every
   * earlier one and is matched by no later one, when some column scores
   * above -inf; otherwise the default column 3, playable or not.
   */
  method FindBestMove(b: ColBoard, player: int, maxDepth: int) returns (best: int)
    requires Columns(b) && (player != 0 || maxDepth >= 0)
    ensures best == 3 || Playable(b, best)
    ensures (forall c :: Playable(b, c) ==> MoveScore(b, player, maxDepth, c) == NegInf) ==> best == 3
    ensures (exists c :: Playable(b, c) && MoveScore(b, player, maxDepth, c) != NegInf) ==>
      Playable(b, best) && MoveScore(b, player, maxDepth, best) != NegInf &&
      (forall c :: Playable(b, c) ==> Le(MoveScore(b, player, maxDepth, c), MoveScore(b, player, maxDepth, best))) &&
      (forall c :: Playable(b, c) && c < best ==> Lt(MoveScore(b, player, maxDepth, c), MoveScore(b, player, maxDepth, best)))
  {
    var bestScore := NegInf;
    best := 3;
    ghost var scores := ColumnScores(b, player, maxDepth);
    var col := 0;
    while col < 7
      invariant 0 <= col <= 7
      invariant FirstBest(scores, col, best, bestScore)
    {
      FirstBestStep(scores, col, best, bestScore);
      if col < |b| && b[col][0] != 0 {
        col := col + 1;
        continue;
      }
      var ok, copy := MakeMove(b, col, player);
      if ok {
        assert Playable(b, col);
        var score := Search(copy, maxDepth, false, NegInf, PosInf, player);
        AlphaBetaIsMinimax(Build(copy, maxDepth, false, player), false);
        assert scores[col] == Some(score);
        if Lt(bestScore, score) {
          bestScore := score;
          best := col;
        }
      }
      col := col + 1;
    }
  }
}
