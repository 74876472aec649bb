/**
 * The solver-free part of the StateValidator of game/state_validator.py:
 * the local win test around a cell, the winning-move finder, the move
 * check and the estimate of the moves still needed to win. The validator
 * reads the row-major board of a Rules.Game (row 0 is the top row).
 */
module GameValidator {
  import opened Rules

  /** The validator object: only its board dimensions matter here. */
  datatype StateValidator = StateValidator(rows: int, cols: int)

  /** The validator's defaults, 6 rows and 7 columns. */
  function DefaultValidator(): (v: StateValidator)
    ensures v.rows == 6 && v.cols == 7
  {
    StateValidator(6, 7)
  }

  /** The board has the dimensions the validator loops over. */
  predicate Fits(v: StateValidator, b: Board)
  {
    Rect(b) && |b| == v.rows && Cols(b) == v.cols
  }

  // ---------------------------------------------------------------------
  // _check_win_at: runs through one cell

  /** Row of the cell i steps from (row, col) along d (Rising is the negative slope, Falling the positive one). */
  function RunRow(d: Dir, row: int, i: int): int
  {
    match d
    case Horizontal => row
    case Vertical => row + i
    case Rising => row + i
    case Falling => row - i
  }

  function RunCol(d: Dir, col: int, i: int): int
  {
    if d == Vertical then col else col + i
  }

  /** The cell i steps away lies on the board and holds p. */
  predicate Hit(v: StateValidator, b: Board, d: Dir, row: int, col: int, p: Player, i: int)
    requires Fits(v, b)
  {
    var r, c := RunRow(d, row, i), RunCol(d, col, i);
    0 <= r < v.rows && 0 <= c < v.cols && b[r][c] == p
  }

  /** Four hits in a row, starting s steps from (row, col). */
  predicate RunFrom(v: StateValidator, b: Board, d: Dir, row: int, col: int, p: Player, s: int)
    requires Fits(v, b)
  {
    Hit(v, b, d, row, col, p, s) && Hit(v, b, d, row, col, p, s + 1) &&
    Hit(v, b, d, row, col, p, s + 2) && Hit(v, b, d, row, col, p, s + 3)
  }

  /** Four or more consecutive cells of p on a line through (row, col), all within 3 steps of it. */
  ghost predicate WinThrough(v: StateValidator, b: Board, row: int, col: int, p: Player)
    requires Fits(v, b)
  {
    exists d, s :: -3 <= s <= 0 && RunFrom(v, b, d, row, col, p, s)
  }

  /** The running counter of _check_win_at after the steps lo .. i-1. */
  function RunLen(v: StateValidator, b: Board, d: Dir, row: int, col: int, p: Player, lo: int, i: int): (n: nat)
    requires Fits(v, b)
    ensures lo <= i ==> n <= i - lo
    decreases i - lo
  {
    if i <= lo then 0
    else if Hit(v, b, d, row, col, p, i - 1) then RunLen(v, b, d, row, col, p, lo, i - 1) + 1
    else 0
  }

  /** The counter reaches k exactly when the last k cells scanned are all hits. */
  lemma {:induction false} RunLenCovers(v: StateValidator, b: Board, d: Dir, row: int, col: int, p: Player, lo: int, i: int, k: nat)
    requires Fits(v, b) && lo <= i - k
    ensures RunLen(v, b, d, row, col, p, lo, i) >= k <==> forall j :: i - k <= j < i ==> Hit(v, b, d, row, col, p, j)
    decreases k
  {
    if k > 0 {
      RunLenCovers(v, b, d, row, col, p, lo, i - 1, k - 1);
    }
  }

  /** The bounds of the loop of _check_win_at along d, as steps from (row, col). */
  function Lo(v: StateValidator, d: Dir, row: int, col: int): int
  {
    match d
    case Horizontal => (if col - 3 < 0 then 0 else col - 3) - col
    case Vertical => (if row - 3 < 0 then 0 else row - 3) - row
    case Rising => -3
    case Falling => -3
  }

  function Hi(v: StateValidator, d: Dir, row: int, col: int): int
  {
    match d
    case Horizontal => (if v.cols < col + 4 then v.cols else col + 4) - col
    case Vertical => (if v.rows < row + 4 then v.rows else row + 4) - row
    case Rising => 4
    case Falling => 4
  }

  /** One loop of _check_win_at: a counter of consecutive hits, reset by a miss or an off-board cell. */
  method LineRun(v: StateValidator, b: Board, d: Dir, row: int, col: int, p: Player) returns (found: bool)
    requires Fits(v, b)
    ensures found <==> exists s :: Lo(v, d, row, col) <= s && s + 4 <= Hi(v, d, row, col) && RunFrom(v, b, d, row, col, p, s)
  {
    var lo, hi := Lo(v, d, row, col), Hi(v, d, row, col);
    var count := 0;
    var i := lo;
    while i < hi
      invariant lo <= i
      invariant count == RunLen(v, b, d, row, col, p, lo, i) && count < 4
      invariant NoRunBefore(v, b, d, row, col, p, lo, i)
    {
      var full;
      count, full := CountCell(v, b, d, row, col, p, lo, i, count);
      if full {
        assert lo <= i - 3 && i + 1 <= hi;
        return true;
      }
      i := i + 1;
    }
    return false;
  }

  /** The counter of _check_win_at at step i: the new count, and whether it has reached 4. */
  method CountCell(v: StateValidator, b: Board, d: Dir, row: int, col: int, p: Player, lo: int, i: int, count: int)
    returns (count': int, full: bool)
    requires Fits(v, b) && lo <= i && count == RunLen(v, b, d, row, col, p, lo, i) && count < 4
    requires NoRunBefore(v, b, d, row, col, p, lo, i)
    ensures full ==> lo <= i - 3 && RunFrom(v, b, d, row, col, p, i - 3)
    ensures !full ==> count' == RunLen(v, b, d, row, col, p, lo, i + 1) && count' < 4 && NoRunBefore(v, b, d, row, col, p, lo, i + 1)
  {
    RunStep(v, b, d, row, col, p, lo, i);
    var r, c := RunRow(d, row, i), RunCol(d, col, i);
    if 0 <= r < v.rows && 0 <= c < v.cols && b[r][c] == p {
      count' := count + 1;
    } else {
      count' := 0;
    }
    full := count' >= 4;
  }

  /** No run of four starts at a step s with lo <= s and s + 4 <= i. */
  predicate NoRunBefore(v: StateValidator, b: Board, d: Dir, row: int, col: int, p: Player, lo: int, i: int)
    requires Fits(v, b)
  {
    forall s :: lo <= s && s + 4 <= i ==> !RunFrom(v, b, d, row, col, p, s)
  }

  /** One more cell for the counter: it reaches 4 on a run, and otherwise no run has been passed. */
  lemma RunStep(v: StateValidator, b: Board, d: Dir, row: int, col: int, p: Player, lo: int, i: int)
    requires Fits(v, b) && lo <= i && RunLen(v, b, d, row, col, p, lo, i) < 4
    requires NoRunBefore(v, b, d, row, col, p, lo, i)
    ensures RunLen(v, b, d, row, col, p, lo, i + 1) >= 4 ==> lo <= i - 3 && RunFrom(v, b, d, row, col, p, i - 3)
    ensures RunLen(v, b, d, row, col, p, lo, i + 1) < 4 ==> NoRunBefore(v, b, d, row, col, p, lo, i + 1)
  {
    var n := RunLen(v, b, d, row, col, p, lo, i + 1);
    if lo <= i - 3 {
      assert n >= 4 <==> RunFrom(v, b, d, row, col, p, i - 3) by {
        RunLenCovers(v, b, d, row, col, p, lo, i + 1, 4);
      }
    }
    if n < 4 {
      forall s | lo <= s && s + 4 <= i + 1
        ensures !RunFrom(v, b, d, row, col, p, s)
      {
        if s + 4 > i {
          assert s == i - 3;
        }
      }
    }
  }

  /** Inside the board the loop bounds keep exactly the runs within 3 steps of (row, col). */
  lemma LoopBounds(v: StateValidator, b: Board, d: Dir, row: int, col: int, p: Player, s: int)
    requires Fits(v, b) && 0 <= row < v.rows && 0 <= col < v.cols
    ensures RunFrom(v, b, d, row, col, p, s) ==>
      (-3 <= s <= 0 <==> Lo(v, d, row, col) <= s && s + 4 <= Hi(v, d, row, col))
  {
    if RunFrom(v, b, d, row, col, p, s) {
      assert Hit(v, b, d, row, col, p, s) && Hit(v, b, d, row, col, p, s + 3);
    }
  }

  /** _check_win_at: horizontal, vertical, then the two diagonals. */
  method CheckWinAt(v: StateValidator, b: Board, row: int, col: int, p: Player) returns (win: bool)
    requires Fits(v, b) && 0 <= row < v.rows && 0 <= col < v.cols
    ensures win <==> WinThrough(v, b, row, col, p)
  {
    forall d, s {:trigger RunFrom(v, b, d, row, col, p, s)} {
      LoopBounds(v, b, d, row, col, p, s);
    }
    win := LineRun(v, b, Horizontal, row, col, p);
    if win {
      return;
    }
    win := LineRun(v, b, Vertical, row, col, p);
    if win {
      return;
    }
    win := LineRun(v, b, Rising, row, col, p);
    if win {
      return;
    }
    win := LineRun(v, b, Falling, row, col, p);
  }

  /** The check_win window of a run: where the scan of check_win meets the same four cells. */
  function ScanOuter(d: Dir, row: int, col: int, s: int): int
  {
    match d
    case Horizontal => row
    case Vertical => col
    case Rising => row + s
    case Falling => row - s
  }

  function ScanInner(d: Dir, row: int, col: int, s: int): int
  {
    if d == Vertical then row + s else col + s
  }

  /** A run of a player's pieces through a cell is a four in a row in the sense of check_win. */
  lemma RunIsFour(v: StateValidator, b: Board, d: Dir, row: int, col: int, p: Player, s: int)
    requires Fits(v, b) && p != Empty && RunFrom(v, b, d, row, col, p, s)
    ensures FourAt(b, d, ScanOuter(d, row, col, s), ScanInner(d, row, col, s))
    ensures Window(b, d, ScanOuter(d, row, col, s), ScanInner(d, row, col, s)) == [p, p, p, p]
  {
    var o, n := ScanOuter(d, row, col, s), ScanInner(d, row, col, s);
    assert Hit(v, b, d, row, col, p, s) && Hit(v, b, d, row, col, p, s + 3);
    assert InScan(b, d, o, n);
    forall i | 0 <= i < 4
      ensures Cell(b, d, o, n, i) == p
    {
      assert Hit(v, b, d, row, col, p, s + i);
    }
  }

  /** _check_win_at is sound: a run through the cell is a win on the board. */
  lemma WinThroughHasFour(v: StateValidator, b: Board, row: int, col: int, p: Player)
    requires Fits(v, b) && p != Empty && WinThrough(v, b, row, col, p)
    ensures HasFour(b)
  {
    var d, s :| -3 <= s <= 0 && RunFrom(v, b, d, row, col, p, s);
    RunIsFour(v, b, d, row, col, p, s);
  }

  /**
   * _check_win_at is complete for a fresh piece: when the board had no four
   * and p is placed at (row, col), any four on the new board runs through
   * (row, col) and is p's.
   */
  lemma NewFourRunsThrough(v: StateValidator, b: Board, row: int, col: int, p: Player)
    requires Fits(v, b) && 0 <= row < v.rows && 0 <= col < v.cols && p != Empty && !HasFour(b)
    ensures Fits(v, Place(b, row, col, p))
    ensures HasFour(Place(b, row, col, p)) <==> WinThrough(v, Place(b, row, col, p), row, col, p)
  {
    var b' := Place(b, row, col, p);
    if HasFour(b') {
      var d, o, n :| FourAt(b', d, o, n);
      NewFourOwner(b, row, col, p);
      var i := FreshCell(b, b', d, o, n, row, col, p);
      var s := if d == Vertical then n - row else n - col;
      assert s == -i;
      RunOfFour(v, b', d, o, n, row, col, p, s);
    }
    if WinThrough(v, b', row, col, p) {
      WinThroughHasFour(v, b', row, col, p);
    }
  }

  /** The cells of a four of p's pieces, seen from one of its cells s steps before the window's start. */
  lemma RunOfFour(v: StateValidator, b: Board, d: Dir, o: int, n: int, row: int, col: int, p: Player, s: int)
    requires Fits(v, b) && FourAt(b, d, o, n) && Window(b, d, o, n)[0] == p
    requires CellRow(d, o, n, -s) == row && CellCol(d, o, n, -s) == col && -3 <= s <= 0
    ensures RunFrom(v, b, d, row, col, p, s)
  {
    var w := Window(b, d, o, n);
    assert w[0] == Cell(b, d, o, n, 0) && w[1] == Cell(b, d, o, n, 1) && w[2] == Cell(b, d, o, n, 2) && w[3] == Cell(b, d, o, n, 3);
  }

  /** A four that appears after placing a piece covers the placed cell: its index in the window. */
  lemma FreshCell(b: Board, b': Board, d: Dir, o: int, n: int, row: int, col: int, p: Player) returns (i: int)
    requires Rect(b) && 0 <= row < |b| && 0 <= col < Cols(b) && b' == Place(b, row, col, p)
    requires !HasFour(b) && FourAt(b', d, o, n)
    ensures 0 <= i < 4 && CellRow(d, o, n, i) == row && CellCol(d, o, n, i) == col
  {
    if forall k :: 0 <= k < 4 ==> (CellRow(d, o, n, k), CellCol(d, o, n, k)) != (row, col) {
      forall k | 0 <= k < 4
        ensures Cell(b, d, o, n, k) == Cell(b', d, o, n, k)
      {
      }
      assert Window(b, d, o, n) == Window(b', d, o, n);
      assert FourAt(b, d, o, n);
      assert false;
    }
    i :| 0 <= i < 4 && CellRow(d, o, n, i) == row && CellCol(d, o, n, i) == col;
  }

  // ---------------------------------------------------------------------
  // next_moves_for_win, validate_move, minimum_moves_to_win

  /** A legal column has a landing row, settled board or not: its top cell is empty. */
  lemma LandingRow(g: Game, col: int)
    requires Rect(g.board) && IsValidMove(g, col)
    ensures 0 <= NextOpenRow(g.board, col) < |g.board|
  {
  }

  /** The board after p drops a piece into the legal column col. */
  function DropBoard(g: Game, col: int, p: Player): Board
    requires Rect(g.board) && IsValidMove(g, col)
  {
    LandingRow(g, col);
    Place(g.board, NextOpenRow(g.board, col), col, p)
  }

  /** Dropping p into col makes a run of four through the landing cell. */
  ghost predicate WinningDrop(v: StateValidator, g: Game, col: int, p: Player)
    requires Fits(v, g.board)
  {
    IsValidMove(g, col) && WinThrough(v, DropBoard(g, col, p), NextOpenRow(g.board, col), col, p)
  }

  /** One pass of next_moves_for_win: drop p into a copy of the board and check the landing cell. */
  method TryColumn(v: StateValidator, g: Game, col: int, p: Player) returns (win: bool)
    requires Fits(v, g.board) && IsValidMove(g, col)
    ensures win == WinningDrop(v, g, col, p)
  {
    LandingRow(g, col);
    var row := NextOpenRow(g.board, col);
    win := CheckWinAt(v, Place(g.board, row, col, p), row, col, p);
  }

  /** next_moves_for_win: the legal columns, in increasing order, where a drop of p wins at its landing cell. */
  method NextMovesForWin(v: StateValidator, g: Game, p: Player) returns (moves: seq<int>)
    requires Fits(v, g.board)
    ensures forall x :: x in moves <==> WinningDrop(v, g, x, p)
    ensures forall i, j :: 0 <= i < j < |moves| ==> moves[i] < moves[j]
  {
    var valid := ValidColumns(g);
    ghost var wins := WinningColumns(v, g, p);
    moves := [];
    var k := 0;
    while k < |valid|
      invariant 0 <= k <= |valid|
      invariant Collected(valid, k, v.cols, moves, wins)
    {
      var col := valid[k];
      assert col in valid;
      var win := TryColumn(v, g, col, p);
      ghost var before := moves;
      if win {
        moves := moves + [col];
      }
      CollectStep(g, valid, k, v.cols, wins, before, moves);
      k := k + 1;
    }
  }

  /** The columns where a drop of p wins at its landing cell, as a set. */
  lemma WinningColumns(v: StateValidator, g: Game, p: Player) returns (wins: iset<int>)
    requires Fits(v, g.board)
    ensures forall x :: x in wins <==> WinningDrop(v, g, x, p)
  {
    wins := iset x | WinningDrop(v, g, x, p);
  }

  /**
   * The loop invariant of next_moves_for_win after k legal columns: moves
   * lists, in increasing order, the columns of wins below the next one.
   */
  ghost predicate Collected(valid: seq<int>, k: int, cols: int, moves: seq<int>, wins: iset<int>)
    requires 0 <= k <= |valid|
  {
    (forall x :: x in moves <==> x < Next(valid, k, cols) && x in wins) &&
    (forall i :: 0 <= i < |moves| ==> moves[i] < Next(valid, k, cols)) &&
    (forall i, j :: 0 <= i < j < |moves| ==> moves[i] < moves[j])
  }

  lemma CollectStep(g: Game, valid: seq<int>, k: int, cols: int, wins: iset<int>, moves: seq<int>, moves': seq<int>)
    requires Rect(g.board) && valid == ValidColumns(g) && cols == Cols(g.board) && 0 <= k < |valid|
    requires forall x :: x in wins ==> IsValidMove(g, x)
    requires Collected(valid, k, cols, moves, wins)
    requires moves' == if valid[k] in wins then moves + [valid[k]] else moves
    ensures Collected(valid, k + 1, cols, moves', wins)
  {
    var col, next := valid[k], Next(valid, k + 1, cols);
    NextAbove(g, valid, k, cols);
    assert Next(valid, k, cols) == col;
    forall x
      ensures x in moves' <==> x < next && x in wins
    {
      assert x in moves' <==> x in moves || (x == col && col in wins);
    }
    assert forall i :: 0 <= i < |moves'| ==> moves'[i] < next by {
      assert forall i :: 0 <= i < |moves'| ==> moves'[i] in moves';
    }
  }

  /** The next legal column lies above the k-th, and no legal column lies between them. */
  lemma NextAbove(g: Game, valid: seq<int>, k: int, cols: int)
    requires Rect(g.board) && valid == ValidColumns(g) && cols == Cols(g.board) && 0 <= k < |valid|
    ensures valid[k] < Next(valid, k + 1, cols)
    ensures forall x :: x < Next(valid, k + 1, cols) && IsValidMove(g, x) ==> x <= valid[k]
  {
    var col, next := valid[k], Next(valid, k + 1, cols);
    assert col < next by {
      assert col in valid;
    }
    forall x | x < next && IsValidMove(g, x)
      ensures x <= col
    {
      assert x in valid;
    }
  }

  /** The legal column the loop of next_moves_for_win reaches at step k, or cols once past the end. */
  function Next(valid: seq<int>, k: int, cols: int): int
    requires 0 <= k <= |valid|
  {
    if k < |valid| then valid[k] else cols
  }

  /** In an increasing sequence every entry before position k is below the k-th. */
  lemma EarlierIsSmaller(s: seq<int>, k: int, x: int)
    requires 0 <= k < |s| && x in s[..k]
    requires forall i, j :: 0 <= i < j < |s| ==> s[i] < s[j]
    ensures x < s[k]
  {
    var j :| 0 <= j < k && s[..k][j] == x;
    assert s[j] == x;
  }

  /** On a board without a four, a drop is a winning move exactly when the new board has a four. */
  lemma WinningDropIff(v: StateValidator, g: Game, col: int, p: Player)
    requires Fits(v, g.board) && p != Empty && !HasFour(g.board) && IsValidMove(g, col)
    ensures WinningDrop(v, g, col, p) <==> HasFour(DropBoard(g, col, p))
  {
    LandingRow(g, col);
    NewFourRunsThrough(v, g.board, NextOpenRow(g.board, col), col, p);
  }

  /** validate_move: the column is inside the validator's range and its top cell is empty. */
  function ValidateMove(v: StateValidator, g: Game, col: int): (ok: bool)
    requires Fits(v, g.board)
    ensures ok <==> IsValidMove(g, col)
  {
    if col < 0 || col >= v.cols then false
    else g.board[0][col] == Empty
  }

  /** The potential-line count of one horizontal window: p's pieces, unless the opponent is in it. */
  function WindowPotential(w: seq<Player>, p: Player, opp: Player): nat
  {
    if opp in w then 0 else CountRow(w, p)
  }

  /** The window of four cells starting at (row, col), read left to right. */
  function RowWindow(b: Board, row: int, col: int): seq<Player>
    requires Rect(b) && 0 <= row < |b| && 0 <= col && col + 4 <= Cols(b)
  {
    b[row][col..col + 4]
  }

  /** Windows of row `row` starting left of column c. */
  function RowPotential(b: Board, row: int, p: Player, opp: Player, c: int): nat
    requires Rect(b) && 0 <= row < |b| && (c <= 0 || c + 3 <= Cols(b))
    decreases c
  {
    if c <= 0 then 0 else RowPotential(b, row, p, opp, c - 1) + WindowPotential(RowWindow(b, row, c - 1), p, opp)
  }

  /** All horizontal windows of the rows above row r. */
  function Potential(b: Board, p: Player, opp: Player, r: int): nat
    requires Rect(b) && r <= |b|
    decreases r
  {
    if r <= 0 then 0 else Potential(b, p, opp, r - 1) + RowPotential(b, r - 1, p, opp, Cols(b) - 3)
  }

  /** The estimate from a positive potential-line count: max(2, 7 - lines // 2). */
  function Estimate(lines: nat): (m: int)
    requires lines > 0
    ensures 2 <= m <= 7
  {
    if 7 - lines / 2 < 2 then 2 else 7 - lines / 2
  }

  /** The opponent as minimum_moves_to_win takes it: ONE against TWO, TWO otherwise. */
  function OpponentOf(p: Player): Player
  {
    if p == Two then One else Two
  }

  /** The inner loop of minimum_moves_to_win: the potential lines among the horizontal windows of one row. */
  method RowLines(v: StateValidator, g: Game, p: Player, opp: Player, row: int) returns (rowLines: nat)
    requires Fits(v, g.board) && 0 <= row < v.rows
    ensures rowLines == RowPotential(g.board, row, p, opp, v.cols - 3)
  {
    rowLines := 0;
    var col := 0;
    while col < v.cols - 3
      invariant 0 <= col && (col <= v.cols - 3 || col == 0)
      invariant rowLines == RowPotential(g.board, row, p, opp, col)
    {
      var window := g.board[row][col..col + 4];
      rowLines := rowLines + WindowPotential(window, p, opp);
      col := col + 1;
    }
  }

  /** minimum_moves_to_win: 1 with an immediate win, otherwise the estimate from the horizontal windows, or -1. */
  method MinimumMovesToWin(v: StateValidator, g: Game, p: Player) returns (m: int)
    requires Fits(v, g.board)
    ensures m == 1 <==> exists col :: WinningDrop(v, g, col, p)
    ensures m != 1 ==> var lines := Potential(g.board, p, OpponentOf(p), v.rows);
      (lines == 0 ==> m == -1) && (lines > 0 ==> m == Estimate(lines))
    ensures m == -1 || 1 <= m <= 7
  {
    var wins := NextMovesForWin(v, g, p);
    if |wins| > 0 {
      assert wins[0] in wins;
      return 1;
    }
    var opp := OpponentOf(p);
    var lines := 0;
    var row := 0;
    while row < v.rows
      invariant 0 <= row <= v.rows
      invariant lines == Potential(g.board, p, opp, row)
    {
      var rowLines := RowLines(v, g, p, opp, row);
      lines := lines + rowLines;
      row := row + 1;
    }
    if lines > 0 {
      return Estimate(lines);
    }
    return -1;
  }

  /** A player without pieces on the board has no potential lines, so the estimate is 1 or -1. */
  lemma {:induction false} NoPiecesNoPotential(b: Board, p: Player, opp: Player, r: int)
    requires Rect(b) && r <= |b| && forall i, j :: 0 <= i < |b| && 0 <= j < Cols(b) ==> b[i][j] != p
    ensures Potential(b, p, opp, r) == 0
    decreases r
  {
    if r > 0 {
      NoPiecesNoPotential(b, p, opp, r - 1);
      NoPiecesRow(b, r - 1, p, opp, Cols(b) - 3);
    }
  }

  lemma {:induction false} NoPiecesRow(b: Board, row: int, p: Player, opp: Player, c: int)
    requires Rect(b) && 0 <= row < |b| && (c <= 0 || c + 3 <= Cols(b)) && forall j :: 0 <= j < Cols(b) ==> b[row][j] != p
    ensures RowPotential(b, row, p, opp, c) == 0
    decreases c
  {
    if c > 0 {
      var w := RowWindow(b, row, c - 1);
      forall k | 0 <= k < 4
        ensures w[k] != p
      {
        assert w[k] == b[row][c - 1 + k];
      }
      NoPieceWindow(w, p);
      NoPiecesRow(b, row, p, opp, c - 1);
    }
  }

  lemma {:induction false} NoPieceWindow(w: seq<Player>, p: Player)
    requires p !in w
    ensures CountRow(w, p) == 0
  {
    if w != [] {
      assert w[1..] <= w[1..];
      assert forall x :: x in w[1..] ==> x in w;
      NoPieceWindow(w[1..], p);
    }
  }
}
