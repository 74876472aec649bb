/**
 * Value-level rules of game/connect_four.py.
 *
 * A board is a sequence of rows (row 0 is the top row, as in the source)
 * holding Player values. A Game bundles the board with the player to move,
 * the last move and the move counter. The class ConnectFour.ConnectFourGame
 * is tied to these definitions by its State() function; the search engines
 * simulate moves on Game values, since every simulation in the source works
 * on a fresh copy of the game.
 */
module Rules {
  import opened Wrappers

  /** Cell contents and players (the source's Player enum, values 0, 1, 2). */
  datatype Player = Empty | One | Two
  {
    function Value(): int
    {
      match this
      case Empty => 0
      case One => 1
      case Two => 2
    }
  }

  /** The player to move after `p` moved: TWO after ONE, ONE otherwise. */
  function NextPlayer(p: Player): Player
  {
    if p == One then Two else One
  }

  /** The opponent as the engines compute it: ONE against TWO, TWO otherwise. */
  function Opponent(p: Player): Player
  {
    if p == Two then One else Two
  }

  type Board = seq<seq<Player>>

  function Cols(b: Board): int
  {
    if |b| == 0 then 0 else |b[0]|
  }

  /** A rectangular board with at least one row and one column. */
  predicate Rect(b: Board)
  {
    |b| >= 1 && |b[0]| >= 1 && forall r :: 0 <= r < |b| ==> |b[r]| == |b[0]|
  }

  function EmptyBoard(rows: int, cols: int): (b: Board)
    requires rows >= 1 && cols >= 1
    ensures Rect(b) && |b| == rows && Cols(b) == cols
    ensures forall r, c :: 0 <= r < rows && 0 <= c < cols ==> b[r][c] == Empty
  {
    seq(rows, _ => seq(cols, _ => Empty))
  }

  /** Pieces rest on pieces: below every occupied cell the column is occupied. */
  predicate Settled(b: Board)
    requires Rect(b)
  {
    forall r, c {:trigger b[r][c]} :: 0 <= r < |b| - 1 && 0 <= c < Cols(b) && b[r][c] != Empty ==> b[r + 1][c] != Empty
  }

  /** The board with cell (r, c) set to p. */
  function Place(b: Board, r: int, c: int, p: Player): (b': Board)
    requires Rect(b) && 0 <= r < |b| && 0 <= c < Cols(b)
    ensures Rect(b') && |b'| == |b| && Cols(b') == Cols(b)
  {
    b[r := b[r][c := p]]
  }

  datatype Game = Game(board: Board, current: Player, lastMove: Option<(int, int)>, moveCount: int)

  predicate ValidGame(g: Game)
  {
    Rect(g.board) && g.current != Empty
  }

  /** A freshly constructed (or reset) game: empty board, ONE to move. */
  function NewGame(rows: int, cols: int): (g: Game)
    requires rows >= 1 && cols >= 1
    ensures ValidGame(g) && |g.board| == rows && Cols(g.board) == cols
    ensures forall r, c :: 0 <= r < rows && 0 <= c < cols ==> g.board[r][c] == Empty
    ensures g.current == One && g.lastMove == None && g.moveCount == 0
  {
    Game(EmptyBoard(rows, cols), One, None, 0)
  }

  /** is_valid_move: the column exists and its top cell is empty. */
  predicate IsValidMove(g: Game, col: int)
    requires Rect(g.board)
  {
    0 <= col < Cols(g.board) && g.board[0][col] == Empty
  }

  /** get_valid_columns from column c on: the legal columns, in increasing order. */
  function ColumnsFrom(g: Game, c: int): (cs: seq<int>)
    requires Rect(g.board) && 0 <= c
    ensures forall x :: x in cs <==> c <= x && IsValidMove(g, x)
    ensures forall i, j :: 0 <= i < j < |cs| ==> cs[i] < cs[j]
    decreases Cols(g.board) - c
  {
    if c >= Cols(g.board) then []
    else
      var rest := ColumnsFrom(g, c + 1);
      assert forall i :: 0 <= i < |rest| ==> rest[i] in rest;
      (if IsValidMove(g, c) then [c] else []) + rest
  }

  function ValidColumns(g: Game): seq<int>
    requires Rect(g.board)
  {
    ColumnsFrom(g, 0)
  }

  /**
   * get_next_open_row scanning from row r upwards: the lowest empty cell of
   * column col at or above row r, or -1 when there is none.
   */
  function OpenRowFrom(b: Board, col: int, r: int): (k: int)
    requires Rect(b) && 0 <= col < Cols(b) && -1 <= r < |b|
    ensures -1 <= k <= r
    ensures k >= 0 ==> b[k][col] == Empty
    ensures forall i :: k < i <= r ==> b[i][col] != Empty
    decreases r + 1
  {
    if r < 0 then -1
    else if b[r][col] == Empty then r
    else OpenRowFrom(b, col, r - 1)
  }

  function NextOpenRow(b: Board, col: int): int
    requires Rect(b) && 0 <= col < Cols(b)
  {
    OpenRowFrom(b, col, |b| - 1)
  }

  /**
   * make_move on a copy: None when the column is not a legal move, otherwise
   * the game after the player to move drops a piece into it.
   */
  function MakeMove(g: Game, col: int): (r: Option<Game>)
    requires Rect(g.board)
    ensures r.Some? <==> IsValidMove(g, col)
    ensures r.Some? ==> Rect(r.value.board) && |r.value.board| == |g.board| && Cols(r.value.board) == Cols(g.board)
    // the piece lands on the lowest empty cell of the column, in the mover's colour
    ensures r.Some? ==> r.value.lastMove.Some? && var (row, c) := r.value.lastMove.value;
      c == col && 0 <= row < |g.board| && g.board[row][col] == Empty && r.value.board[row][col] == g.current &&
      (forall i :: row < i < |g.board| ==> g.board[i][col] != Empty)
    // no other cell changes; the turn passes and the counter advances
    ensures r.Some? ==> forall i, j :: 0 <= i < |g.board| && 0 <= j < Cols(g.board) && (i, j) != r.value.lastMove.value ==>
      r.value.board[i][j] == g.board[i][j]
    ensures r.Some? ==> r.value.current == NextPlayer(g.current) && r.value.moveCount == g.moveCount + 1
  {
    if !IsValidMove(g, col) then None
    else
      var row := NextOpenRow(g.board, col);
      Some(Game(Place(g.board, row, col, g.current), NextPlayer(g.current), Some((row, col)), g.moveCount + 1))
  }

  /** The game after a legal move. */
  function Play(g: Game, col: int): (h: Game)
    requires ValidGame(g) && IsValidMove(g, col)
    ensures ValidGame(h) && |h.board| == |g.board| && Cols(h.board) == Cols(g.board)
  {
    MakeMove(g, col).value
  }

  predicate IsDraw(g: Game)
    requires Rect(g.board)
  {
    g.moveCount == |g.board| * Cols(g.board)
  }

  // ---------------------------------------------------------------------
  // Counting cells

  function CountRow(s: seq<Player>, p: Player): (n: nat)
    ensures n <= |s|
  {
    if s == [] then 0 else (if s[0] == p then 1 else 0) + CountRow(s[1..], p)
  }

  function Count(b: Board, p: Player): nat
  {
    if b == [] then 0 else CountRow(b[0], p) + Count(b[1..], p)
  }

  /** The move counter agrees with the number of pieces on the board. */
  predicate Consistent(g: Game)
    requires Rect(g.board)
  {
    g.moveCount + Count(g.board, Empty) == |g.board| * Cols(g.board)
  }

  // ---------------------------------------------------------------------
  // The four-in-a-row scan of check_win

  /** The four scans of check_win, in the order the source runs them. */
  datatype Dir = Horizontal | Vertical | Rising | Falling

  /** First value of the outer loop variable (row, or col for Vertical). */
  function OuterFrom(d: Dir): int
  {
    if d == Falling then 3 else 0
  }

  /** Bound of the outer loop variable. */
  function OuterTo(d: Dir, rows: int, cols: int): int
  {
    match d
    case Horizontal => rows
    case Vertical => cols
    case Rising => rows - 3
    case Falling => rows
  }

  /** Bound of the inner loop variable (col, or row for Vertical). */
  function InnerTo(d: Dir, rows: int, cols: int): int
  {
    if d == Vertical then rows - 3 else cols - 3
  }

  /** Row of the i-th cell of the window started by loop variables (o, n). */
  function CellRow(d: Dir, o: int, n: int, i: int): int
  {
    match d
    case Horizontal => o
    case Vertical => n + i
    case Rising => o + i
    case Falling => o - i
  }

  /** Column of the i-th cell of the window started by loop variables (o, n). */
  function CellCol(d: Dir, o: int, n: int, i: int): int
  {
    if d == Vertical then o else n + i
  }

  predicate InScan(b: Board, d: Dir, o: int, n: int)
  {
    OuterFrom(d) <= o < OuterTo(d, |b|, Cols(b)) && 0 <= n < InnerTo(d, |b|, Cols(b))
  }

  function Cell(b: Board, d: Dir, o: int, n: int, i: int): Player
    requires Rect(b) && InScan(b, d, o, n) && 0 <= i < 4
  {
    b[CellRow(d, o, n, i)][CellCol(d, o, n, i)]
  }

  /** The four cells the scan compares at (o, n). */
  function Window(b: Board, d: Dir, o: int, n: int): (w: seq<Player>)
    requires Rect(b) && InScan(b, d, o, n)
    ensures |w| == 4
  {
    [Cell(b, d, o, n, 0), Cell(b, d, o, n, 1), Cell(b, d, o, n, 2), Cell(b, d, o, n, 3)]
  }

  predicate Four(w: seq<Player>)
    requires |w| == 4
  {
    w[0] != Empty && w[1] == w[0] && w[2] == w[0] && w[3] == w[0]
  }

  predicate FourAt(b: Board, d: Dir, o: int, n: int)
    requires Rect(b)
  {
    InScan(b, d, o, n) && Four(Window(b, d, o, n))
  }

  /** Scan position (o', n') is not before (o, n) in loop order. */
  predicate NotBefore(o: int, n: int, o': int, n': int)
  {
    o < o' || (o == o' && n <= n')
  }

  /** One scan of check_win from loop position (o, n): the owner of the first four found. */
  function FirstFour(b: Board, d: Dir, o: int, n: int): Option<Player>
    requires Rect(b) && OuterFrom(d) <= o && 0 <= n
    decreases OuterTo(d, |b|, Cols(b)) - o, InnerTo(d, |b|, Cols(b)) - n
  {
    if o >= OuterTo(d, |b|, Cols(b)) then None
    else if n >= InnerTo(d, |b|, Cols(b)) then FirstFour(b, d, o + 1, 0)
    else if Four(Window(b, d, o, n)) then Some(Window(b, d, o, n)[0])
    else FirstFour(b, d, o, n + 1)
  }

  lemma FirstFourStep(b: Board, d: Dir, o: int, n: int)
    requires Rect(b) && InScan(b, d, o, n)
    ensures FirstFour(b, d, o, n) == if Four(Window(b, d, o, n)) then Some(Window(b, d, o, n)[0]) else FirstFour(b, d, o, n + 1)
  {
  }

  lemma FirstFourNextOuter(b: Board, d: Dir, o: int, n: int)
    requires Rect(b) && OuterFrom(d) <= o < OuterTo(d, |b|, Cols(b)) && 0 <= n && InnerTo(d, |b|, Cols(b)) <= n
    ensures FirstFour(b, d, o, n) == FirstFour(b, d, o + 1, 0)
  {
  }

  function Scan(b: Board, d: Dir): Option<Player>
    requires Rect(b)
  {
    FirstFour(b, d, OuterFrom(d), 0)
  }

  /** check_win: horizontal, vertical, rising then falling scans; the first four found wins. */
  function CheckWin(b: Board): Option<Player>
    requires Rect(b)
  {
    if Scan(b, Horizontal).Some? then Scan(b, Horizontal)
    else if Scan(b, Vertical).Some? then Scan(b, Vertical)
    else if Scan(b, Rising).Some? then Scan(b, Rising)
    else Scan(b, Falling)
  }

  ghost predicate HasFour(b: Board)
    requires Rect(b)
  {
    exists d, o, n :: FourAt(b, d, o, n)
  }

  predicate IsGameOver(g: Game)
    requires Rect(g.board)
  {
    CheckWin(g.board).Some? || IsDraw(g)
  }

  // ---------------------------------------------------------------------
  // Lemmas

  /** get_next_open_row finds a row exactly when the top cell is empty (on a settled board). */
  lemma {:induction false} OpenRowIffValid(g: Game, col: int)
    requires ValidGame(g) && Settled(g.board) && 0 <= col < Cols(g.board)
    ensures NextOpenRow(g.board, col) >= 0 <==> IsValidMove(g, col)
  {
    var b := g.board;
    if NextOpenRow(b, col) >= 0 && b[0][col] != Empty {
      OccupiedDownwards(b, col, NextOpenRow(b, col));
    }
  }

  /** On a settled board an occupied top cell means the whole column up to row k is occupied. */
  lemma {:induction false} OccupiedDownwards(b: Board, col: int, k: int)
    requires Rect(b) && Settled(b) && 0 <= col < Cols(b) && 0 <= k < |b| && b[0][col] != Empty
    ensures b[k][col] != Empty
  {
    if k > 0 {
      OccupiedDownwards(b, col, k - 1);
      assert b[k - 1][col] != Empty;
    }
  }

  /** Dropping a piece keeps the board settled. */
  lemma {:induction false} MakeMoveKeepsSettled(g: Game, col: int)
    requires ValidGame(g) && Settled(g.board) && IsValidMove(g, col)
    ensures Settled(Play(g, col).board)
  {
    var b, b' := g.board, Play(g, col).board;
    var row := NextOpenRow(b, col);
    forall r, c {:trigger b'[r][c]} | 0 <= r < |b'| - 1 && 0 <= c < Cols(b') && b'[r][c] != Empty
      ensures b'[r + 1][c] != Empty
    {
      if c == col && r != row {
        assert b[r][c] != Empty;
        assert b[r + 1][c] != Empty;
      }
    }
  }

  lemma {:induction false} CountRowUpdate(s: seq<Player>, i: int, q: Player, p: Player)
    requires 0 <= i < |s|
    ensures CountRow(s[i := q], p) == CountRow(s, p) - (if s[i] == p then 1 else 0) + (if q == p then 1 else 0)
  {
    if i == 0 {
      assert s[i := q][1..] == s[1..];
    } else {
      assert s[i := q][1..] == s[1..][i - 1 := q];
      CountRowUpdate(s[1..], i - 1, q, p);
    }
  }

  lemma {:induction false} CountUpdate(b: Board, r: int, row: seq<Player>, p: Player)
    requires 0 <= r < |b|
    ensures Count(b[r := row], p) == Count(b, p) - CountRow(b[r], p) + CountRow(row, p)
  {
    if r == 0 {
      assert b[r := row][1..] == b[1..];
    } else {
      assert b[r := row][1..] == b[1..][r - 1 := row];
      CountUpdate(b[1..], r - 1, row, p);
    }
  }

  lemma CountPlace(b: Board, r: int, c: int, q: Player, p: Player)
    requires Rect(b) && 0 <= r < |b| && 0 <= c < Cols(b)
    ensures Count(Place(b, r, c, q), p) == Count(b, p) - (if b[r][c] == p then 1 else 0) + (if q == p then 1 else 0)
  {
    CountRowUpdate(b[r], c, q, p);
    CountUpdate(b, r, b[r][c := q], p);
  }

  /** Every legal move fills exactly one empty cell. */
  lemma MakeMoveFillsOne(g: Game, col: int)
    requires ValidGame(g) && IsValidMove(g, col)
    ensures Count(Play(g, col).board, Empty) == Count(g.board, Empty) - 1
  {
    CountPlace(g.board, NextOpenRow(g.board, col), col, g.current, Empty);
  }

  lemma MakeMoveKeepsConsistent(g: Game, col: int)
    requires ValidGame(g) && Consistent(g) && IsValidMove(g, col)
    ensures Consistent(Play(g, col))
  {
    MakeMoveFillsOne(g, col);
  }

  lemma {:induction false} CountRowAll(n: nat, p: Player)
    ensures CountRow(seq(n, _ => p), p) == n
  {
    if n > 0 {
      assert seq(n, _ => p)[1..] == seq(n - 1, _ => p);
      CountRowAll(n - 1, p);
    }
  }

  lemma {:induction false} CountRows(m: nat, row: seq<Player>, p: Player)
    ensures Count(seq(m, _ => row), p) == m * CountRow(row, p)
  {
    if m > 0 {
      var b, rest := seq(m, _ => row), seq(m - 1, _ => row);
      var k := CountRow(row, p);
      assert Count(b, p) == k + Count(rest, p) by {
        assert b[0] == row && b[1..] == rest;
      }
      CountRows(m - 1, row, p);
      assert m * k == (m - 1) * k + k;
    }
  }

  /** A new game is consistent: no moves and every cell empty. */
  lemma NewGameConsistent(rows: int, cols: int)
    requires rows >= 1 && cols >= 1
    ensures Consistent(NewGame(rows, cols))
  {
    CountRowAll(cols, Empty);
    CountRows(rows, seq(cols, _ => Empty), Empty);
  }

  lemma {:induction false} CountRowZero(s: seq<Player>, p: Player)
    ensures CountRow(s, p) == 0 <==> forall i :: 0 <= i < |s| ==> s[i] != p
  {
    if s != [] {
      CountRowZero(s[1..], p);
      assert forall i :: 1 <= i < |s| ==> s[i] == s[1..][i - 1];
    }
  }

  lemma {:induction false} CountZero(b: Board, p: Player)
    ensures Count(b, p) == 0 <==> forall r, c :: 0 <= r < |b| && 0 <= c < |b[r]| ==> b[r][c] != p
  {
    if b != [] {
      CountRowZero(b[0], p);
      CountZero(b[1..], p);
      assert forall r :: 1 <= r < |b| ==> b[r] == b[1..][r - 1];
    }
  }

  /** is_draw: on a consistent game the counter reaches rows * cols exactly when no cell is empty. */
  lemma DrawIffFull(g: Game)
    requires ValidGame(g) && Consistent(g)
    ensures IsDraw(g) <==> forall r, c :: 0 <= r < |g.board| && 0 <= c < Cols(g.board) ==> g.board[r][c] != Empty
  {
    CountZero(g.board, Empty);
  }

  /** No scan position from (o, n) on and strictly before (o', n') holds a four. */
  ghost predicate NoFourBetween(b: Board, d: Dir, o: int, n: int, o': int, n': int)
    requires Rect(b)
  {
    forall o'', n'' :: NotBefore(o, n, o'', n'') && !NotBefore(o', n', o'', n'') ==> !FourAt(b, d, o'', n'')
  }

  /**
   * (o', n') is the first four at or after (o, n) in scan order, and the
   * scan from (o, n) reports its owner.
   */
  ghost predicate FirstFourAt(b: Board, d: Dir, o: int, n: int, o': int, n': int)
    requires Rect(b) && OuterFrom(d) <= o && 0 <= n
  {
    NotBefore(o, n, o', n') && FourAt(b, d, o', n') && NoFourBetween(b, d, o, n, o', n') &&
    FirstFour(b, d, o, n) == Some(Window(b, d, o', n')[0])
  }

  /**
   * One scan reports the owner of the first four at or after (o, n) in scan
   * order, and None only when there is none.
   */
  lemma FirstFourSpec(b: Board, d: Dir, o: int, n: int)
    requires Rect(b) && OuterFrom(d) <= o && 0 <= n
    ensures FirstFour(b, d, o, n).Some? ==>
      exists o', n' :: NotBefore(o, n, o', n') && FourAt(b, d, o', n') &&
        Window(b, d, o', n')[0] == FirstFour(b, d, o, n).value && NoFourBetween(b, d, o, n, o', n')
    ensures FirstFour(b, d, o, n).None? ==> forall o', n' :: NotBefore(o, n, o', n') ==> !FourAt(b, d, o', n')
  {
    FirstFourFound(b, d, o, n);
    FirstFourNone(b, d, o, n);
  }

  /** A reported owner owns the first four at or after (o, n). */
  lemma {:induction false} FirstFourFound(b: Board, d: Dir, o: int, n: int)
    requires Rect(b) && OuterFrom(d) <= o && 0 <= n
    ensures FirstFour(b, d, o, n).Some? ==> exists o', n' :: FirstFourAt(b, d, o, n, o', n')
    decreases OuterTo(d, |b|, Cols(b)) - o, InnerTo(d, |b|, Cols(b)) - n
  {
    if o >= OuterTo(d, |b|, Cols(b)) {
    } else if n >= InnerTo(d, |b|, Cols(b)) {
      FirstFourNextOuter(b, d, o, n);
      FirstFourFound(b, d, o + 1, 0);
      if FirstFour(b, d, o, n).Some? {
        var o', n' :| FirstFourAt(b, d, o + 1, 0, o', n');
        FoundNextOuter(b, d, o, n, o', n');
      }
    } else if Four(Window(b, d, o, n)) {
      assert FirstFourAt(b, d, o, n, o, n);
    } else {
      FirstFourFound(b, d, o, n + 1);
      if FirstFour(b, d, o, n).Some? {
        var o', n' :| FirstFourAt(b, d, o, n + 1, o', n');
        FoundNextInner(b, d, o, n, o', n');
      }
    }
  }

  lemma FoundNextOuter(b: Board, d: Dir, o: int, n: int, o': int, n': int)
    requires Rect(b) && OuterFrom(d) <= o < OuterTo(d, |b|, Cols(b)) && InnerTo(d, |b|, Cols(b)) <= n
    requires FirstFourAt(b, d, o + 1, 0, o', n')
    ensures FirstFourAt(b, d, o, n, o', n')
  {
    FirstFourNextOuter(b, d, o, n);
    BetweenNextOuter(b, d, o, n, o', n');
  }

  lemma FoundNextInner(b: Board, d: Dir, o: int, n: int, o': int, n': int)
    requires Rect(b) && InScan(b, d, o, n) && !Four(Window(b, d, o, n))
    requires FirstFourAt(b, d, o, n + 1, o', n')
    ensures FirstFourAt(b, d, o, n, o', n')
  {
    FirstFourStep(b, d, o, n);
    BetweenNextInner(b, d, o, n, o', n');
  }

  /** Past the end of line o, the positions still to scan before (o', n') are those from line o + 1 on. */
  lemma BetweenNextOuter(b: Board, d: Dir, o: int, n: int, o': int, n': int)
    requires Rect(b) && InnerTo(d, |b|, Cols(b)) <= n && NoFourBetween(b, d, o + 1, 0, o', n')
    ensures NoFourBetween(b, d, o, n, o', n')
  {
    forall o'', n'' | NotBefore(o, n, o'', n'') && !NotBefore(o', n', o'', n'')
      ensures !FourAt(b, d, o'', n'')
    {
      if o'' > o && n'' >= 0 {
        assert NotBefore(o + 1, 0, o'', n'');
      }
    }
  }

  /** A position without a four adds nothing to the positions still to scan. */
  lemma BetweenNextInner(b: Board, d: Dir, o: int, n: int, o': int, n': int)
    requires Rect(b) && InScan(b, d, o, n) && !Four(Window(b, d, o, n)) && NoFourBetween(b, d, o, n + 1, o', n')
    ensures NoFourBetween(b, d, o, n, o', n')
  {
    forall o'', n'' | NotBefore(o, n, o'', n'') && !NotBefore(o', n', o'', n'')
      ensures !FourAt(b, d, o'', n'')
    {
      if o'' != o || n'' != n {
        assert NotBefore(o, n + 1, o'', n'');
      }
    }
  }

  /** A scan that reports nothing passes no four at or after (o, n). */
  lemma {:induction false} FirstFourNone(b: Board, d: Dir, o: int, n: int)
    requires Rect(b) && OuterFrom(d) <= o && 0 <= n
    ensures FirstFour(b, d, o, n).None? ==> forall o', n' :: NotBefore(o, n, o', n') ==> !FourAt(b, d, o', n')
    decreases OuterTo(d, |b|, Cols(b)) - o, InnerTo(d, |b|, Cols(b)) - n
  {
    if o >= OuterTo(d, |b|, Cols(b)) {
    } else if n >= InnerTo(d, |b|, Cols(b)) {
      FirstFourNone(b, d, o + 1, 0);
    } else if !Four(Window(b, d, o, n)) {
      FirstFourNone(b, d, o, n + 1);
    }
  }

  /**
   * check_win returns None exactly when the board has no four in a row, and
   * otherwise a player who owns all four cells of one of them.
   */
  lemma CheckWinSpec(b: Board)
    requires Rect(b)
    ensures CheckWin(b).None? <==> !HasFour(b)
    ensures CheckWin(b).Some? ==> CheckWin(b).value != Empty
    ensures CheckWin(b).Some? ==> var p := CheckWin(b).value;
      exists d, o, n :: FourAt(b, d, o, n) && Window(b, d, o, n) == [p, p, p, p]
  {
    FirstFourSpec(b, Horizontal, 0, 0);
    FirstFourSpec(b, Vertical, 0, 0);
    FirstFourSpec(b, Rising, 0, 0);
    FirstFourSpec(b, Falling, 3, 0);
    if CheckWin(b).None? {
      forall d, o, n ensures !FourAt(b, d, o, n) {
        if FourAt(b, d, o, n) {
          assert NotBefore(OuterFrom(d), 0, o, n);
        }
      }
    }
  }

  /** On a board without a four, setting one cell to q can only complete fours of q. */
  lemma NewFourOwner(b: Board, r: int, c: int, q: Player)
    requires Rect(b) && !HasFour(b) && 0 <= r < |b| && 0 <= c < Cols(b) && q != Empty
    ensures forall d, o, n :: FourAt(Place(b, r, c, q), d, o, n) ==> Window(Place(b, r, c, q), d, o, n)[0] == q
  {
    var b' := Place(b, r, c, q);
    forall d, o, n | FourAt(b', d, o, n)
      ensures Window(b', d, o, n)[0] == q
    {
      if Window(b', d, o, n)[0] != q {
        forall i | 0 <= i < 4
          ensures Cell(b, d, o, n, i) == Cell(b', d, o, n, i)
        {
          assert Cell(b', d, o, n, i) == Window(b', d, o, n)[i];
        }
        assert Window(b, d, o, n) == Window(b', d, o, n);
        assert FourAt(b, d, o, n);
        assert false;
      }
    }
  }

  /** A move on a board without a four can only make the mover win. */
  lemma MoveWinsOnlyForMover(g: Game, col: int)
    requires ValidGame(g) && IsValidMove(g, col) && CheckWin(g.board).None?
    ensures CheckWin(Play(g, col).board).None? || CheckWin(Play(g, col).board) == Some(g.current)
  {
    CheckWinSpec(g.board);
    var b' := Play(g, col).board;
    NewFourOwner(g.board, NextOpenRow(g.board, col), col, g.current);
    CheckWinSpec(b');
  }
}
