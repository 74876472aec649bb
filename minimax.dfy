/**
 * The row-major MinimaxEngine of game/minimax.py and the variants built on
 * it: DepthLimitedMinimax (same file) and the EasyAI, MediumAI and HardAI
 * window weights and HardAI's trap bonus (game/difficulty_levels.py).
 *
 * An engine is its Level (which _evaluate_window and _score_position it
 * uses), its max_depth and its column_order. The search runs on Game values:
 * every position the source explores is a fresh copy of the game.
 *
 * _minimax is proved to return AlphaBeta of the tree Build unfolds a
 * position into; SearchTree then gives that find_best_move compares the
 * plain minimax values of the moves.
 */
module Minimax {
  import opened Wrappers
  import opened Rules
  import opened SearchTree

  /** Which _evaluate_window / _score_position an engine uses. */
  datatype Level = Standard | Reduced | Easy | Medium | Hard

  datatype Engine = Engine(level: Level, maxDepth: int, order: seq<int>)

  // ---------------------------------------------------------------------
  // Column order

  /** Distance of column x from the centre column cols // 2. */
  function Dist(cols: int, x: int): int
  {
    if x >= cols / 2 then x - cols / 2 else cols / 2 - x
  }

  /** Every column lies within cols // 2 of the centre. */
  lemma DistBound(cols: int, x: int)
    requires 0 <= x < cols
    ensures Dist(cols, x) <= cols / 2
  {
    assert cols == 2 * (cols / 2) + cols % 2;
  }

  /** The columns at distance i, i + 1, ... from the centre: left one first, then right. */
  function Alternate(cols: int, i: int): seq<int>
    requires 1 <= i
    decreases cols / 2 + 1 - i
  {
    if i > cols / 2 then []
    else
      (if cols / 2 - i >= 0 then [cols / 2 - i] else []) +
      (if cols / 2 + i < cols then [cols / 2 + i] else []) +
      Alternate(cols, i + 1)
  }

  /** Alternate(cols, i) lists exactly the columns at distance at least i. */
  lemma {:induction false} AlternateMembers(cols: int, i: int)
    requires 1 <= i
    ensures forall x :: x in Alternate(cols, i) <==> 0 <= x < cols && i <= Dist(cols, x)
    decreases cols / 2 + 1 - i
  {
    if i > cols / 2 {
      forall x | 0 <= x < cols {
        DistBound(cols, x);
      }
    } else {
      var c := cols / 2;
      var here := (if c - i >= 0 then [c - i] else []) + (if c + i < cols then [c + i] else []);
      var rest := Alternate(cols, i + 1);
      assert Alternate(cols, i) == here + rest;
      assert 0 <= c <= cols;
      forall x
        ensures x in here + rest <==> 0 <= x < cols && i <= Dist(cols, x)
      {
        assert x in here <==> (x == c - i && c - i >= 0) || (x == c + i && c + i < cols);
        assert x in rest <==> 0 <= x < cols && i + 1 <= Dist(cols, x) by {
          AlternateMembers(cols, i + 1);
        }
      }
    }
  }

  /** Alternate(cols, i) has no repeats and never moves back towards the centre. */
  lemma {:induction false} AlternateOrdered(cols: int, i: int)
    requires 1 <= i
    ensures forall j, k :: 0 <= j < k < |Alternate(cols, i)| ==>
      Alternate(cols, i)[j] != Alternate(cols, i)[k] && Dist(cols, Alternate(cols, i)[j]) <= Dist(cols, Alternate(cols, i)[k])
    decreases cols / 2 + 1 - i
  {
    if i <= cols / 2 {
      var c := cols / 2;
      var here := (if c - i >= 0 then [c - i] else []) + (if c + i < cols then [c + i] else []);
      var rest := Alternate(cols, i + 1);
      AlternateOrdered(cols, i + 1);
      AlternateMembers(cols, i + 1);
      var s := here + rest;
      assert Alternate(cols, i) == s;
      forall j, k | 0 <= j < k < |s|
        ensures s[j] != s[k] && Dist(cols, s[j]) <= Dist(cols, s[k])
      {
        if k < |here| {
        } else if j < |here| {
          assert s[k] == rest[k - |here|] && s[k] in rest;
          assert Dist(cols, s[j]) == i;
        } else {
          assert s[j] == rest[j - |here|] && s[k] == rest[k - |here|];
        }
      }
    }
  }

  /**
   * _get_center_prioritized_columns: the centre, then alternately left and
   * right of it. For cols >= 1 this is a permutation of 0 .. cols - 1 that
   * never moves away from and back towards the centre.
   */
  function CenterOrder(cols: int): (order: seq<int>)
    ensures cols >= 1 ==> forall x :: x in order <==> 0 <= x < cols
    ensures forall j, k :: 0 <= j < k < |order| ==> order[j] != order[k] && Dist(cols, order[j]) <= Dist(cols, order[k])
  {
    var rest := Alternate(cols, 1);
    AlternateMembers(cols, 1);
    AlternateOrdered(cols, 1);
    var order := [cols / 2] + rest;
    forall j, k | 0 <= j < k < |order|
      ensures order[j] != order[k] && Dist(cols, order[j]) <= Dist(cols, order[k])
    {
      assert order[k] == rest[k - 1] && order[k] in rest;
      if j == 0 {
        assert Dist(cols, order[k]) >= 1;
      } else {
        assert order[j] == rest[j - 1];
      }
    }
    order
  }

  /** The order every engine is built with. */
  lemma CenterOrderSeven()
    ensures CenterOrder(7) == [3, 2, 4, 1, 5, 0, 6]
  {
    assert Alternate(7, 4) == [];
    assert Alternate(7, 3) == [0, 6];
    assert Alternate(7, 2) == [1, 5, 0, 6];
  }

  /** MinimaxEngine(max_depth) and the subclasses' constructors. */
  function NewEngine(level: Level, maxDepth: int): (e: Engine)
    ensures e.level == level && e.maxDepth == maxDepth && e.order == [3, 2, 4, 1, 5, 0, 6]
  {
    CenterOrderSeven();
    Engine(level, maxDepth, CenterOrder(7))
  }

  // ---------------------------------------------------------------------
  // Window and position scores

  function MaxInt(a: int, b: int): int { if a >= b then a else b }
  function MinInt(a: int, b: int): int { if a <= b then a else b }

  /** Weight of three own pieces and an empty cell. */
  function ThreeWeight(level: Level): int { if level == Hard then 10 else 5 }

  /** Weight of two own pieces and two empty cells. */
  function TwoWeight(level: Level): int { if level == Hard then 3 else 2 }

  /** Weight of three opponent pieces and an empty cell. */
  function BlockWeight(level: Level): int
  {
    match level
    case Easy => -10
    case Medium => -20
    case _ => -80
  }

  /**
   * _evaluate_window of each level (DepthLimitedMinimax keeps the base one):
   * the first matching case on the piece counts decides.
   */
  function WindowScore(level: Level, w: seq<Player>, player: Player): (r: int)
    requires |w| == 4 && player != Empty
    ensures r == 100 <==> CountRow(w, player) == 4
    ensures r > 0 <==> CountRow(w, player) == 4 || (CountRow(w, player) == 3 && CountRow(w, Empty) == 1) ||
                        (CountRow(w, player) == 2 && CountRow(w, Empty) == 2)
    ensures r < 0 <==> (CountRow(w, Opponent(player)) == 3 && CountRow(w, Empty) == 1) ||
                        (level == Hard && CountRow(w, Opponent(player)) == 2 && CountRow(w, Empty) == 2)
  {
    CountThree(w, player);
    var mine, empty, theirs := CountRow(w, player), CountRow(w, Empty), CountRow(w, Opponent(player));
    if mine == 4 then 100
    else if mine == 3 && empty == 1 then ThreeWeight(level)
    else if mine == 2 && empty == 2 then TwoWeight(level)
    else if theirs == 3 && empty == 1 then BlockWeight(level)
    else if level == Hard && theirs == 2 && empty == 2 then -3
    else 0
  }

  /** The counts of the three cell kinds of a window add up to its length. */
  lemma {:induction false} CountThree(w: seq<Player>, player: Player)
    requires player != Empty
    ensures CountRow(w, player) + CountRow(w, Empty) + CountRow(w, Opponent(player)) == |w|
  {
    if w != [] {
      CountThree(w[1..], player);
    }
  }

  /** The base weights: 100, 5, 2, -80 or 0, each for exactly its own piece counts. */
  lemma StandardWindowValues(w: seq<Player>, player: Player)
    requires |w| == 4 && player != Empty
    ensures var r := WindowScore(Standard, w, player);
      var mine, empty, theirs := CountRow(w, player), CountRow(w, Empty), CountRow(w, Opponent(player));
      (r == 100 || r == 5 || r == 2 || r == -80 || r == 0) &&
      (r == 5 <==> mine == 3 && empty == 1) &&
      (r == 2 <==> mine == 2 && empty == 2) &&
      (r == -80 <==> theirs == 3 && empty == 1)
  {
    CountThree(w, player);
  }

  /** The levels differ in their weights: Easy blocks at -10, Medium at -20, Hard at -80 and also weighs 10, 3 and -3. */
  lemma LevelWeights()
    ensures WindowScore(Easy, [Two, Two, Two, Empty], One) == -10
    ensures WindowScore(Medium, [Two, Two, Two, Empty], One) == -20
    ensures WindowScore(Hard, [Two, Two, Two, Empty], One) == -80
    ensures WindowScore(Standard, [Two, Two, Two, Empty], One) == -80
    ensures WindowScore(Hard, [One, One, One, Empty], One) == 10 && WindowScore(Medium, [One, One, One, Empty], One) == 5
    ensures WindowScore(Hard, [One, Empty, One, Empty], One) == 3 && WindowScore(Easy, [One, Empty, One, Empty], One) == 2
    ensures WindowScore(Hard, [Two, Empty, Empty, Two], One) == -3 && WindowScore(Standard, [Two, Empty, Empty, Two], One) == 0
  {
  }

  /** DepthLimitedMinimax's window test: 5 for three own pieces and one empty cell. */
  function ReducedWindowScore(w: seq<Player>, player: Player): int
  {
    if CountRow(w, player) == 3 && CountRow(w, Empty) == 1 then 5 else 0
  }

  /** What one window adds to an engine's position score. */
  function WindowValue(level: Level, w: seq<Player>, player: Player): int
    requires |w| == 4 && player != Empty
  {
    if level == Reduced then ReducedWindowScore(w, player) else WindowScore(level, w, player)
  }

  /** The sum of WindowValue over one scan's windows from loop position (o, n) on. */
  function DirSum(level: Level, b: Board, player: Player, d: Dir, o: int, n: int): int
    requires Rect(b) && player != Empty && OuterFrom(d) <= o && 0 <= n
    decreases OuterTo(d, |b|, Cols(b)) - o, InnerTo(d, |b|, Cols(b)) - n
  {
    if o >= OuterTo(d, |b|, Cols(b)) then 0
    else if n >= InnerTo(d, |b|, Cols(b)) then DirSum(level, b, player, d, o + 1, 0)
    else WindowValue(level, Window(b, d, o, n), player) + DirSum(level, b, player, d, o, n + 1)
  }

  function DirTotal(level: Level, b: Board, player: Player, d: Dir): int
    requires Rect(b) && player != Empty
  {
    DirSum(level, b, player, d, OuterFrom(d), 0)
  }

  /** The number of rows r < n whose cell in column c holds p. */
  function ColumnCount(b: Board, c: int, p: Player, n: int): (k: nat)
    requires Rect(b) && 0 <= c < Cols(b) && 0 <= n <= |b|
    ensures k <= n
  {
    if n == 0 then 0 else ColumnCount(b, c, p, n - 1) + (if b[n - 1][c] == p then 1 else 0)
  }

  // HardAI's trap bonus

  /** Horizontal cells within 3 of (row, col). */
  function RowSegment(b: Board, row: int, col: int): seq<Player>
    requires Rect(b) && 0 <= row < |b| && 0 <= col < Cols(b)
  {
    b[row][MaxInt(0, col - 3)..MinInt(Cols(b), col + 4)]
  }

  /** Vertical cells within 3 of (row, col). */
  function ColumnSegment(b: Board, row: int, col: int): seq<Player>
    requires Rect(b) && 0 <= row < |b| && 0 <= col < Cols(b)
  {
    var lo, hi := MaxInt(0, row - 3), MinInt(|b|, row + 4);
    seq(hi - lo, k requires 0 <= k < hi - lo => b[lo + k][col])
  }

  /** Diagonal cells (row + s*i, col + i) for i = -3 .. 3 that lie on the board. */
  function DiagFrom(b: Board, row: int, col: int, s: int, i: int): seq<Player>
    requires Rect(b)
    decreases 4 - i
  {
    if i > 3 then []
    else
      (if 0 <= row + s * i < |b| && 0 <= col + i < Cols(b) then [b[row + s * i][col + i]] else []) +
      DiagFrom(b, row, col, s, i + 1)
  }

  /** The four lines through (row, col) HardAI inspects. */
  function Segments(b: Board, row: int, col: int): seq<seq<Player>>
    requires Rect(b) && 0 <= row < |b| && 0 <= col < Cols(b)
  {
    [RowSegment(b, row, col), ColumnSegment(b, row, col), DiagFrom(b, row, col, 1, -3), DiagFrom(b, row, col, -1, -3)]
  }

  /** A sub-window with two own pieces and two empty cells. */
  predicate Threat(w: seq<Player>, player: Player)
  {
    CountRow(w, player) == 2 && CountRow(w, Empty) == 2
  }

  /** The number of sub-windows starting before i that are threats. */
  function ThreatsUpTo(w: seq<Player>, player: Player, i: int): (t: nat)
    requires 0 <= i <= |w| - 3
    ensures t <= i
  {
    if i == 0 then 0 else ThreatsUpTo(w, player, i - 1) + (if Threat(w[i - 1..i + 3], player) then 1 else 0)
  }

  function LineThreats(w: seq<Player>, player: Player): nat
  {
    if |w| >= 4 then ThreatsUpTo(w, player, |w| - 3) else 0
  }

  function ThreatSum(ws: seq<seq<Player>>, player: Player): nat
  {
    if ws == [] then 0 else ThreatSum(ws[..|ws| - 1], player) + LineThreats(ws[|ws| - 1], player)
  }

  /** 10 for an empty cell on which at least two threats meet. */
  function TrapAt(b: Board, player: Player, row: int, col: int): int
    requires Rect(b) && 0 <= row < |b| && 0 <= col < Cols(b)
  {
    if b[row][col] == Empty && ThreatSum(Segments(b, row, col), player) >= 2 then 10 else 0
  }

  /** The trap bonus over the inner cells from loop position (row, col) on. */
  function TrapsFrom(b: Board, player: Player, row: int, col: int): int
    requires Rect(b) && 1 <= row && 1 <= col
    decreases |b| - 3 - row, Cols(b) - 3 - col
  {
    if row >= |b| - 3 then 0
    else if col >= Cols(b) - 3 then TrapsFrom(b, player, row + 1, 1)
    else TrapAt(b, player, row, col) + TrapsFrom(b, player, row, col + 1)
  }

  /** The reduced windows only ever add 5 or nothing. */
  lemma {:induction false} ReducedDirSum(b: Board, player: Player, d: Dir, o: int, n: int)
    requires Rect(b) && player != Empty && OuterFrom(d) <= o && 0 <= n
    ensures DirSum(Reduced, b, player, d, o, n) >= 0 && DirSum(Reduced, b, player, d, o, n) % 5 == 0
    decreases OuterTo(d, |b|, Cols(b)) - o, InnerTo(d, |b|, Cols(b)) - n
  {
    if o >= OuterTo(d, |b|, Cols(b)) {
    } else if n >= InnerTo(d, |b|, Cols(b)) {
      ReducedDirSum(b, player, d, o + 1, 0);
    } else {
      var v, rest := WindowValue(Reduced, Window(b, d, o, n), player), DirSum(Reduced, b, player, d, o, n + 1);
      assert DirSum(Reduced, b, player, d, o, n) == v + rest;
      assert rest >= 0 && rest % 5 == 0 by {
        ReducedDirSum(b, player, d, o, n + 1);
      }
      AddFive(v, rest);
    }
  }

  lemma AddFive(v: int, rest: int)
    requires (v == 0 || v == 5) && rest >= 0 && rest % 5 == 0
    ensures v + rest >= 0 && (v + rest) % 5 == 0
  {
  }

  /** _score_position of each level. */
  function PositionScore(level: Level, b: Board, player: Player): int
    requires Rect(b) && player != Empty
  {
    if level == Reduced then DirTotal(level, b, player, Horizontal) + DirTotal(level, b, player, Vertical)
    else
      3 * ColumnCount(b, Cols(b) / 2, player, |b|) +
      DirTotal(level, b, player, Horizontal) + DirTotal(level, b, player, Vertical) +
      DirTotal(level, b, player, Rising) + DirTotal(level, b, player, Falling) +
      (if level == Hard then TrapsFrom(b, player, 1, 1) else 0)
  }

  /** DepthLimitedMinimax's score is a multiple of 5 and never negative. */
  lemma ReducedScoreNonNegative(b: Board, player: Player)
    requires Rect(b) && player != Empty
    ensures PositionScore(Reduced, b, player) >= 0 && PositionScore(Reduced, b, player) % 5 == 0
  {
    ReducedDirSum(b, player, Horizontal, 0, 0);
    ReducedDirSum(b, player, Vertical, 0, 0);
  }

  // ---------------------------------------------------------------------
  // Scoring methods

  /** One pair of nested window loops of _score_position. */
  method SumDirection(level: Level, b: Board, player: Player, d: Dir) returns (s: int)
    requires Rect(b) && player != Empty
    ensures s == DirTotal(level, b, player, d)
  {
    s := 0;
    var o := OuterFrom(d);
    var oTo := OuterTo(d, |b|, Cols(b));
    while o < oTo
      invariant OuterFrom(d) <= o
      invariant s + DirSum(level, b, player, d, o, 0) == DirTotal(level, b, player, d)
    {
      var t := SumLine(level, b, player, d, o);
      s := s + t;
      o := o + 1;
    }
  }

  /** The inner window loop of one line of a scan. */
  method SumLine(level: Level, b: Board, player: Player, d: Dir, o: int) returns (t: int)
    requires Rect(b) && player != Empty && OuterFrom(d) <= o < OuterTo(d, |b|, Cols(b))
    ensures t + DirSum(level, b, player, d, o + 1, 0) == DirSum(level, b, player, d, o, 0)
  {
    t := 0;
    var n, nTo := 0, InnerTo(d, |b|, Cols(b));
    while n < nTo
      invariant 0 <= n
      invariant t + DirSum(level, b, player, d, o, n) == DirSum(level, b, player, d, o, 0)
    {
      t := t + WindowValue(level, Window(b, d, o, n), player);
      n := n + 1;
    }
  }

  /** The counting loop of one HardAI line: how many sub-windows are threats. */
  method CountThreats(w: seq<Player>, player: Player) returns (t: int)
    ensures t == LineThreats(w, player)
  {
    t := 0;
    if |w| >= 4 {
      var i := 0;
      while i < |w| - 3
        invariant 0 <= i <= |w| - 3
        invariant t == ThreatsUpTo(w, player, i)
      {
        if Threat(w[i..i + 4], player) {
          t := t + 1;
        }
        i := i + 1;
      }
    }
  }

  /** HardAI's trap loops. */
  method TrapScore(b: Board, player: Player) returns (s: int)
    requires Rect(b) && player != Empty
    ensures s == TrapsFrom(b, player, 1, 1)
  {
    s := 0;
    var row := 1;
    while row < |b| - 3
      invariant 1 <= row
      invariant s + TrapsFrom(b, player, row, 1) == TrapsFrom(b, player, 1, 1)
    {
      var col := 1;
      while col < Cols(b) - 3
        invariant 1 <= col
        invariant s + TrapsFrom(b, player, row, col) == TrapsFrom(b, player, 1, 1)
      {
        if b[row][col] == Empty {
          var lines := Segments(b, row, col);
          var threats := 0;
          var j := 0;
          while j < 4
            invariant 0 <= j <= 4
            invariant threats == ThreatSum(lines[..j], player)
          {
            var t := CountThreats(lines[j], player);
            assert lines[..j + 1][..j] == lines[..j];
            threats := threats + t;
            j := j + 1;
          }
          assert lines[..4] == lines;
          if threats >= 2 {
            s := s + 10;
          }
        }
        col := col + 1;
      }
      row := row + 1;
    }
  }

  /** _score_position: the centre bonus and every window, plus HardAI's traps. */
  method ScorePosition(level: Level, b: Board, player: Player) returns (score: int)
    requires Rect(b) && player != Empty
    ensures score == PositionScore(level, b, player)
  {
    if level == Reduced {
      var h := SumDirection(level, b, player, Horizontal);
      var v := SumDirection(level, b, player, Vertical);
      return h + v;
    }
    var center := Cols(b) / 2;
    var count := 0;
    var row := 0;
    while row < |b|
      invariant 0 <= row <= |b|
      invariant count == ColumnCount(b, center, player, row)
    {
      if b[row][center] == player {
        count := count + 1;
      }
      row := row + 1;
    }
    score := count * 3;
    var h := SumDirection(level, b, player, Horizontal);
    var v := SumDirection(level, b, player, Vertical);
    var up := SumDirection(level, b, player, Rising);
    var down := SumDirection(level, b, player, Falling);
    score := score + h + v + up + down;
    if level == Hard {
      var traps := TrapScore(b, player);
      score := score + traps;
    }
  }

  // ---------------------------------------------------------------------
  // The search tree

  /** The player the search maximises for: the one to move at a maximising node, the other one below it. */
  function Maximiser(current: Player, isMax: bool): Player
  {
    if isMax then current else NextPlayer(current)
  }

  /** Terminal score of a won position: +1000000 for a four of the maximiser, -1000000 otherwise. */
  function WinScore(winner: Player, current: Player, isMax: bool): (s: int)
    ensures s == 1000000 || s == -1000000
    ensures s == 1000000 <==> winner == Maximiser(current, isMax)
  {
    if winner == Maximiser(current, isMax) then 1000000 else -1000000
  }

  /**
   * The value _minimax gives a position that is not expanded further: its
   * win score, 0 for a draw, or the position score at depth 0 (taken for
   * TWO at maximising and ONE at minimising nodes, as the source does).
   */
  function Build(e: Engine, g: Game, depth: int, isMax: bool): Tree
    requires ValidGame(g)
    decreases Count(g.board, Empty), 1
  {
    var winner := CheckWin(g.board);
    if winner.Some? then Leaf(WinScore(winner.value, g.current, isMax))
    else if IsDraw(g) then Leaf(0)
    else if depth == 0 then Leaf(PositionScore(e.level, g.board, if isMax then Two else One))
    else Node(KidsFrom(e, g, depth, isMax, 0))
  }

  /** The subtrees of the legal moves among e.order[k..], in that order. */
  function KidsFrom(e: Engine, g: Game, depth: int, isMax: bool, k: nat): seq<Tree>
    requires ValidGame(g)
    decreases Count(g.board, Empty), 0, |e.order| - k
  {
    if k >= |e.order| then []
    else if IsValidMove(g, e.order[k]) then
      MakeMoveFillsOne(g, e.order[k]);
      [Build(e, Play(g, e.order[k]), depth - 1, !isMax)] + KidsFrom(e, g, depth, isMax, k + 1)
    else KidsFrom(e, g, depth, isMax, k + 1)
  }

  /** The terminal test as written (game/minimax.py): +1000000 when the four belongs to Player(3 - current). */
  function WinScoreAsWritten(winner: Player, current: Player): int
  {
    if winner.Value() == 3 - current.Value() then 1000000 else -1000000
  }

  /**
   * As written, the terminal score agrees with the maximiser's view at
   * minimising nodes and is its exact opposite at maximising nodes: there a
   * four of the minimiser (the player who just moved) scores +1000000.
   */
  lemma WinScoreAsWrittenSides(winner: Player, current: Player)
    requires winner != Empty && current != Empty
    ensures WinScoreAsWritten(winner, current) == WinScore(winner, current, false)
    ensures WinScoreAsWritten(winner, current) == -WinScore(winner, current, true)
  {
  }

  /** A maximising node with TWO to move after ONE completed a row: as written it scores ONE's win +1000000. */
  lemma WinScoreAsWrittenMisjudges()
    ensures var g := Game([[One, One, One, One]], Two, Some((0, 3)), 4);
      CheckWin(g.board) == Some(One) &&
      WinScoreAsWritten(One, g.current) == 1000000 && WinScore(One, g.current, true) == -1000000
  {
    var b := [[One, One, One, One]];
    assert Four(Window(b, Horizontal, 0, 0));
  }

  /** The turn passes at every move, so every node of the tree maximises for the same player. */
  lemma MaximiserKept(g: Game, col: int, isMax: bool)
    requires ValidGame(g) && IsValidMove(g, col)
    ensures Maximiser(Play(g, col).current, !isMax) == Maximiser(g.current, isMax)
  {
  }

  lemma BuildNode(e: Engine, g: Game, depth: int, isMax: bool)
    requires ValidGame(g) && CheckWin(g.board).None? && !IsDraw(g) && depth != 0
    ensures Build(e, g, depth, isMax) == Node(KidsFrom(e, g, depth, isMax, 0))
  {
  }

  lemma KidsStep(e: Engine, g: Game, depth: int, isMax: bool, k: nat)
    requires ValidGame(g) && k < |e.order|
    ensures KidsFrom(e, g, depth, isMax, k) ==
      if IsValidMove(g, e.order[k]) then [Build(e, Play(g, e.order[k]), depth - 1, !isMax)] + KidsFrom(e, g, depth, isMax, k + 1)
      else KidsFrom(e, g, depth, isMax, k + 1)
  {
  }

  /** _minimax: terminal tests, then the pruned loop over the columns in engine order. */
  method Search(e: Engine, g: Game, depth: int, isMax: bool, alpha: Score, beta: Score) returns (r: Score)
    requires ValidGame(g)
    ensures r == AlphaBeta(Build(e, g, depth, isMax), isMax, alpha, beta)
    decreases Count(g.board, Empty), 2
  {
    var winner := CheckWin(g.board);
    if winner.Some? {
      return Fin(WinScore(winner.value, g.current, isMax));
    }
    if IsDraw(g) {
      return Fin(0);
    }
    if depth == 0 {
      var s := ScorePosition(e.level, g.board, if isMax then Two else One);
      return Fin(s);
    }
    BuildNode(e, g, depth, isMax);
    if isMax {
      r := MaxChildren(e, g, depth, alpha, beta);
    } else {
      r := MinChildren(e, g, depth, alpha, beta);
    }
  }

  /** The maximising loop of _minimax: best score so far, alpha raised, cut once beta <= alpha. */
  method MaxChildren(e: Engine, g: Game, depth: int, alpha: Score, beta: Score) returns (r: Score)
    requires ValidGame(g)
    ensures r == MaxLoop(KidsFrom(e, g, depth, true, 0), alpha, beta, NegInf)
    decreases Count(g.board, Empty), 1
  {
    var valid := ValidColumns(g);
    r := NegInf;
    var a := alpha;
    var k := 0;
    while k < |e.order|
      invariant 0 <= k <= |e.order|
      invariant MaxLoop(KidsFrom(e, g, depth, true, 0), alpha, beta, NegInf) == MaxLoop(KidsFrom(e, g, depth, true, k), a, beta, r)
    {
      var cut;
      a, r, cut := MaxStep(e, g, valid, depth, k, a, beta, r);
      if cut {
        return;
      }
      k := k + 1;
    }
  }

  /** One column of the maximising loop: skipped when illegal, else searched, with the cut reported. */
  method MaxStep(e: Engine, g: Game, valid: seq<int>, depth: int, k: int, a: Score, beta: Score, r: Score)
    returns (a': Score, r': Score, cut: bool)
    requires ValidGame(g) && valid == ValidColumns(g) && 0 <= k < |e.order|
    ensures cut ==> MaxLoop(KidsFrom(e, g, depth, true, k), a, beta, r) == r'
    ensures !cut ==> MaxLoop(KidsFrom(e, g, depth, true, k), a, beta, r) == MaxLoop(KidsFrom(e, g, depth, true, k + 1), a', beta, r')
    decreases Count(g.board, Empty), 0
  {
    var col := e.order[k];
    ghost var rest := KidsFrom(e, g, depth, true, k + 1);
    a', r', cut := a, r, false;
    if col in valid {
      MakeMoveFillsOne(g, col);
      ghost var t := Build(e, Play(g, col), depth - 1, false);
      assert KidsFrom(e, g, depth, true, k) == [t] + rest by {
        KidsStep(e, g, depth, true, k);
      }
      MaxLoopCons(t, rest, a, beta, r);
      var score := Search(e, Play(g, col), depth - 1, false, a, beta);
      r' := Max(r, score);
      a' := Max(a, score);
      cut := Le(beta, a');
    } else {
      assert KidsFrom(e, g, depth, true, k) == rest by {
        KidsStep(e, g, depth, true, k);
      }
    }
  }

  /** The minimising loop of _minimax: lowest score so far, beta lowered, cut once beta <= alpha. */
  method MinChildren(e: Engine, g: Game, depth: int, alpha: Score, beta: Score) returns (r: Score)
    requires ValidGame(g)
    ensures r == MinLoop(KidsFrom(e, g, depth, false, 0), alpha, beta, PosInf)
    decreases Count(g.board, Empty), 1
  {
    var valid := ValidColumns(g);
    r := PosInf;
    var b := beta;
    var k := 0;
    while k < |e.order|
      invariant 0 <= k <= |e.order|
      invariant MinLoop(KidsFrom(e, g, depth, false, 0), alpha, beta, PosInf) == MinLoop(KidsFrom(e, g, depth, false, k), alpha, b, r)
    {
      var cut;
      b, r, cut := MinStep(e, g, valid, depth, k, alpha, b, r);
      if cut {
        return;
      }
      k := k + 1;
    }
  }

  /** One column of the minimising loop: skipped when illegal, else searched, with the cut reported. */
  method MinStep(e: Engine, g: Game, valid: seq<int>, depth: int, k: int, alpha: Score, b: Score, r: Score)
    returns (b': Score, r': Score, cut: bool)
    requires ValidGame(g) && valid == ValidColumns(g) && 0 <= k < |e.order|
    ensures cut ==> MinLoop(KidsFrom(e, g, depth, false, k), alpha, b, r) == r'
    ensures !cut ==> MinLoop(KidsFrom(e, g, depth, false, k), alpha, b, r) == MinLoop(KidsFrom(e, g, depth, false, k + 1), alpha, b', r')
    decreases Count(g.board, Empty), 0
  {
    var col := e.order[k];
    ghost var rest := KidsFrom(e, g, depth, false, k + 1);
    b', r', cut := b, r, false;
    if col in valid {
      MakeMoveFillsOne(g, col);
      ghost var t := Build(e, Play(g, col), depth - 1, true);
      assert KidsFrom(e, g, depth, false, k) == [t] + rest by {
        KidsStep(e, g, depth, false, k);
      }
      MinLoopCons(t, rest, alpha, b, r);
      var score := Search(e, Play(g, col), depth - 1, true, alpha, b);
      r' := Min(r, score);
      b' := Min(b, score);
      cut := Le(b', alpha);
    } else {
      assert KidsFrom(e, g, depth, false, k) == rest by {
        KidsStep(e, g, depth, false, k);
      }
    }
  }

  // ---------------------------------------------------------------------
  // find_best_move

  /** The full minimax value find_best_move compares for a move. */
  ghost function MoveValue(e: Engine, g: Game, col: int): Score
    requires ValidGame(g) && IsValidMove(g, col)
  {
    Minimax(Build(e, Play(g, col), e.maxDepth - 1, false), false)
  }

  /** find_best_move's score of a move: the full-window search one level down, which is its minimax value. */
  method ScoreMove(e: Engine, g: Game, col: int) returns (score: Score)
    requires ValidGame(g) && IsValidMove(g, col)
    ensures score == MoveValue(e, g, col)
  {
    var child := Play(g, col);
    score := Search(e, child, e.maxDepth - 1, false, NegInf, PosInf);
    AlphaBetaIsMinimax(Build(e, child, e.maxDepth - 1, false), false);
  }

  /** Dropping a piece in col completes a four for the player to move. */
  predicate WinsNow(g: Game, col: int)
    requires ValidGame(g) && IsValidMove(g, col)
  {
    CheckWin(Play(g, col).board) == Some(g.current)
  }

  /** The immediate-win test as written: the four must belong to Player(3 - current), who did not move. */
  predicate WinsNowAsWritten(g: Game, col: int)
    requires ValidGame(g) && IsValidMove(g, col)
  {
    CheckWin(Play(g, col).board) == Some(NextPlayer(g.current))
  }

  /** From a position without a four the test as written never fires. */
  lemma WinsNowAsWrittenNeverFires(g: Game, col: int)
    requires ValidGame(g) && IsValidMove(g, col) && CheckWin(g.board).None?
    ensures !WinsNowAsWritten(g, col)
  {
    MoveWinsOnlyForMover(g, col);
  }

  /** TWO to move on a one-row board: column 3 wins, and the test as written misses it. */
  lemma WinsNowAsWrittenMisses()
    ensures var g := Game([[Two, Two, Two, Empty]], Two, None, 3);
      IsValidMove(g, 3) && WinsNow(g, 3) && !WinsNowAsWritten(g, 3)
  {
    var g := Game([[Two, Two, Two, Empty]], Two, None, 3);
    assert NextOpenRow(g.board, 3) == 0;
    var b := Play(g, 3).board;
    assert b == Place(g.board, 0, 3, Two);
    assert g.board[0][3 := Two] == [Two, Two, Two, Two];
    assert b == [[Two, Two, Two, Two]];
    assert Four(Window(b, Horizontal, 0, 0));
  }

  /** Some legal column of the engine's order wins at once. */
  ghost predicate WinInOrder(e: Engine, g: Game)
    requires ValidGame(g)
  {
    exists k :: 0 <= k < |e.order| && IsValidMove(g, e.order[k]) && WinsNow(g, e.order[k])
  }

  /** No legal column among the first k of the engine's order wins at once. */
  predicate NoWinBefore(e: Engine, g: Game, k: int)
    requires ValidGame(g) && 0 <= k <= |e.order|
  {
    forall j :: 0 <= j < k && IsValidMove(g, e.order[j]) ==> !WinsNow(g, e.order[j])
  }

  lemma NoWinStep(e: Engine, g: Game, k: int)
    requires ValidGame(g) && 0 <= k < |e.order| && NoWinBefore(e, g, k)
    requires IsValidMove(g, e.order[k]) ==> !WinsNow(g, e.order[k])
    ensures NoWinBefore(e, g, k + 1)
  {
  }

  /** No legal column among the first k of the engine's order has a minimax value above best. */
  ghost predicate Dominated(e: Engine, g: Game, k: int, best: Score)
    requires ValidGame(g) && 0 <= k <= |e.order|
  {
    forall j :: 0 <= j < k && IsValidMove(g, e.order[j]) ==> Le(MoveValue(e, g, e.order[j]), best)
  }

  lemma DominatedStep(e: Engine, g: Game, k: int, before: Score, best: Score)
    requires ValidGame(g) && 0 <= k < |e.order| && Dominated(e, g, k, before) && Le(before, best)
    requires IsValidMove(g, e.order[k]) ==> Le(MoveValue(e, g, e.order[k]), best)
    ensures Dominated(e, g, k + 1, best)
  {
    forall j | 0 <= j < k && IsValidMove(g, e.order[j])
      ensures Le(MoveValue(e, g, e.order[j]), best)
    {
      LeTrans(MoveValue(e, g, e.order[j]), before, best);
    }
  }

  /** Every legal column before position j of the order scores strictly below col. */
  ghost predicate BeatsEarlier(e: Engine, g: Game, j: int, col: int)
    requires ValidGame(g) && 0 <= j <= |e.order| && IsValidMove(g, col)
  {
    forall i :: 0 <= i < j && IsValidMove(g, e.order[i]) ==> Lt(MoveValue(e, g, e.order[i]), MoveValue(e, g, col))
  }

  /** A score that beats the best so far beats every legal column scanned before it. */
  lemma BeatsEarlierStep(e: Engine, g: Game, k: int, before: Score, col: int)
    requires ValidGame(g) && 0 <= k < |e.order| && Dominated(e, g, k, before)
    requires IsValidMove(g, col) && Lt(before, MoveValue(e, g, col))
    ensures BeatsEarlier(e, g, k, col)
  {
    forall i | 0 <= i < k && IsValidMove(g, e.order[i])
      ensures Lt(MoveValue(e, g, e.order[i]), MoveValue(e, g, col))
    {
      LeLtTrans(MoveValue(e, g, e.order[i]), before, MoveValue(e, g, col));
    }
  }

  /**
   * find_best_move: -1 without legal moves; otherwise an immediately winning
   * column when the order holds one, else a column whose minimax value is at
   * least that of every legal column of the order. `shuffle` stands for the
   * random shuffle: the index of the legal column it puts first.
   */
  method BestMove(e: Engine, g: Game, shuffle: nat) returns (col: int)
    requires ValidGame(g)
    ensures col == -1 <==> ValidColumns(g) == []
    ensures col != -1 ==> IsValidMove(g, col)
    ensures WinInOrder(e, g) ==> col != -1 && WinsNow(g, col)
    ensures col != -1 && !WinInOrder(e, g) ==>
      forall k :: 0 <= k < |e.order| && IsValidMove(g, e.order[k]) ==> Le(MoveValue(e, g, e.order[k]), MoveValue(e, g, col))
    // ties keep the earliest column of the order, since only a strictly higher score replaces the best
    ensures col != -1 && !WinInOrder(e, g) ==>
      (exists j :: 0 <= j < |e.order| && e.order[j] == col && BeatsEarlier(e, g, j, col)) ||
      (forall k :: 0 <= k < |e.order| && IsValidMove(g, e.order[k]) ==> MoveValue(e, g, e.order[k]) == NegInf)
  {
    var valid := ValidColumns(g);
    if valid == [] {
      return -1;
    }
    assert valid[shuffle % |valid|] in valid;
    col := valid[shuffle % |valid|];
    var best := NegInf;
    ghost var at := 0;
    var k := 0;
    while k < |e.order|
      invariant 0 <= k <= |e.order|
      invariant IsValidMove(g, col)
      invariant NoWinBefore(e, g, k)
      invariant Dominated(e, g, k, best)
      invariant best == NegInf || best == MoveValue(e, g, col)
      invariant best != NegInf ==> 0 <= at < k && e.order[at] == col && BeatsEarlier(e, g, at, col)
    {
      var c := e.order[k];
      ghost var before := best;
      if c in valid {
        var child := Play(g, c);
        if CheckWin(child.board) == Some(g.current) {
          return c;
        }
        var score := ScoreMove(e, g, c);
        if Lt(best, score) {
          BeatsEarlierStep(e, g, k, best, c);
          best := score;
          col := c;
          at := k;
        }
        assert Le(before, best) && Le(score, best);
      }
      assert IsValidMove(g, c) ==> !WinsNow(g, c);
      NoWinStep(e, g, k);
      DominatedStep(e, g, k, before, best);
      k := k + 1;
    }
    assert !WinInOrder(e, g);
    if best != NegInf {
      assert e.order[at] == col && BeatsEarlier(e, g, at, col);
    }
  }
}
