/**
 * The difficulty levels of game/difficulty_levels.py: EasyAI, MediumAI and
 * HardAI put their own rules in front of MinimaxEngine.find_best_move (take
 * a win, block the opponent, avoid moves that hand the opponent a win, or
 * deliberately play worse), get_ai_by_difficulty picks a level by name and
 * computer_move asks it for a column.
 *
 * random.random(), random.choice() and random.shuffle() are the Draws
 * passed in: a roll in [0, 1), an index for choice() and the index of the
 * column shuffle() puts first.
 */
module Difficulty {
  import opened Wrappers
  import opened Rules
  import opened SearchTree
  import opened Minimax
  import opened ConnectFour
  import opened Text

  datatype Draws = Draws(roll: real, choice: nat, shuffle: nat)

  function EasyAI(): Engine { NewEngine(Easy, 2) }
  function MediumAI(): Engine { NewEngine(Medium, 3) }
  function HardAI(): Engine { NewEngine(Hard, 5) }

  /** get_ai_by_difficulty: the name is compared in lower case; anything unknown means medium. */
  function AiByDifficulty(difficulty: string): (e: Engine)
    ensures e.level == Easy <==> Lower(difficulty) == "easy"
    ensures e.level == Hard <==> Lower(difficulty) == "hard"
    ensures e.level != Easy && e.level != Hard ==> e.level == Medium
    ensures e.maxDepth == (match e.level case Easy => 2 case Hard => 5 case _ => 3)
    ensures e.order == [3, 2, 4, 1, 5, 0, 6]
  {
    var name := Lower(difficulty);
    if name == "easy" then EasyAI()
    else if name == "medium" then MediumAI()
    else if name == "hard" then HardAI()
    else MediumAI()
  }

  // ---------------------------------------------------------------------
  // The rules in front of the search

  /** Some legal column wins at once. */
  ghost predicate CanWinNow(g: Game)
    requires ValidGame(g)
  {
    exists col :: IsValidMove(g, col) && WinsNow(g, col)
  }

  /** The opponent of the player to move would complete a four by playing col. */
  predicate OpponentWinsAt(g: Game, col: int)
    requires ValidGame(g) && IsValidMove(g, col)
  {
    var opp := Opponent(g.current);
    CheckWin(Play(g.(current := opp), col).board) == Some(opp)
  }

  /** The opponent could win at once in some legal column. */
  ghost predicate MustBlock(g: Game)
    requires ValidGame(g)
  {
    exists col :: IsValidMove(g, col) && OpponentWinsAt(g, col)
  }

  /**
   * The immediate-win loop every level runs first (with the test corrected
   * to the mover's colour): the lowest legal column that wins, or -1.
   */
  method FindWin(g: Game, moves: seq<int>) returns (col: int)
    requires ValidGame(g) && moves == ValidColumns(g)
    ensures col == -1 <==> !CanWinNow(g)
    ensures col != -1 ==> IsValidMove(g, col) && WinsNow(g, col)
    ensures col != -1 ==> forall c :: 0 <= c < col && IsValidMove(g, c) ==> !WinsNow(g, c)
  {
    ghost var wins := Winning(g);
    var i := 0;
    while i < |moves|
      invariant 0 <= i <= |moves|
      invariant NoneBefore(g, moves, i, wins)
    {
      assert moves[i] in moves;
      var child := Play(g, moves[i]);
      if CheckWin(child.board) == Some(g.current) {
        return moves[i];
      }
      NoneBeforeStep(g, moves, i, wins);
      i := i + 1;
    }
    return -1;
  }

  /** The legal columns where the player to move wins at once. */
  lemma Winning(g: Game) returns (wins: iset<int>)
    requires ValidGame(g)
    ensures forall c :: c in wins <==> IsValidMove(g, c) && WinsNow(g, c)
  {
    wins := iset c | IsValidMove(g, c) && WinsNow(g, c);
  }

  /** The legal columns where the opponent would win at once. */
  lemma Blocking(g: Game) returns (wins: iset<int>)
    requires ValidGame(g)
    ensures forall c :: c in wins <==> IsValidMove(g, c) && OpponentWinsAt(g, c)
  {
    wins := iset c | IsValidMove(g, c) && OpponentWinsAt(g, c);
  }

  /** The column the loops over the legal columns reach at step i, or the board width once past the end. */
  function Reached(g: Game, moves: seq<int>, i: int): int
    requires Rect(g.board) && 0 <= i <= |moves|
  {
    if i < |moves| then moves[i] else Cols(g.board)
  }

  /** No legal column before the one reached at step i is in wins. */
  ghost predicate NoneBefore(g: Game, moves: seq<int>, i: int, wins: iset<int>)
    requires Rect(g.board) && 0 <= i <= |moves|
  {
    forall c :: IsValidMove(g, c) && c < Reached(g, moves, i) ==> c !in wins
  }

  /** A legal column that is not in wins moves the scan on without finding one. */
  lemma NoneBeforeStep(g: Game, moves: seq<int>, i: int, wins: iset<int>)
    requires Rect(g.board) && moves == ValidColumns(g) && 0 <= i < |moves|
    requires NoneBefore(g, moves, i, wins) && moves[i] !in wins
    ensures NoneBefore(g, moves, i + 1, wins)
  {
    forall c | IsValidMove(g, c) && c < Reached(g, moves, i + 1)
      ensures c !in wins
    {
      assert c in moves;
    }
  }

  /** HardAI's block loop: the lowest legal column where the opponent would win, or -1. */
  method FindBlock(g: Game, moves: seq<int>) returns (col: int)
    requires ValidGame(g) && moves == ValidColumns(g)
    ensures col == -1 <==> !MustBlock(g)
    ensures col != -1 ==> IsValidMove(g, col) && OpponentWinsAt(g, col)
    ensures col != -1 ==> forall c :: 0 <= c < col && IsValidMove(g, c) ==> !OpponentWinsAt(g, c)
  {
    ghost var wins := Blocking(g);
    var opponent := Opponent(g.current);
    var i := 0;
    while i < |moves|
      invariant 0 <= i <= |moves|
      invariant NoneBefore(g, moves, i, wins)
    {
      assert moves[i] in moves;
      var copy := g.(current := opponent);
      var child := Play(copy, moves[i]);
      if CheckWin(child.board) == Some(opponent) {
        return moves[i];
      }
      NoneBeforeStep(g, moves, i, wins);
      i := i + 1;
    }
    return -1;
  }

  // MediumAI's filter

  /**
   * After the AI plays col the game goes on and the opponent has a reply
   * that completes a four of the opponent's.
   */
  ghost predicate HandsOverWin(g: Game, col: int)
    requires ValidGame(g) && IsValidMove(g, col)
  {
    var child := Play(g, col);
    !IsGameOver(child) &&
    exists reply :: IsValidMove(child, reply) && CheckWin(Play(child, reply).board) == Some(child.current)
  }

  /** The filter as written: the reply's four is compared with the AI's own colour. */
  ghost predicate HandsOverWinAsWritten(g: Game, col: int)
    requires ValidGame(g) && IsValidMove(g, col)
  {
    var child := Play(g, col);
    !IsGameOver(child) &&
    exists reply :: IsValidMove(child, reply) && CheckWin(Play(child, reply).board) == Some(g.current)
  }

  /** The filter as written never removes a column: a reply can only complete the replier's four. */
  lemma HandsOverWinAsWrittenNeverHolds(g: Game, col: int)
    requires ValidGame(g) && IsValidMove(g, col)
    ensures !HandsOverWinAsWritten(g, col)
  {
    var child := Play(g, col);
    if HandsOverWinAsWritten(g, col) {
      var reply :| IsValidMove(child, reply) && CheckWin(Play(child, reply).board) == Some(g.current);
      MoveWinsOnlyForMover(child, reply);
    }
  }

  /** ONE threatens on a one-row board: TWO's move to column 4 lets ONE win, yet the filter as written keeps it. */
  lemma HandsOverWinAsWrittenMisses()
    ensures var g := Game([[One, One, One, Empty, Empty]], Two, None, 3);
      IsValidMove(g, 4) && HandsOverWin(g, 4) && !HandsOverWinAsWritten(g, 4)
  {
    var g := Game([[One, One, One, Empty, Empty]], Two, None, 3);
    assert NextOpenRow(g.board, 4) == 0;
    var child := Play(g, 4);
    assert child.board == Place(g.board, 0, 4, Two);
    assert g.board[0][4 := Two] == [One, One, One, Empty, Two];
    assert child.board == [[One, One, One, Empty, Two]];
    assert CheckWin(child.board).None? by {
      assert !Four(Window(child.board, Horizontal, 0, 0));
      assert !Four(Window(child.board, Horizontal, 0, 1));
    }
    assert NextOpenRow(child.board, 3) == 0;
    var after := Play(child, 3);
    assert after.board == Place(child.board, 0, 3, One);
    assert child.board[0][3 := One] == [One, One, One, One, Two];
    assert after.board == [[One, One, One, One, Two]];
    assert Four(Window(after.board, Horizontal, 0, 0));
    assert CheckWin(after.board) == Some(One);
    HandsOverWinAsWrittenNeverHolds(g, 4);
  }

  /** The entries of moves whose flag is down, in their order. */
  function KeptBy(moves: seq<int>, drop: seq<bool>): (kept: seq<int>)
    requires |drop| == |moves|
    ensures |kept| <= |moves| && forall j :: 0 <= j < |kept| ==> kept[j] in moves
  {
    if moves == [] then [] else (if drop[0] then [] else [moves[0]]) + KeptBy(moves[1..], drop[1..])
  }

  /** An entry is kept iff some position holds it with its flag down. */
  lemma {:induction false} KeptByMembers(moves: seq<int>, drop: seq<bool>)
    requires |drop| == |moves|
    ensures forall x :: x in KeptBy(moves, drop) <==> exists j :: 0 <= j < |moves| && moves[j] == x && !drop[j]
  {
    if moves != [] {
      KeptByMembers(moves[1..], drop[1..]);
      forall x | x in KeptBy(moves, drop)
        ensures exists j :: 0 <= j < |moves| && moves[j] == x && !drop[j]
      {
        if x !in KeptBy(moves[1..], drop[1..]) {
          assert moves[0] == x && !drop[0];
        } else {
          var j :| 0 <= j < |moves| - 1 && moves[1..][j] == x && !drop[1..][j];
          assert moves[j + 1] == x && !drop[j + 1];
        }
      }
      forall x | exists j :: 0 <= j < |moves| && moves[j] == x && !drop[j]
        ensures x in KeptBy(moves, drop)
      {
        var j :| 0 <= j < |moves| && moves[j] == x && !drop[j];
        if j > 0 {
          assert moves[1..][j - 1] == x && !drop[1..][j - 1];
        }
      }
    }
  }

  lemma {:induction false} KeptByAppend(a: seq<int>, da: seq<bool>, x: int, d: bool)
    requires |da| == |a|
    ensures KeptBy(a + [x], da + [d]) == KeptBy(a, da) + (if d then [] else [x])
  {
    if a != [] {
      assert (a + [x])[1..] == a[1..] + [x];
      assert (da + [d])[1..] == da[1..] + [d];
      KeptByAppend(a[1..], da[1..], x, d);
    }
  }

  /** Which columns of moves hand the opponent a win. */
  ghost function Losing(g: Game, moves: seq<int>): (drop: seq<bool>)
    requires ValidGame(g) && forall j :: 0 <= j < |moves| ==> IsValidMove(g, moves[j])
    ensures |drop| == |moves|
  {
    seq(|moves|, j requires 0 <= j < |moves| => HandsOverWin(g, moves[j]))
  }

  /** The columns of moves that survive MediumAI's filter, in their order. */
  ghost function Kept(g: Game, moves: seq<int>): (kept: seq<int>)
    requires ValidGame(g) && forall j :: 0 <= j < |moves| ==> IsValidMove(g, moves[j])
    ensures forall j :: 0 <= j < |kept| ==> IsValidMove(g, kept[j])
  {
    KeptBy(moves, Losing(g, moves))
  }

  /** The filter keeps exactly the columns that do not hand the opponent a win. */
  lemma KeptMembers(g: Game, moves: seq<int>)
    requires ValidGame(g) && forall j :: 0 <= j < |moves| ==> IsValidMove(g, moves[j])
    ensures forall x :: x in Kept(g, moves) ==> IsValidMove(g, x)
    ensures forall x :: x in Kept(g, moves) <==> x in moves && !HandsOverWin(g, x)
  {
    var drop := Losing(g, moves);
    KeptByMembers(moves, drop);
    forall x | x in moves && !HandsOverWin(g, x)
      ensures x in Kept(g, moves)
    {
      var j :| 0 <= j < |moves| && moves[j] == x;
      assert !drop[j];
    }
  }

  /** [m for m in s if m != x] */
  function Without(s: seq<int>, x: int): (r: seq<int>)
  {
    if s == [] then [] else (if s[0] == x then [] else [s[0]]) + Without(s[1..], x)
  }

  lemma {:induction false} WithoutAbsent(s: seq<int>, x: int)
    requires x !in s
    ensures Without(s, x) == s
  {
    if s != [] {
      WithoutAbsent(s[1..], x);
    }
  }

  lemma {:induction false} WithoutAppend(a: seq<int>, b: seq<int>, x: int)
    ensures Without(a + b, x) == Without(a, x) + Without(b, x)
  {
    if a == [] {
      assert a + b == b;
    } else {
      assert (a + b)[1..] == a[1..] + b;
      WithoutAppend(a[1..], b, x);
    }
  }

  /** Strictly increasing columns, as get_valid_columns returns them. */
  predicate Increasing(s: seq<int>)
  {
    forall i, j :: 0 <= i < j < |s| ==> s[i] < s[j]
  }

  /** Whether some reply of the opponent completes the opponent's four (the inner loop of the filter). */
  method ReplyWins(child: Game) returns (found: bool)
    requires ValidGame(child)
    ensures found <==> exists reply :: IsValidMove(child, reply) && CheckWin(Play(child, reply).board) == Some(child.current)
  {
    var replies := ValidColumns(child);
    var i := 0;
    while i < |replies|
      invariant 0 <= i <= |replies|
      invariant forall j :: 0 <= j < i ==> CheckWin(Play(child, replies[j]).board) != Some(child.current)
    {
      var after := Play(child, replies[i]);
      if CheckWin(after.board) == Some(child.current) {
        return true;
      }
      i := i + 1;
    }
    forall reply | IsValidMove(child, reply)
      ensures CheckWin(Play(child, reply).board) != Some(child.current)
    {
      assert reply in replies;
    }
    return false;
  }

  /** The body of the filter for one column: play it, and look for a winning reply unless the game is over. */
  method LosesAfter(g: Game, col: int) returns (drop: bool)
    requires ValidGame(g) && IsValidMove(g, col)
    ensures drop == HandsOverWin(g, col)
  {
    var child := Play(g, col);
    drop := false;
    if !IsGameOver(child) {
      drop := ReplyWins(child);
    }
  }

  /** Dropping the one copy of x from a + [x] + b. */
  lemma DropColumn(a: seq<int>, x: int, b: seq<int>)
    requires x !in a && x !in b
    ensures Without(a + ([x] + b), x) == a + b
  {
    assert [x][1..] == [];
    assert Without([x], x) == [];
    calc {
      Without(a + ([x] + b), x);
      { WithoutAppend(a, [x] + b, x); }
      Without(a, x) + Without([x] + b, x);
      { WithoutAppend([x], b, x); }
      Without(a, x) + ([] + Without(b, x));
      { WithoutAbsent(a, x); WithoutAbsent(b, x); assert [] + b == b; }
      a + b;
    }
  }

  /**
   * One step of the filter loop over increasing columns: removing every copy
   * of the column from the list keeps the part already filtered and drops
   * only that column.
   */
  lemma FilterStep(moves: seq<int>, drop: seq<bool>, i: int, kept: seq<int>)
    requires Increasing(moves) && |drop| == |moves|
    requires 0 <= i < |moves| && kept == KeptBy(moves[..i], drop[..i]) + moves[i..]
    ensures (if drop[i] then Without(kept, moves[i]) else kept) == KeptBy(moves[..i + 1], drop[..i + 1]) + moves[i + 1..]
  {
    var a, x, rest := KeptBy(moves[..i], drop[..i]), moves[i], moves[i + 1..];
    KeptByExtend(moves, drop, i);
    assert kept == a + ([x] + rest) by {
      assert moves[i..] == [x] + rest;
    }
    if drop[i] {
      KeptBelow(moves, drop, i);
      AfterAbove(moves, i);
      DropColumn(a, x, rest);
    } else {
      assert a + [x] + rest == a + ([x] + rest);
    }
  }

  lemma KeptByExtend(moves: seq<int>, drop: seq<bool>, i: int)
    requires |drop| == |moves| && 0 <= i < |moves|
    ensures KeptBy(moves[..i + 1], drop[..i + 1]) == KeptBy(moves[..i], drop[..i]) + (if drop[i] then [] else [moves[i]])
  {
    assert moves[..i + 1] == moves[..i] + [moves[i]];
    assert drop[..i + 1] == drop[..i] + [drop[i]];
    KeptByAppend(moves[..i], drop[..i], moves[i], drop[i]);
  }

  /** In increasing columns, every column kept from before position i is below the i-th. */
  lemma KeptBelow(moves: seq<int>, drop: seq<bool>, i: int)
    requires Increasing(moves) && |drop| == |moves| && 0 <= i < |moves|
    ensures moves[i] !in KeptBy(moves[..i], drop[..i])
  {
    KeptByMembers(moves[..i], drop[..i]);
    forall y | y in KeptBy(moves[..i], drop[..i])
      ensures y < moves[i]
    {
      var j :| 0 <= j < i && moves[..i][j] == y && !drop[..i][j];
      assert moves[j] == y;
    }
  }

  /** In increasing columns, the i-th does not occur after position i. */
  lemma AfterAbove(moves: seq<int>, i: int)
    requires Increasing(moves) && 0 <= i < |moves|
    ensures moves[i] !in moves[i + 1..]
  {
    var rest := moves[i + 1..];
    forall j | 0 <= j < |rest|
      ensures moves[i] < rest[j]
    {
      assert rest[j] == moves[i + 1 + j];
    }
  }

  /** One pass of the filter: drop the i-th column from kept when it hands the opponent a win. */
  method FilterOne(g: Game, moves: seq<int>, ghost losing: seq<bool>, i: int, kept: seq<int>) returns (kept': seq<int>)
    requires ValidGame(g) && Increasing(moves) && forall j :: 0 <= j < |moves| ==> IsValidMove(g, moves[j])
    requires losing == Losing(g, moves) && 0 <= i < |moves|
    requires kept == KeptBy(moves[..i], losing[..i]) + moves[i..]
    ensures kept' == KeptBy(moves[..i + 1], losing[..i + 1]) + moves[i + 1..]
  {
    var col := moves[i];
    FilterStep(moves, losing, i, kept);
    var drop := LosesAfter(g, col);
    assert drop == losing[i];
    kept' := if drop then Without(kept, col) else kept;
  }

  /**
   * MediumAI's filter loop (corrected to look for the opponent's four): it
   * walks the original list and rebinds valid_moves without each column
   * after which the opponent can win.
   */
  method FilterLosing(g: Game, moves: seq<int>) returns (kept: seq<int>)
    requires ValidGame(g) && Increasing(moves) && forall j :: 0 <= j < |moves| ==> IsValidMove(g, moves[j])
    ensures kept == Kept(g, moves)
  {
    ghost var losing := Losing(g, moves);
    kept := moves;
    var i := 0;
    while i < |moves|
      invariant 0 <= i <= |moves|
      invariant kept == KeptBy(moves[..i], losing[..i]) + moves[i..]
    {
      kept := FilterOne(g, moves, losing, i, kept);
      i := i + 1;
    }
    assert moves[..i] == moves && losing[..i] == losing;
  }

  // MediumAI's second-best move

  /** The first index holding the largest score. */
  function BestIndex(s: seq<(int, Score)>): (k: nat)
    requires |s| >= 1
    ensures k < |s|
    ensures forall j :: 0 <= j < |s| ==> Le(s[j].1, s[k].1)
    ensures forall j :: 0 <= j < k ==> Lt(s[j].1, s[k].1)
  {
    if |s| == 1 then 0
    else
      var k := BestIndex(s[1..]);
      assert forall j :: 1 <= j < |s| ==> s[j] == s[1..][j - 1];
      if Le(s[k + 1].1, s[0].1) then 0 else k + 1
  }

  /**
   * The entry at position 1 after a stable sort by descending score: the
   * first best entry among all but the first best one.
   */
  function SecondBest(s: seq<(int, Score)>): (entry: (int, Score))
    requires |s| >= 2
  {
    var top := BestIndex(s);
    var rest := s[..top] + s[top + 1..];
    rest[BestIndex(rest)]
  }

  /** Entry k is second best in s, whose best entry is at top. */
  predicate IsSecondBest(s: seq<(int, Score)>, top: int, k: int)
    requires 0 <= top < |s|
  {
    0 <= k < |s| && k != top && Le(s[k].1, s[top].1) &&
    (forall j :: 0 <= j < |s| && j != top ==> Le(s[j].1, s[k].1)) &&
    (forall j :: 0 <= j < k && j != top ==> Lt(s[j].1, s[k].1))
  }

  /**
   * The second-best entry: not the best one, beaten by no other entry, and
   * strictly better than every other entry listed before it.
   */
  lemma SecondBestSpec(s: seq<(int, Score)>)
    requires |s| >= 2
    ensures exists k :: IsSecondBest(s, BestIndex(s), k) && s[k] == SecondBest(s)
  {
    var top := BestIndex(s);
    var rest := s[..top] + s[top + 1..];
    var r := BestIndex(rest);
    var k := if r < top then r else r + 1;
    RemoveAt(s, top);
    RestBest(s, top, rest, r);
    assert IsSecondBest(s, top, k) && s[k] == rest[r];
  }

  /** The best entry of s without its best entry top is second best in s. */
  lemma RestBest(s: seq<(int, Score)>, top: int, rest: seq<(int, Score)>, r: int)
    requires 0 <= top < |s| && |rest| == |s| - 1 && 0 <= r < |rest|
    requires forall j :: 0 <= j < top ==> rest[j] == s[j]
    requires forall j :: top < j < |s| ==> rest[j - 1] == s[j]
    requires forall j :: 0 <= j < |s| ==> Le(s[j].1, s[top].1)
    requires forall j :: 0 <= j < |rest| ==> Le(rest[j].1, rest[r].1)
    requires forall j :: 0 <= j < r ==> Lt(rest[j].1, rest[r].1)
    ensures s[if r < top then r else r + 1] == rest[r]
    ensures IsSecondBest(s, top, if r < top then r else r + 1)
  {
    var k := if r < top then r else r + 1;
    assert s[k] == rest[r];
    forall j | 0 <= j < |s| && j != top
      ensures Le(s[j].1, s[k].1)
    {
      if j > top {
        assert rest[j - 1] == s[j];
      }
    }
    forall j | 0 <= j < k && j != top
      ensures Lt(s[j].1, s[k].1)
    {
      if j > top {
        assert rest[j - 1] == s[j];
      }
    }
  }

  lemma RemoveAt(s: seq<(int, Score)>, top: int)
    requires 0 <= top < |s|
    ensures |s[..top] + s[top + 1..]| == |s| - 1
    ensures forall j :: 0 <= j < top ==> (s[..top] + s[top + 1..])[j] == s[j]
    ensures forall j :: top < j < |s| ==> (s[..top] + s[top + 1..])[j - 1] == s[j]
  {
  }

  /** Each column with the minimax value of playing it. */
  ghost function ScoresOf(e: Engine, g: Game, moves: seq<int>): seq<(int, Score)>
    requires ValidGame(g) && forall j :: 0 <= j < |moves| ==> IsValidMove(g, moves[j])
  {
    seq(|moves|, j requires 0 <= j < |moves| => (moves[j], MoveValue(e, g, moves[j])))
  }

  /** The scoring loop of MediumAI: each kept column with its full-window minimax score. */
  method ScoreMoves(e: Engine, g: Game, moves: seq<int>) returns (scores: seq<(int, Score)>)
    requires ValidGame(g) && forall j :: 0 <= j < |moves| ==> IsValidMove(g, moves[j])
    ensures scores == ScoresOf(e, g, moves)
  {
    scores := [];
    var i := 0;
    while i < |moves|
      invariant 0 <= i <= |moves| && |scores| == i
      invariant forall j :: 0 <= j < i ==> scores[j] == (moves[j], MoveValue(e, g, moves[j]))
    {
      var score := ScoreMove(e, g, moves[i]);
      scores := scores + [(moves[i], score)];
      i := i + 1;
    }
  }

  // ---------------------------------------------------------------------
  // The three find_best_move methods

  /** EasyAI: take a win; with probability 0.3 any legal column; else the engine's search. */
  method EasyMove(e: Engine, g: Game, draws: Draws) returns (col: int)
    requires ValidGame(g)
    ensures col == -1 <==> ValidColumns(g) == []
    ensures col != -1 ==> IsValidMove(g, col)
    ensures CanWinNow(g) ==> WinsNow(g, col) && forall c :: 0 <= c < col && IsValidMove(g, c) ==> !WinsNow(g, c)
    ensures !CanWinNow(g) && col != -1 && draws.roll < 0.3 ==> col == ValidColumns(g)[draws.choice % |ValidColumns(g)|]
  {
    var valid := ValidColumns(g);
    if valid == [] {
      return -1;
    }
    col := FindWin(g, valid);
    if col != -1 {
      return;
    }
    if draws.roll < 0.3 {
      col := valid[draws.choice % |valid|];
      assert col in valid;
      return;
    }
    col := BestMove(e, g, draws.shuffle);
  }

  /**
   * MediumAI: take a win; drop the columns that hand the opponent a win;
   * with probability 0.15, and more than one column left, the second-best
   * of those by search score; else the engine's search over all columns.
   */
  method MediumMove(e: Engine, g: Game, draws: Draws) returns (col: int)
    requires ValidGame(g)
    ensures col == -1 <==> ValidColumns(g) == []
    ensures col != -1 ==> IsValidMove(g, col)
    ensures CanWinNow(g) ==> WinsNow(g, col) && forall c :: 0 <= c < col && IsValidMove(g, c) ==> !WinsNow(g, c)
    ensures !CanWinNow(g) && draws.roll < 0.15 && |Kept(g, ValidColumns(g))| > 1 ==>
      col in Kept(g, ValidColumns(g)) && !HandsOverWin(g, col) &&
      col == SecondBest(ScoresOf(e, g, Kept(g, ValidColumns(g)))).0
  {
    var valid := ValidColumns(g);
    if valid == [] {
      return -1;
    }
    col := FindWin(g, valid);
    if col != -1 {
      return;
    }
    var kept := FilterLosing(g, valid);
    if draws.roll < 0.15 && |kept| > 1 {
      var scores := ScoreMoves(e, g, kept);
      SecondBestSpec(scores);
      KeptMembers(g, valid);
      var entry := SecondBest(scores);
      assert entry.0 in kept;
      return entry.0;
    }
    col := BestMove(e, g, draws.shuffle);
  }

  /** HardAI: take a win; else block the first column where the opponent would win; else the search. */
  method HardMove(e: Engine, g: Game, draws: Draws) returns (col: int)
    requires ValidGame(g)
    ensures col == -1 <==> ValidColumns(g) == []
    ensures col != -1 ==> IsValidMove(g, col)
    ensures CanWinNow(g) ==> WinsNow(g, col) && forall c :: 0 <= c < col && IsValidMove(g, c) ==> !WinsNow(g, c)
    ensures !CanWinNow(g) && MustBlock(g) ==>
      OpponentWinsAt(g, col) && forall c :: 0 <= c < col && IsValidMove(g, c) ==> !OpponentWinsAt(g, c)
  {
    var valid := ValidColumns(g);
    if valid == [] {
      return -1;
    }
    col := FindWin(g, valid);
    if col != -1 {
      return;
    }
    col := FindBlock(g, valid);
    if col != -1 {
      return;
    }
    col := BestMove(e, g, draws.shuffle);
  }

  /** find_best_move as each engine overrides it. */
  method EngineMove(e: Engine, g: Game, draws: Draws) returns (col: int)
    requires ValidGame(g)
    ensures col == -1 <==> ValidColumns(g) == []
    ensures col != -1 ==> IsValidMove(g, col)
  {
    match e.level {
      case Easy => col := EasyMove(e, g, draws);
      case Medium => col := MediumMove(e, g, draws);
      case Hard => col := HardMove(e, g, draws);
      case _ => col := BestMove(e, g, draws.shuffle);
    }
  }

  /**
   * computer_move: -1 once the game is over; otherwise the level's move for
   * TWO, asked on a copy whose player to move is TWO. The method has no
   * modifies clause, so the caller's game (its current player included)
   * is left as it was.
   */
  method ComputerMove(game: ConnectFourGame, difficulty: string, draws: Draws) returns (col: int)
    requires game.Valid()
    ensures IsGameOver(game.State()) ==> col == -1
    ensures !IsGameOver(game.State()) ==> (col == -1 <==> ValidColumns(game.State()) == [])
    ensures col != -1 ==> IsValidMove(game.State(), col)
  {
    var over := game.IsGameOver();
    if over {
      return -1;
    }
    var g := game.Snapshot();
    if g.current != Two {
      g := g.(current := Two);
    }
    assert ValidColumns(g) == ValidColumns(game.State()) by {
      assert forall c :: IsValidMove(g, c) <==> IsValidMove(game.State(), c);
      ColumnsSameBoard(g, game.State(), 0);
    }
    var ai := AiByDifficulty(difficulty);
    col := EngineMove(ai, g, draws);
  }

  /** The legal columns depend on the board alone. */
  lemma {:induction false} ColumnsSameBoard(g: Game, h: Game, c: nat)
    requires Rect(g.board) && g.board == h.board
    ensures ColumnsFrom(g, c) == ColumnsFrom(h, c)
    decreases Cols(g.board) - c
  {
    if c < Cols(g.board) {
      ColumnsSameBoard(g, h, c + 1);
    }
  }
}
