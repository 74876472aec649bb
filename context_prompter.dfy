/**
 * ai/context_prompter.py: the board analysis behind the context-aware
 * prompt. Boards are rows of integer cells (0 empty, 1 and 2 the players).
 * The detectors build lists whose entries are all alike, so each is modelled
 * by its length. The random choices are given as indices.
 */
module ContextPrompting {
  /** Every row as long as the first. */
  predicate Rect(b: seq<seq<int>>)
  {
    forall r :: 0 <= r < |b| ==> |b[r]| == |b[0]|
  }

  /** len(board[0]), or 0 for an empty board (whose rows are never read). */
  function Width(b: seq<seq<int>>): nat
  {
    if |b| > 0 then |b[0]| else 0
  }

  /** list.count(v) */
  function Count(s: seq<int>, v: int): (n: nat)
    ensures n <= |s|
  {
    if s == [] then 0 else Count(s[..|s| - 1], v) + (if s[|s| - 1] == v then 1 else 0)
  }

  /** Two different values are counted in disjoint cells. */
  lemma {:induction false} CountTwo(s: seq<int>, v: int, w: int)
    requires v != w
    ensures Count(s, v) + Count(s, w) <= |s|
    decreases |s|
  {
    if s != [] {
      CountTwo(s[..|s| - 1], v, w);
    }
  }

  /** A window holding three of v and one empty cell. */
  predicate Hit(w: seq<int>, v: int)
  {
    Count(w, v) == 3 && Count(w, 0) == 1
  }

  /** A four-cell window cannot be three-and-one for two different players. */
  lemma HitExclusive(w: seq<int>, v: int, u: int)
    requires |w| == 4 && v != u
    ensures !(Hit(w, v) && Hit(w, u))
  {
    CountTwo(w, v, u);
  }

  /** How many horizontal windows starting before column upto are hits for v. */
  function RowHits(row: seq<int>, v: int, upto: int): (n: nat)
    requires upto <= 0 || upto <= |row| - 3
    ensures n <= if upto < 0 then 0 else upto
    decreases upto
  {
    if upto <= 0 then 0
    else RowHits(row, v, upto - 1) + (if Hit(row[upto - 1..upto + 3], v) then 1 else 0)
  }

  /** How many horizontal windows of the first rows rows are hits for v. */
  function BoardHits(b: seq<seq<int>>, v: int, rows: nat): (n: nat)
    requires Rect(b) && rows <= |b|
    decreases rows
  {
    if rows == 0 then 0
    else BoardHits(b, v, rows - 1) + RowHits(b[rows - 1], v, Width(b) - 3)
  }

  /** The horizontal windows of a board: one per row and start column. */
  function WindowTotal(b: seq<seq<int>>): nat
  {
    if Width(b) >= 3 then |b| * (Width(b) - 3) else 0
  }

  lemma {:induction false} RowHitsDisjoint(row: seq<int>, v: int, u: int, upto: int)
    requires (upto <= 0 || upto <= |row| - 3) && v != u
    ensures RowHits(row, v, upto) + RowHits(row, u, upto) <= if upto < 0 then 0 else upto
    decreases upto
  {
    if upto > 0 {
      RowHitsDisjoint(row, v, u, upto - 1);
      HitExclusive(row[upto - 1..upto + 3], v, u);
    }
  }

  /**
   * Threats and opportunities never share a window, so together they are
   * at most the number of horizontal windows.
   */
  lemma {:induction false} HitsBounded(b: seq<seq<int>>, v: int, u: int, rows: nat)
    requires Rect(b) && rows <= |b| && v != u
    ensures BoardHits(b, v, rows) + BoardHits(b, u, rows) <= if Width(b) >= 3 then rows * (Width(b) - 3) else 0
    decreases rows
  {
    if rows > 0 {
      HitsBounded(b, v, u, rows - 1);
      RowHitsDisjoint(b[rows - 1], v, u, Width(b) - 3);
      if Width(b) >= 3 {
        assert rows * (Width(b) - 3) == (rows - 1) * (Width(b) - 3) + (Width(b) - 3);
      }
    }
  }

  /** The shared scan of _detect_threats and _detect_opportunities: the windows that are hits for v. */
  method CountHits(b: seq<seq<int>>, v: int) returns (n: nat)
    requires Rect(b)
    ensures n == BoardHits(b, v, |b|)
  {
    n := 0;
    var row := 0;
    while row < |b|
      invariant 0 <= row <= |b|
      invariant n == BoardHits(b, v, row)
    {
      var inRow := CountRowHits(b[row], v);
      n := n + inRow;
      row := row + 1;
    }
  }

  /** The inner loop of the scan: the hits among the windows of one row. */
  method CountRowHits(row: seq<int>, v: int) returns (inRow: nat)
    ensures inRow == RowHits(row, v, |row| - 3)
  {
    var col := 0;
    inRow := 0;
    while col < |row| - 3
      invariant 0 <= col <= if |row| >= 3 then |row| - 3 else 0
      invariant inRow == RowHits(row, v, col)
    {
      var window := row[col..col + 4];
      if Count(window, v) == 3 && Count(window, 0) == 1 {
        inRow := inRow + 1;
      }
      col := col + 1;
    }
  }

  /** _detect_threats: one entry per horizontal window with three opponent pieces and one gap. */
  method DetectThreats(b: seq<seq<int>>, player: int) returns (threats: nat)
    requires Rect(b)
    ensures threats == BoardHits(b, 3 - player, |b|)
  {
    threats := CountHits(b, 3 - player);
  }

  /** _detect_opportunities: one entry per horizontal window with three own pieces and one gap. */
  method DetectOpportunities(b: seq<seq<int>>, player: int) returns (opportunities: nat)
    requires Rect(b)
    ensures opportunities == BoardHits(b, player, |b|)
  {
    opportunities := CountHits(b, player);
  }

  /** A player's threats and opportunities never share a window, so together they are at most the window count. */
  lemma ThreatsAndOpportunitiesDisjoint(b: seq<seq<int>>, player: int)
    requires Rect(b) && (player == 1 || player == 2)
    ensures BoardHits(b, 3 - player, |b|) + BoardHits(b, player, |b|) <= WindowTotal(b)
  {
    HitsBounded(b, 3 - player, player, |b|);
  }

  const WinActions: seq<string> := ["seize victory", "execute a winning move", "claim triumph", "secure dominance"]
  const BlockActions: seq<string> := ["block a threat", "defend against attack", "counter the opposition", "prevent defeat"]
  const PlainActions: seq<string> := ["advance their strategy", "strengthen their position", "develop their formation", "prepare an attack"]

  /** _select_action, with the index random.choice draws given as pick. */
  function SelectAction(threats: nat, opportunities: nat, pick: nat): (r: string)
    ensures opportunities > 0 ==> r in WinActions
    ensures opportunities == 0 && threats > 0 ==> r in BlockActions
    ensures opportunities == 0 && threats == 0 ==> r in PlainActions
  {
    var actions := if opportunities > 0 then WinActions else if threats > 0 then BlockActions else PlainActions;
    actions[pick % 4]
  }

  /** The columns of the top row that are still empty, in order. */
  function OpenColumns(top: seq<int>, upto: nat): (cs: seq<int>)
    requires upto <= |top|
    ensures forall c :: c in cs <==> 0 <= c < upto && top[c] == 0
    ensures forall i, j :: 0 <= i < j < |cs| ==> cs[i] < cs[j]
    decreases upto
  {
    if upto == 0 then []
    else
      var front := OpenColumns(top, upto - 1);
      assert forall i :: 0 <= i < |front| ==> front[i] < upto - 1 by {
        forall i | 0 <= i < |front|
          ensures front[i] < upto - 1
        {
          assert front[i] in front;
        }
      }
      front + (if top[upto - 1] == 0 then [upto - 1] else [])
  }

  /**
   * _suggest_strategic_column, with the index random.choice draws given as
   * pick. The source reads board[0] and raises IndexError on a board without
   * rows; its one caller passes the 6 x 7 game board.
   */
  method SuggestStrategicColumn(b: seq<seq<int>>, pick: nat) returns (col: int)
    requires |b| > 0
    ensures OpenColumns(b[0], |b[0]|) == [] ==> col == 3
    ensures OpenColumns(b[0], |b[0]|) != [] ==>
      col == OpenColumns(b[0], |b[0]|)[pick % |OpenColumns(b[0], |b[0]|)|] && 0 <= col < |b[0]| && b[0][col] == 0
  {
    var top := b[0];
    var valid: seq<int> := [];
    var c := 0;
    while c < |top|
      invariant 0 <= c <= |top|
      invariant valid == OpenColumns(top, c)
    {
      if top[c] == 0 {
        valid := valid + [c];
      }
      c := c + 1;
    }
    if valid == [] {
      col := 3;
    } else {
      col := valid[pick % |valid|];
      assert col in OpenColumns(top, |top|);
    }
  }

  /** The number of nonzero cells in a row. */
  function RowMoves(row: seq<int>): (n: nat)
    ensures n <= |row|
  {
    if row == [] then 0 else RowMoves(row[..|row| - 1]) + (if row[|row| - 1] != 0 then 1 else 0)
  }

  /** move_count: the nonzero cells of the whole board. */
  function MoveCount(b: seq<seq<int>>): nat
  {
    if b == [] then 0 else MoveCount(b[..|b| - 1]) + RowMoves(b[|b| - 1])
  }

  /** The move count never exceeds the number of cells, and an empty board has none. */
  lemma {:induction false} MoveCountBounds(b: seq<seq<int>>)
    requires Rect(b)
    ensures MoveCount(b) <= |b| * Width(b)
    ensures (forall r, c :: 0 <= r < |b| && 0 <= c < |b[r]| ==> b[r][c] == 0) ==> MoveCount(b) == 0
    decreases |b|
  {
    if b != [] {
      var front := b[..|b| - 1];
      assert Rect(front);
      MoveCountBounds(front);
      assert Width(front) == Width(b) || front == [];
      assert |b| * Width(b) == (|b| - 1) * Width(b) + Width(b);
      if forall r, c :: 0 <= r < |b| && 0 <= c < |b[r]| ==> b[r][c] == 0 {
        EmptyRow(b[|b| - 1]);
      }
    }
  }

  lemma {:induction false} EmptyRow(row: seq<int>)
    requires forall c :: 0 <= c < |row| ==> row[c] == 0
    ensures RowMoves(row) == 0
    decreases |row|
  {
    if row != [] {
      EmptyRow(row[..|row| - 1]);
    }
  }

  /** _determine_game_phase */
  function GamePhase(moveCount: int): (p: string)
    ensures p == "opening" <==> moveCount < 10
    ensures p == "midgame" <==> 10 <= moveCount < 25
    ensures p == "endgame" <==> moveCount >= 25
  {
    if moveCount < 10 then "opening" else if moveCount < 25 then "midgame" else "endgame"
  }

  /** The faction create_prompt names: the science-fiction names only for the theme spelled "scifi". */
  function Faction(theme: string, player: int): (f: string)
    ensures player == 1 <==> f == "Quantum Collective" || f == "Crystal Lords"
    ensures theme == "scifi" <==> f == "Quantum Collective" || f == "Void Syndicate"
  {
    if theme == "scifi" then (if player == 1 then "Quantum Collective" else "Void Syndicate")
    else if player == 1 then "Crystal Lords" else "Shadow Keepers"
  }
}
