/**
 * The decision logic of game/narrative_engine.py: the move-quality
 * classification of MoveEvaluator.evaluate_move and _creates_trap, and the
 * prompt helpers of NarrativePromptGenerator (placeholder filling and the
 * faction names). Games are Rules.Game values: every game the source
 * inspects here is a copy.
 */
module NarrativeEngine {
  import opened Wrappers
  import opened Text
  import opened Rules
  import Minimax

  // ---------------------------------------------------------------------
  // Move quality
  // ---------------------------------------------------------------------

  datatype Quality = Good | Mediocre | Bad

  /** _evaluate_position: +1000 for a board player has won, -1000 for one the other has, else the standard position score. */
  function EvaluatePosition(g: Game, player: Player): (s: int)
    requires ValidGame(g) && player != Empty
    ensures CheckWin(g.board) == Some(player) ==> s == 1000
    ensures CheckWin(g.board).Some? && CheckWin(g.board) != Some(player) ==> s == -1000
  {
    var w := CheckWin(g.board);
    if w == Some(player) then 1000
    else if w.Some? then -1000
    else Minimax.PositionScore(Minimax.Standard, g.board, player)
  }

  /** The score evaluate_move gives a legal column: the position after it, from Player.ONE's side. */
  function ColumnScore(g: Game, col: int): int
    requires ValidGame(g) && IsValidMove(g, col)
  {
    EvaluatePosition(Play(g, col), One)
  }

  /** All of cs are legal columns. */
  predicate AllLegal(g: Game, cs: seq<int>)
    requires ValidGame(g)
  {
    forall k :: 0 <= k < |cs| ==> IsValidMove(g, cs[k])
  }

  /** The valid columns are all legal. */
  lemma ValidColumnsLegal(g: Game)
    requires ValidGame(g)
    ensures AllLegal(g, ValidColumns(g))
  {
    var cs := ValidColumns(g);
    forall k | 0 <= k < |cs|
      ensures IsValidMove(g, cs[k])
    {
      assert cs[k] in cs;
    }
  }

  /** The scores of the given legal columns, in order: move_scores without the columns. */
  function Scores(g: Game, cs: seq<int>): (s: seq<int>)
    requires ValidGame(g) && AllLegal(g, cs)
    ensures |s| == |cs|
    decreases |cs|
  {
    if cs == [] then [] else [ColumnScore(g, cs[0])] + Scores(g, cs[1..])
  }

  /** Each score belongs to the column at the same place. */
  lemma {:induction false} ScoresAt(g: Game, cs: seq<int>, k: nat)
    requires ValidGame(g) && AllLegal(g, cs) && k < |cs|
    ensures Scores(g, cs)[k] == ColumnScore(g, cs[k])
    decreases k
  {
    if k > 0 {
      ScoresAt(g, cs[1..], k - 1);
    }
  }

  /** The best score: the head of the list once sorted best first. */
  function Max(s: seq<int>): (m: int)
    requires |s| >= 1
    ensures forall k :: 0 <= k < |s| ==> s[k] <= m
    ensures exists k :: 0 <= k < |s| && s[k] == m
    decreases |s|
  {
    if |s| == 1 then s[0]
    else
      var rest := Max(s[..|s| - 1]);
      assert forall k :: 0 <= k < |s| - 1 ==> s[..|s| - 1][k] == s[k];
      if rest >= s[|s| - 1] then rest else s[|s| - 1]
  }

  /** next(score for col, score in move_scores if col == column), or None when column is not listed. */
  function ScoreOf(cs: seq<int>, scores: seq<int>, column: int): (r: Option<int>)
    requires |cs| == |scores|
    ensures r.Some? <==> column in cs
    ensures r.Some? ==> exists k :: 0 <= k < |cs| && cs[k] == column && scores[k] == r.value
    decreases |cs|
  {
    if cs == [] then None
    else if cs[0] == column then Some(scores[0])
    else
      var r := ScoreOf(cs[1..], scores[1..], column);
      assert r.Some? ==> exists k :: 0 <= k < |cs| - 1 && cs[1..][k] == column && scores[1..][k] == r.value;
      r
  }

  /** The classification of a move scoring mine when the best move scores top. */
  function Classify(top: int, mine: int): (q: Quality)
    ensures top <= 0 ==> (q == Good <==> mine == top) && (q == Bad <==> mine != top)
    ensures top > 0 ==> (q == Good <==> 10 * mine >= 9 * top)
    ensures top > 0 ==> (q == Mediocre <==> 2 * mine >= top && 10 * mine < 9 * top)
    ensures top > 0 ==> (q == Bad <==> 2 * mine < top)
  {
    var ratio: real := if top <= 0 then (if mine == top then 1.0 else 0.0) else mine as real / top as real;
    if top > 0 then
      RatioAtLeast(mine, top, 9, 10);
      RatioAtLeast(mine, top, 1, 2);
      if ratio >= 0.9 then Good else if ratio >= 0.5 then Mediocre else Bad
    else if ratio >= 0.9 then Good else if ratio >= 0.5 then Mediocre else Bad
  }

  /** mine / top >= n / d exactly when d * mine >= n * top, for a positive top. */
  lemma RatioAtLeast(mine: int, top: int, n: int, d: int)
    requires top > 0 && d > 0
    ensures mine as real / top as real >= n as real / d as real <==> d * mine >= n * top
  {
    var r := mine as real / top as real;
    var q := n as real / d as real;
    assert r * top as real == mine as real;
    assert q * d as real == n as real;
    assert r >= q <==> r * (top * d) as real >= q * (top * d) as real;
    assert (d * mine) as real == r * (top * d) as real;
    assert (n * top) as real == q * (top * d) as real;
  }

  function Rank(q: Quality): nat
  {
    match q
    case Bad => 0
    case Mediocre => 1
    case Good => 2
  }

  /** A better-scoring move is never classified worse, and the best move is good. */
  lemma ClassifyMonotone(top: int, a: int, b: int)
    requires a <= b <= top
    ensures Rank(Classify(top, a)) <= Rank(Classify(top, b))
    ensures Classify(top, top) == Good
  {
  }

  /** What evaluate_move returns for column. */
  function MoveQuality(g: Game, column: int): (q: Quality)
    requires ValidGame(g)
    ensures !IsValidMove(g, column) ==> q == Mediocre
  {
    var cs := ValidColumns(g);
    ValidColumnsLegal(g);
    if cs == [] then Mediocre
    else
      var scores := Scores(g, cs);
      match ScoreOf(cs, scores, column)
      case None => Mediocre
      case Some(mine) => Classify(Max(scores), mine)
  }

  /** A legal column is classified by its own score against the best score of all legal columns. */
  lemma MoveQualityOfLegal(g: Game, column: int)
    requires ValidGame(g) && IsValidMove(g, column)
    ensures (ValidColumnsLegal(g);
      MoveQuality(g, column) == Classify(Max(Scores(g, ValidColumns(g))), ColumnScore(g, column)))
  {
    var cs := ValidColumns(g);
    ValidColumnsLegal(g);
    var scores := Scores(g, cs);
    assert column in cs;
    var j :| 0 <= j < |cs| && cs[j] == column && scores[j] == ScoreOf(cs, scores, column).value;
    ScoresAt(g, cs, j);
  }

  /** A legal move scoring as well as any other is good. */
  lemma BestMoveIsGood(g: Game, column: int)
    requires ValidGame(g) && IsValidMove(g, column)
    requires forall c :: c in ValidColumns(g) ==> ColumnScore(g, c) <= ColumnScore(g, column)
    ensures MoveQuality(g, column) == Good
  {
    MoveQualityOfLegal(g, column);
    var cs := ValidColumns(g);
    ValidColumnsLegal(g);
    var scores := Scores(g, cs);
    var k :| 0 <= k < |cs| && scores[k] == Max(scores);
    ScoresAt(g, cs, k);
    assert cs[k] in cs;
    assert column in cs;
    var j :| 0 <= j < |cs| && cs[j] == column;
    ScoresAt(g, cs, j);
  }

  /** The loop of evaluate_move: the score of each legal column in turn. */
  method ScoreColumns(g: Game, cs: seq<int>) returns (scores: seq<int>)
    requires ValidGame(g) && AllLegal(g, cs)
    ensures scores == Scores(g, cs)
  {
    scores := [];
    var i := 0;
    while i < |cs|
      invariant 0 <= i <= |cs|
      invariant Scores(g, cs) == scores + Scores(g, cs[i..])
    {
      assert cs[i..][1..] == cs[i + 1..];
      scores := scores + [ColumnScore(g, cs[i])];
      i := i + 1;
    }
  }

  /** evaluate_move: score every legal column, then classify column against the best. */
  method EvaluateMove(g: Game, column: int) returns (quality: Quality)
    requires ValidGame(g)
    ensures quality == MoveQuality(g, column)
  {
    var cs := ValidColumns(g);
    if |cs| == 0 {
      return Mediocre;
    }
    ValidColumnsLegal(g);
    var scores := ScoreColumns(g, cs);
    var top := Max(scores);
    var mine := ScoreOf(cs, scores, column);
    if mine.None? {
      return Mediocre;
    }
    quality := Classify(top, mine.value);
  }

  // ---------------------------------------------------------------------
  // Traps
  // ---------------------------------------------------------------------

  /** The position after the opponent's reply, with Player.ONE to move again. */
  function AfterReply(g1: Game, reply: int): (g2: Game)
    requires ValidGame(g1) && IsValidMove(g1, reply)
    ensures ValidGame(g2)
  {
    var h := Play(g1, reply);
    Game(h.board, One, h.lastMove, h.moveCount)
  }

  /** Player.ONE has a legal move that wins at once. */
  predicate WinningReply(g2: Game)
    requires ValidGame(g2)
  {
    exists c :: c in ValidColumns(g2) && CheckWin(Play(g2, c).board) == Some(One)
  }

  /** How many of the replies leave Player.ONE a winning move. */
  function WinningPaths(g1: Game, replies: seq<int>): (n: nat)
    requires ValidGame(g1) && AllLegal(g1, replies)
    ensures n <= |replies|
    decreases |replies|
  {
    if replies == [] then 0
    else (if WinningReply(AfterReply(g1, replies[0])) then 1 else 0) + WinningPaths(g1, replies[1..])
  }

  /** _creates_trap: after column, at least two opponent replies still leave Player.ONE a win. */
  predicate IsTrap(g: Game, column: int)
    requires ValidGame(g)
  {
    IsValidMove(g, column) &&
      var g1 := Play(g, column);
      ValidColumnsLegal(g1);
      WinningPaths(g1, ValidColumns(g1)) >= 2
  }

  /** A trap needs the move to be legal and to leave the opponent two replies or more. */
  lemma TrapNeedsTwoReplies(g: Game, column: int)
    requires ValidGame(g) && IsTrap(g, column)
    ensures IsValidMove(g, column) && |ValidColumns(Play(g, column))| >= 2
  {
  }

  /** The inner loop: whether some legal column wins for Player.ONE, stopping at the first. */
  method HasWinningMove(g2: Game) returns (found: bool)
    requires ValidGame(g2)
    ensures found == WinningReply(g2)
  {
    var cs := ValidColumns(g2);
    var i := 0;
    while i < |cs|
      invariant 0 <= i <= |cs|
      invariant forall j :: 0 <= j < i ==> CheckWin(Play(g2, cs[j]).board) != Some(One)
    {
      if CheckWin(Play(g2, cs[i]).board) == Some(One) {
        return true;
      }
      i := i + 1;
    }
    assert forall c :: c in cs ==> CheckWin(Play(g2, c).board) != Some(One);
    return false;
  }

  /** The outer loop of _creates_trap: the replies after which Player.ONE can win, counted. */
  method CountWinningPaths(g1: Game, replies: seq<int>) returns (paths: nat)
    requires ValidGame(g1) && AllLegal(g1, replies)
    ensures paths == WinningPaths(g1, replies)
  {
    paths := 0;
    var i := 0;
    while i < |replies|
      invariant 0 <= i <= |replies|
      invariant WinningPaths(g1, replies) == paths + WinningPaths(g1, replies[i..])
    {
      assert replies[i..][1..] == replies[i + 1..];
      var g2 := AfterReply(g1, replies[i]);
      var found := HasWinningMove(g2);
      assert WinningPaths(g1, replies[i..]) == (if found then 1 else 0) + WinningPaths(g1, replies[i + 1..]);
      if found {
        paths := paths + 1;
      }
      i := i + 1;
    }
  }

  /** _creates_trap */
  method CreatesTrap(g: Game, column: int) returns (trap: bool)
    requires ValidGame(g)
    ensures trap == IsTrap(g, column)
  {
    if !IsValidMove(g, column) {
      return false;
    }
    var g1 := Play(g, column);
    var replies := ValidColumns(g1);
    ValidColumnsLegal(g1);
    var paths := CountWinningPaths(g1, replies);
    trap := paths >= 2;
  }

  // ---------------------------------------------------------------------
  // Prompt helpers
  // ---------------------------------------------------------------------

  /** The theme generate_prompt uses: its own when it has templates, fantasy otherwise. */
  function PromptTheme(theme: string): (t: string)
    ensures t == "fantasy" || t == "scifi"
    ensures (theme == "fantasy" || theme == "scifi") <==> t == theme
  {
    if theme == "fantasy" || theme == "scifi" then theme else "fantasy"
  }

  /** _player_factions */
  function PlayerFactions(theme: string): (f: (string, string))
    ensures f.0 != f.1
  {
    if theme == "fantasy" then ("Crystal Kingdom", "Shadow Empire")
    else if theme == "scifi" then ("Quantum Alliance", "Neural Collective")
    else ("Player 1", "Player 2")
  }

  /** _get_faction_name */
  function FactionName(current: Player, theme: string): string
  {
    if current == One then PlayerFactions(theme).0 else PlayerFactions(theme).1
  }

  /** _get_opponent_faction_name */
  function OpponentFactionName(current: Player, theme: string): string
  {
    if current == One then PlayerFactions(theme).1 else PlayerFactions(theme).0
  }

  /** The two names are the two factions, swapped with the player to move. */
  lemma FactionsSwap(theme: string, p: Player)
    ensures FactionName(p, theme) != OpponentFactionName(p, theme)
    ensures FactionName(One, theme) == OpponentFactionName(Two, theme)
    ensures OpponentFactionName(One, theme) == FactionName(Two, theme)
    ensures {FactionName(p, theme), OpponentFactionName(p, theme)} == {PlayerFactions(theme).0, PlayerFactions(theme).1}
  {
  }

  /** '{' + key + '}' */
  function Placeholder(key: string): (p: string)
    ensures |p| == |key| + 2 && p[0] == '{'
  {
    "{" + key + "}"
  }

  /** One round of the loop: replace the key's placeholder by the value when it occurs. */
  function FillKey(s: string, key: string, value: string): string
  {
    if Contains(s, Placeholder(key)) then ReplaceAll(s, Placeholder(key), value) else s
  }

  /** The template after every (key, value) pair of the context in turn. */
  function Formatted(s: string, context: seq<(string, string)>): string
    decreases |context|
  {
    if context == [] then s else Formatted(FillKey(s, context[0].0, context[0].1), context[1..])
  }

  /** _format_template, with the values already turned into strings. */
  method FormatTemplate(template: string, context: seq<(string, string)>) returns (result: string)
    ensures result == Formatted(template, context)
  {
    result := template;
    var i := 0;
    while i < |context|
      invariant 0 <= i <= |context|
      invariant Formatted(result, context[i..]) == Formatted(template, context)
    {
      var (key, value) := context[i];
      var placeholder := "{" + key + "}";
      assert context[i..][1..] == context[i + 1..];
      if Contains(result, placeholder) {
        result := ReplaceAll(result, placeholder, value);
      }
      i := i + 1;
    }
  }

  /** Text without a brace holds no placeholder. */
  lemma NoBraceNoPlaceholder(s: string, key: string)
    requires '{' !in s
    ensures !Contains(s, Placeholder(key))
  {
    forall i | 0 <= i <= |s| - |Placeholder(key)|
      ensures !OccursAt(s, Placeholder(key), i)
    {
    }
  }

  /** A template without braces comes back unchanged. */
  lemma {:induction false} FormattedPlain(s: string, context: seq<(string, string)>)
    requires '{' !in s
    ensures Formatted(s, context) == s
    decreases |context|
  {
    if context != [] {
      NoBraceNoPlaceholder(s, context[0].0);
      FormattedPlain(s, context[1..]);
    }
  }

  // Templates with any number of placeholders

  /** A key usable inside a placeholder: no brace of either kind. */
  predicate PlainKey(key: string)
  {
    '{' !in key && '}' !in key
  }

  /** What sits between two brace-free pieces of text: brace-free text, or the placeholder of a plain key. */
  predicate SlotOk(f: string)
  {
    '{' !in f || (|f| >= 2 && f == Placeholder(f[1..|f| - 1]) && PlainKey(f[1..|f| - 1]))
  }

  /** pieces[0] + fills[0] + pieces[1] + ... + fills[n - 1] + pieces[n] */
  function Interleave(pieces: seq<string>, fills: seq<string>): string
    requires |pieces| == |fills| + 1
    decreases |fills|
  {
    if fills == [] then pieces[0] else pieces[0] + fills[0] + Interleave(pieces[1..], fills[1..])
  }

  /** One round of the loop on the slots: each slot holding the key's placeholder takes the value. */
  function FillSlots(fills: seq<string>, key: string, value: string): seq<string>
  {
    seq(|fills|, j requires 0 <= j < |fills| => if fills[j] == Placeholder(key) then value else fills[j])
  }

  /** What one slot becomes after the context's pairs in turn. */
  function Resolve(f: string, context: seq<(string, string)>): string
    decreases |context|
  {
    if context == [] then f else Resolve(if f == Placeholder(context[0].0) then context[0].1 else f, context[1..])
  }

  function ResolveAll(fills: seq<string>, context: seq<(string, string)>): seq<string>
  {
    seq(|fills|, j requires 0 <= j < |fills| => Resolve(fills[j], context))
  }

  /** The value of the first pair with the key, as a dict lookup gives it. */
  function Lookup(context: seq<(string, string)>, key: string): Option<string>
    decreases |context|
  {
    if context == [] then None else if context[0].0 == key then Some(context[0].1) else Lookup(context[1..], key)
  }

  /** A placeholder names its key. */
  lemma PlaceholderKey(key: string)
    ensures Placeholder(key)[1..|key| + 1] == key && Placeholder(key)[|key| + 1] == '}'
  {
  }

  /** The placeholders of two different keys, the first without a closing brace and the second plain, never start alike. */
  lemma PlaceholderNotPrefix(key: string, other: string, rest: string)
    requires '}' !in key && PlainKey(other) && key != other
    requires |Placeholder(other) + rest| >= |Placeholder(key)|
    ensures (Placeholder(other) + rest)[..|Placeholder(key)|] != Placeholder(key)
  {
    var t := Placeholder(other) + rest;
    PlaceholderKey(key);
    PlaceholderKey(other);
    if |key| < |other| {
      assert t[|key| + 1] == other[|key|];
    } else if |key| > |other| {
      assert t[|other| + 1] == '}' && Placeholder(key)[|other| + 1] == key[|other|];
    } else {
      assert t[..|Placeholder(key)|] == Placeholder(other);
    }
  }

  /** Replacing a key's placeholder in a slot followed by more text: the slot is filled if it holds that placeholder, and the scan carries on past it. */
  lemma SlotReplace(f: string, rest: string, key: string, value: string)
    requires SlotOk(f) && '}' !in key
    ensures ReplaceAll(f + rest, Placeholder(key), value) == (if f == Placeholder(key) then value else f) + ReplaceAll(rest, Placeholder(key), value)
  {
    var p := Placeholder(key);
    if '{' !in f {
      assert f != p by { assert p[0] == '{'; }
      ReplaceAfterPlain(f, rest, p, value);
    } else if f == p {
      ReplaceAt([], p, rest, value);
      assert [] + p + rest == f + rest;
    } else {
      var other := f[1..|f| - 1];
      assert other != key;
      var t := f + rest;
      if |t| < |p| {
        assert ReplaceAll(t, p, value) == t;
        assert ReplaceAll(rest, p, value) == rest;
      } else {
        PlaceholderNotPrefix(key, other, rest);
        assert t[1..] == (other + "}") + rest;
        ReplaceAfterPlain(other + "}", rest, p, value);
        assert f == [t[0]] + (other + "}");
      }
    }
  }

  /** A brace-free piece passes through, then the slot after it is handled as SlotReplace says. */
  lemma PieceSlotReplace(piece: string, f: string, rest: string, key: string, value: string)
    requires '{' !in piece && SlotOk(f) && '}' !in key
    ensures ReplaceAll(piece + f + rest, Placeholder(key), value) == piece + (if f == Placeholder(key) then value else f) + ReplaceAll(rest, Placeholder(key), value)
  {
    assert piece + f + rest == piece + (f + rest);
    ReplaceAfterPlain(piece, f + rest, Placeholder(key), value);
    SlotReplace(f, rest, key, value);
  }

  /** Replacing a key's placeholder in interleaved text fills exactly the slots holding it. */
  lemma {:induction false} ReplaceInterleave(pieces: seq<string>, fills: seq<string>, key: string, value: string)
    requires |pieces| == |fills| + 1 && (forall i :: 0 <= i < |pieces| ==> '{' !in pieces[i])
    requires (forall j :: 0 <= j < |fills| ==> SlotOk(fills[j])) && '}' !in key
    ensures ReplaceAll(Interleave(pieces, fills), Placeholder(key), value) == Interleave(pieces, FillSlots(fills, key, value))
    decreases |fills|
  {
    var p := Placeholder(key);
    if fills == [] {
      ReplaceAfterPlain(pieces[0], [], p, value);
      assert pieces[0] + [] == pieces[0];
    } else {
      var rest := Interleave(pieces[1..], fills[1..]);
      var filled := FillSlots(fills, key, value);
      assert filled[0] == if fills[0] == p then value else fills[0];
      assert filled[1..] == FillSlots(fills[1..], key, value);
      ReplaceInterleave(pieces[1..], fills[1..], key, value);
      PieceSlotReplace(pieces[0], fills[0], rest, key, value);
    }
  }

  /** One round of the loop is a replace: where the placeholder is absent, replace changes nothing either. */
  lemma FillKeyIsReplace(s: string, key: string, value: string)
    ensures FillKey(s, key, value) == ReplaceAll(s, Placeholder(key), value)
  {
    if !Contains(s, Placeholder(key)) {
      ReplaceAbsent(s, Placeholder(key), value);
    }
  }

  /** _format_template on interleaved text fills each slot as Resolve says, whatever the number of slots. */
  lemma {:induction false} FormattedInterleave(pieces: seq<string>, fills: seq<string>, context: seq<(string, string)>)
    requires |pieces| == |fills| + 1 && (forall i :: 0 <= i < |pieces| ==> '{' !in pieces[i])
    requires forall j :: 0 <= j < |fills| ==> SlotOk(fills[j])
    requires forall i :: 0 <= i < |context| ==> '}' !in context[i].0 && '{' !in context[i].1
    ensures Formatted(Interleave(pieces, fills), context) == Interleave(pieces, ResolveAll(fills, context))
    decreases |context|
  {
    if context == [] {
      assert ResolveAll(fills, context) == fills;
    } else {
      var (key, value) := context[0];
      FillKeyIsReplace(Interleave(pieces, fills), key, value);
      ReplaceInterleave(pieces, fills, key, value);
      var filled := FillSlots(fills, key, value);
      assert forall j :: 0 <= j < |filled| ==> SlotOk(filled[j]);
      FormattedInterleave(pieces, filled, context[1..]);
      assert ResolveAll(filled, context[1..]) == ResolveAll(fills, context);
    }
  }

  /** Brace-free text is no placeholder, so no pair changes it. */
  lemma {:induction false} ResolvePlain(f: string, context: seq<(string, string)>)
    requires '{' !in f
    ensures Resolve(f, context) == f
    decreases |context|
  {
    if context != [] {
      assert f != Placeholder(context[0].0) by { assert Placeholder(context[0].0)[0] == '{'; }
      ResolvePlain(f, context[1..]);
    }
  }

  /** A placeholder takes the value of the first pair with its key, and stays when no pair has it. */
  lemma {:induction false} ResolvePlaceholder(key: string, context: seq<(string, string)>)
    requires forall i :: 0 <= i < |context| ==> '{' !in context[i].1
    ensures Resolve(Placeholder(key), context) == (if Lookup(context, key).Some? then Lookup(context, key).value else Placeholder(key))
    decreases |context|
  {
    if context != [] {
      if context[0].0 == key {
        ResolvePlain(context[0].1, context[1..]);
      } else {
        PlaceholderKey(key);
        PlaceholderKey(context[0].0);
        assert Placeholder(key) != Placeholder(context[0].0);
        ResolvePlaceholder(key, context[1..]);
      }
    }
  }

  /** The placeholders of the keys, in order. */
  function Placeholders(keys: seq<string>): seq<string>
  {
    seq(|keys|, j requires 0 <= j < |keys| => Placeholder(keys[j]))
  }

  /** Each key's value from the context, or its placeholder left as it was for a key the context lacks. */
  function Substituted(keys: seq<string>, context: seq<(string, string)>): seq<string>
  {
    seq(|keys|, j requires 0 <= j < |keys| => if Lookup(context, keys[j]).Some? then Lookup(context, keys[j]).value else Placeholder(keys[j]))
  }

  /**
   * _format_template fills every occurrence of every key the context holds,
   * repeated keys included, leaves the placeholders of other keys and all
   * other text as they were: brace-free text interleaved with placeholders
   * becomes the same text interleaved with the values.
   */
  lemma FormattedFillsEvery(pieces: seq<string>, keys: seq<string>, context: seq<(string, string)>)
    requires |pieces| == |keys| + 1 && (forall i :: 0 <= i < |pieces| ==> '{' !in pieces[i])
    requires forall j :: 0 <= j < |keys| ==> PlainKey(keys[j])
    requires forall i :: 0 <= i < |context| ==> '}' !in context[i].0 && '{' !in context[i].1
    ensures Formatted(Interleave(pieces, Placeholders(keys)), context) == Interleave(pieces, Substituted(keys, context))
  {
    var fills := Placeholders(keys);
    forall j | 0 <= j < |fills|
      ensures SlotOk(fills[j])
    {
      PlaceholderKey(keys[j]);
      assert fills[j][1..|fills[j]| - 1] == keys[j];
    }
    FormattedInterleave(pieces, fills, context);
    forall j | 0 <= j < |keys|
      ensures ResolveAll(fills, context)[j] == Substituted(keys, context)[j]
    {
      ResolvePlaceholder(keys[j], context);
    }
    assert ResolveAll(fills, context) == Substituted(keys, context);
  }

  lemma RepeatedKeyTemplate()
    ensures Interleave(["", "-", "-", ""], Placeholders(["a", "b", "a"])) == "{a}-{b}-{a}"
  {
    var pieces := ["", "-", "-", ""];
    var holes := Placeholders(["a", "b", "a"]);
    assert Placeholder("a") == "{a}" && Placeholder("b") == "{b}";
    assert holes[0] == "{a}" && holes[1] == "{b}" && holes[2] == "{a}";
    assert Interleave(pieces[3..], holes[3..]) == "";
    assert Interleave(pieces[2..], holes[2..]) == "-{a}";
    assert Interleave(pieces[1..], holes[1..]) == "-{b}-{a}";
  }

  lemma RepeatedKeyResult()
    ensures Interleave(["", "-", "-", ""], Substituted(["a", "b", "a"], [("a", "x"), ("b", "y")])) == "x-y-x"
  {
    var pieces := ["", "-", "-", ""];
    var context := [("a", "x"), ("b", "y")];
    var values := Substituted(["a", "b", "a"], context);
    assert Lookup(context, "a") == Some("x") && Lookup(context, "b") == Some("y");
    assert values[0] == "x" && values[1] == "y" && values[2] == "x";
    assert Interleave(pieces[3..], values[3..]) == "";
    assert Interleave(pieces[2..], values[2..]) == "-x";
    assert Interleave(pieces[1..], values[1..]) == "-y-x";
  }

  /** A repeated key next to another key, as in the fantasy templates: every occurrence is filled. */
  lemma FormattedRepeatedKey()
    ensures Formatted("{a}-{b}-{a}", [("a", "x"), ("b", "y")]) == "x-y-x"
  {
    FormattedFillsEvery(["", "-", "-", ""], ["a", "b", "a"], [("a", "x"), ("b", "y")]);
    RepeatedKeyTemplate();
    RepeatedKeyResult();
  }

  /**
   * A template with one placeholder between brace-free text gets exactly
   * that placeholder replaced by its value (itself brace-free), whatever
   * keys follow.
   */
  lemma FormattedFillsOne(a: string, key: string, b: string, value: string, rest: seq<(string, string)>)
    requires '{' !in a && '{' !in b && '{' !in value
    ensures Formatted(a + Placeholder(key) + b, [(key, value)] + rest) == a + value + b
  {
    var p := Placeholder(key);
    var s := a + p + b;
    assert OccursAt(s, p, |a|) by {
      assert s[|a|..|a| + |p|] == p;
    }
    ReplaceOne(a, p, b, value);
    assert FillKey(s, key, value) == a + value + b;
    assert ([(key, value)] + rest)[1..] == rest;
    FormattedPlain(a + value + b, rest);
  }
}
