/**
 * The helpers of ai/utils/text_generation.py: the prompt truncation at a
 * sentence boundary, the early exit of generate_with_timeout, and the pick
 * of a themed canned response. The generation call, its thread and its
 * clock are not modelled: their outcome is a parameter, and so is the index
 * random.choice draws.
 */
module TextGeneration {
  import opened Text

  /** The sentence endings truncate_prompt tries, in this order. */
  const Endings: seq<string> := [". ", ".\n", "! ", "?\n"]

  /** prompt[:k] with Python's slice rules: a negative k counts from the end. */
  function PyPrefix(s: string, k: int): (r: string)
    ensures |r| <= |s| && r == s[..|r|]
    ensures 0 <= k ==> |r| == if k < |s| then k else |s|
  {
    if k >= 0 then (if k < |s| then s[..k] else s)
    else if |s| + k > 0 then s[..|s| + k]
    else []
  }

  /** The boundary is kept only beyond 70 percent of the limit. */
  predicate FarEnough(i: int, limit: int)
  {
    i as real > limit as real * 0.7
  }

  /** The loop over the endings: the first one whose last occurrence is far enough cuts just after its punctuation. */
  function CutAtEnding(t: string, limit: int, es: seq<string>): (r: string)
    requires forall k :: 0 <= k < |es| ==> |es[k]| >= 1
    ensures |r| <= |t| && r == t[..|r|]
    decreases |es|
  {
    if es == [] then t
    else
      var i := RFind(t, es[0]);
      if FarEnough(i, limit) then t[..i + 1] else CutAtEnding(t, limit, es[1..])
  }

  /** truncate_prompt(prompt, max_tokens) */
  function TruncatePrompt(prompt: string, maxTokens: int): (r: string)
    ensures |r| <= |prompt| && r == prompt[..|r|]
    ensures |prompt| <= 4 * maxTokens ==> r == prompt
    ensures 0 <= maxTokens ==> |r| <= 4 * maxTokens
  {
    var limit := 4 * maxTokens;
    if |prompt| <= limit then prompt
    else
      var t := PyPrefix(prompt, limit);
      var r := CutAtEnding(t, limit, Endings);
      assert r == prompt[..|r|] by {
        assert t == prompt[..|t|];
      }
      r
  }

  /**
   * Either the cut keeps the whole first 4 * max_tokens characters, or it
   * ends on the punctuation of a sentence ending found beyond 70 percent of
   * that limit, and every ending tried before it had no occurrence that far.
   */
  lemma {:induction false} CutAtEndingSpec(t: string, limit: int, es: seq<string>)
    requires 0 <= limit && forall k :: 0 <= k < |es| ==> |es[k]| >= 1
    ensures var r := CutAtEnding(t, limit, es);
      r == t ||
      exists k :: 0 <= k < |es| && FarEnough(RFind(t, es[k]), limit) && r == t[..RFind(t, es[k]) + 1] &&
        OccursAt(t, es[k], RFind(t, es[k])) && r[|r| - 1] == es[k][0] &&
        forall j :: 0 <= j < k ==> !FarEnough(RFind(t, es[j]), limit)
    decreases |es|
  {
    if es != [] {
      var i := RFind(t, es[0]);
      if FarEnough(i, limit) {
        assert i >= 0;
        assert t[i..i + |es[0]|][0] == es[0][0];
      } else {
        CutAtEndingSpec(t, limit, es[1..]);
        var r := CutAtEnding(t, limit, es);
        if r != t {
          var k :| 0 <= k < |es[1..]| && FarEnough(RFind(t, es[1..][k]), limit) && r == t[..RFind(t, es[1..][k]) + 1] &&
            OccursAt(t, es[1..][k], RFind(t, es[1..][k])) && r[|r| - 1] == es[1..][k][0] &&
            forall j :: 0 <= j < k ==> !FarEnough(RFind(t, es[1..][j]), limit);
          assert es[k + 1] == es[1..][k];
          assert forall j :: 0 <= j < k + 1 ==> !FarEnough(RFind(t, es[j]), limit) by {
            forall j | 0 <= j < k + 1
              ensures !FarEnough(RFind(t, es[j]), limit)
            {
              if j > 0 {
                assert es[j] == es[1..][j - 1];
              }
            }
          }
        }
      }
    }
  }

  /** A cut short of the whole text ends on the first character of one of the endings, past 70 percent of the limit. */
  lemma {:induction false} CutEndsOnEnding(t: string, limit: int, es: seq<string>)
    requires 0 <= limit && forall k :: 0 <= k < |es| ==> |es[k]| >= 1
    ensures var r := CutAtEnding(t, limit, es);
      r == t || (r != [] && FarEnough(|r| - 1, limit) && exists k :: 0 <= k < |es| && r[|r| - 1] == es[k][0])
    decreases |es|
  {
    if es != [] {
      var i := RFind(t, es[0]);
      if FarEnough(i, limit) {
        assert t[i..i + |es[0]|][0] == es[0][0];
        assert t[..i + 1][i] == es[0][0];
      } else {
        CutEndsOnEnding(t, limit, es[1..]);
        var r := CutAtEnding(t, limit, es);
        if r != t {
          var k :| 0 <= k < |es[1..]| && r[|r| - 1] == es[1..][k][0];
          assert r[|r| - 1] == es[k + 1][0];
        }
      }
    }
  }

  /** A truncated prompt cut short of the limit ends on '.', '!' or '?', past 70 percent of the limit. */
  lemma TruncateKeepsPunctuation(prompt: string, maxTokens: int)
    requires 0 <= maxTokens && |prompt| > 4 * maxTokens
    ensures var r := TruncatePrompt(prompt, maxTokens);
      r == prompt[..4 * maxTokens] ||
      (r != [] && FarEnough(|r| - 1, 4 * maxTokens) && (r[|r| - 1] == '.' || r[|r| - 1] == '!' || r[|r| - 1] == '?'))
  {
    var limit := 4 * maxTokens;
    var t := PyPrefix(prompt, limit);
    assert t == prompt[..limit];
    EndingsPunctuation();
    CutEndsOnEnding(t, limit, Endings);
  }

  /** Every ending starts with '.', '!' or '?'. */
  lemma EndingsPunctuation()
    ensures forall k :: 0 <= k < |Endings| ==> |Endings[k]| >= 1
    ensures forall k :: 0 <= k < |Endings| ==> Endings[k][0] == '.' || Endings[k][0] == '!' || Endings[k][0] == '?'
  {
  }

  /** What the generation thread came back with. */
  datatype Outcome = Finished(text: string) | TimedOut | Failed

  const Placeholder: string := "The strategic battle continues with tactical maneuvers."
  const TimeoutText: string := "The battle intensifies as both sides maneuver for position."
  const ErrorText: string := "The strategic contest continues with careful positioning."

  /** generate_with_timeout, with the thread's outcome given. */
  function GenerateWithTimeout(timeout: int, outcome: Outcome): (r: string)
    ensures timeout < 2 ==> r == Placeholder
    ensures timeout >= 2 && outcome.Finished? ==> r == outcome.text
    ensures timeout >= 2 && outcome.TimedOut? ==> r == TimeoutText
    ensures timeout >= 2 && outcome.Failed? ==> r == ErrorText
  {
    if timeout < 2 then Placeholder
    else match outcome
      case Finished(text) => text
      case TimedOut => TimeoutText
      case Failed => ErrorText
  }

  /** Below two seconds nothing is generated: the answer does not depend on what generation would give. */
  lemma EarlyExitIgnoresGeneration(timeout: int, o: Outcome, o': Outcome)
    requires timeout < 2
    ensures GenerateWithTimeout(timeout, o) == GenerateWithTimeout(timeout, o')
  {
  }

  const FantasyResponses: seq<string> := [
    "The mystical energies swirl as the battle unfolds on the sacred grid.",
    "Ancient runes glow with arcane power as the strategic duel continues.",
    "The ethereal forces of light and shadow continue their eternal contest.",
    "Crystal shards resonate with magical energy as the tactical placement is made.",
    "The wizards channel elemental forces to guide their strategic formations.",
    "Arcane symbols illuminate the battlefield as the mystical duel progresses.",
    "The eldritch power shifts as the magical tokens align in new patterns.",
    "Enchanted pieces move across the mystical grid, seeking harmony and balance.",
    "The prophesied battle continues, with ancient powers seeking dominance.",
    "Spectral energies flow through the crystal matrix as the duel intensifies."]

  const ScifiResponses: seq<string> := [
    "Quantum algorithms calculate optimal move trajectories in the probability matrix.",
    "The holographic interface updates as strategic subroutines execute.",
    "Temporal fluctuations indicate a shift in tactical advantage.",
    "The neural network adapts to emerging patterns in the strategic grid.",
    "Subspace communications relay tactical data between command nodes.",
    "Energy signatures indicate intense computational activity in the matrix core.",
    "Predictive models simulate potential future board states with precision.",
    "Reality distortion fields stabilize as the next move is processed.",
    "The strategic AI compiles vast datasets to determine optimal positioning.",
    "Dimensional analysis reveals hidden patterns in the quantum game field."]

  const WesternResponses: seq<string> := [
    "Dust settles as the strategic standoff continues in the frontier town.",
    "The sun beats down on the tactical showdown between the rival factions.",
    "Tumbleweed rolls across the boardwalk as the next move is considered.",
    "Spurs jingle as the gunslingers circle the strategic battlefield.",
    "The saloon falls silent as the tactical maneuver unfolds.",
    "A hawk circles overhead, watching the dusty confrontation below.",
    "The sheriff and outlaws continue their calculated game of wits.",
    "The clock in the town square ticks as the strategic duel progresses.",
    "A gentle breeze stirs the dust as the pieces shift in the frontier battle.",
    "The tactical shootout continues as both sides seek the upper hand."]

  const GenericResponses: seq<string> := [
    "The strategic battle continues with careful positioning.",
    "Both sides analyze the board, seeking optimal positioning.",
    "The tactical contest unfolds with measured, deliberate moves.",
    "The game progresses as both players evaluate their options.",
    "Strategic calculations guide the next move in this tense contest.",
    "The battle of wits continues as the next piece falls into place.",
    "Careful planning and strategic thinking shape the ongoing match.",
    "The board state evolves, reflecting the strategic minds at work.",
    "Tactical considerations drive the progression of this strategic duel.",
    "The next move brings new strategic possibilities to the forefront."]

  /** The list select_themed_response draws from: by the lower-cased theme, the generic list otherwise. */
  function ResponsesFor(theme: string): (rs: seq<string>)
    ensures |rs| == 10
  {
    var t := Lower(theme);
    if t == "fantasy" then FantasyResponses
    else if t == "sci-fi" || t == "scifi" then ScifiResponses
    else if t == "western" then WesternResponses
    else GenericResponses
  }

  /** select_themed_response, with the index random.choice draws given as pick. */
  function SelectThemedResponse(theme: string, pick: int): (r: string)
    requires 0 <= pick < 10
    ensures r in ResponsesFor(theme)
  {
    ResponsesFor(theme)[pick]
  }

  /** The theme's case does not matter, and "sci-fi" and "scifi" name the same list. */
  lemma ThemeIgnoresCase(theme: string, pick: int)
    requires 0 <= pick < 10
    ensures SelectThemedResponse(theme, pick) == SelectThemedResponse(Lower(theme), pick)
    ensures SelectThemedResponse("Sci-Fi", pick) == SelectThemedResponse("scifi", pick)
  {
    LowerIdempotent(theme);
    assert Lower("Sci-Fi") == "sci-fi";
    assert Lower("scifi") == "scifi";
  }
}
