/**
 * ai/narrators/fallback_narrator.py: the template narrator used when no
 * language model is available. Its theme, faction names and bounded battle
 * history are fields updated in place; the phase and name choice are pure.
 * The template random.choice draws is given as an index.
 */
module FallbackNarration {
  import opened Wrappers
  import opened Text

  /** The themes set_theme accepts. */
  predicate Supported(theme: string)
  {
    theme == "fantasy" || theme == "sci-fi" || theme == "western"
  }

  /** set_theme's normalisation: an unsupported theme becomes fantasy. */
  function NormalTheme(theme: string): (t: string)
    ensures Supported(t)
    ensures Supported(theme) <==> t == theme
    ensures !Supported(theme) ==> t == "fantasy"
  {
    if Supported(theme) then theme else "fantasy"
  }

  /** Normalising twice changes nothing more. */
  lemma NormalThemeIdempotent(theme: string)
    ensures NormalTheme(NormalTheme(theme)) == NormalTheme(theme)
  {
  }

  /** _set_default_faction_names: (player faction, computer faction). */
  function FactionNames(theme: string): (r: (string, string))
    ensures !Supported(theme) <==> r == ("Team Alpha", "Team Omega")
    ensures r.0 != r.1
  {
    if theme == "fantasy" then ("Crystal Lords", "Shadow Keepers")
    else if theme == "sci-fi" then ("Quantum Collective", "Void Syndicate")
    else if theme == "western" then ("Desperados", "Lawmen")
    else ("Team Alpha", "Team Omega")
  }

  /** The phase generate_narrative infers from the length of the battle history. */
  function PhaseFor(historyLength: nat): (p: string)
    ensures p == "opening" <==> historyLength < 6
    ensures p == "midgame" <==> 6 <= historyLength < 20
    ensures p == "endgame" <==> historyLength >= 20
  {
    if historyLength < 6 then "opening" else if historyLength < 20 then "midgame" else "endgame"
  }

  function PhaseRank(p: string): nat
  {
    if p == "opening" then 0 else if p == "midgame" then 1 else 2
  }

  /** As the history grows the inferred phase never goes back. */
  lemma PhaseMonotone(n: nat, m: nat)
    requires n <= m
    ensures PhaseRank(PhaseFor(n)) <= PhaseRank(PhaseFor(m))
  {
  }

  /** A template: text with one {player} slot between two parts, or plain text. */
  datatype Template = Slot(before: string, after: string) | Plain(text: string)

  predicate KnownPhase(phase: string)
  {
    phase == "opening" || phase == "midgame" || phase == "endgame"
  }

  /** The two (before, after) pairs of each phase and supported theme in the templates table. */
  function SlotTable(phase: string, theme: string): (ps: seq<(string, string)>)
    requires KnownPhase(phase) && Supported(theme)
    ensures |ps| == 2
  {
    if phase == "opening" then
      if theme == "fantasy" then
        [("The ", " makes a bold opening move."),
         ("The ancient contest begins as ", " places their first piece.")]
      else if theme == "sci-fi" then
        [("The ", " initializes their strategy protocol."),
         ("First quantum piece deployed by the ", ".")]
      else
        [("The ", " draws first in this frontier showdown."),
         ("This dusty battleground sees its first move from ", ".")]
    else if phase == "midgame" then
      if theme == "fantasy" then
        [("The ", " continues their mystical strategy."),
         ("A tactical maneuver from the ", " shifts the magical balance.")]
      else if theme == "sci-fi" then
        [("The ", " executes subroutine alpha-seven."),
         ("Tactical algorithms guide the ", "'s decisive move.")]
      else
        [("The ", " ain't backing down in this saloon standoff."),
         ("A strategic play from ", " as the tension rises.")]
    else
      if theme == "fantasy" then
        [("The final enchantments are cast as ", " nears victory."),
         ("The mystical conflict reaches its climax with ", "'s move.")]
      else if theme == "sci-fi" then
        [("Endgame protocols activated by the ", "."),
         ("The ", " calculates final victory parameters.")]
      else
        [("The showdown intensifies as ", " makes their final stand."),
         ("High noon approaches as ", " prepares for the final shot.")]
  }

  /** The templates of a phase and theme; anything the table lacks gets the plain fallback. */
  function Templates(phase: string, theme: string): (ts: seq<Template>)
    ensures |ts| >= 1
    ensures !(Supported(theme) && KnownPhase(phase)) <==> ts == [Plain("The game continues...")]
    ensures Supported(theme) && KnownPhase(phase) ==> forall t :: t in ts ==> t.Slot?
  {
    if Supported(theme) && KnownPhase(phase) then
      var ps := SlotTable(phase, theme);
      [Slot(ps[0].0, ps[0].1), Slot(ps[1].0, ps[1].1)]
    else [Plain("The game continues...")]
  }

  /** The name a player number stands for: 1 the player's faction, 2 the computer's. */
  function PlayerName(player: Option<int>, factions: (string, string)): (name: string)
    ensures player == Some(1) ==> name == factions.0
    ensures player == Some(2) ==> name == factions.1
    ensures player != Some(1) && player != Some(2) ==> name == "Unknown player"
  {
    match player
    case Some(p) => if p == 1 then factions.0 else if p == 2 then factions.1 else "Unknown player"
    case None => "Unknown player"
  }

  /** template.format(player=name): the name goes into the slot. */
  function Fill(t: Template, name: string): string
  {
    match t
    case Slot(before, after) => before + name + after
    case Plain(text) => text
  }

  /** The narrative generate_narrative produces, with the template index drawn given as pick. */
  function Narrate(theme: string, factions: (string, string), historyLength: nat,
                   player: Option<int>, phase: Option<string>, pick: nat): (r: string)
  {
    var p := if phase.Some? then phase.value else PhaseFor(historyLength);
    var ts := Templates(p, theme);
    Fill(ts[pick % |ts|], PlayerName(player, factions))
  }

  /**
   * For a supported theme and a known (or inferred) phase the narrative
   * names the player, right after the text before the slot of one of the
   * phase's templates; otherwise it is the plain fallback.
   */
  lemma NarrateNamesPlayer(theme: string, factions: (string, string), historyLength: nat,
                           player: Option<int>, phase: Option<string>, pick: nat)
    ensures var p := if phase.Some? then phase.value else PhaseFor(historyLength);
      var r := Narrate(theme, factions, historyLength, player, phase, pick);
      if Supported(theme) && KnownPhase(p) then
        exists t :: t in Templates(p, theme) && t.Slot? && OccursAt(r, PlayerName(player, factions), |t.before|)
      else r == "The game continues..."
  {
    var p := if phase.Some? then phase.value else PhaseFor(historyLength);
    var ts := Templates(p, theme);
    var t := ts[pick % |ts|];
    var name := PlayerName(player, factions);
    assert t in ts;
    if t.Slot? {
      var r := t.before + name + t.after;
      assert r[|t.before|..|t.before| + |name|] == name;
    }
  }

  /** history[-n:] when the history is longer than n. */
  function KeepLast(h: seq<string>, n: nat): (r: seq<string>)
    ensures |r| == if |h| <= n then |h| else n
    ensures r == h[|h| - |r|..]
  {
    if |h| > n then h[|h| - n..] else h
  }

  /** Trimming before or after appending gives the same history: it is always the newest entries. */
  lemma KeepLastAppend(h: seq<string>, x: string, n: nat)
    requires n >= 1
    ensures KeepLast(KeepLast(h, n) + [x], n) == KeepLast(h + [x], n)
  {
    var k := KeepLast(h, n);
    if |h| > n {
      assert (k + [x])[|k + [x]| - n..] == (h + [x])[|h + [x]| - n..];
    }
  }

  /** The most history entries kept. */
  const HistoryLimit: nat := 30

  class FallbackNarrator {
    var currentTheme: string
    var playerFaction: string
    var computerFaction: string
    var battleHistory: seq<string>
    var lastNarrative: string

    predicate Valid()
      reads this
    {
      |battleHistory| <= HistoryLimit && (playerFaction, computerFaction) == FactionNames(currentTheme)
    }

    /** The constructor keeps the theme as given; only set_theme normalises it. */
    constructor(theme: string)
      ensures Valid()
      ensures currentTheme == theme && battleHistory == [] && lastNarrative == ""
    {
      currentTheme := theme;
      var names := FactionNames(theme);
      playerFaction, computerFaction := names.0, names.1;
      battleHistory := [];
      lastNarrative := "";
    }

    /** set_theme */
    method SetTheme(theme: string)
      requires Valid()
      modifies this
      ensures Valid()
      ensures currentTheme == NormalTheme(theme)
      ensures battleHistory == old(battleHistory) && lastNarrative == old(lastNarrative)
    {
      var t := theme;
      if !Supported(t) {
        t := "fantasy";
      }
      currentTheme := t;
      var names := FactionNames(t);
      playerFaction, computerFaction := names.0, names.1;
    }

    /** add_to_history */
    method AddToHistory(narrative: string)
      requires Valid()
      modifies this
      ensures Valid()
      ensures battleHistory == KeepLast(old(battleHistory) + [narrative], HistoryLimit)
      ensures currentTheme == old(currentTheme) && lastNarrative == old(lastNarrative)
      ensures playerFaction == old(playerFaction) && computerFaction == old(computerFaction)
    {
      battleHistory := battleHistory + [narrative];
      if |battleHistory| > HistoryLimit {
        battleHistory := battleHistory[|battleHistory| - HistoryLimit..];
      }
    }

    /** generate_narrative */
    method GenerateNarrative(player: Option<int>, phase: Option<string>, pick: nat) returns (narrative: string)
      requires Valid()
      modifies this
      ensures Valid()
      ensures narrative == Narrate(currentTheme, (playerFaction, computerFaction), |old(battleHistory)|, player, phase, pick)
      ensures battleHistory == KeepLast(old(battleHistory) + [narrative], HistoryLimit)
      ensures lastNarrative == narrative
      ensures currentTheme == old(currentTheme)
    {
      var p: string;
      if phase.None? {
        if |battleHistory| < 6 {
          p := "opening";
        } else if |battleHistory| < 20 {
          p := "midgame";
        } else {
          p := "endgame";
        }
      } else {
        p := phase.value;
      }
      var ts := Templates(p, currentTheme);
      var template := ts[pick % |ts|];
      var name := "Unknown player";
      if player == Some(1) {
        name := playerFaction;
      } else if player == Some(2) {
        name := computerFaction;
      }
      narrative := Fill(template, name);
      AddToHistory(narrative);
      lastNarrative := narrative;
    }

    /** cleanup_resources */
    method CleanupResources()
      requires Valid()
      modifies this
      ensures Valid()
      ensures battleHistory == []
      ensures currentTheme == old(currentTheme) && lastNarrative == old(lastNarrative)
    {
      battleHistory := [];
    }
  }
}
