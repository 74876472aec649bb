/**
 * The deterministic parts of demo/ai/model_loader.py: the canned-response
 * models (SimpleModel, EnhancedSimpleModel), the prompt-keyed response cache
 * of UnifiedModelLoader with its eviction, and the board helpers of
 * LocalLLMNarrator (centre and edge columns, the run counter behind
 * _check_winning_opportunity, and the probe-and-restore of
 * _check_blocking_move). The language models themselves are not modelled.
 */
module ModelLoader {
  import opened Text

  // ---------------------------------------------------------------------
  // SimpleModel and EnhancedSimpleModel
  // ---------------------------------------------------------------------

  const FantasyBase: seq<string> := [
    "The Crystal Lords place their rune stone carefully on the grid.",
    "Shadow Keepers strike back with a powerful dark crystal!",
    "The magical grid glimmers as the next piece falls into place.",
    "A strategic move threatens to disrupt the mystical balance.",
    "Arcane energies swirl as the crystal aligns with others."]

  const ScifiBase: seq<string> := [
    "The Quantum Collective deploys a probability matrix node.",
    "Void Syndicate counters with an antimatter projection!",
    "Subspace fluctuations indicate a potential winning strategy.",
    "Dimensional calculations suggest this move has a 87.3% success rate.",
    "The temporal field shifts as the pieces align in sequence."]

  const WesternBase: seq<string> := [
    "The Desperados stake their claim with determination.",
    "The Lawmen counter with a strategic move.",
    "Dust settles as the next piece drops into the frontier.",
    "A tumbleweed rolls by as tension builds in this standoff.",
    "The saloon goes quiet as the next move is calculated."]

  /** Used for every theme the table does not know, by both models. */
  const DefaultResponses: seq<string> := [
    "A strategic move is made.",
    "The battle continues as the next piece falls.",
    "The game intensifies with this calculated placement.",
    "A tactical decision shapes the board state.",
    "The balance of power shifts with this move."]

  const FantasyMore: seq<string> := [
    "Mystical energies converge as the Crystal Lords make their move.",
    "The Shadow Keepers cast a dark enchantment on the board.",
    "Ancient runes glow ominously as the pieces align.",
    "A whispering prophecy guides the next strategic placement.",
    "The ethereal board shifts and adapts to the new configuration."]

  const ScifiMore: seq<string> := [
    "Quantum probability waves collapse into a new configuration.",
    "The Void Syndicate deploys a strategic algorithm to counter.",
    "Holographic projections calculate optimal trajectories.",
    "Subspace anomalies detected as pieces form a pattern.",
    "The AI core suggests this move has tactical advantages."]

  const WesternMore: seq<string> := [
    "Under the desert sun, a calculated move changes the game.",
    "The sheriff narrows his eyes as the outlaw makes a bold play.",
    "Gold dust glimmers as a token falls into a strategic position.",
    "The frontier town holds its breath as the standoff continues.",
    "A strategic play worthy of the wildest tales of the West."]

  /** The keys of the response table. */
  predicate KnownTheme(t: string)
  {
    t == "fantasy" || t == "sci-fi" || t == "western"
  }

  /**
   * The list a model draws from for an already lower-cased theme; the
   * enhanced model extends each themed list (not the default one) by five.
   */
  function ResponseList(t: string, enhanced: bool): (rs: seq<string>)
    ensures |rs| == if enhanced && KnownTheme(t) then 10 else 5
    ensures !KnownTheme(t) ==> rs == DefaultResponses
  {
    if t == "fantasy" then (if enhanced then FantasyBase + FantasyMore else FantasyBase)
    else if t == "sci-fi" then (if enhanced then ScifiBase + ScifiMore else ScifiBase)
    else if t == "western" then (if enhanced then WesternBase + WesternMore else WesternBase)
    else DefaultResponses
  }

  /** sum(ord(c) for c in prompt) */
  function CharSum(s: string): nat
  {
    if s == [] then 0 else CharSum(s[..|s| - 1]) + s[|s| - 1] as nat
  }

  /** SimpleModel.generate (enhanced = false) and the base response of EnhancedSimpleModel.generate. */
  function BaseGenerate(prompt: string, theme: string, enhanced: bool): (r: string)
    ensures r in ResponseList(Lower(theme), enhanced)
  {
    Pick(ResponseList(Lower(theme), enhanced), CharSum(prompt))
  }

  /** An empty prompt hashes to 0 and gets the first response of the list. */
  lemma EmptyPromptFirst(theme: string, enhanced: bool)
    ensures BaseGenerate([], theme, enhanced) == ResponseList(Lower(theme), enhanced)[0]
  {
  }

  /** The entry a hash selects: its value modulo the list length. */
  function Pick(rs: seq<string>, hash: nat): (r: string)
    requires |rs| > 0
    ensures r in rs && r == rs[hash % |rs|]
  {
    rs[hash % |rs|]
  }

  /** An unknown theme falls back to the default list, identically in both models. */
  lemma UnknownThemeFallsBack(prompt: string, theme: string)
    requires !KnownTheme(Lower(theme))
    ensures BaseGenerate(prompt, theme, false) in DefaultResponses
    ensures BaseGenerate(prompt, theme, true) == BaseGenerate(prompt, theme, false)
  {
  }

  /** The theme is looked up lower-cased. */
  lemma GenerateIgnoresCase(prompt: string, theme: string, enhanced: bool)
    ensures BaseGenerate(prompt, theme, enhanced) == BaseGenerate(prompt, Lower(theme), enhanced)
  {
    LowerIdempotent(theme);
  }

  const ThreatSuffix: string := " Danger looms on the horizon."
  const AdvantageSuffix: string := " Victory seems within reach."
  const OpeningSuffix: string := " The battle has just begun."

  /** The situation keyword of the lower-cased prompt, with precedence threat, winning, opening. */
  function SituationSuffix(prompt: string): (r: string)
    ensures Contains(Lower(prompt), "threat") <==> r == ThreatSuffix
    ensures (!Contains(Lower(prompt), "threat") && Contains(Lower(prompt), "winning")) <==> r == AdvantageSuffix
    ensures (!Contains(Lower(prompt), "threat") && !Contains(Lower(prompt), "winning") && Contains(Lower(prompt), "opening"))
      <==> r == OpeningSuffix
    ensures r == [] <==> !Contains(Lower(prompt), "threat") && !Contains(Lower(prompt), "winning") && !Contains(Lower(prompt), "opening")
  {
    var p := Lower(prompt);
    if Contains(p, "threat") then ThreatSuffix
    else if Contains(p, "winning") then AdvantageSuffix
    else if Contains(p, "opening") then OpeningSuffix
    else []
  }

  /** EnhancedSimpleModel.generate: a response of the extended list followed by the situation suffix. */
  function EnhancedGenerate(prompt: string, theme: string): (r: string)
    ensures |r| >= |SituationSuffix(prompt)|
    ensures r[..|r| - |SituationSuffix(prompt)|] in ResponseList(Lower(theme), true)
    ensures r[|r| - |SituationSuffix(prompt)|..] == SituationSuffix(prompt)
  {
    var base := BaseGenerate(prompt, theme, true);
    var r := base + SituationSuffix(prompt);
    assert r[..|base|] == base;
    r
  }

  /** A prompt mentioning a threat always ends in the danger suffix, whatever else it mentions. */
  lemma ThreatTakesPrecedence(prompt: string, theme: string)
    requires Contains(Lower(prompt), "threat")
    ensures var r := EnhancedGenerate(prompt, theme);
      |r| >= |ThreatSuffix| && r[|r| - |ThreatSuffix|..] == ThreatSuffix
  {
  }

  // ---------------------------------------------------------------------
  // UnifiedModelLoader's response cache
  // ---------------------------------------------------------------------

  /** The source's max_cache_size. */
  const MaxCacheSize: nat := 100

  function Min(a: int, b: int): int { if a <= b then a else b }

  /** The history entries _manage_cache looks at: the first n, or all of them when n passes the end. */
  function Oldest(h: seq<string>, n: nat): (p: seq<string>)
    ensures |p| == Min(n, |h|) && p == h[..|p|]
  {
    h[..Min(n, |h|)]
  }

  /** cache_history[overflow:] */
  function Drop(h: seq<string>, n: nat): (r: seq<string>)
    ensures |r| == if n <= |h| then |h| - n else 0
    ensures forall i :: 0 <= i < |r| ==> r[i] == h[i + n]
  {
    if n <= |h| then h[n..] else []
  }

  /** The cache's state: the prompt-to-response map and the insertion history. */
  datatype CacheState = CacheState(cache: map<string, string>, history: seq<string>)

  /** What _manage_cache leaves behind: once the cache exceeds max, the oldest overflow keys go. */
  function Evict(s: CacheState, max: nat): (r: CacheState)
    ensures |s.cache| <= max ==> r == s
    ensures forall k :: k in r.cache ==> k in s.cache && r.cache[k] == s.cache[k]
    ensures |s.cache| > max ==> forall k :: k in s.cache ==>
      (k in r.cache <==> k !in Oldest(s.history, |s.cache| - max))
  {
    if |s.cache| <= max then s
    else
      var overflow := |s.cache| - max;
      var gone := Oldest(s.history, overflow);
      CacheState(map k | k in s.cache && k !in gone :: s.cache[k], Drop(s.history, overflow))
  }

  /** A map holding exactly the entries of c0 whose keys are not gone is c0 restricted that way. */
  lemma KeptEntries(c0: map<string, string>, c: map<string, string>, gone: seq<string>)
    requires forall k :: k in c <==> k in c0 && k !in gone
    requires forall k :: k in c ==> c[k] == c0[k]
    ensures c == map k | k in c0 && k !in gone :: c0[k]
  {
  }

  predicate Distinct(h: seq<string>)
  {
    forall i, j :: 0 <= i < j < |h| ==> h[i] != h[j]
  }

  /** The history lists each cached key exactly once, oldest first. */
  ghost predicate Synced(s: CacheState)
  {
    Distinct(s.history) && forall k :: k in s.cache <==> k in s.history
  }

  lemma {:induction false} DistinctCard(h: seq<string>)
    requires Distinct(h)
    ensures |set k | k in h| == |h|
    decreases |h|
  {
    if h != [] {
      var t := h[1..];
      assert Distinct(t);
      DistinctCard(t);
      assert (set k | k in h) == {h[0]} + (set k | k in t);
      assert h[0] !in t;
    }
  }

  lemma SyncedSize(s: CacheState)
    requires Synced(s)
    ensures |s.cache| == |s.history|
  {
    DistinctCard(s.history);
    assert s.cache.Keys == set k | k in s.history;
  }

  /** In a history without repeats, the entries after the first o are those not among the first o. */
  lemma SplitHistory(h: seq<string>, o: nat)
    requires Distinct(h) && o <= |h|
    ensures forall k :: k in h[o..] <==> k in h && k !in h[..o]
  {
    forall k
      ensures k in h[o..] <==> k in h && k !in h[..o]
    {
      if k in h[o..] {
        var j :| 0 <= j < |h[o..]| && h[o..][j] == k;
        assert h[j + o] == k;
      }
      if k in h && k !in h[..o] {
        var j :| 0 <= j < |h| && h[j] == k;
        assert j >= o;
        assert h[o..][j - o] == k;
      }
    }
  }

  /** After an eviction the cache keys are exactly the history entries left. */
  lemma EvictKeys(s: CacheState, max: nat)
    requires Synced(s) && |s.cache| > max
    ensures var r := Evict(s, max); forall k :: k in r.cache <==> k in r.history
  {
    SyncedSize(s);
    var o := |s.cache| - max;
    var r := Evict(s, max);
    assert Oldest(s.history, o) == s.history[..o];
    assert r.history == s.history[o..];
    SplitHistory(s.history, o);
    forall k
      ensures k in r.cache <==> k in r.history
    {
      if k in r.cache {
        assert k in s.cache && k !in s.history[..o];
      }
      if k in r.history {
        assert k in s.cache && k !in s.history[..o];
      }
    }
  }

  /**
   * Eviction keeps the cache synchronised with its history and brings it
   * down to max entries: the survivors are the newest ones.
   */
  lemma EvictSynced(s: CacheState, max: nat)
    requires Synced(s)
    ensures Synced(Evict(s, max))
    ensures |Evict(s, max).cache| == Min(|s.cache|, max)
  {
    if |s.cache| > max {
      SyncedSize(s);
      var o := |s.cache| - max;
      var r := Evict(s, max);
      assert r.history == s.history[o..];
      DistinctSuffix(s.history, o);
      EvictKeys(s, max);
      SyncedSize(r);
    }
  }

  /** What is left after dropping the oldest entries of a history without repeats has none. */
  lemma DistinctSuffix(h: seq<string>, o: nat)
    requires Distinct(h) && o <= |h|
    ensures Distinct(h[o..])
  {
    forall i, j | 0 <= i < j < |h[o..]|
      ensures h[o..][i] != h[o..][j]
    {
      assert h[o..][i] == h[i + o] && h[o..][j] == h[j + o];
    }
  }

  /** A miss stores the response under the prompt, appends the prompt to the history and manages the cache. */
  function Store(s: CacheState, key: string, response: string, max: nat): CacheState
  {
    Evict(CacheState(s.cache[key := response], s.history + [key]), max)
  }

  /** Storing a missed prompt keeps the cache synchronised and never above max entries; the new entry stays unless max is 0. */
  lemma StoreBounded(s: CacheState, key: string, response: string, max: nat)
    requires Synced(s) && |s.cache| <= max && key !in s.cache
    ensures Synced(Store(s, key, response, max))
    ensures |Store(s, key, response, max).cache| <= max
    ensures key in Store(s, key, response, max).cache <==> max > 0
  {
    var t := CacheState(s.cache[key := response], s.history + [key]);
    var r := Store(s, key, response, max);
    assert r == Evict(t, max);
    assert Synced(t) && |t.cache| == |s.cache| + 1 by {
      SyncedAdd(s, key, response);
    }
    assert Synced(r) && |r.cache| <= max by {
      EvictSynced(t, max);
    }
    assert key in r.cache <==> max > 0 by {
      if |t.cache| > max {
        // The cache was full: exactly the oldest entry goes.
        SyncedSize(s);
        assert |t.cache| - max == 1;
        var first := t.history[0];
        assert Oldest(t.history, 1) == [first];
        assert key in r.cache <==> key != first;
        if max > 0 {
          assert first == s.history[0] && s.history[0] in s.cache;
        } else {
          assert s.history == [];
        }
      }
    }
  }

  /** Adding a new key to the cache and its history keeps them in step. */
  lemma SyncedAdd(s: CacheState, key: string, response: string)
    requires Synced(s) && key !in s.cache
    ensures Synced(CacheState(s.cache[key := response], s.history + [key]))
    ensures |s.cache[key := response]| == |s.cache| + 1
  {
    var h := s.history + [key];
    forall i, j | 0 <= i < j < |h|
      ensures h[i] != h[j]
    {
      if j == |h| - 1 {
        assert h[i] == s.history[i] && s.history[i] in s.history;
      } else {
        assert h[i] == s.history[i] && h[j] == s.history[j];
      }
    }
  }

  /**
   * The LLM branch of generate_narrative as written: it appends the
   * generated response, not the key, to the history and manages the cache,
   * then stores the key again with the key appended.
   */
  function StoreLlmAsWritten(s: CacheState, key: string, response: string, max: nat): CacheState
  {
    var s1 := Evict(CacheState(s.cache[key := response], s.history + [response]), max);
    Evict(CacheState(s1.cache[key := response], s1.history + [key]), max)
  }

  /**
   * With max one: an LLM narrative stored as written, then a string prompt
   * stored as the string branch does, leaves two entries in the cache,
   * because the eviction meets the response where it expects a key.
   */
  lemma StoreLlmAsWrittenOverflows()
    ensures var s1 := StoreLlmAsWritten(CacheState(map[], []), "k1", "r1", 1);
      var s2 := Store(s1, "p", "x", 1);
      "k1" in s2.cache && "p" in s2.cache && !Synced(s1)
  {
    var a := CacheState(map["k1" := "r1"], ["r1"]);
    assert Evict(a, 1) == a;
    var s1 := StoreLlmAsWritten(CacheState(map[], []), "k1", "r1", 1);
    assert s1.cache == map["k1" := "r1"];
    assert s1.history == ["r1", "k1"];
    assert "r1" in s1.history && "r1" !in s1.cache;
    var b := CacheState(map["k1" := "r1", "p" := "x"], ["r1", "k1", "p"]);
    assert s1.cache["p" := "x"] == b.cache;
    assert Oldest(b.history, 1) == ["r1"];
  }

  /** The loop of _manage_cache: delete the keys among the first overflow history entries. */
  method RemoveOldest(c0: map<string, string>, h: seq<string>, overflow: nat) returns (c: map<string, string>)
    ensures c == map k | k in c0 && k !in Oldest(h, overflow) :: c0[k]
  {
    c := c0;
    var i := 0;
    while i < overflow
      invariant 0 <= i <= overflow
      invariant forall k :: k in c <==> k in c0 && k !in Oldest(h, i)
      invariant forall k :: k in c ==> c[k] == c0[k]
    {
      assert i < |h| ==> Oldest(h, i + 1) == Oldest(h, i) + [h[i]];
      if i < |h| {
        var key := h[i];
        if key in c {
          c := c - {key};
        }
      }
      i := i + 1;
    }
    KeptEntries(c0, c, Oldest(h, overflow));
  }

  /**
   * The loader's cache. `isLoaded` says whether a model is loaded and
   * `enhanced` whether it is EnhancedSimpleModel rather than SimpleModel;
   * the LLM-backed models are not part of this model.
   */
  class ResponseCache {
    var cache: map<string, string>
    var history: seq<string>
    var currentTheme: string
    var isLoaded: bool
    var enhanced: bool
    const maxCacheSize: nat

    function State(): CacheState
      reads this
    {
      CacheState(cache, history)
    }

    constructor()
      ensures cache == map[] && history == [] && maxCacheSize == MaxCacheSize
      ensures currentTheme == "fantasy" && !isLoaded && !enhanced
    {
      cache := map[];
      history := [];
      maxCacheSize := MaxCacheSize;
      currentTheme := "fantasy";
      isLoaded := false;
      enhanced := false;
    }

    /** _load_npu_model: the enhanced canned-response model stands in for the NPU model, marked loaded. */
    method LoadNpuModel()
      modifies this
      ensures isLoaded && enhanced
      ensures cache == old(cache) && history == old(history) && currentTheme == old(currentTheme)
    {
      isLoaded := true;
      enhanced := true;
    }

    /** _load_fallback_model: the simple model, marked loaded. */
    method LoadFallbackModel()
      modifies this
      ensures isLoaded && !enhanced
      ensures cache == old(cache) && history == old(history) && currentTheme == old(currentTheme)
    {
      isLoaded := true;
      enhanced := false;
    }

    method SetTheme(theme: string)
      modifies this
      ensures currentTheme == theme
      ensures cache == old(cache) && history == old(history) && isLoaded == old(isLoaded) && enhanced == old(enhanced)
    {
      currentTheme := theme;
    }

    /** _manage_cache */
    method ManageCache()
      modifies this
      ensures State() == Evict(old(State()), maxCacheSize)
      ensures currentTheme == old(currentTheme) && isLoaded == old(isLoaded) && enhanced == old(enhanced)
    {
      if |cache| > maxCacheSize {
        var overflow := |cache| - maxCacheSize;
        var c := RemoveOldest(cache, history, overflow);
        cache := c;
        history := Drop(history, overflow);
      }
    }

    /** generate_narrative with a string prompt, for the canned-response models. */
    method GenerateFromPrompt(prompt: string) returns (r: string)
      modifies this
      ensures !old(isLoaded) ==> r == "The battle continues while the strategic systems initialize..." && State() == old(State())
      ensures old(isLoaded) && prompt in old(cache) ==> r == old(cache)[prompt] && State() == old(State())
      ensures old(isLoaded) && prompt !in old(cache) ==>
        var made := if enhanced then EnhancedGenerate(prompt, currentTheme) else BaseGenerate(prompt, currentTheme, false);
        r == made && State() == Store(old(State()), prompt, made, maxCacheSize)
      ensures currentTheme == old(currentTheme) && isLoaded == old(isLoaded) && enhanced == old(enhanced)
    {
      if !isLoaded {
        return "The battle continues while the strategic systems initialize...";
      }
      if prompt in cache {
        return cache[prompt];
      }
      if enhanced {
        r := EnhancedGenerate(prompt, currentTheme);
      } else {
        r := BaseGenerate(prompt, currentTheme, false);
      }
      cache := cache[prompt := r];
      history := history + [prompt];
      ManageCache();
    }
  }

  // ---------------------------------------------------------------------
  // LocalLLMNarrator's board helpers
  // ---------------------------------------------------------------------

  /** _is_center_column, with cols the length of the row passed in. */
  predicate IsCenterColumn(col: int, cols: int)
  {
    cols / 3 <= col < cols - cols / 3
  }

  /** _is_edge_column */
  predicate IsEdgeColumn(col: int, cols: int)
  {
    col == 0 || col == cols - 1
  }

  /** On a board of three or more columns no column is both; on seven the centre is 2, 3 and 4. */
  lemma CenterAndEdgeDisjoint(col: int, cols: int)
    requires cols >= 3
    ensures !(IsCenterColumn(col, cols) && IsEdgeColumn(col, cols))
    ensures cols == 7 ==> (IsCenterColumn(col, cols) <==> 2 <= col <= 4)
  {
  }

  /** A board as the narrator sees it: rows of integer cells. */
  type Grid = seq<seq<int>>

  /** len(board[0]) if board else 0 */
  function Width(g: Grid): nat
  {
    if |g| > 0 then |g[0]| else 0
  }

  predicate Inside(g: Grid, r: int, c: int)
  {
    0 <= r < |g| && 0 <= c < Width(g) && c < |g[r]|
  }

  predicate Step(dr: int, dc: int)
  {
    -1 <= dr <= 1 && -1 <= dc <= 1 && (dr != 0 || dc != 0)
  }

  /** How many more steps along (dr, dc) stay on the board: the termination measure of a run. */
  function Room(g: Grid, r: int, c: int, dr: int, dc: int): int
  {
    (if dr == 1 then |g| - r else if dr == -1 then r + 1 else 0) +
    (if dc == 1 then Width(g) - c else if dc == -1 then c + 1 else 0)
  }

  predicate PlayerAt(g: Grid, player: int, r: int, c: int)
  {
    Inside(g, r, c) && g[r][c] == player
  }

  /** The number of consecutive player cells from (r, c) on along (dr, dc). */
  function Run(g: Grid, player: int, r: int, c: int, dr: int, dc: int): nat
    requires Step(dr, dc)
    decreases Room(g, r, c, dr, dc)
  {
    if PlayerAt(g, player, r, c) then 1 + Run(g, player, r + dr, c + dc, dr, dc) else 0
  }

  /** i unit steps of d, that is i * d for d in {-1, 0, 1}. */
  function Off(i: int, d: int): int
  {
    if d == 1 then i else if d == -1 then -i else 0
  }

  /** The run is exactly the player cells it covers, and the cell just past it is not one. */
  lemma RunCells(g: Grid, player: int, r: int, c: int, dr: int, dc: int)
    requires Step(dr, dc)
    ensures var n := Run(g, player, r, c, dr, dc);
      (forall i :: 0 <= i < n ==> PlayerAt(g, player, r + Off(i, dr), c + Off(i, dc))) &&
      !PlayerAt(g, player, r + Off(n, dr), c + Off(n, dc))
  {
    RunCovers(g, player, r, c, dr, dc);
    RunStops(g, player, r, c, dr, dc);
  }

  /** Every cell the run counts holds the player's piece. */
  lemma {:induction false} RunCovers(g: Grid, player: int, r: int, c: int, dr: int, dc: int)
    requires Step(dr, dc)
    ensures forall i :: 0 <= i < Run(g, player, r, c, dr, dc) ==> PlayerAt(g, player, r + Off(i, dr), c + Off(i, dc))
    decreases Room(g, r, c, dr, dc)
  {
    if PlayerAt(g, player, r, c) {
      RunCovers(g, player, r + dr, c + dc, dr, dc);
      forall i | 0 < i < Run(g, player, r, c, dr, dc)
        ensures PlayerAt(g, player, r + Off(i, dr), c + Off(i, dc))
      {
        OffStep(i, dr);
        OffStep(i, dc);
        assert PlayerAt(g, player, (r + dr) + Off(i - 1, dr), (c + dc) + Off(i - 1, dc));
      }
    }
  }

  /** The cell just past the run does not hold the player's piece. */
  lemma {:induction false} RunStops(g: Grid, player: int, r: int, c: int, dr: int, dc: int)
    requires Step(dr, dc)
    ensures var n := Run(g, player, r, c, dr, dc); !PlayerAt(g, player, r + Off(n, dr), c + Off(n, dc))
    decreases Room(g, r, c, dr, dc)
  {
    if PlayerAt(g, player, r, c) {
      var m := Run(g, player, r + dr, c + dc, dr, dc);
      RunStops(g, player, r + dr, c + dc, dr, dc);
      OffStep(m + 1, dr);
      OffStep(m + 1, dc);
    }
  }

  /** One more step is one more unit of d. */
  lemma OffStep(i: int, d: int)
    ensures Off(i, d) == Off(i - 1, d) + (if -1 <= d <= 1 then d else 0)
  {
  }

  /** The four directions _check_winning_opportunity tries, in order. */
  const Directions: seq<(int, int)> := [(0, 1), (1, 0), (1, 1), (1, -1)]

  /** The cell itself plus the runs on both sides of it along direction k. */
  function LineCount(g: Grid, player: int, row: int, col: int, k: int): nat
    requires 0 <= k < 4
  {
    var (dr, dc) := Directions[k];
    1 + Run(g, player, row + dr, col + dc, dr, dc) + Run(g, player, row - dr, col - dc, -dr, -dc)
  }

  /** Some line through (row, col) has at least two of the player's cells next to it. */
  predicate Opportunity(g: Grid, player: int, row: int, col: int)
  {
    exists k :: 0 <= k < 4 && LineCount(g, player, row, col, k) >= 3
  }

  /** (row, col) lies strictly behind (r, c) as seen along (dr, dc). */
  predicate Behind(row: int, col: int, r: int, c: int, dr: int, dc: int)
  {
    (dr == 1 && row < r) || (dr == -1 && row > r) || (dc == 1 && col < c) || (dc == -1 && col > c)
  }

  function Set(g: Grid, row: int, col: int, v: int): Grid
    requires 0 <= row < |g| && 0 <= col < |g[row]|
  {
    g[row := g[row][col := v]]
  }

  /** A run never reads a cell behind its start. */
  lemma {:induction false} RunIgnoresBehind(g: Grid, player: int, r: int, c: int, dr: int, dc: int, row: int, col: int, v: int)
    requires Step(dr, dc) && 0 <= row < |g| && 0 <= col < |g[row]| && Behind(row, col, r, c, dr, dc)
    ensures Run(Set(g, row, col, v), player, r, c, dr, dc) == Run(g, player, r, c, dr, dc)
    decreases Room(g, r, c, dr, dc)
  {
    var g' := Set(g, row, col, v);
    assert |g'| == |g| && Width(g') == Width(g);
    if Inside(g, r, c) {
      assert g'[r][c] == g[r][c];
      RunIgnoresBehind(g, player, r + dr, c + dc, dr, dc, row, col, v);
    }
  }

  /** Neither run of a line through (row, col) reads the cell (row, col) itself. */
  lemma LineIgnoresProbe(g: Grid, player: int, row: int, col: int, v: int, k: int)
    requires 0 <= row < |g| && 0 <= col < |g[row]| && 0 <= k < 4
    ensures LineCount(Set(g, row, col, v), player, row, col, k) == LineCount(g, player, row, col, k)
  {
    var (dr, dc) := Directions[k];
    RunIgnoresBehind(g, player, row + dr, col + dc, dr, dc, row, col, v);
    RunIgnoresBehind(g, player, row - dr, col - dc, -dr, -dc, row, col, v);
  }

  /** What _check_winning_opportunity finds does not depend on the cell it is asked about. */
  lemma OpportunityIgnoresProbe(g: Grid, player: int, row: int, col: int, v: int)
    requires 0 <= row < |g| && 0 <= col < |g[row]|
    ensures Opportunity(Set(g, row, col, v), player, row, col) == Opportunity(g, player, row, col)
  {
    forall k | 0 <= k < 4
      ensures LineCount(Set(g, row, col, v), player, row, col, k) == LineCount(g, player, row, col, k)
    {
      LineIgnoresProbe(g, player, row, col, v, k);
    }
  }

  /** The list-of-rows view of a board array. */
  function Snapshot(a: array2<int>): (g: Grid)
    reads a
    ensures |g| == a.Length0
    ensures forall r :: 0 <= r < a.Length0 ==> |g[r]| == a.Length1
    ensures forall r, c :: 0 <= r < a.Length0 && 0 <= c < a.Length1 ==> g[r][c] == a[r, c]
  {
    seq(a.Length0, r requires 0 <= r < a.Length0 reads a =>
      seq(a.Length1, c requires 0 <= c < a.Length1 reads a => a[r, c]))
  }

  /** Two boards of the same shape with the same cells are equal. */
  lemma SameCells(g: Grid, h: Grid)
    requires |g| == |h| && forall r :: 0 <= r < |g| ==> |g[r]| == |h[r]|
    requires forall r, c :: 0 <= r < |g| && 0 <= c < |g[r]| ==> g[r][c] == h[r][c]
    ensures g == h
  {
    forall r | 0 <= r < |g|
      ensures g[r] == h[r]
    {
    }
  }

  /** One of the two while loops: the run from (r, c) along (dr, dc). */
  method CountRun(a: array2<int>, player: int, r0: int, c0: int, dr: int, dc: int) returns (n: nat)
    requires Step(dr, dc)
    ensures n == Run(Snapshot(a), player, r0, c0, dr, dc)
  {
    ghost var g := Snapshot(a);
    var r, c := r0, c0;
    n := 0;
    while 0 <= r < a.Length0 && 0 <= c < a.Length1 && a[r, c] == player
      invariant n + Run(g, player, r, c, dr, dc) == Run(g, player, r0, c0, dr, dc)
      decreases Room(g, r, c, dr, dc)
    {
      n := n + 1;
      r, c := r + dr, c + dc;
    }
  }

  /** One pass of the loop of _check_winning_opportunity: the cell and both runs along direction k. */
  method LineHits(a: array2<int>, player: int, row: int, col: int, k: int) returns (hit: bool)
    requires 0 <= k < 4
    ensures hit == (LineCount(Snapshot(a), player, row, col, k) >= 3)
  {
    var (dr, dc) := Directions[k];
    var ahead := CountRun(a, player, row + dr, col + dc, dr, dc);
    var back := CountRun(a, player, row - dr, col - dc, -dr, -dc);
    hit := 1 + ahead + back >= 3;
  }

  /** _check_winning_opportunity */
  method CheckWinningOpportunity(a: array2<int>, player: int, row: int, col: int) returns (found: bool)
    ensures found == Opportunity(Snapshot(a), player, row, col)
  {
    var k := 0;
    while k < 4
      invariant 0 <= k <= 4
      invariant forall j :: 0 <= j < k ==> LineCount(Snapshot(a), player, row, col, j) < 3
    {
      var hit := LineHits(a, player, row, col, k);
      if hit {
        return true;
      }
      k := k + 1;
    }
    return false;
  }

  /**
   * _check_blocking_move: the cell is probed with the opponent's piece and
   * then set to the player's. The answer is whether the opponent already has
   * two in line next to that cell.
   */
  method CheckBlockingMove(a: array2<int>, player: int, row: int, col: int) returns (wouldWin: bool)
    requires 0 <= row < a.Length0 && 0 <= col < a.Length1
    modifies a
    ensures wouldWin == Opportunity(old(Snapshot(a)), 3 - player, row, col)
    ensures Snapshot(a) == Set(old(Snapshot(a)), row, col, player)
    ensures old(a[row, col]) == player ==> Snapshot(a) == old(Snapshot(a))
  {
    ghost var g := Snapshot(a);
    var opponent := 3 - player;
    a[row, col] := opponent;
    SameCells(Snapshot(a), Set(g, row, col, opponent));
    wouldWin := CheckWinningOpportunity(a, opponent, row, col);
    OpportunityIgnoresProbe(g, opponent, row, col, opponent);
    a[row, col] := player;
    SameCells(Snapshot(a), Set(g, row, col, player));
    if g[row][col] == player {
      assert Set(g, row, col, player) == g;
    }
  }
}
