/**
 * game/thermal_aware_ai.py: ThermalMonitor reads the CPU temperature and
 * compares it with a threshold; ThermalAwareAI picks the full MinimaxEngine
 * or the DepthLimitedMinimax by that test and hands the whole search to it.
 *
 * psutil.sensors_temperatures() is foreign: its answer is a parameter, the
 * sensor groups in the order the dictionary lists them (None when the call
 * raises).
 */
module ThermalAware {
  import opened Wrappers
  import opened Rules
  import opened Minimax
  import opened Text
  import SearchTree

  /** Sensor groups by name, each with its current readings; None when reading them fails. */
  type Sensors = Option<seq<(string, seq<real>)>>

  const CpuPrefixes: seq<string> := ["cpu", "core", "k10temp", "coretemp"]

  /** name.lower().startswith(cpu_prefixes) */
  predicate IsCpuSensor(name: string)
  {
    exists i :: 0 <= i < |CpuPrefixes| && StartsWith(Lower(name), CpuPrefixes[i])
  }

  /** The position of the first group at or after i whose name marks a CPU sensor. */
  function FirstCpu(groups: seq<(string, seq<real>)>, i: nat): (k: Option<nat>)
    requires i <= |groups|
    ensures k.Some? ==> i <= k.value < |groups| && IsCpuSensor(groups[k.value].0)
    ensures k.Some? ==> forall j :: i <= j < k.value ==> !IsCpuSensor(groups[j].0)
    ensures k.None? ==> forall j :: i <= j < |groups| ==> !IsCpuSensor(groups[j].0)
    decreases |groups| - i
  {
    if i == |groups| then None
    else if IsCpuSensor(groups[i].0) then Some(i)
    else FirstCpu(groups, i + 1)
  }

  /** Every reading of every group, in order. */
  function AllReadings(groups: seq<(string, seq<real>)>): (r: seq<real>)
    ensures forall x :: x in r ==> exists j :: 0 <= j < |groups| && x in groups[j].1
    ensures forall j, x :: 0 <= j < |groups| && x in groups[j].1 ==> x in r
    ensures (forall j :: 0 <= j < |groups| ==> groups[j].1 == []) ==> r == []
  {
    if groups == [] then []
    else
      var rest := AllReadings(groups[1..]);
      assert forall j :: 1 <= j < |groups| ==> groups[j] == groups[1..][j - 1];
      groups[0].1 + rest
  }

  /** max() of a non-empty list of readings. */
  function Highest(s: seq<real>): (m: real)
    requires |s| >= 1
    ensures m in s && forall x :: x in s ==> x <= m
  {
    if |s| == 1 then s[0]
    else
      var m := Highest(s[1..]);
      assert forall x :: x in s ==> x == s[0] || x in s[1..];
      if s[0] >= m then s[0] else m
  }

  /**
   * get_cpu_temperature: the highest reading of the first CPU group, else
   * the highest reading of all groups; 0.0 when the call fails, there are
   * no groups, or max() meets an empty list (the exception handler).
   */
  function CpuTemperature(sensors: Sensors): (t: real)
    ensures sensors.None? || sensors == Some([]) ==> t == 0.0
  {
    match sensors
    case None => 0.0
    case Some(groups) =>
      if groups == [] then 0.0
      else
        match FirstCpu(groups, 0)
        case Some(k) => if groups[k].1 == [] then 0.0 else Highest(groups[k].1)
        case None => HottestOfAll(groups)
  }

  /** max() over every sensor's readings, 0.0 when it meets an empty list. */
  function HottestOfAll(groups: seq<(string, seq<real>)>): real
  {
    var all := AllReadings(groups);
    if all == [] then 0.0 else Highest(all)
  }

  /** With a CPU group, the reading is its hottest core, or 0.0 when the group has no readings. */
  lemma CpuGroupReading(groups: seq<(string, seq<real>)>, k: nat)
    requires FirstCpu(groups, 0) == Some(k)
    ensures groups[k].1 == [] ==> CpuTemperature(Some(groups)) == 0.0
    ensures groups[k].1 != [] ==>
      CpuTemperature(Some(groups)) in groups[k].1 && forall x :: x in groups[k].1 ==> x <= CpuTemperature(Some(groups))
  {
  }

  /** Without a CPU group, the reading is the hottest of all sensors, or 0.0 when there is none. */
  lemma AnyGroupReading(groups: seq<(string, seq<real>)>)
    requires FirstCpu(groups, 0).None?
    ensures forall j, x :: 0 <= j < |groups| && x in groups[j].1 ==> x <= CpuTemperature(Some(groups))
    ensures CpuTemperature(Some(groups)) == 0.0 || exists j :: 0 <= j < |groups| && CpuTemperature(Some(groups)) in groups[j].1
    ensures (forall j :: 0 <= j < |groups| ==> groups[j].1 == []) ==> CpuTemperature(Some(groups)) == 0.0
  {
    HottestOfAllSpec(groups);
    assert CpuTemperature(Some(groups)) == HottestOfAll(groups);
  }

  lemma HottestOfAllSpec(groups: seq<(string, seq<real>)>)
    ensures forall j, x :: 0 <= j < |groups| && x in groups[j].1 ==> x <= HottestOfAll(groups)
    ensures HottestOfAll(groups) == 0.0 || exists j :: 0 <= j < |groups| && HottestOfAll(groups) in groups[j].1
    ensures (forall j :: 0 <= j < |groups| ==> groups[j].1 == []) ==> HottestOfAll(groups) == 0.0
  {
    var all := AllReadings(groups);
    var t := HottestOfAll(groups);
    forall j, x | 0 <= j < |groups| && x in groups[j].1
      ensures x <= t
    {
      assert x in all;
      assert all != [];
      assert t == Highest(all);
    }
    if all != [] {
      assert t in all;
    }
  }

  datatype ThermalMonitor = ThermalMonitor(threshold: real)

  /** is_overheating: strictly above the threshold. */
  predicate IsOverheating(m: ThermalMonitor, sensors: Sensors)
  {
    CpuTemperature(sensors) > m.threshold
  }

  /** With a positive threshold, a failing or empty sensor read never counts as overheating. */
  lemma NoSensorNoOverheating(m: ThermalMonitor, sensors: Sensors)
    requires m.threshold > 0.0 && (sensors.None? || sensors == Some([]))
    ensures !IsOverheating(m, sensors)
  {
  }

  /** The reading at the threshold itself is not overheating; anything above it is. */
  lemma OverheatingIsStrict(m: ThermalMonitor, groups: seq<(string, seq<real>)>, t: real)
    requires groups == [("cpu", [t])]
    ensures IsOverheating(m, Some(groups)) <==> t > m.threshold
  {
    assert StartsWith(Lower("cpu"), CpuPrefixes[0]);
    assert FirstCpu(groups, 0) == Some(0);
  }

  datatype ThermalAwareAI = ThermalAwareAI(monitor: ThermalMonitor, standard: Engine, limited: Engine)

  /** ThermalAwareAI(high_temp_threshold, standard_depth, limited_depth) */
  function NewThermalAwareAI(threshold: real, standardDepth: int, limitedDepth: int): (ai: ThermalAwareAI)
    ensures ai.monitor.threshold == threshold
    ensures ai.standard.level == Standard && ai.standard.maxDepth == standardDepth
    ensures ai.limited.level == Reduced && ai.limited.maxDepth == limitedDepth
  {
    ThermalAwareAI(ThermalMonitor(threshold), NewEngine(Standard, standardDepth), NewEngine(Reduced, limitedDepth))
  }

  /** The defaults: threshold 75, full search to depth 4, limited search to depth 2. */
  function DefaultThermalAwareAI(): (ai: ThermalAwareAI)
    ensures ai.monitor.threshold == 75.0
    ensures ai.standard.level == Standard && ai.standard.maxDepth == 4
    ensures ai.limited.level == Reduced && ai.limited.maxDepth == 2
  {
    NewThermalAwareAI(75.0, 4, 2)
  }

  /** select_strategy */
  function SelectStrategy(ai: ThermalAwareAI, sensors: Sensors): Engine
  {
    if IsOverheating(ai.monitor, sensors) then ai.limited else ai.standard
  }

  /**
   * For an AI built by the constructor, the limited engine (the reduced
   * score, the limited depth) is chosen exactly when the reading is above
   * the threshold.
   */
  lemma StrategyChoice(threshold: real, standardDepth: int, limitedDepth: int, sensors: Sensors)
    ensures var e := SelectStrategy(NewThermalAwareAI(threshold, standardDepth, limitedDepth), sensors);
      (e.level == Reduced <==> CpuTemperature(sensors) > threshold) &&
      (e.level == Standard <==> CpuTemperature(sensors) <= threshold) &&
      e.maxDepth == (if CpuTemperature(sensors) > threshold then limitedDepth else standardDepth)
  {
  }

  /** find_best_move: one sensor read picks the engine, which then runs its own find_best_move. */
  method FindBestMove(ai: ThermalAwareAI, sensors: Sensors, g: Game, shuffle: nat) returns (col: int)
    requires ValidGame(g)
    ensures col == -1 <==> ValidColumns(g) == []
    ensures col != -1 ==> IsValidMove(g, col)
    ensures var e := SelectStrategy(ai, sensors);
      (WinInOrder(e, g) ==> WinsNow(g, col)) &&
      (col != -1 && !WinInOrder(e, g) ==>
        forall k :: 0 <= k < |e.order| && IsValidMove(g, e.order[k]) ==> SearchTree.Le(MoveValue(e, g, e.order[k]), MoveValue(e, g, col)))
  {
    var strategy := SelectStrategy(ai, sensors);
    col := BestMove(strategy, g, shuffle);
  }
}
