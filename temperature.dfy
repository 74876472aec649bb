/**
 * The TemperatureMonitor of app/utils/temperature_monitor.py: a reading
 * (simulated, or a platform sample), a history bounded to ten entries and a
 * trend read off its first and last entries. The clock is a parameter, and
 * so is the platform sample, which stands for the source's placeholder
 * random.uniform(40.0, 65.0).
 */
module TemperatureMonitoring {
  import opened Wrappers

  datatype Platform = Darwin | Linux | Windows | Other
  datatype Trend = Rising | Falling | Stable

  const HighThreshold: real := 75.0
  const CriticalThreshold: real := 85.0
  const MaxHistory: nat := 10

  /** One history entry: when it was taken and the temperature. */
  datatype Entry = Entry(time: int, temp: real)

  /** get_temperature: the simulated value when set, None on an unsupported platform, else the sample. */
  function Reading(simulated: Option<real>, platform: Platform, sample: real): (t: Option<real>)
    ensures simulated.Some? ==> t == simulated
    ensures simulated.None? ==> (t.None? <==> platform == Other)
    ensures simulated.None? && platform != Other ==> t == Some(sample)
  {
    if simulated.Some? then simulated
    else if platform == Other then None
    else Some(sample)
  }

  /** _update_history: append, then drop the oldest entry once there are more than ten. */
  function Push(h: seq<Entry>, e: Entry): (r: seq<Entry>)
    requires |h| <= MaxHistory
    ensures |r| <= MaxHistory && r != [] && r[|r| - 1] == e
    ensures |r| == if |h| < MaxHistory then |h| + 1 else MaxHistory
    ensures r == (h + [e])[|h| + 1 - |r|..]
  {
    var h' := h + [e];
    if |h'| > MaxHistory then h'[1..] else h'
  }

  /** is_high_temperature on a reading: None is never high. */
  predicate IsHigh(t: Option<real>)
  {
    t.Some? && t.value >= HighThreshold
  }

  /** is_critical_temperature on a reading: None is never critical. */
  predicate IsCritical(t: Option<real>)
  {
    t.Some? && t.value >= CriticalThreshold
  }

  /** A critical reading is a high one; the converse fails at 80 degrees. */
  lemma CriticalIsHigh(t: Option<real>)
    ensures IsCritical(t) ==> IsHigh(t)
    ensures IsHigh(Some(80.0)) && !IsCritical(Some(80.0))
  {
  }

  /** Without a simulated value, a sample in the placeholder's range 40..65 is never high, so never critical either. */
  lemma PlaceholderNeverHigh(platform: Platform, sample: real)
    requires 40.0 <= sample <= 65.0
    ensures !IsHigh(Reading(None, platform, sample)) && !IsCritical(Reading(None, platform, sample))
  {
  }

  function Abs(x: real): real
  {
    if x < 0.0 then -x else x
  }

  /** get_temperature_trend: None below two entries, else the change from the first entry to the last. */
  function TrendOf(h: seq<Entry>): (r: Option<Trend>)
    ensures r.None? <==> |h| < 2
    ensures r == Some(Stable) <==> |h| >= 2 && -2.0 < h[|h| - 1].temp - h[0].temp < 2.0
    ensures r == Some(Rising) <==> |h| >= 2 && h[|h| - 1].temp - h[0].temp >= 2.0
    ensures r == Some(Falling) <==> |h| >= 2 && h[|h| - 1].temp - h[0].temp <= -2.0
  {
    if |h| < 2 then None
    else
      var diff := h[|h| - 1].temp - h[0].temp;
      if Abs(diff) < 2.0 then Some(Stable)
      else if diff > 0.0 then Some(Rising)
      else Some(Falling)
  }

  function Reverse(h: seq<Entry>): (r: seq<Entry>)
    ensures |r| == |h| && forall i :: 0 <= i < |h| ==> r[i] == h[|h| - 1 - i]
  {
    if h == [] then [] else Reverse(h[1..]) + [h[0]]
  }

  /** Read backwards, a rising history falls and a falling one rises; a stable one stays stable. */
  lemma TrendReversed(h: seq<Entry>)
    ensures TrendOf(h) == Some(Rising) <==> TrendOf(Reverse(h)) == Some(Falling)
    ensures TrendOf(h) == Some(Falling) <==> TrendOf(Reverse(h)) == Some(Rising)
    ensures TrendOf(h) == Some(Stable) <==> TrendOf(Reverse(h)) == Some(Stable)
  {
  }

  /** The history keeps exactly the newest ten of all the readings pushed so far. */
  function PushAll(h: seq<Entry>, es: seq<Entry>): (r: seq<Entry>)
    requires |h| <= MaxHistory
    ensures |r| <= MaxHistory
    decreases es
  {
    if es == [] then h else PushAll(Push(h, es[0]), es[1..])
  }

  /** The newest ten entries of s, in order (all of s when it has at most ten). */
  function Newest(s: seq<Entry>): (r: seq<Entry>)
    ensures |r| == if |s| <= MaxHistory then |s| else MaxHistory
    ensures r == s[|s| - |r|..]
  {
    if |s| <= MaxHistory then s else s[|s| - MaxHistory..]
  }

  /** One update keeps the newest ten of the old history and the reading. */
  lemma PushIsNewest(h: seq<Entry>, e: Entry)
    requires |h| <= MaxHistory
    ensures Push(h, e) == Newest(h + [e])
  {
  }

  /** Trimming early loses nothing a later trim would keep. */
  lemma NewestAppend(x: seq<Entry>, y: seq<Entry>)
    ensures Newest(Newest(x) + y) == Newest(x + y)
  {
    var k := |x| - |Newest(x)|;
    var z := x + y;
    assert Newest(x) + y == z[k..];
  }

  lemma {:induction false} PushAllKeepsNewest(h: seq<Entry>, es: seq<Entry>)
    requires |h| <= MaxHistory
    ensures PushAll(h, es) == Newest(h + es)
    decreases es
  {
    if es == [] {
      assert h + es == h;
    } else {
      var h' := Push(h, es[0]);
      calc {
        PushAll(h, es);
        PushAll(h', es[1..]);
        { PushAllKeepsNewest(h', es[1..]); }
        Newest(h' + es[1..]);
        { PushIsNewest(h, es[0]); }
        Newest(Newest(h + [es[0]]) + es[1..]);
        { NewestAppend(h + [es[0]], es[1..]); }
        Newest(h + [es[0]] + es[1..]);
        { assert h + [es[0]] + es[1..] == h + es; }
        Newest(h + es);
      }
    }
  }

  class TemperatureMonitor {
    var simulatedTemp: Option<real>
    var history: seq<Entry>

    ghost predicate Valid()
      reads this
    {
      |history| <= MaxHistory
    }

    constructor ()
      ensures Valid() && simulatedTemp == None && history == []
    {
      simulatedTemp := None;
      history := [];
    }

    /** _update_history */
    method UpdateHistory(now: int, temp: real)
      requires Valid()
      modifies this
      ensures Valid() && simulatedTemp == old(simulatedTemp)
      ensures history == Push(old(history), Entry(now, temp))
    {
      history := history + [Entry(now, temp)];
      if |history| > MaxHistory {
        history := history[1..];
      }
    }

    /**
     * get_temperature: a simulated value is returned as it is and leaves the
     * history alone; a platform sample is recorded at time now.
     */
    method GetTemperature(platform: Platform, now: int, sample: real) returns (t: Option<real>)
      requires Valid()
      modifies this
      ensures Valid() && simulatedTemp == old(simulatedTemp)
      ensures t == Reading(simulatedTemp, platform, sample)
      ensures history == if simulatedTemp.None? && platform != Other then Push(old(history), Entry(now, sample)) else old(history)
    {
      if simulatedTemp.Some? {
        return simulatedTemp;
      }
      if platform == Other {
        return None;
      }
      UpdateHistory(now, sample);
      t := Some(sample);
    }

    /** is_high_temperature */
    method IsHighTemperature(platform: Platform, now: int, sample: real) returns (high: bool)
      requires Valid()
      modifies this
      ensures Valid() && simulatedTemp == old(simulatedTemp)
      ensures high == IsHigh(Reading(simulatedTemp, platform, sample))
      ensures history == if simulatedTemp.None? && platform != Other then Push(old(history), Entry(now, sample)) else old(history)
    {
      var t := GetTemperature(platform, now, sample);
      high := t.Some? && t.value >= HighThreshold;
    }

    /** is_critical_temperature */
    method IsCriticalTemperature(platform: Platform, now: int, sample: real) returns (critical: bool)
      requires Valid()
      modifies this
      ensures Valid() && simulatedTemp == old(simulatedTemp)
      ensures critical == IsCritical(Reading(simulatedTemp, platform, sample))
      ensures history == if simulatedTemp.None? && platform != Other then Push(old(history), Entry(now, sample)) else old(history)
    {
      var t := GetTemperature(platform, now, sample);
      critical := t.Some? && t.value >= CriticalThreshold;
    }

    /** get_temperature_trend */
    function GetTemperatureTrend(): (r: Option<Trend>)
      reads this
      ensures r == TrendOf(history)
    {
      TrendOf(history)
    }
  }
}

/**
 * The TemperatureController of app/controllers/temperature_controller.py:
 * the current temperature, stepped by a mild random drift or by the
 * simulated overheat run. Sensor reads and the random drift are parameters.
 */
module TemperatureControl {
  import opened Wrappers

  const HotThreshold: real := 75.0
  const FloorTemp: real := 35.0
  const CeilingTemp: real := 90.0

  /** The controller's state as a value: temperature, simulating flag, simulation step. */
  datatype Thermo = Thermo(temp: real, simulating: bool, step: int)

  /** max(35, min(90, t)) */
  function Clamp(t: real): (r: real)
    ensures FloorTemp <= r <= CeilingTemp
    ensures FloorTemp <= t <= CeilingTemp ==> r == t
    ensures t < FloorTemp ==> r == FloorTemp
    ensures t > CeilingTemp ==> r == CeilingTemp
  {
    if t < FloorTemp then FloorTemp else if t > CeilingTemp then CeilingTemp else t
  }

  /** Clamping twice changes nothing more. */
  lemma ClampIdempotent(t: real)
    ensures Clamp(Clamp(t)) == Clamp(t)
  {
  }

  /** _simulate_temperature as a step on the value. */
  function SimStep(s: Thermo): (s': Thermo)
    ensures 0 <= s.step < 15 ==> s' == s.(temp := s.temp + 2.0, step := s.step + 1)
    ensures 15 <= s.step < 30 ==> s' == s.(temp := s.temp - 1.5, step := s.step + 1)
    ensures s.step >= 30 ==> s' == s.(simulating := false, step := 0)
  {
    if s.step < 15 then s.(temp := s.temp + 2.0, step := s.step + 1)
    else if s.step < 30 then s.(temp := s.temp - 1.5, step := s.step + 1)
    else s.(simulating := false, step := 0)
  }

  function SimSteps(s: Thermo, n: nat): Thermo
    decreases n
  {
    if n == 0 then s else SimSteps(SimStep(s), n - 1)
  }

  /** After k of the first fifteen steps the temperature has risen by 2 per step. */
  lemma {:induction false} HeatingPhase(s: Thermo, k: nat)
    requires s.step == 0 && k <= 15
    ensures SimSteps(s, k) == s.(temp := s.temp + 2.0 * k as real, step := k)
  {
    if k > 0 {
      HeatingPhase(s, k - 1);
      SimStepsLast(s, k - 1);
    }
  }

  /** After k more steps the temperature has fallen by 1.5 per step. */
  lemma {:induction false} CoolingPhase(s: Thermo, k: nat)
    requires s.step == 15 && k <= 15
    ensures SimSteps(s, k) == s.(temp := s.temp - 1.5 * k as real, step := 15 + k)
  {
    if k > 0 {
      CoolingPhase(s, k - 1);
      SimStepsLast(s, k - 1);
    }
  }

  lemma {:induction false} SimStepsLast(s: Thermo, n: nat)
    ensures SimSteps(s, n + 1) == SimStep(SimSteps(s, n))
    decreases n
  {
    if n > 0 {
      SimStepsLast(SimStep(s), n - 1);
    }
  }

  lemma {:induction false} SimStepsAdd(s: Thermo, m: nat, n: nat)
    ensures SimSteps(s, m + n) == SimSteps(SimSteps(s, m), n)
    decreases m
  {
    if m > 0 {
      SimStepsAdd(SimStep(s), m - 1, n);
    }
  }

  /**
   * simulate_overheat followed by 31 display updates: fifteen steps up by 2,
   * fifteen down by 1.5, then the run ends 7.5 degrees above its start.
   */
  lemma OverheatRun(t: real)
    ensures SimSteps(Thermo(t, true, 0), 15).temp == t + 30.0
    ensures SimSteps(Thermo(t, true, 0), 31) == Thermo(t + 7.5, false, 0)
  {
    var s := Thermo(t, true, 0);
    HeatingPhase(s, 15);
    var mid := SimSteps(s, 15);
    CoolingPhase(mid, 15);
    SimStepsAdd(s, 15, 15);
    SimStepsLast(s, 30);
  }

  datatype Severity = Normal | Warm | Hot

  /** _get_temp_color: green below 50, orange below 70, red otherwise. */
  function TempColor(t: real): (c: string)
    ensures c == "#2ecc71" <==> t < 50.0
    ensures c == "#f39c12" <==> 50.0 <= t < 70.0
    ensures c == "#e74c3c" <==> t >= 70.0
  {
    if t < 50.0 then "#2ecc71"
    else if t < 70.0 then "#f39c12"
    else "#e74c3c"
  }

  function SeverityOf(c: string): nat
  {
    if c == "#2ecc71" then 0 else if c == "#f39c12" then 1 else 2
  }

  /** A hotter reading never shows a milder colour. */
  lemma ColorMonotone(t: real, t': real)
    requires t <= t'
    ensures SeverityOf(TempColor(t)) <= SeverityOf(TempColor(t'))
  {
  }

  class TemperatureController {
    var currentTemp: real
    var isSimulating: bool
    var simulateStep: int

    function State(): Thermo
      reads this
    {
      Thermo(currentTemp, isSimulating, simulateStep)
    }

    constructor ()
      ensures State() == Thermo(40.0, false, 0)
    {
      currentTemp := 40.0;
      isSimulating := false;
      simulateStep := 0;
    }

    /** is_overheating: strictly above 75. */
    predicate IsOverheating()
      reads this
      ensures IsOverheating() <==> currentTemp > HotThreshold
    {
      currentTemp > 75.0
    }

    /** _simulate_mild_fluctuation with the random drift drawn from [-0.5, 0.5] given as delta. */
    method SimulateMildFluctuation(delta: real)
      modifies this
      ensures State() == old(State()).(temp := Clamp(old(currentTemp) + delta))
    {
      currentTemp := currentTemp + delta;
      if currentTemp > CeilingTemp {
        currentTemp := CeilingTemp;
      }
      if currentTemp < FloorTemp {
        currentTemp := FloorTemp;
      }
    }

    /** _simulate_temperature */
    method SimulateTemperature()
      modifies this
      ensures State() == SimStep(old(State()))
    {
      if simulateStep < 15 {
        currentTemp := currentTemp + 2.0;
      } else if simulateStep < 30 {
        currentTemp := currentTemp - 1.5;
      } else {
        isSimulating := false;
        simulateStep := 0;
        return;
      }
      simulateStep := simulateStep + 1;
    }

    /**
     * The temperature part of update_display: while simulating, one
     * simulation step; otherwise the sensor reading when there is one, else a
     * mild drift by delta.
     */
    method UpdateTemperature(sensor: Option<real>, delta: real)
      modifies this
      ensures old(isSimulating) ==> State() == SimStep(old(State()))
      ensures !old(isSimulating) && sensor.Some? ==> State() == old(State()).(temp := sensor.value)
      ensures !old(isSimulating) && sensor.None? ==> State() == old(State()).(temp := Clamp(old(currentTemp) + delta))
    {
      if !isSimulating {
        if sensor.Some? {
          currentTemp := sensor.value;
        } else {
          SimulateMildFluctuation(delta);
        }
      } else {
        SimulateTemperature();
      }
    }

    /** simulate_overheat */
    method SimulateOverheat()
      modifies this
      ensures State() == old(State()).(simulating := true, step := 0)
    {
      isSimulating := true;
      simulateStep := 0;
    }
  }
}
