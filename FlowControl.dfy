/**
 * The data path of the flow-rate controller: the cumulative weight series
 * (a record that is absent until the first write), the flow rate derived from
 * it, the truncation and clamping of the compensator output to a valve
 * position, the ASCII valve command, and one control tick.
 */
module FlowControl {
  import opened Wrappers
  import Decimal

  // Configuration constants of the controller.
  const MinFlowRate: int := 0
  const MaxFlowRate: int := 100
  const UpdateRateMs: int := 1000
  const SerialPort: string := "/dev/ttyUSB0"
  const SerialBaudrate: int := 9600
  const Kp: real := 2.0
  const Ki: real := 1.0
  const Kd: real := 2.0
  const InitialPosition: int := 0
  const ValvePositions: int := 400
  const WeightCalibrationFactor: real := 9.0
  const WeightDataDir: string := "weight_data_files"

  // ---------------------------------------------------------------------
  // The weight series
  // ---------------------------------------------------------------------

  /** A cumulative series never decreases. */
  ghost predicate NonDecreasing(s: seq<real>) {
    forall i, j :: 0 <= i <= j < |s| ==> s[i] <= s[j]
  }

  /**
   * The series after appending `sample` to the stored record: the previous
   * last element plus `sample`, or `sample` itself when there is no record
   * or it is empty.
   */
  function AppendedSeries(stored: Option<seq<real>>, sample: real): (r: seq<real>)
    ensures stored.None? || stored.value == [] ==> r == [sample]
    ensures stored.Some? && stored.value != [] ==>
      var s := stored.value;
      |r| == |s| + 1 && r[..|s|] == s && r[|s|] == s[|s| - 1] + sample
  {
    match stored
    case None => [sample]
    case Some(s) => if s == [] then [sample] else s + [s[|s| - 1] + sample]
  }

  /** The series a read returns: the stored one, or `[0, 0]` when there is none. */
  function ReadSeries(stored: Option<seq<real>>): (r: seq<real>)
    ensures stored.None? ==> r == [0.0, 0.0]
    ensures stored.Some? ==> r == stored.value
  {
    stored.GetOr([0.0, 0.0])
  }

  /** The first difference of the last two samples, or 0 when there are fewer than two. */
  function FlowRate(s: seq<real>): (r: real)
    ensures |s| >= 2 ==> r == s[|s| - 1] - s[|s| - 2]
    ensures |s| < 2 ==> r == 0.0
  {
    if |s| >= 2 then s[|s| - 1] - s[|s| - 2] else 0.0
  }

  // ---------------------------------------------------------------------
  // From compensator output to valve position
  // ---------------------------------------------------------------------

  /** Python's `int(x)` on a finite float: rounding toward zero. */
  function TruncateTowardZero(x: real): (r: int)
    ensures 0.0 <= x ==> r as real <= x < r as real + 1.0
    ensures x < 0.0 ==> r as real - 1.0 < x <= r as real
  {
    if x >= 0.0 then x.Floor else -((-x).Floor)
  }

  /** `v` limited to `[0, ValvePositions]`. */
  function Clamp(v: int): (r: int)
    ensures 0 <= r <= ValvePositions
    ensures 0 <= v <= ValvePositions ==> r == v
    ensures v < 0 ==> r == 0
    ensures v > ValvePositions ==> r == ValvePositions
  {
    if v < 0 then 0 else if v > ValvePositions then ValvePositions else v
  }

  /** The valve position commanded for a raw compensator output. */
  function ValvePosition(raw: real): (p: int)
    ensures 0 <= p <= ValvePositions
    ensures 0.0 <= raw < (ValvePositions + 1) as real ==> p == raw.Floor
    ensures raw < 1.0 ==> p == 0
    ensures raw >= ValvePositions as real ==> p == ValvePositions
  {
    Clamp(TruncateTowardZero(raw))
  }

  /** The synthetic weight increment a valve position produces. */
  function SyntheticSample(position: int): (w: real)
    ensures w * WeightCalibrationFactor == position as real
    ensures 0 <= position ==> 0.0 <= w
  {
    position as real / WeightCalibrationFactor
  }

  // ---------------------------------------------------------------------
  // The valve command
  // ---------------------------------------------------------------------

  const CommandPrefix: string := "/1A"
  const CommandSuffix: string := "R\r\n"

  /** The ASCII command that moves the valve on address 1, axis A, to `position`. */
  function ValveCommand(position: int): (c: string)
    ensures |c| >= |CommandPrefix| + 1 + |CommandSuffix|
    ensures c[..3] == CommandPrefix && c[|c| - 3..] == CommandSuffix
    ensures c[3..|c| - 3] == Decimal.IntToDecimal(position)
  {
    CommandPrefix + Decimal.IntToDecimal(position) + CommandSuffix
  }

  /**
   * The position a well-formed command carries: prefix, a canonical
   * unsigned decimal, suffix. The reading partner of ValveCommand.
   */
  function ParseValveCommand(c: string): Option<nat> {
    if |c| >= |CommandPrefix| + 1 + |CommandSuffix|
       && c[..3] == CommandPrefix && c[|c| - 3..] == CommandSuffix
       && Decimal.Canonical(c[3..|c| - 3])
    then Some(Decimal.DecimalValue(c[3..|c| - 3]))
    else None
  }

  // ---------------------------------------------------------------------
  // One control tick, on values
  // ---------------------------------------------------------------------

  /** The stored record after a tick whose compensator produced `raw`. */
  function TickStore(stored: Option<seq<real>>, raw: real): (r: Option<seq<real>>)
    ensures r.Some?
    ensures var prior := if stored.Some? then stored.value else [];
      |r.value| == |prior| + 1 && r.value[..|prior|] == prior
      && r.value[|prior|] == (if prior == [] then 0.0 else prior[|prior| - 1])
                             + SyntheticSample(ValvePosition(raw))
  {
    Some(AppendedSeries(stored, SyntheticSample(ValvePosition(raw))))
  }

  // ---------------------------------------------------------------------
  // The controller object
  // ---------------------------------------------------------------------

  /**
   * The controller. The compensator is a foreign object whose state and law
   * are not visible; `setpoint` is the one field of it the controller sets,
   * and each tick receives the compensator's law for that tick as a function
   * of (setpoint, measured flow rate). `store` stands for the session's file
   * (None until the first write), `weight` for the attribute the first write
   * creates, and `dispatched` records the commands handed to the worker pool.
   */
  class FlowRateControl {
    const kp: real
    const ki: real
    const kd: real
    var setpoint: real
    var store: Option<seq<real>>
    var weight: Option<real>
    var dispatched: seq<string>

    /** `weight` is the last element written, and exists exactly when one was. */
    ghost predicate Valid()
      reads this
    {
      (weight.Some? <==> store.Some? && store.value != [])
      && (weight.Some? ==> weight.value == store.value[|store.value| - 1])
    }

    /** The recorded series only grows (holds while every sample appended is non-negative). */
    ghost predicate Monotone()
      reads this
    {
      store.Some? ==> NonDecreasing(store.value)
    }

    constructor (kp: real, ki: real, kd: real, setpoint: real := 0.0)
      ensures this.kp == kp && this.ki == ki && this.kd == kd
      ensures this.setpoint == setpoint
      ensures store == None && weight == None && dispatched == []
      ensures Valid() && Monotone()
    {
      this.kp, this.ki, this.kd := kp, ki, kd;
      this.setpoint := setpoint;
      store, weight, dispatched := None, None, [];
    }

    /** Replaces the setpoint; nothing else changes. */
    method UpdateFlowRateSetpoint(flowRate: real)
      modifies this`setpoint
      ensures setpoint == flowRate
    {
      setpoint := flowRate;
    }

    /** Appends `sample` to the cumulative series and records the new last weight. */
    method WriteWeightData(sample: real)
      requires Valid()
      modifies this`store, this`weight
      ensures Valid()
      ensures store == Some(AppendedSeries(old(store), sample))
      ensures weight == Some(if old(weight).Some? then old(weight).value + sample else sample)
    {
      var current := if store.Some? then store.value else [];
      var w := if |current| > 0 then current[|current| - 1] + sample else sample;
      weight := Some(w);
      current := current + [w];
      assert |current| == 1 ==> current == [sample];
      store := Some(current);
    }

    /** The series in the record, or `[0, 0]` when there is none. */
    method ReadWeightData() returns (data: seq<real>)
      ensures data == ReadSeries(store)
    {
      match store
      case None => data := [0.0, 0.0];
      case Some(s) => data := s;
    }

    /** The command sent to the valve for `position`. */
    method SetValvePosition(position: int) returns (command: string)
      ensures command == ValveCommand(position)
    {
      command := ValveCommand(position);
    }

    /**
     * One control tick: measure the flow rate on the series as it stands,
     * run the compensator, truncate and clamp, dispatch the command, append
     * the synthetic sample, and return the measured rate and the position.
     */
    method UpdateData(pid: (real, real) -> real) returns (flowRate: real, position: int)
      requires Valid()
      modifies this`store, this`weight, this`dispatched
      ensures Valid()
      ensures old(Monotone()) ==> Monotone()
      ensures flowRate == FlowRate(ReadSeries(old(store)))
      ensures 0 <= position <= ValvePositions
      ensures position == ValvePosition(pid(setpoint, flowRate))
      ensures store == TickStore(old(store), pid(setpoint, flowRate))
      ensures dispatched == old(dispatched) + [ValveCommand(position)]
    {
      var weightData := ReadWeightData();
      flowRate := FlowRate(weightData);
      position := TruncateTowardZero(pid(setpoint, flowRate));
      position := if ValvePositions < position then ValvePositions else position;
      position := if 0 > position then 0 else position;
      var command := SetValvePosition(position);
      dispatched := dispatched + [command];
      ghost var before := store;
      WriteWeightData(position as real / WeightCalibrationFactor);
      if before.Some? && NonDecreasing(before.value) {
        AppendPreservesNonDecreasing(before.value, SyntheticSample(position));
      }
    }
  }

  /** Appending a non-negative increment keeps a cumulative series non-decreasing. */
  lemma AppendPreservesNonDecreasing(s: seq<real>, sample: real)
    requires NonDecreasing(s) && sample >= 0.0
    ensures NonDecreasing(AppendedSeries(Some(s), sample))
  {
    var r := AppendedSeries(Some(s), sample);
    if s != [] {
      forall i, j | 0 <= i <= j < |r| ensures r[i] <= r[j] {
        if j == |s| {
          if i < |s| {
            assert r[i] == s[i] <= s[|s| - 1];
          }
        } else {
          assert r[i] == s[i] && r[j] == s[j];
        }
      }
    }
  }
}
