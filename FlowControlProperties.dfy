/**
 * Properties of the flow-rate controller's data path over many ticks, and of
 * the valve command, stated for any compensator output.
 */
module FlowControlProperties {
  import opened Wrappers
  import Decimal
  import opened FlowControl

  /** The stored record after one tick per raw compensator output, in order. */
  function Ticks(stored: Option<seq<real>>, raws: seq<real>): (r: Option<seq<real>>)
    ensures raws == [] ==> r == stored
    ensures raws != [] ==>
      r.Some? && |r.value| == (if stored.Some? then |stored.value| else 0) + |raws|
    decreases |raws|
  {
    if raws == [] then stored
    else TickStore(Ticks(stored, raws[..|raws| - 1]), raws[|raws| - 1])
  }

  /** The weight increment a tick with raw compensator output `raw` appends. */
  function Increment(raw: real): (w: real)
    ensures 0.0 <= w <= ValvePositions as real / WeightCalibrationFactor
  {
    SyntheticSample(ValvePosition(raw))
  }

  /**
   * `s` is the cumulative series of the increments of `raws`: one sample per
   * tick, the first its own increment, each later one the previous plus its
   * increment.
   */
  ghost predicate Cumulative(s: seq<real>, raws: seq<real>) {
    |s| == |raws|
    && (|s| > 0 ==> s[0] == Increment(raws[0]))
    && (forall k :: 0 < k < |s| ==> s[k] == s[k - 1] + Increment(raws[k]))
  }

  /** Extending a cumulative series by one tick keeps it cumulative. */
  lemma CumulativeExtend(t: seq<real>, init: seq<real>, raw: real)
    requires Cumulative(t, init) && t != []
    ensures Cumulative(t + [t[|t| - 1] + Increment(raw)], init + [raw])
  {
    var s := t + [t[|t| - 1] + Increment(raw)];
    var raws := init + [raw];
    forall k | 0 < k < |s| ensures s[k] == s[k - 1] + Increment(raws[k]) {
      if k < |t| {
        assert raws[k] == init[k] && s[k] == t[k] && s[k - 1] == t[k - 1];
      }
    }
  }

  /** A cumulative series of non-negative increments is non-negative and non-decreasing. */
  lemma {:induction false} CumulativeIsMonotone(s: seq<real>, raws: seq<real>)
    requires Cumulative(s, raws)
    ensures forall k :: 0 <= k < |s| ==> s[k] >= 0.0
    ensures NonDecreasing(s)
    decreases |s|
  {
    if |s| > 1 {
      var n := |s|;
      var t, init := s[..n - 1], raws[..n - 1];
      assert Cumulative(t, init) by {
        forall k | 0 < k < |t| ensures t[k] == t[k - 1] + Increment(init[k]) {
          assert s[k] == s[k - 1] + Increment(raws[k]);
        }
      }
      CumulativeIsMonotone(t, init);
      assert s[n - 1] == t[n - 2] + Increment(raws[n - 1]);
      assert s == AppendedSeries(Some(t), Increment(raws[n - 1]));
      AppendPreservesNonDecreasing(t, Increment(raws[n - 1]));
    }
  }

  /**
   * Starting from no record, N ticks leave exactly N samples; each is the
   * previous one (or nothing, for the first) plus that tick's position
   * divided by the calibration factor.
   */
  lemma {:induction false} TicksFromAbsent(raws: seq<real>)
    ensures raws == [] ==> Ticks(None, raws) == None
    ensures raws != [] ==> Ticks(None, raws).Some? && Cumulative(Ticks(None, raws).value, raws)
    decreases |raws|
  {
    if raws != [] {
      var n := |raws|;
      var init := raws[..n - 1];
      assert raws == init + [raws[n - 1]];
      TicksFromAbsent(init);
      if init == [] {
        assert Ticks(None, raws) == Some([Increment(raws[0])]);
      } else {
        var t := Ticks(None, init).value;
        assert Ticks(None, raws).value == t + [t[|t| - 1] + Increment(raws[n - 1])];
        CumulativeExtend(t, init, raws[n - 1]);
      }
    }
  }

  /** In particular the series the ticks build never decreases and never goes negative. */
  lemma TicksAreMonotone(raws: seq<real>)
    requires raws != []
    ensures |Ticks(None, raws).value| == |raws|
    ensures forall k :: 0 <= k < |raws| ==> Ticks(None, raws).value[k] >= 0.0
    ensures NonDecreasing(Ticks(None, raws).value)
  {
    TicksFromAbsent(raws);
    CumulativeIsMonotone(Ticks(None, raws).value, raws);
  }

  /**
   * The rate measured at a tick is the increment the previous tick appended,
   * once there have been two ticks; before that it is 0. The controller's
   * feedback is its own previous output.
   */
  lemma MeasuredRateIsPreviousIncrement(raws: seq<real>)
    ensures |raws| < 2 ==> FlowRate(ReadSeries(Ticks(None, raws))) == 0.0
    ensures |raws| >= 2 ==>
      FlowRate(ReadSeries(Ticks(None, raws))) == Increment(raws[|raws| - 1])
  {
    TicksFromAbsent(raws);
  }

  /** After a write to a non-empty series, the flow rate is exactly the sample written. */
  lemma FlowRateAfterAppend(s: seq<real>, sample: real)
    requires s != []
    ensures FlowRate(AppendedSeries(Some(s), sample)) == sample
  {
  }

  /** With no record the read gives `[0, 0]`, on which the flow rate is 0. */
  lemma MissingRecordHasZeroRate()
    ensures ReadSeries(None) == [0.0, 0.0]
    ensures FlowRate(ReadSeries(None)) == 0.0
  {
  }

  /**
   * Truncation toward zero (Python's `int`) and flooring give the same
   * position once clamped: they differ only on negative non-integers, which
   * the clamp sends to 0 either way.
   */
  lemma TruncationAgreesWithFloorAfterClamp(x: real)
    ensures ValvePosition(x) == Clamp(x.Floor)
  {
  }

  /** A command for a non-negative position reads back as that position. */
  lemma {:induction false} ValveCommandRoundTrip(position: nat)
    ensures ParseValveCommand(ValveCommand(position)) == Some(position)
  {
    var c := ValveCommand(position);
    assert c[3..|c| - 3] == Decimal.NatToDecimal(position);
    Decimal.DecimalRoundTrip(position);
  }

  /** Every well-formed command is the command built for the position it carries. */
  lemma {:induction false} ParsedCommandIsBuilt(c: string, position: nat)
    requires ParseValveCommand(c) == Some(position)
    ensures ValveCommand(position) == c
  {
    var digits := c[3..|c| - 3];
    Decimal.CanonicalRoundTrip(digits);
    assert Decimal.IntToDecimal(position) == digits;
    assert c == c[..3] + digits + c[|c| - 3..];
  }

  /**
   * A command for a clamped position is "/1A", then one to three digits
   * with no sign and no leading zero (unless the position is 0), then "R\r\n".
   */
  lemma {:induction false} ClampedCommandFormat(position: int)
    requires 0 <= position <= ValvePositions
    ensures var d := ValveCommand(position)[3..|ValveCommand(position)| - 3];
      1 <= |d| <= 3 && Decimal.Canonical(d) && '-' !in d
  {
    var d := Decimal.NatToDecimal(position);
    if position >= 10 {
      assert d == Decimal.NatToDecimal(position / 10) + [Decimal.DigitChar(position % 10)];
      if position >= 100 {
        assert Decimal.NatToDecimal(position / 10)
          == Decimal.NatToDecimal(position / 100) + [Decimal.DigitChar((position / 10) % 10)];
      }
    }
    assert '-' !in d by {
      forall i | 0 <= i < |d| ensures d[i] != '-' {
        assert Decimal.IsDigit(d[i]);
      }
    }
  }

  /** First tick of a fresh session: the measured rate is 0 and any output below 1 writes `[0]`. */
  lemma FirstTickScenario(raw: real)
    requires raw < 1.0
    ensures FlowRate(ReadSeries(None)) == 0.0
    ensures ValvePosition(raw) == 0
    ensures TickStore(None, raw) == Some([0.0])
  {
  }

  /**
   * A record `[0, 9]` and setpoint 5 under a proportional law with gain 2:
   * the measured rate is 9, the output is -8, and the valve closes to 0.
   */
  lemma OvershootScenario()
    ensures FlowRate(ReadSeries(Some([0.0, 9.0]))) == 9.0
    ensures ValvePosition(Kp * (5.0 - FlowRate(ReadSeries(Some([0.0, 9.0]))))) == 0
  {
  }
}
