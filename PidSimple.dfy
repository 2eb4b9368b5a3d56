/**
 * The tutorial three-term control law, written in the source as a generator
 * that yields a manipulated variable and is resumed with (t, PV, SP). Here
 * the generator's locals are the fields of a class and one resumption is the
 * method Step.
 */
module PidSimple {

  /** The gains and the baseline bias the generator is created with. */
  datatype Gains = Gains(kp: real, ki: real, kd: real, mvBar: real)

  /** What the generator remembers between resumptions. */
  datatype PidState = PidState(ePrev: real, tPrev: real, integral: real)

  /** The values a resumption receives: time, process variable, setpoint. */
  datatype Sample = Sample(t: real, pv: real, sp: real)

  /** The stored data before the first resumption. */
  const InitialState: PidState := PidState(0.0, -100.0, 0.0)

  function Error(x: Sample): real {
    x.sp - x.pv
  }

  /** The running integral after consuming `x`. */
  function NextIntegral(g: Gains, st: PidState, x: Sample): real {
    st.integral + g.ki * Error(x) * (x.t - st.tPrev)
  }

  /** The derivative term; division by the elapsed time needs it nonzero. */
  function Derivative(g: Gains, st: PidState, x: Sample): real
    requires x.t != st.tPrev
  {
    g.kd * (Error(x) - st.ePrev) / (x.t - st.tPrev)
  }

  /** The value yielded after consuming `x`. */
  function StepOutput(g: Gains, st: PidState, x: Sample): (mv: real)
    requires x.t != st.tPrev
    ensures mv == g.mvBar + g.kp * Error(x) + StepState(g, st, x).integral + Derivative(g, st, x)
  {
    g.mvBar + g.kp * Error(x) + NextIntegral(g, st, x) + Derivative(g, st, x)
  }

  /** The stored data after consuming `x`. */
  function StepState(g: Gains, st: PidState, x: Sample): (next: PidState)
    ensures next.ePrev == x.sp - x.pv && next.tPrev == x.t
    ensures next.integral - st.integral == g.ki * (x.sp - x.pv) * (x.t - st.tPrev)
  {
    PidState(Error(x), x.t, NextIntegral(g, st, x))
  }

  /** Each sample's time differs from the one before it (starting from `tPrev`). */
  predicate WellTimed(tPrev: real, xs: seq<Sample>)
    decreases |xs|
  {
    xs == [] || (xs[0].t != tPrev && WellTimed(xs[0].t, xs[1..]))
  }

  /**
   * The state after the generator consumes `xs` in order: after a non-empty
   * history the stored error and time are those of the last sample.
   */
  function Run(g: Gains, st: PidState, xs: seq<Sample>): (r: PidState)
    ensures xs == [] ==> r == st
    ensures xs != [] ==> r.ePrev == Error(xs[|xs| - 1]) && r.tPrev == xs[|xs| - 1].t
    decreases |xs|
  {
    if xs == [] then st
    else
      assert |xs| > 1 ==> xs[1..][|xs| - 2] == xs[|xs| - 1];
      Run(g, StepState(g, st, xs[0]), xs[1..])
  }

  /** The values yielded while consuming `xs`, in order. */
  function Outputs(g: Gains, st: PidState, xs: seq<Sample>): (out: seq<real>)
    requires WellTimed(st.tPrev, xs)
    ensures |out| == |xs|
    decreases |xs|
  {
    if xs == [] then []
    else [StepOutput(g, st, xs[0])] + Outputs(g, StepState(g, st, xs[0]), xs[1..])
  }

  /** The generator, primed: its fields are its locals, `mv` the value it last yielded. */
  class Pid {
    const kp: real
    const ki: real
    const kd: real
    const mvBar: real
    var ePrev: real
    var tPrev: real
    var integral: real
    var mv: real

    function Gain(): Gains {
      Gains(kp, ki, kd, mvBar)
    }

    function State(): PidState
      reads this
    {
      PidState(ePrev, tPrev, integral)
    }

    /** Creating the generator and advancing it to its first yield, which gives `mvBar`. */
    constructor (kp: real, ki: real, kd: real, mvBar: real := 0.0)
      ensures Gain() == Gains(kp, ki, kd, mvBar)
      ensures State() == InitialState
      ensures mv == mvBar
    {
      this.kp, this.ki, this.kd, this.mvBar := kp, ki, kd, mvBar;
      ePrev := 0.0;
      tPrev := -100.0;
      integral := 0.0;
      mv := mvBar;
    }

    /**
     * One resumption with (t, PV, SP): the output uses the previous error and
     * time, which are replaced only after it is computed.
     */
    method Step(t: real, pv: real, sp: real) returns (out: real)
      requires t != tPrev
      modifies this`ePrev, this`tPrev, this`integral, this`mv
      ensures out == StepOutput(Gain(), old(State()), Sample(t, pv, sp))
      ensures State() == StepState(Gain(), old(State()), Sample(t, pv, sp))
      ensures mv == out
    {
      ghost var st, x := State(), Sample(t, pv, sp);
      var e := sp - pv;
      var p := kp * e;
      integral := integral + ki * e * (t - tPrev);
      assert integral == NextIntegral(Gain(), st, x);
      var d := kd * (e - ePrev) / (t - tPrev);
      assert e == Error(x) && d == Derivative(Gain(), st, x);
      mv := mvBar + p + integral + d;
      assert mv == StepOutput(Gain(), st, x);
      ePrev := e;
      tPrev := t;
      out := mv;
    }
  }
}
