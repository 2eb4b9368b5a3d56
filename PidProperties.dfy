/** Properties of the tutorial control law over one step and over a history of steps. */
module PidProperties {
  import opened PidSimple

  /** The time consumed just before the `k`-th sample of `xs`, `t0` before the first. */
  function PrevTime(t0: real, xs: seq<Sample>, k: nat): real
    requires k < |xs|
  {
    if k == 0 then t0 else xs[k - 1].t
  }

  /**
   * The Riemann sum of `ki * e_k * (t_k - t_{k-1})` over the samples of `xs`,
   * accumulated from the last sample back, with `t0` as the time before the first.
   */
  function RiemannSum(ki: real, t0: real, xs: seq<Sample>): real
    decreases |xs|
  {
    if xs == [] then 0.0
    else
      var n := |xs| - 1;
      RiemannSum(ki, t0, xs[..n]) + ki * Error(xs[n]) * (xs[n].t - PrevTime(t0, xs, n))
  }

  /** Peeling the first sample off the sum. */
  lemma {:induction false} RiemannSumFront(ki: real, t0: real, xs: seq<Sample>)
    requires xs != []
    ensures RiemannSum(ki, t0, xs)
      == ki * Error(xs[0]) * (xs[0].t - t0) + RiemannSum(ki, xs[0].t, xs[1..])
    decreases |xs|
  {
    var n := |xs| - 1;
    if n > 0 {
      var init := xs[..n];
      RiemannSumFront(ki, t0, init);
      assert init[1..] == xs[1..][..n - 1];
      assert init[0] == xs[0];
      assert PrevTime(t0, xs, n) == PrevTime(xs[0].t, xs[1..], n - 1);
    }
  }

  /**
   * There is no anti-windup: the integral after any history is the initial
   * one plus the full Riemann sum of the gain times the error times the
   * elapsed time, over every step.
   */
  lemma {:induction false} IntegralIsRiemannSum(g: Gains, st: PidState, xs: seq<Sample>)
    ensures Run(g, st, xs).integral == st.integral + RiemannSum(g.ki, st.tPrev, xs)
    decreases |xs|
  {
    if xs != [] {
      IntegralIsRiemannSum(g, StepState(g, st, xs[0]), xs[1..]);
      RiemannSumFront(g.ki, st.tPrev, xs);
    }
  }

  /**
   * Under a constant error the integral grows linearly with the elapsed
   * time, without limit: `ki * e * (t_last - t_prev)` is added to it.
   */
  lemma {:induction false} ConstantErrorWindup(g: Gains, st: PidState, xs: seq<Sample>, e: real)
    requires xs != []
    requires forall k :: 0 <= k < |xs| ==> Error(xs[k]) == e
    ensures Run(g, st, xs).integral == st.integral + g.ki * e * (xs[|xs| - 1].t - st.tPrev)
    decreases |xs|
  {
    if |xs| > 1 {
      var rest := xs[1..];
      assert forall k :: 0 <= k < |rest| ==> Error(rest[k]) == e by {
        forall k | 0 <= k < |rest| ensures Error(rest[k]) == e {
          assert rest[k] == xs[k + 1];
        }
      }
      ConstantErrorWindup(g, StepState(g, st, xs[0]), rest, e);
      assert rest[|rest| - 1] == xs[|xs| - 1];
    }
  }

  /** With no integral gain an integral that starts at zero stays zero. */
  lemma {:induction false} NoIntegralGainNoIntegral(g: Gains, st: PidState, xs: seq<Sample>)
    requires g.ki == 0.0 && st.integral == 0.0
    ensures Run(g, st, xs).integral == 0.0
    decreases |xs|
  {
    if xs != [] {
      NoIntegralGainNoIntegral(g, StepState(g, st, xs[0]), xs[1..]);
    }
  }

  /**
   * With `Ki = Kd = 0` the output after any history from the initial state
   * is `MV_bar + Kp * (SP - PV)`: it does not depend on the history.
   */
  lemma ProportionalOnlyIgnoresHistory(g: Gains, xs: seq<Sample>, x: Sample)
    requires g.ki == 0.0 && g.kd == 0.0
    requires x.t != Run(g, InitialState, xs).tPrev
    ensures StepOutput(g, Run(g, InitialState, xs), x) == g.mvBar + g.kp * (x.sp - x.pv)
  {
    NoIntegralGainNoIntegral(g, InitialState, xs);
  }

  /** One step splits into the proportional, integral and derivative terms. */
  lemma StepTerms(g: Gains, st: PidState, x: Sample)
    requires x.t != st.tPrev
    ensures var e := x.sp - x.pv;
      var i := st.integral + g.ki * e * (x.t - st.tPrev);
      StepOutput(g, st, x) == g.mvBar + g.kp * e + i + g.kd * (e - st.ePrev) / (x.t - st.tPrev)
      && StepState(g, st, x) == PidState(e, x.t, i)
  {
  }

  /** The first step after priming measures its elapsed time from -100 and its error change from 0. */
  lemma FirstStep(g: Gains, x: Sample)
    requires x.t != -100.0
    ensures StepOutput(g, InitialState, x)
      == g.mvBar + g.kp * Error(x) + g.ki * Error(x) * (x.t + 100.0) + g.kd * Error(x) / (x.t + 100.0)
  {
  }

  /**
   * The `k`-th value the generator yields over a well-timed history is one
   * step from the state the first `k` samples leave behind.
   */
  lemma {:induction false} OutputsArePrefixSteps(g: Gains, st: PidState, xs: seq<Sample>, k: nat)
    requires WellTimed(st.tPrev, xs) && k < |xs|
    ensures xs[k].t != Run(g, st, xs[..k]).tPrev
    ensures Outputs(g, st, xs)[k] == StepOutput(g, Run(g, st, xs[..k]), xs[k])
    decreases k
  {
    if k > 0 {
      var st1 := StepState(g, st, xs[0]);
      OutputsArePrefixSteps(g, st1, xs[1..], k - 1);
      assert xs[..k][1..] == xs[1..][..k - 1];
    }
  }
}
