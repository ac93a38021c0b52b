/** The wheel-speed controller: a PID on the tracking error with a clamped output. */
module Pid {
  import opened Numeric

  datatype Gains = Gains(minVal: real, maxVal: real, kp: real, ki: real, kd: real)

  datatype State = State(integral: real, derivative: real, prevError: real)

  /** What one call works on: the setpoint and how far the measurement is from it. */
  datatype Sample = Sample(setpoint: real, error: real) {
    /** Standing still as asked: the one situation in which the history is dropped. */
    predicate Resets() {
      setpoint == 0.0 && error == 0.0
    }
  }

  function Tracking(setpoint: real, measured: real): Sample {
    Sample(setpoint, setpoint - measured)
  }

  function Fresh(): State {
    State(0.0, 0.0, 0.0)
  }

  function Next(s: State, x: Sample): State {
    if x.Resets() then State(0.0, 0.0, x.error)
    else State(s.integral + x.error, x.error - s.prevError, x.error)
  }

  /** The PID law on the state a call leaves behind, whose prevError is the call's own error. */
  function Law(g: Gains, t: State): real {
    g.kp * t.prevError + g.ki * t.integral + g.kd * t.derivative
  }

  /** The value returned by a call made in state s. */
  function Output(g: Gains, s: State, x: Sample): real {
    Constrain(Law(g, Next(s, x)), g.minVal, g.maxVal)
  }

  lemma OutputFrom(g: Gains, s: State, x: Sample, t: State)
    requires Next(s, x) == t
    ensures Output(g, s, x) == Constrain(Law(g, t), g.minVal, g.maxVal)
  {
    hide Law, Next, Constrain;
  }

  class PID {
    const gains: Gains
    var integral: real
    var derivative: real
    var prevError: real

    ghost function View(): State
      reads this
    {
      State(integral, derivative, prevError)
    }

    constructor (gains: Gains)
      ensures this.gains == gains && View() == Fresh()
    {
      this.gains := gains;
      integral, derivative, prevError := 0.0, 0.0, 0.0;
    }

    method Compute(setpoint: real, measuredValue: real) returns (output: real)
      modifies this
      ensures View() == Next(old(View()), Tracking(setpoint, measuredValue))
      ensures output == Output(gains, old(View()), Tracking(setpoint, measuredValue))
      ensures prevError == setpoint - measuredValue
    {
      hide Law, Constrain, Output;
      ghost var before := View();
      var error := setpoint - measuredValue;
      integral := integral + error;
      derivative := error - prevError;
      if setpoint == 0.0 && error == 0.0 {
        integral := 0.0;
        derivative := 0.0;
      }
      var pid := Law(gains, State(integral, derivative, error));
      prevError := error;
      output := Constrain(pid, gains.minVal, gains.maxVal);
      OutputFrom(gains, before, Tracking(setpoint, measuredValue), State(integral, derivative, error));
    }
  }

  // ---------------------------------------------------------------------------------------------
  // The output in closed form over the whole history
  // ---------------------------------------------------------------------------------------------

  function Run(h: seq<Sample>): State {
    if h == [] then Fresh() else Next(Run(h[..|h| - 1]), h[|h| - 1])
  }

  function SumOfErrors(h: seq<Sample>): real {
    if h == [] then 0.0 else SumOfErrors(h[..|h| - 1]) + h[|h| - 1].error
  }

  /** Call k is the first one after the most recent reset, or the very first one. */
  ghost predicate SinceReset(h: seq<Sample>, k: nat) {
    && k <= |h|
    && (k > 0 ==> h[k - 1].Resets())
    && forall i :: k <= i < |h| ==> !h[i].Resets()
  }

  function PreviousError(h: seq<Sample>): real {
    if |h| < 2 then 0.0 else h[|h| - 2].error
  }

  lemma SinceResetBefore(h: seq<Sample>, k: nat)
    requires SinceReset(h, k) && k < |h|
    ensures SinceReset(h[..|h| - 1], k) && !h[|h| - 1].Resets()
    ensures h[k..] == h[..|h| - 1][k..] + [h[|h| - 1]]
  {
  }

  lemma SumOfErrorsAppend(h: seq<Sample>, x: Sample)
    ensures SumOfErrors(h + [x]) == SumOfErrors(h) + x.error
  {
    assert (h + [x])[..|h + [x]| - 1] == h;
  }

  lemma {:induction false} IntegralSinceReset(h: seq<Sample>, k: nat)
    requires SinceReset(h, k)
    ensures Run(h).integral == SumOfErrors(h[k..])
  {
    if k == |h| {
    } else {
      SinceResetBefore(h, k);
      IntegralSinceReset(h[..|h| - 1], k);
      SumOfErrorsAppend(h[..|h| - 1][k..], h[|h| - 1]);
    }
  }

  lemma PrevErrorOfRun(h: seq<Sample>)
    ensures Run(h).prevError == if h == [] then 0.0 else h[|h| - 1].error
  {
  }

  lemma LawOfZero(g: Gains)
    ensures Law(g, Fresh()) == 0.0
  {
  }

  /** The textbook law on a history whose last reset ended at call k: proportional to the last error,
      to the errors summed since then, and to the last change of the error; zero on a reset call. */
  function TextbookLaw(g: Gains, h: seq<Sample>, k: nat): real
    requires h != [] && k <= |h|
  {
    var last := h[|h| - 1];
    if last.Resets() then 0.0
    else g.kp * last.error + g.ki * SumOfErrors(h[k..]) + g.kd * (last.error - PreviousError(h))
  }

  lemma LawOnHistory(g: Gains, h: seq<Sample>, k: nat)
    requires h != [] && k <= |h| && !h[|h| - 1].Resets()
    ensures Law(g, State(SumOfErrors(h[k..]), h[|h| - 1].error - PreviousError(h), h[|h| - 1].error))
            == TextbookLaw(g, h, k)
  {
  }

  /** After any history the output is the clamped textbook law. */
  lemma {:induction false} ClosedForm(g: Gains, h: seq<Sample>, k: nat)
    requires h != [] && SinceReset(h, k)
    ensures Output(g, Run(h[..|h| - 1]), h[|h| - 1]) == Constrain(TextbookLaw(g, h, k), g.minVal, g.maxVal)
  {
    hide Law, Constrain, SumOfErrors;
    var prefix, last := h[..|h| - 1], h[|h| - 1];
    if last.Resets() {
      LawOfZero(g);
      assert TextbookLaw(g, h, k) == 0.0;
    } else {
      IntegralSinceReset(h, k);
      PrevErrorOfRun(prefix);
      LawOnHistory(g, h, k);
      assert Next(Run(prefix), last) == State(SumOfErrors(h[k..]), last.error - PreviousError(h), last.error);
    }
  }

  lemma OutputIsBounded(g: Gains, s: State, x: Sample)
    requires g.minVal <= g.maxVal
    ensures g.minVal <= Output(g, s, x) <= g.maxVal
  {
    hide Law;
  }

  lemma NextOnReset(s: State)
    ensures Next(s, Tracking(0.0, 0.0)) == Fresh()
  {
  }

  /** A wheel that is asked to stand still and does gets no drive, whatever was wound up before. */
  lemma StandingStillGivesZero(g: Gains, s: State)
    requires g.minVal <= 0.0 <= g.maxVal
    ensures Output(g, s, Tracking(0.0, 0.0)) == 0.0
  {
    hide Law, Next, Output;
    LawOfZero(g);
    NextOnReset(s);
    OutputFrom(g, s, Tracking(0.0, 0.0), Fresh());
  }

  /** A controller that starts with its wheel at the asked speed, whatever that is, asks for nothing. */
  lemma OnTargetGivesZero(g: Gains, speed: real)
    requires g.minVal <= 0.0 <= g.maxVal
    ensures Output(g, Fresh(), Tracking(speed, speed)) == 0.0
  {
    hide Law, Output;
    LawOfZero(g);
    assert Next(Fresh(), Tracking(speed, speed)) == Fresh();
    OutputFrom(g, Fresh(), Tracking(speed, speed), Fresh());
  }

  /** The setpoints of a history are speeds the base can ask for; measured speeds are arbitrary. */
  predicate WithinLimit(h: seq<Sample>, limit: real) {
    forall i :: 0 <= i < |h| ==> Abs(h[i].setpoint) <= limit
  }

  /** No history makes the controller drive a wheel that turns at speed m and is asked to stop. */
  ghost predicate AlwaysReleases(g: Gains, limit: real, m: real) {
    forall h :: WithinLimit(h, limit) ==> Output(g, Run(h), Tracking(0.0, m)) == 0.0
  }

  lemma NothingAsked(limit: real)
    ensures WithinLimit([], limit)
  {
  }

  lemma OneCall(x: Sample)
    ensures Run([x]) == Next(Fresh(), x)
  {
    assert [x][..0] == [];
  }

  lemma RunAppend(h: seq<Sample>, x: Sample)
    ensures Run(h + [x]) == Next(Run(h), x)
  {
    assert (h + [x])[..|h + [x]| - 1] == h;
  }

  /** With integral or derivative action, a history can be found after which a stop call at speed m
      asks for any drive whatever. */
  lemma WindUp(g: Gains, limit: real, m: real, drive: real) returns (h: seq<Sample>)
    requires limit > 0.0 && m != 0.0 && (g.ki != 0.0 || g.kd != 0.0)
    ensures WithinLimit(h, limit) && Law(g, Next(Run(h), Tracking(0.0, m))) == drive
  {
    var base := g.kp * -m + g.ki * -m + g.kd * -m;
    if g.ki != 0.0 {
      var e := (drive - base) / g.ki;
      h := [Sample(limit, e)] + [Sample(limit, 0.0)];
      OneCall(Sample(limit, e));
      RunAppend([Sample(limit, e)], Sample(limit, 0.0));
      assert Next(Run(h), Tracking(0.0, m)) == State(e - m, -m, -m);
      DivMul(drive - base, g.ki);
      assert g.ki * (e - m) == e * g.ki + g.ki * -m;
    } else {
      var e := (base - drive) / g.kd;
      h := [Sample(limit, e)];
      OneCall(Sample(limit, e));
      assert Next(Run(h), Tracking(0.0, m)) == State(e - m, -m - e, -m);
      DivMul(base - drive, g.kd);
      assert g.kd * (-m - e) == g.kd * -m - e * g.kd;
    }
  }

  /** What a purely proportional controller answers to a wheel that turns at speed m and should stand. */
  function ProportionalAnswer(g: Gains, m: real): real {
    Constrain(g.kp * -m, g.minVal, g.maxVal)
  }

  /** Without integral and derivative action the history does not matter. */
  lemma ProportionalOnly(g: Gains, s: State, m: real)
    requires g.ki == 0.0 && g.kd == 0.0 && m != 0.0
    ensures Output(g, s, Tracking(0.0, m)) == ProportionalAnswer(g, m)
  {
  }

  lemma ProductZeroIff(a: real, b: real)
    requires b != 0.0
    ensures a * -b == 0.0 <==> a == 0.0
  {
    MulDiv(a, -b);
  }

  lemma ProportionalAnswerIsZeroIff(g: Gains, m: real)
    requires g.minVal <= 0.0 <= g.maxVal
    ensures g.minVal < 0.0 < g.maxVal ==> (ProportionalAnswer(g, m) == 0.0 <==> m == 0.0 || g.kp == 0.0)
  {
    if m != 0.0 {
      ProductZeroIff(g.kp, m);
    } else {
      assert g.kp * -m == 0.0;
    }
  }

  /** There is no anti-windup: a zero setpoint takes the drive away in every history if and only if
      the wheel stands still, the limits leave no drive at all, or the controller is purely
      proportional and answers the remaining speed with nothing. */
  lemma ZeroSetpointReleasesIff(g: Gains, limit: real, m: real)
    requires g.minVal <= 0.0 <= g.maxVal && limit > 0.0
    ensures AlwaysReleases(g, limit, m)
            <==> m == 0.0 || g.minVal == g.maxVal || (g.ki == 0.0 && g.kd == 0.0 && ProportionalAnswer(g, m) == 0.0)
    ensures g.minVal < 0.0 < g.maxVal ==> (ProportionalAnswer(g, m) == 0.0 <==> m == 0.0 || g.kp == 0.0)
  {
    hide Law, Next, Run, Output, ProportionalAnswer, WithinLimit;
    ProportionalAnswerIsZeroIff(g, m);
    if m == 0.0 {
      forall h: seq<Sample>
        ensures Output(g, Run(h), Tracking(0.0, m)) == 0.0
      {
        StandingStillGivesZero(g, Run(h));
      }
    } else if g.minVal == g.maxVal {
      forall h: seq<Sample>
        ensures Output(g, Run(h), Tracking(0.0, m)) == 0.0
      {
        OutputIsBounded(g, Run(h), Tracking(0.0, m));
      }
    } else if g.ki != 0.0 || g.kd != 0.0 {
      var h := WindUp(g, limit, m, if g.maxVal > 0.0 then g.maxVal else g.minVal);
      OutputFrom(g, Run(h), Tracking(0.0, m), Next(Run(h), Tracking(0.0, m)));
    } else {
      forall h: seq<Sample>
        ensures Output(g, Run(h), Tracking(0.0, m)) == ProportionalAnswer(g, m)
      {
        ProportionalOnly(g, Run(h), m);
      }
      NothingAsked(limit);
    }
  }
}
