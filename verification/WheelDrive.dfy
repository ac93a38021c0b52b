/** What a whole run of ticks leaves on a wheel's motor. */
module WheelDrive {
  import opened Numeric
  import opened ControlLoop
  import opened TickRuns
  import C = ControlCore
  import E = Encoder
  import K = Kinematics
  import Motor
  import Pid

  /** Which side of the base a wheel is on: left -1, right 1. */
  function Side(w: nat): real {
    if w % 2 == 0 then -1.0 else 1.0
  }

  /** Which way the rollers of a mecanum wheel turn sideways motion: front left and rear right -1. */
  function Rollers(w: nat): real {
    if w == 0 || w == 3 then -1.0 else 1.0
  }

  lemma UnitFactor(a: real)
    ensures 1.0 * a == a && -1.0 * a == -a
  {
  }

  /** The rpm at which wheel w of a rigid body moving as commanded rolls along. */
  function RigidRpm(kin: K.Kinematics, cmd: Command, w: nat): real
    requires kin.Valid()
  {
    var sideways := if kin.base == K.Mecanum then cmd.y else 0.0;
    (cmd.x + Rollers(w) * sideways + Side(w) * (cmd.wz * (kin.wheelsYDistance / 2.0))) * 60.0 / kin.wheelCircumference
  }

  function OfWheel(r: K.Rpm, w: nat): real
    requires w < 4
  {
    [r.motor1, r.motor2, r.motor3, r.motor4][w]
  }

  lemma RigidBodyOfWheel(kin: K.Kinematics, cmd: Command, w: nat)
    requires kin.Valid() && w < 4
    ensures OfWheel(K.RigidBody(kin, cmd.x, if kin.base == K.Mecanum then cmd.y else 0.0, cmd.wz), w)
            == RigidRpm(kin, cmd, w)
  {
    UnitFactor(if kin.base == K.Mecanum then cmd.y else 0.0);
    UnitFactor(cmd.wz * (kin.wheelsYDistance / 2.0));
  }

  /** Every wheel is asked, in its own place, for what a rigid body would have it do: slowed down like
      all others, or, if sideways motion and rotation combine on a mecanum base, cut off at the limit
      by itself. A command that fits is asked for as it is. */
  lemma TargetsFollowTheRigidBody(kin: K.Kinematics, cmd: Command, w: nat)
    requires kin.Valid() && w < 4
    ensures var d := kin.Usable(cmd.x, cmd.y, cmd.wz);
            var rpm, target := RigidRpm(kin, cmd, w), C.Targets(kin, cmd)[w];
            && target == (if kin.base != K.Mecanum || cmd.y == 0.0 || cmd.wz == 0.0 then K.Slowdown(kin.maxRpm, d) * rpm
                          else Constrain(rpm, -kin.maxRpm, kin.maxRpm))
            && (d.Sum() <= kin.maxRpm ==> target == rpm)
  {
    hide K.Kinematics.GetRpm, K.Kinematics.Wanted, K.RigidBody, RigidRpm, Constrain, K.Demand.Sum, K.Slowdown, K.Mixed;
    var sideways := if kin.base == K.Mecanum then cmd.y else 0.0;
    RigidBodyOfWheel(kin, cmd, w);
    K.WheelsFollowTheRigidBody(kin, cmd.x, cmd.y, cmd.wz);
  }

  /** What the controller of wheel w works on in a tick. */
  function TrackingIn(cfg: Config, s: State, x: Input, w: nat): Pid.Sample
    requires cfg.Valid() && s.Valid() && x.Valid() && w < 4
  {
    Pid.Tracking(C.Targets(cfg.core.kin, x.target)[w],
                 Measured(cfg, s, Registers(cfg, x.counts), U32(x.nowUs))[w])
  }

  function History(cfg: Config, s: State, ins: seq<Input>, w: nat): (h: seq<Pid.Sample>)
    requires cfg.Valid() && s.Valid() && AllValid(ins) && w < 4
    ensures |h| == |ins|
  {
    if ins == [] then []
    else History(cfg, s, ins[..|ins| - 1], w) + [TrackingIn(cfg, Ran(cfg, s, ins[..|ins| - 1]), ins[|ins| - 1], w)]
  }

  lemma TargetsWithinLimit(kin: K.Kinematics, cmd: Command, w: nat)
    requires kin.Valid() && w < 4
    ensures Abs(C.Targets(kin, cmd)[w]) <= kin.maxRpm
  {
    hide K.Kinematics.Wanted, K.Kinematics.Scaled;
  }

  /** No run asks a wheel for more than the base's speed limit. */
  lemma {:induction false} HistoryWithinLimit(cfg: Config, s: State, ins: seq<Input>, w: nat)
    requires cfg.Valid() && s.Valid() && AllValid(ins) && w < 4
    ensures Pid.WithinLimit(History(cfg, s, ins, w), cfg.core.kin.maxRpm)
  {
    hide Ran, Measured, C.Targets;
    if ins == [] {
    } else {
      HistoryWithinLimit(cfg, s, ins[..|ins| - 1], w);
      TargetsWithinLimit(cfg.core.kin, ins[|ins| - 1].target, w);
    }
  }

  // ---------------------------------------------------------------------------------------------
  // The history of a wheel in commands and raw counters
  // ---------------------------------------------------------------------------------------------

  /** The rpm wheel w truly made up to tick i of a run; none is known of the first tick, of a wheel
      without an encoder, and of a tick at the very time of the one before. */
  function TrueRpm(cfg: Config, ins: seq<Input>, w: nat, i: nat): real
    requires cfg.Valid() && AllValid(ins) && w < 4 && i < |ins|
  {
    if i == 0 || cfg.enc[w].cpr <= 0 || ins[i].nowUs == ins[i - 1].nowUs then 0.0
    else
      Revolutions(cfg, w, ins[i].counts[w] - ins[i - 1].counts[w])
      / ((ins[i].nowUs - ins[i - 1].nowUs) as real / 60000000.0)
  }

  /** What the controller of wheel w has to correct: the error is the target less the true speed. */
  function TrueHistory(cfg: Config, ins: seq<Input>, w: nat): (h: seq<Pid.Sample>)
    requires cfg.Valid() && AllValid(ins) && w < 4
    ensures |h| == |ins|
  {
    if ins == [] then []
    else
      var target := C.Targets(cfg.core.kin, ins[|ins| - 1].target)[w];
      TrueHistory(cfg, ins[..|ins| - 1], w) + [Pid.Sample(target, target - TrueRpm(cfg, ins, w, |ins| - 1))]
  }

  ghost predicate WheelFollowsAt(cfg: Config, ins: seq<Input>, w: nat, i: int)
    requires cfg.Valid() && AllValid(ins) && w < 4 && 0 < i < |ins|
  {
    && 0 <= ins[i].nowUs - ins[i - 1].nowUs < TWO32
    && E.Representable(cfg.enc[w], ins[i].counts[w] - ins[i - 1].counts[w])
  }

  /** Between two ticks neither the microsecond clock nor the counter of wheel w moves further than it
      can show. */
  ghost predicate WheelFollows(cfg: Config, ins: seq<Input>, w: nat)
    requires cfg.Valid() && AllValid(ins) && w < 4
  {
    forall i :: 0 < i < |ins| ==> WheelFollowsAt(cfg, ins, w, i)
  }

  lemma NoTimeNoSpeed(cfg: Config, s: State, x: Input, w: nat)
    requires cfg.Valid() && s.Valid() && x.Valid() && w < 4
    requires cfg.enc[w].cpr <= 0 || s.enc[w].prevUs == U32(x.nowUs)
    ensures Measured(cfg, s, Registers(cfg, x.counts), U32(x.nowUs))[w] == 0.0
  {
    hide E.Rpm, E.Register;
    E.NoTimeNoSpeed(cfg.enc[w], s.enc[w], E.Register(cfg.enc[w], x.counts[w]), U32(x.nowUs));
  }

  lemma RanNothing(cfg: Config, s: State)
    requires cfg.Valid() && s.Valid()
    ensures Ran(cfg, s, []) == s
  {
  }

  lemma RemembersTime(cfg: Config, s: State, x: Input, w: nat)
    requires cfg.Valid() && s.Valid() && x.Valid() && w < 4 && WheelRemembers(cfg, s, x, w)
    ensures s.enc[w].prevUs == U32(x.nowUs)
  {
  }

  /** The speed that the controller is given is the true one. */
  lemma MeasuredIsTrue(cfg: Config, s: State, ins: seq<Input>, w: nat)
    requires cfg.Valid() && s.Valid() && AllValid(ins) && w < 4 && ins != []
    requires FreshEncoders(s) && WheelFollows(cfg, ins, w)
    ensures var x := ins[|ins| - 1];
            Measured(cfg, Ran(cfg, s, ins[..|ins| - 1]), Registers(cfg, x.counts), U32(x.nowUs))[w]
            == TrueRpm(cfg, ins, w, |ins| - 1)
  {
    hide Ran, E.Rpm, E.Register, E.Representable, Revolutions, WheelRemembers, FreshEncoders;
    var n := |ins| - 1;
    var before, y := ins[..n], ins[n];
    var t := Ran(cfg, s, before);
    if n == 0 {
      assert t == s by { RanNothing(cfg, s); }
      SeedingReadings(cfg, s, y);
    } else if cfg.enc[w].cpr <= 0 {
      NoTimeNoSpeed(cfg, t, y, w);
    } else {
      assert WheelFollowsAt(cfg, ins, w, n);
      LastTickRemembers(cfg, s, before);
      assert WheelRemembers(cfg, t, ins[n - 1], w);
      if y.nowUs == ins[n - 1].nowUs {
        RemembersTime(cfg, t, ins[n - 1], w);
        NoTimeNoSpeed(cfg, t, y, w);
      } else {
        RpmOfChange(cfg, t, ins[n - 1], y, w);
      }
    }
  }

  lemma ShorterFollows(cfg: Config, ins: seq<Input>, w: nat)
    requires cfg.Valid() && AllValid(ins) && w < 4 && ins != [] && WheelFollows(cfg, ins, w)
    ensures WheelFollows(cfg, ins[..|ins| - 1], w)
  {
    var before := ins[..|ins| - 1];
    forall i | 0 < i < |before|
      ensures WheelFollowsAt(cfg, before, w, i)
    {
      assert WheelFollowsAt(cfg, ins, w, i);
    }
  }

  /** A wheel's controller works on the commanded targets and the true speeds, whatever the wraps of
      counters and timers. */
  lemma {:induction false} HistoryIsTrue(cfg: Config, s: State, ins: seq<Input>, w: nat)
    requires cfg.Valid() && s.Valid() && AllValid(ins) && w < 4
    requires FreshEncoders(s) && WheelFollows(cfg, ins, w)
    ensures History(cfg, s, ins, w) == TrueHistory(cfg, ins, w)
  {
    hide Ran, Measured, C.Targets, TrueRpm, FreshEncoders, WheelFollows;
    if ins == [] {
    } else {
      ShorterFollows(cfg, ins, w);
      HistoryIsTrue(cfg, s, ins[..|ins| - 1], w);
      MeasuredIsTrue(cfg, s, ins, w);
    }
  }

  lemma TickDrivesWheel(cfg: Config, s: State, x: Input, w: nat)
    requires cfg.Valid() && s.Valid() && x.Valid() && w < 4
    ensures Ticked(cfg, s, x).core.wheels[w] == C.Driven(cfg.core.wheels[w], s.core.wheels[w], TrackingIn(cfg, s, x, w))
  {
    hide C.Driven, C.Targets, Measured, E.Updated;
  }

  /** The controller of a driven wheel is where its history takes it. */
  lemma {:induction false} ControllerFollowsHistory(cfg: Config, s: State, ins: seq<Input>, w: nat)
    requires cfg.Valid() && s.Valid() && AllValid(ins) && w < 4 && cfg.core.wheels[w].driven
    requires s.core.wheels[w].pid == Pid.Fresh()
    ensures Ran(cfg, s, ins).core.wheels[w].pid == Pid.Run(History(cfg, s, ins, w))
  {
    hide Ticked, TrackingIn, Pid.Next, Motor.Spun, Pid.Output;
    if ins == [] {
    } else {
      var before := ins[..|ins| - 1];
      ControllerFollowsHistory(cfg, s, before, w);
      TickDrivesWheel(cfg, Ran(cfg, s, before), ins[|ins| - 1], w);
      var h := History(cfg, s, ins, w);
      assert h[..|h| - 1] == History(cfg, s, before, w);
    }
  }

  ghost predicate Exclusive(r: Motor.Regs) {
    !(r.pinA && r.pinB)
  }

  lemma {:induction false} PinsStayExclusive(cfg: Config, s: State, ins: seq<Input>, w: nat)
    requires cfg.Valid() && s.Valid() && AllValid(ins) && w < 4
    requires Exclusive(s.core.wheels[w].regs)
    ensures Exclusive(Ran(cfg, s, ins).core.wheels[w].regs)
  {
    hide Ticked, TrackingIn, Pid.Output;
    if ins == [] {
    } else {
      var before := ins[..|ins| - 1];
      PinsStayExclusive(cfg, s, before, w);
      var t := Ran(cfg, s, before);
      TickDrivesWheel(cfg, t, ins[|ins| - 1], w);
      var c := cfg.core.wheels[w];
      Motor.SpunRegisters(c.motor, t.core.wheels[w].regs,
                          Trunc(Pid.Output(c.gains, t.core.wheels[w].pid, TrackingIn(cfg, t, ins[|ins| - 1], w))));
    }
  }

  /** The clamped law as the motor has to show it, turned around where it is wired inverted. */
  function Shown(c: C.WheelConfig, law: real): real {
    var output := Constrain(law, c.gains.minVal, c.gains.maxVal);
    if c.motor.invert then -output else output
  }

  lemma DutyNearLaw(c: C.WheelConfig, law: real)
    ensures var output := Constrain(law, c.gains.minVal, c.gains.maxVal);
            Abs(C.Inverted(c.motor, Trunc(output)) as real - Shown(c, law)) < 1.0
  {
    hide Constrain, Trunc;
    TruncTowardZero(Constrain(law, c.gains.minVal, c.gains.maxVal));
  }

  /** From command history to the pins: after any run the duty on a wheel is the truncated, clamped
      PID law over the wheel's whole history since its controller's last reset, turned around where
      the motor is wired inverted, and so less than one step off that law; no register overflows and
      the pins exclude each other. While clock and counter can show every change, that history is
      the commanded targets less the true speeds. */
  lemma DutyInClosedForm(cfg: Config, s: State, ins: seq<Input>, w: nat, k: nat)
    requires cfg.Valid() && s.Valid() && AllValid(ins) && ins != [] && w < 4
    requires var c := cfg.core.wheels[w]; c.driven && c.motor.used && C.FitsRegister(c)
    requires s.core.wheels[w].pid == Pid.Fresh() && Exclusive(s.core.wheels[w].regs)
    requires Pid.SinceReset(History(cfg, s, ins, w), k)
    ensures var c := cfg.core.wheels[w];
            var law := Pid.TextbookLaw(c.gains, History(cfg, s, ins, w), k);
            var regs := Ran(cfg, s, ins).core.wheels[w].regs;
            && C.SignedDutyIs(regs, C.Inverted(c.motor, Trunc(Constrain(law, c.gains.minVal, c.gains.maxVal))))
            && Abs(Motor.SignedDuty(regs) as real - Shown(c, law)) < 1.0
            && regs.ccr <= c.motor.arr
            && Exclusive(regs)
    ensures FreshEncoders(s) && WheelFollows(cfg, ins, w) ==>
              History(cfg, s, ins, w) == TrueHistory(cfg, ins, w)
  {
    hide Ticked, TrackingIn, Pid.Output, Pid.TextbookLaw, Pid.Next, Motor.Spun, Motor.SignedDuty;
    hide Constrain, Trunc, Shown, Abs;
    var before := ins[..|ins| - 1];
    var t := Ran(cfg, s, before);
    var c := cfg.core.wheels[w];
    var h := History(cfg, s, ins, w);
    var x := TrackingIn(cfg, t, ins[|ins| - 1], w);
    assert h[..|h| - 1] == History(cfg, s, before, w) && h[|h| - 1] == x;
    ControllerFollowsHistory(cfg, s, before, w);
    PinsStayExclusive(cfg, s, before, w);
    TickDrivesWheel(cfg, t, ins[|ins| - 1], w);
    C.DutyIsTheTruncatedOutput(c, t.core.wheels[w], x);
    Pid.ClosedForm(c.gains, h, k);
    DutyNearLaw(c, Pid.TextbookLaw(c.gains, h, k));
    if FreshEncoders(s) && WheelFollows(cfg, ins, w) {
      HistoryIsTrue(cfg, s, ins, w);
    }
  }

  /** The encoder of wheel w has nothing to report: it has not moved, or is not in use or not seeded. */
  ghost predicate Still(cfg: Config, s: State, x: Input, w: nat)
    requires cfg.Valid() && s.Valid() && x.Valid() && w < 4
  {
    || cfg.enc[w].cpr <= 0
    || s.enc[w].first
    || s.enc[w].prevCnt == E.Register(cfg.enc[w], x.counts[w])
  }

  lemma StillWheelReportsZero(cfg: Config, s: State, x: Input, w: nat)
    requires cfg.Valid() && s.Valid() && x.Valid() && w < 4 && Still(cfg, s, x, w)
    ensures Measured(cfg, s, Registers(cfg, x.counts), U32(x.nowUs))[w] == 0.0
  {
    E.UnmovedCounterReportsZero(cfg.enc[w], s.enc[w], U32(x.nowUs));
    hide E.Delta, E.Register;
  }

  lemma TrackingZero(cfg: Config, s: State, x: Input, w: nat)
    requires cfg.Valid() && s.Valid() && x.Valid() && w < 4
    requires x.target == C.STOP
    requires cfg.core.kin.GetRpm(0.0, 0.0, 0.0) == K.Rpm(0.0, 0.0, 0.0, 0.0)
    requires Measured(cfg, s, Registers(cfg, x.counts), U32(x.nowUs))[w] == 0.0
    ensures TrackingIn(cfg, s, x, w) == Pid.Tracking(0.0, 0.0)
  {
    hide Measured, K.Kinematics.GetRpm;
  }

  /** On a tick whose command is a stop, a wheel that stands still is left without drive, whatever
      its controller wound up before and whatever the gains are. */
  lemma StopReleasesStandingWheel(cfg: Config, s: State, x: Input, w: nat)
    requires cfg.Valid() && s.Valid() && x.Valid() && w < 4
    requires var c := cfg.core.wheels[w]; c.driven && c.motor.used && c.gains.minVal <= 0.0 <= c.gains.maxVal
    requires x.target == C.STOP && Still(cfg, s, x, w)
    ensures Ticked(cfg, s, x).core.wheels[w].regs.ccr == 0
  {
    hide Ticked, Measured, Still, C.Driven;
    StillWheelReportsZero(cfg, s, x, w);
    K.ZeroCommandStopsTheWheels(cfg.core.kin);
    TickDrivesWheel(cfg, s, x, w);
    TrackingZero(cfg, s, x, w);
    C.StandingWheelIsReleased(cfg.core.wheels[w], s.core.wheels[w]);
  }

  // ---------------------------------------------------------------------------------------------
  // A stop that does not stop: a run of the board
  // ---------------------------------------------------------------------------------------------

  /** A command of 50 rpm straight ahead. */
  function FiftyRpm(kin: K.Kinematics): Command {
    C.Command(kin.wheelCircumference * 50.0 / 60.0, 0.0, 0.0)
  }

  /** Three ticks in which the base is blocked although it is told to go, and a fourth, stopped one in
      which wheel 0 turns by 480 counts in 20 ms. */
  function BlockedThenStopped(kin: K.Kinematics): seq<Input> {
    var go := FiftyRpm(kin);
    [Input(0, go, [0, 0, 0, 0], 0)] + [Input(20, go, [0, 0, 0, 0], 20000)]
    + [Input(40, go, [0, 0, 0, 0], 40000)] + [Input(60, C.STOP, [480, 0, 0, 0], 60000)]
  }

  lemma FiftyRpmIsWanted(kin: K.Kinematics, x: real)
    requires kin.Valid() && x == FiftyRpm(kin).x
    ensures kin.Usable(x, 0.0, 0.0) == K.Demand(50.0, 0.0, 0.0)
  {
    hide K.Kinematics.Wanted;
    K.UsableIsWanted(kin, x, 0.0, 0.0);
    K.WantedIsZeroIff(kin, x, 0.0, 0.0);
    K.RimSpeedOfWanted(kin, x, 0.0, 0.0);
    K.SameFactor(kin.Wanted(x, 0.0, 0.0).x, 50.0, kin.wheelCircumference);
  }

  lemma TargetOfFifty(kin: K.Kinematics)
    requires kin.Valid() && kin.maxRpm >= 50.0
    ensures C.Targets(kin, FiftyRpm(kin))[0] == 50.0
  {
    hide K.Kinematics.GetRpm, K.Kinematics.Usable;
    var x := FiftyRpm(kin).x;
    FiftyRpmIsWanted(kin, x);
    K.FittingDemandIsMixed(kin, x, 0.0, 0.0);
  }

  lemma TargetOfStop(kin: K.Kinematics)
    requires kin.Valid()
    ensures C.Targets(kin, C.STOP)[0] == 0.0
  {
    hide K.Kinematics.GetRpm;
    K.ZeroCommandStopsTheWheels(kin);
  }

  lemma RunAppend(cfg: Config, s: State, ins: seq<Input>, x: Input, w: nat)
    requires cfg.Valid() && s.Valid() && AllValid(ins) && x.Valid() && w < 4
    ensures AllValid(ins + [x])
    ensures Ran(cfg, s, ins + [x]) == Ticked(cfg, Ran(cfg, s, ins), x)
    ensures History(cfg, s, ins + [x], w) == History(cfg, s, ins, w) + [TrackingIn(cfg, Ran(cfg, s, ins), x, w)]
  {
    hide Ticked, TrackingIn;
    assert (ins + [x])[..|ins + [x]| - 1] == ins;
  }

  /** A tick on which wheel 0 has nothing to report and 50 rpm are asked for. */
  lemma BlockedTick(cfg: Config, s: State, x: Input)
    requires cfg.Valid() && s.Valid() && x.Valid() && cfg.core.kin.maxRpm >= 50.0
    requires x.target == FiftyRpm(cfg.core.kin) && Still(cfg, s, x, 0)
    ensures TrackingIn(cfg, s, x, 0) == Pid.Tracking(50.0, 0.0)
  {
    hide Measured, Still, C.Targets, FiftyRpm;
    TargetOfFifty(cfg.core.kin);
    StillWheelReportsZero(cfg, s, x, 0);
  }

  ghost predicate BoardWheel(cfg: Config) {
    && cfg.Valid() && cfg.core.kin.maxRpm >= 50.0
    && cfg.enc[0].cpr == 144000 && !cfg.enc[0].invert
    && var c := cfg.core.wheels[0];
       c.driven && c.gains == Pid.Gains(-1023.0, 1023.0, 0.6, 0.8, 0.5) && c.motor == Motor.Config(false, true, 1023)
  }

  lemma TenRpm(cfg: Config)
    requires BoardWheel(cfg)
    ensures Revolutions(cfg, 0, 480) / (20000 as real / 60000000.0) == 10.0
  {
  }

  lemma TurningTick(cfg: Config, s: State, x: Input, y: Input)
    requires BoardWheel(cfg) && s.Valid() && x.Valid() && y.Valid() && WheelRemembers(cfg, s, x, 0)
    requires y.target == C.STOP && y.counts[0] - x.counts[0] == 480 && y.nowUs - x.nowUs == 20000
    ensures TrackingIn(cfg, s, y, 0) == Pid.Tracking(0.0, 10.0)
  {
    hide WheelRemembers, C.Targets, E.Rpm, E.Register, Revolutions;
    TargetOfStop(cfg.core.kin);
    RpmOfChange(cfg, s, x, y, 0);
    TenRpm(cfg);
  }

  lemma StandsStill(cfg: Config, s: State, ins: seq<Input>, x: Input, y: Input)
    requires BoardWheel(cfg) && s.Valid() && AllValid(ins) && y.Valid()
    requires ins != [] && ins[|ins| - 1] == x && y.counts[0] == x.counts[0]
    ensures WheelRemembers(cfg, Ran(cfg, s, ins), x, 0) && Still(cfg, Ran(cfg, s, ins), y, 0)
  {
    hide Ran, E.Register;
    LastTickRemembers(cfg, s, ins);
  }

  lemma BlockedThenStoppedHistory(cfg: Config, s: State)
    requires BoardWheel(cfg) && s.Valid() && FreshEncoders(s)
    ensures var ins := BlockedThenStopped(cfg.core.kin);
            && AllValid(ins)
            && History(cfg, s, ins, 0)
               == [Pid.Tracking(50.0, 0.0), Pid.Tracking(50.0, 0.0), Pid.Tracking(50.0, 0.0), Pid.Tracking(0.0, 10.0)]
  {
    hide FiftyRpm, Ticked, TrackingIn, WheelRemembers, Pid.Tracking;
    var go := FiftyRpm(cfg.core.kin);
    var a, b := Input(0, go, [0, 0, 0, 0], 0), Input(20, go, [0, 0, 0, 0], 20000);
    var c, d := Input(40, go, [0, 0, 0, 0], 40000), Input(60, C.STOP, [480, 0, 0, 0], 60000);
    assert [] + [a] == [a];
    RunAppend(cfg, s, [], a, 0);
    RunAppend(cfg, s, [a], b, 0);
    RunAppend(cfg, s, [a] + [b], c, 0);
    RunAppend(cfg, s, [a] + [b] + [c], d, 0);
    BlockedTick(cfg, s, a);
    StandsStill(cfg, s, [a], a, b);
    BlockedTick(cfg, Ran(cfg, s, [a]), b);
    StandsStill(cfg, s, [a] + [b], b, c);
    BlockedTick(cfg, Ran(cfg, s, [a] + [b]), c);
    StandsStill(cfg, s, [a] + [b] + [c], c, c);
    TurningTick(cfg, Ran(cfg, s, [a] + [b] + [c]), c, d);
  }

  lemma LawIs76(g: Pid.Gains, h: seq<Pid.Sample>)
    requires g == Pid.Gains(-1023.0, 1023.0, 0.6, 0.8, 0.5)
    requires h == [Pid.Tracking(50.0, 0.0), Pid.Tracking(50.0, 0.0), Pid.Tracking(50.0, 0.0), Pid.Tracking(0.0, 10.0)]
    ensures Pid.SinceReset(h, 0) && Pid.TextbookLaw(g, h, 0) == 76.0
    ensures Trunc(Constrain(76.0, g.minVal, g.maxVal)) == 76
  {
    assert h[0..] == h;
    assert h[..3][..2] == h[..2] && h[..2][..1] == h[..1] && h[..1][..0] == [];
    assert Pid.SumOfErrors(h[..1]) == 50.0;
    assert Pid.SumOfErrors(h[..2]) == 100.0;
    assert Pid.SumOfErrors(h[..3]) == 150.0;
    assert Pid.SumOfErrors(h) == 140.0;
  }

  /** A stop at speed may leave the drive on: after being blocked for three ticks, a wheel of the board
      that turns at 10 rpm ends its first stopped tick driven forward at duty 76. */
  lemma StopMayLeaveDrive(cfg: Config, s: State)
    requires BoardWheel(cfg) && s.Valid() && FreshEncoders(s)
    requires s.core.wheels[0].pid == Pid.Fresh() && Exclusive(s.core.wheels[0].regs)
    ensures var ins := BlockedThenStopped(cfg.core.kin);
            && AllValid(ins) && ins[3].target == C.STOP
            && Motor.SignedDuty(Ran(cfg, s, ins).core.wheels[0].regs) == 76
            && Ran(cfg, s, ins).core.wheels[0].regs.ccr == 76
  {
    hide Ran, History, FiftyRpm, FreshEncoders;
    var ins := BlockedThenStopped(cfg.core.kin);
    BlockedThenStoppedHistory(cfg, s);
    var h := History(cfg, s, ins, 0);
    LawIs76(cfg.core.wheels[0].gains, h);
    DutyInClosedForm(cfg, s, ins, 0, 0);
  }
}
