/** One control cycle: command to wheel targets, PID per wheel, motor drive, odometry. */
module ControlCore {
  import opened Numeric
  import K = Kinematics
  import Motor
  import Odometry
  import Pid
  import PwmTiming

  datatype Command = Command(x: real, y: real, wz: real)

  const STOP := Command(0.0, 0.0, 0.0)

  /** A wheel is driven when both its motor and its controller are present. */
  datatype WheelConfig = WheelConfig(driven: bool, gains: Pid.Gains, motor: Motor.Config)

  datatype Wheel = Wheel(pid: Pid.State, regs: Motor.Regs)

  datatype Config = Config(kin: K.Kinematics, trig: Odometry.Trig, wheels: seq<WheelConfig>) {
    ghost predicate Valid() {
      kin.Valid() && |wheels| == 4
    }
  }

  datatype State = State(wheels: seq<Wheel>, pose: Odometry.Pose)

  function Targets(kin: K.Kinematics, cmd: Command): (ts: seq<real>)
    requires kin.Valid()
    ensures |ts| == 4
  {
    var req := kin.GetRpm(cmd.x, cmd.y, cmd.wz);
    [req.motor1, req.motor2, req.motor3, req.motor4]
  }

  function Driven(c: WheelConfig, w: Wheel, x: Pid.Sample): Wheel {
    if c.driven then Wheel(Pid.Next(w.pid, x), Motor.Spun(c.motor, w.regs, Trunc(Pid.Output(c.gains, w.pid, x))))
    else w
  }

  function DrivenWheel(cfg: Config, s: State, cmd: Command, measured: seq<real>, i: nat): Wheel
    requires cfg.Valid() && |s.wheels| == 4 && |measured| == 4 && i < 4
  {
    Driven(cfg.wheels[i], s.wheels[i], Pid.Tracking(Targets(cfg.kin, cmd)[i], measured[i]))
  }

  function Velocity(cfg: Config, measured: seq<real>): K.Velocities
    requires cfg.Valid() && |measured| == 4
  {
    cfg.kin.GetVelocities(measured[0], measured[1], measured[2], measured[3])
  }

  function MotionOf(dt: real, v: K.Velocities): Odometry.Motion {
    Odometry.Motion(dt, v.linearX, v.linearY, v.angularZ)
  }

  function Stepped(cfg: Config, s: State, cmd: Command, measured: seq<real>, dt: real): (t: State)
    requires cfg.Valid() && |s.wheels| == 4 && |measured| == 4
    ensures |t.wheels| == 4
  {
    State([DrivenWheel(cfg, s, cmd, measured, 0), DrivenWheel(cfg, s, cmd, measured, 1),
           DrivenWheel(cfg, s, cmd, measured, 2), DrivenWheel(cfg, s, cmd, measured, 3)],
          Odometry.Moved(cfg.trig, s.pose, MotionOf(dt, Velocity(cfg, measured))))
  }

  /** The objects a control cycle may change. */
  ghost function Parts(odom: Odometry.OdomIntegrator, pid: seq<Pid.PID?>, mot: seq<Motor.Generic2?>): set<object> {
    var pids: set<object> := set p: Pid.PID? | p in pid && p != null :: p;
    var mots: set<object> := set m: Motor.Generic2? | m in mot && m != null :: m;
    {odom} + pids + mots
  }

  class ControlCore {
    const kin: K.Kinematics
    const odom: Odometry.OdomIntegrator
    const pid: seq<Pid.PID?>
    const mot: seq<Motor.Generic2?>
    ghost const Repr: set<object>

    /** Four wheels at most, no controller or motor serving two of them. */
    ghost predicate Valid() {
      && kin.Valid()
      && |pid| == 4 && |mot| == 4
      && odom in Repr
      && (forall i :: 0 <= i < 4 && pid[i] != null ==> pid[i] in Repr)
      && (forall i :: 0 <= i < 4 && mot[i] != null ==> mot[i] in Repr)
      && (forall i, j :: 0 <= i < j < 4 && pid[i] != null ==> pid[i] != pid[j])
      && (forall i, j :: 0 <= i < j < 4 && mot[i] != null ==> mot[i] != mot[j])
    }

    ghost function WheelSetup(i: nat): WheelConfig
      requires Valid() && i < 4
    {
      WheelConfig(pid[i] != null && mot[i] != null,
                  if pid[i] != null then pid[i].gains else Pid.Gains(0.0, 0.0, 0.0, 0.0, 0.0),
                  if mot[i] != null then mot[i].config else Motor.Config(false, false, 0))
    }

    ghost function Setup(): Config
      requires Valid()
    {
      Config(kin, odom.trig, [WheelSetup(0), WheelSetup(1), WheelSetup(2), WheelSetup(3)])
    }

    ghost function WheelView(i: nat): Wheel
      requires Valid() && i < 4
      reads Repr
    {
      Wheel(if pid[i] != null then pid[i].View() else Pid.Fresh(),
            if mot[i] != null then mot[i].View() else Motor.Regs(false, false, 0))
    }

    ghost function View(): State
      requires Valid()
      reads Repr
    {
      State([WheelView(0), WheelView(1), WheelView(2), WheelView(3)], odom.View())
    }

    constructor (kin: K.Kinematics, odom: Odometry.OdomIntegrator, pid: seq<Pid.PID?>, mot: seq<Motor.Generic2?>)
      requires kin.Valid() && |pid| == 4 && |mot| == 4
      requires forall i, j :: 0 <= i < j < 4 && pid[i] != null ==> pid[i] != pid[j]
      requires forall i, j :: 0 <= i < j < 4 && mot[i] != null ==> mot[i] != mot[j]
      ensures Valid()
      ensures this.kin == kin && this.odom == odom && this.pid == pid && this.mot == mot
      ensures Repr == Parts(odom, pid, mot)
    {
      assert forall i :: 0 <= i < 4 && pid[i] != null ==> pid[i] in pid;
      assert forall i :: 0 <= i < 4 && mot[i] != null ==> mot[i] in mot;
      this.kin, this.odom, this.pid, this.mot := kin, odom, pid, mot;
      Repr := Parts(odom, pid, mot);
    }

    method Step(cmd: Command, measured: seq<real>, dt: real) returns (v: K.Velocities)
      requires Valid() && |measured| == 4
      modifies Repr
      ensures View() == Stepped(Setup(), old(View()), cmd, measured, dt)
      ensures v == Velocity(Setup(), measured)
    {
      hide Pid.Output, Pid.Next, Motor.Spun, Odometry.Moved, Targets, K.Kinematics.GetVelocities;
      var target := Targets(kin, cmd);
      for i := 0 to 4
        invariant odom.View() == old(odom.View())
        invariant forall j :: 0 <= j < 4 ==>
          WheelView(j) == if j < i then Driven(WheelSetup(j), old(WheelView(j)), Pid.Tracking(target[j], measured[j]))
                          else old(WheelView(j))
      {
        if mot[i] != null && pid[i] != null {
          var output := pid[i].Compute(target[i], measured[i]);
          mot[i].Spin(Trunc(output));
        }
      }
      v := kin.GetVelocities(measured[0], measured[1], measured[2], measured[3]);
      odom.Update(dt, v.linearX, v.linearY, v.angularZ);
    }
  }

  // ---------------------------------------------------------------------------------------------
  // What one cycle does to one wheel
  // ---------------------------------------------------------------------------------------------

  /** The output limits lie inside the range of the compare register, zero inside the limits. */
  ghost predicate FitsRegister(c: WheelConfig) {
    && -(c.motor.arr as real) <= c.gains.minVal <= 0.0
    && 0.0 <= c.gains.maxVal <= c.motor.arr as real
  }

  predicate SignedDutyIs(r: Motor.Regs, duty: int) {
    Motor.SignedDuty(r) == duty
  }

  function Inverted(c: Motor.Config, duty: int): int {
    if c.invert then -duty else duty
  }

  /** With the limits inside the register range no clamp acts on the way to the hardware: the duty on
      the wheel is the truncated PID output, turned around where the motor is wired inverted. */
  lemma DutyIsTheTruncatedOutput(c: WheelConfig, w: Wheel, x: Pid.Sample)
    requires c.driven && c.motor.used && FitsRegister(c) && !(w.regs.pinA && w.regs.pinB)
    ensures var after := Driven(c, w, x).regs;
            && !(after.pinA && after.pinB)
            && after.ccr <= c.motor.arr
            && SignedDutyIs(after, Inverted(c.motor, Trunc(Pid.Output(c.gains, w.pid, x))))
  {
    hide Pid.Output;
    Pid.OutputIsBounded(c.gains, w.pid, x);
    var pwm := Trunc(Pid.Output(c.gains, w.pid, x));
    var limit: int := c.motor.arr;
    TruncWithinBounds(Pid.Output(c.gains, w.pid, x), -limit, limit);
    Motor.SpinDrivesAsAsked(c.motor, w.regs, pwm);
  }

  /** A wheel told to stop that does stand still ends the cycle with duty zero, whatever its
      controller accumulated before. */
  lemma StandingWheelIsReleased(c: WheelConfig, w: Wheel)
    requires c.driven && c.motor.used && c.gains.minVal <= 0.0 <= c.gains.maxVal
    ensures Driven(c, w, Pid.Tracking(0.0, 0.0)).regs.ccr == 0
  {
    hide Pid.Output;
    Pid.StandingStillGivesZero(c.gains, w.pid);
    Motor.SpunRegisters(c.motor, w.regs, 0);
  }

  lemma ReleasedIff(c: WheelConfig, w: Wheel, x: Pid.Sample)
    requires c.driven && c.motor.used && c.motor.arr >= 1
    ensures Driven(c, w, x).regs.ccr == 0 <==> Trunc(Pid.Output(c.gains, w.pid, x)) == 0
  {
    hide Pid.Output, Trunc, Motor.Spun;
    Motor.SpunRegisters(c.motor, w.regs, Trunc(Pid.Output(c.gains, w.pid, x)));
  }

  /** Whatever was asked of it before, a wheel that turns at speed m and is told to stop ends the cycle
      with duty zero. */
  ghost predicate StopAlwaysReleases(c: WheelConfig, regs: Motor.Regs, limit: real, m: real) {
    forall h :: Pid.WithinLimit(h, limit) ==> Driven(c, Wheel(Pid.Run(h), regs), Pid.Tracking(0.0, m)).regs.ccr == 0
  }

  lemma TruncOfFraction(r: real)
    requires -1.0 < r < 1.0
    ensures Trunc(r) == 0
  {
  }

  lemma ClampedStep(step: real, low: real, high: real)
    requires (step == 1.0 && low <= 0.0 && 1.0 <= high) || (step == -1.0 && low <= -1.0 && 0.0 <= high)
    ensures Trunc(Constrain(step, low, high)) != 0
  {
  }

  /** A stop is certain to take the drive away if and only if the wheel stands still, the limits leave
      no full duty step, or the controller is a purely proportional one whose answer to the remaining
      speed rounds to nothing. */
  lemma StopReleasesIff(c: WheelConfig, regs: Motor.Regs, limit: real, m: real)
    requires c.driven && c.motor.used && c.motor.arr >= 1
    requires c.gains.minVal <= 0.0 <= c.gains.maxVal && limit > 0.0
    ensures StopAlwaysReleases(c, regs, limit, m)
            <==> m == 0.0
                 || (-1.0 < c.gains.minVal && c.gains.maxVal < 1.0)
                 || (c.gains.ki == 0.0 && c.gains.kd == 0.0 && Trunc(Pid.ProportionalAnswer(c.gains, m)) == 0)
  {
    hide Driven, Trunc, Constrain, Pid.Law, Pid.Next, Pid.Run, Pid.Output, Pid.WithinLimit, Pid.ProportionalAnswer;
    var g, x := c.gains, Pid.Tracking(0.0, m);
    if m == 0.0 {
      forall h: seq<Pid.Sample>
        ensures Driven(c, Wheel(Pid.Run(h), regs), x).regs.ccr == 0
      {
        StandingWheelIsReleased(c, Wheel(Pid.Run(h), regs));
      }
    } else if -1.0 < g.minVal && g.maxVal < 1.0 {
      forall h: seq<Pid.Sample>
        ensures Driven(c, Wheel(Pid.Run(h), regs), x).regs.ccr == 0
      {
        Pid.OutputIsBounded(g, Pid.Run(h), x);
        TruncOfFraction(Pid.Output(g, Pid.Run(h), x));
        ReleasedIff(c, Wheel(Pid.Run(h), regs), x);
      }
    } else if g.ki != 0.0 || g.kd != 0.0 {
      var drive := if g.maxVal >= 1.0 then 1.0 else -1.0;
      var h := Pid.WindUp(g, limit, m, drive);
      Pid.OutputFrom(g, Pid.Run(h), x, Pid.Next(Pid.Run(h), x));
      ClampedStep(drive, g.minVal, g.maxVal);
      ReleasedIff(c, Wheel(Pid.Run(h), regs), x);
    } else {
      forall h: seq<Pid.Sample>
        ensures Driven(c, Wheel(Pid.Run(h), regs), x).regs.ccr == 0 <==> Trunc(Pid.ProportionalAnswer(g, m)) == 0
      {
        Pid.ProportionalOnly(g, Pid.Run(h), m);
        ReleasedIff(c, Wheel(Pid.Run(h), regs), x);
      }
      Pid.NothingAsked(limit);
    }
  }

  /** The board's motors run at full scale 1023, on both sides of which its controllers are clamped, so
      every duty they ask for fits the compare register. */
  lemma BoardFitsRegister(clkHz: Word32, c: WheelConfig)
    requires c.motor.arr as int == PwmTiming.PwmTiming(clkHz, 20000.0, 10).arr
    requires c.gains.minVal == -1023.0 && c.gains.maxVal == 1023.0
    ensures c.motor.arr == 1023 && FitsRegister(c)
  {
    assert PwmTiming.Pow2(10) == 1024;
  }
}
