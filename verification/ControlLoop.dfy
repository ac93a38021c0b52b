/** The control task's tick and the surface it shares with the communication task: the command with
    its deadman stamp, and the pose snapshot. */
module ControlLoop {
  import opened Numeric
  import C = ControlCore
  import E = Encoder
  import K = Kinematics
  import Odometry

  type Command = C.Command

  const CMD_TIMEOUT_MS: int := 200

  datatype Config = Config(enc: seq<E.Config>, core: C.Config) {
    ghost predicate Valid() {
      |enc| == 4 && core.Valid()
    }
  }

  /** What only the control task touches. */
  datatype State = State(enc: seq<E.State>, core: C.State, prevOdomMs: Word32) {
    predicate Valid() {
      |enc| == 4 && |core.wheels| == 4
    }
  }

  datatype Snapshot = Snapshot(pose: Odometry.Pose, velocity: K.Velocities)

  const NO_SNAPSHOT := Snapshot(Odometry.ORIGIN, K.Velocities(0.0, 0.0, 0.0))

  /** What both tasks touch, always inside a critical section. */
  datatype Shared = Shared(cmd: Command, stamp: Word32, snap: Snapshot)

  function Committed(s: Shared, cmd: Command, now: Word32): Shared {
    s.(cmd := cmd, stamp := now)
  }

  /** The command a tick acts on: the shared one, or a stop once its stamp is too old. */
  function Target(s: Shared, now: Word32): Command {
    if U32(now - s.stamp) >= CMD_TIMEOUT_MS then C.STOP else s.cmd
  }

  function Measured(cfg: Config, s: State, cnt: seq<Word32>, us: Word32): (rpm: seq<real>)
    requires cfg.Valid() && s.Valid() && |cnt| == 4
    ensures |rpm| == 4
  {
    [E.Rpm(cfg.enc[0], s.enc[0], cnt[0], us), E.Rpm(cfg.enc[1], s.enc[1], cnt[1], us),
     E.Rpm(cfg.enc[2], s.enc[2], cnt[2], us), E.Rpm(cfg.enc[3], s.enc[3], cnt[3], us)]
  }

  function OdomDt(s: State, now: Word32): real {
    U32(now - s.prevOdomMs) as real / 1000.0
  }

  /** The local part of a tick: read the encoders, run the control cycle, remember the time. */
  function Advanced(cfg: Config, s: State, now: Word32, target: Command, cnt: seq<Word32>, us: Word32): (t: State)
    requires cfg.Valid() && s.Valid() && |cnt| == 4
    ensures t.Valid()
  {
    State([E.Updated(cfg.enc[0], s.enc[0], cnt[0], us), E.Updated(cfg.enc[1], s.enc[1], cnt[1], us),
           E.Updated(cfg.enc[2], s.enc[2], cnt[2], us), E.Updated(cfg.enc[3], s.enc[3], cnt[3], us)],
          C.Stepped(cfg.core, s.core, target, Measured(cfg, s, cnt, us), OdomDt(s, now)),
          now)
  }

  function BodyVelocity(cfg: Config, s: State, cnt: seq<Word32>, us: Word32): K.Velocities
    requires cfg.Valid() && s.Valid() && |cnt| == 4
  {
    C.Velocity(cfg.core, Measured(cfg, s, cnt, us))
  }

  function Published(s: Shared, pose: Odometry.Pose, v: K.Velocities): Shared {
    s.(snap := Snapshot(pose, v))
  }

  class ControlLoop {
    const enc: seq<E.EncoderMath>
    const core: C.ControlCore
    ghost const Repr: set<object>
    var cmdX: real
    var cmdY: real
    var cmdWz: real
    var prevCmdMs: Word32
    var prevOdomMs: Word32
    var lastX: real
    var lastY: real
    var lastHeading: real
    var lastVx: real
    var lastVy: real
    var lastWz: real

    ghost predicate Valid() {
      && core.Valid() && |enc| == 4
      && this !in Repr && core.Repr <= Repr
      && (forall i :: 0 <= i < 4 ==> enc[i] in Repr && enc[i] !in core.Repr)
      && (forall i, j :: 0 <= i < j < 4 ==> enc[i] != enc[j])
    }

    ghost function Setup(): Config
      requires Valid()
    {
      Config([enc[0].config, enc[1].config, enc[2].config, enc[3].config], core.Setup())
    }

    ghost function EncoderViews(): seq<E.State>
      requires Valid()
      reads Repr
    {
      [enc[0].View(), enc[1].View(), enc[2].View(), enc[3].View()]
    }

    ghost function View(): State
      requires Valid()
      reads this`prevOdomMs, Repr
    {
      State(EncoderViews(), core.View(), prevOdomMs)
    }

    ghost function SharedView(): Shared
      reads this
    {
      Shared(C.Command(cmdX, cmdY, cmdWz), prevCmdMs,
             Snapshot(Odometry.Pose(lastX, lastY, lastHeading), K.Velocities(lastVx, lastVy, lastWz)))
    }

    /** control_loop_init once the hardware objects exist. */
    constructor (enc: seq<E.EncoderMath>, core: C.ControlCore, nowMs: Word32)
      requires core.Valid() && |enc| == 4
      requires forall i :: 0 <= i < 4 ==> enc[i] !in core.Repr
      requires forall i, j :: 0 <= i < j < 4 ==> enc[i] != enc[j]
      ensures Valid() && this.enc == enc && this.core == core
      ensures prevOdomMs == nowMs
      ensures SharedView() == Shared(C.STOP, nowMs, NO_SNAPSHOT)
    {
      this.enc, this.core := enc, core;
      Repr := core.Repr + {enc[0], enc[1], enc[2], enc[3]};
      prevCmdMs, prevOdomMs := nowMs, nowMs;
      cmdX, cmdY, cmdWz := 0.0, 0.0, 0.0;
      lastX, lastY, lastHeading := 0.0, 0.0, 0.0;
      lastVx, lastVy, lastWz := 0.0, 0.0, 0.0;
      new;
      assert this !in Repr;
    }

    /** The critical section of control_set_cmd; nowMs was read just before it. */
    method SetCmd(linearX: real, linearY: real, angularZ: real, nowMs: Word32)
      requires Valid()
      modifies this
      ensures SharedView() == Committed(old(SharedView()), C.Command(linearX, linearY, angularZ), nowMs)
      ensures View() == old(View())
    {
      cmdX, cmdY, cmdWz := linearX, linearY, angularZ;
      prevCmdMs := nowMs;
    }

    /** The tick's first critical section, and the deadman on what it copied. */
    method SnapshotCommand(now: Word32) returns (target: Command)
      ensures target == Target(SharedView(), now)
    {
      var lx, ly, lwz, lastCmd := cmdX, cmdY, cmdWz, prevCmdMs;
      if U32(now - lastCmd) >= CMD_TIMEOUT_MS {
        lx, ly, lwz := 0.0, 0.0, 0.0;
      }
      target := C.Command(lx, ly, lwz);
    }

    /** One timestamp serves all four wheels. */
    method ReadEncoders(cnt: seq<Word32>, nowUs: Word32) returns (rpm: seq<real>)
      requires Valid() && |cnt| == 4
      modifies enc[0], enc[1], enc[2], enc[3]
      ensures EncoderViews() == [E.Updated(enc[0].config, old(enc[0].View()), cnt[0], nowUs),
                                 E.Updated(enc[1].config, old(enc[1].View()), cnt[1], nowUs),
                                 E.Updated(enc[2].config, old(enc[2].View()), cnt[2], nowUs),
                                 E.Updated(enc[3].config, old(enc[3].View()), cnt[3], nowUs)]
      ensures rpm == Measured(Setup(), old(View()), cnt, nowUs)
    {
      hide E.Updated, E.Rpm, C.ControlCore.View;
      var r0 := enc[0].Update(cnt[0], nowUs);
      var r1 := enc[1].Update(cnt[1], nowUs);
      var r2 := enc[2].Update(cnt[2], nowUs);
      var r3 := enc[3].Update(cnt[3], nowUs);
      rpm := [r0, r1, r2, r3];
    }

    /** The part of the tick outside any critical section. */
    method Advance(now: Word32, target: Command, cnt: seq<Word32>, nowUs: Word32) returns (v: K.Velocities)
      requires Valid() && |cnt| == 4
      modifies this`prevOdomMs, Repr
      ensures View() == Advanced(Setup(), old(View()), now, target, cnt, nowUs)
      ensures v == BodyVelocity(Setup(), old(View()), cnt, nowUs)
    {
      hide E.Updated, E.Rpm, C.Stepped, C.Velocity, C.ControlCore.View;
      var rpm := ReadEncoders(cnt, nowUs);
      var dt := U32(now - prevOdomMs) as real / 1000.0;
      prevOdomMs := now;
      v := core.Step(target, rpm, dt);
    }

    /** The tick's second critical section. */
    method Publish(v: K.Velocities)
      requires Valid()
      modifies this`lastX, this`lastY, this`lastHeading, this`lastVx, this`lastVy, this`lastWz
      ensures SharedView() == Published(old(SharedView()), core.View().pose, v)
      ensures View() == old(View())
    {
      hide C.ControlCore.WheelView;
      lastX, lastY, lastHeading := core.odom.x, core.odom.y, core.odom.heading;
      lastVx, lastVy, lastWz := v.linearX, v.linearY, v.angularZ;
    }

    /** A whole tick that nothing interrupts. */
    method Tick(now: Word32, cnt: seq<Word32>, nowUs: Word32)
      requires Valid() && |cnt| == 4
      modifies this, Repr
      ensures var target := Target(old(SharedView()), now);
              View() == Advanced(Setup(), old(View()), now, target, cnt, nowUs)
      ensures SharedView()
              == Published(old(SharedView()), View().core.pose, BodyVelocity(Setup(), old(View()), cnt, nowUs))
    {
      hide Advanced, BodyVelocity, C.ControlCore.View;
      var target := SnapshotCommand(now);
      var v := Advance(now, target, cnt, nowUs);
      Publish(v);
    }

    method GetOdom() returns (snap: Snapshot)
      ensures snap == SharedView().snap
    {
      snap := Snapshot(Odometry.Pose(lastX, lastY, lastHeading), K.Velocities(lastVx, lastVy, lastWz));
    }
  }
}
