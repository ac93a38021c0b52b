/** Whole runs of ticks: what the published pose amounts to in terms of the raw counters. */
module TickRuns {
  import opened Numeric
  import opened ControlLoop
  import C = ControlCore
  import E = Encoder
  import K = Kinematics
  import Odometry

  /** One tick's inputs in unbounded terms: the times since power-on and the true wheel counts, of
      which the firmware sees only the low bits. */
  datatype Input = Input(nowMs: nat, target: Command, counts: seq<int>, nowUs: nat) {
    predicate Valid() {
      |counts| == 4
    }
  }

  ghost predicate AllValid(ins: seq<Input>) {
    forall i :: 0 <= i < |ins| ==> ins[i].Valid()
  }

  function Registers(cfg: Config, counts: seq<int>): (cnt: seq<Word32>)
    requires cfg.Valid() && |counts| == 4
    ensures |cnt| == 4
  {
    [E.Register(cfg.enc[0], counts[0]), E.Register(cfg.enc[1], counts[1]),
     E.Register(cfg.enc[2], counts[2]), E.Register(cfg.enc[3], counts[3])]
  }

  function Ticked(cfg: Config, s: State, x: Input): (t: State)
    requires cfg.Valid() && s.Valid() && x.Valid()
    ensures t.Valid()
  {
    Advanced(cfg, s, U32(x.nowMs), x.target, Registers(cfg, x.counts), U32(x.nowUs))
  }

  /** The motion a tick hands to the integrator. */
  function MotionIn(cfg: Config, s: State, x: Input): Odometry.Motion
    requires cfg.Valid() && s.Valid() && x.Valid()
  {
    C.MotionOf(OdomDt(s, U32(x.nowMs)), BodyVelocity(cfg, s, Registers(cfg, x.counts), U32(x.nowUs)))
  }

  function Ran(cfg: Config, s: State, ins: seq<Input>): (t: State)
    requires cfg.Valid() && s.Valid() && AllValid(ins)
    ensures t.Valid()
  {
    if ins == [] then s else Ticked(cfg, Ran(cfg, s, ins[..|ins| - 1]), ins[|ins| - 1])
  }

  function Motions(cfg: Config, s: State, ins: seq<Input>): seq<Odometry.Motion>
    requires cfg.Valid() && s.Valid() && AllValid(ins)
  {
    if ins == [] then []
    else Motions(cfg, s, ins[..|ins| - 1]) + [MotionIn(cfg, Ran(cfg, s, ins[..|ins| - 1]), ins[|ins| - 1])]
  }

  lemma TickMovesThePose(cfg: Config, s: State, x: Input)
    requires cfg.Valid() && s.Valid() && x.Valid()
    ensures Ticked(cfg, s, x).core.pose == Odometry.Moved(cfg.core.trig, s.core.pose, MotionIn(cfg, s, x))
  {
    hide Odometry.Moved, C.DrivenWheel, E.Updated, C.Velocity;
  }

  /** The live pose is the fold of all motions so far. */
  lemma {:induction false} PoseIsTheFold(cfg: Config, s: State, ins: seq<Input>)
    requires cfg.Valid() && s.Valid() && AllValid(ins)
    ensures |Motions(cfg, s, ins)| == |ins|
    ensures Ran(cfg, s, ins).core.pose == Odometry.Integrated(cfg.core.trig, s.core.pose, Motions(cfg, s, ins))
  {
    hide Odometry.Moved, C.DrivenWheel, E.Updated, BodyVelocity;
    if ins == [] {
    } else {
      var before := ins[..|ins| - 1];
      PoseIsTheFold(cfg, s, before);
      var ms := Motions(cfg, s, ins);
      assert ms[..|ms| - 1] == Motions(cfg, s, before);
      TickMovesThePose(cfg, Ran(cfg, s, before), ins[|ins| - 1]);
    }
  }

  // ---------------------------------------------------------------------------------------------
  // Wheel turns and what one tick makes of them
  // ---------------------------------------------------------------------------------------------

  /** Revolutions of wheel w for a change in its true count. */
  function Revolutions(cfg: Config, w: nat, change: int): real
    requires cfg.Valid() && w < 4 && cfg.enc[w].cpr > 0
  {
    (E.Sign(cfg.enc[w]) * change) as real / cfg.enc[w].cpr as real
  }

  lemma RevolutionsAdd(cfg: Config, w: nat, a: int, b: int)
    requires cfg.Valid() && w < 4 && cfg.enc[w].cpr > 0
    ensures Revolutions(cfg, w, a + b) == Revolutions(cfg, w, a) + Revolutions(cfg, w, b)
  {
    var n := cfg.enc[w].cpr as real;
    var x, y := (E.Sign(cfg.enc[w]) * a) as real, (E.Sign(cfg.enc[w]) * b) as real;
    assert (E.Sign(cfg.enc[w]) * (a + b)) as real == x + y;
    DivMul(x, n);
    DivMul(y, n);
    MulDiv(x / n + y / n, n);
  }

  ghost predicate WheelRemembers(cfg: Config, s: State, x: Input, w: nat)
    requires cfg.Valid() && s.Valid() && x.Valid() && w < 4
  {
    && !s.enc[w].first
    && s.enc[w].prevCnt == E.Register(cfg.enc[w], x.counts[w])
    && s.enc[w].prevUs == U32(x.nowUs)
  }

  /** The state right after a tick in which the counter stood at `counts` and the clocks at ms, us. */
  ghost predicate Remembers(cfg: Config, s: State, x: Input)
    requires cfg.Valid() && s.Valid() && x.Valid()
  {
    && s.prevOdomMs == U32(x.nowMs)
    && forall w :: 0 <= w < 4 && cfg.enc[w].cpr > 0 ==> WheelRemembers(cfg, s, x, w)
  }

  lemma TickRemembers(cfg: Config, s: State, x: Input)
    requires cfg.Valid() && s.Valid() && x.Valid()
    ensures Remembers(cfg, Ticked(cfg, s, x), x)
  {
    hide C.Stepped, Measured, E.Delta, E.Register;
  }

  /** Whether the odometry of the base looks at wheel w: a differential one has only the front two. */
  predicate Counted(cfg: Config, w: nat) {
    w < 2 || (cfg.core.kin.base != K.DifferentialDrive && w < 4)
  }

  /** Every wheel the odometry looks at carries an encoder. */
  ghost predicate Equipped(cfg: Config) {
    cfg.Valid() && forall w :: 0 <= w < 4 && Counted(cfg, w) ==> cfg.enc[w].cpr > 0
  }

  /** Two consecutive ticks between which no clock or counter moved more than it can show. */
  ghost predicate Follows(cfg: Config, x: Input, y: Input)
    requires cfg.Valid() && x.Valid() && y.Valid()
  {
    && 0 < y.nowUs - x.nowUs < TWO32
    && 0 <= y.nowMs - x.nowMs < TWO32
    && forall w :: 0 <= w < 4 && Counted(cfg, w) ==> E.Representable(cfg.enc[w], y.counts[w] - x.counts[w])
  }

  /** The interval of a tick on the microsecond clock, in seconds. */
  function Seconds(x: Input, y: Input): real {
    (y.nowUs - x.nowUs) as real / 1000000.0
  }

  /** The interval of a tick on the millisecond clock, in seconds. */
  function OdomSeconds(x: Input, y: Input): real {
    (y.nowMs - x.nowMs) as real / 1000.0
  }

  /** The two clocks agree on the length of a tick up to a fraction rho of it. */
  ghost predicate Agree(x: Input, y: Input, rho: real) {
    Abs(OdomSeconds(x, y) - Seconds(x, y)) <= rho * Seconds(x, y)
  }

  /** What the odometry adds up: the heading and the distances along and across the body. */
  datatype Axis = Heading | Forward | Sideways

  /** What two wheels on one side contribute: the front one alone on a differential base, else their mean. */
  function SideMean(cfg: Config, front: real, rear: real): real {
    if cfg.core.kin.base == K.DifferentialDrive then front else (front + rear) / 2.0
  }

  /** What the readings of the four wheels come to along an axis. */
  function Combined(cfg: Config, axis: Axis, r: seq<real>): real
    requires |r| == 4
  {
    match axis
    case Heading => SideMean(cfg, r[1], r[3]) - SideMean(cfg, r[0], r[2])
    case Forward => SideMean(cfg, r[1], r[3]) + SideMean(cfg, r[0], r[2])
    case Sideways => if cfg.core.kin.base == K.Mecanum then (-r[0] + r[1] + r[2] - r[3]) / 2.0 else 0.0
  }

  /** Revolutions of wheel w, zero where the odometry does not look at it. */
  function CountedRevolutions(cfg: Config, w: nat, change: int): real
    requires Equipped(cfg) && w < 4
  {
    if Counted(cfg, w) then Revolutions(cfg, w, change) else 0.0
  }

  /** Revolutions of the four wheels between two ticks. */
  function Turns(cfg: Config, x: Input, y: Input): (r: seq<real>)
    requires Equipped(cfg) && x.Valid() && y.Valid()
    ensures |r| == 4
  {
    seq(4, w requires 0 <= w < 4 => CountedRevolutions(cfg, w, y.counts[w] - x.counts[w]))
  }

  lemma RateTimesMinutes(revs: real, us: real)
    requires us > 0.0
    ensures revs / (us / 60000000.0) * (us / 1000000.0) == revs * 60.0
  {
    var minutes := us / 60000000.0;
    DivMul(revs, minutes);
    assert us / 1000000.0 == minutes * 60.0;
    assert revs / minutes * (minutes * 60.0) == (revs / minutes * minutes) * 60.0;
  }

  lemma RpmOfChange(cfg: Config, s: State, x: Input, y: Input, w: nat)
    requires cfg.Valid() && s.Valid() && x.Valid() && y.Valid() && w < 4
    requires cfg.enc[w].cpr > 0 && WheelRemembers(cfg, s, x, w)
    requires 0 < y.nowUs - x.nowUs < TWO32
    requires E.Representable(cfg.enc[w], y.counts[w] - x.counts[w])
    ensures E.Rpm(cfg.enc[w], s.enc[w], E.Register(cfg.enc[w], y.counts[w]), U32(y.nowUs))
            == Revolutions(cfg, w, y.counts[w] - x.counts[w]) / ((y.nowUs - x.nowUs) as real / 60000000.0)
  {
    hide E.Delta, E.Register, E.Representable;
    U32OfDifference(y.nowUs, x.nowUs);
    E.DeltaIsExact(cfg.enc[w], s.enc[w], x.counts[w], y.counts[w]);
  }

  /** The speed a wheel reports, times the interval, is the revolutions it truly made. */
  lemma WheelRate(cfg: Config, s: State, x: Input, y: Input, w: nat)
    requires cfg.Valid() && s.Valid() && x.Valid() && y.Valid() && w < 4
    requires cfg.enc[w].cpr > 0 && WheelRemembers(cfg, s, x, w)
    requires 0 < y.nowUs - x.nowUs < TWO32
    requires E.Representable(cfg.enc[w], y.counts[w] - x.counts[w])
    ensures E.Rpm(cfg.enc[w], s.enc[w], E.Register(cfg.enc[w], y.counts[w]), U32(y.nowUs)) * Seconds(x, y)
            == Revolutions(cfg, w, y.counts[w] - x.counts[w]) * 60.0
  {
    hide E.Rpm, E.Register, E.Representable, Revolutions;
    RpmOfChange(cfg, s, x, y, w);
    RateTimesMinutes(Revolutions(cfg, w, y.counts[w] - x.counts[w]), (y.nowUs - x.nowUs) as real);
  }

  lemma WheelRates(cfg: Config, s: State, x: Input, y: Input)
    requires Equipped(cfg) && s.Valid() && x.Valid() && y.Valid()
    requires Remembers(cfg, s, x) && Follows(cfg, x, y)
    ensures var r := Measured(cfg, s, Registers(cfg, y.counts), U32(y.nowUs));
            forall w :: 0 <= w < 4 && Counted(cfg, w) ==> r[w] * Seconds(x, y) == Turns(cfg, x, y)[w] * 60.0
  {
    hide E.Rpm, E.Register, Revolutions, Seconds;
    forall w: nat | w < 4 && Counted(cfg, w)
      ensures Measured(cfg, s, Registers(cfg, y.counts), U32(y.nowUs))[w] * Seconds(x, y)
              == Revolutions(cfg, w, y.counts[w] - x.counts[w]) * 60.0
    {
      assert WheelRemembers(cfg, s, x, w);
      WheelRate(cfg, s, x, y, w);
    }
  }

  lemma FourTimes(a: real, b: real, c: real, d: real, sec: real)
    ensures (a + b) * sec == a * sec + b * sec
    ensures (a + b + c + d) / 2.0 * sec == (a * sec + b * sec + c * sec + d * sec) / 2.0
  {
  }

  /** Combining is linear, and blind to the wheels that do not count. */
  lemma CombinedRate(cfg: Config, axis: Axis, r: seq<real>, turns: seq<real>, sec: real)
    requires |r| == |turns| == 4
    requires forall w :: 0 <= w < 4 && Counted(cfg, w) ==> r[w] * sec == turns[w] * 60.0
    ensures Combined(cfg, axis, r) * sec == Combined(cfg, axis, turns) * 60.0
  {
    match axis
    case Heading =>
      FourTimes(-r[0], r[1], -r[2], r[3], sec);
    case Forward =>
      FourTimes(r[0], r[1], r[2], r[3], sec);
    case Sideways =>
      FourTimes(-r[0], r[1], r[2], -r[3], sec);
  }

  lemma CombinedAdds(cfg: Config, axis: Axis, a: seq<real>, b: seq<real>, c: seq<real>)
    requires |a| == |b| == |c| == 4 && forall w :: 0 <= w < 4 ==> c[w] == a[w] + b[w]
    ensures Combined(cfg, axis, c) == Combined(cfg, axis, a) + Combined(cfg, axis, b)
  {
  }

  /** The body velocity along an axis, in terms of the four wheel speeds. */
  function Along(axis: Axis, v: K.Velocities): real {
    match axis
    case Heading => v.angularZ
    case Forward => v.linearX
    case Sideways => v.linearY
  }

  lemma HeadingIsCombined(cfg: Config, r: seq<real>)
    requires cfg.Valid() && |r| == 4
    ensures var k := cfg.core.kin;
            k.GetVelocities(r[0], r[1], r[2], r[3]).angularZ
            == Combined(cfg, Heading, r) / 120.0 * k.wheelCircumference / (k.wheelsYDistance / 2.0)
  {
    var n := K.TotalWheels(cfg.core.kin.base) as real;
    if cfg.core.kin.base == K.DifferentialDrive {
      assert (-r[0] + r[1] - 0.0 + 0.0) / n / 60.0 == Combined(cfg, Heading, r) / 120.0;
    } else {
      assert (-r[0] + r[1] - r[2] + r[3]) / n / 60.0 == Combined(cfg, Heading, r) / 120.0;
    }
  }

  lemma ForwardIsCombined(cfg: Config, r: seq<real>)
    requires cfg.Valid() && |r| == 4
    ensures var k := cfg.core.kin;
            k.GetVelocities(r[0], r[1], r[2], r[3]).linearX
            == Combined(cfg, Forward, r) / 120.0 * k.wheelCircumference
  {
    var n := K.TotalWheels(cfg.core.kin.base) as real;
    if cfg.core.kin.base == K.DifferentialDrive {
      assert (r[0] + r[1] + 0.0 + 0.0) / n / 60.0 == Combined(cfg, Forward, r) / 120.0;
    } else {
      assert (r[0] + r[1] + r[2] + r[3]) / n / 60.0 == Combined(cfg, Forward, r) / 120.0;
    }
  }

  lemma SidewaysIsCombined(cfg: Config, r: seq<real>)
    requires cfg.Valid() && |r| == 4
    ensures var k := cfg.core.kin;
            k.GetVelocities(r[0], r[1], r[2], r[3]).linearY
            == Combined(cfg, Sideways, r) / 120.0 * k.wheelCircumference
  {
    if cfg.core.kin.base == K.Mecanum {
      var n := K.TotalWheels(cfg.core.kin.base) as real;
      assert (-r[0] + r[1] + r[2] - r[3]) / n / 60.0 == Combined(cfg, Sideways, r) / 120.0;
    }
  }

  lemma AlongIsCombined(cfg: Config, axis: Axis, r: seq<real>)
    requires cfg.Valid() && |r| == 4
    ensures var k := cfg.core.kin;
            var rim := Combined(cfg, axis, r) / 120.0 * k.wheelCircumference;
            Along(axis, k.GetVelocities(r[0], r[1], r[2], r[3]))
            == if axis.Heading? then rim / (k.wheelsYDistance / 2.0) else rim
  {
    hide Combined, K.Kinematics.GetVelocities;
    match axis
    case Heading => HeadingIsCombined(cfg, r);
    case Forward => ForwardIsCombined(cfg, r);
    case Sideways => SidewaysIsCombined(cfg, r);
  }

  lemma RimTimes(r: real, c: real, sec: real, revs: real)
    requires r * sec == revs * 60.0
    ensures r / 120.0 * c * sec == c / 2.0 * revs
  {
    assert r / 120.0 * c * sec == r * sec * c / 120.0;
  }

  lemma RimOverArm(rim: real, d: real, sec: real, c: real, revs: real)
    requires d > 0.0 && rim * sec == c / 2.0 * revs
    ensures rim / (d / 2.0) * sec == c / d * revs
  {
    var w := rim / (d / 2.0);
    DivMul(rim, d / 2.0);
    DivMul(c, d);
    assert (w * sec) * d == 2.0 * (w * (d / 2.0) * sec);
    assert (c / d * revs) * d == (c / d * d) * revs;
    K.SameFactor(w * sec, c / d * revs, d);
  }

  /** A product under a name, so that proofs can treat it as one quantity. */
  function Scale(f: real, r: real): real {
    f * r
  }

  /** What one revolution, combined along an axis, is worth: rim over track, or half the rim. */
  function Gain(cfg: Config, axis: Axis): real
    requires cfg.Valid()
  {
    cfg.core.kin.wheelCircumference / if axis.Heading? then cfg.core.kin.wheelsYDistance else 2.0
  }

  /** The change along an axis that the wheels' turns between two ticks call for. */
  function Due(cfg: Config, axis: Axis, x: Input, y: Input): real
    requires Equipped(cfg) && x.Valid() && y.Valid()
  {
    Scale(Gain(cfg, axis), Combined(cfg, axis, Turns(cfg, x, y)))
  }

  function Rate(axis: Axis, m: Odometry.Motion): real {
    match axis
    case Heading => m.wz
    case Forward => m.vx
    case Sideways => m.vy
  }

  /** The change along an axis that the integrator makes of a motion. */
  function Made(axis: Axis, m: Odometry.Motion): real {
    Rate(axis, m) * m.dt
  }

  lemma VelocityTimesSeconds(cfg: Config, axis: Axis, r: seq<real>, turns: seq<real>, sec: real)
    requires cfg.Valid() && |r| == 4 && |turns| == 4
    requires Combined(cfg, axis, r) * sec == Combined(cfg, axis, turns) * 60.0
    ensures Along(axis, cfg.core.kin.GetVelocities(r[0], r[1], r[2], r[3])) * sec
            == Scale(Gain(cfg, axis), Combined(cfg, axis, turns))
  {
    hide K.Kinematics.GetVelocities, Combined, Along;
    var c, revs := cfg.core.kin.wheelCircumference, Combined(cfg, axis, turns);
    AlongIsCombined(cfg, axis, r);
    RimTimes(Combined(cfg, axis, r), c, sec, revs);
    if axis.Heading? {
      RimOverArm(Combined(cfg, axis, r) / 120.0 * c, cfg.core.kin.wheelsYDistance, sec, c, revs);
    }
  }

  lemma OdomDtOfFollowing(cfg: Config, s: State, x: Input, y: Input)
    requires cfg.Valid() && s.Valid() && x.Valid() && y.Valid()
    requires Remembers(cfg, s, x) && Follows(cfg, x, y)
    ensures OdomDt(s, U32(y.nowMs)) == OdomSeconds(x, y)
  {
    hide WheelRemembers, E.Representable;
    U32OfDifference(y.nowMs, x.nowMs);
  }

  /** One tick: speed times true interval is true displacement. */
  lemma TickVelocity(cfg: Config, axis: Axis, s: State, x: Input, y: Input)
    requires Equipped(cfg) && s.Valid() && x.Valid() && y.Valid()
    requires Remembers(cfg, s, x) && Follows(cfg, x, y)
    ensures var m := MotionIn(cfg, s, y);
            m.dt == OdomSeconds(x, y) && Rate(axis, m) * Seconds(x, y) == Due(cfg, axis, x, y)
  {
    hide Measured, Registers, Turns, Combined, K.Kinematics.GetVelocities, Remembers, Follows, Seconds, Scale;
    WheelRates(cfg, s, x, y);
    OdomDtOfFollowing(cfg, s, x, y);
    var r := Measured(cfg, s, Registers(cfg, y.counts), U32(y.nowUs));
    CombinedRate(cfg, axis, r, Turns(cfg, x, y), Seconds(x, y));
    VelocityTimesSeconds(cfg, axis, r, Turns(cfg, x, y), Seconds(x, y));
  }

  lemma SkewOfOneTick(v: real, dt: real, got: real, sec: real, truth: real, rho: real)
    requires sec > 0.0 && v * sec == truth && v * dt == got && Abs(dt - sec) <= rho * sec
    ensures Abs(got - truth) <= rho * Abs(truth)
  {
    assert got - truth == v * (dt - sec);
    AbsOfProduct(v, dt - sec);
    AbsOfProduct(v, sec);
    MulMono(Abs(dt - sec), rho * sec, Abs(v));
    assert Abs(v) * (rho * sec) == rho * (Abs(v) * sec);
  }

  lemma TickTakesTime(cfg: Config, x: Input, y: Input)
    requires cfg.Valid() && x.Valid() && y.Valid() && Follows(cfg, x, y)
    ensures Seconds(x, y) > 0.0
  {
  }

  /** What a tick adds along an axis is off by at most the fraction rho by which the two clocks
      disagree on its length. */
  lemma TickSkew(cfg: Config, axis: Axis, s: State, x: Input, y: Input, rho: real)
    requires Equipped(cfg) && s.Valid() && x.Valid() && y.Valid()
    requires Remembers(cfg, s, x) && Follows(cfg, x, y) && Agree(x, y, rho)
    ensures Abs(Made(axis, MotionIn(cfg, s, y)) - Due(cfg, axis, x, y)) <= rho * Abs(Due(cfg, axis, x, y))
  {
    hide MotionIn, Remembers, Follows, Seconds, OdomSeconds, Due, Rate, Abs;
    TickVelocity(cfg, axis, s, x, y);
    TickTakesTime(cfg, x, y);
    var m := MotionIn(cfg, s, y);
    SkewOfOneTick(Rate(axis, m), m.dt, Made(axis, m), Seconds(x, y), Due(cfg, axis, x, y), rho);
  }

  lemma SameProductIff(v: real, a: real, b: real)
    requires b > 0.0
    ensures v * a == v * b <==> v * b == 0.0 || a == b
  {
    if v * a == v * b {
      assert v * (a - b) == 0.0;
      Odometry.ZeroFactor(v, a - b);
    }
    if v * b == 0.0 {
      Odometry.ZeroFactor(v, b);
    }
  }

  /** A tick adds the true change along an axis exactly if and only if there is none or the two clocks
      agree on the tick's length: they are read separately, so one microsecond timestamp for all wheels
      does not make the odometry interval match. */
  lemma TickIsExactIff(cfg: Config, axis: Axis, s: State, x: Input, y: Input)
    requires Equipped(cfg) && s.Valid() && x.Valid() && y.Valid()
    requires Remembers(cfg, s, x) && Follows(cfg, x, y)
    ensures Made(axis, MotionIn(cfg, s, y)) == Due(cfg, axis, x, y)
            <==> Due(cfg, axis, x, y) == 0.0 || OdomSeconds(x, y) == Seconds(x, y)
  {
    hide MotionIn, Remembers, Follows, Seconds, OdomSeconds, Due, Rate;
    TickVelocity(cfg, axis, s, x, y);
    TickTakesTime(cfg, x, y);
    var m := MotionIn(cfg, s, y);
    SameProductIff(Rate(axis, m), m.dt, Seconds(x, y));
  }

  // ---------------------------------------------------------------------------------------------
  // Conservation over whole runs
  // ---------------------------------------------------------------------------------------------

  ghost predicate SmoothAt(cfg: Config, ins: seq<Input>, rho: real, i: int)
    requires cfg.Valid() && AllValid(ins) && 0 <= i && i + 1 < |ins|
  {
    Follows(cfg, ins[i], ins[i + 1]) && Agree(ins[i], ins[i + 1], rho)
  }

  /** Consecutive ticks follow each other, and the clocks agree on every one of them. */
  ghost predicate Smooth(cfg: Config, ins: seq<Input>, rho: real)
    requires cfg.Valid() && AllValid(ins)
  {
    forall i :: 0 <= i && i + 1 < |ins| ==> SmoothAt(cfg, ins, rho, i)
  }

  /** Net revolutions of the four wheels from the first tick of a run to its last. */
  function NetTurns(cfg: Config, ins: seq<Input>): (r: seq<real>)
    requires Equipped(cfg) && AllValid(ins)
    ensures |r| == 4
  {
    if ins == [] then [0.0, 0.0, 0.0, 0.0] else Turns(cfg, ins[0], ins[|ins| - 1])
  }

  /** The change along an axis that the net turns of a run call for. */
  function NetDue(cfg: Config, axis: Axis, ins: seq<Input>): real
    requires Equipped(cfg) && AllValid(ins)
  {
    Scale(Gain(cfg, axis), Combined(cfg, axis, NetTurns(cfg, ins)))
  }

  /** What the single ticks of a run call for. */
  function Dues(cfg: Config, axis: Axis, ins: seq<Input>): seq<real>
    requires Equipped(cfg) && AllValid(ins)
  {
    if |ins| < 2 then []
    else Dues(cfg, axis, ins[..|ins| - 1]) + [Due(cfg, axis, ins[|ins| - 2], ins[|ins| - 1])]
  }

  function Total(rs: seq<real>): real {
    if rs == [] then 0.0 else Total(rs[..|rs| - 1]) + rs[|rs| - 1]
  }

  function TotalAbs(rs: seq<real>): real {
    if rs == [] then 0.0 else TotalAbs(rs[..|rs| - 1]) + Abs(rs[|rs| - 1])
  }

  lemma TotalAppend(rs: seq<real>, r: real)
    ensures Total(rs + [r]) == Total(rs) + r
    ensures TotalAbs(rs + [r]) == TotalAbs(rs) + Abs(r)
  {
    assert (rs + [r])[..|rs + [r]| - 1] == rs;
  }

  /** The sum of speed times odometry interval along an axis. */
  function Travelled(axis: Axis, ms: seq<Odometry.Motion>): real {
    if ms == [] then 0.0 else Travelled(axis, ms[..|ms| - 1]) + Made(axis, ms[|ms| - 1])
  }

  lemma TravelledAppend(axis: Axis, ms: seq<Odometry.Motion>, m: Odometry.Motion)
    ensures Travelled(axis, ms + [m]) == Travelled(axis, ms) + Made(axis, m)
  {
    assert (ms + [m])[..|ms + [m]| - 1] == ms;
  }

  ghost predicate FreshEncoders(s: State) {
    |s.enc| == 4 && forall w :: 0 <= w < 4 ==> s.enc[w].first
  }

  lemma TurnsGrow(cfg: Config, a: Input, x: Input, y: Input)
    requires Equipped(cfg) && a.Valid() && x.Valid() && y.Valid()
    ensures forall w :: 0 <= w < 4 ==> Turns(cfg, a, y)[w] == Turns(cfg, a, x)[w] + Turns(cfg, x, y)[w]
  {
    hide Revolutions;
    forall w: nat | w < 4 && Counted(cfg, w)
      ensures Revolutions(cfg, w, y.counts[w] - a.counts[w])
              == Revolutions(cfg, w, x.counts[w] - a.counts[w]) + Revolutions(cfg, w, y.counts[w] - x.counts[w])
    {
      RevolutionsAdd(cfg, w, x.counts[w] - a.counts[w], y.counts[w] - x.counts[w]);
    }
  }

  lemma NoTurns(cfg: Config, x: Input)
    requires Equipped(cfg) && x.Valid()
    ensures Turns(cfg, x, x) == [0.0, 0.0, 0.0, 0.0]
  {
    hide Revolutions;
    forall w: nat | w < 4
      ensures Turns(cfg, x, x)[w] == 0.0
    {
      assert Turns(cfg, x, x)[w] == CountedRevolutions(cfg, w, 0);
      if Counted(cfg, w) {
        RevolutionsAdd(cfg, w, 0, 0);
      }
    }
  }

  lemma ScaleAdds(f: real, before: real, step: real, after: real)
    requires after == before + step
    ensures Scale(f, after) == Scale(f, before) + Scale(f, step)
  {
  }

  lemma ScaleZero(f: real, r: real)
    requires r == 0.0
    ensures Scale(f, r) == 0.0
  {
  }

  lemma TimesZero(f: real)
    ensures f * 0.0 == 0.0 && 0.0 * f == 0.0
  {
  }

  lemma CombinedZero(cfg: Config, axis: Axis)
    ensures Combined(cfg, axis, [0.0, 0.0, 0.0, 0.0]) == 0.0
  {
  }

  lemma DuesGrow(cfg: Config, axis: Axis, ins: seq<Input>)
    requires Equipped(cfg) && AllValid(ins) && |ins| >= 2
    ensures var before, due := ins[..|ins| - 1], Due(cfg, axis, ins[|ins| - 2], ins[|ins| - 1]);
            && Total(Dues(cfg, axis, ins)) == Total(Dues(cfg, axis, before)) + due
            && TotalAbs(Dues(cfg, axis, ins)) == TotalAbs(Dues(cfg, axis, before)) + Abs(due)
  {
    hide Due, Abs;
    TotalAppend(Dues(cfg, axis, ins[..|ins| - 1]), Due(cfg, axis, ins[|ins| - 2], ins[|ins| - 1]));
  }

  lemma ShortRunCallsForNothing(cfg: Config, axis: Axis, ins: seq<Input>)
    requires Equipped(cfg) && AllValid(ins) && |ins| < 2
    ensures Total(Dues(cfg, axis, ins)) == TotalAbs(Dues(cfg, axis, ins)) == 0.0
  {
  }

  /** What the single ticks call for telescopes to what the net turns of the run call for. */
  lemma {:induction false} DuesTelescope(cfg: Config, axis: Axis, ins: seq<Input>)
    requires Equipped(cfg) && AllValid(ins)
    ensures Total(Dues(cfg, axis, ins)) == NetDue(cfg, axis, ins)
  {
    hide Turns, Combined, Dues, Total, Scale, Gain;
    if |ins| < 2 {
      ShortRunCallsForNothing(cfg, axis, ins);
      if ins != [] {
        NoTurns(cfg, ins[0]);
      }
      CombinedZero(cfg, axis);
      ScaleZero(Gain(cfg, axis), Combined(cfg, axis, NetTurns(cfg, ins)));
    } else {
      var before, x, y := ins[..|ins| - 1], ins[|ins| - 2], ins[|ins| - 1];
      DuesTelescope(cfg, axis, before);
      DuesGrow(cfg, axis, ins);
      TurnsGrow(cfg, ins[0], x, y);
      CombinedAdds(cfg, axis, NetTurns(cfg, before), Turns(cfg, x, y), NetTurns(cfg, ins));
      ScaleAdds(Gain(cfg, axis), Combined(cfg, axis, NetTurns(cfg, before)), Combined(cfg, axis, Turns(cfg, x, y)),
                Combined(cfg, axis, NetTurns(cfg, ins)));
    }
  }

  lemma SeedingReadings(cfg: Config, s: State, x: Input)
    requires cfg.Valid() && s.Valid() && x.Valid() && FreshEncoders(s)
    ensures Measured(cfg, s, Registers(cfg, x.counts), U32(x.nowUs)) == [0.0, 0.0, 0.0, 0.0]
  {
    hide E.Delta, E.Register;
  }

  lemma ZeroVelocity(k: K.Kinematics)
    requires k.Valid()
    ensures k.GetVelocities(0.0, 0.0, 0.0, 0.0) == K.Velocities(0.0, 0.0, 0.0)
  {
  }

  /** A run's first tick only seeds the encoders: the base is taken to stand still. */
  lemma SeedingTick(cfg: Config, axis: Axis, s: State, x: Input)
    requires Equipped(cfg) && s.Valid() && x.Valid() && FreshEncoders(s)
    ensures Made(axis, MotionIn(cfg, s, x)) == 0.0
  {
    hide Measured, Registers, K.Kinematics.GetVelocities, FreshEncoders;
    SeedingReadings(cfg, s, x);
    ZeroVelocity(cfg.core.kin);
    TimesZero(MotionIn(cfg, s, x).dt);
  }

  lemma PrefixIsSmooth(cfg: Config, ins: seq<Input>, rho: real)
    requires cfg.Valid() && AllValid(ins) && |ins| >= 2 && Smooth(cfg, ins, rho)
    ensures Smooth(cfg, ins[..|ins| - 1], rho)
    ensures Follows(cfg, ins[|ins| - 2], ins[|ins| - 1]) && Agree(ins[|ins| - 2], ins[|ins| - 1], rho)
  {
    hide Follows, Agree;
    var before := ins[..|ins| - 1];
    forall i | 0 <= i && i + 1 < |before|
      ensures SmoothAt(cfg, before, rho, i)
    {
      assert SmoothAt(cfg, ins, rho, i);
    }
    assert SmoothAt(cfg, ins, rho, |ins| - 2);
  }

  lemma LastTickRemembers(cfg: Config, s: State, ins: seq<Input>)
    requires cfg.Valid() && s.Valid() && AllValid(ins) && ins != []
    ensures Remembers(cfg, Ran(cfg, s, ins), ins[|ins| - 1])
  {
    hide Ticked, Remembers;
    TickRemembers(cfg, Ran(cfg, s, ins[..|ins| - 1]), ins[|ins| - 1]);
  }

  /** The heading of the pose is where it was plus everything made of it since. */
  lemma {:induction false} HeadingIsTravelled(cfg: Config, s: State, ins: seq<Input>)
    requires cfg.Valid() && s.Valid() && AllValid(ins)
    ensures Ran(cfg, s, ins).core.pose.heading == s.core.pose.heading + Travelled(Heading, Motions(cfg, s, ins))
  {
    hide Ticked, MotionIn;
    if ins == [] {
    } else {
      var before := ins[..|ins| - 1];
      HeadingIsTravelled(cfg, s, before);
      TickMovesThePose(cfg, Ran(cfg, s, before), ins[|ins| - 1]);
      TravelledAppend(Heading, Motions(cfg, s, before), MotionIn(cfg, Ran(cfg, s, before), ins[|ins| - 1]));
    }
  }

  /** How far the travel along an axis strays from the wheels' true turns in a run. */
  function Astray(cfg: Config, axis: Axis, s: State, ins: seq<Input>): real
    requires Equipped(cfg) && s.Valid() && AllValid(ins)
  {
    Travelled(axis, Motions(cfg, s, ins)) - Total(Dues(cfg, axis, ins))
  }

  lemma AddSkews(rho: real, total: real, due: real, err: real, made: real, total1: real, err1: real)
    requires Abs(err) <= rho * total && Abs(made - due) <= rho * Abs(due)
    requires total1 == total + Abs(due) && err1 == err + (made - due)
    ensures Abs(err1) <= rho * total1
  {
    assert rho * total1 == rho * total + rho * Abs(due);
  }

  /** What the last tick of a run makes along an axis, against what the wheels turned in it. */
  lemma LastTickSkew(cfg: Config, axis: Axis, s: State, ins: seq<Input>, rho: real) returns (made: real)
    requires Equipped(cfg) && s.Valid() && AllValid(ins) && |ins| >= 2 && Smooth(cfg, ins, rho)
    ensures Travelled(axis, Motions(cfg, s, ins)) == Travelled(axis, Motions(cfg, s, ins[..|ins| - 1])) + made
    ensures var due := Due(cfg, axis, ins[|ins| - 2], ins[|ins| - 1]);
            Abs(made - due) <= rho * Abs(due)
  {
    hide Ticked, MotionIn, Smooth, Due, Made, Follows, Agree, Remembers, Abs;
    var before := ins[..|ins| - 1];
    var m := MotionIn(cfg, Ran(cfg, s, before), ins[|ins| - 1]);
    made := Made(axis, m);
    PrefixIsSmooth(cfg, ins, rho);
    TravelledAppend(axis, Motions(cfg, s, before), m);
    LastTickRemembers(cfg, s, before);
    TickSkew(cfg, axis, Ran(cfg, s, before), ins[|ins| - 2], ins[|ins| - 1], rho);
  }

  lemma ShortRun(cfg: Config, axis: Axis, s: State, ins: seq<Input>)
    requires Equipped(cfg) && s.Valid() && FreshEncoders(s) && AllValid(ins) && |ins| < 2
    ensures Travelled(axis, Motions(cfg, s, ins)) == 0.0
  {
    hide MotionIn, FreshEncoders, Made;
    if ins == [] {
    } else {
      assert ins[..0] == [];
      SeedingTick(cfg, axis, s, ins[0]);
      TravelledAppend(axis, [], MotionIn(cfg, s, ins[0]));
    }
  }

  lemma AbsOfZero(r: real)
    requires r == 0.0
    ensures Abs(r) == 0.0
  {
  }

  /** After any run, the travel along each axis is the one the single ticks' true wheel turns call for,
      up to the disagreement of the two clocks. */
  lemma {:induction false} RunWithinClockSkew(cfg: Config, axis: Axis, s: State, ins: seq<Input>, rho: real)
    requires Equipped(cfg) && s.Valid() && FreshEncoders(s) && AllValid(ins) && Smooth(cfg, ins, rho)
    ensures Abs(Astray(cfg, axis, s, ins)) <= rho * TotalAbs(Dues(cfg, axis, ins))
  {
    hide Motions, Travelled, Smooth, FreshEncoders, Due, Dues, Total, TotalAbs, Abs;
    if |ins| < 2 {
      ShortRun(cfg, axis, s, ins);
      ShortRunCallsForNothing(cfg, axis, ins);
      TimesZero(rho);
      AbsOfZero(Astray(cfg, axis, s, ins));
    } else {
      var before, due := ins[..|ins| - 1], Due(cfg, axis, ins[|ins| - 2], ins[|ins| - 1]);
      PrefixIsSmooth(cfg, ins, rho);
      RunWithinClockSkew(cfg, axis, s, before, rho);
      DuesGrow(cfg, axis, ins);
      var made := LastTickSkew(cfg, axis, s, ins, rho);
      AddSkews(rho, TotalAbs(Dues(cfg, axis, before)), due, Astray(cfg, axis, s, before), made,
               TotalAbs(Dues(cfg, axis, ins)), Astray(cfg, axis, s, ins));
    }
  }

  lemma AbsZero(a: real, b: real)
    requires Abs(a) <= 0.0 * b
    ensures a == 0.0
  {
    TimesZero(b);
  }

  /** How far a pose's heading is from the one that the wheels' true net turns call for. */
  function HeadingOff(cfg: Config, start: State, pose: Odometry.Pose, ins: seq<Input>): real
    requires Equipped(cfg) && AllValid(ins)
  {
    pose.heading - start.core.pose.heading - NetDue(cfg, Heading, ins)
  }

  /** The clock-skew bound in terms of the true net wheel turns: neither wraps of counters and
      timers, nor the path, nor the commands and gains matter. */
  lemma HeadingWithinClockSkew(cfg: Config, s: State, ins: seq<Input>, rho: real)
    requires Equipped(cfg) && s.Valid() && FreshEncoders(s) && AllValid(ins) && Smooth(cfg, ins, rho)
    ensures Abs(HeadingOff(cfg, s, Ran(cfg, s, ins).core.pose, ins)) <= rho * TotalAbs(Dues(cfg, Heading, ins))
  {
    hide Ran, Motions, Travelled, NetDue, Dues, Total, TotalAbs, Smooth, FreshEncoders, Abs;
    RunWithinClockSkew(cfg, Heading, s, ins, rho);
    DuesTelescope(cfg, Heading, ins);
    HeadingIsTravelled(cfg, s, ins);
    assert Astray(cfg, Heading, s, ins) == HeadingOff(cfg, s, Ran(cfg, s, ins).core.pose, ins);
  }

  lemma AxisIsConserved(cfg: Config, axis: Axis, s: State, ins: seq<Input>)
    requires Equipped(cfg) && s.Valid() && FreshEncoders(s) && AllValid(ins) && Smooth(cfg, ins, 0.0)
    ensures Travelled(axis, Motions(cfg, s, ins)) == NetDue(cfg, axis, ins)
  {
    hide Motions, Travelled, Dues, Total, TotalAbs, NetDue, Smooth, FreshEncoders;
    RunWithinClockSkew(cfg, axis, s, ins, 0.0);
    DuesTelescope(cfg, axis, ins);
    AbsZero(Astray(cfg, axis, s, ins), TotalAbs(Dues(cfg, axis, ins)));
  }

  /** When the two clocks agree, travel is conserved exactly along each axis: it depends on nothing but
      the net turns of the wheels since the seeding tick. The heading is the travel along its axis. */
  lemma TravelIsConserved(cfg: Config, s: State, ins: seq<Input>)
    requires Equipped(cfg) && s.Valid() && FreshEncoders(s) && AllValid(ins) && Smooth(cfg, ins, 0.0)
    ensures var k, net, ms := cfg.core.kin, NetTurns(cfg, ins), Motions(cfg, s, ins);
            var left, right := SideMean(cfg, net[0], net[2]), SideMean(cfg, net[1], net[3]);
            var across := if k.base == K.Mecanum then (net[1] - net[0]) + (net[2] - net[3]) else 0.0;
            && Ran(cfg, s, ins).core.pose.heading
               == s.core.pose.heading + k.wheelCircumference / k.wheelsYDistance * (right - left)
            && Travelled(Forward, ms) == k.wheelCircumference / 2.0 * (right + left)
            && Travelled(Sideways, ms) == k.wheelCircumference / 4.0 * across
  {
    hide Ran, Motions, Travelled, NetTurns, SideMean;
    AxisIsConserved(cfg, Heading, s, ins);
    AxisIsConserved(cfg, Forward, s, ins);
    AxisIsConserved(cfg, Sideways, s, ins);
    HeadingIsTravelled(cfg, s, ins);
  }

  // ---------------------------------------------------------------------------------------------
  // A run in which the two clocks disagree
  // ---------------------------------------------------------------------------------------------

  /** Two ticks 20 ms apart on one clock and 20.4 ms on the other; wheel 1 turns by 50 counts. */
  function SkewedTicks(target: Command): seq<Input> {
    [Input(0, target, [0, 0, 0, 0], 0), Input(20, target, [0, 50, 0, 0], 20400)]
  }

  lemma SkewedTurnIsDue(cfg: Config, target: Command)
    requires Equipped(cfg)
    requires cfg.core.kin.base == K.DifferentialDrive && cfg.enc[1].cpr == 144000 && !cfg.enc[1].invert
    ensures var ins := SkewedTicks(target);
            && AllValid(ins) && Follows(cfg, ins[0], ins[1])
            && NetDue(cfg, Heading, ins) == Due(cfg, Heading, ins[0], ins[1]) > 0.0
  {
    var ins := SkewedTicks(target);
    var turns := Turns(cfg, ins[0], ins[1]);
    assert turns[0] == 0.0 && turns[1] == 50.0 / 144000.0;
    assert Combined(cfg, Heading, turns) == 50.0 / 144000.0;
    ProductPositive(Gain(cfg, Heading), 50.0 / 144000.0);
  }

  lemma TwoTicksTravel(cfg: Config, s: State, ins: seq<Input>)
    requires Equipped(cfg) && s.Valid() && FreshEncoders(s) && AllValid(ins) && |ins| == 2
    ensures Travelled(Heading, Motions(cfg, s, ins)) == Made(Heading, MotionIn(cfg, Ran(cfg, s, ins[..1]), ins[1]))
  {
    hide Ran, MotionIn, FreshEncoders, Made;
    ShortRun(cfg, Heading, s, ins[..1]);
    TravelledAppend(Heading, Motions(cfg, s, ins[..1]), MotionIn(cfg, Ran(cfg, s, ins[..1]), ins[1]));
  }

  /** On such a run of the board the heading comes out 50/51 of what it should be. */
  lemma SkewedTicksTurnTooLittle(cfg: Config, s: State, target: Command)
    requires Equipped(cfg) && s.Valid() && FreshEncoders(s)
    requires cfg.core.kin.base == K.DifferentialDrive && cfg.enc[1].cpr == 144000 && !cfg.enc[1].invert
    ensures var ins := SkewedTicks(target);
            && AllValid(ins)
            && NetDue(cfg, Heading, ins) > 0.0
            && Ran(cfg, s, ins).core.pose.heading - s.core.pose.heading == NetDue(cfg, Heading, ins) * 50.0 / 51.0
            && Ran(cfg, s, ins).core.pose.heading - s.core.pose.heading != NetDue(cfg, Heading, ins)
  {
    hide Ran, Motions, MotionIn, FreshEncoders, NetDue, Follows, Remembers;
    var ins := SkewedTicks(target);
    var x, y := ins[0], ins[1];
    SkewedTurnIsDue(cfg, target);
    HeadingIsTravelled(cfg, s, ins);
    TwoTicksTravel(cfg, s, ins);
    LastTickRemembers(cfg, s, ins[..1]);
    TickVelocity(cfg, Heading, Ran(cfg, s, ins[..1]), x, y);
  }
}
