/** Dead reckoning: forward-Euler integration of body velocities into a planar pose. */
module Odometry {
  import opened Numeric

  /** Cosine and sine enter only through the laws below. */
  datatype Trig = Trig(cos: real -> real, sin: real -> real)

  ghost predicate UnitCircle(t: Trig, a: real) {
    t.cos(a) * t.cos(a) + t.sin(a) * t.sin(a) == 1.0
  }

  ghost predicate AngleAddition(t: Trig, a: real, b: real) {
    && t.cos(a + b) == t.cos(a) * t.cos(b) - t.sin(a) * t.sin(b)
    && t.sin(a + b) == t.sin(a) * t.cos(b) + t.cos(a) * t.sin(b)
  }

  ghost predicate Lawful(t: Trig) {
    && (forall a :: UnitCircle(t, a))
    && (forall a, b :: AngleAddition(t, a, b))
  }

  datatype Pose = Pose(x: real, y: real, heading: real)

  datatype Motion = Motion(dt: real, vx: real, vy: real, wz: real)

  const ORIGIN := Pose(0.0, 0.0, 0.0)

  datatype Vec = Vec(x: real, y: real)

  function Sum(a: Vec, b: Vec): Vec {
    Vec(a.x + b.x, a.y + b.y)
  }

  /** How far a motion goes, for the cosine c and sine s of the heading at its start. */
  function Step(c: real, s: real, m: Motion): Vec {
    Vec((m.vx * c - m.vy * s) * m.dt, (m.vx * s + m.vy * c) * m.dt)
  }

  function Moved(t: Trig, p: Pose, m: Motion): Pose {
    var d := Step(t.cos(p.heading), t.sin(p.heading), m);
    Pose(p.x + d.x, p.y + d.y, p.heading + m.wz * m.dt)
  }

  class OdomIntegrator {
    const trig: Trig
    var x: real
    var y: real
    var heading: real

    ghost function View(): Pose
      reads this
    {
      Pose(x, y, heading)
    }

    constructor (trig: Trig)
      ensures this.trig == trig && View() == ORIGIN
    {
      this.trig := trig;
      x, y, heading := 0.0, 0.0, 0.0;
    }

    method Update(velDt: real, linearVelX: real, linearVelY: real, angularVelZ: real)
      modifies this
      ensures View() == Moved(trig, old(View()), Motion(velDt, linearVelX, linearVelY, angularVelZ))
    {
      var deltaHeading := angularVelZ * velDt;
      var cosH := trig.cos(heading);
      var sinH := trig.sin(heading);
      var deltaX := (linearVelX * cosH - linearVelY * sinH) * velDt;
      var deltaY := (linearVelX * sinH + linearVelY * cosH) * velDt;
      x := x + deltaX;
      y := y + deltaY;
      heading := heading + deltaHeading;
    }
  }

  function Integrated(t: Trig, from: Pose, ms: seq<Motion>): Pose {
    if ms == [] then from else Moved(t, Integrated(t, from, ms[..|ms| - 1]), ms[|ms| - 1])
  }

  // ---------------------------------------------------------------------------------------------
  // Runs compose as rigid motions
  // ---------------------------------------------------------------------------------------------

  function Turned(c: real, s: real, v: Vec): Vec {
    Vec(c * v.x - s * v.y, s * v.x + c * v.y)
  }

  /** The pose q, given relative to p, seen from where p is given. */
  function Composed(t: Trig, p: Pose, q: Pose): Pose {
    var d := Turned(t.cos(p.heading), t.sin(p.heading), Vec(q.x, q.y));
    Pose(p.x + d.x, p.y + d.y, p.heading + q.heading)
  }

  lemma ZeroFactor(a: real, b: real)
    requires a * b == 0.0
    ensures a == 0.0 || b == 0.0
  {
  }

  lemma ZeroAngle(c: real, s: real)
    requires c * c + s * s == 1.0 && c == c * c - s * s && s == s * c + c * s
    ensures c == 1.0 && s == 0.0
  {
    assert s * (2.0 * c - 1.0) == 0.0;
    ZeroFactor(s, 2.0 * c - 1.0);
    assert (c - 1.0) * (2.0 * c + 1.0) == 0.0;
    ZeroFactor(c - 1.0, 2.0 * c + 1.0);
  }

  /** The laws leave only one possible value at angle zero. */
  lemma TrigAtZero(t: Trig)
    requires Lawful(t)
    ensures t.cos(0.0) == 1.0 && t.sin(0.0) == 0.0
  {
    var c, s := t.cos(0.0), t.sin(0.0);
    assert UnitCircle(t, 0.0) && AngleAddition(t, 0.0, 0.0);
    assert 0.0 + 0.0 == 0.0;
    assert c == c * c - s * s && s == s * c + c * s;
    ZeroAngle(c, s);
  }

  lemma TurnTwice(c: real, s: real, c1: real, s1: real, x: real, y: real)
    ensures x * (c * c1 - s * s1) - y * (s * c1 + c * s1) == c * (x * c1 - y * s1) - s * (x * s1 + y * c1)
    ensures x * (s * c1 + c * s1) + y * (c * c1 - s * s1) == s * (x * c1 - y * s1) + c * (x * s1 + y * c1)
  {
  }

  lemma LinearTimes(c: real, s: real, a: real, b: real, dt: real)
    ensures (c * a - s * b) * dt == c * (a * dt) - s * (b * dt)
    ensures (s * a + c * b) * dt == s * (a * dt) + c * (b * dt)
  {
  }

  /** Stepping from a sum of headings is stepping from one and turning by the other; cc and ss are
      the cosine and sine of the sum. */
  lemma StepOfSum(c: real, s: real, c1: real, s1: real, cc: real, ss: real, m: Motion)
    requires cc == c * c1 - s * s1 && ss == s * c1 + c * s1
    ensures Step(cc, ss, m) == Turned(c, s, Step(c1, s1, m))
  {
    TurnTwice(c, s, c1, s1, m.vx, m.vy);
    LinearTimes(c, s, m.vx * c1 - m.vy * s1, m.vx * s1 + m.vy * c1, m.dt);
  }

  lemma TurnedSum(c: real, s: real, a: Vec, b: Vec)
    ensures Turned(c, s, Sum(a, b)) == Sum(Turned(c, s, a), Turned(c, s, b))
  {
  }

  /** One integration step does not depend on where and how the base stands. */
  lemma StepIsEquivariant(t: Trig, p: Pose, q: Pose, m: Motion)
    requires Lawful(t)
    ensures Moved(t, Composed(t, p, q), m) == Composed(t, p, Moved(t, q, m))
  {
    hide Step, Turned;
    assert AngleAddition(t, p.heading, q.heading);
    var c, s := t.cos(p.heading), t.sin(p.heading);
    var c1, s1 := t.cos(q.heading), t.sin(q.heading);
    var sum := Composed(t, p, q).heading;
    assert sum == p.heading + q.heading;
    StepOfSum(c, s, c1, s1, t.cos(sum), t.sin(sum), m);
    var d := Step(c1, s1, m);
    TurnedSum(c, s, Vec(q.x, q.y), d);
    var there := Moved(t, q, m);
    assert Sum(Vec(q.x, q.y), d) == Vec(there.x, there.y);
  }

  lemma ComposedWithOrigin(t: Trig, p: Pose)
    ensures Composed(t, p, ORIGIN) == p
  {
  }

  /** Starting anywhere is starting at the origin and moving the result there. */
  lemma {:induction false} RunIsEquivariant(t: Trig, p: Pose, ms: seq<Motion>)
    requires Lawful(t)
    ensures Integrated(t, p, ms) == Composed(t, p, Integrated(t, ORIGIN, ms))
  {
    if ms == [] {
      ComposedWithOrigin(t, p);
    } else {
      var before := ms[..|ms| - 1];
      RunIsEquivariant(t, p, before);
      StepIsEquivariant(t, p, Integrated(t, ORIGIN, before), ms[|ms| - 1]);
    }
  }

  lemma {:induction false} IntegratedAppend(t: Trig, p: Pose, a: seq<Motion>, b: seq<Motion>)
    ensures Integrated(t, p, a + b) == Integrated(t, Integrated(t, p, a), b)
  {
    if b == [] {
      assert a + b == a;
    } else {
      var before := b[..|b| - 1];
      assert (a + b)[..|a + b| - 1] == a + before;
      IntegratedAppend(t, p, a, before);
    }
  }

  /** The integrator is a homomorphism from runs to rigid motions: driving A and then B ends at the
      composition of where A and B alone would end. */
  lemma RunsCompose(t: Trig, a: seq<Motion>, b: seq<Motion>)
    requires Lawful(t)
    ensures Integrated(t, ORIGIN, a + b)
            == Composed(t, Integrated(t, ORIGIN, a), Integrated(t, ORIGIN, b))
  {
    IntegratedAppend(t, ORIGIN, a, b);
    RunIsEquivariant(t, Integrated(t, ORIGIN, a), b);
  }

  /** Together with equivariance this fixes the integrator: from the origin, a step moves along the
      body axes. */
  lemma StepFromOrigin(t: Trig, m: Motion)
    requires Lawful(t)
    ensures Moved(t, ORIGIN, m) == Pose(m.vx * m.dt, m.vy * m.dt, m.wz * m.dt)
  {
    TrigAtZero(t);
  }

  // ---------------------------------------------------------------------------------------------
  // The pose never outruns the path
  // ---------------------------------------------------------------------------------------------

  ghost predicate IsSpeed(m: Motion, speed: real) {
    speed >= 0.0 && speed * speed == m.vx * m.vx + m.vy * m.vy
  }

  function PathLength(ms: seq<Motion>, speeds: seq<real>): real
    requires |ms| == |speeds|
  {
    if ms == [] then 0.0
    else PathLength(ms[..|ms| - 1], speeds[..|ms| - 1]) + speeds[|ms| - 1] * ms[|ms| - 1].dt
  }

  lemma SquareOfProduct(a: real, b: real)
    ensures (a * b) * (a * b) == (a * a) * (b * b)
  {
    assert (a * b) * (a * b) == a * (b * (a * b));
    assert b * (a * b) == a * (b * b);
    assert a * (a * (b * b)) == (a * a) * (b * b);
  }

  lemma Lagrange(x: real, y: real, dx: real, dy: real)
    ensures (x * x + y * y) * (dx * dx + dy * dy)
            == (x * dx + y * dy) * (x * dx + y * dy) + (x * dy - y * dx) * (x * dy - y * dx)
  {
  }

  /** Cauchy and Schwarz in the plane, without square roots. */
  lemma InnerProductBound(x: real, y: real, dx: real, dy: real, len: real, step: real)
    requires len >= 0.0 && step >= 0.0
    requires x * x + y * y <= len * len
    requires dx * dx + dy * dy == step * step
    ensures x * dx + y * dy <= len * step
  {
    var inner, cross := x * dx + y * dy, x * dy - y * dx;
    Lagrange(x, y, dx, dy);
    assert cross * cross >= 0.0;
    ProductMono(x * x + y * y, len * len, step * step, step * step);
    SquareOfProduct(len, step);
    SquareMono(inner, len * step);
  }

  lemma StepExtendsReach(x: real, y: real, d: Vec, len: real, step: real)
    requires len >= 0.0 && step >= 0.0
    requires x * x + y * y <= len * len
    requires d.x * d.x + d.y * d.y == step * step
    ensures (x + d.x) * (x + d.x) + (y + d.y) * (y + d.y) <= (len + step) * (len + step)
  {
    InnerProductBound(x, y, d.x, d.y, len, step);
    assert (x + d.x) * (x + d.x) + (y + d.y) * (y + d.y)
        == (x * x + y * y) + 2.0 * (x * d.x + y * d.y) + (d.x * d.x + d.y * d.y);
    assert (len + step) * (len + step) == len * len + 2.0 * (len * step) + step * step;
  }

  lemma RotationKeepsLength(c: real, s: real, x: real, y: real)
    requires c * c + s * s == 1.0
    ensures (x * c - y * s) * (x * c - y * s) + (x * s + y * c) * (x * s + y * c) == x * x + y * y
  {
    assert (x * c - y * s) * (x * c - y * s) + (x * s + y * c) * (x * s + y * c)
        == (x * x + y * y) * (c * c + s * s);
  }

  /** A step is as long as the speed times the time, whatever the heading. */
  lemma StepLength(c: real, s: real, m: Motion, speed: real)
    requires c * c + s * s == 1.0
    requires IsSpeed(m, speed)
    ensures var d := Step(c, s, m);
            d.x * d.x + d.y * d.y == (speed * m.dt) * (speed * m.dt)
  {
    var a, b, dt := m.vx * c - m.vy * s, m.vx * s + m.vy * c, m.dt;
    RotationKeepsLength(c, s, m.vx, m.vy);
    SquareOfProduct(a, dt);
    SquareOfProduct(b, dt);
    SquareOfProduct(speed, dt);
    assert (a * a) * (dt * dt) + (b * b) * (dt * dt) == (a * a + b * b) * (dt * dt);
  }

  lemma StepWithinSpeed(t: Trig, heading: real, m: Motion, speed: real)
    requires Lawful(t) && IsSpeed(m, speed) && m.dt >= 0.0
    ensures speed * m.dt >= 0.0
    ensures var d := Step(t.cos(heading), t.sin(heading), m);
            d.x * d.x + d.y * d.y == (speed * m.dt) * (speed * m.dt)
  {
    assert UnitCircle(t, heading);
    ProductMono(0.0, speed, 0.0, m.dt);
    StepLength(t.cos(heading), t.sin(heading), m, speed);
  }

  /** After any run the base is no farther from the start than the path it drove is long. */
  lemma {:induction false} PoseWithinPath(t: Trig, ms: seq<Motion>, speeds: seq<real>)
    requires Lawful(t)
    requires |ms| == |speeds|
    requires forall i :: 0 <= i < |ms| ==> ms[i].dt >= 0.0 && IsSpeed(ms[i], speeds[i])
    ensures PathLength(ms, speeds) >= 0.0
    ensures var p := Integrated(t, ORIGIN, ms);
            p.x * p.x + p.y * p.y <= PathLength(ms, speeds) * PathLength(ms, speeds)
  {
    hide Step, IsSpeed;
    if ms == [] {
    } else {
      var n := |ms| - 1;
      PoseWithinPath(t, ms[..n], speeds[..n]);
      var p := Integrated(t, ORIGIN, ms[..n]);
      StepWithinSpeed(t, p.heading, ms[n], speeds[n]);
      var d := Step(t.cos(p.heading), t.sin(p.heading), ms[n]);
      StepExtendsReach(p.x, p.y, d, PathLength(ms[..n], speeds[..n]), speeds[n] * ms[n].dt);
    }
  }
}
