/** Wheel mixing for the three base types, with proportional desaturation, and its inverse. */
module Kinematics {
  import opened Numeric

  const PI: real := 3.1415926535897932384626433832795

  datatype Base = DifferentialDrive | SkidSteer | Mecanum

  datatype Rpm = Rpm(motor1: real, motor2: real, motor3: real, motor4: real)

  datatype Velocities = Velocities(linearX: real, linearY: real, angularZ: real)

  /** The three components of a motion, each already expressed as wheel rpm. */
  datatype Demand = Demand(x: real, y: real, tan: real) {
    function Sum(): real {
      Abs(x) + Abs(y) + Abs(tan)
    }
  }

  function TotalWheels(base: Base): int {
    match base
    case DifferentialDrive => 2
    case SkidSteer => 4
    case Mecanum => 4
  }

  datatype Kinematics = Kinematics(base: Base, maxRpm: real, wheelsYDistance: real, wheelCircumference: real) {
    ghost predicate Valid() {
      maxRpm > 0.0 && wheelsYDistance > 0.0 && wheelCircumference > 0.0
    }

    /** The commanded motion in wheel rpm, before any scaling. */
    function Wanted(linearX: real, linearY: real, angularZ: real): Demand
      requires Valid()
    {
      var tangentialVel := angularZ * (wheelsYDistance / 2.0);
      Demand(linearX * 60.0 / wheelCircumference,
             linearY * 60.0 / wheelCircumference,
             tangentialVel * 60.0 / wheelCircumference)
    }

    /** The demand after the proportional scaling of the two cases the firmware treats. */
    function Scaled(linearY: real, angularZ: real, d: Demand): Demand
      requires Valid()
    {
      var xySum := Abs(d.x) + Abs(d.y);
      var xtanSum := Abs(d.x) + Abs(d.tan);
      if xySum >= maxRpm && angularZ == 0.0 then
        var velScaler := maxRpm / xySum;
        Demand(d.x * velScaler, d.y * velScaler, d.tan)
      else if xtanSum >= maxRpm && linearY == 0.0 then
        var velScaler := maxRpm / xtanSum;
        Demand(d.x * velScaler, d.y, d.tan * velScaler)
      else d
    }

    function CalculateRpm(linearX: real, linearY: real, angularZ: real): Rpm
      requires Valid()
    {
      var d := Scaled(linearY, angularZ, Wanted(linearX, linearY, angularZ));
      Rpm(Constrain(d.x - d.y - d.tan, -maxRpm, maxRpm),
          Constrain(d.x + d.y + d.tan, -maxRpm, maxRpm),
          Constrain(d.x + d.y - d.tan, -maxRpm, maxRpm),
          Constrain(d.x - d.y + d.tan, -maxRpm, maxRpm))
    }

    function GetRpm(linearX: real, linearY: real, angularZ: real): Rpm
      requires Valid()
    {
      CalculateRpm(linearX, if base == DifferentialDrive || base == SkidSteer then 0.0 else linearY, angularZ)
    }

    function GetVelocities(rpm1: real, rpm2: real, rpm3: real, rpm4: real): Velocities
      requires Valid()
    {
      var r3 := if base == DifferentialDrive then 0.0 else rpm3;
      var r4 := if base == DifferentialDrive then 0.0 else rpm4;
      var wheels := TotalWheels(base) as real;
      var averageRpsX := (rpm1 + rpm2 + r3 + r4) / wheels / 60.0;
      var averageRpsY := (-rpm1 + rpm2 + r3 - r4) / wheels / 60.0;
      var averageRpsA := (-rpm1 + rpm2 - r3 + r4) / wheels / 60.0;
      Velocities(averageRpsX * wheelCircumference,
                 if base == Mecanum then averageRpsY * wheelCircumference else 0.0,
                 averageRpsA * wheelCircumference / (wheelsYDistance / 2.0))
    }

    /** What the odometry reports when every wheel turns exactly as commanded. */
    function RoundTrip(linearX: real, linearY: real, angularZ: real): Velocities
      requires Valid()
    {
      var r := GetRpm(linearX, linearY, angularZ);
      GetVelocities(r.motor1, r.motor2, r.motor3, r.motor4)
    }

    /** The demand the base can act on: the two non-holonomic bases ignore sideways motion. */
    function Usable(linearX: real, linearY: real, angularZ: real): Demand
      requires Valid()
    {
      Wanted(linearX, if base == Mecanum then linearY else 0.0, angularZ)
    }
  }

  lemma UsableIsWanted(k: Kinematics, vx: real, vy: real, wz: real)
    requires k.Valid()
    ensures k.Usable(vx, vy, wz) == k.Wanted(vx, if k.base == Mecanum then vy else 0.0, wz)
  {
  }

  lemma SameFactor(a: real, b: real, c: real)
    requires c > 0.0
    ensures a * c == b * c ==> a == b
  {
    MulDiv(a, c);
    MulDiv(b, c);
  }

  /** The constructor: the speed limit follows from the supply voltage, clipped to the rated one. */
  function Configured(base: Base, motorMaxRpm: int, maxRpmRatio: real, motorOperatingVoltage: real,
                      motorPowerMaxVoltage: real, wheelDiameter: real, wheelsYDistance: real): Kinematics
    requires motorOperatingVoltage != 0.0
  {
    var supply := Constrain(motorPowerMaxVoltage, 0.0, motorOperatingVoltage);
    Kinematics(base, supply / motorOperatingVoltage * motorMaxRpm as real * maxRpmRatio,
               wheelsYDistance, PI * wheelDiameter)
  }

  lemma SpeedLimit(supply: real, opV: real, rated: real, ratio: real)
    requires 0.0 < supply <= opV && rated > 0.0 && ratio > 0.0 && rated * ratio > 0.0
    ensures supply / opV * rated * ratio > 0.0
    ensures supply / opV * rated * ratio * opV == supply * (rated * ratio)
    ensures supply / opV * rated * ratio <= rated * ratio
  {
    var f := supply / opV;
    DivMul(supply, opV);
    assert 0.0 < f <= 1.0;
    assert f * rated * ratio == f * (rated * ratio);
    ProductPositive(f, rated * ratio);
    MulMono(f, 1.0, rated * ratio);
    assert f * (rated * ratio) * opV == (f * opV) * (rated * ratio);
  }

  /** Any powered base of positive size meets the positivity the mixing needs. Its speed limit is the
      motor's scaled rating, reduced in proportion to the supply and never raised by a larger one. */
  lemma ConfiguredIsValid(base: Base, motorMaxRpm: int, ratio: real, opV: real, powV: real, diameter: real, dist: real)
    requires motorMaxRpm > 0 && ratio > 0.0 && opV > 0.0 && powV > 0.0 && diameter > 0.0 && dist > 0.0
    ensures var k := Configured(base, motorMaxRpm, ratio, opV, powV, diameter, dist);
            && k.Valid()
            && k.maxRpm * opV == Min(powV, opV) * (motorMaxRpm as real * ratio)
            && k.maxRpm <= motorMaxRpm as real * ratio
  {
    var rated := motorMaxRpm as real;
    var supply := Constrain(powV, 0.0, opV);
    assert supply == Min(powV, opV);
    ProductPositive(rated, ratio);
    SpeedLimit(supply, opV, rated, ratio);
    assert PI * diameter > 0.0 by { ProductPositive(PI, diameter); }
  }

  lemma TravelOfOneRim(r: real, circumference: real)
    ensures (r + r + r + r) / 4.0 / 60.0 * circumference * 60.0 == circumference * r
    ensures (r + r) / 2.0 / 60.0 * circumference * 60.0 == circumference * r
  {
  }

  lemma SpinOfOneRim(rim: real, arm: real)
    requires arm != 0.0
    ensures rim / arm * arm * 60.0 == rim * 60.0
  {
    DivMul(rim, arm);
  }

  lemma StraightAndSpin(k: Kinematics, r: real)
    requires k.Valid()
    ensures k.GetVelocities(r, r, r, r).linearX * 60.0 == k.wheelCircumference * r
    ensures k.GetVelocities(-r, r, -r, r).angularZ * (k.wheelsYDistance / 2.0) * 60.0 == k.wheelCircumference * r
  {
    TravelOfOneRim(r, k.wheelCircumference);
    var n := TotalWheels(k.base) as real;
    var rim := if k.base == DifferentialDrive then (r + r) / 2.0 / 60.0 * k.wheelCircumference
               else (r + r + r + r) / 4.0 / 60.0 * k.wheelCircumference;
    SpinOfOneRim(rim, k.wheelsYDistance / 2.0);
    if k.base == DifferentialDrive {
      assert (-(-r) + r - 0.0 + 0.0) / n / 60.0 == (r + r) / 2.0 / 60.0;
    } else {
      assert (-(-r) + r - (-r) + r) / n / 60.0 == (r + r + r + r) / 4.0 / 60.0;
    }
  }

  /** What a configured base is: of the base type asked for, with wheels and track of the given sizes.
      Turning all wheels once moves it one circumference ahead; turning the sides against each other
      moves each wheel one circumference along the circle between the wheels. */
  lemma ConfiguredGeometry(base: Base, motorMaxRpm: int, ratio: real, opV: real, powV: real,
                           diameter: real, dist: real, r: real)
    requires motorMaxRpm > 0 && ratio > 0.0 && opV > 0.0 && powV > 0.0 && diameter > 0.0 && dist > 0.0
    ensures var k := Configured(base, motorMaxRpm, ratio, opV, powV, diameter, dist);
            && k.base == base && k.Valid()
            && k.GetVelocities(r, r, r, r).linearX * 60.0 == PI * diameter * r
            && k.GetVelocities(-r, r, -r, r).angularZ * (dist / 2.0) * 60.0 == PI * diameter * r
    ensures 3.14159 < PI < 3.1416
  {
    ConfiguredIsValid(base, motorMaxRpm, ratio, opV, powV, diameter, dist);
    var k := Configured(base, motorMaxRpm, ratio, opV, powV, diameter, dist);
    StraightAndSpin(k, r);
  }

  /** A base without supply has no speed at all. */
  lemma UnpoweredBaseStandsStill(base: Base, motorMaxRpm: int, ratio: real, opV: real, powV: real,
                                 diameter: real, dist: real)
    requires opV > 0.0 && powV <= 0.0
    ensures Configured(base, motorMaxRpm, ratio, opV, powV, diameter, dist).maxRpm == 0.0
  {
    MulDiv(0.0, opV);
  }

  /** The board's base: half of the rated voltage, so half of 140 rpm, of which 85 percent are used. */
  lemma BoardLimit()
    ensures Configured(DifferentialDrive, 140, 0.85, 24.0, 12.0, 0.152, 0.271).maxRpm == 59.5
    ensures Configured(DifferentialDrive, 140, 0.85, 24.0, 12.0, 0.152, 0.271).Valid()
  {
  }

  // ---------------------------------------------------------------------------------------------
  // The mixing is linear: demands and velocities are two coordinates for the same thing
  // ---------------------------------------------------------------------------------------------

  /** The rim speed, in meters per second, of a wheel turning at the given rpm. */
  function Rim(k: Kinematics, rpm: real): real {
    rpm / 60.0 * k.wheelCircumference
  }

  /** The velocity that a demand stands for. */
  function VelocityOf(k: Kinematics, d: Demand): Velocities
    requires k.Valid()
  {
    Velocities(Rim(k, d.x),
               if k.base == Mecanum then Rim(k, d.y) else 0.0,
               Rim(k, d.tan) / (k.wheelsYDistance / 2.0))
  }

  function Times(s: real, v: Velocities): Velocities {
    Velocities(s * v.linearX, s * v.linearY, s * v.angularZ)
  }

  function TimesDemand(s: real, d: Demand): Demand {
    Demand(s * d.x, s * d.y, s * d.tan)
  }

  lemma RpmOfVelocity(v: real, c: real)
    requires c > 0.0
    ensures v * 60.0 / c / 60.0 * c == v
  {
    var q := v * 60.0 / c;
    DivMul(v * 60.0, c);
    assert q / 60.0 * c == q * c / 60.0;
  }

  lemma RpmOfRotation(w: real, dist: real, c: real)
    requires c > 0.0 && dist > 0.0
    ensures w * (dist / 2.0) * 60.0 / c / 60.0 * c / (dist / 2.0) == w
  {
    RpmOfVelocity(w * (dist / 2.0), c);
    MulDiv(w, dist / 2.0);
  }

  /** Turning a velocity into a demand loses nothing. */
  lemma VelocityOfWanted(k: Kinematics, vx: real, vy: real, wz: real)
    requires k.Valid()
    ensures VelocityOf(k, k.Wanted(vx, vy, wz)) == Velocities(vx, if k.base == Mecanum then vy else 0.0, wz)
  {
    RpmOfVelocity(vx, k.wheelCircumference);
    RpmOfVelocity(vy, k.wheelCircumference);
    RpmOfRotation(wz, k.wheelsYDistance, k.wheelCircumference);
  }

  lemma Associate(a: real, b: real, c: real)
    ensures a * b * c == a * (b * c)
  {
  }

  lemma RimOfScaled(k: Kinematics, s: real, rpm: real, scaled: real)
    requires scaled == s * rpm
    ensures Rim(k, scaled) == s * Rim(k, rpm)
  {
    assert scaled / 60.0 == s * (rpm / 60.0);
    Associate(s, rpm / 60.0, k.wheelCircumference);
  }

  lemma VelocityOfScaled(k: Kinematics, s: real, d: Demand)
    requires k.Valid()
    ensures VelocityOf(k, TimesDemand(s, d)) == Times(s, VelocityOf(k, d))
  {
    hide Rim;
    var e := TimesDemand(s, d);
    RimOfScaled(k, s, d.x, e.x);
    RimOfScaled(k, s, d.y, e.y);
    RimOfScaled(k, s, d.tan, e.tan);
    DivOfScaled(s, Rim(k, d.tan), k.wheelsYDistance / 2.0);
  }

  /** The four wheel speeds of a demand before they are clamped. */
  function Mixed(d: Demand): Rpm {
    Rpm(d.x - d.y - d.tan, d.x + d.y + d.tan, d.x + d.y - d.tan, d.x - d.y + d.tan)
  }

  /** The demand four wheel speeds amount to on a given base. */
  function Unmixed(base: Base, r: Rpm): Demand {
    if base == DifferentialDrive then
      Demand((r.motor1 + r.motor2) / 2.0, 0.0, (-r.motor1 + r.motor2) / 2.0)
    else
      Demand((r.motor1 + r.motor2 + r.motor3 + r.motor4) / 4.0,
             (-r.motor1 + r.motor2 + r.motor3 - r.motor4) / 4.0,
             (-r.motor1 + r.motor2 - r.motor3 + r.motor4) / 4.0)
  }

  lemma VelocitiesAreUnmixed(k: Kinematics, r: Rpm)
    requires k.Valid()
    ensures k.GetVelocities(r.motor1, r.motor2, r.motor3, r.motor4) == VelocityOf(k, Unmixed(k.base, r))
  {
  }

  lemma UnmixedMixed(base: Base, d: Demand)
    requires base != Mecanum ==> d.y == 0.0
    ensures Unmixed(base, Mixed(d)) == d
  {
  }

  // ---------------------------------------------------------------------------------------------
  // When the clamps act
  // ---------------------------------------------------------------------------------------------

  predicate Within(r: Rpm, limit: real) {
    && Abs(r.motor1) <= limit && Abs(r.motor2) <= limit
    && Abs(r.motor3) <= limit && Abs(r.motor4) <= limit
  }

  function Clamped(r: Rpm, limit: real): Rpm {
    Rpm(Constrain(r.motor1, -limit, limit), Constrain(r.motor2, -limit, limit),
        Constrain(r.motor3, -limit, limit), Constrain(r.motor4, -limit, limit))
  }

  /** The mixing realizes every sign pattern, so no wheel is clamped exactly when the three
      components together fit under the limit. */
  lemma ClampsInactiveIff(d: Demand, limit: real)
    requires limit > 0.0
    ensures Clamped(Mixed(d), limit) == Mixed(d) <==> d.Sum() <= limit
    ensures Within(Mixed(d), limit) <==> d.Sum() <= limit
  {
  }

  lemma RatioTimes(limit: real, sum: real)
    requires sum >= limit > 0.0
    ensures 0.0 < limit / sum <= 1.0
    ensures limit / sum * sum == limit
    ensures sum > limit ==> limit / sum < 1.0
  {
    DivMul(limit, sum);
  }

  /** The factor by which a command has to slow down to fit. */
  function Slowdown(limit: real, d: Demand): real
    requires limit > 0.0
  {
    if d.Sum() <= limit then 1.0 else limit / d.Sum()
  }

  lemma AbsOfScaled(s: real, a: real)
    requires s >= 0.0
    ensures Abs(s * a) == s * Abs(a)
  {
    AbsOfProduct(s, a);
  }

  lemma Distribute(a: real, b: real, c: real, s: real)
    ensures (a + b + c) * s == a * s + b * s + c * s
  {
  }

  lemma FactorOut(s: real, a: real, b: real, c: real, sa: real, sb: real, sc: real)
    requires sa == s * a && sb == s * b && sc == s * c
    ensures sa + sb + sc == s * (a + b + c)
  {
  }

  lemma ScaledSum(s: real, d: Demand)
    requires s >= 0.0
    ensures TimesDemand(s, d).Sum() == s * d.Sum()
  {
    var e := TimesDemand(s, d);
    AbsOfScaled(s, d.x);
    AbsOfScaled(s, d.y);
    AbsOfScaled(s, d.tan);
    hide Abs;
    FactorOut(s, Abs(d.x), Abs(d.y), Abs(d.tan), Abs(e.x), Abs(e.y), Abs(e.tan));
  }

  lemma WantedIsZeroIff(k: Kinematics, vx: real, vy: real, wz: real)
    requires k.Valid()
    ensures k.Wanted(vx, vy, wz).x == 0.0 <==> vx == 0.0
    ensures k.Wanted(vx, vy, wz).y == 0.0 <==> vy == 0.0
    ensures k.Wanted(vx, vy, wz).tan == 0.0 <==> wz == 0.0
  {
    VelocityOfWanted(Kinematics(Mecanum, k.maxRpm, k.wheelsYDistance, k.wheelCircumference), vx, vy, wz);
  }

  /** At the limit itself the ratio is one, so both ways of writing the slowdown agree. */
  lemma ByRatio(limit: real, sum: real, d: Demand)
    requires limit > 0.0 && sum >= limit && d.Sum() == sum
    ensures TimesDemand(Slowdown(limit, d), d)
            == Demand(d.x * (limit / sum), d.y * (limit / sum), d.tan * (limit / sum))
  {
    DivSelf(limit);
  }

  lemma ScaledWithoutRotation(k: Kinematics, vy: real, d: Demand)
    requires k.Valid() && d.tan == 0.0 && (d.y == 0.0 <==> vy == 0.0)
    ensures k.Scaled(vy, 0.0, d) == TimesDemand(Slowdown(k.maxRpm, d), d)
  {
    var sum := Abs(d.x) + Abs(d.y);
    assert d.Sum() == sum;
    if sum >= k.maxRpm {
      RatioTimes(k.maxRpm, sum);
      ByRatio(k.maxRpm, sum, d);
    }
  }

  lemma ScaledWithoutSideways(k: Kinematics, wz: real, d: Demand)
    requires k.Valid() && d.y == 0.0 && d.tan != 0.0 && wz != 0.0
    ensures k.Scaled(0.0, wz, d) == TimesDemand(Slowdown(k.maxRpm, d), d)
  {
    var sum := Abs(d.x) + Abs(d.tan);
    assert d.Sum() == sum;
    if sum >= k.maxRpm {
      RatioTimes(k.maxRpm, sum);
      ByRatio(k.maxRpm, sum, d);
    }
  }

  lemma TimesOne(d: Demand)
    ensures TimesDemand(1.0, d) == d
  {
  }

  lemma SlowdownFits(limit: real, d: Demand)
    requires limit > 0.0
    ensures var s := Slowdown(limit, d);
            && 0.0 < s <= 1.0
            && TimesDemand(s, d).Sum() == Min(limit, d.Sum())
            && (d.Sum() <= limit ==> TimesDemand(s, d) == d)
  {
    TimesOne(d);
    hide Demand.Sum, TimesDemand;
    if d.Sum() > limit {
      RatioTimes(limit, d.Sum());
      ScaledSum(limit / d.Sum(), d);
    }
  }

  lemma ScaledIsUniform(k: Kinematics, vy: real, wz: real, d: Demand)
    requires k.Valid()
    requires d.y == 0.0 <==> vy == 0.0
    requires d.tan == 0.0 <==> wz == 0.0
    requires vy == 0.0 || wz == 0.0
    ensures var s := Slowdown(k.maxRpm, d);
            && 0.0 < s <= 1.0
            && k.Scaled(vy, wz, d) == TimesDemand(s, d)
            && TimesDemand(s, d).Sum() <= k.maxRpm
  {
    SlowdownFits(k.maxRpm, d);
    if wz == 0.0 {
      ScaledWithoutRotation(k, vy, d);
    } else {
      ScaledWithoutSideways(k, wz, d);
    }
    hide *;
  }

  /** With no sideways motion or no rotation, the two scaling cases amount to one uniform slowdown,
      after which no clamp acts. */
  lemma ScalingIsUniform(k: Kinematics, vx: real, vy: real, wz: real)
    requires k.Valid()
    requires vy == 0.0 || wz == 0.0
    ensures var d := k.Wanted(vx, vy, wz);
            var s := Slowdown(k.maxRpm, d);
            && 0.0 < s <= 1.0
            && k.Scaled(vy, wz, d) == TimesDemand(s, d)
            && TimesDemand(s, d).Sum() <= k.maxRpm
  {
    WantedIsZeroIff(k, vx, vy, wz);
    ScaledIsUniform(k, vy, wz, k.Wanted(vx, vy, wz));
  }

  lemma GetRpmIsClampedMix(k: Kinematics, vx: real, vy: real, wz: real)
    requires k.Valid()
    ensures k.GetRpm(vx, vy, wz)
            == Clamped(Mixed(k.Scaled(if k.base == Mecanum then vy else 0.0, wz, k.Usable(vx, vy, wz))), k.maxRpm)
  {
  }

  // ---------------------------------------------------------------------------------------------
  // Main results
  // ---------------------------------------------------------------------------------------------

  /** A command that mixes at most one of sideways motion and rotation with forward motion comes
      back as itself, slowed down by one common factor: the path's curvature is kept exactly. */
  lemma DesaturationKeepsTheMotion(k: Kinematics, vx: real, vy: real, wz: real)
    requires k.Valid()
    requires k.base != Mecanum || vy == 0.0 || wz == 0.0
    ensures var d := k.Usable(vx, vy, wz);
            k.RoundTrip(vx, vy, wz)
            == Times(Slowdown(k.maxRpm, d), Velocities(vx, if k.base == Mecanum then vy else 0.0, wz))
  {
    var uy := if k.base == Mecanum then vy else 0.0;
    var d := k.Wanted(vx, uy, wz);
    var s := Slowdown(k.maxRpm, d);
    ScalingIsUniform(k, vx, uy, wz);
    WantedIsZeroIff(k, vx, uy, wz);
    var e := TimesDemand(s, d);
    ClampsInactiveIff(e, k.maxRpm);
    assert k.GetRpm(vx, vy, wz) == Mixed(e);
    assert k.base != Mecanum ==> e.y == 0.0;
    UnmixedMixed(k.base, e);
    VelocitiesAreUnmixed(k, Mixed(e));
    VelocityOfScaled(k, s, d);
    VelocityOfWanted(k, vx, uy, wz);
  }

  /** Scaling down replaces clamping wheel by wheel for all commands but one family: those that ask a
      mecanum base for both sideways motion and rotation and do not fit. */
  lemma ScalingSufficesIff(k: Kinematics, vx: real, vy: real, wz: real)
    requires k.Valid()
    ensures var d := k.Usable(vx, vy, wz);
            var scaled := k.Scaled(if k.base == Mecanum then vy else 0.0, wz, d);
            Clamped(Mixed(scaled), k.maxRpm) == Mixed(scaled)
            <==> k.base != Mecanum || vy == 0.0 || wz == 0.0 || d.Sum() <= k.maxRpm
  {
    hide Kinematics.Wanted, Demand.Sum;
    var uy := if k.base == Mecanum then vy else 0.0;
    var d := k.Wanted(vx, uy, wz);
    UsableIsWanted(k, vx, vy, wz);
    ClampsInactiveIff(k.Scaled(uy, wz, d), k.maxRpm);
    if uy == 0.0 || wz == 0.0 {
      ScalingIsUniform(k, vx, uy, wz);
    }
  }

  /** Clamping is visible: on four wheels no clamped set of speeds unmixes to the original demand
      unless nothing was clamped. */
  lemma ClampingChangesTheDemand(d: Demand, limit: real)
    requires limit > 0.0
    ensures Unmixed(Mecanum, Clamped(Mixed(d), limit)) == d <==> d.Sum() <= limit
  {
    ClampsInactiveIff(d, limit);
    UnmixedMixed(Mecanum, d);
  }

  lemma VelocityDeterminesDemand(k: Kinematics, a: Demand, b: Demand)
    requires k.Valid()
    requires k.base == Mecanum || (a.y == 0.0 && b.y == 0.0)
    ensures VelocityOf(k, a) == VelocityOf(k, b) <==> a == b
  {
    if VelocityOf(k, a) == VelocityOf(k, b) {
      var h := k.wheelsYDistance / 2.0;
      SameFactor(a.x / 60.0, b.x / 60.0, k.wheelCircumference);
      SameFactor(a.y / 60.0, b.y / 60.0, k.wheelCircumference);
      DivMul(a.tan / 60.0 * k.wheelCircumference, h);
      DivMul(b.tan / 60.0 * k.wheelCircumference, h);
      SameFactor(a.tan / 60.0, b.tan / 60.0, k.wheelCircumference);
    }
  }

  lemma CombinedRoundTripIsExactIff(k: Kinematics, vx: real, vy: real, wz: real)
    requires k.Valid() && k.base == Mecanum && vy != 0.0 && wz != 0.0
    ensures k.RoundTrip(vx, vy, wz) == Velocities(vx, vy, wz) <==> k.Wanted(vx, vy, wz).Sum() <= k.maxRpm
  {
    hide Kinematics.Wanted, Kinematics.GetVelocities, VelocityOf, Clamped, Mixed, Unmixed, Demand.Sum;
    var d := k.Wanted(vx, vy, wz);
    var r := Clamped(Mixed(d), k.maxRpm);
    VelocityOfWanted(k, vx, vy, wz);
    UsableIsWanted(k, vx, vy, wz);
    GetRpmIsClampedMix(k, vx, vy, wz);
    VelocitiesAreUnmixed(k, r);
    ClampingChangesTheDemand(d, k.maxRpm);
    VelocityDeterminesDemand(k, Unmixed(Mecanum, r), d);
  }

  lemma TimesDemandZeroY(s: real, d: Demand)
    ensures d.y == 0.0 ==> TimesDemand(s, d).y == 0.0
  {
  }

  lemma SlowdownIsOneIff(k: Kinematics, vx: real, vy: real, wz: real)
    requires k.Valid()
    ensures var d := k.Usable(vx, vy, wz);
            var v := Velocities(vx, if k.base == Mecanum then vy else 0.0, wz);
            Times(Slowdown(k.maxRpm, d), v) == v <==> d.Sum() <= k.maxRpm
  {
    hide Kinematics.Wanted, VelocityOf, TimesDemand, Times;
    var uy := if k.base == Mecanum then vy else 0.0;
    var d := k.Usable(vx, vy, wz);
    var s := Slowdown(k.maxRpm, d);
    UsableIsWanted(k, vx, vy, wz);
    WantedIsZeroIff(k, vx, uy, wz);
    VelocityOfWanted(k, vx, uy, wz);
    VelocityOfScaled(k, s, d);
    SlowdownFits(k.maxRpm, d);
    TimesDemandZeroY(s, d);
    VelocityDeterminesDemand(k, TimesDemand(s, d), d);
  }

  /** The command survives the round trip unchanged exactly when it fits under the speed limit:
      true for every base and every command, mixed ones included. */
  lemma RoundTripIsExactIff(k: Kinematics, vx: real, vy: real, wz: real)
    requires k.Valid()
    ensures k.RoundTrip(vx, vy, wz) == Velocities(vx, if k.base == Mecanum then vy else 0.0, wz)
            <==> k.Usable(vx, vy, wz).Sum() <= k.maxRpm
  {
    hide Kinematics.Wanted, Kinematics.RoundTrip, Demand.Sum;
    if k.base == Mecanum && vy != 0.0 && wz != 0.0 {
      UsableIsWanted(k, vx, vy, wz);
      CombinedRoundTripIsExactIff(k, vx, vy, wz);
    } else {
      DesaturationKeepsTheMotion(k, vx, vy, wz);
      SlowdownIsOneIff(k, vx, vy, wz);
    }
  }

  lemma RimSpeedOfWanted(k: Kinematics, vx: real, vy: real, wz: real)
    requires k.Valid()
    ensures var d := k.Wanted(vx, vy, wz);
            && d.x * k.wheelCircumference == 60.0 * vx
            && d.y * k.wheelCircumference == 60.0 * vy
            && d.tan * k.wheelCircumference == 60.0 * (wz * (k.wheelsYDistance / 2.0))
  {
    DivMul(vx * 60.0, k.wheelCircumference);
    DivMul(vy * 60.0, k.wheelCircumference);
    DivMul(wz * (k.wheelsYDistance / 2.0) * 60.0, k.wheelCircumference);
  }

  lemma RimSpeeds(d: Demand, c: real, x: real, y: real, t: real)
    requires d.x * c == x && d.y * c == y && d.tan * c == t
    ensures Mixed(d).motor1 * c == x - y - t
    ensures Mixed(d).motor2 * c == x + y + t
    ensures Mixed(d).motor3 * c == x + y - t
    ensures Mixed(d).motor4 * c == x - y + t
  {
    Distribute(d.x, -d.y, -d.tan, c);
    Distribute(d.x, d.y, d.tan, c);
    Distribute(d.x, d.y, -d.tan, c);
    Distribute(d.x, -d.y, d.tan, c);
  }

  lemma FittingDemandIsUnscaled(k: Kinematics, vx: real, vy: real, wz: real)
    requires k.Valid()
    requires k.Wanted(vx, vy, wz).Sum() <= k.maxRpm
    ensures k.Scaled(vy, wz, k.Wanted(vx, vy, wz)) == k.Wanted(vx, vy, wz)
  {
    var d := k.Wanted(vx, vy, wz);
    if vy == 0.0 || wz == 0.0 {
      ScalingIsUniform(k, vx, vy, wz);
      SlowdownFits(k.maxRpm, d);
    }
    hide Kinematics.Wanted;
  }

  lemma FittingDemandIsMixed(k: Kinematics, vx: real, vy: real, wz: real)
    requires k.Valid()
    requires k.Usable(vx, vy, wz).Sum() <= k.maxRpm
    ensures k.GetRpm(vx, vy, wz) == Mixed(k.Usable(vx, vy, wz))
  {
    var uy := if k.base == Mecanum then vy else 0.0;
    FittingDemandIsUnscaled(k, vx, uy, wz);
    GetRpmIsClampedMix(k, vx, vy, wz);
    ClampsInactiveIff(k.Usable(vx, vy, wz), k.maxRpm);
  }

  /** The rpm at which the wheels of a rigid body roll along: each covers the forward motion, the
      sideways motion through its rollers, and the rotation on its side of the track. */
  function RigidBody(k: Kinematics, vx: real, vy: real, wz: real): Rpm
    requires k.Valid()
  {
    var turn := wz * (k.wheelsYDistance / 2.0);
    Rpm((vx - vy - turn) * 60.0 / k.wheelCircumference,
        (vx + vy + turn) * 60.0 / k.wheelCircumference,
        (vx + vy - turn) * 60.0 / k.wheelCircumference,
        (vx - vy + turn) * 60.0 / k.wheelCircumference)
  }

  lemma RpmOfRim(rpm: real, c: real, v: real)
    requires c > 0.0 && rpm * c == 60.0 * v
    ensures rpm == v * 60.0 / c
  {
    DivMul(v * 60.0, c);
    SameFactor(rpm, v * 60.0 / c, c);
  }

  lemma MixedIsRigidBody(k: Kinematics, vx: real, vy: real, wz: real)
    requires k.Valid()
    ensures Mixed(k.Wanted(vx, vy, wz)) == RigidBody(k, vx, vy, wz)
  {
    hide Kinematics.Wanted, Mixed;
    var d, c, turn := k.Wanted(vx, vy, wz), k.wheelCircumference, wz * (k.wheelsYDistance / 2.0);
    RimSpeedOfWanted(k, vx, vy, wz);
    RimSpeeds(d, c, 60.0 * vx, 60.0 * vy, 60.0 * turn);
    RpmOfRim(Mixed(d).motor1, c, vx - vy - turn);
    RpmOfRim(Mixed(d).motor2, c, vx + vy + turn);
    RpmOfRim(Mixed(d).motor3, c, vx + vy - turn);
    RpmOfRim(Mixed(d).motor4, c, vx - vy + turn);
  }

  function TimesRpm(s: real, r: Rpm): Rpm {
    Rpm(s * r.motor1, s * r.motor2, s * r.motor3, s * r.motor4)
  }

  lemma MixedOfScaled(s: real, d: Demand)
    ensures Mixed(TimesDemand(s, d)) == TimesRpm(s, Mixed(d))
  {
    Distribute(d.x, -d.y, -d.tan, s);
    Distribute(d.x, d.y, d.tan, s);
    Distribute(d.x, d.y, -d.tan, s);
    Distribute(d.x, -d.y, d.tan, s);
  }

  lemma SlowedDemandIsMixed(k: Kinematics, vx: real, vy: real, wz: real)
    requires k.Valid() && (k.base != Mecanum || vy == 0.0 || wz == 0.0)
    ensures var d := k.Usable(vx, vy, wz);
            k.GetRpm(vx, vy, wz) == Mixed(TimesDemand(Slowdown(k.maxRpm, d), d))
  {
    hide Kinematics.Wanted, Slowdown, Mixed, Clamped, Kinematics.Scaled, TimesDemand, Demand.Sum;
    var uy := if k.base == Mecanum then vy else 0.0;
    UsableIsWanted(k, vx, vy, wz);
    ScalingIsUniform(k, vx, uy, wz);
    GetRpmIsClampedMix(k, vx, vy, wz);
    var d := k.Usable(vx, vy, wz);
    ClampsInactiveIff(TimesDemand(Slowdown(k.maxRpm, d), d), k.maxRpm);
  }

  /** A command that does not combine sideways motion with rotation gives the wheels the speeds of the
      rigid body times one common slowdown; one that does gives each wheel its speed, cut off at the
      limit by itself. While a command fits, the wheels get exactly the rigid body's speeds. */
  lemma WheelsFollowTheRigidBody(k: Kinematics, vx: real, vy: real, wz: real)
    requires k.Valid()
    ensures var body := RigidBody(k, vx, if k.base == Mecanum then vy else 0.0, wz);
            k.GetRpm(vx, vy, wz)
            == if k.base != Mecanum || vy == 0.0 || wz == 0.0 then
                 TimesRpm(Slowdown(k.maxRpm, k.Usable(vx, vy, wz)), body)
               else
                 Clamped(body, k.maxRpm)
    ensures k.Usable(vx, vy, wz).Sum() <= k.maxRpm ==>
              k.GetRpm(vx, vy, wz) == RigidBody(k, vx, if k.base == Mecanum then vy else 0.0, wz)
  {
    hide Kinematics.Wanted, Mixed, RigidBody, TimesRpm, TimesDemand, Clamped, Demand.Sum, Slowdown;
    var uy := if k.base == Mecanum then vy else 0.0;
    UsableIsWanted(k, vx, vy, wz);
    MixedIsRigidBody(k, vx, uy, wz);
    if k.base != Mecanum || vy == 0.0 || wz == 0.0 {
      SlowedDemandIsMixed(k, vx, vy, wz);
      var d := k.Usable(vx, vy, wz);
      MixedOfScaled(Slowdown(k.maxRpm, d), d);
    } else {
      GetRpmIsClampedMix(k, vx, vy, wz);
    }
    if k.Usable(vx, vy, wz).Sum() <= k.maxRpm {
      FittingDemandIsMixed(k, vx, vy, wz);
    }
  }

  lemma WantedOfVelocity(k: Kinematics, d: Demand)
    requires k.Valid() && (k.base == Mecanum || d.y == 0.0)
    ensures var v := VelocityOf(k, d); k.Wanted(v.linearX, v.linearY, v.angularZ) == d
  {
    var v := VelocityOf(k, d);
    var e := k.Wanted(v.linearX, v.linearY, v.angularZ);
    VelocityOfWanted(k, v.linearX, v.linearY, v.angularZ);
    WantedIsZeroIff(k, v.linearX, v.linearY, v.angularZ);
    VelocityDeterminesDemand(k, e, d);
  }

  /** On a differential base the mixing undoes the odometry: reachable wheel speeds are recovered. */
  lemma MixingInvertsOdometry(k: Kinematics, r1: real, r2: real, r3: real, r4: real)
    requires k.Valid() && k.base == DifferentialDrive
    requires Abs(r1) <= k.maxRpm && Abs(r2) <= k.maxRpm
    ensures var v := k.GetVelocities(r1, r2, r3, r4);
            var r := k.GetRpm(v.linearX, v.linearY, v.angularZ);
            r.motor1 == r1 && r.motor2 == r2
  {
    var d := Unmixed(DifferentialDrive, Rpm(r1, r2, r3, r4));
    VelocitiesAreUnmixed(k, Rpm(r1, r2, r3, r4));
    var v := VelocityOf(k, d);
    WantedOfVelocity(k, d);
    FittingDemandIsMixed(k, v.linearX, 0.0, v.angularZ);
  }

  /** A second pass through the mixing changes nothing: what the wheels can do of a command is a
      fixed point on both non-holonomic bases. */
  lemma MixingIsAProjection(k: Kinematics, vx: real, vy: real, wz: real)
    requires k.Valid() && k.base != Mecanum
    ensures var v := k.RoundTrip(vx, vy, wz);
            k.GetRpm(v.linearX, v.linearY, v.angularZ) == k.GetRpm(vx, vy, wz)
  {
    var d := k.Wanted(vx, 0.0, wz);
    var s := Slowdown(k.maxRpm, d);
    var e := TimesDemand(s, d);
    ScalingIsUniform(k, vx, 0.0, wz);
    WantedIsZeroIff(k, vx, 0.0, wz);
    ClampsInactiveIff(e, k.maxRpm);
    assert k.GetRpm(vx, vy, wz) == Mixed(e);
    UnmixedMixed(k.base, e);
    VelocitiesAreUnmixed(k, Mixed(e));
    var v := VelocityOf(k, e);
    WantedOfVelocity(k, e);
    FittingDemandIsMixed(k, v.linearX, v.linearY, v.angularZ);
  }

  /** A zero command asks every wheel to stand still. */
  lemma ZeroCommandStopsTheWheels(k: Kinematics)
    requires k.Valid()
    ensures k.GetRpm(0.0, 0.0, 0.0) == Rpm(0.0, 0.0, 0.0, 0.0)
  {
    WantedIsZeroIff(k, 0.0, 0.0, 0.0);
  }
}
