/** Slowing a command down to what the motors can do: when the motion survives and only gets slower. */
module Desaturation {
  import opened Numeric
  import opened Kinematics

  /** What is left of a demand on four wheels once each wheel is clamped by itself. */
  function Remaining(d: Demand, limit: real): Demand {
    Unmixed(Mecanum, Clamped(Mixed(d), limit))
  }

  /** Clamping keeps the direction of a demand and leaves the fraction s of it. */
  predicate KeptAt(d: Demand, limit: real, s: real) {
    Remaining(d, limit) == TimesDemand(s, d)
  }

  function Magnitudes(d: Demand): Demand {
    Demand(Abs(d.x), Abs(d.y), Abs(d.tan))
  }

  // ---------------------------------------------------------------------------------------------
  // Signs do not matter: turning a component around only permutes the wheels
  // ---------------------------------------------------------------------------------------------

  lemma ClampIsOdd(r: real, limit: real)
    requires limit > 0.0
    ensures Constrain(-r, -limit, limit) == -Constrain(r, -limit, limit)
  {
  }

  lemma WheelsClampedOddly(d: Demand, limit: real)
    requires limit > 0.0
    ensures var r := Mixed(d);
            && Constrain(-r.motor1, -limit, limit) == -Constrain(r.motor1, -limit, limit)
            && Constrain(-r.motor2, -limit, limit) == -Constrain(r.motor2, -limit, limit)
            && Constrain(-r.motor3, -limit, limit) == -Constrain(r.motor3, -limit, limit)
            && Constrain(-r.motor4, -limit, limit) == -Constrain(r.motor4, -limit, limit)
  {
    hide Constrain;
    ClampIsOdd(Mixed(d).motor1, limit);
    ClampIsOdd(Mixed(d).motor2, limit);
    ClampIsOdd(Mixed(d).motor3, limit);
    ClampIsOdd(Mixed(d).motor4, limit);
  }

  lemma TurnedAroundX(d: Demand, limit: real)
    requires limit > 0.0
    ensures Remaining(d.(x := -d.x), limit) == Remaining(d, limit).(x := -Remaining(d, limit).x)
  {
    hide Constrain;
    WheelsClampedOddly(d, limit);
    var r, e := Mixed(d), Mixed(d.(x := -d.x));
    assert e.motor1 == -r.motor2 && e.motor2 == -r.motor1 && e.motor3 == -r.motor4 && e.motor4 == -r.motor3;
  }

  lemma TurnedAroundY(d: Demand, limit: real)
    requires limit > 0.0
    ensures Remaining(d.(y := -d.y), limit) == Remaining(d, limit).(y := -Remaining(d, limit).y)
  {
    hide Constrain;
    WheelsClampedOddly(d, limit);
    var r, e := Mixed(d), Mixed(d.(y := -d.y));
    assert e.motor1 == r.motor3 && e.motor3 == r.motor1 && e.motor2 == r.motor4 && e.motor4 == r.motor2;
  }

  lemma TurnedAroundTan(d: Demand, limit: real)
    requires limit > 0.0
    ensures Remaining(d.(tan := -d.tan), limit) == Remaining(d, limit).(tan := -Remaining(d, limit).tan)
  {
    hide Constrain;
    WheelsClampedOddly(d, limit);
    var r, e := Mixed(d), Mixed(d.(tan := -d.tan));
    assert e.motor1 == r.motor4 && e.motor4 == r.motor1 && e.motor2 == r.motor3 && e.motor3 == r.motor2;
  }

  lemma TimesNegative(s: real, a: real)
    ensures s * -a == -(s * a)
  {
  }

  lemma SignsDoNotMatter(d: Demand, limit: real, s: real)
    requires limit > 0.0
    ensures KeptAt(d, limit, s) <==> KeptAt(Magnitudes(d), limit, s)
  {
    hide Remaining;
    TimesNegative(s, d.x);
    TimesNegative(s, d.y);
    TimesNegative(s, d.tan);
    var e := if d.x < 0.0 then d.(x := -d.x) else d;
    var f := if d.y < 0.0 then e.(y := -e.y) else e;
    TurnedAroundX(d, limit);
    TurnedAroundY(e, limit);
    TurnedAroundTan(f, limit);
  }

  // ---------------------------------------------------------------------------------------------
  // One wheel carries the whole sum; each other wheel differs from it by twice one component
  // ---------------------------------------------------------------------------------------------

  /** The wheel that carries the sum and the one without component c together keep the fraction s. */
  predicate PairKeptAt(limit: real, sum: real, c: real, s: real) {
    limit + Constrain(sum - 2.0 * c, -limit, limit) == 2.0 * (s * (sum - c))
  }

  lemma Distributed(s: real, a: real, b: real)
    ensures s * (a + b) == s * a + s * b
  {
  }

  lemma PairsOfTimes(s: real, d: Demand)
    ensures var e := TimesDemand(s, d);
            && s * (d.y + d.tan) == e.y + e.tan && s * (d.x + d.tan) == e.x + e.tan && s * (d.x + d.y) == e.x + e.y
  {
    Distributed(s, d.y, d.tan);
    Distributed(s, d.x, d.tan);
    Distributed(s, d.x, d.y);
  }

  lemma PairIs(limit: real, sum: real, c: real, s: real, others: real, kept: real)
    requires sum - c == others && s * others == kept
    ensures PairKeptAt(limit, sum, c, s) <==> limit + Constrain(sum - 2.0 * c, -limit, limit) == 2.0 * kept
  {
    hide Constrain;
  }

  lemma RemainingByPairs(d: Demand, limit: real, sum: real)
    requires limit > 0.0 && d.x >= 0.0 && d.y >= 0.0 && d.tan >= 0.0 && sum == d.x + d.y + d.tan > limit
    ensures var r := Remaining(d, limit);
            && 2.0 * (r.y + r.tan) == limit + Constrain(sum - 2.0 * d.x, -limit, limit)
            && 2.0 * (r.x + r.tan) == limit + Constrain(sum - 2.0 * d.y, -limit, limit)
            && 2.0 * (r.x + r.y) == limit + Constrain(sum - 2.0 * d.tan, -limit, limit)
  {
  }

  lemma KeptByPairs(d: Demand, limit: real, s: real, sum: real)
    requires limit > 0.0 && d.x >= 0.0 && d.y >= 0.0 && d.tan >= 0.0 && sum == d.x + d.y + d.tan > limit
    ensures KeptAt(d, limit, s)
            <==> PairKeptAt(limit, sum, d.x, s) && PairKeptAt(limit, sum, d.y, s) && PairKeptAt(limit, sum, d.tan, s)
  {
    hide Remaining, Constrain, PairKeptAt, TimesDemand;
    var r, e := Remaining(d, limit), TimesDemand(s, d);
    RemainingByPairs(d, limit, sum);
    PairsOfTimes(s, d);
    PairIs(limit, sum, d.x, s, d.y + d.tan, e.y + e.tan);
    PairIs(limit, sum, d.y, s, d.x + d.tan, e.x + e.tan);
    PairIs(limit, sum, d.tan, s, d.x + d.y, e.x + e.y);
    assert r == e <==> r.y + r.tan == e.y + e.tan && r.x + r.tan == e.x + e.tan && r.x + r.y == e.x + e.y;
  }

  /** Two different components p > q lose the same fraction: the wheel without p is not clamped, the
      one without q is. */
  predicate Balanced(limit: real, sum: real, p: real, q: real) {
    (sum - 2.0 * p + limit) * (sum - q) == 2.0 * limit * (sum - p)
  }

  /** Products and ratios under names, so that proofs can treat them as single quantities. */
  function Cross(a: real, b: real): real {
    a * b
  }

  function Ratio(n: real, half: real): real
    requires half != 0.0
  {
    n / (2.0 * half)
  }

  /** The fraction a component keeps. */
  function Fraction(limit: real, sum: real, c: real): real
    requires sum > c
  {
    Ratio(limit + Constrain(sum - 2.0 * c, -limit, limit), sum - c)
  }

  lemma FractionIs(limit: real, sum: real, c: real, s: real)
    requires sum > c
    ensures PairKeptAt(limit, sum, c, s) <==> s == Fraction(limit, sum, c)
  {
    var n, d := limit + Constrain(sum - 2.0 * c, -limit, limit), 2.0 * (sum - c);
    DivMul(n, d);
    MulDiv(s, d);
    assert 2.0 * (s * (sum - c)) == s * d;
  }

  lemma RatioInRange(n: real, d: real)
    requires 0.0 < n <= d
    ensures 0.0 < n / d <= 1.0
  {
    DivMul(n, d);
    if n / d <= 0.0 {
      MulMono(n / d, 0.0, d);
    }
    if n / d > 1.0 {
      ProductPositive(n / d - 1.0, d);
    }
  }

  lemma FractionInRange(limit: real, sum: real, c: real)
    requires 0.0 < limit < sum && 0.0 <= c && 2.0 * c <= sum
    ensures sum > c && 0.0 < Fraction(limit, sum, c) <= 1.0
  {
    var n, d := limit + Constrain(sum - 2.0 * c, -limit, limit), 2.0 * (sum - c);
    assert 0.0 < n <= d;
    hide *;
    RatioInRange(n, d);
  }

  lemma FractionOf(limit: real, sum: real, c: real, others: real, wheel: real)
    requires sum > c && others == sum - c && wheel == sum - 2.0 * c
    ensures Fraction(limit, sum, c) == Ratio(limit + Constrain(wheel, -limit, limit), others)
  {
    hide Constrain, Ratio;
  }

  lemma BalancedIs(limit: real, sum: real, p: real, q: real, a: real, u: real, v: real)
    requires a == sum - 2.0 * p && u == sum - p && v == sum - q
    ensures Balanced(limit, sum, p, q) <==> Cross(a + limit, v) == Cross(2.0 * limit, u)
  {
  }

  lemma TwiceTheProduct(a: real, x: real, b: real, d: real)
    requires x * (2.0 * b) == a
    ensures a * d == 2.0 * (x * (b * d)) == 2.0 * (x * (d * b))
  {
    assert x * (2.0 * b) * d == 2.0 * (x * (b * d));
  }

  lemma SameRatioIff(a: real, b: real, c: real, d: real)
    requires b > 0.0 && d > 0.0
    ensures Ratio(a, b) == Ratio(c, d) <==> Cross(a, d) == Cross(c, b)
  {
    DivMul(a, 2.0 * b);
    DivMul(c, 2.0 * d);
    var x, y := a / (2.0 * b), c / (2.0 * d);
    ProductPositive(b, d);
    TwiceTheProduct(a, x, b, d);
    TwiceTheProduct(c, y, d, b);
    SameFactor(x, y, b * d);
  }

  lemma NegativeSide(limit: real, a: real, f: real, g: real, u: real, v: real)
    requires 0.0 < limit && 0.0 < u && 0.0 < v && a < -limit && f == -limit < g
    ensures (limit + f) * v == 0.0 < (limit + g) * u && (a + limit) * v < 0.0 < 2.0 * limit * u
  {
    ProductPositive(limit + g, u);
    ProductPositive(2.0 * limit, u);
    ProductPositive(-(a + limit), v);
  }

  lemma BothClamped(limit: real, a: real, u: real, v: real)
    requires 0.0 < limit <= a && 0.0 < u < v
    ensures (limit + a) * v == (a + limit) * v > 2.0 * limit * u == (limit + limit) * u
  {
    ProductPositive(limit, v - u);
    assert 2.0 * limit * v - 2.0 * limit * u == 2.0 * (limit * (v - u));
    MulMono(2.0 * limit, a + limit, v);
  }

  lemma BothUnclamped(limit: real, sum: real, a: real, b: real, u: real, v: real)
    requires 0.0 < limit < sum && 0.0 < u < v && a == 2.0 * u - sum && b == 2.0 * v - sum && b <= limit
    ensures (a + limit) * v < (b + limit) * u <= 2.0 * limit * u
  {
    ProductPositive(sum - limit, v - u);
    assert (b + limit) * u - (a + limit) * v == (sum - limit) * (v - u);
    MulMono(b + limit, 2.0 * limit, u);
  }

  /** u and v are what the other components add up to; a clamped wheel without p or an unclamped one
      without q puts the two products on different sides. */
  lemma CrossProducts(limit: real, sum: real, a: real, b: real, u: real, v: real)
    requires 0.0 < limit < sum && 0.0 < u < v && u + v >= sum && a == 2.0 * u - sum && b == 2.0 * v - sum
    ensures var f, g := Constrain(a, -limit, limit), Constrain(b, -limit, limit);
            Cross(limit + f, v) == Cross(limit + g, u) <==> Cross(a + limit, v) == Cross(2.0 * limit, u)
  {
    var f, g := Constrain(a, -limit, limit), Constrain(b, -limit, limit);
    assert g > -limit;
    if a < -limit {
      assert f == -limit;
      NegativeSide(limit, a, f, g, u, v);
    } else if a >= limit {
      assert f == limit && g == limit;
      BothClamped(limit, f, u, v);
      BothClamped(limit, a, u, v);
    } else if b <= limit {
      BothUnclamped(limit, sum, a, b, u, v);
    }
  }

  lemma SameFractionIff(limit: real, sum: real, p: real, q: real)
    requires 0.0 < limit < sum && 0.0 <= q < p < sum && p + q <= sum
    ensures Fraction(limit, sum, p) == Fraction(limit, sum, q) <==> Balanced(limit, sum, p, q)
  {
    hide Constrain, Fraction, Balanced, Cross, Ratio;
    var u, v, a, b := sum - p, sum - q, sum - 2.0 * p, sum - 2.0 * q;
    FractionOf(limit, sum, p, u, a);
    FractionOf(limit, sum, q, v, b);
    SameRatioIff(limit + Constrain(a, -limit, limit), u, limit + Constrain(b, -limit, limit), v);
    CrossProducts(limit, sum, a, b, u, v);
    BalancedIs(limit, sum, p, q, a, u, v);
  }

  // ---------------------------------------------------------------------------------------------
  // Three components
  // ---------------------------------------------------------------------------------------------

  function Max3(a: real, b: real, c: real): real {
    if a >= b && a >= c then a else if b >= c then b else c
  }

  function Min3(a: real, b: real, c: real): real {
    if a <= b && a <= c then a else if b <= c then b else c
  }

  /** The demands that clamping wheel by wheel happens to slow down uniformly: at most two different
      components, and these balanced. */
  predicate Proportioned(limit: real, d: Demand) {
    var a, b, c := Abs(d.x), Abs(d.y), Abs(d.tan);
    && (a == b || b == c || a == c)
    && var p, q := Max3(a, b, c), Min3(a, b, c);
       p == q || Balanced(limit, a + b + c, p, q)
  }

  /** Three different components never balance pairwise. */
  lemma NotAllThree(limit: real, sum: real, p: real, q: real, r: real)
    requires 0.0 < limit < sum && 0.0 <= r < q < p < sum && p + q <= sum
    ensures !(Balanced(limit, sum, p, q) && Balanced(limit, sum, q, r))
  {
    if sum - 2.0 * q >= limit {
      BothClamped(limit, sum - 2.0 * q, sum - q, sum - r);
    } else {
      BothUnclamped(limit, sum, sum - 2.0 * p, sum - 2.0 * q, sum - p, sum - q);
    }
  }

  lemma SamePair(limit: real, sum: real, a: real, b: real)
    requires 0.0 < limit < sum && 0.0 <= a < sum && 0.0 <= b < sum && a + b <= sum
    ensures Fraction(limit, sum, a) == Fraction(limit, sum, b)
            <==> a == b || Balanced(limit, sum, if a > b then a else b, if a > b then b else a)
  {
    hide Fraction, Balanced;
    if a < b {
      SameFractionIff(limit, sum, b, a);
    } else if b < a {
      SameFractionIff(limit, sum, a, b);
    }
  }

  lemma SameFractionsIff(limit: real, a: real, b: real, c: real)
    requires 0.0 < limit < a + b + c && a >= 0.0 && b > 0.0 && c > 0.0
    ensures var sum := a + b + c;
            Fraction(limit, sum, a) == Fraction(limit, sum, b) == Fraction(limit, sum, c)
            <==> Proportioned(limit, Demand(a, b, c))
  {
    hide Fraction, Balanced;
    var sum := a + b + c;
    assert sum > a && sum > b && sum > c;
    SamePair(limit, sum, a, b);
    SamePair(limit, sum, b, c);
    SamePair(limit, sum, a, c);
    if a != b && b != c && a != c {
      var p, r := Max3(a, b, c), Min3(a, b, c);
      NotAllThree(limit, sum, p, sum - p - r, r);
    }
  }

  ghost predicate KeptSlower(d: Demand, limit: real) {
    exists s :: 0.0 < s <= 1.0 && KeptAt(d, limit, s)
  }

  lemma ProportionedByMagnitude(limit: real, d: Demand)
    ensures Proportioned(limit, d) <==> Proportioned(limit, Magnitudes(d))
  {
    hide Balanced;
  }

  lemma KeptSlowerIff(d: Demand, limit: real)
    requires 0.0 < limit < d.Sum() && d.y != 0.0 && d.tan != 0.0
    ensures KeptSlower(d, limit) <==> Proportioned(limit, d)
    ensures forall s :: KeptAt(d, limit, s) ==> Proportioned(limit, d)
  {
    hide KeptAt, Fraction, Proportioned, PairKeptAt;
    var a, b, c, sum := Abs(d.x), Abs(d.y), Abs(d.tan), d.Sum();
    var q := Min3(a, b, c);
    SameFractionsIff(limit, a, b, c);
    FractionInRange(limit, sum, q);
    ProportionedByMagnitude(limit, d);
    forall s
      ensures KeptAt(d, limit, s) <==> s == Fraction(limit, sum, a) && s == Fraction(limit, sum, b)
                                       && s == Fraction(limit, sum, c)
    {
      SignsDoNotMatter(d, limit, s);
      KeptByPairs(Magnitudes(d), limit, s, sum);
      FractionIs(limit, sum, a, s);
      FractionIs(limit, sum, b, s);
      FractionIs(limit, sum, c, s);
    }
    if Proportioned(limit, d) {
      assert KeptAt(d, limit, Fraction(limit, sum, q));
    }
  }

  lemma ProperFraction(limit: real, sum: real, s: real)
    requires 0.0 < limit < sum && s * sum == limit
    ensures 0.0 < s < 1.0
  {
    if s <= 0.0 {
      MulMono(s, 0.0, sum);
    } else if s >= 1.0 {
      MulMono(1.0, s, sum);
    }
  }

  lemma ShrunkInside(limit: real, sum: real, s: real, w: real, t: real)
    requires 0.0 < s < 1.0 && s * sum == limit && -sum < w <= sum && t == s * w
    ensures -limit < t
    ensures if w < sum then t < limit else t == limit
  {
    ProductPositive(s, sum + w);
    assert s * (sum + w) == limit + t;
    if w < sum {
      ProductPositive(s, sum - w);
      assert s * (sum - w) == limit - t;
    }
  }

  lemma PositiveShrunk(s: real, w: real, t: real)
    requires 0.0 < s < 1.0 && w > 0.0 && t == s * w
    ensures 0.0 < t < w
  {
    var rest := (1.0 - s) * w;
    ProductPositive(s, w);
    ProductPositive(1.0 - s, w);
    assert rest + t == w;
    assert rest > 0.0;
  }

  lemma ShrunkTowardZero(s: real, w: real, t: real)
    requires 0.0 < s < 1.0 && t == s * w
    ensures if w > 0.0 then 0.0 < t < w else if w < 0.0 then w < t < 0.0 else t == 0.0
  {
    if w > 0.0 {
      PositiveShrunk(s, w, t);
    } else if w < 0.0 {
      PositiveShrunk(s, -w, -t);
    }
  }

  lemma ClampIsShrunkIff(limit: real, sum: real, w: real, t: real)
    requires 0.0 < limit < sum && -sum < w <= sum && -limit < t
    requires if w < sum then t < limit else t == limit
    requires if w > 0.0 then 0.0 < t < w else if w < 0.0 then w < t < 0.0 else t == 0.0
    ensures Constrain(w, -limit, limit) == t <==> w == 0.0 || w == sum
  {
  }

  lemma ClampIsScalingIff(limit: real, sum: real, s: real, w: real)
    requires 0.0 < limit < sum && s * sum == limit && -sum < w <= sum
    ensures Constrain(w, -limit, limit) == s * w <==> w == 0.0 || w == sum
  {
    hide Constrain;
    ProperFraction(limit, sum, s);
    var t := s * w;
    ShrunkInside(limit, sum, s, w, t);
    ShrunkTowardZero(s, w, t);
    ClampIsShrunkIff(limit, sum, w, t);
  }

  lemma PairKeptAtSlowdownIff(limit: real, sum: real, c: real)
    requires 0.0 < limit < sum && 0.0 <= c < sum
    ensures PairKeptAt(limit, sum, c, limit / sum) <==> c == 0.0 || c == sum / 2.0
  {
    var s, w := limit / sum, sum - 2.0 * c;
    DivMul(limit, sum);
    assert 2.0 * (s * (sum - c)) == s * sum + s * w;
    hide *;
    ClampIsScalingIff(limit, sum, s, w);
  }

  /** The fraction that would just fit is the one that is left only when the components that combine
      are equal and nothing else is asked for. */
  lemma KeptAtSlowdownIff(d: Demand, limit: real)
    requires 0.0 < limit < d.Sum() && d.y != 0.0 && d.tan != 0.0
    ensures KeptAt(d, limit, limit / d.Sum()) <==> d.x == 0.0 && Abs(d.y) == Abs(d.tan)
  {
    hide KeptAt, PairKeptAt;
    var a, b, c, sum := Abs(d.x), Abs(d.y), Abs(d.tan), d.Sum();
    SignsDoNotMatter(d, limit, limit / sum);
    KeptByPairs(Magnitudes(d), limit, limit / sum, sum);
    PairKeptAtSlowdownIff(limit, sum, a);
    PairKeptAtSlowdownIff(limit, sum, b);
    PairKeptAtSlowdownIff(limit, sum, c);
  }

  // ---------------------------------------------------------------------------------------------
  // Main results
  // ---------------------------------------------------------------------------------------------

  /** The motion a command asks of a base: the non-holonomic ones cannot move sideways. */
  function Asked(k: Kinematics, vx: real, vy: real, wz: real): Velocities {
    Velocities(vx, if k.base == Mecanum then vy else 0.0, wz)
  }

  lemma CombinedCommandIsClamped(k: Kinematics, vx: real, vy: real, wz: real, s: real)
    requires k.Valid() && k.base == Mecanum && vy != 0.0 && wz != 0.0
    ensures k.RoundTrip(vx, vy, wz) == Times(s, Asked(k, vx, vy, wz))
            <==> KeptAt(k.Usable(vx, vy, wz), k.maxRpm, s)
  {
    hide Kinematics.Wanted, Kinematics.GetVelocities, Clamped, Mixed, Unmixed, VelocityOf, Times, TimesDemand;
    var d := k.Usable(vx, vy, wz);
    var r := Clamped(Mixed(d), k.maxRpm);
    UsableIsWanted(k, vx, vy, wz);
    GetRpmIsClampedMix(k, vx, vy, wz);
    VelocitiesAreUnmixed(k, r);
    VelocityOfWanted(k, vx, vy, wz);
    VelocityOfScaled(k, s, d);
    VelocityDeterminesDemand(k, Unmixed(Mecanum, r), TimesDemand(s, d));
  }

  /** Desaturation leaves exactly the fraction of the motion that just fits if and only if the base or
      the command does not combine sideways motion with rotation, the command fits, or it asks for
      equal rim speeds of these two and nothing else. */
  lemma SlowdownIsProportionalIff(k: Kinematics, vx: real, vy: real, wz: real)
    requires k.Valid()
    ensures var d := k.Usable(vx, vy, wz);
            k.RoundTrip(vx, vy, wz) == Times(Slowdown(k.maxRpm, d), Asked(k, vx, vy, wz))
            <==> k.base != Mecanum || vy == 0.0 || wz == 0.0 || d.Sum() <= k.maxRpm
                 || (vx == 0.0 && Abs(d.y) == Abs(d.tan))
  {
    hide Kinematics.Wanted, Demand.Sum, KeptAt, Kinematics.RoundTrip;
    var d := k.Usable(vx, vy, wz);
    UsableIsWanted(k, vx, vy, wz);
    if k.base != Mecanum || vy == 0.0 || wz == 0.0 {
      DesaturationKeepsTheMotion(k, vx, vy, wz);
    } else if d.Sum() <= k.maxRpm {
      RoundTripIsExactIff(k, vx, vy, wz);
    } else {
      WantedIsZeroIff(k, vx, vy, wz);
      CombinedCommandIsClamped(k, vx, vy, wz, Slowdown(k.maxRpm, d));
      KeptAtSlowdownIff(d, k.maxRpm);
    }
  }

  /** The base does what is asked, at most slower. */
  ghost predicate MotionIsKept(k: Kinematics, vx: real, vy: real, wz: real)
    requires k.Valid()
  {
    exists s :: 0.0 < s <= 1.0 && k.RoundTrip(vx, vy, wz) == Times(s, Asked(k, vx, vy, wz))
  }

  /** The motion is kept, at whatever speed, if and only if the base or the command does not combine
      sideways motion with rotation, the command fits, or its components are proportioned so that
      clamping wheel by wheel takes the same fraction of each. */
  lemma MotionIsKeptIff(k: Kinematics, vx: real, vy: real, wz: real)
    requires k.Valid()
    ensures var d := k.Usable(vx, vy, wz);
            MotionIsKept(k, vx, vy, wz)
            <==> k.base != Mecanum || vy == 0.0 || wz == 0.0 || d.Sum() <= k.maxRpm || Proportioned(k.maxRpm, d)
  {
    hide Kinematics.Wanted, Demand.Sum, KeptAt, Proportioned, Kinematics.RoundTrip;
    var d := k.Usable(vx, vy, wz);
    UsableIsWanted(k, vx, vy, wz);
    if k.base != Mecanum || vy == 0.0 || wz == 0.0 || d.Sum() <= k.maxRpm {
      SlowdownIsProportionalIff(k, vx, vy, wz);
      SlowdownFits(k.maxRpm, d);
    } else {
      WantedIsZeroIff(k, vx, vy, wz);
      forall s
        ensures k.RoundTrip(vx, vy, wz) == Times(s, Asked(k, vx, vy, wz)) <==> KeptAt(d, k.maxRpm, s)
      {
        CombinedCommandIsClamped(k, vx, vy, wz, s);
      }
      KeptSlowerIff(d, k.maxRpm);
    }
  }

  /** Sideways motion and rotation at two to one come out at three to one on a base of limit 2. */
  lemma MotionIsBent(k: Kinematics)
    requires k == Kinematics(Mecanum, 2.0, 2.0, 60.0)
    ensures k.Valid() && k.RoundTrip(0.0, 2.0, 1.0) == Velocities(0.0, 1.5, 0.5)
    ensures !MotionIsKept(k, 0.0, 2.0, 1.0)
  {
    assert k.Wanted(0.0, 2.0, 1.0) == Demand(0.0, 2.0, 1.0);
    assert k.GetRpm(0.0, 2.0, 1.0) == Rpm(-2.0, 2.0, 1.0, -1.0);
  }

  // ---------------------------------------------------------------------------------------------
  // When the motion is not kept
  // ---------------------------------------------------------------------------------------------

  /** Of an amount, something between nothing and all of it is left. */
  predicate Shrunk(left: real, amount: real) {
    if amount >= 0.0 then 0.0 <= left <= amount else amount <= left <= 0.0
  }

  /** Of the difference of two wheel speeds, clamping leaves something between nothing and all. */
  lemma ClampedPair(u: real, v: real, limit: real)
    requires limit > 0.0
    ensures Shrunk(Constrain(u, -limit, limit) - Constrain(v, -limit, limit), u - v)
  {
  }

  /** Two differences of clamped speeds that both stand for twice the same component. */
  lemma TwoPairs(a: real, b: real, c: real, d: real, limit: real, left: real, amount: real)
    requires limit > 0.0 && a - b == c - d == 2.0 * amount
    requires Constrain(a, -limit, limit) - Constrain(b, -limit, limit)
             + Constrain(c, -limit, limit) - Constrain(d, -limit, limit) == 4.0 * left
    ensures Shrunk(left, amount)
  {
    hide Constrain;
    ClampedPair(a, b, limit);
    ClampedPair(c, d, limit);
  }

  lemma RemainingIsShrunk(d: Demand, limit: real)
    requires limit > 0.0
    ensures var e := Remaining(d, limit);
            Shrunk(e.x, d.x) && Shrunk(e.y, d.y) && Shrunk(e.tan, d.tan)
  {
    hide Constrain, Shrunk;
    var r, e := Mixed(d), Remaining(d, limit);
    ClampIsOdd(r.motor2, limit);
    ClampIsOdd(r.motor4, limit);
    TwoPairs(r.motor1, -r.motor2, r.motor3, -r.motor4, limit, e.x, d.x);
    TwoPairs(r.motor3, r.motor1, r.motor2, r.motor4, limit, e.y, d.y);
    TwoPairs(r.motor2, r.motor3, r.motor4, r.motor1, limit, e.tan, d.tan);
  }

  lemma PartIsShrunk(s: real, amount: real, part: real)
    requires 0.0 < s <= 1.0 && part == s * amount
    ensures Shrunk(part, amount)
  {
    if amount > 0.0 {
      MulMono(s, 1.0, amount);
      ProductPositive(s, amount);
    } else if amount < 0.0 {
      MulMono(s, 1.0, -amount);
      ProductPositive(s, -amount);
      assert s * -amount == -part;
    }
  }

  lemma ShrunkTimes(a: real, b: real, c: real)
    requires c > 0.0 && Shrunk(a, b)
    ensures Shrunk(a * c, b * c)
  {
    if b >= 0.0 {
      MulMono(0.0, a, c);
      MulMono(a, b, c);
    } else {
      MulMono(b, a, c);
      MulMono(a, 0.0, c);
      ProductPositive(-b, c);
      assert -b * c == -(b * c);
    }
  }

  lemma SameSign(p: real, a: real, h: real)
    requires h > 0.0
    ensures p * h == a ==> (p >= 0.0 <==> a >= 0.0) && (p <= 0.0 <==> a <= 0.0)
  {
    if p > 0.0 {
      ProductPositive(p, h);
    } else if p < 0.0 {
      ProductPositive(-p, h);
      assert -p * h == -(p * h);
    }
  }

  lemma ShrunkBack(p: real, q: real, a: real, b: real, h: real)
    requires h > 0.0 && p * h == a && q * h == b && Shrunk(a, b)
    ensures Shrunk(p, q)
  {
    SameSign(p, a, h);
    SameSign(q, b, h);
    SameSign(q - p, b - a, h);
    assert (q - p) * h == b - a;
  }

  lemma ShrunkOver(a: real, b: real, h: real)
    requires h > 0.0 && Shrunk(a, b)
    ensures Shrunk(a / h, b / h)
  {
    DivMul(a, h);
    DivMul(b, h);
    var p, q := a / h, b / h;
    hide *;
    ShrunkBack(p, q, a, b, h);
  }

  lemma RimIsShrunk(k: Kinematics, a: real, b: real)
    requires k.Valid() && Shrunk(a, b)
    ensures Shrunk(Rim(k, a), Rim(k, b))
    ensures Shrunk(Rim(k, a) / (k.wheelsYDistance / 2.0), Rim(k, b) / (k.wheelsYDistance / 2.0))
  {
    ShrunkTimes(a / 60.0, b / 60.0, k.wheelCircumference);
    var h := k.wheelsYDistance / 2.0;
    ShrunkOver(Rim(k, a), Rim(k, b), h);
  }

  predicate AllShrunk(left: Velocities, asked: Velocities) {
    && Shrunk(left.linearX, asked.linearX)
    && Shrunk(left.linearY, asked.linearY)
    && Shrunk(left.angularZ, asked.angularZ)
  }

  lemma TimesIsShrunk(s: real, v: Velocities)
    requires 0.0 < s <= 1.0
    ensures AllShrunk(Times(s, v), v)
  {
    hide Shrunk;
    var left := Times(s, v);
    PartIsShrunk(s, v.linearX, left.linearX);
    PartIsShrunk(s, v.linearY, left.linearY);
    PartIsShrunk(s, v.angularZ, left.angularZ);
  }

  lemma VelocityIsShrunk(k: Kinematics, e: Demand, d: Demand)
    requires k.Valid() && k.base == Mecanum
    requires Shrunk(e.x, d.x) && Shrunk(e.y, d.y) && Shrunk(e.tan, d.tan)
    ensures AllShrunk(VelocityOf(k, e), VelocityOf(k, d))
  {
    hide Shrunk, Rim;
    RimIsShrunk(k, e.x, d.x);
    RimIsShrunk(k, e.y, d.y);
    RimIsShrunk(k, e.tan, d.tan);
  }

  /** Whatever a command asks of whatever base, and even where the motion is bent, no component of it is
      reversed or enlarged. */
  lemma NothingIsReversedOrEnlarged(k: Kinematics, vx: real, vy: real, wz: real)
    requires k.Valid()
    ensures AllShrunk(k.RoundTrip(vx, vy, wz), Asked(k, vx, vy, wz))
  {
    hide Kinematics.Wanted, Kinematics.GetVelocities, Demand.Sum, AllShrunk, VelocityOf, Clamped, Mixed, Unmixed, Times;
    var d := k.Usable(vx, vy, wz);
    UsableIsWanted(k, vx, vy, wz);
    if k.base != Mecanum || vy == 0.0 || wz == 0.0 {
      DesaturationKeepsTheMotion(k, vx, vy, wz);
      SlowdownFits(k.maxRpm, d);
      TimesIsShrunk(Slowdown(k.maxRpm, d), Asked(k, vx, vy, wz));
    } else {
      GetRpmIsClampedMix(k, vx, vy, wz);
      VelocitiesAreUnmixed(k, Clamped(Mixed(d), k.maxRpm));
      VelocityOfWanted(k, vx, vy, wz);
      RemainingIsShrunk(d, k.maxRpm);
      VelocityIsShrunk(k, Remaining(d, k.maxRpm), d);
    }
  }
}
