/** The choice of timer divisors for a PWM frequency, and the clamp on duty requests. */
module PwmTiming {
  import opened Numeric

  datatype Timing = Timing(psc: int, arr: int)

  function Pow2(bits: nat): (p: int)
    ensures p >= 1
  {
    if bits == 0 then 1 else 2 * Pow2(bits - 1)
  }

  function ClampBits(bits: int): nat {
    if bits < 1 then 1 else if bits > 32 then 32 else bits
  }

  /** lround on a non-negative argument: halves go up. */
  function Lround(r: real): int
    requires r >= 0.0
  {
    (r + 0.5).Floor
  }

  /** The divisor that would hit the requested frequency exactly. */
  function IdealTicks(clkHz: Word32, freq: real, period: int): real
    requires freq > 0.0 && period >= 1
  {
    ProductPositive(freq, period as real);
    clkHz as real / (freq * period as real)
  }

  function PwmTiming(clkHz: Word32, freq: real, bits: int): Timing {
    var arr := Pow2(ClampBits(bits)) - 1;
    if freq <= 0.0 then Timing(0, arr)
    else Timing(Lround(Constrain(IdealTicks(clkHz, freq, arr + 1), 1.0, 65536.0)) - 1, arr)
  }

  function PwmClamp(duty: int, arr: nat): nat {
    var d := if duty < 0 then 0 else duty;
    if d > arr then arr else d
  }

  function DistanceTo(n: int, ideal: real): real {
    Abs(n as real - ideal)
  }

  function OutputFrequency(clkHz: Word32, t: Timing): real
    requires t.psc >= 0 && t.arr >= 0
  {
    ProductPositive((t.psc + 1) as real, (t.arr + 1) as real);
    clkHz as real / ((t.psc + 1) as real * (t.arr + 1) as real)
  }

  /** Rounding the clamped ideal picks the closest divisor the hardware offers. */
  lemma NearestDivisor(ideal: real, n: int)
    requires 1 <= n <= 65536
    ensures var chosen := Lround(Constrain(ideal, 1.0, 65536.0));
            && 1 <= chosen <= 65536
            && Abs(chosen as real - ideal) <= Abs(n as real - ideal)
            && (1.0 <= ideal <= 65536.0 ==> -0.5 < chosen as real - ideal <= 0.5)
  {
    var chosen := Lround(Constrain(ideal, 1.0, 65536.0));
    if n > chosen {
      assert n as real >= chosen as real + 1.0;
    } else if n < chosen {
      assert n as real <= chosen as real - 1.0;
    }
  }

  lemma QuotientBound(a: real, b: real, c: real)
    requires c > 0.0 && a * c <= b * c
    ensures a <= b
  {
    if a > b { ProductPositive(a - b, c); }
  }

  lemma RelativeError(ideal: real, freq: real, divisor: real)
    requires freq > 0.0 && divisor >= 1.0 && Abs(divisor - ideal) <= 0.5
    ensures Abs(ideal * freq / divisor - freq) <= freq / (2.0 * divisor)
  {
    var got := ideal * freq / divisor;
    DivMul(ideal * freq, divisor);
    var err := freq / (2.0 * divisor);
    DivMul(freq, 2.0 * divisor);
    assert err * divisor == freq / 2.0 by { assert err * (2.0 * divisor) == 2.0 * (err * divisor); }
    assert (got - freq) * divisor == (ideal - divisor) * freq;
    MulMono(ideal - divisor, 0.5, freq);
    MulMono(-0.5, ideal - divisor, freq);
    QuotientBound(got - freq, err, divisor);
    QuotientBound(-(got - freq), err, divisor);
  }

  lemma AchievedFromIdeal(clk: real, freq: real, period: real, divisor: real)
    requires freq > 0.0 && period > 0.0 && divisor > 0.0
    ensures freq * period > 0.0 && divisor * period > 0.0
    ensures clk / (divisor * period) == clk / (freq * period) * freq / divisor
  {
    ProductPositive(freq, period);
    ProductPositive(divisor, period);
    var ideal := clk / (freq * period);
    var got := ideal * freq / divisor;
    DivMul(clk, freq * period);
    DivMul(ideal * freq, divisor);
    assert got * (divisor * period) == (got * divisor) * period;
    assert ideal * (freq * period) == (ideal * freq) * period;
    MulDiv(got, divisor * period);
  }

  lemma DistanceIs(n: int, ideal: real)
    ensures DistanceTo(n, ideal) == Abs(n as real - ideal)
  {
  }

  lemma ReachableFrequency(clkHz: Word32, freq: real, period: int, psc: int)
    requires freq > 0.0 && period >= 1 && psc >= 0
    requires Abs((psc + 1) as real - IdealTicks(clkHz, freq, period)) <= 0.5
    ensures Abs(OutputFrequency(clkHz, Timing(psc, period - 1)) - freq) <= freq / (2.0 * (psc + 1) as real)
  {
    var divisor := (psc + 1) as real;
    var ideal := IdealTicks(clkHz, freq, period);
    AchievedFromIdeal(clkHz as real, freq, period as real, divisor);
    assert OutputFrequency(clkHz, Timing(psc, period - 1)) == ideal * freq / divisor;
    RelativeError(ideal, freq, divisor);
  }

  lemma IdealDivides(clkHz: Word32, freq: real, period: int)
    requires freq > 0.0 && period >= 1
    ensures IdealTicks(clkHz, freq, period) * (freq * period as real) == clkHz as real
  {
    ProductPositive(freq, period as real);
    DivMul(clkHz as real, freq * period as real);
  }

  /** The prescaler fits its register, no other prescaler comes closer to the divisor that would give
      the requested frequency exactly, halfway the larger one is taken, and inside the reachable range
      the output frequency is off by at most 1/(2(psc+1)) of the request. */
  lemma PrescalerIsOptimal(clkHz: Word32, freq: real, bits: int)
    requires freq > 0.0
    ensures var t := PwmTiming(clkHz, freq, bits);
            var ideal := IdealTicks(clkHz, freq, t.arr + 1);
            && ideal * (freq * (t.arr + 1) as real) == clkHz as real
            && 0 <= t.psc <= 65535
            && (forall n :: 1 <= n <= 65536 ==> Abs((t.psc + 1) as real - ideal) <= DistanceTo(n, ideal))
            && (1.0 <= ideal <= 65536.0 ==>
                  -0.5 < (t.psc + 1) as real - ideal <= 0.5
                  && Abs(OutputFrequency(clkHz, t) - freq) <= freq / (2.0 * (t.psc + 1) as real))
  {
    var period := Pow2(ClampBits(bits));
    var ideal := IdealTicks(clkHz, freq, period);
    var psc := Lround(Constrain(ideal, 1.0, 65536.0)) - 1;
    assert PwmTiming(clkHz, freq, bits) == Timing(psc, period - 1);
    IdealDivides(clkHz, freq, period);
    hide *;
    NearestDivisor(ideal, 1);
    forall n | 1 <= n <= 65536
      ensures Abs((psc + 1) as real - ideal) <= DistanceTo(n, ideal)
    {
      NearestDivisor(ideal, n);
      DistanceIs(n, ideal);
    }
    if 1.0 <= ideal <= 65536.0 {
      ReachableFrequency(clkHz, freq, period, psc);
    }
  }

  lemma QuotientNonNegative(b: real, d: real)
    requires 0.0 <= b && 0.0 < d
    ensures b / d >= 0.0
  {
    DivMul(b, d);
    QuotientBound(0.0, b / d, d);
  }

  lemma QuotientMono(a: real, b: real, c: real, d: real)
    requires 0.0 <= a <= b && 0.0 < d <= c
    ensures a / c <= b / d
  {
    DivMul(a, c);
    DivMul(b, d);
    var q := b / d;
    QuotientNonNegative(b, d);
    MulMono(d, c, q);
    QuotientBound(a / c, q, c);
  }

  /** Asking for a higher frequency never slows the timer down, a faster clock never lowers the
      prescaler, and the resolution depends on neither. */
  lemma PrescalerIsMonotone(clk1: Word32, clk2: Word32, freq1: real, freq2: real, bits: int)
    requires clk1 <= clk2 && 0.0 < freq2 <= freq1
    ensures PwmTiming(clk1, freq1, bits).psc <= PwmTiming(clk2, freq2, bits).psc
    ensures PwmTiming(clk1, freq1, bits).arr == PwmTiming(clk2, freq2, bits).arr
  {
    var period := Pow2(ClampBits(bits)) as real;
    ProductPositive(freq2, period);
    MulMono(freq2, freq1, period);
    QuotientMono(clk1 as real, clk2 as real, freq1 * period, freq2 * period);
  }

  lemma {:induction false} Doubling(bits: nat, more: nat)
    ensures Pow2(bits + more) >= Pow2(bits)
  {
    if more == 0 {
    } else {
      Doubling(bits, more - 1);
    }
  }

  lemma PowerOf32()
    ensures Pow2(1) == 2 && Pow2(32) == TWO32
  {
    assert Pow2(8) == 256;
    assert Pow2(16) == 65536;
    assert Pow2(24) == 0x100_0000;
  }

  lemma {:induction false} PowersUpTo32(bits: nat)
    requires 1 <= bits <= 32
    ensures 2 <= Pow2(bits) <= TWO32
    ensures bits == 1 ==> Pow2(bits) == 2
    ensures bits == 32 ==> Pow2(bits) == TWO32
  {
    Doubling(1, bits - 1);
    Doubling(bits, 32 - bits);
    PowerOf32();
  }

  /** Without a frequency the timer runs undivided. The auto-reload value fits its register, is 1 for one
      bit or less, doubles its period with every further bit, and stops growing at 32 bits. */
  lemma ReloadIsFullScale(clkHz: Word32, freq: real, bits: int)
    ensures var arr := PwmTiming(clkHz, freq, bits).arr;
            && (freq <= 0.0 ==> PwmTiming(clkHz, freq, bits).psc == 0)
            && 1 <= arr < TWO32
            && (bits <= 1 ==> arr == 1)
            && (1 <= bits < 32 ==> PwmTiming(clkHz, freq, bits + 1).arr + 1 == 2 * (arr + 1))
            && (bits >= 32 ==> arr == TWO32 - 1)
  {
    PowersUpTo32(ClampBits(bits));
  }

  /** A duty request in range is written as it is; anything else ends at the nearer end. */
  lemma ClampIsProjection(duty: int, arr: nat)
    ensures 0 <= PwmClamp(duty, arr) <= arr
    ensures PwmClamp(duty, arr) == duty <==> 0 <= duty <= arr
    ensures duty <= 0 ==> PwmClamp(duty, arr) == 0
    ensures duty >= arr ==> PwmClamp(duty, arr) == arr
  {
  }
}
