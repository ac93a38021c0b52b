/** Machine integers and the few real-valued helpers the firmware's arithmetic relies on. */
module Numeric {
  const TWO16: int := 0x1_0000
  const TWO31: int := 0x8000_0000
  const TWO32: int := 0x1_0000_0000

  /** The value of a uint32_t. */
  type Word32 = w: int | 0 <= w < TWO32

  /** Conversion to uint32_t. */
  function U32(v: int): Word32 {
    v % TWO32
  }

  /** Conversion to uint16_t. */
  function U16(v: int): int {
    v % TWO16
  }

  /** Conversion to int32_t on a two's-complement target. */
  function I32(v: int): int {
    (v + TWO31) % TWO32 - TWO31
  }

  /** Conversion to int16_t on a two's-complement target. */
  function I16(v: int): int {
    (v + TWO16 / 2) % TWO16 - TWO16 / 2
  }

  function Abs(r: real): real {
    if r < 0.0 then -r else r
  }

  function Min(a: real, b: real): real {
    if a <= b then a else b
  }

  /** Arduino's constrain macro: the lower bound takes precedence. */
  function Constrain(amt: real, low: real, high: real): real {
    if amt < low then low else if amt > high then high else amt
  }

  /** The C conversion (int)r, which truncates toward zero. */
  function Trunc(r: real): int {
    if r < 0.0 then -((-r).Floor) else r.Floor
  }

  // Wrapping is reasoned about with the number of wraps as a witness: all facts below are linear in it.

  lemma Multiple32(a: int, k: int)
    requires a == k * TWO32
    ensures a % TWO32 == 0
  {
  }

  lemma Quotient32(a: int) returns (k: int)
    requires a % TWO32 == 0
    ensures a == k * TWO32
  {
    k := a / TWO32;
  }

  lemma U32Wraps(v: int) returns (k: int)
    ensures v == U32(v) + k * TWO32
  {
    k := v / TWO32;
  }

  lemma I32Wraps(v: int) returns (k: int)
    ensures v == I32(v) + k * TWO32 && -TWO31 <= I32(v) < TWO31
  {
    k := (v + TWO31) / TWO32;
  }

  /** Two signed words that differ by whole wraps are the same. */
  lemma SameWord32(a: int, b: int, k: int)
    requires -TWO31 <= a < TWO31 && -TWO31 <= b < TWO31 && a - b == k * TWO32
    ensures a == b
  {
  }

  lemma Multiple16(a: int, k: int)
    requires a == k * TWO16
    ensures a % TWO16 == 0
  {
  }

  lemma Quotient16(a: int) returns (k: int)
    requires a % TWO16 == 0
    ensures a == k * TWO16
  {
    k := a / TWO16;
  }

  lemma U16Wraps(v: int) returns (k: int)
    ensures v == U16(v) + k * TWO16
  {
    k := v / TWO16;
  }

  lemma I16Wraps(v: int) returns (k: int)
    ensures v == I16(v) + k * TWO16 && -TWO16 / 2 <= I16(v) < TWO16 / 2
  {
    k := (v + TWO16 / 2) / TWO16;
  }

  /** Two signed words that differ by whole wraps are the same. */
  lemma SameWord16(a: int, b: int, k: int)
    requires -TWO16 / 2 <= a < TWO16 / 2 && -TWO16 / 2 <= b < TWO16 / 2 && a - b == k * TWO16
    ensures a == b
  {
  }

  lemma I32OfU32(v: int)
    ensures I32(U32(v)) == I32(v)
  {
    hide *;
    var i := U32Wraps(v);
    var j := I32Wraps(U32(v));
    var k := I32Wraps(v);
    SameWord32(I32(U32(v)), I32(v), k - i - j);
  }

  lemma I32OfWord(v: int)
    requires -TWO31 <= v < TWO31
    ensures I32(v) == v
  {
    hide *;
    var k := I32Wraps(v);
    SameWord32(v, I32(v), k);
  }

  lemma RemainderIs(a: int, k: int, r: int)
    requires a == k * TWO32 + r && 0 <= r < TWO32
    ensures a % TWO32 == r
  {
    var i := a / TWO32;
    assert a == i * TWO32 + a % TWO32;
    assert k == i;
  }

  lemma SameRemainder(a: int, b: int, k: int)
    requires b == a + k * TWO32
    ensures a % TWO32 == b % TWO32
  {
    var i, r := a / TWO32, a % TWO32;
    assert a == i * TWO32 + r;
    RemainderIs(b, i + k, r);
  }

  /** The difference of two readings of a 32-bit clock. */
  lemma U32OfWords(a: int, b: int)
    ensures U32(U32(a) - U32(b)) == (a - b) % TWO32
  {
    var i := U32Wraps(a);
    var j := U32Wraps(b);
    SameRemainder(U32(a) - U32(b), a - b, i - j);
  }

  /** Readings less than a whole turn apart tell the true difference. */
  lemma U32OfDifference(a: nat, b: nat)
    requires 0 <= a - b < TWO32
    ensures U32(U32(a) - U32(b)) == a - b
  {
    U32OfWords(a, b);
    RemainderIs(a - b, 0, a - b);
  }

  /** Truncation drops the fraction and keeps the sign. */
  lemma TruncTowardZero(r: real)
    ensures Abs(Trunc(r) as real) <= Abs(r) < Abs(Trunc(r) as real) + 1.0
    ensures r >= 0.0 ==> Trunc(r) >= 0
    ensures r <= 0.0 ==> Trunc(r) <= 0
  {
  }

  lemma TruncWithinBounds(r: real, low: int, high: int)
    requires low <= 0 <= high
    requires low as real <= r <= high as real
    ensures low <= Trunc(r) <= high
  {
  }

  /** (a / b) * b == a, isolated because the solver is erratic on nonlinear division. */
  lemma DivMul(a: real, b: real)
    requires b != 0.0
    ensures (a / b) * b == a
  {
  }

  lemma MulDiv(a: real, b: real)
    requires b != 0.0
    ensures (a * b) / b == a
  {
  }

  lemma DivSelf(a: real)
    requires a != 0.0
    ensures a / a == 1.0
  {
    MulDiv(1.0, a);
  }

  lemma DivOfScaled(s: real, a: real, b: real)
    requires b != 0.0
    ensures (s * a) / b == s * (a / b)
  {
    DivMul(a, b);
    MulDiv(s * (a / b), b);
    assert s * (a / b) * b == s * a;
  }

  lemma AbsOfProduct(a: real, b: real)
    ensures Abs(a * b) == Abs(a) * Abs(b)
  {
    if a < 0.0 {
      if b < 0.0 { assert a * b >= 0.0; } else { assert a * b <= 0.0; }
    } else {
      if b < 0.0 { assert a * b <= 0.0; } else { assert a * b >= 0.0; }
    }
  }

  lemma MulMono(a: real, b: real, c: real)
    requires a <= b && c >= 0.0
    ensures a * c <= b * c
  {
  }

  lemma ProductPositive(a: real, b: real)
    requires a > 0.0 && b > 0.0
    ensures a * b > 0.0
  {
  }

  lemma ProductMono(a: real, b: real, c: real, d: real)
    requires 0.0 <= a <= b && 0.0 <= c <= d
    ensures 0.0 <= a * c <= b * d
  {
    MulMono(a, b, c);
    MulMono(c, d, b);
  }

  lemma SquareMono(a: real, b: real)
    requires b >= 0.0 && a * a <= b * b
    ensures a <= b
  {
    if a > b {
      ProductPositive(a - b, a + b);
    }
  }
}
