/** Quadrature-encoder arithmetic: a 16- or 32-bit hardware counter unwrapped into a signed position. */
module Encoder {
  import opened Numeric

  datatype Config = Config(cpr: int, is32: bool, invert: bool)

  datatype State = State(first: bool, prevCnt: Word32, prevUs: Word32, accum: int)

  function Fresh(): State {
    State(true, 0, 0, 0)
  }

  /** The number of values the hardware counter takes before it wraps. */
  function Modulus(c: Config): int {
    if c.is32 then TWO32 else TWO16
  }

  function Sign(c: Config): int {
    if c.invert then -1 else 1
  }

  /** What the timer's count register shows for an unbounded true count. */
  function Register(c: Config, count: int): Word32 {
    count % Modulus(c)
  }

  /** The register shows the count itself exactly until it wraps at 16 or 32 bits. */
  lemma RegisterShowsCountIff(c: Config, count: int)
    ensures Register(c, count) == count <==> 0 <= count < if c.is32 then 4294967296 else 65536
  {
  }

  /** The unsigned or truncated difference of two registers, as a signed number, before the
      optional inversion. */
  function RawDelta(is32: bool, prev: Word32, cnt: Word32): int {
    if is32 then I32(cnt - prev) else I16(U16(cnt) - U16(prev))
  }

  /** The signed change since the previous sample. The negation is taken in int32_t;
      C++ leaves its one overflowing case undefined, two's complement wraps it. */
  function Delta(c: Config, s: State, cnt: Word32): int {
    var raw := RawDelta(c.is32, s.prevCnt, cnt);
    if c.invert then I32(-raw) else raw
  }

  function Updated(c: Config, s: State, cnt: Word32, nowUs: Word32): State {
    if c.cpr <= 0 then s
    else if s.first then State(false, cnt, nowUs, s.accum)
    else State(false, cnt, nowUs, s.accum + Delta(c, s, cnt))
  }

  function Rpm(c: Config, s: State, cnt: Word32, nowUs: Word32): real {
    var dt := U32(nowUs - s.prevUs);
    if c.cpr <= 0 || s.first || dt == 0 then 0.0
    else (Delta(c, s, cnt) as real / c.cpr as real) / (dt as real / 60000000.0)
  }

  function Rebased(s: State, p: int): State {
    s.(accum := p, first := true)
  }

  class EncoderMath {
    const config: Config
    var first: bool
    var prevCnt: Word32
    var prevUs: Word32
    var accum: int

    ghost function View(): State
      reads this
    {
      State(first, prevCnt, prevUs, accum)
    }

    constructor (config: Config)
      ensures this.config == config && View() == Fresh()
    {
      this.config := config;
      first, prevCnt, prevUs, accum := true, 0, 0, 0;
    }

    method Update(cnt: Word32, nowUs: Word32) returns (rpm: real)
      modifies this
      ensures View() == Updated(config, old(View()), cnt, nowUs)
      ensures rpm == Rpm(config, old(View()), cnt, nowUs)
    {
      hide I32, I16, U16, U32;
      if config.cpr <= 0 { return 0.0; }
      if first {
        first, prevCnt, prevUs := false, cnt, nowUs;
        return 0.0;
      }
      var delta;
      I32OfU32(cnt - prevCnt);
      if config.is32 {
        delta := I32(U32(cnt - prevCnt));
      } else {
        delta := I16(U16(cnt) - U16(prevCnt));
      }
      if config.invert {
        delta := I32(-delta);
      }
      accum := accum + delta;
      var dt := U32(nowUs - prevUs);
      prevCnt := cnt;
      prevUs := nowUs;
      if dt == 0 { return 0.0; }
      var dtMin := dt as real / 60000000.0;
      rpm := (delta as real / config.cpr as real) / dtMin;
    }

    /** The one 32-bit signed number that agrees with the accumulator modulo 2^32. */
    method Position() returns (p: int)
      ensures -TWO31 <= p < TWO31 && (accum - p) % TWO32 == 0
    {
      p := I32(accum);
      ghost var k := I32Wraps(accum);
      Multiple32(accum - p, k);
    }

    method SetPosition(p: int)
      modifies this
      ensures View() == Rebased(old(View()), p)
    {
      accum := p;
      first := true;
    }
  }

  // ---------------------------------------------------------------------------------------------
  // Refinement of an unbounded counter
  // ---------------------------------------------------------------------------------------------

  /** One call on the encoder: a sample taken when the unbounded counter stands at `count`,
      or a re-baseline. */
  datatype Op = Sample(count: int, us: Word32) | SetTo(p: int)

  function Apply(c: Config, s: State, op: Op): State {
    match op
    case Sample(count, us) => Updated(c, s, Register(c, count), us)
    case SetTo(p) => Rebased(s, p)
  }

  function Run(c: Config, ops: seq<Op>): State {
    if ops == [] then Fresh() else Apply(c, Run(c, ops[..|ops| - 1]), ops[|ops| - 1])
  }

  /** The position most recently set, zero if none was. */
  function Baseline(ops: seq<Op>): int {
    if ops == [] then 0
    else
      match ops[|ops| - 1]
      case SetTo(p) => p
      case Sample(_, _) => Baseline(ops[..|ops| - 1])
  }

  /** The true counts sampled since the most recent re-baseline. */
  function CountsSince(ops: seq<Op>): seq<int> {
    if ops == [] then []
    else
      match ops[|ops| - 1]
      case SetTo(_) => []
      case Sample(count, _) => CountsSince(ops[..|ops| - 1]) + [count]
  }

  /** How far the unbounded counter travelled between the first and the last of the samples. */
  function Travel(counts: seq<int>): int {
    if counts == [] then 0 else counts[|counts| - 1] - counts[0]
  }

  /** A change between two samples that the counter width can represent. */
  predicate Representable(c: Config, change: int) {
    -Modulus(c) / 2 <= change < Modulus(c) / 2 && !(c.is32 && c.invert && change == -TWO31)
  }

  function Change(counts: seq<int>, i: int): int
    requires 0 <= i && i + 1 < |counts|
  {
    counts[i + 1] - counts[i]
  }

  ghost predicate SlowEnough(c: Config, counts: seq<int>) {
    forall i :: 0 <= i && i + 1 < |counts| ==> Representable(c, Change(counts, i))
  }

  lemma RawDelta32(from: int, to: int) returns (k: int)
    ensures RawDelta(true, U32(from), U32(to)) - (to - from) == k * TWO32
    ensures -TWO31 <= RawDelta(true, U32(from), U32(to)) < TWO31
  {
    var change: int := U32(to) - U32(from);
    assert RawDelta(true, U32(from), U32(to)) == I32(change);
    hide *;
    var i := U32Wraps(from);
    var j := U32Wraps(to);
    var l := I32Wraps(change);
    k := i - j - l;
  }

  lemma RawDelta16(from: int, to: int) returns (k: int)
    ensures RawDelta(false, U16(from), U16(to)) - (to - from) == k * TWO16
    ensures -TWO16 / 2 <= RawDelta(false, U16(from), U16(to)) < TWO16 / 2
  {
    var change: int := U16(to) - U16(from);
    assert RawDelta(false, U16(from), U16(to)) == I16(change);
    hide *;
    var i := U16Wraps(from);
    var j := U16Wraps(to);
    var l := I16Wraps(change);
    k := i - j - l;
  }

  /** How many whole wraps the raw difference of two registers is off the true change. */
  lemma RawDeltaWraps(c: Config, s: State, from: int, to: int) returns (k: int)
    requires s.prevCnt == Register(c, from)
    ensures var raw := RawDelta(c.is32, s.prevCnt, Register(c, to));
            raw - (to - from) == k * Modulus(c) && -Modulus(c) / 2 <= raw < Modulus(c) / 2
  {
    if c.is32 {
      k := RawDelta32(from, to);
    } else {
      k := RawDelta16(from, to);
    }
  }

  lemma MultipleOfModulus(c: Config, a: int, k: int)
    requires a == k * Modulus(c)
    ensures a % Modulus(c) == 0
  {
    if c.is32 {
      Multiple32(a, k);
    } else {
      Multiple16(a, k);
    }
  }

  lemma DeltaIsCongruent(c: Config, s: State, from: int, to: int)
    requires s.prevCnt == Register(c, from)
    ensures (Delta(c, s, Register(c, to)) - Sign(c) * (to - from)) % Modulus(c) == 0
  {
    hide RawDelta, Register, I32;
    var raw := RawDelta(c.is32, s.prevCnt, Register(c, to));
    var k := RawDeltaWraps(c, s, from, to);
    if !c.invert {
      MultipleOfModulus(c, raw - (to - from), k);
    } else if c.is32 {
      var l := I32Wraps(-raw);
      MultipleOfModulus(c, I32(-raw) + (to - from), -k - l);
    } else {
      I32OfWord(-raw);
      MultipleOfModulus(c, -raw + (to - from), -k);
    }
  }

  lemma DeltaIsExact(c: Config, s: State, from: int, to: int)
    requires s.prevCnt == Register(c, from)
    requires Representable(c, to - from)
    ensures Delta(c, s, Register(c, to)) == Sign(c) * (to - from)
  {
    hide RawDelta, Register, I32;
    var raw := RawDelta(c.is32, s.prevCnt, Register(c, to));
    var k := RawDeltaWraps(c, s, from, to);
    if c.is32 {
      SameWord32(raw, to - from, k);
    } else {
      SameWord16(raw, to - from, k);
    }
    if c.invert {
      I32OfWord(-raw);
    }
  }

  /** An encoder that is not in use, and one read twice at the same time, report no speed. */
  lemma NoTimeNoSpeed(c: Config, s: State, cnt: Word32, nowUs: Word32)
    requires c.cpr <= 0 || s.prevUs == nowUs
    ensures Rpm(c, s, cnt, nowUs) == 0.0
  {
    hide Delta;
  }

  lemma UnmovedCounterReportsZero(c: Config, s: State, nowUs: Word32)
    ensures Rpm(c, s, s.prevCnt, nowUs) == 0.0
  {
    assert Delta(c, s, s.prevCnt) == 0;
  }

  /** Between calls the encoder is waiting for a seed exactly when nothing was sampled since the
      last re-baseline; otherwise it remembers the register of the last sample. */
  lemma {:induction false} SeedTracksSamples(c: Config, ops: seq<Op>)
    requires c.cpr > 0
    ensures Run(c, ops).first <==> CountsSince(ops) == []
    ensures CountsSince(ops) != [] ==>
              Run(c, ops).prevCnt == Register(c, CountsSince(ops)[|CountsSince(ops)| - 1])
  {
    if ops == [] {
    } else {
      SeedTracksSamples(c, ops[..|ops| - 1]);
    }
  }

  lemma SumOfMultiples(c: Config, a: int, b: int)
    requires a % Modulus(c) == 0 && b % Modulus(c) == 0
    ensures (a + b) % Modulus(c) == 0
  {
    if c.is32 {
      var i := Quotient32(a);
      var j := Quotient32(b);
      Multiple32(a + b, i + j);
    } else {
      var i := Quotient16(a);
      var j := Quotient16(b);
      Multiple16(a + b, i + j);
    }
  }

  /** With no assumption on speed, the accumulator is the baseline plus the true displacement
      modulo the counter width. */
  lemma {:induction false} PositionIsCongruent(c: Config, ops: seq<Op>)
    requires c.cpr > 0
    ensures (Run(c, ops).accum - Baseline(ops) - Sign(c) * Travel(CountsSince(ops))) % Modulus(c) == 0
  {
    hide Delta, Register;
    if ops == [] {
    } else {
      var prefix := ops[..|ops| - 1];
      PositionIsCongruent(c, prefix);
      SeedTracksSamples(c, prefix);
      match ops[|ops| - 1]
      case SetTo(_) =>
      case Sample(count, _) =>
        var before := CountsSince(prefix);
        if before != [] {
          var from := before[|before| - 1];
          DeltaIsCongruent(c, Run(c, prefix), from, count);
          SumOfMultiples(c,
            Run(c, prefix).accum - Baseline(prefix) - Sign(c) * Travel(before),
            Delta(c, Run(c, prefix), Register(c, count)) - Sign(c) * (count - from));
          assert Travel(CountsSince(ops)) == Travel(before) + (count - from);
        }
    }
  }

  /** When every change since the last re-baseline fits the counter width, the accumulator is the
      baseline plus the true signed displacement, whatever the wraps in between. */
  lemma {:induction false} PositionIsExact(c: Config, ops: seq<Op>)
    requires c.cpr > 0
    requires SlowEnough(c, CountsSince(ops))
    ensures Run(c, ops).accum == Baseline(ops) + Sign(c) * Travel(CountsSince(ops))
  {
    if ops == [] {
    } else {
      var prefix := ops[..|ops| - 1];
      SeedTracksSamples(c, prefix);
      match ops[|ops| - 1]
      case SetTo(_) =>
      case Sample(count, _) =>
        var before := CountsSince(prefix);
        var after := CountsSince(ops);
        assert forall i :: 0 <= i && i + 1 < |before| ==> Change(before, i) == Change(after, i);
        PositionIsExact(c, prefix);
        if before != [] {
          var from := before[|before| - 1];
          assert Change(after, |before| - 1) == count - from;
          DeltaIsExact(c, Run(c, prefix), from, count);
          assert Travel(after) == Travel(before) + (count - from);
        }
    }
  }

  lemma LowBits(c: Config, a: int, p: int)
    requires (a - p) % TWO32 == 0
    ensures (p - a) % Modulus(c) == 0
  {
    var k := Quotient32(a - p);
    MultipleOfModulus(c, p - a, if c.is32 then -k else -k * TWO16);
  }

  /** What Position promises of the accumulator, said of the true position: the reading is right modulo
      the counter width at any speed, and right outright exactly while the true position fits 32 bits. */
  lemma ReportedPosition(c: Config, ops: seq<Op>, reported: int)
    requires c.cpr > 0
    requires -TWO31 <= reported < TWO31 && (Run(c, ops).accum - reported) % TWO32 == 0
    ensures var truth := Baseline(ops) + Sign(c) * Travel(CountsSince(ops));
            && (reported - truth) % Modulus(c) == 0
            && (SlowEnough(c, CountsSince(ops)) ==> (reported == truth <==> -TWO31 <= truth < TWO31))
  {
    PositionIsCongruent(c, ops);
    var a := Run(c, ops).accum;
    LowBits(c, a, reported);
    SumOfMultiples(c, reported - a, a - Baseline(ops) - Sign(c) * Travel(CountsSince(ops)));
    if SlowEnough(c, CountsSince(ops)) {
      PositionIsExact(c, ops);
      if -TWO31 <= a < TWO31 {
        var k := Quotient32(a - reported);
        SameWord32(a, reported, k);
      }
    }
  }

  // ---------------------------------------------------------------------------------------------
  // Speed integrates back to displacement
  // ---------------------------------------------------------------------------------------------

  datatype Reading = Reading(cnt: Word32, us: Word32)

  function Sampled(c: Config, s: State, rs: seq<Reading>): State {
    if rs == [] then s
    else Updated(c, Sampled(c, s, rs[..|rs| - 1]), rs[|rs| - 1].cnt, rs[|rs| - 1].us)
  }

  /** The speed reported for one reading times the interval it covers, in counts. */
  function SpeedTimesInterval(c: Config, before: State, r: Reading): real {
    Rpm(c, before, r.cnt, r.us) * (U32(r.us - before.prevUs) as real / 60000000.0) * c.cpr as real
  }

  /** The counts of a reading that repeats the previous timestamp: they never show up as speed. */
  function UnreportedCounts(c: Config, before: State, r: Reading): int {
    if !before.first && U32(r.us - before.prevUs) == 0 then Delta(c, before, r.cnt) else 0
  }

  function SpeedIntegral(c: Config, s: State, rs: seq<Reading>): real {
    if rs == [] then 0.0
    else
      SpeedIntegral(c, s, rs[..|rs| - 1])
      + SpeedTimesInterval(c, Sampled(c, s, rs[..|rs| - 1]), rs[|rs| - 1])
  }

  function Unreported(c: Config, s: State, rs: seq<Reading>): int {
    if rs == [] then 0
    else
      Unreported(c, s, rs[..|rs| - 1])
      + UnreportedCounts(c, Sampled(c, s, rs[..|rs| - 1]), rs[|rs| - 1])
  }

  lemma CountsOfSpeed(delta: real, cpr: real, minutes: real)
    requires cpr != 0.0 && minutes != 0.0
    ensures ((delta / cpr) / minutes) * minutes * cpr == delta
  {
    DivMul(delta / cpr, minutes);
    DivMul(delta, cpr);
  }

  lemma OneReading(c: Config, before: State, r: Reading)
    requires c.cpr > 0
    ensures SpeedTimesInterval(c, before, r)
            == (Updated(c, before, r.cnt, r.us).accum - before.accum - UnreportedCounts(c, before, r)) as real
  {
    hide Delta;
    var dt := U32(r.us - before.prevUs);
    if !before.first && dt != 0 {
      CountsOfSpeed(Delta(c, before, r.cnt) as real, c.cpr as real, dt as real / 60000000.0);
    }
  }

  /** No count is lost and none invented: integrating the reported speeds gives the change in
      position, short of exactly the counts whose sample repeated the previous timestamp. */
  lemma {:induction false} SpeedsIntegrateToDisplacement(c: Config, s: State, rs: seq<Reading>)
    requires c.cpr > 0
    ensures SpeedIntegral(c, s, rs) == (Sampled(c, s, rs).accum - s.accum - Unreported(c, s, rs)) as real
  {
    if rs == [] {
    } else {
      SpeedsIntegrateToDisplacement(c, s, rs[..|rs| - 1]);
      OneReading(c, Sampled(c, s, rs[..|rs| - 1]), rs[|rs| - 1]);
    }
  }
}
