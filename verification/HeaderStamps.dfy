/** The time stamps of published messages: local tick time plus the offset of the last synchronization. */
module HeaderStamps {
  import opened Numeric
  import L = ControlLoop
  import U = UrosTask

  /** C's integer division and remainder, which truncate toward zero. */
  function Quotient(a: int, b: int): int
    requires b > 0
  {
    if a < 0 then -(-a / b) else a / b
  }

  function Remainder(a: int, b: int): int
    requires b > 0
  {
    a - Quotient(a, b) * b
  }

  datatype Stamp = Stamp(sec: int, nanosec: int)

  /** What clock_gettime reads off the 32-bit tick. */
  function LocalTime(tick: Word32): Stamp {
    Stamp(tick / 1000, tick % 1000 * 1000000)
  }

  /** The stamp of a message published at a tick, its seconds an int32_t, its nanoseconds a uint32_t. */
  function Header(tick: Word32, timeOffset: int): Stamp {
    var t := LocalTime(tick);
    var ns := t.sec * 1000000000 + t.nanosec + timeOffset;
    Stamp(I32(Quotient(ns, 1000000000)), U32(Remainder(ns, 1000000000)))
  }

  function Nanos(s: Stamp): int {
    s.sec * 1000000000 + s.nanosec
  }

  lemma LocalNanos(tick: Word32)
    ensures Nanos(LocalTime(tick)) == tick * 1000000
  {
    assert tick == tick / 1000 * 1000 + tick % 1000;
  }

  lemma NonNegativeParts(ns: int)
    requires ns >= 0
    ensures Quotient(ns, 1000000000) == ns / 1000000000 >= 0
    ensures Remainder(ns, 1000000000) == ns % 1000000000
  {
  }

  lemma SmallWord(r: int)
    requires 0 <= r < TWO32
    ensures U32(r) == r
  {
  }

  /** Splitting a time into seconds and nanoseconds loses nothing until the seconds leave 31 bits. */
  lemma HeaderShowsIff(tick: Word32, timeOffset: int)
    requires tick * 1000000 + timeOffset >= 0
    ensures var h := Header(tick, timeOffset);
            && 0 <= h.nanosec < 1000000000
            && (Nanos(h) == tick * 1000000 + timeOffset <==> tick * 1000000 + timeOffset < TWO31 * 1000000000)
  {
    LocalNanos(tick);
    var ns := tick * 1000000 + timeOffset;
    var sec, rest := ns / 1000000000, ns % 1000000000;
    assert ns == sec * 1000000000 + rest;
    NonNegativeParts(ns);
    SmallWord(rest);
    if sec < TWO31 {
      I32OfWord(sec);
    } else {
      var k := I32Wraps(sec);
    }
  }

  /** When the tick wraps, the local time falls back by a whole turn. */
  function TurnsBetween(a: nat, b: nat): int {
    b / TWO32 - a / TWO32
  }

  lemma TicksBetween(a: nat, b: nat)
    ensures U32(b) - U32(a) == (b - a) - TurnsBetween(a, b) * TWO32
  {
    assert a == a / TWO32 * TWO32 + U32(a);
    assert b == b / TWO32 * TWO32 + U32(b);
  }

  /** What a session's synchronization is for: connected at time `at` with the epoch at e, and whatever
      sessions follow that do not synchronize, a message published at time `now` is stamped with the
      epoch time e plus what has passed since, less the turns the tick has made. Its stamp is the epoch
      time if and only if the tick has not wrapped since. */
  lemma StampsTellTheEpochIff(u: U.State, s: L.Shared, env: U.Env, later: seq<U.Env>, at: nat, now: nat)
    requires |env.initOk| == U.INIT_CALLS && U.Tidy(u) && U.AllAnswer(later)
    requires u.agent == U.AgentAvailable && U.Iterated(u, s, env).0.agent == U.AgentConnected
    requires env.sync.InSync? && env.sync.nowMs == U32(at)
    requires forall i :: 0 <= i < |later| ==> later[i].sync.NotSynced?
    requires 0 <= env.sync.epochNanos + (U32(now) - U32(at)) * 1000000 < TWO31 * 1000000000
    ensures var (v, t) := U.Iterated(u, s, env);
            var h := Header(U32(now), U.RanIterations(v, t, later).0.timeOffset);
            var truth := env.sync.epochNanos + (now - at) * 1000000;
            && Nanos(h) == truth - TurnsBetween(at, now) * TWO32 * 1000000
            && (Nanos(h) == truth <==> TurnsBetween(at, now) == 0)
            && 0 <= h.nanosec < 1000000000
  {
    hide U.Iterated, U.RanIterations, U.Tidy, Header, TurnsBetween;
    var (v, t) := U.Iterated(u, s, env);
    U.OffsetIsRecomputedIff(u, s, env);
    U.IterationKeepsTidy(u, s, env);
    U.OffsetOutlivesSessions(v, t, later);
    HeaderShowsIff(U32(now), v.timeOffset);
    TicksBetween(at, now);
  }
}
