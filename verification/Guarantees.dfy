/** What the two-task protocol promises, in every interleaving of the tasks and the clock. */
module Guarantees {
  import opened Numeric
  import opened Protocol
  import C = ControlCore
  import L = ControlLoop
  import T = TickRuns
  import U = UrosTask
  import W = WheelDrive
  import Odometry
  import Pid

  // ---------------------------------------------------------------------------------------------
  // Commands
  // ---------------------------------------------------------------------------------------------

  ghost predicate NoCommitBetween(log: seq<Action>, a: int, b: int)
    requires -1 <= a && b <= |log|
  {
    forall i :: a < i < b ==> !log[i].Committed?
  }

  /** The commit in force is the last one in the log, or the initial one if there is none. */
  lemma {:induction false} LastCommitIsLast(initial: Commit, log: seq<Action>, a: int)
    requires -1 <= a < |log| && NoCommitBetween(log, a, |log|)
    requires a >= 0 ==> log[a].Committed?
    ensures LastCommit(initial, log) == if a >= 0 then log[a].commit else initial
  {
    if a == |log| - 1 {
    } else {
      LastCommitIsLast(initial, log[..|log| - 1], a);
    }
  }

  /** The deadman decides on the age of the command modulo 2^32 milliseconds. */
  lemma DeadmanOnAge(c: Commit, now: nat)
    ensures DeadmanTarget(c, now) == if (now - c.at) % TWO32 < 200 then c.cmd else C.STOP
  {
    U32OfWords(now, c.at);
  }

  lemma AgeInWindow(c: Commit, now: nat)
    ensures c.at <= now < c.at + TWO32 ==> (now - c.at) % TWO32 == now - c.at
    ensures now < c.at <= now + TWO32 ==> (now - c.at) % TWO32 == now - c.at + TWO32
  {
  }

  lemma SampledTarget(cfg: L.Config, s: System, es: seq<Event>, initial: Commit, a: int, k: nat)
    requires AfterInit(cfg, s, initial)
    requires var log := Run(cfg, s, es).log;
             && -1 <= a < k < |log| && log[k].Sampled?
             && (a >= 0 ==> log[a].Committed?) && NoCommitBetween(log, a, k)
    ensures var log := Run(cfg, s, es).log;
            log[k].target == DeadmanTarget(if a >= 0 then log[a].commit else initial, log[k].now)
  {
    hide T.Ran, T.Ticked, Run, AllExplained, DeadmanTarget, UrosInv, SharedInv, ControlInv;
    RunKeepsInv(cfg, s, es, initial);
    var log := Run(cfg, s, es).log;
    EachExplained(cfg, s.loop, initial, log, k);
    LastCommitIsLast(initial, log[..k], a);
  }

  /** Commands are linearizable: a tick acts on exactly the triple of the latest commit before its
      snapshot, or on a stop. The command is used if and only if its stamp is less than 200 ms old
      modulo the clock's range: within 2^32 ms that is freshness, while a commit that slips in between
      the tick's clock read and its snapshot is stopped for that one tick. */
  lemma CommandsAreLinearizable(cfg: L.Config, s: System, es: seq<Event>, initial: Commit, a: int, k: nat)
    requires AfterInit(cfg, s, initial)
    requires var log := Run(cfg, s, es).log;
             && -1 <= a < k < |log| && log[k].Sampled?
             && (a >= 0 ==> log[a].Committed?) && NoCommitBetween(log, a, k)
    ensures var log := Run(cfg, s, es).log;
            var c := if a >= 0 then log[a].commit else initial;
            var now, target := log[k].now, log[k].target;
            && target == (if (now - c.at) % TWO32 < 200 then c.cmd else C.STOP)
            && (c.at <= now < c.at + TWO32 ==> target == if now - c.at < 200 then c.cmd else C.STOP)
            && (now < c.at <= now + TWO32 - 200 ==> target == C.STOP)
  {
    hide Inv, AfterInit, Run, AllExplained, DeadmanTarget;
    ValidAfterInit(cfg, s, initial);
    SampledTarget(cfg, s, es, initial, a, k);
    var log := Run(cfg, s, es).log;
    var c := if a >= 0 then log[a].commit else initial;
    DeadmanOnAge(c, log[k].now);
    AgeInWindow(c, log[k].now);
  }

  lemma {:induction false} StampsUpTo(cfg: L.Config, start: L.State, initial: Commit, log: seq<Action>, i: nat)
    requires cfg.Valid() && start.Valid() && AllExplained(cfg, start, initial, log)
    requires i < |log| && log[i].Committed?
    ensures log[i].commit.at <= LastStamp(log)
  {
    hide T.Ran, T.Ticked, L.BodyVelocity, T.Registers, DeadmanTarget;
    if i == |log| - 1 {
    } else {
      StampsUpTo(cfg, start, initial, log[..|log| - 1], i);
    }
  }

  /** Commands enter the shared state in the order of their stamps, and no stamp lies in the future. */
  lemma StampsAscend(cfg: L.Config, s: System, es: seq<Event>, initial: Commit, i: nat, k: nat)
    requires AfterInit(cfg, s, initial)
    requires var log := Run(cfg, s, es).log; i < k < |log| && log[i].Committed? && log[k].Committed?
    ensures var t := Run(cfg, s, es); t.log[i].commit.at <= t.log[k].commit.at <= t.clock
  {
    hide Run, AllExplained, SharedInv, UrosInv, ControlInv;
    RunKeepsInv(cfg, s, es, initial);
    var log := Run(cfg, s, es).log;
    EachExplained(cfg, s.loop, initial, log, k);
    StampsUpTo(cfg, s.loop, initial, log[..k], i);
    StampsUpTo(cfg, s.loop, initial, log, k);
  }

  /** The tick that read its clock at b is the one that sampled its command at k. */
  ghost predicate SampleOf(log: seq<Action>, b: nat, k: nat) {
    && b < k < |log| && log[b].Began? && log[k].Sampled?
    && forall n :: b < n < k ==> !log[n].Began?
  }

  lemma {:induction false} LastBeginIs(log: seq<Action>, b: nat)
    requires b < |log| && log[b].Began? && forall n :: b < n < |log| ==> !log[n].Began?
    ensures LastBegin(log) == log[b].now
  {
    if b == |log| - 1 {
    } else {
      LastBeginIs(log[..|log| - 1], b);
    }
  }

  lemma StampBeforeBegin(cfg: L.Config, start: L.State, initial: Commit, log: seq<Action>, a: int, b: nat, k: nat)
    requires cfg.Valid() && start.Valid() && AllExplained(cfg, start, initial, log)
    requires SampleOf(log, b, k) && -1 <= a < b && (a >= 0 ==> log[a].Committed?)
    ensures log[k].now == log[b].now
    ensures (if a >= 0 then log[a].commit else initial).at <= log[b].now
  {
    hide AllExplained, T.Ran, T.Ticked, L.BodyVelocity, T.Registers, DeadmanTarget;
    EachExplained(cfg, start, initial, log, k);
    LastBeginIs(log[..k], b);
    EachExplained(cfg, start, initial, log, b);
    if a >= 0 {
      StampsUpTo(cfg, start, initial, log[..b], a);
    }
  }

  /** A command that was in force when a tick read its clock is obeyed by that tick if and only if it is
      less than 200 ms old, short of a whole turn of the clock. */
  lemma TickObeysIffFresh(cfg: L.Config, s: System, es: seq<Event>, initial: Commit, a: int, b: nat, k: nat)
    requires AfterInit(cfg, s, initial)
    requires var log := Run(cfg, s, es).log;
             && SampleOf(log, b, k) && -1 <= a < b
             && (a >= 0 ==> log[a].Committed?) && NoCommitBetween(log, a, k)
    ensures var log := Run(cfg, s, es).log;
            var c := if a >= 0 then log[a].commit else initial;
            var now := log[k].now;
            && c.at <= now == log[b].now
            && (now < c.at + TWO32 ==> log[k].target == if now - c.at < 200 then c.cmd else C.STOP)
  {
    hide Run, AllExplained, SharedInv, UrosInv, ControlInv;
    RunKeepsInv(cfg, s, es, initial);
    CommandsAreLinearizable(cfg, s, es, initial, a, k);
    StampBeforeBegin(cfg, s.loop, initial, Run(cfg, s, es).log, a, b, k);
  }

  /** Where a triple in the shared state can come from: the initial stop and every stop on loss, a
      message, or the message the communication task was handling when the control loop started. */
  ghost predicate HasOrigin(s: System, es: seq<Event>, cmd: Command) {
    cmd == C.STOP || ReceiveTwist(cmd) in es || (s.pc.Stamped? && s.pc.commit.cmd == cmd)
  }

  ghost predicate AllHaveOrigin(s: System, es: seq<Event>, t: System) {
    && (t.pc.Stamped? ==> HasOrigin(s, es, t.pc.commit.cmd))
    && forall i :: 0 <= i < |t.log| && t.log[i].Committed? ==> HasOrigin(s, es, t.log[i].commit.cmd)
  }

  lemma OriginsRemain(s: System, es: seq<Event>, e: Event, t: System)
    requires AllHaveOrigin(s, es, t)
    ensures AllHaveOrigin(s, es + [e], t)
  {
  }

  lemma NoOriginNeeded(s: System)
    requires s.log == []
    ensures AllHaveOrigin(s, [], s)
  {
  }

  lemma StepHasOrigin(cfg: L.Config, s: System, es: seq<Event>, e: Event, t: System)
    requires cfg.Valid() && t.loop.Valid() && AllHaveOrigin(s, es, t) && e in es
    ensures AllHaveOrigin(s, es, Step(cfg, t, e))
  {
    hide L.Target, T.Ticked, L.BodyVelocity, U.Waited, U.Opened, U.Checked, U.Closed;
  }

  /** Nothing is commanded that was not asked for: every commit is a whole message or a stop. */
  lemma {:induction false} CommitsHaveOrigin(cfg: L.Config, s: System, es: seq<Event>)
    requires cfg.Valid() && s.loop.Valid() && s.log == []
    ensures AllHaveOrigin(s, es, Run(cfg, s, es))
  {
    hide Step, AllHaveOrigin;
    if es == [] {
      NoOriginNeeded(s);
    } else {
      var before, e := es[..|es| - 1], es[|es| - 1];
      CommitsHaveOrigin(cfg, s, before);
      assert es == before + [e];
      OriginsRemain(s, before, e, Run(cfg, s, before));
      StepHasOrigin(cfg, s, es, e, Run(cfg, s, before));
    }
  }

  /** Freshness is counted modulo the clock's range: the fired deadman does not clear the command, so
      after any number of whole turns of the clock the same command is obeyed again for 200 ms. */
  lemma StaleCommandRevives(cfg: L.Config, s: System, es: seq<Event>, initial: Commit, a: int, k: nat, turns: nat)
    requires AfterInit(cfg, s, initial)
    requires var log := Run(cfg, s, es).log;
             && -1 <= a < k < |log| && log[k].Sampled?
             && (a >= 0 ==> log[a].Committed?) && NoCommitBetween(log, a, k)
             && var at := (if a >= 0 then log[a].commit else initial).at;
                at + turns * TWO32 <= log[k].now < at + turns * TWO32 + 200
    ensures var log := Run(cfg, s, es).log;
            log[k].target == (if a >= 0 then log[a].commit else initial).cmd
  {
    hide AfterInit, Run;
    ValidAfterInit(cfg, s, initial);
    CommandsAreLinearizable(cfg, s, es, initial, a, k);
    var log := Run(cfg, s, es).log;
    var age := log[k].now - (if a >= 0 then log[a].commit else initial).at;
    RemainderIs(age, turns, age - turns * TWO32);
  }

  // ---------------------------------------------------------------------------------------------
  // The deadman's deadline
  // ---------------------------------------------------------------------------------------------

  ghost predicate ConsecutiveSamples(log: seq<Action>, i: nat, j: nat) {
    && i < j < |log| && log[i].Sampled? && log[j].Sampled?
    && forall m :: i < m < j ==> !log[m].Sampled?
  }

  /** Consecutive ticks read the clock at most `spacing` ms apart. */
  ghost predicate TicksSpaced(log: seq<Action>, spacing: nat) {
    forall i: nat, j: nat :: ConsecutiveSamples(log, i, j) ==> log[j].now <= log[i].now + spacing
  }

  /** The last sample in log[..k], given that there is one at i. */
  ghost function PreviousSample(log: seq<Action>, i: nat, k: nat): (p: nat)
    requires i < k <= |log| && log[i].Sampled?
    ensures i <= p < k && log[p].Sampled?
    ensures forall m :: p < m < k ==> !log[m].Sampled?
  {
    if log[k - 1].Sampled? then k - 1 else PreviousSample(log, i, k - 1)
  }

  lemma {:induction false} LastSampleIs(log: seq<Action>, p: nat)
    requires p < |log| && log[p].Sampled?
    requires forall m :: p < m < |log| ==> !log[m].Sampled?
    ensures LastSample(log) == log[p] && LastSampleTime(log) == log[p].now
  {
    if p == |log| - 1 {
    } else {
      LastSampleIs(log[..|log| - 1], p);
    }
  }

  lemma {:induction false} SampleTimesAscend(cfg: L.Config, start: L.State, initial: Commit, log: seq<Action>,
                                             i: nat, k: nat)
    requires cfg.Valid() && start.Valid() && AllExplained(cfg, start, initial, log)
    requires i < k < |log| && log[i].Sampled? && log[k].Sampled?
    ensures log[i].now <= log[k].now
    decreases k
  {
    hide AllExplained, T.Ran;
    var p := PreviousSample(log, i, k);
    EachExplained(cfg, start, initial, log, k);
    LastSampleIs(log[..k], p);
    if i < p {
      SampleTimesAscend(cfg, start, initial, log, i, p);
    }
  }

  ghost predicate AllStopped(log: seq<Action>, j: nat, k: nat)
    requires k < |log|
  {
    forall m :: j <= m <= k && log[m].Sampled? ==> log[m].target == C.STOP
  }

  lemma SampleAfterDeadline(cfg: L.Config, start: L.State, initial: Commit, log: seq<Action>, a: nat, k: nat)
    requires cfg.Valid() && start.Valid() && AllExplained(cfg, start, initial, log)
    requires a < k < |log| && log[a].Committed? && log[k].Sampled? && NoCommitBetween(log, a, k)
    requires log[a].commit.at + 200 <= log[k].now < log[a].commit.at + TWO32
    ensures log[k].target == C.STOP
  {
    hide AllExplained, T.Ran, T.Ticked, DeadmanTarget;
    EachExplained(cfg, start, initial, log, k);
    LastCommitIsLast(initial, log[..k], a);
    DeadmanOnAge(log[a].commit, log[k].now);
    AgeInWindow(log[a].commit, log[k].now);
  }

  /** Sample i read the clock before the deadline of the command committed at a; should it precede the
      commit, then so did the samples in between. */
  ghost predicate ReadBeforeDeadline(log: seq<Action>, a: nat, i: nat)
    requires a < |log| && log[a].Committed?
  {
    && i < |log| && log[i].Sampled?
    && forall m :: (m == i || i < m < a) && log[m].Sampled? ==> log[m].now < log[a].commit.at + 200
  }

  lemma NextSampleComesSoon(log: seq<Action>, p: nat, k: nat, spacing: nat)
    requires p < k < |log| && log[p].Sampled? && log[k].Sampled? && TicksSpaced(log, spacing)
    requires forall m :: p < m < k ==> !log[m].Sampled?
    ensures log[k].now <= log[p].now + spacing
  {
    assert ConsecutiveSamples(log, p, k);
  }

  lemma NoCommitBefore(log: seq<Action>, a: int, p: int, k: int)
    requires -1 <= a < p <= k <= |log| && NoCommitBetween(log, a, k)
    ensures NoCommitBetween(log, a, p)
  {
  }

  lemma StoppedUpTo(log: seq<Action>, j: nat, p: nat, k: nat)
    requires j <= p <= k < |log| && log[k].Sampled? && log[k].target == C.STOP
    requires if p == k then j == k else AllStopped(log, j, p)
    requires forall m :: p < m < k ==> !log[m].Sampled?
    ensures AllStopped(log, j, k)
  {
  }

  lemma {:induction false} DeadlineInLog(cfg: L.Config, start: L.State, initial: Commit, log: seq<Action>,
                                         a: nat, i: nat, k: nat, spacing: nat) returns (j: nat)
    requires cfg.Valid() && start.Valid() && AllExplained(cfg, start, initial, log)
    requires a < k < |log| && i < k && log[a].Committed? && log[k].Sampled? && ReadBeforeDeadline(log, a, i)
    requires NoCommitBetween(log, a, k) && TicksSpaced(log, spacing)
    requires log[a].commit.at + 200 <= log[k].now < log[a].commit.at + TWO32
    ensures a < j <= k && log[j].Sampled? && AllStopped(log, j, k)
    ensures log[j].now < log[a].commit.at + 200 + spacing
    decreases k
  {
    hide AllExplained, NoCommitBetween, TicksSpaced, AllStopped;
    var p := PreviousSample(log, i, k);
    NextSampleComesSoon(log, p, k, spacing);
    SampleAfterDeadline(cfg, start, initial, log, a, k);
    if p > a && log[p].now >= log[a].commit.at + 200 {
      SampleTimesAscend(cfg, start, initial, log, p, k);
      NoCommitBefore(log, a, p, k);
      j := DeadlineInLog(cfg, start, initial, log, a, i, p, spacing);
      StoppedUpTo(log, j, p, k);
    } else {
      j := k;
      StoppedUpTo(log, k, k, k);
    }
  }

  /** Deadman safety with a bound: when ticks read the clock at most `spacing` ms apart and a command is
      not followed by another, the first tick after it that is read 200 ms after its stamp or later
      stops the base, that tick comes less than 200 + spacing ms after the stamp, and every later one
      stops too. */
  lemma DeadmanDeadline(cfg: L.Config, s: System, es: seq<Event>, initial: Commit,
                        a: nat, i: nat, k: nat, spacing: nat) returns (j: nat)
    requires AfterInit(cfg, s, initial)
    requires var log := Run(cfg, s, es).log;
             && a < k < |log| && i < k && log[a].Committed? && log[k].Sampled? && ReadBeforeDeadline(log, a, i)
             && NoCommitBetween(log, a, k) && TicksSpaced(log, spacing)
             && log[a].commit.at + 200 <= log[k].now < log[a].commit.at + TWO32
    ensures var log := Run(cfg, s, es).log;
            && a < j <= k && log[j].Sampled? && AllStopped(log, j, k)
            && log[j].now < log[a].commit.at + 200 + spacing
  {
    RunKeepsInv(cfg, s, es, initial);
    j := DeadlineInLog(cfg, s.loop, initial, Run(cfg, s, es).log, a, i, k, spacing);
  }

  /** The tick that sampled its command at m is the one published at q. */
  ghost predicate TickOf(log: seq<Action>, m: nat, q: nat) {
    && m < q < |log| && log[m].Sampled? && log[q].Published?
    && forall n :: m < n < q ==> !log[n].Sampled?
  }

  /** If wheel w stands still in the tick published at q, that tick leaves it without drive. */
  ghost predicate Releases(cfg: L.Config, start: L.State, log: seq<Action>, q: nat, w: nat)
    requires cfg.Valid() && start.Valid() && q < |log| && log[q].Published? && w < 4
  {
    && T.AllValid(Inputs(log[..q])) && log[q].input.Valid()
    && var before := T.Ran(cfg, start, Inputs(log[..q]));
       W.Still(cfg, before, log[q].input, w) ==> T.Ticked(cfg, before, log[q].input).core.wheels[w].regs.ccr == 0
  }

  lemma StoppedTickReleases(cfg: L.Config, start: L.State, initial: Commit, log: seq<Action>, m: nat, q: nat, w: nat)
    requires cfg.Valid() && start.Valid() && AllExplained(cfg, start, initial, log)
    requires TickOf(log, m, q) && log[m].target == C.STOP && w < 4
    requires var c := cfg.core.wheels[w]; c.driven && c.motor.used && c.gains.minVal <= 0.0 <= c.gains.maxVal
    ensures Releases(cfg, start, log, q, w)
  {
    hide AllExplained, T.Ran, T.Ticked, W.Still, L.BodyVelocity, T.Registers;
    EachExplained(cfg, start, initial, log, q);
    LastSampleIs(log[..q], m);
    var before, x := T.Ran(cfg, start, Inputs(log[..q])), log[q].input;
    if W.Still(cfg, before, x, w) {
      W.StopReleasesStandingWheel(cfg, before, x, w);
    }
  }

  /** The deadline reaches the motors: every tick that samples its command between the deadline's tick j
      and tick k leaves each standing wheel without drive. */
  lemma DeadmanReleasesMotors(cfg: L.Config, s: System, es: seq<Event>, initial: Commit,
                              a: nat, i: nat, k: nat, spacing: nat, w: nat) returns (j: nat)
    requires AfterInit(cfg, s, initial)
    requires var log := Run(cfg, s, es).log;
             && a < k < |log| && i < k && log[a].Committed? && log[k].Sampled? && ReadBeforeDeadline(log, a, i)
             && NoCommitBetween(log, a, k) && TicksSpaced(log, spacing)
             && log[a].commit.at + 200 <= log[k].now < log[a].commit.at + TWO32
    requires w < 4
    requires var c := cfg.core.wheels[w]; c.driven && c.motor.used && c.gains.minVal <= 0.0 <= c.gains.maxVal
    ensures var log := Run(cfg, s, es).log;
            && a < j <= k && log[j].Sampled? && log[j].now < log[a].commit.at + 200 + spacing
            && forall m: nat, q: nat :: j <= m <= k && TickOf(log, m, q) ==> Releases(cfg, s.loop, log, q, w)
  {
    hide Run, AllExplained, NoCommitBetween, TicksSpaced, ReadBeforeDeadline, Releases, SharedInv, UrosInv, ControlInv;
    j := DeadmanDeadline(cfg, s, es, initial, a, i, k, spacing);
    RunKeepsInv(cfg, s, es, initial);
    var log := Run(cfg, s, es).log;
    forall m: nat, q: nat | j <= m <= k && TickOf(log, m, q)
      ensures Releases(cfg, s.loop, log, q, w)
    {
      StoppedTickReleases(cfg, s.loop, initial, log, m, q, w);
    }
  }

  lemma RunOf(cfg: L.Config, s: System, es: seq<Event>, e: Event)
    requires cfg.Valid() && s.loop.Valid()
    ensures Run(cfg, s, es + [e]) == Step(cfg, Run(cfg, s, es), e)
  {
    hide Step;
    assert (es + [e])[..|es + [e]| - 1] == es;
  }

  lemma TargetIsDeadman(shared: L.Shared, c: Commit, now: nat)
    ensures L.Target(L.Committed(shared, c.cmd, U32(c.at)), U32(now)) == DeadmanTarget(c, now)
  {
  }

  lemma FiveSteps(cfg: L.Config, s: System, a: Event, b: Event, c: Event, d: Event, e: Event)
    requires cfg.Valid() && s.loop.Valid()
    ensures Step(cfg, s, a).loop.Valid() && Step(cfg, Step(cfg, s, a), b).loop.Valid()
    ensures Step(cfg, Step(cfg, Step(cfg, s, a), b), c).loop.Valid()
    ensures Step(cfg, Step(cfg, Step(cfg, Step(cfg, s, a), b), c), d).loop.Valid()
    ensures Run(cfg, s, [a, b] + [c, d] + [e])
            == Step(cfg, Step(cfg, Step(cfg, Step(cfg, Step(cfg, s, a), b), c), d), e)
  {
    hide Step;
    assert [] + [a] == [a] && [a] + [b] == [a, b];
    RunOf(cfg, s, [], a);
    RunOf(cfg, s, [a], b);
    assert [a, b] + [c] == [a, b, c] && [a, b, c] + [d] == [a, b] + [c, d];
    RunOf(cfg, s, [a, b], c);
    RunOf(cfg, s, [a, b, c], d);
    RunOf(cfg, s, [a, b] + [c, d], e);
  }

  /** Such a run: a message, nothing else for a whole turn of the clock, and a tick that obeys it. */
  lemma StaleCommandRun(cfg: L.Config, s: System, cmd: Command, d: nat)
    requires cfg.Valid() && s.loop.Valid() && s.control.Idle? && s.pc.Spinning? && d < 200
    ensures Run(cfg, s, [ReceiveTwist(cmd), CommitTwist] + [Elapse(TWO32 + d), ReadClock] + [Snapshot]).log
            == s.log + [Committed(Commit(cmd, s.clock)), Began(s.clock + TWO32 + d), Sampled(s.clock + TWO32 + d, cmd)]
  {
    hide L.Target, DeadmanTarget, T.Ticked, L.BodyVelocity, U.Waited, U.Opened, U.Checked, U.Closed, Run;
    FiveSteps(cfg, s, ReceiveTwist(cmd), CommitTwist, Elapse(TWO32 + d), ReadClock, Snapshot);
    var c := Commit(cmd, s.clock);
    TargetIsDeadman(s.shared, c, s.clock + TWO32 + d);
    DeadmanOnAge(c, s.clock + TWO32 + d);
    RemainderIs(TWO32 + d, 1, d);
  }

  /** The other edge: a command that is committed between a tick's clock read and its snapshot looks
      2^32 ms old, and the tick stops the base although the command is brand new. */
  lemma FreshCommandStoppedOnce(cfg: L.Config, s: System, cmd: Command, d: nat)
    requires cfg.Valid() && s.loop.Valid() && s.control.Idle? && s.pc.Spinning?
    requires 1 <= d <= TWO32 - 200
    ensures Run(cfg, s, [ReadClock, Elapse(d)] + [ReceiveTwist(cmd), CommitTwist] + [Snapshot]).log
            == s.log + [Began(s.clock), Committed(Commit(cmd, s.clock + d)), Sampled(s.clock, C.STOP)]
  {
    hide L.Target, DeadmanTarget, T.Ticked, L.BodyVelocity, U.Waited, U.Opened, U.Checked, U.Closed, Run;
    FiveSteps(cfg, s, ReadClock, Elapse(d), ReceiveTwist(cmd), CommitTwist, Snapshot);
    var c := Commit(cmd, s.clock + d);
    TargetIsDeadman(s.shared, c, s.clock);
    DeadmanOnAge(c, s.clock);
    AgeInWindow(c, s.clock);
  }

  // ---------------------------------------------------------------------------------------------
  // Losing the agent
  // ---------------------------------------------------------------------------------------------

  /** In every run, whenever no agent is connected the shared command is a stop, and the entities'
      life cycle is in order: all live or none, created from nothing, spun only when complete. */
  lemma LossOfAgentStops(cfg: L.Config, s: System, es: seq<Event>, initial: Commit)
    requires AfterInit(cfg, s, initial)
    ensures var t := Run(cfg, s, es);
            && (!U.Connected(t.uros.agent) ==> t.shared.cmd == C.STOP)
            && U.Tidy(t.uros)
            && (t.pc.Spinning? || t.pc.Stamped? ==> t.uros.live == U.ALL)
  {
    RunKeepsInv(cfg, s, es, initial);
    hide AllExplained, ControlInv, SharedInv;
  }

  predicate TouchesControl(e: Event) {
    e.ReadClock? || e.Snapshot? || e.Compute? || e.Publish?
  }

  /** The communication task and the clock cannot change what a tick has already taken. */
  lemma {:induction false} OthersLeaveTickAlone(cfg: L.Config, s: System, es: seq<Event>)
    requires cfg.Valid() && s.loop.Valid()
    requires forall i :: 0 <= i < |es| ==> !TouchesControl(es[i])
    ensures Run(cfg, s, es).control == s.control && Run(cfg, s, es).loop == s.loop
  {
    hide U.Waited, U.Opened, U.Checked, U.Closed, L.Target, T.Ticked, L.BodyVelocity;
    if es == [] {
    } else {
      OthersLeaveTickAlone(cfg, s, es[..|es| - 1]);
    }
  }

  lemma StopIsSampled(cfg: L.Config, t: System, others: seq<Event>, counts: seq<int>, nowUs: nat)
    requires cfg.Valid() && t.loop.Valid() && t.control.HasClock? && t.shared.cmd == C.STOP && |counts| == 4
    requires forall i :: 0 <= i < |others| ==> !TouchesControl(others[i])
    ensures Step(cfg, t, Snapshot).loop.Valid()
    ensures Step(cfg, Run(cfg, Step(cfg, t, Snapshot), others), Compute(counts, nowUs)).loop
            == T.Ticked(cfg, t.loop, T.Input(t.control.now, C.STOP, counts, nowUs))
  {
    hide Run, T.Ticked, L.BodyVelocity;
    OthersLeaveTickAlone(cfg, Step(cfg, t, Snapshot), others);
  }

  /** From a lost agent to released motors: a tick that takes its snapshot while no agent is connected
      leaves every standing wheel without drive, whatever runs in between, whatever was commanded and
      wound up before. */
  lemma LossOfAgentReleasesMotors(cfg: L.Config, s: System, es: seq<Event>, initial: Commit,
                                  others: seq<Event>, counts: seq<int>, nowUs: nat, w: nat)
    requires AfterInit(cfg, s, initial)
    requires var t := Run(cfg, s, es); t.control.HasClock? && !U.Connected(t.uros.agent)
    requires forall i :: 0 <= i < |others| ==> !TouchesControl(others[i])
    requires |counts| == 4 && w < 4
    requires var c := cfg.core.wheels[w]; c.driven && c.motor.used && c.gains.minVal <= 0.0 <= c.gains.maxVal
    requires var t := Run(cfg, s, es);
             W.Still(cfg, t.loop, T.Input(t.control.now, C.STOP, counts, nowUs), w)
    ensures var t := Run(cfg, Step(cfg, Run(cfg, s, es), Snapshot), others);
            Step(cfg, t, Compute(counts, nowUs)).loop.core.wheels[w].regs.ccr == 0
  {
    hide AfterInit, Run, Step, W.Still, T.Ticked;
    LossOfAgentStops(cfg, s, es, initial);
    RunKeepsInv(cfg, s, es, initial);
    StopIsSampled(cfg, Run(cfg, s, es), others, counts, nowUs);
    var t := Run(cfg, s, es);
    W.StopReleasesStandingWheel(cfg, t.loop, T.Input(t.control.now, C.STOP, counts, nowUs), w);
  }

  // ---------------------------------------------------------------------------------------------
  // Poses
  // ---------------------------------------------------------------------------------------------

  /** The six-tuple of the last of a sequence of ticks: pose and body velocity together. */
  function LastTuple(cfg: L.Config, start: L.State, ins: seq<T.Input>): L.Snapshot
    requires cfg.Valid() && start.Valid() && T.AllValid(ins)
  {
    if ins == [] then L.NO_SNAPSHOT
    else
      var before, x := T.Ran(cfg, start, ins[..|ins| - 1]), ins[|ins| - 1];
      L.Snapshot(T.Ran(cfg, start, ins).core.pose,
                 L.BodyVelocity(cfg, before, T.Registers(cfg, x.counts), U32(x.nowUs)))
  }

  lemma {:induction false} SnapshotIsLastTick(cfg: L.Config, start: L.State, initial: Commit, log: seq<Action>)
    requires cfg.Valid() && start.Valid() && AllExplained(cfg, start, initial, log)
    ensures LastSnapshot(log) == LastTuple(cfg, start, Inputs(log))
  {
    hide T.Ticked, L.BodyVelocity, T.Registers;
    if log == [] {
    } else {
      var before, a := log[..|log| - 1], log[|log| - 1];
      SnapshotIsLastTick(cfg, start, initial, before);
      if a.Published? {
        var ins := Inputs(log);
        assert ins[..|ins| - 1] == Inputs(before);
        RanAppend(cfg, start, Inputs(before), a.input);
      }
    }
  }

  /** Every observed six-tuple is the pose and body velocity of one whole completed tick, the last one
      published, or the initial zeros; and that pose is the fold of the motions of all ticks up to it. */
  lemma ObservationsAreWholeTicks(cfg: L.Config, s: System, es: seq<Event>, initial: Commit, k: nat)
    requires AfterInit(cfg, s, initial)
    requires k < |Run(cfg, s, es).log| && Run(cfg, s, es).log[k].Observed?
    ensures T.AllValid(Inputs(Run(cfg, s, es).log[..k]))
    ensures var log := Run(cfg, s, es).log;
            var ins, snap := Inputs(log[..k]), log[k].snap;
            && snap == LastTuple(cfg, s.loop, ins)
            && (ins != [] ==>
                  snap.pose == Odometry.Integrated(cfg.core.trig, s.loop.core.pose, T.Motions(cfg, s.loop, ins)))
  {
    hide T.Ticked, L.BodyVelocity, T.Registers;
    RunKeepsInv(cfg, s, es, initial);
    var log := Run(cfg, s, es).log;
    EachExplained(cfg, s.loop, initial, log, k);
    SnapshotIsLastTick(cfg, s.loop, initial, log[..k]);
    T.PoseIsTheFold(cfg, s.loop, Inputs(log[..k]));
  }

  lemma {:induction false} InputsGrow(log: seq<Action>, i: nat, k: nat)
    requires i <= k <= |log|
    ensures Inputs(log[..i]) <= Inputs(log[..k])
    decreases k
  {
    if i == k {
    } else {
      InputsGrow(log, i, k - 1);
      assert log[..k][..k - 1] == log[..k - 1];
    }
  }

  /** Every observation in terms of the inputs of the whole log: it shows the last of the ticks that
      were published by then. */
  lemma ObservedTuple(cfg: L.Config, start: L.State, initial: Commit, log: seq<Action>, k: nat)
    requires cfg.Valid() && start.Valid() && AllExplained(cfg, start, initial, log)
    requires k < |log| && log[k].Observed?
    ensures var p := |Inputs(log[..k])|;
            p <= |Inputs(log)| && log[k].snap == LastTuple(cfg, start, Inputs(log)[..p])
  {
    hide AllExplained, Inputs, LastTuple, T.Ran;
    EachExplained(cfg, start, initial, log, k);
    SnapshotIsLastTick(cfg, start, initial, log[..k]);
    InputsGrow(log, k, |log|);
    assert log[..|log|] == log;
    assert Inputs(log)[..|Inputs(log[..k])|] == Inputs(log[..k]);
  }

  /** Readers never go back in time: of two observations in a run, the later one has the tuple of the
      same tick or of a later one, each the last that was published when it was read. */
  lemma ObservationsAdvance(cfg: L.Config, s: System, es: seq<Event>, initial: Commit, i: nat, k: nat)
    returns (p: nat, q: nat)
    requires AfterInit(cfg, s, initial)
    requires var log := Run(cfg, s, es).log;
             i <= k < |log| && log[i].Observed? && log[k].Observed?
    ensures T.AllValid(Inputs(Run(cfg, s, es).log))
    ensures var log := Run(cfg, s, es).log;
            var ins := Inputs(log);
            && p <= q <= |ins| && p == |Inputs(log[..i])| && q == |Inputs(log[..k])|
            && log[i].snap == LastTuple(cfg, s.loop, ins[..p])
            && log[k].snap == LastTuple(cfg, s.loop, ins[..q])
  {
    hide Run, Inputs, AllExplained, LastTuple, SharedInv, UrosInv, ControlInv;
    RunKeepsInv(cfg, s, es, initial);
    var log := Run(cfg, s, es).log;
    ObservedTuple(cfg, s.loop, initial, log, i);
    ObservedTuple(cfg, s.loop, initial, log, k);
    InputsGrow(log, i, k);
    p, q := |Inputs(log[..i])|, |Inputs(log[..k])|;
  }

  lemma PublishedPose(cfg: L.Config, s: System, es: seq<Event>, initial: Commit, k: nat)
    requires AfterInit(cfg, s, initial)
    requires k < |Run(cfg, s, es).log| && Run(cfg, s, es).log[k].Published?
    ensures cfg.Valid() && s.loop.Valid()
    ensures T.AllValid(Inputs(Run(cfg, s, es).log[..k + 1]))
    ensures Run(cfg, s, es).log[k].snap.pose == T.Ran(cfg, s.loop, Inputs(Run(cfg, s, es).log[..k + 1])).core.pose
  {
    hide T.Ticked, L.BodyVelocity, T.Registers;
    RunKeepsInv(cfg, s, es, initial);
    var log := Run(cfg, s, es).log;
    EachExplained(cfg, s.loop, initial, log, k);
    assert log[..k + 1][..k] == log[..k];
    RanAppend(cfg, s.loop, Inputs(log[..k]), log[k].input);
  }

  /** From the raw counters to the published heading, in any interleaving: it is the heading the
      wheels' true net turns call for, up to the disagreement of the millisecond and microsecond
      clocks, and exactly that where they agree. */
  lemma PublishedHeading(cfg: L.Config, s: System, es: seq<Event>, initial: Commit, k: nat, rho: real)
    requires AfterInit(cfg, s, initial) && T.Equipped(cfg) && T.FreshEncoders(s.loop)
    requires k < |Run(cfg, s, es).log| && Run(cfg, s, es).log[k].Published?
    requires T.AllValid(Inputs(Run(cfg, s, es).log[..k + 1]))
    requires T.Smooth(cfg, Inputs(Run(cfg, s, es).log[..k + 1]), rho)
    ensures var ins := Inputs(Run(cfg, s, es).log[..k + 1]);
            var off := T.HeadingOff(cfg, s.loop, Run(cfg, s, es).log[k].snap.pose, ins);
            Abs(off) <= rho * T.TotalAbs(T.Dues(cfg, T.Heading, ins)) && (rho == 0.0 ==> off == 0.0)
  {
    hide Run, AfterInit, Inputs, T.Ran, T.Smooth, T.FreshEncoders, T.HeadingOff, T.Dues, T.TotalAbs, Abs;
    PublishedPose(cfg, s, es, initial, k);
    var ins := Inputs(Run(cfg, s, es).log[..k + 1]);
    T.HeadingWithinClockSkew(cfg, s.loop, ins, rho);
    if rho == 0.0 {
      T.AbsZero(T.HeadingOff(cfg, s.loop, Run(cfg, s, es).log[k].snap.pose, ins),
                T.TotalAbs(T.Dues(cfg, T.Heading, ins)));
    }
  }

  // ---------------------------------------------------------------------------------------------
  // Motors
  // ---------------------------------------------------------------------------------------------

  /** The PID law reaches the registers in any interleaving: between two ticks the duty on a wheel is the
      truncated, clamped law over the history that the sampled commands and the raw counters make:
      targets less true speeds. */
  lemma PublishedDuty(cfg: L.Config, s: System, es: seq<Event>, initial: Commit, w: nat, k: nat)
    requires AfterInit(cfg, s, initial) && w < 4
    requires Run(cfg, s, es).control.Idle? && Inputs(Run(cfg, s, es).log) != []
    requires T.AllValid(Inputs(Run(cfg, s, es).log))
    requires var c := cfg.core.wheels[w]; c.driven && c.motor.used && C.FitsRegister(c)
    requires s.loop.core.wheels[w].pid == Pid.Fresh() && W.Exclusive(s.loop.core.wheels[w].regs)
    requires Pid.SinceReset(W.History(cfg, s.loop, Inputs(Run(cfg, s, es).log), w), k)
    ensures var c, t := cfg.core.wheels[w], Run(cfg, s, es);
            var law := Pid.TextbookLaw(c.gains, W.History(cfg, s.loop, Inputs(t.log), w), k);
            var regs := t.loop.core.wheels[w].regs;
            && C.SignedDutyIs(regs, C.Inverted(c.motor, Trunc(Constrain(law, c.gains.minVal, c.gains.maxVal))))
            && regs.ccr <= c.motor.arr
            && W.Exclusive(regs)
    ensures var ins := Inputs(Run(cfg, s, es).log);
            T.FreshEncoders(s.loop) && W.WheelFollows(cfg, ins, w) ==>
              W.History(cfg, s.loop, ins, w) == W.TrueHistory(cfg, ins, w)
  {
    hide Run, Inputs, AllExplained, T.Ran, W.History, W.TrueHistory, Pid.TextbookLaw, Pid.SinceReset;
    hide SharedInv, UrosInv, StampInv;
    hide C.SignedDutyIs, Trunc, Constrain, C.FitsRegister, W.Exclusive;
    RunKeepsInv(cfg, s, es, initial);
    W.DutyInClosedForm(cfg, s.loop, Inputs(Run(cfg, s, es).log), w, k);
  }
}
