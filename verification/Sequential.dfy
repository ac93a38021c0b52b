/** The atomic steps, with nothing but the clock in between, are the calls the tasks make. */
module Sequential {
  import opened Numeric
  import opened Guarantees
  import opened Protocol
  import L = ControlLoop
  import T = TickRuns
  import U = UrosTask

  lemma RunAppend(cfg: L.Config, s: System, es: seq<Event>, fs: seq<Event>)
    requires cfg.Valid() && s.loop.Valid()
    ensures Run(cfg, s, es + fs) == Run(cfg, Run(cfg, s, es), fs)
    decreases |fs|
  {
    hide Step;
    if fs == [] {
      assert es + fs == es;
    } else {
      var before := fs[..|fs| - 1];
      assert (es + fs)[..|es + fs| - 1] == es + before;
      RunAppend(cfg, s, es, before);
    }
  }

  lemma RunOne(cfg: L.Config, s: System, e: Event)
    requires cfg.Valid() && s.loop.Valid()
    ensures Run(cfg, s, [e]) == Step(cfg, s, e)
  {
    hide Step;
    assert [] + [e] == [e];
    RunOf(cfg, s, [], e);
  }

  /** A tick that nothing interrupts does what ControlLoop.Tick does. */
  lemma UninterruptedTick(cfg: L.Config, s: System, counts: seq<int>, nowUs: nat)
    requires cfg.Valid() && s.loop.Valid() && s.control.Idle? && |counts| == 4
    ensures var t := Run(cfg, s, [ReadClock] + [Snapshot] + [Compute(counts, nowUs)] + [Publish]);
            var cnt := T.Registers(cfg, counts);
            var target := L.Target(s.shared, U32(s.clock));
            && t.loop == L.Advanced(cfg, s.loop, U32(s.clock), target, cnt, U32(nowUs))
            && t.shared == L.Published(s.shared, t.loop.core.pose, L.BodyVelocity(cfg, s.loop, cnt, U32(nowUs)))
            && t.control == Idle && t.uros == s.uros && t.pc == s.pc
  {
    hide L.Advanced, L.BodyVelocity, L.Target, T.Registers, Run;
    RunOne(cfg, s, ReadClock);
    RunOf(cfg, s, [ReadClock], Snapshot);
    RunOf(cfg, s, [ReadClock] + [Snapshot], Compute(counts, nowUs));
    RunOf(cfg, s, [ReadClock] + [Snapshot] + [Compute(counts, nowUs)], Publish);
  }

  lemma NextTimeShows(clock: nat, stamp: Word32)
    ensures U32(clock + U32(stamp - clock)) == stamp
  {
    U32OfWords(stamp, clock);
    var q := (stamp - clock) / TWO32;
    assert clock + U32(stamp - clock) == stamp + -q * TWO32;
  }

  /** The next time after `clock` at which a 32-bit clock shows `stamp`. */
  function NextTime(clock: nat, stamp: Word32): (t: nat)
    ensures clock <= t < clock + TWO32 && U32(t) == stamp
  {
    NextTimeShows(clock, stamp);
    clock + U32(stamp - clock)
  }

  /** The time after a number of deliveries. */
  function TimeAfter(clock: nat, inbox: seq<U.Twist>): nat {
    if inbox == [] then clock
    else NextTime(TimeAfter(clock, inbox[..|inbox| - 1]), inbox[|inbox| - 1].nowMs)
  }

  /** Each message is delivered when the clock shows its stamp. */
  function Deliveries(clock: nat, inbox: seq<U.Twist>): seq<Event> {
    if inbox == [] then []
    else
      var before, m := inbox[..|inbox| - 1], inbox[|inbox| - 1];
      Deliveries(clock, before)
      + [Elapse(TimeAfter(clock, inbox) - TimeAfter(clock, before))] + [ReceiveTwist(m.cmd)] + [CommitTwist]
  }

  /** The events of an iteration that no tick interrupts; time may pass between its deliveries. */
  function IterationEvents(u: U.State, clock: nat, env: U.Env): seq<Event> {
    match u.agent
    case WaitingAgent => [Wait(env.pingOk)]
    case AgentAvailable => [Open(env.initOk, env.sync)]
    case AgentConnected => [Check(env.pingOk)] + Deliveries(clock, env.inbox) + [EndSpin]
    case AgentDisconnected => [BeginStop] + [CommitStop] + [TearDown]
  }

  lemma OneDelivery(cfg: L.Config, s: System, es: seq<Event>, ms: nat, cmd: Command)
    requires cfg.Valid() && s.loop.Valid()
    ensures var t := Run(cfg, s, es);
            var later := Step(cfg, t, Elapse(ms));
            && later.loop.Valid() && Step(cfg, later, ReceiveTwist(cmd)).loop.Valid()
            && Run(cfg, s, es + [Elapse(ms)] + [ReceiveTwist(cmd)] + [CommitTwist])
               == Step(cfg, Step(cfg, later, ReceiveTwist(cmd)), CommitTwist)
  {
    hide Step;
    RunOf(cfg, s, es, Elapse(ms));
    RunOf(cfg, s, es + [Elapse(ms)], ReceiveTwist(cmd));
    RunOf(cfg, s, es + [Elapse(ms)] + [ReceiveTwist(cmd)], CommitTwist);
  }

  lemma NothingRun(cfg: L.Config, s: System)
    requires cfg.Valid() && s.loop.Valid()
    ensures Run(cfg, s, []) == s
  {
  }

  lemma {:induction false} DeliveriesReachSharedState(cfg: L.Config, s: System, inbox: seq<U.Twist>)
    requires cfg.Valid() && s.loop.Valid() && s.pc.Spinning?
    ensures var t := Run(cfg, s, Deliveries(s.clock, inbox));
            && t.shared == U.Received(s.shared, inbox)
            && t.pc == s.pc && t.uros == s.uros && t.loop == s.loop && t.control == s.control
            && t.clock == TimeAfter(s.clock, inbox)
  {
    hide L.Target, T.Ticked, L.BodyVelocity, U.Waited, U.Opened, U.Checked, U.Closed, Run, NextTime;
    if inbox == [] {
      NothingRun(cfg, s);
    } else {
      var before, m := inbox[..|inbox| - 1], inbox[|inbox| - 1];
      DeliveriesReachSharedState(cfg, s, before);
      OneDelivery(cfg, s, Deliveries(s.clock, before), TimeAfter(s.clock, inbox) - TimeAfter(s.clock, before), m.cmd);
    }
  }

  lemma {:induction false} DeliveriesAreIgnored(cfg: L.Config, s: System, inbox: seq<U.Twist>)
    requires cfg.Valid() && s.loop.Valid() && s.pc.Top?
    ensures Run(cfg, s, Deliveries(s.clock, inbox)) == s.(clock := TimeAfter(s.clock, inbox))
  {
    hide L.Target, T.Ticked, L.BodyVelocity, U.Waited, U.Opened, U.Checked, U.Closed, Run, NextTime;
    if inbox == [] {
      NothingRun(cfg, s);
    } else {
      var before, m := inbox[..|inbox| - 1], inbox[|inbox| - 1];
      DeliveriesAreIgnored(cfg, s, before);
      OneDelivery(cfg, s, Deliveries(s.clock, before), TimeAfter(s.clock, inbox) - TimeAfter(s.clock, before), m.cmd);
    }
  }

  lemma UninterruptedSpin(cfg: L.Config, s: System, env: U.Env)
    requires cfg.Valid() && s.loop.Valid() && s.pc.Top? && s.uros.agent == U.AgentConnected
    requires env.nowMs == U32(s.clock) && |env.initOk| == U.INIT_CALLS
    ensures var t := Run(cfg, s, [Check(env.pingOk)] + Deliveries(s.clock, env.inbox) + [EndSpin]);
            && (t.uros, t.shared) == U.Iterated(s.uros, s.shared, env)
            && t.pc == Top && t.loop == s.loop && t.control == s.control
  {
    hide L.Target, T.Ticked, L.BodyVelocity, Run, Deliveries, TimeAfter, U.Checked, U.Did, U.Received;
    RunOne(cfg, s, Check(env.pingOk));
    var t := Step(cfg, s, Check(env.pingOk));
    RunAppend(cfg, s, [Check(env.pingOk)], Deliveries(s.clock, env.inbox));
    RunOf(cfg, s, [Check(env.pingOk)] + Deliveries(s.clock, env.inbox), EndSpin);
    if t.pc.Spinning? {
      DeliveriesReachSharedState(cfg, t, env.inbox);
    } else {
      DeliveriesAreIgnored(cfg, t, env.inbox);
    }
  }

  /** An iteration that no tick interrupts does what UrosTask.Iterate does, however long its deliveries
      take. */
  lemma UninterruptedIteration(cfg: L.Config, s: System, env: U.Env)
    requires cfg.Valid() && s.loop.Valid() && s.pc.Top? && |env.initOk| == U.INIT_CALLS
    requires env.nowMs == U32(s.clock)
    ensures var t := Run(cfg, s, IterationEvents(s.uros, s.clock, env));
            && (t.uros, t.shared) == U.Iterated(s.uros, s.shared, env)
            && t.pc == Top && t.loop == s.loop && t.control == s.control
  {
    hide L.Target, T.Ticked, L.BodyVelocity, U.Waited, U.Opened, U.Checked, U.Destroyed, U.Did, U.Received, Deliveries;
    match s.uros.agent
    case WaitingAgent => RunOne(cfg, s, Wait(env.pingOk));
    case AgentAvailable => RunOne(cfg, s, Open(env.initOk, env.sync));
    case AgentConnected => UninterruptedSpin(cfg, s, env);
    case AgentDisconnected =>
      RunOne(cfg, s, BeginStop);
      RunOf(cfg, s, [BeginStop], CommitStop);
      RunOf(cfg, s, [BeginStop] + [CommitStop], TearDown);
  }
}
