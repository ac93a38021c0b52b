/** The two tasks and the clock as one system of atomic steps, and what holds in every interleaving. */
module Protocol {
  import opened Numeric
  import C = ControlCore
  import K = Kinematics
  import L = ControlLoop
  import T = TickRuns
  import U = UrosTask

  type Command = L.Command

  /** A command on its way into the shared state; `at` is the time its stamp was read, in unbounded
      milliseconds. */
  datatype Commit = Commit(cmd: Command, at: nat)

  /** How far the control task is in its tick. */
  datatype ControlPc =
    | Idle
    | HasClock(now: nat)
    | HasTarget(now: nat, target: Command)
    | HasPose(input: T.Input, velocity: K.Velocities)

  /** How far the communication task is in its iteration. */
  datatype UrosPc = Top | Spinning | Stamped(commit: Commit) | Stopping(at: nat) | Stopped

  /** The actions on the shared state and the beginnings of ticks, in the order in which they took effect. */
  datatype Action =
    | Committed(commit: Commit)
    | Began(now: nat)
    | Sampled(now: nat, target: Command)
    | Published(input: T.Input, snap: L.Snapshot)
    | Observed(snap: L.Snapshot)

  datatype System = System(clock: nat, control: ControlPc, loop: L.State, uros: U.State, pc: UrosPc,
                           shared: L.Shared, log: seq<Action>)

  /** One atomic step of either task or of the clock, with whatever the environment contributes. */
  datatype Event =
    | Elapse(ms: nat)
    | ReadClock
    | Snapshot
    | Compute(counts: seq<int>, nowUs: nat)
    | Publish
    | Wait(pingOk: bool)
    | Open(initOk: seq<bool>, sync: U.Sync)
    | Check(pingOk: bool)
    | ReceiveTwist(cmd: Command)
    | CommitTwist
    | Observe
    | EndSpin
    | BeginStop
    | CommitStop
    | TearDown

  function Logged(s: System, a: Action): System {
    s.(log := s.log + [a])
  }

  function Committing(s: System, c: Commit): System {
    Logged(s.(shared := L.Committed(s.shared, c.cmd, U32(c.at))), Committed(c))
  }

  /** An event that the system is not ready for leaves it as it is. */
  function Step(cfg: L.Config, s: System, e: Event): System
    requires cfg.Valid() && s.loop.Valid()
  {
    match e
    case Elapse(ms) => s.(clock := s.clock + ms)
    case ReadClock =>
      if s.control.Idle? then Logged(s.(control := HasClock(s.clock)), Began(s.clock)) else s
    case Snapshot =>
      if s.control.HasClock? then
        var target := L.Target(s.shared, U32(s.control.now));
        Logged(s.(control := HasTarget(s.control.now, target)), Sampled(s.control.now, target))
      else s
    case Compute(counts, nowUs) =>
      if s.control.HasTarget? && |counts| == 4 then
        var x := T.Input(s.control.now, s.control.target, counts, nowUs);
        var v := L.BodyVelocity(cfg, s.loop, T.Registers(cfg, counts), U32(nowUs));
        s.(loop := T.Ticked(cfg, s.loop, x), control := HasPose(x, v))
      else s
    case Publish =>
      if s.control.HasPose? then
        var shared := L.Published(s.shared, s.loop.core.pose, s.control.velocity);
        Logged(s.(shared := shared, control := Idle), Published(s.control.input, shared.snap))
      else s
    case Wait(pingOk) =>
      if s.pc.Top? && s.uros.agent == U.WaitingAgent then s.(uros := U.Waited(s.uros, U32(s.clock), pingOk)) else s
    case Open(initOk, sync) =>
      if s.pc.Top? && s.uros.agent == U.AgentAvailable && |initOk| == U.INIT_CALLS then
        s.(uros := U.Opened(s.uros, initOk, sync))
      else s
    case Check(pingOk) =>
      if s.pc.Top? && s.uros.agent == U.AgentConnected then
        var u := U.Checked(s.uros, U32(s.clock), pingOk);
        if u.agent == U.AgentConnected then s.(uros := U.Did(u, U.Spin), pc := Spinning) else s.(uros := u)
      else s
    case ReceiveTwist(cmd) =>
      if s.pc.Spinning? then s.(pc := Stamped(Commit(cmd, s.clock))) else s
    case CommitTwist =>
      if s.pc.Stamped? then Committing(s, s.pc.commit).(pc := Spinning) else s
    case Observe =>
      if s.pc.Spinning? then Logged(s, Observed(s.shared.snap)) else s
    case EndSpin =>
      if s.pc.Spinning? then s.(pc := Top) else s
    case BeginStop =>
      if s.pc.Top? && s.uros.agent == U.AgentDisconnected then s.(pc := Stopping(s.clock)) else s
    case CommitStop =>
      if s.pc.Stopping? then Committing(s, Commit(C.STOP, s.pc.at)).(pc := Stopped) else s
    case TearDown =>
      if s.pc.Stopped? then s.(uros := U.Closed(s.uros), pc := Top) else s
  }

  lemma StepKeepsLoopValid(cfg: L.Config, s: System, e: Event)
    requires cfg.Valid() && s.loop.Valid()
    ensures Step(cfg, s, e).loop.Valid()
  {
    hide T.Ticked, L.BodyVelocity, L.Target, U.Waited, U.Opened, U.Checked, U.Closed;
  }

  function Run(cfg: L.Config, s: System, es: seq<Event>): (t: System)
    requires cfg.Valid() && s.loop.Valid()
    ensures t.loop.Valid()
  {
    if es == [] then s
    else
      var before := Run(cfg, s, es[..|es| - 1]);
      StepKeepsLoopValid(cfg, before, es[|es| - 1]);
      Step(cfg, before, es[|es| - 1])
  }

  // ---------------------------------------------------------------------------------------------
  // Reading the log
  // ---------------------------------------------------------------------------------------------

  /** The commit in force after the log, `initial` standing for what control_loop_init wrote. */
  function LastCommit(initial: Commit, log: seq<Action>): Commit {
    if log == [] then initial
    else if log[|log| - 1].Committed? then log[|log| - 1].commit
    else LastCommit(initial, log[..|log| - 1])
  }

  /** The stamp of the last logged commit, zero if there is none. */
  function LastStamp(log: seq<Action>): nat {
    if log == [] then 0
    else if log[|log| - 1].Committed? then log[|log| - 1].commit.at
    else LastStamp(log[..|log| - 1])
  }

  /** The time that the last tick to begin read, zero if none did. */
  function LastBegin(log: seq<Action>): nat {
    if log == [] then 0
    else if log[|log| - 1].Began? then log[|log| - 1].now
    else LastBegin(log[..|log| - 1])
  }

  function LastSnapshot(log: seq<Action>): L.Snapshot {
    if log == [] then L.NO_SNAPSHOT
    else if log[|log| - 1].Published? then log[|log| - 1].snap
    else LastSnapshot(log[..|log| - 1])
  }

  /** The inputs of all completed ticks. */
  function Inputs(log: seq<Action>): (ins: seq<T.Input>) {
    if log == [] then []
    else if log[|log| - 1].Published? then Inputs(log[..|log| - 1]) + [log[|log| - 1].input]
    else Inputs(log[..|log| - 1])
  }

  /** The last sampled target, if any. */
  function LastSample(log: seq<Action>): Action {
    if log == [] then Sampled(0, C.STOP)
    else if log[|log| - 1].Sampled? then log[|log| - 1]
    else LastSample(log[..|log| - 1])
  }

  function LastSampleTime(log: seq<Action>): (t: nat)
    ensures LastSample(log).Sampled? && t == LastSample(log).now
  {
    if log == [] then 0
    else if log[|log| - 1].Sampled? then log[|log| - 1].now
    else LastSampleTime(log[..|log| - 1])
  }

  /** What a tick whose clock read `now` makes of a commit: the stamps it compares have 32 bits. */
  function DeadmanTarget(c: Commit, now: nat): Command {
    if U32(U32(now) - U32(c.at)) >= L.CMD_TIMEOUT_MS then C.STOP else c.cmd
  }

  /** What each action has to be, given everything before it. */
  ghost predicate Explained(cfg: L.Config, start: L.State, initial: Commit, log: seq<Action>, a: Action)
    requires cfg.Valid() && start.Valid() && T.AllValid(Inputs(log))
  {
    match a
    case Committed(c) => LastStamp(log) <= c.at
    case Began(now) => initial.at <= now && LastStamp(log) <= now && LastSampleTime(log) <= now
    case Sampled(now, target) =>
      && now == LastBegin(log)
      && LastSampleTime(log) <= now
      && target == DeadmanTarget(LastCommit(initial, log), now)
    case Published(x, snap) =>
      && x.Valid()
      && LastSample(log) == Sampled(x.nowMs, x.target)
      && var before := T.Ran(cfg, start, Inputs(log));
         && snap.pose == T.Ticked(cfg, before, x).core.pose
         && snap.velocity == L.BodyVelocity(cfg, before, T.Registers(cfg, x.counts), U32(x.nowUs))
    case Observed(snap) => snap == LastSnapshot(log)
  }

  ghost predicate AllExplained(cfg: L.Config, start: L.State, initial: Commit, log: seq<Action>)
    requires cfg.Valid() && start.Valid()
    ensures AllExplained(cfg, start, initial, log) ==> T.AllValid(Inputs(log))
  {
    log != [] ==>
      && AllExplained(cfg, start, initial, log[..|log| - 1])
      && Explained(cfg, start, initial, log[..|log| - 1], log[|log| - 1])
  }

  lemma {:induction false} EachExplained(cfg: L.Config, start: L.State, initial: Commit, log: seq<Action>, k: nat)
    requires cfg.Valid() && start.Valid() && AllExplained(cfg, start, initial, log) && k < |log|
    ensures AllExplained(cfg, start, initial, log[..k]) && T.AllValid(Inputs(log[..k]))
    ensures Explained(cfg, start, initial, log[..k], log[k])
  {
    hide Explained;
    if k == |log| - 1 {
    } else {
      EachExplained(cfg, start, initial, log[..|log| - 1], k);
      assert log[..|log| - 1][..k] == log[..k];
    }
  }

  // ---------------------------------------------------------------------------------------------
  // The invariant of all interleavings
  // ---------------------------------------------------------------------------------------------

  /** The communication task's side. */
  ghost predicate UrosInv(s: System) {
    && U.Tidy(s.uros)
    && (s.pc.Spinning? || s.pc.Stamped? ==> s.uros.agent == U.AgentConnected)
    && (s.pc.Stopping? || s.pc.Stopped? ==> s.uros.agent == U.AgentDisconnected)
    && (!U.Connected(s.uros.agent) || s.pc.Stopped? ==> s.shared.cmd == C.STOP)
  }

  /** No stamp lies in the future, and a command on its way is no older than the last one committed. */
  ghost predicate StampInv(s: System, initial: Commit) {
    && initial.at <= s.clock
    && LastStamp(s.log) <= s.clock
    && (s.pc.Stamped? ==> LastStamp(s.log) <= s.pc.commit.at <= s.clock)
    && (s.pc.Stopping? ==> LastStamp(s.log) <= s.pc.at <= s.clock)
  }

  /** The communication task may be anywhere in its loop when control_loop_init returns; the shared
      command is zero then. */
  ghost predicate AfterInit(cfg: L.Config, s: System, initial: Commit) {
    && cfg.Valid() && s.loop.Valid()
    && s.control == Idle && s.log == []
    && initial.cmd == C.STOP
    && s.shared == L.Shared(C.STOP, U32(initial.at), L.NO_SNAPSHOT)
    && UrosInv(s)
    && StampInv(s, initial)
  }

  /** The shared state is what the log says. */
  ghost predicate SharedInv(s: System, initial: Commit) {
    && s.shared.cmd == LastCommit(initial, s.log).cmd
    && s.shared.stamp == U32(LastCommit(initial, s.log).at)
    && s.shared.snap == LastSnapshot(s.log)
  }

  /** The control task's side. */
  ghost predicate ControlInv(cfg: L.Config, s: System, start: L.State)
    requires cfg.Valid() && start.Valid() && T.AllValid(Inputs(s.log))
  {
    var before := T.Ran(cfg, start, Inputs(s.log));
    LastSampleTime(s.log) <= s.clock &&
    match s.control
    case Idle => s.loop == before
    case HasClock(now) => s.loop == before && LastSampleTime(s.log) <= now <= s.clock && now == LastBegin(s.log)
    case HasTarget(now, target) => s.loop == before && LastSample(s.log) == Sampled(now, target)
    case HasPose(x, v) =>
      && x.Valid()
      && LastSample(s.log) == Sampled(x.nowMs, x.target)
      && s.loop == T.Ticked(cfg, before, x)
      && v == L.BodyVelocity(cfg, before, T.Registers(cfg, x.counts), U32(x.nowUs))
  }

  ghost predicate Inv(cfg: L.Config, s: System, start: L.State, initial: Commit) {
    && cfg.Valid() && start.Valid() && s.loop.Valid()
    && UrosInv(s)
    && StampInv(s, initial)
    && SharedInv(s, initial)
    && AllExplained(cfg, start, initial, s.log)
    && ControlInv(cfg, s, start)
  }

  lemma LogGrows(cfg: L.Config, start: L.State, initial: Commit, log: seq<Action>, a: Action)
    requires cfg.Valid() && start.Valid() && AllExplained(cfg, start, initial, log)
    requires Explained(cfg, start, initial, log, a)
    ensures AllExplained(cfg, start, initial, log + [a])
    ensures LastCommit(initial, log + [a]) == if a.Committed? then a.commit else LastCommit(initial, log)
    ensures LastStamp(log + [a]) == if a.Committed? then a.commit.at else LastStamp(log)
    ensures LastBegin(log + [a]) == if a.Began? then a.now else LastBegin(log)
    ensures LastSnapshot(log + [a]) == if a.Published? then a.snap else LastSnapshot(log)
    ensures LastSample(log + [a]) == if a.Sampled? then a else LastSample(log)
    ensures LastSampleTime(log + [a]) == if a.Sampled? then a.now else LastSampleTime(log)
    ensures Inputs(log + [a]) == if a.Published? then Inputs(log) + [a.input] else Inputs(log)
  {
    hide Explained;
    assert (log + [a])[..|log + [a]| - 1] == log;
  }

  lemma UrosStepKeepsInv(cfg: L.Config, s: System, e: Event, start: L.State, initial: Commit)
    requires Inv(cfg, s, start, initial)
    requires e.Elapse? || e.Wait? || e.Open? || e.Check? || e.ReceiveTwist? || e.EndSpin? || e.BeginStop? || e.TearDown?
    ensures Inv(cfg, Step(cfg, s, e), start, initial)
  {
    hide AllExplained, U.Created, U.Destroyed, T.Ran, T.Ticked, L.BodyVelocity;
    hide LastCommit, LastStamp, LastBegin, LastSnapshot, LastSample, LastSampleTime, Inputs;
    match e
    case Open(initOk, sync) =>
      if |initOk| == U.INIT_CALLS && s.pc.Top? && s.uros.agent == U.AgentAvailable {
        U.CreationIsOrderly(s.uros, initOk);
        U.DestructionIsOrderly(U.Created(s.uros, initOk).0.(agent := U.WaitingAgent));
      }
    case TearDown =>
      if s.pc.Stopped? {
        U.DestructionIsOrderly(s.uros);
      }
    case _ =>
  }

  lemma CommitKeepsInv(cfg: L.Config, s: System, e: Event, start: L.State, initial: Commit)
    requires Inv(cfg, s, start, initial)
    requires e.CommitTwist? || e.CommitStop? || e.Observe?
    ensures Inv(cfg, Step(cfg, s, e), start, initial)
  {
    hide AllExplained, T.Ran, T.Ticked, L.BodyVelocity, U.Tidy;
    hide LastCommit, LastStamp, LastBegin, LastSnapshot, LastSample, LastSampleTime, Inputs;
    if e.CommitTwist? && s.pc.Stamped? {
      LogGrows(cfg, start, initial, s.log, Committed(s.pc.commit));
    } else if e.CommitStop? && s.pc.Stopping? {
      LogGrows(cfg, start, initial, s.log, Committed(Commit(C.STOP, s.pc.at)));
    } else if e.Observe? && s.pc.Spinning? {
      LogGrows(cfg, start, initial, s.log, Observed(s.shared.snap));
    }
  }

  lemma RanAppend(cfg: L.Config, start: L.State, ins: seq<T.Input>, x: T.Input)
    requires cfg.Valid() && start.Valid() && T.AllValid(ins) && x.Valid()
    ensures T.AllValid(ins + [x])
    ensures T.Ran(cfg, start, ins + [x]) == T.Ticked(cfg, T.Ran(cfg, start, ins), x)
  {
    hide T.Ticked;
    assert (ins + [x])[..|ins + [x]| - 1] == ins;
  }

  lemma ControlStepKeepsInv(cfg: L.Config, s: System, e: Event, start: L.State, initial: Commit)
    requires Inv(cfg, s, start, initial)
    requires e.ReadClock? || e.Snapshot? || e.Compute? || e.Publish?
    ensures Inv(cfg, Step(cfg, s, e), start, initial)
  {
    hide AllExplained, T.Ran, T.Ticked, L.BodyVelocity, U.Tidy;
    hide LastCommit, LastStamp, LastBegin, LastSnapshot, LastSample, LastSampleTime, Inputs;
    if e.ReadClock? && s.control.Idle? {
      LogGrows(cfg, start, initial, s.log, Began(s.clock));
    } else if e.Snapshot? && s.control.HasClock? {
      LogGrows(cfg, start, initial, s.log, Sampled(s.control.now, L.Target(s.shared, U32(s.control.now))));
    } else if e.Publish? && s.control.HasPose? {
      var shared := L.Published(s.shared, s.loop.core.pose, s.control.velocity);
      LogGrows(cfg, start, initial, s.log, Published(s.control.input, shared.snap));
      RanAppend(cfg, start, Inputs(s.log), s.control.input);
    }
  }

  lemma ValidAfterInit(cfg: L.Config, s: System, initial: Commit)
    requires AfterInit(cfg, s, initial)
    ensures cfg.Valid() && s.loop.Valid()
  {
  }

  lemma InvAfterInit(cfg: L.Config, s: System, initial: Commit)
    requires AfterInit(cfg, s, initial)
    ensures Inv(cfg, s, s.loop, initial)
  {
    hide T.Ticked, L.BodyVelocity, U.Tidy;
  }

  /** The invariant holds after every run of both tasks and the clock, in every interleaving. */
  lemma {:induction false} RunKeepsInv(cfg: L.Config, s: System, es: seq<Event>, initial: Commit)
    requires AfterInit(cfg, s, initial)
    ensures Inv(cfg, Run(cfg, s, es), s.loop, initial)
  {
    hide Step, Inv, AfterInit;
    if es == [] {
      InvAfterInit(cfg, s, initial);
    } else {
      var e := es[|es| - 1];
      ValidAfterInit(cfg, s, initial);
      RunKeepsInv(cfg, s, es[..|es| - 1], initial);
      var before := Run(cfg, s, es[..|es| - 1]);
      if e.ReadClock? || e.Snapshot? || e.Compute? || e.Publish? {
        ControlStepKeepsInv(cfg, before, e, s.loop, initial);
      } else if e.CommitTwist? || e.CommitStop? || e.Observe? {
        CommitKeepsInv(cfg, before, e, s.loop, initial);
      } else {
        UrosStepKeepsInv(cfg, before, e, s.loop, initial);
      }
    }
  }
}
