/** The communication task: a four-state machine that creates the ROS entities when an agent answers,
    spins the executor while it does, and stops the base and destroys the entities when it is lost. */
module UrosTask {
  import opened Numeric
  import C = ControlCore
  import L = ControlLoop

  datatype Agent = WaitingAgent | AgentAvailable | AgentConnected | AgentDisconnected

  datatype Entity = Support | Node | OdomPublisher | ImuPublisher | TwistSubscription | ControlTimer | Executor

  const ALL: set<Entity> :=
    {Support, Node, OdomPublisher, ImuPublisher, TwistSubscription, ControlTimer, Executor}

  /** The entity another one is built on; it has to outlive it. */
  function Parents(e: Entity): set<Entity> {
    match e
    case Support => {}
    case Node => {Support}
    case OdomPublisher => {Node}
    case ImuPublisher => {Node}
    case TwistSubscription => {Node}
    case ControlTimer => {Support}
    case Executor => {Support}
  }

  /** What the communication loop does to its entities. */
  datatype Event = BeginCreate | Init(e: Entity) | Fini(e: Entity) | Spin

  /** The answer of the session's time synchronization: with it comes the epoch time and the tick. */
  datatype Sync = NotSynced | InSync(epochNanos: int, nowMs: Word32) {
    function Offset(): int
      requires InSync?
    {
      epochNanos - nowMs * 1000000
    }
  }

  /** The state of the communication loop. `live`, `orderly` and `frameAllocs` are observations: which
      entities are initialized, whether every event so far came in order, and how many frame strings
      were allocated. */
  datatype State = State(agent: Agent, framesSet: bool, lastWaiting: Word32, lastConnected: Word32, timeOffset: int,
                         live: set<Entity>, orderly: bool, frameAllocs: nat)

  /** The rules the entities' owners rely on: creation starts from nothing, a handle is initialized
      once and on live parents, nothing is finalized under a live child, and only a complete set spins. */
  predicate InOrder(live: set<Entity>, ev: Event) {
    match ev
    case BeginCreate => live == {}
    case Init(e) => e !in live && Parents(e) <= live
    case Fini(e) => forall d :: d in live ==> e !in Parents(d)
    case Spin => live == ALL
  }

  function LiveAfter(live: set<Entity>, ev: Event): set<Entity> {
    match ev
    case BeginCreate => live
    case Init(e) => live + {e}
    case Fini(e) => live - {e}
    case Spin => live
  }

  function Did(u: State, ev: Event): State {
    u.(orderly := u.orderly && InOrder(u.live, ev), live := LiveAfter(u.live, ev))
  }

  /** EXECUTE_EVERY_N_MS's test, on the wrapping tick. */
  predicate Due(now: Word32, last: Word32, ms: int) {
    U32(now - last) > ms
  }

  const INIT_CALLS: nat := 9

  /** The calls of createEntities: nine of which the first failing one ends it; on success the frame strings
      are set unless an earlier connection did. */
  function Created(u: State, ok: seq<bool>): (State, bool)
    requires |ok| == INIT_CALLS
  {
    var u0 := Did(u, BeginCreate);
    if !ok[0] then (u0, false) else
    var u1 := Did(u0, Init(Support));
    if !ok[1] then (u1, false) else
    var u2 := Did(u1, Init(Node));
    if !ok[2] then (u2, false) else
    var u3 := Did(u2, Init(OdomPublisher));
    if !ok[3] then (u3, false) else
    var u4 := Did(u3, Init(ImuPublisher));
    if !ok[4] then (u4, false) else
    var u5 := Did(u4, Init(TwistSubscription));
    if !ok[5] then (u5, false) else
    var u6 := Did(u5, Init(ControlTimer));
    if !ok[6] then (u6, false) else
    var u7 := Did(u6, Init(Executor));
    if !ok[7] || !ok[8] then (u7, false)
    else if u7.framesSet then (u7, true)
    else (u7.(framesSet := true, frameAllocs := u7.frameAllocs + 3), true)
  }

  /** createEntities: on success the session is synchronized, which sets the time offset if it works. */
  function Established(u: State, ok: seq<bool>, sync: Sync): (State, bool)
    requires |ok| == INIT_CALLS
  {
    var (c, success) := Created(u, ok);
    (if success && sync.InSync? then c.(timeOffset := sync.Offset()) else c, success)
  }

  function Destroyed(u: State): State {
    var u1 := Did(u, Fini(OdomPublisher));
    var u2 := Did(u1, Fini(ImuPublisher));
    var u3 := Did(u2, Fini(TwistSubscription));
    var u4 := Did(u3, Fini(ControlTimer));
    var u5 := Did(u4, Fini(Executor));
    var u6 := Did(u5, Fini(Node));
    Did(u6, Fini(Support))
  }

  /** One iteration in WAITING_AGENT. */
  function Waited(u: State, now: Word32, pingOk: bool): State {
    if Due(now, u.lastWaiting, 500) then
      u.(agent := if pingOk then AgentAvailable else WaitingAgent, lastWaiting := now)
    else u
  }

  /** One iteration in AGENT_AVAILABLE. */
  function Opened(u: State, ok: seq<bool>, sync: Sync): State
    requires |ok| == INIT_CALLS
  {
    var (c, success) := Established(u, ok, sync);
    if success then c.(agent := AgentConnected) else Destroyed(c.(agent := WaitingAgent))
  }

  /** The first half of an iteration in AGENT_CONNECTED. */
  function Checked(u: State, now: Word32, pingOk: bool): State {
    if Due(now, u.lastConnected, 200) then
      u.(agent := if pingOk then AgentConnected else AgentDisconnected, lastConnected := now)
    else u
  }

  /** The second half of an iteration in AGENT_DISCONNECTED. */
  function Closed(u: State): State {
    Destroyed(u).(agent := WaitingAgent)
  }

  // ---------------------------------------------------------------------------------------------
  // The loop as code
  // ---------------------------------------------------------------------------------------------

  /** A twist handed to the subscription callback, with the clock value the callback reads. */
  datatype Twist = Twist(cmd: L.Command, nowMs: Word32)

  /** What one iteration meets: the clock, the answers of ping, creation and synchronization, the messages. */
  datatype Env = Env(nowMs: Word32, pingOk: bool, initOk: seq<bool>, sync: Sync, inbox: seq<Twist>)

  function Received(s: L.Shared, inbox: seq<Twist>): L.Shared {
    if inbox == [] then s
    else L.Committed(Received(s, inbox[..|inbox| - 1]), inbox[|inbox| - 1].cmd, inbox[|inbox| - 1].nowMs)
  }

  /** A whole iteration that nothing interrupts. */
  function Iterated(u: State, s: L.Shared, env: Env): (State, L.Shared)
    requires |env.initOk| == INIT_CALLS
  {
    match u.agent
    case WaitingAgent => (Waited(u, env.nowMs, env.pingOk), s)
    case AgentAvailable => (Opened(u, env.initOk, env.sync), s)
    case AgentConnected =>
      var v := Checked(u, env.nowMs, env.pingOk);
      if v.agent == AgentConnected then (Did(v, Spin), Received(s, env.inbox)) else (v, s)
    case AgentDisconnected => (Closed(u), L.Committed(s, C.STOP, env.nowMs))
  }

  class UrosTask {
    const control: L.ControlLoop
    var agent: Agent
    var framesSet: bool
    var lastWaiting: Word32
    var lastConnected: Word32
    var timeOffset: int
    ghost var live: set<Entity>
    ghost var orderly: bool
    ghost var frameAllocs: nat

    ghost function View(): State
      reads this
    {
      State(agent, framesSet, lastWaiting, lastConnected, timeOffset, live, orderly, frameAllocs)
    }

    constructor (control: L.ControlLoop)
      ensures this.control == control
      ensures View() == State(WaitingAgent, false, 0, 0, 0, {}, true, 0)
    {
      this.control := control;
      agent, framesSet, lastWaiting, lastConnected, timeOffset := WaitingAgent, false, 0, 0, 0;
      live, orderly, frameAllocs := {}, true, 0;
    }

    ghost method Do(ev: Event)
      modifies this`live, this`orderly
      ensures View() == Did(old(View()), ev)
    {
      orderly := orderly && InOrder(live, ev);
      live := LiveAfter(live, ev);
    }

    method CreateEntities(ok: seq<bool>, sync: Sync) returns (success: bool)
      requires |ok| == INIT_CALLS
      modifies this
      ensures (View(), success) == Established(old(View()), ok, sync)
    {
      hide InOrder, LiveAfter;
      Do(BeginCreate);
      if !ok[0] { return false; }
      Do(Init(Support));
      if !ok[1] { return false; }
      Do(Init(Node));
      if !ok[2] { return false; }
      Do(Init(OdomPublisher));
      if !ok[3] { return false; }
      Do(Init(ImuPublisher));
      if !ok[4] { return false; }
      Do(Init(TwistSubscription));
      if !ok[5] { return false; }
      Do(Init(ControlTimer));
      if !ok[6] { return false; }
      Do(Init(Executor));
      if !ok[7] { return false; }
      if !ok[8] { return false; }
      if !framesSet {
        frameAllocs := frameAllocs + 3;
        framesSet := true;
      }
      if sync.InSync? {
        timeOffset := sync.epochNanos - sync.nowMs * 1000000;
      }
      return true;
    }

    method DestroyEntities()
      modifies this`live, this`orderly
      ensures View() == Destroyed(old(View()))
    {
      hide InOrder, LiveAfter;
      Do(Fini(OdomPublisher));
      Do(Fini(ImuPublisher));
      Do(Fini(TwistSubscription));
      Do(Fini(ControlTimer));
      Do(Fini(Executor));
      Do(Fini(Node));
      Do(Fini(Support));
    }

    /** The executor hands every waiting twist to the callback, which passes it on. */
    method SpinSome(inbox: seq<Twist>)
      requires control.Valid() && control as object != this
      modifies this`live, this`orderly, control
      ensures View() == Did(old(View()), Spin)
      ensures control.SharedView() == Received(old(control.SharedView()), inbox)
      ensures control.View() == old(control.View())
    {
      Do(Spin);
      for i := 0 to |inbox|
        invariant View() == Did(old(View()), Spin)
        invariant control.SharedView() == Received(old(control.SharedView()), inbox[..i])
        invariant control.View() == old(control.View())
      {
        assert inbox[..i + 1][..i] == inbox[..i];
        control.SetCmd(inbox[i].cmd.x, inbox[i].cmd.y, inbox[i].cmd.wz, inbox[i].nowMs);
      }
      assert inbox[..|inbox|] == inbox;
    }

    /** WAITING_AGENT: ping twice a second. */
    method Wait(nowMs: Word32, pingOk: bool)
      requires agent == WaitingAgent
      modifies this`agent, this`lastWaiting
      ensures View() == Waited(old(View()), nowMs, pingOk)
    {
      if U32(nowMs - lastWaiting) > 500 {
        agent := if pingOk then AgentAvailable else WaitingAgent;
        lastWaiting := nowMs;
      }
    }

    /** AGENT_AVAILABLE: all entities, or none. */
    method Open(ok: seq<bool>, sync: Sync)
      requires agent == AgentAvailable && |ok| == INIT_CALLS
      modifies this
      ensures View() == Opened(old(View()), ok, sync)
    {
      hide Established, Destroyed;
      var success := CreateEntities(ok, sync);
      agent := if success then AgentConnected else WaitingAgent;
      if agent == WaitingAgent {
        DestroyEntities();
      }
    }

    /** AGENT_CONNECTED: ping five times a second, and spin while the agent answers. */
    method Serve(env: Env)
      requires control.Valid() && control as object != this
      requires agent == AgentConnected && |env.initOk| == INIT_CALLS
      modifies this`agent, this`lastConnected, this`live, this`orderly, control
      ensures (View(), control.SharedView()) == Iterated(old(View()), old(control.SharedView()), env)
      ensures control.View() == old(control.View())
    {
      hide Created, Destroyed, Received, InOrder, LiveAfter;
      if U32(env.nowMs - lastConnected) > 200 {
        agent := if env.pingOk then AgentConnected else AgentDisconnected;
        lastConnected := env.nowMs;
      }
      if agent == AgentConnected {
        SpinSome(env.inbox);
      }
    }

    /** AGENT_DISCONNECTED: stop the base, destroy the entities. */
    method Close(nowMs: Word32)
      requires control.Valid() && control as object != this
      requires agent == AgentDisconnected
      modifies this`agent, this`live, this`orderly, control
      ensures View() == Closed(old(View()))
      ensures control.SharedView() == L.Committed(old(control.SharedView()), C.STOP, nowMs)
      ensures control.View() == old(control.View())
    {
      hide Destroyed;
      control.SetCmd(0.0, 0.0, 0.0, nowMs);
      DestroyEntities();
      agent := WaitingAgent;
    }

    /** One pass of the endless loop. */
    method Iterate(env: Env)
      requires control.Valid() && control as object != this && this !in control.Repr
      requires |env.initOk| == INIT_CALLS
      modifies this, control
      ensures (View(), control.SharedView()) == Iterated(old(View()), old(control.SharedView()), env)
      ensures control.View() == old(control.View())
    {
      hide Waited, Opened, Checked, Closed, Received, Did;
      match agent {
        case WaitingAgent => Wait(env.nowMs, env.pingOk);
        case AgentAvailable => Open(env.initOk, env.sync);
        case AgentConnected => Serve(env);
        case AgentDisconnected => Close(env.nowMs);
      }
    }
  }

  // ---------------------------------------------------------------------------------------------
  // The entities' life cycle
  // ---------------------------------------------------------------------------------------------

  predicate Connected(a: Agent) {
    a == AgentConnected || a == AgentDisconnected
  }

  /** Between iterations all entities exist or none does, depending on the state alone; everything so
      far came in order; and the three frame strings were allocated once or not at all. */
  ghost predicate Tidy(u: State) {
    && u.live == (if Connected(u.agent) then ALL else {})
    && u.orderly
    && u.frameAllocs == (if u.framesSet then 3 else 0)
  }

  /** A prefix of the creation order: what a creation that fails midway leaves behind. */
  predicate PartOfCreation(live: set<Entity>) {
    || live == {} || live == {Support} || live == {Support, Node} || live == {Support, Node, OdomPublisher}
    || live == {Support, Node, OdomPublisher, ImuPublisher}
    || live == {Support, Node, OdomPublisher, ImuPublisher, TwistSubscription}
    || live == {Support, Node, OdomPublisher, ImuPublisher, TwistSubscription, ControlTimer}
    || live == ALL
  }

  lemma InitOnParents(u: State, e: Entity)
    requires u.orderly && e !in u.live && Parents(e) <= u.live
    ensures Did(u, Init(e)) == u.(live := u.live + {e})
  {
  }

  lemma CreationSteps(u: State)
    requires u.live == {} && u.orderly
    ensures Did(u, BeginCreate) == u
    ensures var u1 := u.(live := {Support});
            var u2 := u.(live := {Support, Node});
            var u3 := u.(live := {Support, Node, OdomPublisher});
            var u4 := u.(live := {Support, Node, OdomPublisher, ImuPublisher});
            var u5 := u.(live := {Support, Node, OdomPublisher, ImuPublisher, TwistSubscription});
            var u6 := u.(live := {Support, Node, OdomPublisher, ImuPublisher, TwistSubscription, ControlTimer});
            && Did(u, Init(Support)) == u1 && Did(u1, Init(Node)) == u2
            && Did(u2, Init(OdomPublisher)) == u3 && Did(u3, Init(ImuPublisher)) == u4
            && Did(u4, Init(TwistSubscription)) == u5 && Did(u5, Init(ControlTimer)) == u6
            && Did(u6, Init(Executor)) == u.(live := ALL)
  {
    InitOnParents(u, Support);
    InitOnParents(u.(live := {Support}), Node);
    InitOnParents(u.(live := {Support, Node}), OdomPublisher);
    InitOnParents(u.(live := {Support, Node, OdomPublisher}), ImuPublisher);
    InitOnParents(u.(live := {Support, Node, OdomPublisher, ImuPublisher}), TwistSubscription);
    InitOnParents(u.(live := {Support, Node, OdomPublisher, ImuPublisher, TwistSubscription}), ControlTimer);
    InitOnParents(u.(live := {Support, Node, OdomPublisher, ImuPublisher, TwistSubscription, ControlTimer}), Executor);
  }

  lemma PartsOfCreation()
    ensures PartOfCreation({}) && PartOfCreation({Support}) && PartOfCreation({Support, Node})
    ensures PartOfCreation({Support, Node, OdomPublisher})
    ensures PartOfCreation({Support, Node, OdomPublisher, ImuPublisher})
    ensures PartOfCreation({Support, Node, OdomPublisher, ImuPublisher, TwistSubscription})
    ensures PartOfCreation({Support, Node, OdomPublisher, ImuPublisher, TwistSubscription, ControlTimer})
    ensures PartOfCreation(ALL)
  {
  }

  lemma CreationIsOrderly(u: State, ok: seq<bool>)
    requires |ok| == INIT_CALLS && u.live == {} && u.orderly
    ensures var (c, success) := Created(u, ok);
            && c.orderly && PartOfCreation(c.live)
            && (success <==> forall i :: 0 <= i < INIT_CALLS ==> ok[i])
            && (success ==> c.live == ALL && c.framesSet)
            && c.frameAllocs == u.frameAllocs + (if success && !u.framesSet then 3 else 0)
            && (c.framesSet <==> u.framesSet || success)
            && c.agent == u.agent && c.timeOffset == u.timeOffset
            && c.lastWaiting == u.lastWaiting && c.lastConnected == u.lastConnected
  {
    hide Did, PartOfCreation;
    CreationSteps(u);
    PartsOfCreation();
  }

  lemma FiniWithoutChildren(u: State, e: Entity)
    requires u.orderly && forall d :: d in u.live ==> e !in Parents(d)
    ensures Did(u, Fini(e)) == u.(live := u.live - {e})
  {
  }

  /** Tearing down any partly created set, in the order the firmware does, leaves nothing and never
      pulls a parent from under its child. */
  lemma DestructionIsOrderly(u: State)
    requires u.orderly && PartOfCreation(u.live)
    ensures Destroyed(u) == u.(live := {})
  {
    var d1 := u.live - {OdomPublisher};
    var d2 := d1 - {ImuPublisher};
    var d3 := d2 - {TwistSubscription};
    var d4 := d3 - {ControlTimer};
    var d5 := d4 - {Executor};
    var d6 := d5 - {Node};
    assert u.live <= ALL;
    FiniWithoutChildren(u, OdomPublisher);
    FiniWithoutChildren(u.(live := d1), ImuPublisher);
    FiniWithoutChildren(u.(live := d2), TwistSubscription);
    FiniWithoutChildren(u.(live := d3), ControlTimer);
    FiniWithoutChildren(u.(live := d4), Executor);
    FiniWithoutChildren(u.(live := d5), Node);
    FiniWithoutChildren(u.(live := d6), Support);
    assert d6 - {Support} == {};
  }

  /** The order in which createEntities initializes; its last two calls only fill the executor. */
  const CREATION: seq<Entity> :=
    [Support, Node, OdomPublisher, ImuPublisher, TwistSubscription, ControlTimer, Executor]

  function FirstOf(k: nat): set<Entity>
    requires k <= |CREATION|
  {
    if k == 0 then {} else FirstOf(k - 1) + {CREATION[k - 1]}
  }

  lemma FirstOnes()
    ensures FirstOf(0) == {} && FirstOf(1) == {Support} && FirstOf(2) == {Support, Node}
    ensures FirstOf(3) == {Support, Node, OdomPublisher}
    ensures FirstOf(4) == {Support, Node, OdomPublisher, ImuPublisher}
    ensures FirstOf(5) == {Support, Node, OdomPublisher, ImuPublisher, TwistSubscription}
    ensures FirstOf(6) == {Support, Node, OdomPublisher, ImuPublisher, TwistSubscription, ControlTimer}
    ensures FirstOf(7) == ALL
  {
    assert FirstOf(1) == FirstOf(0) + {Support};
    assert FirstOf(2) == FirstOf(1) + {Node};
    assert FirstOf(3) == FirstOf(2) + {OdomPublisher};
    assert FirstOf(4) == FirstOf(3) + {ImuPublisher};
    assert FirstOf(5) == FirstOf(4) + {TwistSubscription};
    assert FirstOf(6) == FirstOf(5) + {ControlTimer};
    assert FirstOf(7) == FirstOf(6) + {Executor};
  }

  /** The first call that fails ends the creation: exactly what the calls before it made is there. */
  lemma CreationStopsAtFirstFailure(u: State, ok: seq<bool>, k: nat)
    requires |ok| == INIT_CALLS && u.live == {} && u.orderly
    requires k < INIT_CALLS && !ok[k] && forall i :: 0 <= i < k ==> ok[i]
    ensures var (c, success) := Created(u, ok);
            !success && c.live == FirstOf(if k < |CREATION| then k else |CREATION|) && c.framesSet == u.framesSet
  {
    hide Did, FirstOf;
    CreationSteps(u);
    FirstOnes();
  }

  /** The order in which destroyEntities finalizes. */
  const DESTRUCTION: seq<Entity> :=
    [OdomPublisher, ImuPublisher, TwistSubscription, ControlTimer, Executor, Node, Support]

  /** The entities that are live when the k-th finalizer of destroyEntities is called. */
  function LiveAt(live: set<Entity>, k: nat): set<Entity>
    requires k <= |DESTRUCTION|
  {
    if k == 0 then live else LiveAfter(LiveAt(live, k - 1), Fini(DESTRUCTION[k - 1]))
  }

  /** What the executor calls back from; unlike a parent it is not required to outlive its holder. */
  predicate HeldByExecutor(e: Entity) {
    e == TwistSubscription || e == ControlTimer
  }

  lemma {:induction false} ExecutorStaysUntilFifth(live: set<Entity>, k: nat)
    requires k <= |DESTRUCTION|
    ensures Executor in LiveAt(live, k) <==> Executor in live && k <= 4
  {
    if k == 0 {
    } else {
      ExecutorStaysUntilFifth(live, k - 1);
      assert DESTRUCTION[k - 1] == Executor <==> k == 5;
    }
  }

  lemma DestructionInOrder(u: State)
    ensures Destroyed(u).live == LiveAt(u.live, |DESTRUCTION|)
  {
    hide LiveAfter, InOrder;
    assert LiveAt(u.live, 1) == LiveAfter(u.live, Fini(OdomPublisher));
    assert LiveAt(u.live, 2) == LiveAfter(LiveAt(u.live, 1), Fini(ImuPublisher));
    assert LiveAt(u.live, 3) == LiveAfter(LiveAt(u.live, 2), Fini(TwistSubscription));
    assert LiveAt(u.live, 4) == LiveAfter(LiveAt(u.live, 3), Fini(ControlTimer));
    assert LiveAt(u.live, 5) == LiveAfter(LiveAt(u.live, 4), Fini(Executor));
    assert LiveAt(u.live, 6) == LiveAfter(LiveAt(u.live, 5), Fini(Node));
  }

  /** Whatever was created, a finalizer is called on an entity that the live executor still holds if and
      only if there is an executor and it is the finalizer of the subscription or of the timer. */
  lemma FinalizedWhileHeldIff(u: State, k: nat)
    requires k < |DESTRUCTION|
    ensures Destroyed(u).live == LiveAt(u.live, |DESTRUCTION|)
    ensures Executor in LiveAt(u.live, k) && HeldByExecutor(DESTRUCTION[k])
            <==> Executor in u.live && (k == 2 || k == 3)
  {
    DestructionInOrder(u);
    ExecutorStaysUntilFifth(u.live, k);
  }

  lemma IterationKeepsTidy(u: State, s: L.Shared, env: Env)
    requires |env.initOk| == INIT_CALLS && Tidy(u)
    ensures Tidy(Iterated(u, s, env).0)
  {
    hide Created, Destroyed, Received;
    match u.agent
    case WaitingAgent =>
    case AgentAvailable =>
      CreationIsOrderly(u, env.initOk);
      DestructionIsOrderly(Created(u, env.initOk).0.(agent := WaitingAgent));
    case AgentConnected =>
    case AgentDisconnected =>
      DestructionIsOrderly(u);
  }

  /** Which state follows which, in terms of what the iteration met. */
  lemma TransitionsIff(u: State, s: L.Shared, env: Env)
    requires |env.initOk| == INIT_CALLS && Tidy(u)
    ensures var (v, t) := Iterated(u, s, env);
            && (u.agent == WaitingAgent ==>
                  (v.agent == AgentAvailable <==> Due(env.nowMs, u.lastWaiting, 500) && env.pingOk)
                  && (v.agent != AgentAvailable ==> v.agent == WaitingAgent))
            && (u.agent == AgentAvailable ==>
                  (v.agent == AgentConnected <==> forall i :: 0 <= i < INIT_CALLS ==> env.initOk[i])
                  && (v.agent != AgentConnected ==> v.agent == WaitingAgent))
            && (u.agent == AgentConnected ==>
                  (v.agent == AgentDisconnected <==> Due(env.nowMs, u.lastConnected, 200) && !env.pingOk)
                  && (v.agent != AgentDisconnected ==> v.agent == AgentConnected && t == Received(s, env.inbox)))
            && (u.agent == AgentDisconnected ==>
                  v.agent == WaitingAgent && t.cmd == C.STOP && t.stamp == env.nowMs)
            && (u.agent != AgentDisconnected && v.agent != AgentConnected ==> t == s)
  {
    hide Created, Destroyed, Received, Due;
    if u.agent == AgentAvailable {
      CreationIsOrderly(u, env.initOk);
      DestructionIsOrderly(Created(u, env.initOk).0.(agent := WaitingAgent));
    } else if u.agent == AgentDisconnected {
      DestructionIsOrderly(u);
    }
  }

  /** Every iteration has an answer for each of the nine creation calls. */
  predicate AllAnswer(envs: seq<Env>) {
    forall i :: 0 <= i < |envs| ==> |envs[i].initOk| == INIT_CALLS
  }

  function RanIterations(u: State, s: L.Shared, envs: seq<Env>): (State, L.Shared)
    requires AllAnswer(envs)
  {
    if envs == [] then (u, s)
    else
      var (v, t) := RanIterations(u, s, envs[..|envs| - 1]);
      Iterated(v, t, envs[|envs| - 1])
  }

  /** Over any number of reconnects, whatever pings and creations do: the entities are all there or
      all gone, everything happens in order, and the frame strings are allocated once. */
  lemma {:induction false} AlwaysTidy(u: State, s: L.Shared, envs: seq<Env>)
    requires Tidy(u) && AllAnswer(envs)
    ensures Tidy(RanIterations(u, s, envs).0)
  {
    hide Iterated, Tidy;
    if envs == [] {
    } else {
      var (v, t) := RanIterations(u, s, envs[..|envs| - 1]);
      AlwaysTidy(u, s, envs[..|envs| - 1]);
      IterationKeepsTidy(v, t, envs[|envs| - 1]);
    }
  }

  /** The state after the first i iterations of a run. */
  function At(u: State, s: L.Shared, envs: seq<Env>, i: nat): (State, L.Shared)
    requires AllAnswer(envs) && i <= |envs|
  {
    RanIterations(u, s, envs[..i])
  }

  lemma OneMore(u: State, s: L.Shared, envs: seq<Env>, i: nat)
    requires AllAnswer(envs) && i < |envs|
    ensures At(u, s, envs, i + 1) == Iterated(At(u, s, envs, i).0, At(u, s, envs, i).1, envs[i])
  {
    hide Iterated;
    assert envs[..i + 1][..i] == envs[..i];
  }

  /** From iteration m on, which meets a lost agent, up to state j nobody but the stop of iteration m
      writes the shared command. */
  ghost predicate StoppedSince(u: State, s: L.Shared, envs: seq<Env>, m: nat, j: nat)
    requires AllAnswer(envs) && m < j <= |envs|
  {
    && At(u, s, envs, m).0.agent == AgentDisconnected
    && forall n: nat :: m < n <= j ==>
         && !Connected(At(u, s, envs, n).0.agent)
         && At(u, s, envs, n).1 == L.Committed(At(u, s, envs, m).1, C.STOP, envs[m].nowMs)
  }

  lemma StopIsCommitted(u: State, s: L.Shared, env: Env)
    requires |env.initOk| == INIT_CALLS && u.agent == AgentDisconnected
    ensures Iterated(u, s, env).1 == L.Committed(s, C.STOP, env.nowMs)
  {
    hide Destroyed;
  }

  lemma TidyAt(u: State, s: L.Shared, envs: seq<Env>, i: nat)
    requires Tidy(u) && AllAnswer(envs) && i <= |envs|
    ensures Tidy(At(u, s, envs, i).0)
  {
    hide Tidy, RanIterations;
    AlwaysTidy(u, s, envs[..i]);
  }

  /** Over any run: when a connection that existed at i is gone at j, an iteration in between has
      stopped the base, and the shared command has been that stop ever since. Two connected periods
      therefore always have a stop between them. */
  lemma {:induction false} StopBetweenConnections(u: State, s: L.Shared, envs: seq<Env>, i: nat, j: nat)
    returns (m: nat)
    requires Tidy(u) && AllAnswer(envs) && i < j <= |envs|
    requires At(u, s, envs, i).0.agent == AgentConnected && !Connected(At(u, s, envs, j).0.agent)
    ensures i < m < j && StoppedSince(u, s, envs, m, j)
    decreases j
  {
    hide Iterated, Tidy, At, RanIterations, Received, Due;
    var (v, t) := At(u, s, envs, j - 1);
    OneMore(u, s, envs, j - 1);
    TidyAt(u, s, envs, j - 1);
    TransitionsIff(v, t, envs[j - 1]);
    if v.agent == AgentDisconnected {
      m := j - 1;
      StopIsCommitted(v, t, envs[j - 1]);
    } else {
      m := StopBetweenConnections(u, s, envs, i, j - 1);
    }
  }

  /** A new session sets the time offset to what is missing from the tick to the epoch time, if and only
      if its synchronization works; nothing else touches it. */
  lemma OffsetIsRecomputedIff(u: State, s: L.Shared, env: Env)
    requires |env.initOk| == INIT_CALLS && Tidy(u)
    ensures var v := Iterated(u, s, env).0;
            if u.agent == AgentAvailable && v.agent == AgentConnected && env.sync.InSync? then
              v.timeOffset + env.sync.nowMs * 1000000 == env.sync.epochNanos
            else v.timeOffset == u.timeOffset
  {
    hide Created, Destroyed, Received, Due;
    if u.agent == AgentAvailable {
      CreationIsOrderly(u, env.initOk);
      DestructionIsOrderly(Created(u, env.initOk).0.(agent := WaitingAgent));
    } else if u.agent == AgentDisconnected {
      DestructionIsOrderly(u);
    }
  }

  /** Reconnects without a working synchronization go on with the offset of an earlier session. */
  lemma {:induction false} OffsetOutlivesSessions(u: State, s: L.Shared, envs: seq<Env>)
    requires Tidy(u) && AllAnswer(envs) && forall i :: 0 <= i < |envs| ==> envs[i].sync.NotSynced?
    ensures RanIterations(u, s, envs).0.timeOffset == u.timeOffset
  {
    hide Iterated, Tidy;
    if envs == [] {
    } else {
      var before := envs[..|envs| - 1];
      var (v, t) := RanIterations(u, s, before);
      OffsetOutlivesSessions(u, s, before);
      AlwaysTidy(u, s, before);
      OffsetIsRecomputedIff(v, t, envs[|envs| - 1]);
    }
  }

  // ---------------------------------------------------------------------------------------------
  // How soon a lost agent is noticed
  // ---------------------------------------------------------------------------------------------

  /** While connected the agent is pinged once more than 200 ms have passed since the last ping, and is
      lost if and only if that ping fails. Times are unbounded; the task sees their low 32 bits. */
  lemma LossIsNoticedIff(u: State, s: L.Shared, env: Env, last: nat, now: nat)
    requires |env.initOk| == INIT_CALLS && u.agent == AgentConnected
    requires u.lastConnected == U32(last) && env.nowMs == U32(now) && last <= now < last + TWO32
    ensures var v := Iterated(u, s, env).0;
            && v.agent == (if now - last > 200 && !env.pingOk then AgentDisconnected else AgentConnected)
            && v.lastConnected == (if now - last > 200 then U32(now) else U32(last))
            && v.lastWaiting == u.lastWaiting
  {
    hide Received, InOrder, LiveAfter;
    U32OfDifference(now, last);
  }

  /** While waiting it is pinged once more than 500 ms have passed, and is found if and only if that ping
      is answered. */
  lemma AgentIsFoundIff(u: State, s: L.Shared, env: Env, last: nat, now: nat)
    requires |env.initOk| == INIT_CALLS && u.agent == WaitingAgent
    requires u.lastWaiting == U32(last) && env.nowMs == U32(now) && last <= now < last + TWO32
    ensures var v := Iterated(u, s, env).0;
            && v.agent == (if now - last > 500 && env.pingOk then AgentAvailable else WaitingAgent)
            && v.lastWaiting == (if now - last > 500 then U32(now) else U32(last))
            && v.lastConnected == u.lastConnected
  {
    U32OfDifference(now, last);
  }

  /** Connecting and disconnecting do not touch the times of the last pings. */
  lemma OtherStatesDoNotPing(u: State, s: L.Shared, env: Env)
    requires |env.initOk| == INIT_CALLS && Tidy(u) && (u.agent == AgentAvailable || u.agent == AgentDisconnected)
    ensures var v := Iterated(u, s, env).0;
            v.lastWaiting == u.lastWaiting && v.lastConnected == u.lastConnected
  {
    hide Created, Destroyed, Received, Due;
    if u.agent == AgentAvailable {
      CreationIsOrderly(u, env.initOk);
      DestructionIsOrderly(Created(u, env.initOk).0.(agent := WaitingAgent));
    } else {
      DestructionIsOrderly(u);
    }
  }

  /** Iteration i reads its clock at times[i], iterations are at most `spacing` ms apart, no ping is
      answered, and the last ping before was sent at `last`. */
  ghost predicate Deserted(u: State, envs: seq<Env>, times: seq<nat>, last: nat, spacing: nat) {
    && AllAnswer(envs) && |times| == |envs| > 0
    && u.agent == AgentConnected && u.lastConnected == U32(last)
    && last <= times[0] < last + TWO32
    && (forall i :: 0 <= i < |envs| ==> envs[i].nowMs == U32(times[i]) && !envs[i].pingOk)
    && (forall i :: 0 < i < |times| ==> times[i - 1] <= times[i] <= times[i - 1] + spacing)
  }

  lemma NothingRan(u: State, s: L.Shared, envs: seq<Env>)
    requires AllAnswer(envs)
    ensures At(u, s, envs, 0) == (u, s)
  {
  }

  lemma {:induction false} NotEarlier(envs: seq<Env>, times: seq<nat>, u: State, last: nat, spacing: nat, i: nat)
    requires Deserted(u, envs, times, last, spacing) && i < |times|
    ensures times[0] <= times[i]
  {
    if i == 0 {
    } else {
      NotEarlier(envs, times, u, last, spacing, i - 1);
    }
  }

  lemma {:induction false} ConnectedUntilPing(u: State, s: L.Shared, envs: seq<Env>, times: seq<nat>,
                                              last: nat, spacing: nat, i: nat)
    requires Deserted(u, envs, times, last, spacing) && i <= |envs|
    requires forall k :: 0 <= k < i ==> times[k] <= last + 200
    ensures At(u, s, envs, i).0.agent == AgentConnected && At(u, s, envs, i).0.lastConnected == U32(last)
  {
    hide Iterated, At;
    if i == 0 {
      NothingRan(u, s, envs);
    } else {
      ConnectedUntilPing(u, s, envs, times, last, spacing, i - 1);
      OneMore(u, s, envs, i - 1);
      var (v, t) := At(u, s, envs, i - 1);
      NotEarlier(envs, times, u, last, spacing, i - 1);
      LossIsNoticedIff(v, t, envs[i - 1], last, times[i - 1]);
    }
  }

  lemma {:induction false} AllEarly(u: State, envs: seq<Env>, times: seq<nat>, last: nat, spacing: nat, k: nat)
    requires Deserted(u, envs, times, last, spacing) && k < |times| && times[k] <= last + 200
    ensures forall j :: 0 <= j <= k ==> times[j] <= last + 200
  {
    if k == 0 {
    } else {
      AllEarly(u, envs, times, last, spacing, k - 1);
    }
  }

  /** The first iteration later than 200 ms after the last ping. */
  lemma {:induction false} FirstPing(u: State, envs: seq<Env>, times: seq<nat>, last: nat, spacing: nat, k: nat)
    returns (i: nat)
    requires Deserted(u, envs, times, last, spacing) && k < |times| && times[k] > last + 200
    ensures i <= k && times[i] > last + 200
    ensures forall j :: 0 <= j < i ==> times[j] <= last + 200
    ensures times[i] <= times[0] || times[i] <= last + 200 + spacing
  {
    if k == 0 {
      i := 0;
    } else if times[k - 1] > last + 200 {
      i := FirstPing(u, envs, times, last, spacing, k - 1);
    } else {
      i := k;
      AllEarly(u, envs, times, last, spacing, k - 1);
    }
  }

  /** An agent that stops answering is given up in bounded time: with iterations at most `spacing` ms
      apart, the stop is committed no later than 200 ms and two spacings after the last ping (or one
      spacing after the run begins, if the ping was overdue by then). */
  lemma LostAgentIsStopped(u: State, s: L.Shared, envs: seq<Env>, times: seq<nat>, last: nat, spacing: nat)
    returns (m: nat)
    requires Deserted(u, envs, times, last, spacing) && 200 + spacing < TWO32
    requires var bound := if times[0] > last + 200 + spacing then times[0] else last + 200 + spacing;
             times[|times| - 1] > bound
    ensures m < |envs| && At(u, s, envs, m).0.agent == AgentDisconnected
    ensures At(u, s, envs, m + 1).1 == L.Committed(At(u, s, envs, m).1, C.STOP, U32(times[m]))
    ensures var bound := if times[0] > last + 200 + spacing then times[0] else last + 200 + spacing;
            times[m] <= bound + spacing
  {
    hide Iterated, At;
    var i := FirstPing(u, envs, times, last, spacing, |times| - 1);
    ConnectedUntilPing(u, s, envs, times, last, spacing, i);
    OneMore(u, s, envs, i);
    NotEarlier(envs, times, u, last, spacing, i);
    var (v, t) := At(u, s, envs, i);
    LossIsNoticedIff(v, t, envs[i], last, times[i]);
    m := i + 1;
    OneMore(u, s, envs, m);
    StopIsCommitted(At(u, s, envs, m).0, At(u, s, envs, m).1, envs[m]);
  }
}
