/**
  The wake-up protocol over whole runs: one token per wakeable task, no lost wake-up, nothing left to do
  after a drain, and tables that keep agreeing.
*/
module Tokens {
  import opened Options
  import opened Mailbox
  import opened Tasks
  import opened AsyncExecutor

  // ----- Sequences without repetition -----

  ghost predicate Distinct(q: seq<TaskId>) {
    forall i, j :: 0 <= i < j < |q| ==> q[i] != q[j]
  }

  lemma {:induction false} DistinctFits(q: seq<TaskId>, ids: set<TaskId>)
    requires Distinct(q) && forall id :: id in q ==> id in ids
    ensures |q| <= |ids|
  {
    if q != [] {
      assert q[0] in q;
      assert forall id :: id in q[1..] ==> id in ids - {q[0]};
      DistinctFits(q[1..], ids - {q[0]});
    }
  }

  lemma DistinctAppend(q: seq<TaskId>, id: TaskId)
    requires Distinct(q) && id !in q
    ensures Distinct(q + [id])
    ensures forall j :: j in q + [id] <==> j in q || j == id
  {
  }

  lemma DistinctTail(q: seq<TaskId>)
    requires Distinct(q) && q != []
    ensures Distinct(q[1..])
    ensures forall j :: j in q[1..] <==> j in q && j != q[0]
  {
  }

  // ----- The invariant -----

  /** The future pends only in `IpcReceiveFuture`. */
  ghost predicate IpcOnly(future: seq<Action>) {
    forall i :: 0 <= i < |future| ==> future[i].Receive? || future[i].Send?
  }

  /** A sleeping task can be woken: it waits in a receive, with nothing to read, its waker stored, no token. */
  ghost predicate Sleeping(s: Exec, id: TaskId)
    requires id in s.registry
  {
    var t := s.registry[id];
    && id in s.tasks && id !in s.queue
    && t.waker == Some(id)
    && t.mailbox.pending.None?
    && t.future != [] && t.future[0].Receive?
  }

  ghost predicate Dead(s: Exec, id: TaskId) {
    id in s.registry && s.registry[id].state == Terminated
  }

  /**
    One token per task. `polled` is the task whose poll is in progress, if any: it holds no token.
    Every other Ready task has exactly one, a blocked task none.
  */
  ghost predicate Protocol(s: Exec, polled: Option<TaskId>) {
    && Tables(s)
    && |s.tasks| <= QUEUE_CAPACITY
    && Distinct(s.queue)
    && (forall id :: id in s.queue ==> id in s.tasks)
    && (forall id :: id in s.registry && s.registry[id].state == Blocked ==> Sleeping(s, id))
    && (forall id :: id in s.tasks && s.registry[id].state == Ready && polled != Some(id) ==> id in s.queue)
    && (polled.Some? ==> polled.value in s.tasks && polled.value !in s.queue)
  }

  /** The protocol, among futures that will keep it. */
  ghost predicate OneToken(s: Exec, polled: Option<TaskId>) {
    Protocol(s, polled) && forall id :: id in s.registry ==> IpcOnly(s.registry[id].future)
  }

  /** A send wakes its blocked target: Ready, with its one token queued, and the push cannot fail. */
  lemma SendWakes(s: Exec, polled: Option<TaskId>, target: TaskId, msg: Message)
    requires Protocol(s, polled)
    requires polled.Some? ==> s.registry[polled.value].state == Ready
    ensures var s' := Deliver(s, target, msg);
      && Protocol(s', polled)
      && (OneToken(s, polled) ==> OneToken(s', polled))
      && s'.lost == s.lost && s'.tasks == s.tasks
      && (target in s.registry ==> s'.registry[target].mailbox.pending == Some(msg))
      && (target in s.registry && s.registry[target].state == Blocked ==>
            s'.registry[target].state == Ready && s'.queue == s.queue + [target])
      && (polled.Some? ==> s'.registry[polled.value].state == Ready)
  {
    DeliverTables(s, target, msg);
    var s' := Deliver(s, target, msg);
    if target in s.registry && s.registry[target].state == Blocked {
      assert Sleeping(s, target);
      DistinctFits(s.queue, s.tasks - {target});
      DistinctAppend(s.queue, target);
      assert s'.queue == s.queue + [target];
      forall id | id in s'.registry && s'.registry[id].state == Blocked
        ensures Sleeping(s', id)
      {
        assert Sleeping(s, id);
      }
    } else {
      forall id | id in s'.registry && s'.registry[id].state == Blocked
        ensures Sleeping(s', id)
      {
        assert Sleeping(s, id);
      }
    }
  }

  /** The woken task's next poll takes the latest message and goes on. */
  lemma WokenTakesLatest(s: Exec, target: TaskId, msg: Message)
    requires Protocol(s, None) && target in s.registry && s.registry[target].state == Blocked
    ensures var s' := Deliver(s, target, msg);
      var r := Act(s', target);
      && r.Goes?
      && r.s.registry[target].mailbox.received == s.registry[target].mailbox.received + [msg]
      && r.s.registry[target].mailbox.pending == None
      && r.s.registry[target].future == s.registry[target].future[1..]
  {
  }

  /**
    What SYS_SEND does. A pointer below user space gives 2 and an unknown target 1, with nothing changed. Otherwise
    the result is 0, the message is the target's pending one, stored after all others, and a blocked target is
    Ready and, in the protocol, queued last; every other task is as it was.
  */
  lemma SendResult(s: Exec, target: TaskId, ptr: int, msg: Message)
    requires Protocol(s, None)
    ensures var (s', ret) := SysSend(s, target, ptr, msg);
      if ptr < 0x2000_0000 then (s', ret) == (s, 2)
      else if target !in s.registry then (s', ret) == (s, 1)
      else
        && ret == 0 && target in s'.registry
        && s'.registry[target].mailbox.pending == Some(msg)
        && s'.registry[target].mailbox.stored == s.registry[target].mailbox.stored + [msg]
        && s'.registry[target].mailbox.received == s.registry[target].mailbox.received
        && (s.registry[target].state == Blocked ==> s'.registry[target].state == Ready && s'.queue == s.queue + [target])
        && (s.registry[target].state != Blocked ==>
              s'.registry[target].state == s.registry[target].state && s'.queue == s.queue)
        && forall id :: id in s.registry && id != target ==> id in s'.registry && s'.registry[id] == s.registry[id]
  {
    SendWakes(s, None, target, msg);
  }

  /** A future's own send does the same. */
  lemma FutureSends(s: Exec, id: TaskId)
    requires Protocol(s, Some(id)) && s.registry[id].state == Ready && s.registry[id].future != []
    requires s.registry[id].future[0].Send? && s.registry[id].future[0].to in s.registry
    ensures var action := s.registry[id].future[0];
      var s' := Act(s, id).s;
      && action.to in s'.registry
      && s'.registry[action.to].mailbox.pending == Some(action.msg)
      && s'.registry[action.to].mailbox.stored == s.registry[action.to].mailbox.stored + [action.msg]
      && (s.registry[action.to].state == Blocked ==>
            s'.registry[action.to].state == Ready && s'.queue == s.queue + [action.to])
  {
    SteppedTokens(s, id);
    SendWakes(Stepped(s, id), Some(id), s.registry[id].future[0].to, s.registry[id].future[0].msg);
  }

  lemma IpcTail(future: seq<Action>)
    requires IpcOnly(future) && future != []
    ensures IpcOnly(future[1..])
  {
  }

  /** What one action of the task being polled leaves, when it keeps the protocol. */
  ghost predicate KeepsTokens(s: Exec, id: TaskId, r: Acted)
    requires id in s.registry
  {
    && r.s.lost == s.lost && r.s.tasks == s.tasks
    && (if r.Goes? then Protocol(r.s, Some(id)) && r.s.registry[id].state == Ready else Protocol(r.s, None))
    && (forall j :: j in r.s.registry ==>
          j in s.registry && (r.s.registry[j].future == s.registry[j].future || (j == id && r.Goes?)))
  }

  /** A receive that finds nothing puts the task to sleep. */
  lemma ReceiveTokens(s: Exec, id: TaskId)
    requires Protocol(s, Some(id)) && s.registry[id].state == Ready && s.registry[id].future != []
    requires s.registry[id].future[0].Receive?
    ensures KeepsTokens(s, id, Act(s, id))
  {
    ActTables(s, id);
    var r := Act(s, id);
    forall j | j in r.s.registry && r.s.registry[j].state == Blocked ensures Sleeping(r.s, j) {
      assert j != id ==> Sleeping(s, j);
    }
  }

  /** The polled task with its first action behind it. */
  function Stepped(s: Exec, id: TaskId): Exec
    requires id in s.registry && s.registry[id].future != []
  {
    s.(registry := s.registry[id := s.registry[id].(future := s.registry[id].future[1..])])
  }

  lemma SteppedTokens(s: Exec, id: TaskId)
    requires Protocol(s, Some(id)) && s.registry[id].state == Ready && s.registry[id].future != []
    ensures Protocol(Stepped(s, id), Some(id))
  {
    var s1 := Stepped(s, id);
    UpdateTables(s, id, s1.registry[id]);
    forall j | j in s1.registry && s1.registry[j].state == Blocked ensures Sleeping(s1, j) {
      assert Sleeping(s, j);
    }
  }

  lemma SendTokens(s: Exec, id: TaskId)
    requires Protocol(s, Some(id)) && s.registry[id].state == Ready && s.registry[id].future != []
    requires s.registry[id].future[0].Send?
    ensures KeepsTokens(s, id, Act(s, id))
  {
    var action := s.registry[id].future[0];
    var s1 := Stepped(s, id);
    SteppedTokens(s, id);
    SendWakes(s1, Some(id), action.to, action.msg);
    assert Act(s, id) == Goes(Deliver(s1, action.to, action.msg));
    DeliverFutures(s1, action.to, action.msg);
  }

  lemma DeliverFutures(s: Exec, target: TaskId, msg: Message)
    ensures var s' := Deliver(s, target, msg);
      s'.registry.Keys == s.registry.Keys && forall j :: j in s.registry ==> s'.registry[j].future == s.registry[j].future
  {
  }

  /** Each receive or send of the task being polled keeps the protocol. */
  lemma ActTokens(s: Exec, id: TaskId)
    requires Protocol(s, Some(id)) && s.registry[id].state == Ready && s.registry[id].future != []
    requires s.registry[id].future[0].Receive? || s.registry[id].future[0].Send?
    ensures KeepsTokens(s, id, Act(s, id))
  {
    if s.registry[id].future[0].Receive? {
      ReceiveTokens(s, id);
    } else {
      SendTokens(s, id);
    }
  }

  /** A wake through a cloned waker does no harm to a dead task without a token. */
  ghost predicate MayBeWoken(s: Exec, id: TaskId) {
    id in s.tasks && id !in s.queue && Dead(s, id)
  }

  /**
    Which actions keep the protocol: every receive and every send, no bare Pending, and a wake through a cloned waker
    exactly when its target is a dead task that the executor still has, without a token.
  */
  lemma ActKeepsProtocolIff(s: Exec, id: TaskId)
    requires Protocol(s, Some(id)) && s.registry[id].state == Ready && s.registry[id].future != []
    ensures var r := Act(s, id);
      (if r.Goes? then Protocol(r.s, Some(id)) else Protocol(r.s, None)) <==>
      match s.registry[id].future[0]
      case Receive => true
      case Send(_, _) => true
      case Wake(other) => MayBeWoken(s, other)
      case Pend => false
  {
    var r := Act(s, id);
    match s.registry[id].future[0] {
      case Receive => ActTokens(s, id);
      case Send(to, msg) => ActTokens(s, id);
      case Wake(other) => WakeKeepsIff(s, id, other);
      case Pend => assert r.s.registry[id].state == Ready && id !in r.s.queue;
    }
  }

  lemma WakeKeepsIff(s: Exec, id: TaskId, other: TaskId)
    requires Protocol(s, Some(id)) && s.registry[id].state == Ready && s.registry[id].future != []
    requires s.registry[id].future[0] == Wake(other)
    ensures Protocol(Act(s, id).s, Some(id)) <==> MayBeWoken(s, other)
  {
    SteppedTokens(s, id);
    PushKeepsIff(Stepped(s, id), id, other);
    assert Act(s, id).s == PushToken(Stepped(s, id), other);
  }

  /** Pushing a token keeps the protocol exactly when its task is dead and has none. */
  lemma PushKeepsIff(s: Exec, id: TaskId, other: TaskId)
    requires Protocol(s, Some(id)) && s.registry[id].state == Ready
    ensures Protocol(PushToken(s, other), Some(id)) <==> MayBeWoken(s, other)
  {
    var s' := PushToken(s, other);
    DistinctFits(s.queue, s.tasks - {id});
    assert s'.queue == s.queue + [other];
    assert s'.queue[|s.queue|] == other;
    if MayBeWoken(s, other) {
      DistinctAppend(s.queue, other);
      forall j | j in s'.registry && s'.registry[j].state == Blocked ensures Sleeping(s', j) {
        assert Sleeping(s, j);
      }
    } else if other in s.queue {
      var i :| 0 <= i < |s.queue| && s.queue[i] == other;
      assert s'.queue[i] == other;
    }
  }

  lemma {:induction false} PollTokens(s: Exec, id: TaskId)
    requires OneToken(s, Some(id)) && s.registry[id].state == Ready
    ensures var (s', finished) := Poll(s, id);
      && s'.lost == s.lost && s'.tasks == s.tasks
      && (if finished then OneToken(s', Some(id)) && s'.registry[id].state == Ready else OneToken(s', None))
    decreases |s.registry[id].future|
  {
    if s.registry[id].future != [] {
      assert IpcOnly(s.registry[id].future);
      IpcTail(s.registry[id].future);
      ActTokens(s, id);
      var r := Act(s, id);
      if r.Goes? {
        PollTokens(r.s, id);
      }
    }
  }

  lemma FinishTokens(s: Exec, id: TaskId)
    requires OneToken(s, Some(id)) && s.registry[id].state == Ready
    ensures OneToken(s.(tasks := s.tasks - {id}, registry := s.registry - {id}, cache := s.cache - {id}), None)
  {
  }

  lemma RoundTokens(s: Exec)
    requires OneToken(s, None) && s.queue != []
    ensures OneToken(Round(s), None) && Round(s).lost == s.lost
  {
    var id := s.queue[0];
    var s0 := s.(queue := s.queue[1..]);
    DistinctTail(s.queue);
    assert id in s.tasks;
    forall j | j in s0.registry && s0.registry[j].state == Blocked ensures Sleeping(s0, j) {
      assert Sleeping(s, j);
    }
    if s.registry[id].state == Ready {
      var s1 := s0.(curId := id, cache := s0.cache + {id});
      forall j | j in s1.registry && s1.registry[j].state == Blocked ensures Sleeping(s1, j) {
        assert Sleeping(s0, j);
      }
      PollTokens(s1, id);
      var (s2, finished) := Poll(s1, id);
      if finished {
        FinishTokens(s2, id);
      }
    }
  }

  /** Every task the executor still has is asleep with an empty mailbox, or dead. */
  ghost predicate Quiet(s: Exec)
    requires s.tasks <= s.registry.Keys
  {
    s.queue == [] && forall id :: id in s.tasks ==> s.registry[id].state == Terminated || Sleeping(s, id)
  }

  /** A drain keeps the protocol, loses no wake-up, and leaves nothing undone. */
  lemma {:induction false} DrainTokens(s: Exec)
    requires OneToken(s, None)
    ensures OneToken(Drain(s), None) && Drain(s).lost == s.lost && Quiet(Drain(s)) && Drain(s).curId == 0
    decreases Work(s.registry, s.nextId), |s.queue|
  {
    if s.queue == [] {
      var d := Drain(s);
      forall id | id in d.registry && d.registry[id].state == Blocked ensures Sleeping(d, id) {
        assert Sleeping(s, id);
      }
      forall id | id in d.tasks ensures d.registry[id].state == Terminated || Sleeping(d, id) {
        assert d.registry[id].state != Ready;
      }
    } else {
      RoundWorks(s);
      RoundTokens(s);
      DrainTokens(Round(s));
    }
  }

  // ----- Runs -----

  /** `SwitchTo` is a dispatch by the scheduler, which stores CURRENT_TASK_ID. */
  datatype Event =
    | SpawnTask(future: seq<Action>)
    | SendCall(target: TaskId, ptr: int, msg: Message)
    | ExitCall
    | SwitchTo(id: TaskId)
    | DrainQueue

  /** The empty executor, with the ids below `nextId` already given to processes. */
  function Initial(nextId: TaskId): Exec {
    Exec(map[], {}, [], {}, 0, nextId, 0)
  }

  /** A step either keeps the kernel up or panics, which only `spawn` can do. */
  datatype Outcome = Up(s: Exec) | Panicked

  function Step(s: Exec, e: Event): Outcome
    requires Tables(s)
  {
    match e
    case SpawnTask(future) =>
      (match SpawnNew(s, future)
       case Running(s') => Up(s')
       case DuplicateId(_) => Panicked
       case QueueFull(_) => Panicked)
    case SendCall(target, ptr, msg) => Up(SysSend(s, target, ptr, msg).0)
    case ExitCall => Up(SysExit(s))
    case SwitchTo(id) => Up(s.(curId := id))
    case DrainQueue => Up(Drain(s))
  }

  /**
    What `spawn` does: it panics exactly on an id that the executor has, or on a full queue; otherwise the new task,
    Ready and with its whole future before it, is in executor and registry, with its token last in the queue.
  */
  lemma SpawnResult(s: Exec, id: TaskId, future: seq<Action>)
    ensures var r := Spawn(s, NewTask(id, future));
      && (r.DuplicateId? <==> id in s.tasks)
      && (r.QueueFull? <==> id !in s.tasks && |s.queue| >= 100)
      && (r.Running? ==>
            && r.s.tasks == s.tasks + {id} && r.s.registry.Keys == s.registry.Keys + {id}
            && r.s.registry[id].id == id && r.s.registry[id].state == Ready && r.s.registry[id].priority == 5
            && r.s.registry[id].future == future && r.s.registry[id].mailbox.pending == None
            && r.s.queue == s.queue + [id]
            && forall j :: j in s.registry && j != id ==> r.s.registry[j] == s.registry[j])
  {
  }

  lemma SpawnTables(s: Exec, future: seq<Action>)
    requires Tables(s)
    ensures !SpawnNew(s, future).DuplicateId?
    ensures SpawnNew(s, future).Running? ==> Tables(SpawnNew(s, future).s)
  {
    EmptyTraced();
    assert s.nextId !in s.registry;
  }

  lemma {:induction false} DrainTables(s: Exec)
    requires Tables(s)
    ensures Tables(Drain(s)) && Drain(s).nextId == s.nextId && Drain(s).tasks <= s.tasks && Drain(s).queue == []
    decreases Work(s.registry, s.nextId), |s.queue|
  {
    if s.queue != [] {
      RoundWorks(s);
      DrainTables(Round(s));
    }
  }

  /** The tables agree after every step, and `spawn` never meets an id twice. */
  lemma StepTables(s: Exec, e: Event)
    requires Tables(s)
    ensures var o := Step(s, e);
      if o.Up? then Tables(o.s) && o.s.nextId >= s.nextId
      else e.SpawnTask? && |s.queue| >= QUEUE_CAPACITY
    ensures e.SpawnTask? && |s.queue| < QUEUE_CAPACITY ==>
      Step(s, e).Up? && Step(s, e).s.tasks == s.tasks + {s.nextId}
  {
    match e {
      case SpawnTask(future) => SpawnTables(s, future);
      case SendCall(target, ptr, msg) => DeliverTables(s, target, msg);
      case ExitCall =>
        if s.curId in s.registry {
          UpdateTables(s, s.curId, s.registry[s.curId].(state := Terminated));
        }
      case SwitchTo(id) =>
      case DrainQueue => DrainTables(s);
    }
  }

  function Run(s: Exec, es: seq<Event>): Outcome
    requires Tables(s)
    decreases |es|
  {
    if es == [] then Up(s)
    else
      StepTables(s, es[0]);
      match Step(s, es[0])
      case Up(s') => Run(s', es[1..])
      case Panicked => Panicked
  }

  /** The futures spawned in a run pend only in receives, and at most 100 tasks are alive at a time. */
  ghost predicate IpcRun(s: Exec, es: seq<Event>)
    requires Tables(s)
    decreases |es|
  {
    es != [] ==>
      && (es[0].SpawnTask? ==> IpcOnly(es[0].future) && |s.tasks| < QUEUE_CAPACITY)
      && (StepTables(s, es[0]); Step(s, es[0]).Up? ==> IpcRun(Step(s, es[0]).s, es[1..]))
  }

  lemma SpawnTokens(s: Exec, future: seq<Action>)
    requires OneToken(s, None) && IpcOnly(future) && |s.tasks| < QUEUE_CAPACITY
    ensures var r := SpawnNew(s, future); r.Running? && OneToken(r.s, None) && r.s.lost == s.lost
  {
    SpawnTables(s, future);
    DistinctFits(s.queue, s.tasks);
    assert s.nextId !in s.queue;
    DistinctAppend(s.queue, s.nextId);
    var r := SpawnNew(s, future);
    assert r.s.queue == s.queue + [s.nextId];
    assert |s.tasks + {s.nextId}| == |s.tasks| + 1;
    forall id | id in r.s.registry && r.s.registry[id].state == Blocked ensures Sleeping(r.s, id) {
      assert Sleeping(s, id);
    }
  }

  lemma ExitTokens(s: Exec)
    requires OneToken(s, None)
    ensures OneToken(SysExit(s), None) && SysExit(s).lost == s.lost
  {
  }

  lemma StepTokens(s: Exec, e: Event)
    requires OneToken(s, None)
    requires e.SpawnTask? ==> IpcOnly(e.future) && |s.tasks| < QUEUE_CAPACITY
    ensures Step(s, e).Up? && OneToken(Step(s, e).s, None) && Step(s, e).s.lost == s.lost
  {
    match e {
      case SpawnTask(future) => SpawnTokens(s, future);
      case SendCall(target, ptr, msg) => SendWakes(s, None, target, msg);
      case ExitCall => ExitTokens(s);
      case SwitchTo(id) =>
        forall j | j in s.registry && s.registry[j].state == Blocked ensures Sleeping(s.(curId := id), j) {
          assert Sleeping(s, j);
        }
      case DrainQueue => DrainTokens(s);
    }
  }

  /**
    The wake-up protocol over every run: no spawn panics, no wake-up is ever dropped, and every task that
    is Ready has exactly one token while every blocked one can be woken.
  */
  lemma {:induction false} NoWakeLost(s: Exec, es: seq<Event>)
    requires OneToken(s, None) && IpcRun(s, es)
    ensures Run(s, es).Up? && OneToken(Run(s, es).s, None) && Run(s, es).s.lost == s.lost
    decreases |es|
  {
    if es != [] {
      StepTables(s, es[0]);
      StepTokens(s, es[0]);
      NoWakeLost(Step(s, es[0]).s, es[1..]);
    }
  }

  /**
    Without the restriction to receives the promise fails: a future that wakes itself through a cloned waker
    and then awaits its mailbox goes to sleep with a token in the queue.
  */
  lemma ClonedWakersDuplicateTokens()
    ensures var s := SpawnNew(Initial(1), [Wake(1), Receive]).s;
      Tables(s) && s.queue == [1] &&
      1 in Round(s).registry && Round(s).registry[1].state == Blocked && Round(s).queue == [1]
  {
    SpawnTables(Initial(1), [Wake(1), Receive]);
    var s := SpawnNew(Initial(1), [Wake(1), Receive]).s;
    var s0 := s.(queue := [], curId := 1, cache := {1});
    var s1 := Act(s0, 1).s;
    assert s1.registry[1].future == [Receive] && s1.queue == [1];
    assert Poll(s0, 1) == Poll(s1, 1) == (Act(s1, 1).s, false);
    assert s.queue[1..] == [] && s.cache + {1} == {1};
  }

  /** The tables agree, and every mailbox obeys the mailbox law, after every run of any futures. */
  lemma {:induction false} RunTables(s: Exec, es: seq<Event>)
    requires Tables(s)
    ensures Run(s, es).Up? ==> Tables(Run(s, es).s)
    decreases |es|
  {
    if es != [] {
      StepTables(s, es[0]);
      if Step(s, es[0]).Up? {
        RunTables(Step(s, es[0]).s, es[1..]);
      }
    }
  }

  // ----- Termination is final -----

  lemma {:induction false} PollKeepsDead(s: Exec, id: TaskId, dead: TaskId)
    requires id in s.registry && s.registry[id].state == Ready && Dead(s, dead)
    ensures Dead(Poll(s, id).0, dead) && (Poll(s, id).1 ==> id != dead)
    decreases |s.registry[id].future|
  {
    if s.registry[id].future != [] {
      var r := Act(s, id);
      if r.Goes? {
        PollKeepsDead(r.s, id, dead);
      }
    }
  }

  /** A drain never revives a terminated task, whatever the futures do. */
  lemma {:induction false} DrainKeepsTerminated(s: Exec, dead: TaskId)
    requires Tables(s) && Dead(s, dead)
    ensures Dead(Drain(s), dead)
    decreases Work(s.registry, s.nextId), |s.queue|
  {
    if s.queue != [] {
      var id := s.queue[0];
      if id in s.tasks && s.registry[id].state == Ready {
        PollKeepsDead(s.(queue := s.queue[1..], curId := id, cache := s.cache + {id}), id, dead);
      }
      RoundWorks(s);
      DrainKeepsTerminated(Round(s), dead);
    }
  }

  lemma {:induction false} TerminatedForever(s: Exec, es: seq<Event>, dead: TaskId)
    requires Tables(s) && Dead(s, dead)
    ensures Run(s, es).Up? ==> Dead(Run(s, es).s, dead)
    decreases |es|
  {
    if es != [] {
      StepTables(s, es[0]);
      if Step(s, es[0]).Up? {
        match es[0] {
          case DrainQueue => DrainKeepsTerminated(s, dead);
          case _ =>
        }
        TerminatedForever(Step(s, es[0]).s, es[1..], dead);
      }
    }
  }

  // ----- What a drain does to each task -----

  /** The next round polls the task whose token is first in the queue. */
  ghost predicate HeadIsPolled(s: Exec)
    requires Tables(s) && s.queue != []
  {
    s.queue[0] in s.tasks && s.registry[s.queue[0]].state == Ready
  }

  /** A task as the executor may leave it: its mailbox moved on, nobody is killed or revived, and priorities stay. */
  ghost predicate Later(t: TaskView, t': TaskView) {
    && t'.priority == t.priority
    && (t'.state == Terminated <==> t.state == Terminated)
    && Newer(t.mailbox, t'.mailbox)
  }

  ghost predicate Evolved(s: Exec, s': Exec) {
    forall id :: id in s'.registry ==> id in s.registry && Later(s.registry[id], s'.registry[id])
  }

  lemma EvolvedTransitive(a: Exec, b: Exec, c: Exec)
    requires Evolved(a, b) && Evolved(b, c)
    ensures Evolved(a, c)
  {
    forall id | id in c.registry
      ensures id in a.registry && Later(a.registry[id], c.registry[id])
    {
      assert Later(b.registry[id], c.registry[id]);
      NewerTransitive(a.registry[id].mailbox, b.registry[id].mailbox, c.registry[id].mailbox);
    }
  }

  /** Replacing one task by a later version of itself. */
  lemma ReplacedEvolves(s: Exec, id: TaskId, t: TaskView)
    requires Tables(s) && id in s.registry && Later(s.registry[id], t)
    ensures Evolved(s, s.(registry := s.registry[id := t]))
  {
    forall j | j in s.registry ensures Later(s.registry[j], s.registry[j]) {
      OpsAreNewer(s.registry[j].mailbox, Message(0, 0, 0, (0, 0)));
    }
  }

  lemma DeliverEvolves(s: Exec, target: TaskId, msg: Message)
    requires Tables(s)
    ensures Evolved(s, Deliver(s, target, msg))
  {
    if target in s.registry {
      OpsAreNewer(s.registry[target].mailbox, msg);
      var t := Deliver(s, target, msg).registry[target];
      ReplacedEvolves(s, target, t);
    } else {
      SameEvolves(s);
    }
  }

  lemma SameEvolves(s: Exec)
    requires Tables(s)
    ensures forall s': Exec :: s'.registry == s.registry ==> Evolved(s, s')
  {
    forall j | j in s.registry ensures Later(s.registry[j], s.registry[j]) {
      OpsAreNewer(s.registry[j].mailbox, Message(0, 0, 0, (0, 0)));
    }
  }

  lemma ActEvolves(s: Exec, id: TaskId)
    requires Tables(s) && id in s.registry && s.registry[id].state == Ready && s.registry[id].future != []
    ensures Evolved(s, Act(s, id).s)
  {
    var t := s.registry[id];
    OpsAreNewer(t.mailbox, Message(0, 0, 0, (0, 0)));
    match t.future[0] {
      case Receive => ReplacedEvolves(s, id, Act(s, id).s.registry[id]);
      case Send(to, msg) =>
        SteppedTables(s, id);
        ReplacedEvolves(s, id, Stepped(s, id).registry[id]);
        DeliverEvolves(Stepped(s, id), to, msg);
        EvolvedTransitive(s, Stepped(s, id), Act(s, id).s);
      case Wake(other) => ReplacedEvolves(s, id, Stepped(s, id).registry[id]);
      case Pend => ReplacedEvolves(s, id, Stepped(s, id).registry[id]);
    }
  }

  lemma SteppedTables(s: Exec, id: TaskId)
    requires Tables(s) && id in s.registry && s.registry[id].future != []
    ensures Tables(Stepped(s, id))
  {
    UpdateTables(s, id, Stepped(s, id).registry[id]);
  }

  lemma {:induction false} PollEvolves(s: Exec, id: TaskId)
    requires Tables(s) && id in s.registry && s.registry[id].state == Ready
    ensures Evolved(s, Poll(s, id).0)
    decreases |s.registry[id].future|
  {
    if s.registry[id].future == [] {
      SameEvolves(s);
    } else {
      var r := Act(s, id);
      ActTables(s, id);
      ActWorks(s, id);
      ActEvolves(s, id);
      if r.Goes? {
        PollEvolves(r.s, id);
        EvolvedTransitive(s, r.s, Poll(s, id).0);
      }
    }
  }

  lemma RoundEvolves(s: Exec)
    requires Tables(s) && s.queue != []
    ensures Evolved(s, Round(s))
  {
    var id := s.queue[0];
    if HeadIsPolled(s) {
      PollEvolves(s.(queue := s.queue[1..], curId := id, cache := s.cache + {id}), id);
    } else {
      SameEvolves(s);
    }
  }

  lemma {:induction false} DrainEvolves(s: Exec)
    requires Tables(s)
    ensures Evolved(s, Drain(s))
    decreases Work(s.registry, s.nextId), |s.queue|
  {
    if s.queue == [] {
      SameEvolves(s);
    } else {
      RoundWorks(s);
      RoundEvolves(s);
      DrainEvolves(Round(s));
      EvolvedTransitive(s, Round(s), Drain(s));
    }
  }

  /**
    No message waits beyond the next drain: a live task with one in its mailbox has received a message by the end
    of it, that one or a newer one first, or has finished.
  */
  lemma DrainDelivers(s: Exec, id: TaskId)
    requires OneToken(s, None) && id in s.tasks && !Dead(s, id) && s.registry[id].mailbox.pending.Some?
    ensures Drain(s).tasks <= Drain(s).registry.Keys
    ensures id in Drain(s).tasks ==>
      var box, box' := s.registry[id].mailbox, Drain(s).registry[id].mailbox;
      box.received < box'.received && StoredSince(box, box', box'.received[|box.received|])
  {
    DrainEvolves(s);
    DrainTokens(s);
  }

  // ----- The registry holds what the executor holds -----

  /** Only `spawn` enters a task into the registry, and a task leaves it when it leaves the executor. */
  ghost predicate SameTasks(s: Exec) {
    s.registry.Keys == s.tasks
  }

  lemma RoundSameTasks(s: Exec)
    requires Tables(s) && SameTasks(s) && s.queue != []
    ensures SameTasks(Round(s))
  {
    if HeadIsPolled(s) {
      PollWorks(s.(queue := s.queue[1..], curId := s.queue[0], cache := s.cache + {s.queue[0]}), s.queue[0]);
    }
  }

  lemma {:induction false} DrainSameTasks(s: Exec)
    requires Tables(s) && SameTasks(s)
    ensures SameTasks(Drain(s))
    decreases Work(s.registry, s.nextId), |s.queue|
  {
    if s.queue != [] {
      RoundWorks(s);
      RoundSameTasks(s);
      DrainSameTasks(Round(s));
    }
  }

  lemma StepSameTasks(s: Exec, e: Event)
    requires Tables(s) && SameTasks(s)
    ensures Step(s, e).Up? ==> SameTasks(Step(s, e).s)
  {
    if e.DrainQueue? {
      DrainSameTasks(s);
    }
  }

  /** Registry and executor hold the same tasks after every run. */
  lemma {:induction false} RunSameTasks(s: Exec, es: seq<Event>)
    requires Tables(s) && SameTasks(s)
    ensures Run(s, es).Up? ==> SameTasks(Run(s, es).s)
    decreases |es|
  {
    if es != [] {
      StepTables(s, es[0]);
      StepSameTasks(s, es[0]);
      if Step(s, es[0]).Up? {
        RunSameTasks(Step(s, es[0]).s, es[1..]);
      }
    }
  }

  // ----- Completion is final -----

  /** The tasks a drain polls, in order. */
  ghost function Polled(s: Exec): seq<TaskId>
    requires Tables(s)
    decreases Work(s.registry, s.nextId), |s.queue|
  {
    if s.queue == [] then []
    else
      RoundWorks(s);
      (if HeadIsPolled(s) then [s.queue[0]] else []) + Polled(Round(s))
  }

  /**
    That is what the rounds do: a polled task is made current, and afterwards its waker is cached or it has left
    all three tables; any other token is only consumed.
  */
  lemma RoundPolls(s: Exec)
    requires Tables(s) && s.queue != []
    ensures var id := s.queue[0];
      if HeadIsPolled(s) then
        && Round(s).curId == id
        && (id in Round(s).cache <==> id in Round(s).tasks) && (id in Round(s).registry <==> id in Round(s).tasks)
      else Round(s) == s.(queue := s.queue[1..])
  {
    if HeadIsPolled(s) {
      PollWorks(s.(queue := s.queue[1..], curId := s.queue[0], cache := s.cache + {s.queue[0]}), s.queue[0]);
    }
  }

  /** A drain polls only tasks that the executor had when it began. */
  lemma {:induction false} DrainPolls(s: Exec)
    requires Tables(s)
    ensures forall id :: id in Polled(s) ==> id in s.tasks
    decreases Work(s.registry, s.nextId), |s.queue|
  {
    if s.queue != [] {
      RoundWorks(s);
      DrainPolls(Round(s));
    }
  }

  /** The tasks that all drains of a run poll, in order. */
  ghost function RunPolled(s: Exec, es: seq<Event>): seq<TaskId>
    requires Tables(s)
    decreases |es|
  {
    if es == [] then []
    else
      StepTables(s, es[0]);
      (if es[0].DrainQueue? then Polled(s) else []) +
      match Step(s, es[0])
      case Up(s') => RunPolled(s', es[1..])
      case Panicked => []
  }

  /**
    A completed task never comes back. Its id is spent, and however often stale wakers push it,
    no drain of any run polls it or makes it current.
  */
  lemma {:induction false} NeverPolledAgain(s: Exec, es: seq<Event>, id: TaskId)
    requires Tables(s) && id < s.nextId && id !in s.tasks
    ensures id !in RunPolled(s, es)
    ensures Run(s, es).Up? ==> id !in Run(s, es).s.tasks
    decreases |es|
  {
    if es != [] {
      StepTables(s, es[0]);
      if es[0].DrainQueue? {
        DrainPolls(s);
        DrainTables(s);
      }
      if Step(s, es[0]).Up? {
        NeverPolledAgain(Step(s, es[0]).s, es[1..], id);
      }
    }
  }

  /** It is out of the registry as well: a send to it fails with result 1, whatever has happened since. */
  lemma CompletedForever(s: Exec, es: seq<Event>, id: TaskId, ptr: int, msg: Message)
    requires Tables(s) && SameTasks(s) && id < s.nextId && id !in s.tasks
    ensures id !in RunPolled(s, es)
    ensures Run(s, es).Up? ==>
      var t := Run(s, es).s;
      id !in t.tasks && id !in t.registry && (ptr >= 0x2000_0000 ==> SysSend(t, id, ptr, msg) == (t, 1))
  {
    NeverPolledAgain(s, es, id);
    RunSameTasks(s, es);
  }
}
