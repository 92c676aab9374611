/**
  The async executor: its token queue, wakers and tables, the mailbox sends that wake its tasks,
  and the drain that the interrupt handlers run.
*/
module AsyncExecutor {
  import opened Options
  import opened Mailbox
  import opened Tasks

  const QUEUE_CAPACITY := 100

  /**
    `registry` is TASK_REGISTRY with the task objects it reaches; `tasks`, `queue` and `cache` are the
    executor's fields (`tasks` and `cache` by their keys); `curId` is CURRENT_TASK_ID, `nextId` NEXT_ID.
    `lost` counts the wake-ups whose push found the queue full.
  */
  datatype Exec = Exec(
    registry: map<TaskId, TaskView>, tasks: set<TaskId>, queue: seq<TaskId>, cache: set<TaskId>,
    curId: TaskId, nextId: TaskId, lost: nat)

  // ----- Sending and waking -----

  /** `TaskWaker::wake_task`: a full queue drops the token silently. */
  function PushToken(s: Exec, id: TaskId): Exec {
    if |s.queue| < QUEUE_CAPACITY then s.(queue := s.queue + [id]) else s.(lost := s.lost + 1)
  }

  /** SYS_SEND after its pointer check: store the message, and wake the target if it is blocked. */
  function Deliver(s: Exec, target: TaskId, msg: Message): Exec {
    if target !in s.registry then s else
    var t := s.registry[target];
    var t1 := t.(mailbox := t.mailbox.Store(msg));
    if t1.state != Blocked then s.(registry := s.registry[target := t1]) else
    var s' := s.(registry := s.registry[target := t1.(state := Ready, waker := None)]);
    match t1.waker
    case None => s'
    case Some(id) => PushToken(s', id)
  }

  // ----- Polling -----

  /** `IpcReceiveFuture::poll` when a message is there. */
  function Received(t: TaskView): TaskView {
    t.(mailbox := t.mailbox.Take(), state := Ready)
  }

  /** `IpcReceiveFuture::poll` when the mailbox is empty: register the waker of whoever polls, then block. */
  function Waits(t: TaskView, waker: TaskId): TaskView {
    t.(waker := Some(waker), state := Blocked)
  }

  /** One action of a future: the state after it, and whether the future goes on or returns Pending. */
  datatype Acted = Goes(s: Exec) | Pends(s: Exec)

  function Act(s: Exec, id: TaskId): (r: Acted)
    requires id in s.registry && s.registry[id].future != []
    ensures r.s.registry.Keys == s.registry.Keys
    ensures r.Goes? ==> r.s.registry[id].future == s.registry[id].future[1..]
  {
    var t := s.registry[id];
    var t' := t.(future := t.future[1..]);
    match t.future[0]
    case Receive =>
      if t.mailbox.pending.None? then Pends(s.(registry := s.registry[id := Waits(t, id)]))
      else Goes(s.(registry := s.registry[id := Received(t')]))
    case Send(to, msg) => Goes(Deliver(s.(registry := s.registry[id := t']), to, msg))
    case Wake(other) => Goes(PushToken(s.(registry := s.registry[id := t']), other))
    case Pend => Pends(s.(registry := s.registry[id := t']))
  }

  /** Polling a task's future: the state it leaves, and whether the future finished. */
  function Poll(s: Exec, id: TaskId): (Exec, bool)
    requires id in s.registry
    decreases |s.registry[id].future|
  {
    if s.registry[id].future == [] then (s, true)
    else
      match Act(s, id)
      case Goes(s') => Poll(s', id)
      case Pends(s') => (s', false)
  }

  /** A future that finishes leaves its task Ready. */
  lemma {:induction false} FinishedIsReady(s: Exec, id: TaskId)
    requires id in s.registry && s.registry[id].state == Ready
    ensures var (s', finished) := Poll(s, id); finished ==> id in s'.registry && s'.registry[id].state == Ready
    decreases |s.registry[id].future|
  {
    if s.registry[id].future != [] {
      var r := Act(s, id);
      if r.Goes? {
        FinishedIsReady(r.s, id);
      }
    }
  }

  // ----- The drain -----

  /** One round of the loop in `run_ready_tasks`. */
  function Round(s: Exec): Exec
    requires s.queue != [] && s.tasks <= s.registry.Keys
  {
    var id := s.queue[0];
    var s0 := s.(queue := s.queue[1..]);
    if id !in s.tasks || s.registry[id].state != Ready then s0 else PollRound(s0, id)
  }

  /** The part of a round that polls: a finished task leaves every table. */
  function PollRound(s: Exec, id: TaskId): Exec
    requires id in s.registry
  {
    var (s1, finished) := Poll(s.(curId := id, cache := s.cache + {id}), id);
    if finished then s1.(tasks := s1.tasks - {id}, registry := s1.registry - {id}, cache := s1.cache - {id})
    else s1
  }

  /** What a task may still do: two per action, one more while it is Ready. */
  function Weight(registry: map<TaskId, TaskView>, id: TaskId): nat {
    if id !in registry then 0
    else 2 * |registry[id].future| + if registry[id].state == Ready then 1 else 0
  }

  /** The work left in all tasks with ids below `n`. */
  function Work(registry: map<TaskId, TaskView>, n: nat): nat {
    if n == 0 then 0 else Work(registry, n - 1) + Weight(registry, n - 1)
  }

  /** What every operation keeps: the tables name the same tasks, under their own, already issued ids. */
  ghost predicate Tables(s: Exec) {
    && s.tasks <= s.registry.Keys
    && s.cache <= s.tasks
    && s.nextId >= 1
    && (forall id :: id in s.registry ==>
          && 1 <= id < s.nextId
          && s.registry[id].id == id
          && Traced(s.registry[id].mailbox)
          && (s.registry[id].waker.Some? ==> s.registry[id].waker.value == id))
  }

  lemma {:induction false} WorkStep(r: map<TaskId, TaskView>, r': map<TaskId, TaskView>, id: TaskId, n: nat)
    requires forall j :: j != id ==> Weight(r', j) == Weight(r, j)
    ensures Work(r', n) - Work(r, n) == if id < n then Weight(r', id) - Weight(r, id) else 0
  {
    if n > 0 {
      WorkStep(r, r', id, n - 1);
    }
  }

  /** A delivery adds at most the one unit of waking its target. */
  lemma DeliverWork(s: Exec, target: TaskId, msg: Message)
    ensures Work(Deliver(s, target, msg).registry, s.nextId) <= Work(s.registry, s.nextId) + 1
  {
    WorkStep(s.registry, Deliver(s, target, msg).registry, target, s.nextId);
  }

  lemma DeliverTables(s: Exec, target: TaskId, msg: Message)
    requires Tables(s)
    ensures Tables(Deliver(s, target, msg))
  {
    if target in s.registry {
      StoreTraced(s.registry[target].mailbox, msg);
    }
  }

  /** A poll leaves the executor's own tables alone. */
  ghost predicate PollFrame(s: Exec, s': Exec) {
    && s'.registry.Keys == s.registry.Keys && s'.tasks == s.tasks && s'.cache == s.cache
    && s'.nextId == s.nextId && s'.curId == s.curId
  }

  /** Replacing one task by another version of itself keeps the tables. */
  lemma UpdateTables(s: Exec, id: TaskId, t: TaskView)
    requires Tables(s) && id in s.registry
    requires t.id == id && Traced(t.mailbox) && (t.waker.Some? ==> t.waker.value == id)
    ensures Tables(s.(registry := s.registry[id := t]))
  {
  }

  lemma ActTables(s: Exec, id: TaskId)
    requires Tables(s) && id in s.registry && s.registry[id].future != []
    ensures Tables(Act(s, id).s) && PollFrame(s, Act(s, id).s)
  {
    var t := s.registry[id];
    var t' := t.(future := t.future[1..]);
    UpdateTables(s, id, t');
    match t.future[0] {
      case Receive =>
        TakeTraced(t.mailbox);
        UpdateTables(s, id, if t.mailbox.pending.None? then Waits(t, id) else Received(t'));
      case Send(to, msg) => DeliverTables(s.(registry := s.registry[id := t']), to, msg);
      case Wake(other) =>
      case Pend =>
    }
  }

  /** Every action of a Ready task spends work; one that goes on leaves the task Ready. */
  lemma ActWorks(s: Exec, id: TaskId)
    requires Tables(s) && id in s.registry && s.registry[id].state == Ready && s.registry[id].future != []
    ensures Act(s, id).Goes? ==> Act(s, id).s.registry[id].state == Ready
    ensures Work(Act(s, id).s.registry, s.nextId) < Work(s.registry, s.nextId)
  {
    var t := s.registry[id];
    var s1 := s.(registry := s.registry[id := t.(future := t.future[1..])]);
    WorkStep(s.registry, s1.registry, id, s.nextId);
    match t.future[0] {
      case Receive => WorkStep(s.registry, Act(s, id).s.registry, id, s.nextId);
      case Send(to, msg) => DeliverWork(s1, to, msg);
      case Wake(other) =>
      case Pend =>
    }
  }

  lemma {:induction false} PollWorks(s: Exec, id: TaskId)
    requires Tables(s) && id in s.registry && s.registry[id].state == Ready
    ensures var (s', finished) := Poll(s, id);
      && Tables(s') && PollFrame(s, s')
      && (if finished then s'.registry[id].future == [] && s'.registry[id].state == Ready
            && Work(s'.registry, s.nextId) <= Work(s.registry, s.nextId)
          else Work(s'.registry, s.nextId) < Work(s.registry, s.nextId))
    decreases |s.registry[id].future|
  {
    if s.registry[id].future != [] {
      ActTables(s, id);
      ActWorks(s, id);
      var r := Act(s, id);
      if r.Goes? {
        PollWorks(r.s, id);
      }
    }
  }

  /** Every round of the drain either spends work or only consumes a token. */
  lemma RoundWorks(s: Exec)
    requires Tables(s) && s.queue != []
    ensures Tables(Round(s)) && Round(s).nextId == s.nextId && Round(s).tasks <= s.tasks
    ensures
      || Work(Round(s).registry, s.nextId) < Work(s.registry, s.nextId)
      || (Work(Round(s).registry, s.nextId) == Work(s.registry, s.nextId) && |Round(s).queue| < |s.queue|)
  {
    var id := s.queue[0];
    if id in s.tasks && s.registry[id].state == Ready {
      var s0 := s.(queue := s.queue[1..], curId := id, cache := s.cache + {id});
      PollWorks(s0, id);
      var (s1, finished) := Poll(s0, id);
      if finished {
        WorkStep(s1.registry, s1.registry - {id}, id, s.nextId);
      }
    }
  }

  /**
    `run_ready_tasks`: rounds until the queue is empty, then CURRENT_TASK_ID back to 0. That this function
    is defined at all is the termination of the drain, by (work left, queue length).
  */
  function Drain(s: Exec): Exec
    requires Tables(s)
    decreases Work(s.registry, s.nextId), |s.queue|
  {
    if s.queue == [] then s.(curId := 0)
    else
      RoundWorks(s);
      Drain(Round(s))
  }

  // ----- Spawning and the system calls -----

  /** What `spawn` does: it panics on a known id, or when the queue is full. */
  datatype Spawned = Running(s: Exec) | DuplicateId(s: Exec) | QueueFull(s: Exec)

  function Spawn(s: Exec, t: TaskView): Spawned {
    var s1 := s.(tasks := s.tasks + {t.id});
    if t.id in s.tasks then DuplicateId(s1) else
    var s2 := s1.(registry := s1.registry[t.id := t]);
    if |s2.queue| < QUEUE_CAPACITY then Running(s2.(queue := s2.queue + [t.id])) else QueueFull(s2)
  }

  /** `Task::new` with the next id, then `spawn`. */
  function SpawnNew(s: Exec, future: seq<Action>): Spawned {
    Spawn(s.(nextId := s.nextId + 1), NewTask(s.nextId, future))
  }

  const USER_SPACE_START := 0x2000_0000

  /** SYS_SEND: 2 for a pointer below user space, 1 for an unknown target, 0 otherwise. */
  function SysSend(s: Exec, target: TaskId, ptr: int, msg: Message): (Exec, int) {
    if ptr < USER_SPACE_START then (s, 2)
    else if target !in s.registry then (s, 1)
    else (Deliver(s, target, msg), 0)
  }

  /** Terminating a task by its id, if the registry has it. */
  function Killed(s: Exec, id: TaskId): Exec {
    if id in s.registry then s.(registry := s.registry[id := s.registry[id].(state := Terminated)]) else s
  }

  function Reprioritised(s: Exec, id: TaskId, p: nat): Exec {
    if id in s.registry then s.(registry := s.registry[id := s.registry[id].(priority := p)]) else s
  }

  function SysExit(s: Exec): Exec {
    Killed(s, s.curId)
  }

  function SysSetPriority(s: Exec, p: nat): Exec {
    Reprioritised(s, s.curId, p)
  }

  // ----- The same, as the kernel does it -----

  /** Objects were taken out of the registry, and none put in. */
  ghost predicate Shrunk(now: map<TaskId, Task>, before: map<TaskId, Task>) {
    forall id :: id in now ==> id in before && now[id] == before[id]
  }

  datatype SpawnResult = Started | DuplicatePanic | QueueFullPanic

  /** The executor with the statics it works on: TASK_REGISTRY, CURRENT_TASK_ID and NEXT_ID. */
  class Executor {
    var tasks: map<TaskId, Task>
    var taskQueue: seq<TaskId>
    var wakerCache: map<TaskId, TaskId>
    var registry: map<TaskId, Task>
    var currentTaskId: TaskId
    var nextId: TaskId
    ghost var lost: nat

    ghost function Views(): (r: map<TaskId, TaskView>)
      reads this, registry.Values
    {
      map id | id in registry :: registry[id].View()
    }

    ghost function Snapshot(): Exec
      reads this, registry.Values
    {
      Exec(Views(), tasks.Keys, taskQueue, wakerCache.Keys, currentTaskId, nextId, lost)
    }

    /** The executor and the registry hold the same task objects. */
    ghost predicate Valid()
      reads this, registry.Values
    {
      && (forall id :: id in registry ==> registry[id].id == id)
      && (forall id :: id in tasks ==> id in registry && registry[id] == tasks[id])
      && (forall id :: id in wakerCache ==> wakerCache[id] == id)
    }

    /** Every task object that has left the registry since it was `before` is Ready. */
    ghost predicate RemovedAreReady(before: map<TaskId, Task>)
      reads this, before.Values
    {
      forall id :: id in before && id !in registry ==> before[id].state == Ready
    }

    constructor ()
      ensures Valid() && Snapshot() == Exec(map[], {}, [], {}, 0, 1, 0) && registry == map[]
    {
      tasks, taskQueue, wakerCache, registry := map[], [], map[], map[];
      currentTaskId, nextId, lost := 0, 1, 0;
    }

    /** `TaskId::new`. */
    method NewId() returns (id: TaskId)
      requires Valid()
      modifies this`nextId
      ensures Valid() && id == old(nextId) && Snapshot() == old(Snapshot()).(nextId := id + 1)
    {
      id := nextId;
      nextId := nextId + 1;
      assert Views() == old(Views());
    }

    /** `TaskWaker::wake_task`. */
    method WakeTask(id: TaskId)
      requires Valid()
      modifies this`taskQueue, this`lost
      ensures Valid() && Snapshot() == PushToken(old(Snapshot()), id)
    {
      if |taskQueue| < QUEUE_CAPACITY {
        taskQueue := taskQueue + [id];
      } else {
        lost := lost + 1;
      }
      assert Views() == old(Views());
    }

    /** The body of SYS_SEND once the target is found. */
    method Send(target: TaskId, msg: Message)
      requires Valid()
      modifies this`taskQueue, this`lost, registry.Values`state, registry.Values`mailbox, registry.Values`waker
      ensures Valid() && Snapshot() == Deliver(old(Snapshot()), target, msg)
    {
      ghost var before := Snapshot();
      if target in registry {
        var task := registry[target];
        task.mailbox := task.mailbox.Store(msg);
        if task.state == Blocked {
          task.state := Ready;
          var waker := task.waker;
          task.waker := None;
          ghost var woken := before.registry[target].(
            mailbox := before.registry[target].mailbox.Store(msg), state := Ready, waker := None);
          assert Views() == before.registry[target := woken];
          if waker.Some? {
            if |taskQueue| < QUEUE_CAPACITY {
              taskQueue := taskQueue + [waker.value];
            } else {
              lost := lost + 1;
            }
          }
          assert Views() == before.registry[target := woken];
        } else {
          assert Views() == before.registry[target := task.View()];
        }
      }
    }

    method SendCall(target: TaskId, ptr: int, msg: Message) returns (ret: int)
      requires Valid()
      modifies this`taskQueue, this`lost, registry.Values`state, registry.Values`mailbox, registry.Values`waker
      ensures Valid() && (Snapshot(), ret) == SysSend(old(Snapshot()), target, ptr, msg)
    {
      if ptr < USER_SPACE_START {
        return 2;
      }
      if target !in registry {
        return 1;
      }
      Send(target, msg);
      ret := 0;
    }

    method ExitCall()
      requires Valid()
      modifies registry.Values`state
      ensures Valid() && Snapshot() == SysExit(old(Snapshot()))
    {
      ghost var before := Snapshot();
      if currentTaskId in registry {
        var task := registry[currentTaskId];
        task.state := Terminated;
        assert Views() == before.registry[currentTaskId := task.View()];
      }
    }

    method SetPriorityCall(ticks: nat) returns (ret: int)
      requires Valid()
      modifies registry.Values`priority
      ensures Valid() && Snapshot() == SysSetPriority(old(Snapshot()), ticks)
      ensures ret == if currentTaskId in registry then 0 else 1
    {
      ghost var before := Snapshot();
      ret := 1;
      if currentTaskId in registry {
        var task := registry[currentTaskId];
        task.priority := ticks;
        assert Views() == before.registry[currentTaskId := task.View()];
        ret := 0;
      }
    }

    /** `IpcReceiveFuture::poll` on the mailbox of `task`, with the waker of the task being polled. */
    method PollReceive(task: Task, waker: TaskId) returns (msg: Option<Message>)
      modifies task`state, task`mailbox, task`waker
      ensures msg == old(task.mailbox.pending)
      ensures task.View() == if msg.Some? then Received(old(task.View())) else Waits(old(task.View()), waker)
    {
      msg := task.mailbox.pending;
      if msg.Some? {
        task.mailbox := task.mailbox.Take();
        task.state := Ready;
      } else {
        task.waker := Some(waker);
        task.state := Blocked;
      }
    }

    /** One action of the future of task `id`; `goes` tells whether the future goes on. */
    method RunAction(id: TaskId) returns (goes: bool)
      requires Valid() && id in registry && registry[id].future != []
      modifies this`taskQueue, this`lost
      modifies registry.Values`state, registry.Values`future, registry.Values`mailbox, registry.Values`waker
      ensures Valid()
      ensures Act(old(Snapshot()), id) == if goes then Goes(Snapshot()) else Pends(Snapshot())
    {
      ghost var before := Snapshot();
      var task := registry[id];
      var action := task.future[0];
      if action.Receive? {
        var msg := PollReceive(task, id);
        goes := msg.Some?;
        if goes {
          task.future := task.future[1..];
        }
        assert Views() == Act(before, id).s.registry;
      } else {
        task.future := task.future[1..];
        assert Views() == before.registry[id := before.registry[id].(future := before.registry[id].future[1..])];
        match action {
          case Send(to, msg) =>
            Send(to, msg);
            goes := true;
          case Wake(other) =>
            WakeTask(other);
            goes := true;
          case Pend =>
            goes := false;
        }
      }
    }

    method PollTask(id: TaskId) returns (finished: bool)
      requires Valid() && id in registry
      modifies this`taskQueue, this`lost
      modifies registry.Values`state, registry.Values`future, registry.Values`mailbox, registry.Values`waker
      ensures Valid() && (Snapshot(), finished) == Poll(old(Snapshot()), id)
    {
      ghost var before := Snapshot();
      while registry[id].future != []
        invariant Valid() && Poll(Snapshot(), id) == Poll(before, id)
        decreases |registry[id].future|
      {
        label action:
        assert Views()[id] == registry[id].View();
        var goes := RunAction(id);
        assert Views()[id] == registry[id].View();
        if !goes {
          return false;
        }
      }
      assert Views()[id] == registry[id].View();
      finished := true;
    }

    /** `run_ready_tasks`. */
    method RunReadyTasks()
      requires Valid() && Tables(Snapshot())
      modifies this, registry.Values`state, registry.Values`future, registry.Values`mailbox, registry.Values`waker
      ensures Valid() && Tables(Snapshot()) && Snapshot() == Drain(old(Snapshot())) && currentTaskId == 0
      ensures Shrunk(registry, old(registry)) && RemovedAreReady(old(registry))
    {
      EmptyQueue();
      ghost var drained := Views();
      currentTaskId := 0;
      assert Views() == drained;
    }

    /** Its loop. */
    method EmptyQueue()
      requires Valid() && Tables(Snapshot())
      modifies this, registry.Values`state, registry.Values`future, registry.Values`mailbox, registry.Values`waker
      ensures Valid() && Tables(Snapshot()) && taskQueue == [] && Drain(Snapshot()) == Drain(old(Snapshot()))
      ensures Shrunk(registry, old(registry)) && RemovedAreReady(old(registry))
    {
      ghost var objects, before := registry, Snapshot();
      while taskQueue != []
        invariant Valid() && Tables(Snapshot()) && Shrunk(registry, objects) && RemovedAreReady(objects)
        invariant Drain(Snapshot()) == Drain(before)
        decreases Work(Snapshot().registry, nextId), |taskQueue|
      {
        RoundWorks(Snapshot());
        RunRound();
      }
    }

    /** One round of its loop. */
    method RunRound()
      requires Valid() && taskQueue != []
      modifies this, registry.Values`state, registry.Values`future, registry.Values`mailbox, registry.Values`waker
      ensures Valid() && Snapshot() == Round(old(Snapshot()))
      ensures Shrunk(registry, old(registry)) && RemovedAreReady(old(registry))
    {
      ghost var before := Snapshot();
      var id := taskQueue[0];
      taskQueue := taskQueue[1..];
      assert Views() == before.registry;
      assert id in tasks ==> Views()[id] == tasks[id].View();
      if id in tasks && tasks[id].state == Ready {
        PollOnce(id);
      }
    }

    method PollOnce(id: TaskId)
      requires Valid() && id in tasks && tasks[id].state == Ready
      modifies this, registry.Values`state, registry.Values`future, registry.Values`mailbox, registry.Values`waker
      ensures Valid() && Snapshot() == PollRound(old(Snapshot()), id)
      ensures Shrunk(registry, old(registry)) && RemovedAreReady(old(registry))
    {
      MakeCurrent(id);
      ghost var polling := Snapshot();
      assert polling.registry[id] == registry[id].View();
      var finished := PollTask(id);
      FinishedIsReady(polling, id);
      assert Views()[id] == registry[id].View();
      if finished {
        Remove(id);
      }
    }

    /** The current task's id, and its waker in the cache. */
    method MakeCurrent(id: TaskId)
      requires Valid()
      modifies this`currentTaskId, this`wakerCache
      ensures Valid() && Snapshot() == old(Snapshot()).(curId := id, cache := old(Snapshot()).cache + {id})
    {
      ghost var before := Snapshot();
      currentTaskId := id;
      wakerCache := wakerCache[id := id];
      assert Views() == before.registry;
      assert wakerCache.Keys == before.cache + {id};
    }

    /** A finished task leaves all three tables. */
    method Remove(id: TaskId)
      requires Valid()
      modifies this`tasks, this`registry, this`wakerCache
      ensures Valid() && registry == old(registry) - {id}
      ensures var s := old(Snapshot());
        Snapshot() == s.(tasks := s.tasks - {id}, registry := s.registry - {id}, cache := s.cache - {id})
    {
      ghost var before := Snapshot();
      tasks := tasks - {id};
      registry := registry - {id};
      wakerCache := wakerCache - {id};
      assert Views() == before.registry - {id};
    }

    /** TASK_REGISTRY.write().insert. */
    method Register(task: Task)
      requires Valid() && (task.id in tasks ==> tasks[task.id] == task)
      modifies this`registry
      ensures Valid() && registry == old(registry)[task.id := task]
      ensures var s := old(Snapshot()); Snapshot() == s.(registry := s.registry[task.id := task.View()])
    {
      ghost var before := Snapshot();
      registry := registry[task.id := task];
      assert Views() == before.registry[task.id := task.View()];
    }

    /** `spawn`, up to its two panics. */
    method SpawnTask(task: Task) returns (result: SpawnResult)
      requires Valid()
      modifies this`tasks, this`registry, this`taskQueue
      ensures match Spawn(old(Snapshot()), task.View())
        case Running(s) => result == Started && Valid() && Snapshot() == s
        case DuplicateId(_) => result == DuplicatePanic
        case QueueFull(_) => result == QueueFullPanic
    {
      if task.id in tasks {
        return DuplicatePanic;
      }
      Register(task);
      label registered:
      tasks := tasks[task.id := task];
      result := QueueFullPanic;
      if |taskQueue| < QUEUE_CAPACITY {
        taskQueue := taskQueue + [task.id];
        result := Started;
      }
      assert Views() == old@registered(Views());
    }
  }
}
