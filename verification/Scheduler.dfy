/**
  The preemptive scheduler: the Rust half of the interrupt handlers.
  Each handler is given first as a function on a snapshot of the global state, then as the imperative
  method of class `Kernel` that is proved to have exactly that effect.
*/
module Scheduler {
  import opened Options
  import opened Cpu
  import opened Trap
  import opened Tasks
  import opened Mailbox
  import AsyncExecutor

  /**
    TASK_LIST with its lock, CURRENT_TASK_IDX, CURRENT_TASK_ID, TICK_COUNT, the RSP0 slot of the TSS,
    and the ids that TASK_REGISTRY knows.
  */
  datatype Sched = Sched(
    tasks: seq<Process>, held: bool, cur: nat, curId: TaskId, ticks: nat, rsp0: int, registry: set<TaskId>)

  ghost predicate UniqueIds(tasks: seq<Process>) {
    forall i, j :: 0 <= i < j < |tasks| ==> tasks[i].id != tasks[j].id
  }

  /** What keeps the handlers from panicking on `tasks[idx]`, and ids what they are meant to be. */
  ghost predicate WellFormed(s: Sched) {
    && s.cur < |s.tasks|
    && UniqueIds(s.tasks)
  }

  // ----- The cyclic scan -----

  /** The next index, cyclically. */
  function Successor(idx: nat, n: nat): (next: nat)
    requires idx < n
    ensures next == if idx + 1 < n then idx + 1 else 0
  {
    (idx + 1) % n
  }

  function Scan(tasks: seq<Process>, idx: nat, budget: nat): (next: nat)
    requires idx < |tasks|
    ensures next < |tasks|
    decreases budget
  {
    if budget == 0 || tasks[idx].state == Ready then idx
    else Scan(tasks, Successor(idx, |tasks|), budget - 1)
  }

  function Pick(tasks: seq<Process>, cur: nat): (next: nat)
    requires cur < |tasks|
    ensures next < |tasks|
  {
    Scan(tasks, Successor(cur, |tasks|), |tasks|)
  }

  /** How many steps forward, cyclically, it is from `cur` to `w`: at least one, and n back to itself. */
  function Ahead(cur: nat, w: nat, n: nat): nat
    requires cur < n && w < n
  {
    if cur < w then w - cur else w - cur + n
  }

  ghost predicate IsReady(tasks: seq<Process>, w: nat) {
    w < |tasks| && tasks[w].state == Ready
  }

  /** The index `d` steps ahead of `cur`, for 1 <= d <= n + 1. */
  function Position(cur: nat, d: nat, n: nat): nat
    requires cur < n && 1 <= d <= n + 1
  {
    if cur + d < n then cur + d else if cur + d < 2 * n then cur + d - n else cur + d - 2 * n
  }

  lemma {:induction false} ScanStopsBy(tasks: seq<Process>, cur: nat, d: nat, budget: nat, w: nat)
    requires cur < |tasks| && IsReady(tasks, w)
    requires 1 <= d <= Ahead(cur, w, |tasks|) && budget + d == |tasks| + 1
    ensures var next := Scan(tasks, Position(cur, d, |tasks|), budget);
      IsReady(tasks, next) && d <= Ahead(cur, next, |tasks|) <= Ahead(cur, w, |tasks|)
    decreases budget
  {
    if tasks[Position(cur, d, |tasks|)].state != Ready {
      ScanStopsBy(tasks, cur, d + 1, budget - 1, w);
    }
  }

  lemma {:induction false} ScanFallsThrough(tasks: seq<Process>, cur: nat, d: nat, budget: nat)
    requires cur < |tasks| && (forall w :: !IsReady(tasks, w))
    requires 1 <= d && budget + d == |tasks| + 1
    ensures Scan(tasks, Position(cur, d, |tasks|), budget) == Successor(cur, |tasks|)
    decreases budget
  {
    assert !IsReady(tasks, Position(cur, d, |tasks|));
    if budget > 0 {
      ScanFallsThrough(tasks, cur, d + 1, budget - 1);
    }
  }

  /**
    The scan finds the nearest Ready successor of the current task, itself last;
    when no task is Ready it falls through to the plain successor.
  */
  lemma PickIsNearestReady(tasks: seq<Process>, cur: nat)
    requires cur < |tasks|
    ensures var next := Pick(tasks, cur);
      && (IsReady(tasks, next) <==> exists w :: IsReady(tasks, w))
      && (forall w :: IsReady(tasks, w) ==> Ahead(cur, next, |tasks|) <= Ahead(cur, w, |tasks|))
      && ((forall w :: !IsReady(tasks, w)) ==> next == Successor(cur, |tasks|))
  {
    assert Position(cur, 1, |tasks|) == Successor(cur, |tasks|);
    forall w | IsReady(tasks, w)
      ensures IsReady(tasks, Pick(tasks, cur))
      ensures Ahead(cur, Pick(tasks, cur), |tasks|) <= Ahead(cur, w, |tasks|)
    {
      ScanStopsBy(tasks, cur, 1, |tasks|, w);
    }
    if forall w :: !IsReady(tasks, w) {
      ScanFallsThrough(tasks, cur, 1, |tasks|);
    }
  }

  // ----- The handlers as functions -----

  /** A task's time slice: it is up at every tick count that its priority divides. */
  function SliceLength(t: Process): (p: nat)
    ensures p >= 1
  {
    if t.priority < 1 then 1 else t.priority
  }

  /** Parks the running task at `rsp` and makes `next` the running one. */
  function Dispatch(s: Sched, next: nat, rsp: int): (Sched, int)
    requires s.cur < |s.tasks| && next < |s.tasks|
  {
    var tasks := s.tasks[s.cur := s.tasks[s.cur].(kernelRsp := rsp)];
    (s.(cur := next, curId := tasks[next].id, tasks := tasks, rsp0 := tasks[next].stackTop),
     tasks[next].kernelRsp)
  }

  /** The state after `schedule_next`, and the stack pointer it returns. */
  function Schedule(s: Sched, rsp: int, force: bool): (Sched, int)
    requires !s.held && s.tasks != [] ==> s.cur < |s.tasks|
  {
    if s.held || s.tasks == [] then (s, rsp) else
    var running := s.tasks[s.cur];
    var dead := running.state == Terminated;
    if !(s.ticks % SliceLength(running) == 0 || dead || force) then (s, rsp) else
    var next := Pick(s.tasks, s.cur);
    if !(next != s.cur || dead) then (s, rsp) else
    Dispatch(s, next, rsp)
  }

  /**
    What `poll_kernel_tasks` does to this state: nothing when the executor's lock is taken, otherwise a drain,
    which may leave tasks in other states, lets finished tasks out of the registry, and always resets CURRENT_TASK_ID.
  */
  datatype Poll = Busy | Drained(states: seq<TaskState>, known: set<TaskId>)

  /** The tasks are left in these states, and no terminated task is revived. */
  ghost predicate StatesAllowed(s: Sched, states: seq<TaskState>) {
    && |states| == |s.tasks|
    && forall i :: 0 <= i < |s.tasks| && s.tasks[i].state == Terminated ==> states[i] == Terminated
  }

  /** What is known of a drain here. Module System proves that the executor's drain is one of these. */
  ghost predicate PollAllowed(s: Sched, poll: Poll) {
    poll.Drained? ==> StatesAllowed(s, poll.states) && poll.known <= s.registry
  }

  function WithStates(tasks: seq<Process>, states: seq<TaskState>): (r: seq<Process>)
    requires |states| == |tasks|
    ensures |r| == |tasks|
  {
    seq(|tasks|, i requires 0 <= i < |tasks| => tasks[i].(state := states[i]))
  }

  function Polled(s: Sched, poll: Poll): Sched
    requires poll.Drained? ==> |poll.states| == |s.tasks|
  {
    match poll
    case Busy => s
    case Drained(states, known) => s.(tasks := WithStates(s.tasks, states), curId := 0, registry := known)
  }

  function TimerInner(s: Sched, poll: Poll, rsp: int): (Sched, int)
    requires poll.Drained? ==> |poll.states| == |s.tasks|
    requires !s.held && s.tasks != [] ==> s.cur < |s.tasks|
  {
    var s' := Polled(s, poll);
    Schedule(s'.(ticks := s'.ticks + 1), rsp, false)
  }

  /** The keyboard and serial handlers return to where they came from. */
  function DeviceInner(s: Sched, poll: Poll, rsp: int): (Sched, int)
    requires poll.Drained? ==> |poll.states| == |s.tasks|
  {
    (Polled(s, poll), rsp)
  }

  function Kill(s: Sched): Sched
    requires !s.held ==> s.cur < |s.tasks|
  {
    if s.held then s else s.(tasks := s.tasks[s.cur := s.tasks[s.cur].(state := Terminated)])
  }

  /** The general-protection and page-fault handlers. */
  function FaultInner(s: Sched, rsp: int): (Sched, int)
    requires !s.held ==> s.cur < |s.tasks|
  {
    Schedule(Kill(s), rsp, true)
  }

  /** With the list's lock taken, or nobody in it, a handler schedules nothing and kills nobody; a tick still counts. */
  lemma LockedListIsLeftAlone(s: Sched, poll: Poll, rsp: int, force: bool)
    requires s.held || s.tasks == []
    requires poll.Drained? ==> |poll.states| == |s.tasks|
    ensures Schedule(s, rsp, force) == (s, rsp)
    ensures s.held ==> FaultInner(s, rsp) == (s, rsp)
    ensures var (s', rsp') := TimerInner(s, poll, rsp);
      rsp' == rsp && s'.cur == s.cur && s'.ticks == s.ticks + 1 && s'.rsp0 == s.rsp0
  {
  }

  // ----- The system calls that act for the caller -----

  function MarkById(tasks: seq<Process>, id: TaskId, f: Process -> Process): (r: seq<Process>)
    ensures |r| == |tasks|
  {
    seq(|tasks|, i requires 0 <= i < |tasks| => if tasks[i].id == id then f(tasks[i]) else tasks[i])
  }

  /** SYS_EXIT always returns 0. */
  function SysExit(s: Sched): Sched {
    if s.curId in s.registry then s.(tasks := MarkById(s.tasks, s.curId, (t: Process) => t.(state := Terminated)))
    else s
  }

  /** SYS_SET_PRIORITY returns 0 when the caller's id is registered, and 1 otherwise. */
  function SysSetPriority(s: Sched, p: nat): Sched {
    if s.curId in s.registry then s.(tasks := MarkById(s.tasks, s.curId, (t: Process) => t.(priority := p)))
    else s
  }

  // ----- What the executor does to the tasks of TASK_LIST -----

  /** Both see the same registry, and the same state and priority of every task they share. */
  ghost predicate Agreed(s: Sched, e: AsyncExecutor.Exec) {
    && e.registry.Keys == s.registry
    && forall i :: 0 <= i < |s.tasks| && s.tasks[i].id in e.registry ==>
         && e.registry[s.tasks[i].id].state == s.tasks[i].state
         && e.registry[s.tasks[i].id].priority == s.tasks[i].priority
  }

  /**
    The state of a task in TASK_LIST after the executor went from `e` to `e'`. One that left the registry has
    finished, and a task that finishes is Ready.
  */
  function StateAfter(t: Process, e: AsyncExecutor.Exec, e': AsyncExecutor.Exec): TaskState {
    if t.id !in e.registry then t.state
    else if t.id in e'.registry then e'.registry[t.id].state
    else Ready
  }

  function StatesAfter(tasks: seq<Process>, e: AsyncExecutor.Exec, e': AsyncExecutor.Exec): (r: seq<TaskState>)
    ensures |r| == |tasks|
  {
    seq(|tasks|, i requires 0 <= i < |tasks| => StateAfter(tasks[i], e, e'))
  }

  /** `poll_kernel_tasks`, with the executor in state `e`; `busy` tells that its lock is taken. */
  function PollOf(s: Sched, e: AsyncExecutor.Exec, busy: bool): (poll: Poll)
    requires AsyncExecutor.Tables(e)
    ensures poll.Drained? ==> |poll.states| == |s.tasks|
  {
    if busy then Busy
    else
      var e' := AsyncExecutor.Drain(e);
      Drained(StatesAfter(s.tasks, e, e'), e'.registry.Keys)
  }

  lemma KilledTables(e: AsyncExecutor.Exec, id: TaskId)
    requires AsyncExecutor.Tables(e)
    ensures AsyncExecutor.Tables(AsyncExecutor.Killed(e, id))
  {
  }

  lemma ReprioritisedTables(e: AsyncExecutor.Exec, id: TaskId, p: nat)
    requires AsyncExecutor.Tables(e)
    ensures AsyncExecutor.Tables(AsyncExecutor.Reprioritised(e, id, p))
  {
  }

  // ----- The same, as the kernel does it -----

  class Kernel {
    var tasks: seq<Task>
    var listHeld: bool
    var currentTaskIdx: nat
    var tickCount: nat
    var tssRsp0: int
    var mem: Mem
    var services: map<Word, TaskId>
    const executor: AsyncExecutor.Executor    // with TASK_REGISTRY and CURRENT_TASK_ID
    const initMailbox: InitMailbox

    /** The ignition sequence of `kernel_main`: the first process is current, and its stack is RSP0. */
    constructor (list: seq<Task>, executor: AsyncExecutor.Executor, mem: Mem, initMailbox: InitMailbox)
      requires list != []
      requires forall i, j :: 0 <= i < j < |list| ==> list[i].id != list[j].id
      requires executor.Valid() && AsyncExecutor.Tables(executor.Snapshot())
      requires forall i :: 0 <= i < |list| && list[i].id in executor.registry ==> executor.registry[list[i].id] == list[i]
      modifies executor`currentTaskId
      ensures Valid() && tasks == list && this.mem == mem && services == map[]
      ensures this.executor == executor && this.initMailbox == initMailbox
      ensures Snapshot() == Sched(Views(), false, 0, list[0].id, 0, list[0].stackTop, executor.registry.Keys)
      ensures executor.Snapshot() == old(executor.Snapshot()).(curId := list[0].id)
    {
      this.tasks, this.listHeld, this.executor, this.mem, this.services := list, false, executor, mem, map[];
      this.currentTaskIdx, this.tickCount := 0, 0;
      this.tssRsp0 := list[0].stackTop;
      this.initMailbox := initMailbox;
      new;
      executor.currentTaskId := list[0].id;
      assert executor.Views() == old(executor.Views());
    }

    ghost function Views(): (v: seq<Process>)
      reads this, tasks
      ensures |v| == |tasks| && forall i :: 0 <= i < |v| ==> v[i] == tasks[i].AsProcess()
    {
      seq(|tasks|, i requires 0 <= i < |tasks| reads this, tasks => tasks[i].AsProcess())
    }

    ghost function Snapshot(): Sched
      reads this, tasks, executor
    {
      Sched(Views(), listHeld, currentTaskIdx, executor.currentTaskId, tickCount, tssRsp0, executor.registry.Keys)
    }

    ghost predicate Valid()
      reads this, tasks, executor, executor.registry.Values
    {
      && (tasks != [] ==> currentTaskIdx < |tasks|)
      && UniqueIds(Views())
      && executor.Valid() && AsyncExecutor.Tables(executor.Snapshot())
      && (forall i :: 0 <= i < |tasks| && tasks[i].id in executor.registry ==> executor.registry[tasks[i].id] == tasks[i])
    }

    method SetMemory(m: Mem)
      requires Valid()
      modifies this`mem
      ensures Valid() && mem == m && Snapshot() == old(Snapshot()) && executor.Snapshot() == old(executor.Snapshot())
    {
      mem := m;
      assert Views() == old(Views()) && executor.Views() == old(executor.Views());
    }

    /** The loop of `schedule_next` that looks for a Ready successor. */
    method FindReady(oldIdx: nat) returns (nextIdx: nat)
      requires oldIdx < |tasks|
      ensures nextIdx < |tasks| && nextIdx == Pick(Views(), oldIdx)
    {
      nextIdx := Successor(oldIdx, |tasks|);
      for k := 0 to |tasks|
        invariant nextIdx < |tasks|
        invariant Scan(Views(), nextIdx, |tasks| - k) == Pick(Views(), oldIdx)
      {
        if tasks[nextIdx].state == Ready {
          break;
        }
        nextIdx := Successor(nextIdx, |tasks|);
      }
    }

    method ScheduleNext(currentRsp: int, force: bool) returns (nextRsp: int)
      requires Valid()
      modifies this`currentTaskIdx, this`tssRsp0, executor`currentTaskId, tasks`kernelRsp
      ensures Valid()
      ensures (Snapshot(), nextRsp) == Schedule(old(Snapshot()), currentRsp, force)
      ensures executor.Snapshot() == old(executor.Snapshot()).(curId := Snapshot().curId)
    {
      ghost var before := Snapshot();
      nextRsp := currentRsp;
      if !listHeld && |tasks| >= 1 {
        var oldIdx := currentTaskIdx;
        var oldTask := tasks[oldIdx];
        var isTerminated := oldTask.state == Terminated;
        var priority := if oldTask.priority < 1 then 1 else oldTask.priority;
        var ticks := tickCount;
        assert before.tasks[oldIdx] == oldTask.AsProcess();
        assert priority == SliceLength(before.tasks[oldIdx]);
        if ticks % priority == 0 || isTerminated || force {
          var nextIdx := FindReady(oldIdx);
          if nextIdx != oldIdx || isTerminated {
            nextRsp := SwitchTo(oldTask, nextIdx, currentRsp);
          }
        }
      }
    }

    /** The end of `schedule_next`: park the old task's stack pointer and load the next task's. */
    method SwitchTo(oldTask: Task, nextIdx: nat, currentRsp: int) returns (nextRsp: int)
      requires Valid() && currentTaskIdx < |tasks| && oldTask == tasks[currentTaskIdx] && nextIdx < |tasks|
      modifies this`currentTaskIdx, this`tssRsp0, executor`currentTaskId, oldTask`kernelRsp
      ensures Valid()
      ensures (Snapshot(), nextRsp) == Dispatch(old(Snapshot()), nextIdx, currentRsp)
      ensures executor.Snapshot() == old(executor.Snapshot()).(curId := Snapshot().curId)
    {
      ghost var oldIdx := currentTaskIdx;
      var nextTask := tasks[nextIdx];
      MakeCurrent(nextIdx);
      Park(oldTask, oldIdx, currentRsp);
      SetInterruptStack(nextTask.stackTop);
      nextRsp := nextTask.kernelRsp;
      assert Views()[nextIdx] == nextTask.AsProcess();
    }

    /** `set_interrupt_stack`: the RSP0 slot of the TSS. */
    method SetInterruptStack(top: int)
      requires Valid()
      modifies this`tssRsp0
      ensures Valid() && Snapshot() == old(Snapshot()).(rsp0 := top)
      ensures executor.Snapshot() == old(executor.Snapshot())
    {
      tssRsp0 := top;
      assert Views() == old(Views()) && executor.Views() == old(executor.Views());
    }

    /** CURRENT_TASK_IDX and CURRENT_TASK_ID. */
    method MakeCurrent(idx: nat)
      requires Valid() && idx < |tasks|
      modifies this`currentTaskIdx, executor`currentTaskId
      ensures Valid() && Snapshot() == old(Snapshot()).(cur := idx, curId := tasks[idx].id)
      ensures executor.Snapshot() == old(executor.Snapshot()).(curId := tasks[idx].id)
    {
      currentTaskIdx := idx;
      executor.currentTaskId := tasks[idx].id;
      assert Views() == old(Views()) && executor.Views() == old(executor.Views());
    }

    /** Saves a stack pointer in a task of TASK_LIST. */
    method Park(task: Task, ghost i: nat, rsp: int)
      requires Valid() && i < |tasks| && task == tasks[i]
      modifies task`kernelRsp
      ensures Valid()
      ensures var s := old(Snapshot()); Snapshot() == s.(tasks := s.tasks[i := s.tasks[i].(kernelRsp := rsp)])
      ensures executor.Snapshot() == old(executor.Snapshot())
    {
      ghost var before := Views();
      task.kernelRsp := rsp;
      assert forall j :: 0 <= j < |tasks| && j != i ==> before[j].id != task.id;
      assert Views() == before[i := before[i].(kernelRsp := rsp)];
      assert executor.Views() == old(executor.Views());
    }

    /** `poll_kernel_tasks`: the drain reaches tasks of TASK_LIST through the registry. */
    method PollKernelTasks(busy: bool)
      requires Valid()
      modifies executor, executor.registry.Values`state, executor.registry.Values`future,
               executor.registry.Values`mailbox, executor.registry.Values`waker
      ensures Valid()
      ensures Snapshot() == Polled(old(Snapshot()), PollOf(old(Snapshot()), old(executor.Snapshot()), busy))
      ensures executor.Snapshot() ==
        if busy then old(executor.Snapshot()) else AsyncExecutor.Drain(old(executor.Snapshot()))
    {
      if !busy {
        ghost var before, e := Snapshot(), executor.Snapshot();
        executor.RunReadyTasks();
        assert Views() == WithStates(before.tasks, StatesAfter(before.tasks, e, executor.Snapshot()));
      }
    }

    method TimerHandlerInner(currentRsp: int, busy: bool) returns (nextRsp: int)
      requires Valid()
      modifies this`currentTaskIdx, this`tssRsp0, this`tickCount, tasks`kernelRsp, executor,
               executor.registry.Values`state, executor.registry.Values`future,
               executor.registry.Values`mailbox, executor.registry.Values`waker
      ensures Valid()
      ensures (Snapshot(), nextRsp) ==
        TimerInner(old(Snapshot()), PollOf(old(Snapshot()), old(executor.Snapshot()), busy), currentRsp)
      ensures var e := old(executor.Snapshot());
        executor.Snapshot() == (if busy then e else AsyncExecutor.Drain(e)).(curId := Snapshot().curId)
    {
      ghost var poll := PollOf(Snapshot(), executor.Snapshot(), busy);
      ghost var polled := Polled(Snapshot(), poll);
      PollKernelTasks(busy);
      CountTick();
      assert Snapshot() == polled.(ticks := polled.ticks + 1);
      nextRsp := ScheduleNext(currentRsp, false);
    }

    method CountTick()
      requires Valid()
      modifies this`tickCount
      ensures Valid() && Snapshot() == old(Snapshot()).(ticks := old(Snapshot()).ticks + 1)
      ensures executor.Snapshot() == old(executor.Snapshot())
    {
      tickCount := tickCount + 1;
      assert Views() == old(Views()) && executor.Views() == old(executor.Views());
    }

    /** `gpf_handler_inner` and `page_fault_handler_inner`, which differ only in what they print. */
    method FaultHandlerInner(currentRsp: int) returns (nextRsp: int)
      requires Valid() && (!listHeld ==> currentTaskIdx < |tasks|)
      modifies this`currentTaskIdx, this`tssRsp0, tasks`kernelRsp, tasks`state, executor`currentTaskId
      ensures Valid()
      ensures (Snapshot(), nextRsp) == FaultInner(old(Snapshot()), currentRsp)
      ensures var s, e := old(Snapshot()), old(executor.Snapshot());
        executor.Snapshot() ==
          (if s.held then e else AsyncExecutor.Killed(e, s.tasks[s.cur].id)).(curId := Snapshot().curId)
    {
      if !listHeld {
        KillRunning();
      }
      nextRsp := ScheduleNext(currentRsp, true);
    }

    /** The state of the running task is overwritten. */
    method KillRunning()
      requires Valid() && !listHeld && currentTaskIdx < |tasks|
      modifies tasks`state
      ensures Valid() && Snapshot() == Kill(old(Snapshot()))
      ensures executor.Snapshot() == AsyncExecutor.Killed(old(executor.Snapshot()), tasks[currentTaskIdx].id)
    {
      ghost var e := executor.Snapshot();
      Terminate(tasks[currentTaskIdx], currentTaskIdx);
      KilledTables(e, tasks[currentTaskIdx].id);
    }

    method Terminate(task: Task, ghost i: nat)
      requires Valid() && i < |tasks| && task == tasks[i]
      modifies task`state
      ensures Views() == old(Views())[i := old(Views()[i]).(state := Terminated)]
      ensures executor.Valid() && executor.Snapshot() == AsyncExecutor.Killed(old(executor.Snapshot()), task.id)
    {
      ghost var before, e := Views(), executor.Views();
      task.state := Terminated;
      assert forall j :: 0 <= j < |tasks| && j != i ==> before[j].id != task.id;
      assert Views() == before[i := before[i].(state := Terminated)];
      assert executor.Views() == if task.id in e then e[task.id := e[task.id].(state := Terminated)] else e;
    }

    /** The keyboard handler (tag 2) and the serial handler (tag 3), which forward the byte `data` first. */
    method DeviceHandlerInner(rsp: int, tag: int, data: int, busy: bool) returns (nextRsp: int)
      requires Valid() && initMailbox.Valid()
      modifies initMailbox, executor, executor.registry.Values`state, executor.registry.Values`future,
               executor.registry.Values`mailbox, executor.registry.Values`waker
      ensures Valid() && initMailbox.Valid() && initMailbox.held == old(initMailbox.held)
      ensures initMailbox.slot == Forwarded(old(initMailbox.slot), old(initMailbox.held), tag, data)
      ensures (Snapshot(), nextRsp) ==
        DeviceInner(old(Snapshot()), PollOf(old(Snapshot()), old(executor.Snapshot()), busy), rsp)
      ensures var e := old(executor.Snapshot());
        executor.Snapshot() == if busy then e else AsyncExecutor.Drain(e)
    {
      initMailbox.Forward(tag, data);
      assert Views() == old(Views()) && executor.Views() == old(executor.Views());
      PollKernelTasks(busy);
      nextRsp := rsp;
    }

    method SysExitCall() returns (ret: int)
      requires Valid()
      modifies executor.registry.Values`state
      ensures Valid() && ret == 0
      ensures Snapshot() == SysExit(old(Snapshot()))
      ensures executor.Snapshot() == AsyncExecutor.SysExit(old(executor.Snapshot()))
    {
      KilledTables(executor.Snapshot(), executor.currentTaskId);
      ExitRegistered();
      ret := 0;
    }

    method ExitRegistered()
      requires Valid()
      modifies executor.registry.Values`state
      ensures Views() == SysExit(old(Snapshot())).tasks
      ensures executor.Valid() && executor.Snapshot() == AsyncExecutor.SysExit(old(executor.Snapshot()))
    {
      ghost var before := Snapshot();
      executor.ExitCall();
      forall i | 0 <= i < |tasks| ensures Views()[i] == SysExit(before).tasks[i] {
        assert tasks[i].id in executor.registry ==> executor.Views()[tasks[i].id] == tasks[i].View();
      }
    }

    method SysSetPriorityCall(ticks: nat) returns (ret: int)
      requires Valid()
      modifies executor.registry.Values`priority
      ensures Valid() && ret == if old(Snapshot()).curId in old(Snapshot()).registry then 0 else 1
      ensures Snapshot() == SysSetPriority(old(Snapshot()), ticks)
      ensures executor.Snapshot() == AsyncExecutor.SysSetPriority(old(executor.Snapshot()), ticks)
    {
      ReprioritisedTables(executor.Snapshot(), executor.currentTaskId, ticks);
      ret := SetRegisteredPriority(ticks);
    }

    method SetRegisteredPriority(ticks: nat) returns (ret: int)
      requires Valid()
      modifies executor.registry.Values`priority
      ensures ret == if old(Snapshot()).curId in old(Snapshot()).registry then 0 else 1
      ensures Views() == SysSetPriority(old(Snapshot()), ticks).tasks
      ensures executor.Valid() && executor.Snapshot() == AsyncExecutor.SysSetPriority(old(executor.Snapshot()), ticks)
    {
      ghost var before := Snapshot();
      ret := executor.SetPriorityCall(ticks);
      forall i | 0 <= i < |tasks| ensures Views()[i] == SysSetPriority(before, ticks).tasks[i] {
        assert tasks[i].id in executor.registry ==> executor.Views()[tasks[i].id] == tasks[i].View();
      }
    }

    method SysSendCall(target: TaskId, ptr: int, msg: Message) returns (ret: int)
      requires Valid()
      modifies executor`taskQueue, executor`lost, executor.registry.Values`state, executor.registry.Values`mailbox,
               executor.registry.Values`waker
      ensures Valid()
      ensures (executor.Snapshot(), ret) == AsyncExecutor.SysSend(old(executor.Snapshot()), target, ptr, msg)
      ensures var s := old(Snapshot());
        Snapshot() == s.(tasks := WithStates(s.tasks, StatesAfter(s.tasks, old(executor.Snapshot()), executor.Snapshot())))
    {
      AsyncExecutor.DeliverTables(executor.Snapshot(), target, msg);
      ret := SendRegistered(target, ptr, msg);
    }

    method SendRegistered(target: TaskId, ptr: int, msg: Message) returns (ret: int)
      requires Valid()
      modifies executor`taskQueue, executor`lost, executor.registry.Values`state, executor.registry.Values`mailbox,
               executor.registry.Values`waker
      ensures executor.Valid()
      ensures (executor.Snapshot(), ret) == AsyncExecutor.SysSend(old(executor.Snapshot()), target, ptr, msg)
      ensures Views() == WithStates(old(Views()), StatesAfter(old(Views()), old(executor.Snapshot()), executor.Snapshot()))
    {
      ghost var before, e := Views(), executor.Snapshot();
      ret := executor.SendCall(target, ptr, msg);
      forall i | 0 <= i < |tasks| ensures tasks[i].state == StateAfter(before[i], e, executor.Snapshot()) {
        assert tasks[i].id in executor.registry ==> executor.Views()[tasks[i].id] == tasks[i].View();
      }
    }

    /** SYS_REG_SERVICE, for whoever CURRENT_TASK_ID says is calling. */
    method SysRegisterServiceCall(name: Word) returns (ret: int)
      requires Valid()
      modifies this`services
      ensures Valid() && ret == 0 && services == old(services)[name := Snapshot().curId]
      ensures Snapshot() == old(Snapshot()) && executor.Snapshot() == old(executor.Snapshot())
    {
      services := services[name := executor.currentTaskId];
      assert Views() == old(Views()) && executor.Views() == old(executor.Views());
      ret := 0;
    }
  }
}
