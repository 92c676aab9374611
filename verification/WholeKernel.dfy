/**
  The kernel as it runs: the machine of module Virtualisation with the executor behind its drains and sends, and
  INIT_MAILBOX behind its devices. The two sides share TASK_REGISTRY, CURRENT_TASK_ID and the tasks that are both in
  the registry and in TASK_LIST. What Virtualisation allows a drain or a send to do is proved here of the executor's.
*/
module WholeKernel {
  import opened Options
  import opened Cpu
  import opened Trap
  import opened Mailbox
  import opened Tasks
  import opened Scheduler
  import opened AsyncExecutor
  import Tokens
  import V = Virtualisation

  datatype System = System(machine: V.Machine, exec: Exec, init: Slot)

  /** `busy` and `held`: the lock that the handler tries is taken. `Plain` is every other system call. */
  datatype Event =
    | User(f: Context -> Context)
    | Timer(busy: bool, scratch: seq<(int, Word)>, regs: RegFile)
    | Device(tag: int, data: int, held: bool, busy: bool, scratch: seq<(int, Word)>, regs: RegFile)
    | Fault(code: Word, scratch: seq<(int, Word)>, regs: RegFile)
    | Exit
    | SetPriority(ticks: nat)
    | RegisterService(name: Word)
    | SendTo(target: TaskId, ptr: int, msg: Message)
    | ReceiveInit(held: bool)
    | Plain(ret: Word)

  // ----- What the two sides share -----

  /** The executor's drain is one that the machine allows, and leaves the two sides agreed. */
  lemma DrainIsAllowed(s: Sched, e: Exec)
    requires AsyncExecutor.Tables(e) && Agreed(s, e)
    ensures PollAllowed(s, PollOf(s, e, false)) && Agreed(Polled(s, PollOf(s, e, false)), Drain(e))
  {
    Tokens.DrainEvolves(e);
    forall i | 0 <= i < |s.tasks| && s.tasks[i].state == Terminated
      ensures PollOf(s, e, false).states[i] == Terminated
    {
      if s.tasks[i].id in e.registry {
        Tokens.DrainKeepsTerminated(e, s.tasks[i].id);
      }
    }
  }

  /** So is every send. */
  lemma SendIsAllowed(s: Sched, e: Exec, target: TaskId, ptr: int, msg: Message)
    requires AsyncExecutor.Tables(e) && Agreed(s, e)
    ensures var e' := SysSend(e, target, ptr, msg).0;
      var states := StatesAfter(s.tasks, e, e');
      StatesAllowed(s, states) && Agreed(s.(tasks := WithStates(s.tasks, states)), e')
  {
  }

  // ----- Steps -----

  /** What both sides keep. */
  ghost predicate Linked(s: System) {
    && V.Tables(s.machine.sched)
    && AsyncExecutor.Tables(s.exec)
    && Agreed(s.machine.sched, s.exec)
    && s.exec.curId == s.machine.sched.curId
    && Traced(s.init)
  }

  /** The event as the machine sees it: what the executor does is filled in. */
  function Shown(s: System, e: Event): V.Event
    requires AsyncExecutor.Tables(s.exec)
  {
    match e
    case User(f) => V.User(f)
    case Timer(busy, scratch, regs) => V.Timer(PollOf(s.machine.sched, s.exec, busy), scratch, regs)
    case Device(_, _, _, busy, scratch, regs) => V.Device(PollOf(s.machine.sched, s.exec, busy), scratch, regs)
    case Fault(code, scratch, regs) => V.Fault(code, scratch, regs)
    case Exit => V.Exit
    case SetPriority(ticks) => V.SetPriority(ticks)
    case RegisterService(name) => V.RegisterService(name)
    case SendTo(target, ptr, msg) =>
      var (e', ret) := SysSend(s.exec, target, ptr, msg);
      V.OtherCall(ret, StatesAfter(s.machine.sched.tasks, s.exec, e'))
    case ReceiveInit(held) =>
      V.OtherCall(if !held && s.init.pending.Some? then 1 else 0, StatesAfter(s.machine.sched.tasks, s.exec, s.exec))
    case Plain(ret) => V.OtherCall(ret, StatesAfter(s.machine.sched.tasks, s.exec, s.exec))
  }

  /**
    What is left to assume: handlers stay on their stack, and there is someone to run after a tick or a fault.
    Nothing is assumed about drains and sends.
  */
  ghost predicate Possible(s: System, e: Event)
    requires Linked(s)
  {
    var m := s.machine;
    match e
    case Timer(busy, scratch, _) =>
      && V.Confined(scratch, V.Running(m).stackBase, Enter(m.ctx, m.mem, m.sched.rsp0, None).rsp)
      && V.Dispatchable(Polled(m.sched, PollOf(s.machine.sched, s.exec, busy)).tasks, m.sched.cur)
    case Device(_, _, _, _, scratch, _) =>
      V.Confined(scratch, V.Running(m).stackBase, Enter(m.ctx, m.mem, m.sched.rsp0, None).rsp)
    case Fault(code, scratch, _) =>
      && V.FaultConfined(m, code, scratch)
      && V.Dispatchable(Kill(m.sched).tasks, m.sched.cur)
    case _ => true
  }

  lemma PossibleIsAllowed(s: System, e: Event)
    requires Linked(s) && Possible(s, e)
    ensures V.Allowed(s.machine, Shown(s, e))
  {
    match e {
      case Timer(busy, scratch, _) => DrainIsAllowed(s.machine.sched, s.exec);
      case Device(_, _, _, busy, scratch, _) => DrainIsAllowed(s.machine.sched, s.exec);
      case SendTo(target, ptr, msg) => SendIsAllowed(s.machine.sched, s.exec, target, ptr, msg);
      case _ =>
    }
  }

  /** The executor's side of an event, up to CURRENT_TASK_ID. */
  function ExecAfter(s: System, e: Event): Exec
    requires AsyncExecutor.Tables(s.exec) && s.machine.sched.cur < |s.machine.sched.tasks|
  {
    match e
    case Timer(busy, _, _) => if busy then s.exec else Drain(s.exec)
    case Device(_, _, _, busy, _, _) => if busy then s.exec else Drain(s.exec)
    case Fault(_, _, _) => Killed(s.exec, s.machine.sched.tasks[s.machine.sched.cur].id)
    case Exit => AsyncExecutor.SysExit(s.exec)
    case SetPriority(ticks) => AsyncExecutor.SysSetPriority(s.exec, ticks)
    case SendTo(target, ptr, msg) => SysSend(s.exec, target, ptr, msg).0
    case _ => s.exec
  }

  function InitAfter(s: System, e: Event): Slot {
    match e
    case Device(tag, data, held, _, _, _) => Forwarded(s.init, held, tag, data)
    case ReceiveInit(held) => if held then s.init else s.init.Take()
    case _ => s.init
  }

  function Next(s: System, e: Event): System
    requires Linked(s) && Possible(s, e)
  {
    PossibleIsAllowed(s, e);
    var m := V.Step(s.machine, Shown(s, e));
    System(m, ExecAfter(s, e).(curId := m.sched.curId), InitAfter(s, e))
  }

  // ----- Every step keeps the two sides linked -----

  /** What agreement depends on did not change. */
  ghost predicate SameShared(s: Sched, s': Sched) {
    && s'.registry == s.registry && |s'.tasks| == |s.tasks|
    && forall i :: 0 <= i < |s.tasks| ==>
         && s'.tasks[i].id == s.tasks[i].id
         && s'.tasks[i].state == s.tasks[i].state && s'.tasks[i].priority == s.tasks[i].priority
  }

  lemma SharedAgrees(s: Sched, s': Sched, e: Exec)
    requires Agreed(s, e) && SameShared(s, s')
    ensures Agreed(s', e)
  {
  }

  lemma ScheduleShares(s: Sched, rsp: int, force: bool)
    requires V.Tables(s)
    ensures V.Tables(Schedule(s, rsp, force).0) && SameShared(s, Schedule(s, rsp, force).0)
  {
  }

  lemma DeviceAgrees(s: Sched, poll: Poll)
    requires V.Tables(s) && PollAllowed(s, poll)
    ensures V.Tables(Polled(s, poll))
  {
  }

  lemma TimerAgrees(s: Sched, poll: Poll, rsp: int, e: Exec)
    requires V.Tables(s) && PollAllowed(s, poll) && Agreed(Polled(s, poll), e)
    ensures V.Tables(TimerInner(s, poll, rsp).0) && Agreed(TimerInner(s, poll, rsp).0, e)
  {
    DeviceAgrees(s, poll);
    var p := Polled(s, poll);
    TickAgrees(p, rsp, e);
    assert TimerInner(s, poll, rsp) == Schedule(p.(ticks := p.ticks + 1), rsp, false);
  }

  /** Counting a tick and scheduling. */
  lemma TickAgrees(s: Sched, rsp: int, e: Exec)
    requires V.Tables(s) && Agreed(s, e)
    ensures var s' := Schedule(s.(ticks := s.ticks + 1), rsp, false).0; V.Tables(s') && Agreed(s', e)
  {
    ScheduleShares(s.(ticks := s.ticks + 1), rsp, false);
    SharedAgrees(s, Schedule(s.(ticks := s.ticks + 1), rsp, false).0, e);
  }

  lemma KillAgrees(s: Sched, e: Exec)
    requires V.Tables(s) && Agreed(s, e)
    ensures V.Tables(Kill(s))
    ensures Agreed(Kill(s), Killed(e, s.tasks[s.cur].id))
  {
  }

  lemma FaultAgrees(s: Sched, rsp: int, e: Exec)
    requires V.Tables(s) && Agreed(s, e)
    ensures V.Tables(FaultInner(s, rsp).0)
    ensures Agreed(FaultInner(s, rsp).0, Killed(e, s.tasks[s.cur].id))
  {
    var dead := Killed(e, s.tasks[s.cur].id);
    KillAgrees(s, e);
    ScheduleShares(Kill(s), rsp, true);
    SharedAgrees(Kill(s), FaultInner(s, rsp).0, dead);
  }

  lemma ExitAgrees(s: Sched, e: Exec)
    requires V.Tables(s) && Agreed(s, e) && e.curId == s.curId
    ensures V.Tables(Scheduler.SysExit(s)) && Agreed(Scheduler.SysExit(s), AsyncExecutor.SysExit(e))
  {
  }

  lemma SetPriorityAgrees(s: Sched, ticks: nat, e: Exec)
    requires V.Tables(s) && Agreed(s, e) && e.curId == s.curId
    ensures V.Tables(Scheduler.SysSetPriority(s, ticks))
    ensures Agreed(Scheduler.SysSetPriority(s, ticks), AsyncExecutor.SysSetPriority(e, ticks))
  {
  }

  lemma ExecTables(s: System, e: Event)
    requires Linked(s)
    ensures AsyncExecutor.Tables(ExecAfter(s, e))
  {
    match e {
      case Timer(busy, _, _) => Tokens.DrainTables(s.exec);
      case Device(_, _, _, busy, _, _) => Tokens.DrainTables(s.exec);
      case SendTo(target, ptr, msg) => DeliverTables(s.exec, target, msg);
      case _ =>
    }
  }

  /** The two sides of an event end up agreed. */
  ghost predicate StepAgrees(s: System, e: Event)
    requires Linked(s) && Possible(s, e)
  {
    var sched := Next(s, e).machine.sched;
    V.Tables(sched) && Agreed(sched, ExecAfter(s, e))
  }

  lemma TimerStepAgrees(s: System, e: Event)
    requires Linked(s) && Possible(s, e) && e.Timer?
    ensures StepAgrees(s, e)
  {
    PossibleIsAllowed(s, e);
    var rsp := V.TimerHandled(s.machine, Shown(s, e));
    DrainIsAllowed(s.machine.sched, s.exec);
    TimerAgrees(s.machine.sched, PollOf(s.machine.sched, s.exec, e.busy), rsp, ExecAfter(s, e));
  }

  lemma DeviceStepAgrees(s: System, e: Event)
    requires Linked(s) && Possible(s, e) && e.Device?
    ensures StepAgrees(s, e)
  {
    PossibleIsAllowed(s, e);
    V.DeviceHandled(s.machine, Shown(s, e));
    DrainIsAllowed(s.machine.sched, s.exec);
    DeviceAgrees(s.machine.sched, PollOf(s.machine.sched, s.exec, e.busy));
  }

  lemma FaultStepAgrees(s: System, e: Event)
    requires Linked(s) && Possible(s, e) && e.Fault?
    ensures StepAgrees(s, e)
  {
    PossibleIsAllowed(s, e);
    var rsp := V.FaultHandled(s.machine, Shown(s, e));
    FaultAgrees(s.machine.sched, rsp, s.exec);
  }

  lemma SendStepAgrees(s: System, e: Event)
    requires Linked(s) && Possible(s, e) && e.SendTo?
    ensures StepAgrees(s, e)
  {
    SendIsAllowed(s.machine.sched, s.exec, e.target, e.ptr, e.msg);
  }

  lemma ExitStepAgrees(s: System)
    requires Linked(s)
    ensures StepAgrees(s, Exit)
  {
    ExitAgrees(s.machine.sched, s.exec);
    assert Next(s, Exit).machine.sched == Scheduler.SysExit(s.machine.sched);
  }

  lemma SetPriorityStepAgrees(s: System, ticks: nat)
    requires Linked(s)
    ensures StepAgrees(s, SetPriority(ticks))
  {
    SetPriorityAgrees(s.machine.sched, ticks, s.exec);
    assert Next(s, SetPriority(ticks)).machine.sched == Scheduler.SysSetPriority(s.machine.sched, ticks);
  }

  lemma SameIsAllowed(s: Sched, e: Exec)
    requires Agreed(s, e)
    ensures var states := StatesAfter(s.tasks, e, e); StatesAllowed(s, states) && WithStates(s.tasks, states) == s.tasks
  {
  }

  lemma PlainStepAgrees(s: System, e: Event)
    requires Linked(s) && Possible(s, e) && (e.User? || e.RegisterService? || e.ReceiveInit? || e.Plain?)
    ensures StepAgrees(s, e)
  {
    PossibleIsAllowed(s, e);
    SameIsAllowed(s.machine.sched, s.exec);
    assert Next(s, e).machine.sched == s.machine.sched;
  }

  lemma StepKeepsAgreed(s: System, e: Event)
    requires Linked(s) && Possible(s, e)
    ensures StepAgrees(s, e)
  {
    match e {
      case Timer(_, _, _) => TimerStepAgrees(s, e);
      case Device(_, _, _, _, _, _) => DeviceStepAgrees(s, e);
      case Fault(_, _, _) => FaultStepAgrees(s, e);
      case SendTo(_, _, _) => SendStepAgrees(s, e);
      case Exit => ExitStepAgrees(s);
      case SetPriority(ticks) => SetPriorityStepAgrees(s, ticks);
      case _ => PlainStepAgrees(s, e);
    }
  }

  lemma InitTraced(s: System, e: Event)
    requires Traced(s.init)
    ensures Traced(InitAfter(s, e))
  {
    match e {
      case Device(tag, data, held, _, _, _) => StoreTraced(s.init, Message(0, 1, tag, (data, 0)));
      case ReceiveInit(_) => TakeTraced(s.init);
      case _ =>
    }
  }

  /** Both sides stay linked, whatever happens. */
  lemma StepKeepsLinked(s: System, e: Event)
    requires Linked(s) && Possible(s, e)
    ensures Linked(Next(s, e))
  {
    StepKeepsAgreed(s, e);
    ExecTables(s, e);
    InitTraced(s, e);
  }

  // ----- Runs -----

  ghost predicate AllPossible(s: System, es: seq<Event>)
    requires Linked(s)
    decreases |es|
  {
    es != [] ==> Possible(s, es[0]) && (StepKeepsLinked(s, es[0]); AllPossible(Next(s, es[0]), es[1..]))
  }

  ghost function Run(s: System, es: seq<Event>): (s': System)
    requires Linked(s) && AllPossible(s, es)
    ensures Linked(s')
    decreases |es|
  {
    if es == [] then s
    else
      StepKeepsLinked(s, es[0]);
      Run(Next(s, es[0]), es[1..])
  }

  /** The run as the machine sees it. */
  ghost function ShownRun(s: System, es: seq<Event>): (r: seq<V.Event>)
    requires Linked(s) && AllPossible(s, es)
    decreases |es|
  {
    if es == [] then []
    else
      StepKeepsLinked(s, es[0]);
      [Shown(s, es[0])] + ShownRun(Next(s, es[0]), es[1..])
  }

  /** Every run of the kernel is a run of the machine: its assumptions on drains and sends are met by the executor. */
  lemma {:induction false} RunIsMachineRun(s: System, es: seq<Event>)
    requires Linked(s) && AllPossible(s, es)
    ensures V.AllAllowed(s.machine, ShownRun(s, es))
    ensures V.Run(s.machine, ShownRun(s, es)) == Run(s, es).machine
    decreases |es|
  {
    if es != [] {
      StepKeepsLinked(s, es[0]);
      PossibleIsAllowed(s, es[0]);
      RunIsMachineRun(Next(s, es[0]), es[1..]);
      assert ShownRun(s, es)[1..] == ShownRun(Next(s, es[0]), es[1..]);
    }
  }

  /** CPU virtualisation of the whole kernel: whatever the executor does, every live task has its own processor. */
  lemma KernelVirtualCpus(s: System, v: seq<Context>, es: seq<Event>)
    requires Linked(s) && V.Inv(s.machine, v) && AllPossible(s, es)
    ensures V.AllAllowed(s.machine, ShownRun(s, es))
    ensures V.Inv(Run(s, es).machine, V.Solo(s.machine, v, ShownRun(s, es)))
  {
    RunIsMachineRun(s, es);
    V.VirtualCpus(s.machine, v, ShownRun(s, es));
  }

  /** Termination is final in the whole kernel: a dead task that is not running stays dead and executes nothing. */
  lemma KernelDeadStayDead(s: System, v: seq<Context>, es: seq<Event>, i: nat)
    requires Linked(s) && V.Inv(s.machine, v) && AllPossible(s, es)
    requires i < |s.machine.sched.tasks| && s.machine.sched.tasks[i].state == Terminated && s.machine.sched.cur != i
    ensures V.AllAllowed(s.machine, ShownRun(s, es)) && V.Own(s.machine, ShownRun(s, es), i) == []
    ensures var t := Run(s, es).machine.sched;
      |t.tasks| == |s.machine.sched.tasks| && t.tasks[i].state == Terminated && t.cur != i
  {
    RunIsMachineRun(s, es);
    V.DeadStayDead(s.machine, v, ShownRun(s, es), i);
  }

  /** On the executor's side too: no interrupt and no system call revives a task of the registry. */
  lemma {:induction false} KernelTerminatedForever(s: System, es: seq<Event>, id: TaskId)
    requires Linked(s) && AllPossible(s, es) && Tokens.Dead(s.exec, id)
    ensures Tokens.Dead(Run(s, es).exec, id)
    decreases |es|
  {
    if es != [] {
      StepKeepsLinked(s, es[0]);
      StaysDead(s, es[0], id);
      KernelTerminatedForever(Next(s, es[0]), es[1..], id);
    }
  }

  lemma StaysDead(s: System, e: Event, id: TaskId)
    requires Linked(s) && Tokens.Dead(s.exec, id)
    ensures Tokens.Dead(ExecAfter(s, e), id)
  {
    if e.Timer? || e.Device? {
      Tokens.DrainKeepsTerminated(s.exec, id);
    }
  }

  // ----- The wake-up protocol under interrupts -----

  /** Killing a task or changing its priority moves no token. */
  lemma KilledTokens(e: Exec, id: TaskId)
    requires Tokens.OneToken(e, None)
    ensures Tokens.OneToken(Killed(e, id), None) && Killed(e, id).lost == e.lost
  {
  }

  lemma ReprioritisedTokens(e: Exec, id: TaskId, p: nat)
    requires Tokens.OneToken(e, None)
    ensures Tokens.OneToken(Reprioritised(e, id, p), None) && Reprioritised(e, id, p).lost == e.lost
  {
    var e' := Reprioritised(e, id, p);
    forall j | j in e'.registry && e'.registry[j].state == Blocked
      ensures Tokens.Sleeping(e', j)
    {
      assert Tokens.Sleeping(e, j);
    }
  }

  lemma ExecTokens(s: System, e: Event)
    requires Tokens.OneToken(s.exec, None) && s.machine.sched.cur < |s.machine.sched.tasks|
    ensures Tokens.OneToken(ExecAfter(s, e), None) && ExecAfter(s, e).lost == s.exec.lost
  {
    match e {
      case Timer(busy, _, _) => Tokens.DrainTokens(s.exec);
      case Device(_, _, _, busy, _, _) => Tokens.DrainTokens(s.exec);
      case Fault(_, _, _) => KilledTokens(s.exec, s.machine.sched.tasks[s.machine.sched.cur].id);
      case _ => CallTokens(s, e);
    }
  }

  lemma CallTokens(s: System, e: Event)
    requires Tokens.OneToken(s.exec, None) && s.machine.sched.cur < |s.machine.sched.tasks|
    requires !e.Timer? && !e.Device? && !e.Fault?
    ensures Tokens.OneToken(ExecAfter(s, e), None) && ExecAfter(s, e).lost == s.exec.lost
  {
    match e {
      case Exit => Tokens.StepTokens(s.exec, Tokens.ExitCall);
      case SetPriority(ticks) => ReprioritisedTokens(s.exec, s.exec.curId, ticks);
      case SendTo(target, ptr, msg) => Tokens.StepTokens(s.exec, Tokens.SendCall(target, ptr, msg));
      case _ =>
    }
  }

  lemma SwitchTokens(e: Exec, id: TaskId)
    requires Tokens.OneToken(e, None)
    ensures Tokens.OneToken(e.(curId := id), None)
  {
    Tokens.StepTokens(e, Tokens.SwitchTo(id));
  }

  lemma StepTokens(s: System, e: Event)
    requires Linked(s) && Possible(s, e) && Tokens.OneToken(s.exec, None)
    ensures Tokens.OneToken(Next(s, e).exec, None) && Next(s, e).exec.lost == s.exec.lost
  {
    ExecTokens(s, e);
    SwitchTokens(ExecAfter(s, e), Next(s, e).exec.curId);
  }

  /**
    No wake-up is lost in the whole kernel: under timer ticks, device interrupts, faults and system calls in any order,
    no push ever fails, every Ready task of the executor has exactly one token and every blocked one can be woken.
  */
  lemma {:induction false} KernelNoWakeLost(s: System, es: seq<Event>)
    requires Linked(s) && AllPossible(s, es) && Tokens.OneToken(s.exec, None)
    ensures Tokens.OneToken(Run(s, es).exec, None) && Run(s, es).exec.lost == s.exec.lost
    decreases |es|
  {
    if es != [] {
      StepKeepsLinked(s, es[0]);
      StepTokens(s, es[0]);
      KernelNoWakeLost(Next(s, es[0]), es[1..]);
    }
  }

  predicate Drains(e: Event) {
    (e.Timer? || e.Device?) && !e.busy
  }

  /** Since its mailbox was `box`, task `id` has received a message, unless it has finished or died. */
  ghost predicate Served(e: Exec, id: TaskId, box: Slot)
    requires AsyncExecutor.Tables(e)
  {
    id in e.tasks ==>
      var box' := e.registry[id].mailbox;
      Tokens.Dead(e, id) || (Newer(box, box') && box'.received != box.received)
  }

  /** Since then it has received nothing, so that a message that was waiting waits still. */
  ghost predicate HasMail(e: Exec, id: TaskId, box: Slot) {
    && id in e.tasks && id in e.registry
    && Newer(box, e.registry[id].mailbox) && e.registry[id].mailbox.received == box.received
  }

  /** At least one event of the run drains the executor. */
  predicate SomeDrains(es: seq<Event>) {
    es != [] && (Drains(es[0]) || SomeDrains(es[1..]))
  }

  /** Task `id` is served already, or has a message waiting and a drain to come. */
  ghost predicate WillBeServed(e: Exec, es: seq<Event>, id: TaskId, box: Slot)
    requires AsyncExecutor.Tables(e)
  {
    Served(e, id, box) || (HasMail(e, id, box) && SomeDrains(es))
  }

  /** No task is added, no dead one revived, and every mailbox moved on. */
  ghost predicate MailMoved(e: Exec, e': Exec) {
    && e'.tasks <= e.tasks
    && (forall id :: Tokens.Dead(e, id) ==> Tokens.Dead(e', id))
    && (forall id :: id in e'.registry ==> id in e.registry && Newer(e.registry[id].mailbox, e'.registry[id].mailbox))
  }

  lemma SameMail(e: Exec, e': Exec)
    requires AsyncExecutor.Tables(e) && e'.tasks == e.tasks && e'.registry.Keys == e.registry.Keys
    requires forall id :: id in e.registry ==> e'.registry[id].mailbox == e.registry[id].mailbox
    requires forall id :: Tokens.Dead(e, id) ==> Tokens.Dead(e', id)
    ensures MailMoved(e, e')
  {
    forall id | id in e'.registry ensures Newer(e.registry[id].mailbox, e'.registry[id].mailbox) {
      OpsAreNewer(e.registry[id].mailbox, Message(0, 0, 0, (0, 0)));
    }
  }

  lemma SendMovesMail(e: Exec, target: TaskId, ptr: int, msg: Message)
    requires AsyncExecutor.Tables(e)
    ensures MailMoved(e, SysSend(e, target, ptr, msg).0)
  {
    Tokens.DeliverEvolves(e, target, msg);
    Tokens.SameEvolves(e);
  }

  lemma ExecMovesMail(s: System, e: Event)
    requires AsyncExecutor.Tables(s.exec) && s.machine.sched.cur < |s.machine.sched.tasks|
    ensures MailMoved(s.exec, ExecAfter(s, e))
  {
    if Drains(e) {
      DrainMovesMail(s.exec);
    } else if e.SendTo? {
      SendMovesMail(s.exec, e.target, e.ptr, e.msg);
    } else {
      SameMail(s.exec, ExecAfter(s, e));
    }
  }

  lemma DrainMovesMail(e: Exec)
    requires AsyncExecutor.Tables(e)
    ensures MailMoved(e, Drain(e))
  {
    Tokens.DrainTables(e);
    Tokens.DrainEvolves(e);
    forall id | Tokens.Dead(e, id) ensures Tokens.Dead(Drain(e), id) {
      Tokens.DrainKeepsTerminated(e, id);
    }
  }

  /** Served stays served, and mail that is not received waits on. */
  lemma ServesOn(e: Exec, e': Exec, id: TaskId, box: Slot)
    requires AsyncExecutor.Tables(e) && AsyncExecutor.Tables(e') && MailMoved(e, e')
    requires Served(e, id, box) || HasMail(e, id, box)
    ensures Served(e', id, box) || HasMail(e', id, box)
  {
    if id in e'.tasks && !Tokens.Dead(e, id) {
      NewerTransitive(box, e.registry[id].mailbox, e'.registry[id].mailbox);
    }
  }

  lemma ServedStays(e: Exec, e': Exec, id: TaskId, box: Slot)
    requires AsyncExecutor.Tables(e) && AsyncExecutor.Tables(e') && MailMoved(e, e') && Served(e, id, box)
    ensures Served(e', id, box)
  {
    if id in e'.tasks && !Tokens.Dead(e, id) {
      NewerTransitive(box, e.registry[id].mailbox, e'.registry[id].mailbox);
    }
  }

  lemma DrainServes(e: Exec, id: TaskId, box: Slot)
    requires Tokens.OneToken(e, None) && box.pending.Some? && HasMail(e, id, box)
    ensures AsyncExecutor.Tables(Drain(e)) && Served(Drain(e), id, box)
  {
    Tokens.DrainTables(e);
    DrainMovesMail(e);
    ServesOn(e, Drain(e), id, box);
    if !Tokens.Dead(e, id) {
      Tokens.DrainDelivers(e, id);
    }
  }

  lemma ExecServes(s: System, es: seq<Event>, id: TaskId, box: Slot)
    requires Tokens.OneToken(s.exec, None) && s.machine.sched.cur < |s.machine.sched.tasks| && es != []
    requires AsyncExecutor.Tables(ExecAfter(s, es[0]))
    requires box.pending.Some? && WillBeServed(s.exec, es, id, box)
    ensures WillBeServed(ExecAfter(s, es[0]), es[1..], id, box)
  {
    var e' := ExecAfter(s, es[0]);
    ExecMovesMail(s, es[0]);
    if Served(s.exec, id, box) {
      ServedStays(s.exec, e', id, box);
    } else if Drains(es[0]) {
      DrainServes(s.exec, id, box);
    } else {
      ServesOn(s.exec, e', id, box);
    }
  }

  lemma SwitchServes(e: Exec, current: TaskId, es: seq<Event>, id: TaskId, box: Slot)
    requires AsyncExecutor.Tables(e) && WillBeServed(e, es, id, box)
    ensures AsyncExecutor.Tables(e.(curId := current)) && WillBeServed(e.(curId := current), es, id, box)
  {
  }

  lemma NextServes(s: System, es: seq<Event>, id: TaskId, box: Slot)
    requires Linked(s) && es != [] && Possible(s, es[0]) && Tokens.OneToken(s.exec, None) && Linked(Next(s, es[0]))
    requires box.pending.Some? && WillBeServed(s.exec, es, id, box)
    ensures WillBeServed(Next(s, es[0]).exec, es[1..], id, box)
  {
    ExecTables(s, es[0]);
    ExecServes(s, es, id, box);
    SwitchServes(ExecAfter(s, es[0]), Next(s, es[0]).exec.curId, es[1..], id, box);
  }

  /**
    Messages arrive: in every run with at least one interrupt that drains the executor, a task that had a message
    waiting in its mailbox `box` has received one by the end, that one or a newer one first, unless it has finished or
    was killed.
  */
  lemma {:induction false} KernelDelivers(s: System, es: seq<Event>, id: TaskId, box: Slot)
    requires Linked(s) && AllPossible(s, es) && Tokens.OneToken(s.exec, None)
    requires box.pending.Some? && WillBeServed(s.exec, es, id, box)
    ensures Served(Run(s, es).exec, id, box)
    decreases |es|
  {
    if es != [] {
      StepKeepsLinked(s, es[0]);
      StepTokens(s, es[0]);
      NextServes(s, es, id, box);
      KernelDelivers(Next(s, es[0]), es[1..], id, box);
    }
  }

  // ----- Sending, from call to receipt -----

  /** A system call SYS_SEND that fails changes nothing but the caller's registers: 2 for a low pointer, 1 for nobody. */
  lemma SendFails(s: System, target: TaskId, ptr: int, msg: Message)
    requires Linked(s) && (ptr < 0x2000_0000 || target !in s.exec.registry)
    ensures var s' := Next(s, SendTo(target, ptr, msg));
      && s' == s.(machine := s.machine.(ctx := s'.machine.ctx))
      && s'.machine.ctx.gpr.Get(RAX) == if ptr < 0x2000_0000 then 2 else 1
  {
    SendNext(s, target, ptr, msg);
    SameIsAllowed(s.machine.sched, s.exec);
  }

  /** One that succeeds returns 0, and the message waits in the target's mailbox. */
  lemma SendStores(s: System, target: TaskId, ptr: int, msg: Message)
    requires Linked(s) && Tokens.OneToken(s.exec, None) && ptr >= 0x2000_0000 && target in s.exec.registry
    ensures var s' := Next(s, SendTo(target, ptr, msg));
      && s'.machine.ctx.gpr.Get(RAX) == 0
      && target in s'.exec.registry
      && s'.exec.registry[target].mailbox.pending == Some(msg)
      && s'.exec.registry[target].mailbox.stored == s.exec.registry[target].mailbox.stored + [msg]
      && s'.exec.registry[target].mailbox.received == s.exec.registry[target].mailbox.received
      && (s.exec.registry[target].state == Blocked ==> s'.exec.registry[target].state == Ready && target in s'.exec.queue)
  {
    SendNext(s, target, ptr, msg);
    Tokens.SendResult(s.exec, target, ptr, msg);
  }

  /**
    From the call to the receipt: after a successful SYS_SEND, in every run with an interrupt that drains the
    executor, the target has received the message, or a newer one instead, unless it has finished or was killed.
  */
  lemma SentArrives(s: System, target: TaskId, ptr: int, msg: Message, es: seq<Event>)
    requires Linked(s) && Tokens.OneToken(s.exec, None) && Tokens.SameTasks(s.exec)
    requires ptr >= 0x2000_0000 && target in s.exec.registry
    requires Linked(Next(s, SendTo(target, ptr, msg))) && AllPossible(Next(s, SendTo(target, ptr, msg)), es)
    requires SomeDrains(es)
    ensures var s' := Next(s, SendTo(target, ptr, msg));
      && target in s'.exec.registry && s'.exec.registry[target].mailbox.pending == Some(msg)
      && Served(Run(s', es).exec, target, s'.exec.registry[target].mailbox)
  {
    var s' := Next(s, SendTo(target, ptr, msg));
    SendStores(s, target, ptr, msg);
    StepTokens(s, SendTo(target, ptr, msg));
    StepSameTasks(s, SendTo(target, ptr, msg));
    var box := s'.exec.registry[target].mailbox;
    OpsAreNewer(box, msg);
    KernelDelivers(s', es, target, box);
  }

  // ----- The registry -----

  lemma ExecSameTasks(s: System, e: Event)
    requires AsyncExecutor.Tables(s.exec) && s.machine.sched.cur < |s.machine.sched.tasks| && Tokens.SameTasks(s.exec)
    ensures Tokens.SameTasks(ExecAfter(s, e)) && ExecAfter(s, e).tasks <= s.exec.tasks
  {
    if Drains(e) {
      Tokens.DrainSameTasks(s.exec);
      Tokens.DrainTables(s.exec);
    }
  }

  lemma StepSameTasks(s: System, e: Event)
    requires Linked(s) && Possible(s, e) && Tokens.SameTasks(s.exec)
    ensures Tokens.SameTasks(Next(s, e).exec) && Next(s, e).exec.tasks <= s.exec.tasks
  {
    ExecSameTasks(s, e);
  }

  /** A task that has completed is gone from the registry for good, so that sends to it fail. */
  lemma {:induction false} KernelCompletedForever(s: System, es: seq<Event>, id: TaskId)
    requires Linked(s) && AllPossible(s, es) && Tokens.SameTasks(s.exec) && id !in s.exec.tasks
    ensures Tokens.SameTasks(Run(s, es).exec) && id !in Run(s, es).exec.registry
    decreases |es|
  {
    if es != [] {
      StepKeepsLinked(s, es[0]);
      StepSameTasks(s, es[0]);
      KernelCompletedForever(Next(s, es[0]), es[1..], id);
    }
  }

  // ----- The same, as the kernel does it -----

  ghost function View(ctx: Context, k: Kernel): System
    reads k, k.tasks, k.executor, k.executor.registry.Values, k.initMailbox
  {
    System(V.Machine(ctx, k.mem, k.Snapshot(), k.services), k.executor.Snapshot(), k.initMailbox.slot)
  }

  // Each interrupt is the wrapper's entry, then the handler and the wrapper's exit.

  function AfterTimer(s: System, saved: State, busy: bool, scratch: seq<(int, Word)>, regs: RegFile): System
    requires AsyncExecutor.Tables(s.exec) && WellFormed(s.machine.sched)
    requires PollAllowed(s.machine.sched, PollOf(s.machine.sched, s.exec, busy))
  {
    var m := V.AfterTimer(s.machine, saved, PollOf(s.machine.sched, s.exec, busy), scratch, regs);
    System(m, (if busy then s.exec else Drain(s.exec)).(curId := m.sched.curId), s.init)
  }

  method FinishTimer(ctx: Context, k: Kernel, saved: State, busy: bool, scratch: seq<(int, Word)>, regs: RegFile)
    returns (ctx': Context)
    requires k.Valid() && WellFormed(k.Snapshot())
    requires PollAllowed(k.Snapshot(), PollOf(k.Snapshot(), k.executor.Snapshot(), busy))
    modifies k, k.tasks`kernelRsp, k.executor, k.executor.registry.Values`state, k.executor.registry.Values`future,
             k.executor.registry.Values`mailbox, k.executor.registry.Values`waker
    ensures k.Valid() && View(ctx', k) == AfterTimer(old(View(ctx, k)), saved, busy, scratch, regs)
  {
    ghost var s := View(ctx, k);
    var rsp := k.TimerHandlerInner(saved.rsp, busy);
    ghost var r := (k.Snapshot(), rsp);
    k.SetMemory(V.Scribble(saved.mem, scratch));
    ctx' := Leave(regs, k.mem, rsp);
    assert View(ctx', k).machine == V.Resume(r, k.mem, regs, s.machine.services);
  }

  /** One timer interrupt. */
  method TimerInterrupt(ctx: Context, k: Kernel, busy: bool, scratch: seq<(int, Word)>, regs: RegFile)
    returns (ctx': Context)
    requires k.Valid() && Linked(View(ctx, k)) && Possible(View(ctx, k), Timer(busy, scratch, regs))
    modifies k, k.tasks`kernelRsp, k.executor, k.executor.registry.Values`state, k.executor.registry.Values`future,
             k.executor.registry.Values`mailbox, k.executor.registry.Values`waker
    ensures k.Valid() && View(ctx', k) == Next(old(View(ctx, k)), Timer(busy, scratch, regs))
  {
    var saved := Enter(ctx, k.mem, k.tssRsp0, None);
    PossibleIsAllowed(View(ctx, k), Timer(busy, scratch, regs));
    ctx' := FinishTimer(ctx, k, saved, busy, scratch, regs);
  }

  function AfterFault(s: System, saved: State, scratch: seq<(int, Word)>, regs: RegFile): System
    requires WellFormed(s.machine.sched)
  {
    var m := V.AfterFault(s.machine, saved, scratch, regs);
    System(m, Killed(s.exec, V.Running(s.machine).id).(curId := m.sched.curId), s.init)
  }

  method FinishFault(ctx: Context, k: Kernel, saved: State, scratch: seq<(int, Word)>, regs: RegFile)
    returns (ctx': Context)
    requires k.Valid() && WellFormed(k.Snapshot()) && !k.listHeld
    modifies k, k.tasks`kernelRsp, k.tasks`state, k.executor`currentTaskId
    ensures k.Valid() && View(ctx', k) == AfterFault(old(View(ctx, k)), saved, scratch, regs)
  {
    ghost var s := View(ctx, k);
    var rsp := k.FaultHandlerInner(saved.rsp);
    ghost var r := (k.Snapshot(), rsp);
    k.SetMemory(V.Scribble(saved.mem, scratch));
    ctx' := Leave(regs, k.mem, rsp);
    assert View(ctx', k).machine == V.Resume(r, k.mem, regs, s.machine.services);
  }

  /** One general-protection or page fault. */
  method FaultInterrupt(ctx: Context, k: Kernel, code: Word, scratch: seq<(int, Word)>, regs: RegFile)
    returns (ctx': Context)
    requires k.Valid() && Linked(View(ctx, k)) && Possible(View(ctx, k), Fault(code, scratch, regs))
    modifies k, k.tasks`kernelRsp, k.tasks`state, k.executor`currentTaskId
    ensures k.Valid() && View(ctx', k) == Next(old(View(ctx, k)), Fault(code, scratch, regs))
  {
    var saved := Enter(ctx, k.mem, k.tssRsp0, Some(code));
    PossibleIsAllowed(View(ctx, k), Fault(code, scratch, regs));
    ctx' := FinishFault(ctx, k, saved, scratch, regs);
  }

  function AfterDevice(
    s: System, saved: State, tag: int, data: int, held: bool, busy: bool, scratch: seq<(int, Word)>, regs: RegFile): System
    requires AsyncExecutor.Tables(s.exec)
    requires PollAllowed(s.machine.sched, PollOf(s.machine.sched, s.exec, busy))
  {
    var m := V.AfterDevice(s.machine, saved, PollOf(s.machine.sched, s.exec, busy), scratch, regs);
    System(m, (if busy then s.exec else Drain(s.exec)).(curId := m.sched.curId), Forwarded(s.init, held, tag, data))
  }

  method FinishDevice(
    ctx: Context, k: Kernel, saved: State, tag: int, data: int, busy: bool, scratch: seq<(int, Word)>, regs: RegFile)
    returns (ctx': Context)
    requires k.Valid() && k.initMailbox.Valid()
    requires PollAllowed(k.Snapshot(), PollOf(k.Snapshot(), k.executor.Snapshot(), busy))
    modifies k`mem, k.initMailbox, k.executor, k.executor.registry.Values`state, k.executor.registry.Values`future,
             k.executor.registry.Values`mailbox, k.executor.registry.Values`waker
    ensures k.Valid() && k.initMailbox.Valid()
    ensures View(ctx', k) ==
      AfterDevice(old(View(ctx, k)), saved, tag, data, old(k.initMailbox.held), busy, scratch, regs)
  {
    ghost var s := View(ctx, k);
    var rsp := k.DeviceHandlerInner(saved.rsp, tag, data, busy);
    ghost var r := (k.Snapshot(), rsp);
    k.SetMemory(V.Scribble(saved.mem, scratch));
    ctx' := Leave(regs, k.mem, rsp);
    assert View(ctx', k).machine == V.Resume(r, k.mem, regs, s.machine.services);
  }

  /** One keyboard or serial interrupt, with the byte that the device had for the handler. */
  method DeviceInterrupt(
    ctx: Context, k: Kernel, tag: int, data: int, busy: bool, scratch: seq<(int, Word)>, regs: RegFile)
    returns (ctx': Context)
    requires k.Valid() && k.initMailbox.Valid() && Linked(View(ctx, k))
    requires Possible(View(ctx, k), Device(tag, data, k.initMailbox.held, busy, scratch, regs))
    modifies k`mem, k.initMailbox, k.executor, k.executor.registry.Values`state, k.executor.registry.Values`future,
             k.executor.registry.Values`mailbox, k.executor.registry.Values`waker
    ensures k.Valid() && k.initMailbox.Valid()
    ensures View(ctx', k) ==
      Next(old(View(ctx, k)), Device(tag, data, old(k.initMailbox.held), busy, scratch, regs))
  {
    var saved := Enter(ctx, k.mem, k.tssRsp0, None);
    PossibleIsAllowed(View(ctx, k), Device(tag, data, k.initMailbox.held, busy, scratch, regs));
    ctx' := FinishDevice(ctx, k, saved, tag, data, busy, scratch, regs);
  }

  /** The system calls that use the caller's identity. */
  method IdentityCall(ctx: Context, k: Kernel, call: Event) returns (ctx': Context)
    requires k.Valid() && Linked(View(ctx, k)) && (call.Exit? || call.SetPriority? || call.RegisterService?)
    modifies k`services, k.executor.registry.Values`state, k.executor.registry.Values`priority
    ensures k.Valid() && View(ctx', k) == Next(old(View(ctx, k)), call)
  {
    var ret;
    match call {
      case Exit => ret := k.SysExitCall();
      case SetPriority(ticks) => ret := k.SysSetPriorityCall(ticks);
      case RegisterService(name) => ret := k.SysRegisterServiceCall(name);
    }
    ctx' := AfterSyscall(ctx, ret);
  }

  lemma SendNext(s: System, target: TaskId, ptr: int, msg: Message)
    requires Linked(s)
    ensures var (e', ret) := SysSend(s.exec, target, ptr, msg);
      var m := s.machine;
      var tasks := WithStates(m.sched.tasks, StatesAfter(m.sched.tasks, s.exec, e'));
      Next(s, SendTo(target, ptr, msg)) ==
        System(m.(ctx := AfterSyscall(m.ctx, ret), sched := m.sched.(tasks := tasks)), e', s.init)
  {
    PossibleIsAllowed(s, SendTo(target, ptr, msg));
  }

  /** SYS_SEND. */
  method SendCall(ctx: Context, k: Kernel, target: TaskId, ptr: int, msg: Message) returns (ctx': Context)
    requires k.Valid() && Linked(View(ctx, k))
    modifies k.executor`taskQueue, k.executor`lost, k.executor.registry.Values`state,
             k.executor.registry.Values`mailbox, k.executor.registry.Values`waker
    ensures k.Valid() && View(ctx', k) == Next(old(View(ctx, k)), SendTo(target, ptr, msg))
  {
    SendNext(View(ctx, k), target, ptr, msg);
    var ret := k.SysSendCall(target, ptr, msg);
    ctx' := AfterSyscall(ctx, ret);
  }

  lemma ReceiveNext(s: System, held: bool)
    requires Linked(s)
    ensures var ret := if !held && s.init.pending.Some? then 1 else 0;
      Next(s, ReceiveInit(held)) ==
        System(s.machine.(ctx := AfterSyscall(s.machine.ctx, ret)), s.exec, if held then s.init else s.init.Take())
  {
    PossibleIsAllowed(s, ReceiveInit(held));
    SameIsAllowed(s.machine.sched, s.exec);
  }

  /** SYS_RECV, with the message it writes to the caller's buffer. */
  method ReceiveCall(ctx: Context, k: Kernel) returns (ctx': Context, msg: Option<Message>)
    requires k.Valid() && k.initMailbox.Valid() && Linked(View(ctx, k))
    modifies k.initMailbox
    ensures k.Valid() && k.initMailbox.Valid()
    ensures View(ctx', k) == Next(old(View(ctx, k)), ReceiveInit(k.initMailbox.held))
    ensures msg == if k.initMailbox.held then None else old(k.initMailbox.slot.pending)
  {
    var ret;
    ghost var e := k.executor.Views();
    ReceiveNext(View(ctx, k), k.initMailbox.held);
    ret, msg := k.initMailbox.Receive();
    assert k.executor.Views() == e;
    ctx' := AfterSyscall(ctx, ret);
  }

  // ----- The start -----

  /** The executor at the end of the boot: ids 1 and 2 went to the processes, id 3 to the monitor task it was given. */
  function Booted(current: TaskId): Exec {
    Exec(map[3 := NewTask(3, [])], {3}, [3], {}, current, 4, 0)
  }

  lemma BootedTables(current: TaskId)
    ensures AsyncExecutor.Tables(Booted(current)) && Booted(current).registry.Keys == {3}
  {
    EmptyTraced();
  }

  lemma BootedTokens(current: TaskId)
    ensures Tokens.OneToken(Booted(current), None) && Tokens.SameTasks(Booted(current))
  {
    BootedTables(current);
  }

  /** The first drain after the boot finishes the monitor task: nobody is left, and its id is unknown from then on. */
  lemma MonitorFinishes(current: TaskId)
    ensures AsyncExecutor.Tables(Booted(current)) && Drain(Booted(current)) == Exec(map[], {}, [], {}, 0, 4, 0)
  {
    BootedTables(current);
    var s := Booted(current);
    RoundWorks(s);
    assert Round(s) == Exec(map[], {}, [], {}, 3, 4, 0);
  }

  function BootProcess(id: TaskId, base: int): Process {
    NewProcess(id, base, base + PROCESS_KSTACK_SIZE - FRAME_SIZE, base + PROCESS_KSTACK_SIZE)
  }

  function BootSched(baseA: int, baseB: int): Sched {
    Sched([BootProcess(1, baseA), BootProcess(2, baseB)], false, 0, 1, 0, baseA + PROCESS_KSTACK_SIZE, {3})
  }

  predicate BlocksApart(baseA: int, baseB: int) {
    baseA + PROCESS_KSTACK_SIZE <= baseB || baseB + PROCESS_KSTACK_SIZE <= baseA
  }

  lemma BootIsInvariant(mem: Mem, baseA: int, baseB: int, a: Context, b: Context)
    requires BlocksApart(baseA, baseB) && Frame(mem, BootProcess(2, baseB).kernelRsp, b)
    ensures V.Inv(V.Machine(a, mem, BootSched(baseA, baseB), map[]), [a, b])
  {
  }

  /** Both processes can run, with the default priority 5 and 32 KiB of kernel stack each. */
  lemma BootedAreReady(baseA: int, baseB: int)
    ensures var tasks := BootSched(baseA, baseB).tasks;
      forall i :: 0 <= i < 2 ==>
        IsReady(tasks, i) && tasks[i].priority == 5 && tasks[i].stackTop - tasks[i].stackBase == 32 * 1024
  {
  }

  lemma BootIsLinked(m: V.Machine, baseA: int, baseB: int)
    requires m.sched == BootSched(baseA, baseB) && V.Tables(m.sched)
    ensures Linked(System(m, Booted(1), EMPTY))
  {
    BootedTables(1);
    EmptyTraced();
  }

  /** Step 4: both processes, on the stacks the heap handed out; `ctx` is what popping A's frame gives. */
  method ForgeProcesses(
    executor: Executor, mem: Mem, baseA: int, baseB: int, entry: Word, stackA: Word, stackB: Word, regs: RegFile)
    returns (a: Task, b: Task, mem2: Mem, ctx: Context)
    requires BlocksApart(baseA, baseB) && executor.Valid() && executor.Snapshot() == Tokens.Initial(1)
    modifies executor`nextId
    ensures executor.Valid() && executor.Snapshot() == Tokens.Initial(3)
    ensures fresh(a) && fresh(b) && a.AsProcess() == BootProcess(1, baseA) && b.AsProcess() == BootProcess(2, baseB)
    ensures Frame(mem2, b.kernelRsp, InitialContext(entry, stackB)) && ctx == InitialContext(entry, stackA)
  {
    var mem1;
    var idA := executor.NewId();
    a, mem1 := CreateUserProcess(mem, idA, baseA, entry, stackA);
    var idB := executor.NewId();
    b, mem2 := CreateUserProcess(mem1, idB, baseB, entry, stackB);
    SecondForgeKeepsFirst(mem1, mem2, a.kernelRsp, InitialContext(entry, stackA), b.kernelRsp, b.stackTop, regs);
    ctx := Leave(regs, mem2, a.kernelRsp);
  }

  lemma SecondForgeKeepsFirst(
    mem1: Mem, mem2: Mem, rsp: int, c: Context, lo: int, hi: int, regs: RegFile)
    requires Frame(mem1, rsp, c) && OnlyWithin(mem1, mem2, lo, hi)
    requires rsp + FRAME_SIZE <= lo || hi <= rsp
    ensures Frame(mem2, rsp, c) && Leave(regs, mem2, rsp) == c
  {
    FrameStable(mem1, mem2, rsp, c);
    LeaveResumes(regs, mem2, rsp, c);
  }

  /** Step 5: the monitor task prints once and finishes. */
  method SpawnMonitor(executor: Executor, base: int)
    requires executor.Valid() && executor.Snapshot() == Tokens.Initial(3)
    modifies executor
    ensures executor.Valid() && executor.Snapshot() == Booted(0)
  {
    var id := executor.NewId();
    var monitor := new Task(id, [], base);
    var result := executor.SpawnTask(monitor);
    assert Spawn(Tokens.Initial(3).(nextId := 4), NewTask(3, [])) == AsyncExecutor.Running(Booted(0));
  }

  /**
    Steps 4, 5 and 7 of `kernel_main`: forge processes A and B, spawn the monitor task, make A current and pop its
    frame. The kernel starts inside every invariant: each process in its own initial context, both Ready, the two
    sides linked, and the wake-up protocol in force.
  */
  method KernelMain(
    mem: Mem, baseA: int, baseB: int, baseMonitor: int, entry: Word, stackA: Word, stackB: Word, regs: RegFile)
    returns (k: Kernel, ctx: Context)
    requires BlocksApart(baseA, baseB)
    ensures fresh(k) && k.Valid() && k.initMailbox.Valid()
    ensures k.Snapshot() == BootSched(baseA, baseB) && k.executor.Snapshot() == Booted(1)
    ensures V.Inv(View(ctx, k).machine, [InitialContext(entry, stackA), InitialContext(entry, stackB)])
    ensures StartsAt(ctx, entry, stackA) && StartsAt(InitialContext(entry, stackB), entry, stackB)
    ensures Linked(View(ctx, k)) && Tokens.OneToken(k.executor.Snapshot(), None) && Tokens.SameTasks(k.executor.Snapshot())
  {
    var executor := new Executor();
    var a, b, mem2;
    a, b, mem2, ctx := ForgeProcesses(executor, mem, baseA, baseB, entry, stackA, stackB, regs);
    SpawnMonitor(executor, baseMonitor);
    BootedTables(0);
    assert executor.registry.Keys == executor.Views().Keys;
    k := Ignite(executor, a, b, mem2);
    BootedTokens(1);
    InitialStarts(entry, stackA);
    InitialStarts(entry, stackB);
    BootIsInvariant(mem2, baseA, baseB, ctx, InitialContext(entry, stackB));
    BootIsLinked(View(ctx, k).machine, baseA, baseB);
  }

  /** Step 7, up to the jump. */
  method Ignite(executor: Executor, a: Task, b: Task, mem: Mem) returns (k: Kernel)
    requires executor.Valid() && AsyncExecutor.Tables(executor.Snapshot()) && executor.registry.Keys == {3}
    requires a.AsProcess() == BootProcess(1, a.stackBase) && b.AsProcess() == BootProcess(2, b.stackBase)
    modifies executor`currentTaskId
    ensures fresh(k) && k.Valid() && k.initMailbox.Valid() && k.initMailbox.slot == EMPTY
    ensures k.Snapshot() == BootSched(a.stackBase, b.stackBase) && k.mem == mem && k.services == map[]
    ensures k.executor == executor && executor.Snapshot() == old(executor.Snapshot()).(curId := 1)
  {
    var initMailbox := new InitMailbox();
    k := new Kernel([a, b], executor, mem, initMailbox);
    assert k.Views() == [a.AsProcess(), b.AsProcess()];
  }
}
