/**
  One processor, many tasks. The machine has a single register file, one TSS slot and one flat stack memory;
  its steps are ring-3 instructions, system calls, timer ticks, device interrupts and faults.
  The main theorem: every task that is not dead sees exactly the processor it would have had alone.
*/
module Virtualisation {
  import opened Options
  import opened Cpu
  import opened Trap
  import opened Tasks
  import opened Scheduler

  datatype Machine = Machine(ctx: Context, mem: Mem, sched: Sched, services: map<Word, TaskId>)

  /**
    `scratch` is whatever a handler's Rust frames write below the saved frame, `regs` what it leaves in
    the registers. `OtherCall` stands for every system call that does not use the caller's identity;
    a send among them may make a blocked task ready.
  */
  datatype Event =
    | User(f: Context -> Context)
    | Timer(poll: Poll, scratch: seq<(int, Word)>, regs: RegFile)
    | Device(poll: Poll, scratch: seq<(int, Word)>, regs: RegFile)
    | Fault(code: Word, scratch: seq<(int, Word)>, regs: RegFile)
    | Exit
    | SetPriority(ticks: nat)
    | RegisterService(name: Word)
    | OtherCall(ret: Word, states: seq<TaskState>)

  // ----- Steps -----

  function Scribble(mem: Mem, scratch: seq<(int, Word)>): Mem
    decreases |scratch|
  {
    if scratch == [] then mem else Scribble(Write(mem, scratch[0].0, scratch[0].1), scratch[1..])
  }

  function Resume(r: (Sched, int), mem: Mem, regs: RegFile, services: map<Word, TaskId>): Machine {
    Machine(Leave(regs, mem, r.1), mem, r.0, services)
  }

  function Running(m: Machine): Process
    requires WellFormed(m.sched)
  {
    m.sched.tasks[m.sched.cur]
  }

  /** What a system call returns in RAX. */
  function SyscallResult(m: Machine, e: Event): Word
    requires e.Exit? || e.SetPriority? || e.RegisterService? || e.OtherCall?
  {
    match e
    case SetPriority(_) => if m.sched.curId in m.sched.registry then 0 else 1
    case OtherCall(ret, _) => ret
    case _ => 0
  }

  /** The rest of a timer interrupt, from the state `k` in which the wrapper calls the handler. */
  function AfterTimer(m: Machine, k: State, poll: Poll, scratch: seq<(int, Word)>, regs: RegFile): Machine
    requires WellFormed(m.sched) && PollAllowed(m.sched, poll)
  {
    Resume(TimerInner(m.sched, poll, k.rsp), Scribble(k.mem, scratch), regs, m.services)
  }

  function AfterDevice(m: Machine, k: State, poll: Poll, scratch: seq<(int, Word)>, regs: RegFile): Machine
    requires PollAllowed(m.sched, poll)
  {
    Resume(DeviceInner(m.sched, poll, k.rsp), Scribble(k.mem, scratch), regs, m.services)
  }

  function AfterFault(m: Machine, k: State, scratch: seq<(int, Word)>, regs: RegFile): Machine
    requires WellFormed(m.sched)
  {
    Resume(FaultInner(m.sched, k.rsp), Scribble(k.mem, scratch), regs, m.services)
  }

  function Step(m: Machine, e: Event): Machine
    requires Allowed(m, e)
  {
    match e
    case User(f) => m.(ctx := f(m.ctx))
    case Timer(poll, scratch, regs) =>
      AfterTimer(m, Enter(m.ctx, m.mem, m.sched.rsp0, None), poll, scratch, regs)
    case Device(poll, scratch, regs) =>
      AfterDevice(m, Enter(m.ctx, m.mem, m.sched.rsp0, None), poll, scratch, regs)
    case Fault(code, scratch, regs) =>
      AfterFault(m, Enter(m.ctx, m.mem, m.sched.rsp0, Some(code)), scratch, regs)
    case Exit =>
      m.(ctx := AfterSyscall(m.ctx, SyscallResult(m, e)), sched := SysExit(m.sched))
    case SetPriority(ticks) =>
      m.(ctx := AfterSyscall(m.ctx, SyscallResult(m, e)), sched := SysSetPriority(m.sched, ticks))
    case RegisterService(name) =>
      m.(ctx := AfterSyscall(m.ctx, SyscallResult(m, e)), services := m.services[name := m.sched.curId])
    case OtherCall(_, states) =>
      m.(ctx := AfterSyscall(m.ctx, SyscallResult(m, e)),
         sched := m.sched.(tasks := WithStates(m.sched.tasks, states)))
  }

  /** A handler stays on the kernel stack it runs on: below its saved frame, above the stack's base. */
  ghost predicate Confined(scratch: seq<(int, Word)>, lo: int, hi: int) {
    forall i :: 0 <= i < |scratch| ==> lo <= scratch[i].0 && scratch[i].0 + 8 <= hi
  }

  /** There is someone to run: a Ready task, or a live plain successor. */
  ghost predicate Dispatchable(tasks: seq<Process>, cur: nat)
    requires cur < |tasks|
  {
    (exists w :: IsReady(tasks, w)) || tasks[Successor(cur, |tasks|)].state != Terminated
  }

  ghost predicate Allowed(m: Machine, e: Event) {
    && WellFormed(m.sched)
    && match e
       case Timer(poll, scratch, _) =>
         && PollAllowed(m.sched, poll)
         && Confined(scratch, Running(m).stackBase, Enter(m.ctx, m.mem, m.sched.rsp0, None).rsp)
         && Dispatchable(Polled(m.sched, poll).tasks, m.sched.cur)
       case Device(poll, scratch, _) =>
         && PollAllowed(m.sched, poll)
         && Confined(scratch, Running(m).stackBase, Enter(m.ctx, m.mem, m.sched.rsp0, None).rsp)
       case Fault(code, scratch, _) =>
         && Confined(scratch, Running(m).stackBase, Enter(m.ctx, m.mem, m.sched.rsp0, Some(code)).rsp)
         && Dispatchable(Kill(m.sched).tasks, m.sched.cur)
       case OtherCall(_, states) => StatesAllowed(m.sched, states)
       case _ => true
  }

  // ----- The invariant -----

  /** Kernel stacks are disjoint blocks with room for a frame. */
  ghost predicate StacksApart(tasks: seq<Process>) {
    && (forall i :: 0 <= i < |tasks| ==> tasks[i].stackBase + TASK_KSTACK_SIZE <= tasks[i].stackTop)
    && (forall i, j :: 0 <= i < j < |tasks| ==>
          tasks[i].stackTop <= tasks[j].stackBase || tasks[j].stackTop <= tasks[i].stackBase)
  }

  /** A suspended task: a complete frame of `c` at one of the two places a frame can be. */
  ghost predicate Parked(mem: Mem, t: Process, c: Context) {
    && (t.kernelRsp == t.stackTop - FRAME_SIZE || t.kernelRsp == AlignDown(t.stackTop) - FRAME_SIZE)
    && Frame(mem, t.kernelRsp, c)
  }

  ghost predicate OthersParked(mem: Mem, s: Sched, v: seq<Context>)
    requires |v| == |s.tasks|
  {
    forall i :: 0 <= i < |s.tasks| && i != s.cur && s.tasks[i].state != Terminated ==> Parked(mem, s.tasks[i], v[i])
  }

  /** The scheduler's tables make sense: what handlers may rely on, and what they keep. */
  ghost predicate Tables(s: Sched) {
    && WellFormed(s) && !s.held
    && StacksApart(s.tasks)
    && s.rsp0 == s.tasks[s.cur].stackTop
    && (forall i :: 0 <= i < |s.tasks| ==> s.tasks[i].id != 0)
    && (s.curId == 0 || s.curId == s.tasks[s.cur].id)
  }

  /** The machine is running task `cur`, and `v` is what each task's own processor holds. */
  ghost predicate Inv(m: Machine, v: seq<Context>) {
    && Tables(m.sched)
    && |v| == |m.sched.tasks|
    && m.ctx == v[m.sched.cur]
    && OthersParked(m.mem, m.sched, v)
  }

  // What an interrupt does to the scheduler's tables is what its handler does.

  lemma TimerHandled(m: Machine, e: Event) returns (rsp: int)
    requires Allowed(m, e) && e.Timer?
    ensures Step(m, e).sched == TimerInner(m.sched, e.poll, rsp).0
  {
    rsp := Enter(m.ctx, m.mem, m.sched.rsp0, None).rsp;
  }

  lemma DeviceHandled(m: Machine, e: Event)
    requires Allowed(m, e) && e.Device?
    ensures Step(m, e).sched == Polled(m.sched, e.poll)
  {
  }

  lemma FaultHandled(m: Machine, e: Event) returns (rsp: int)
    requires Allowed(m, e) && e.Fault?
    ensures Step(m, e).sched == FaultInner(m.sched, rsp).0
  {
    rsp := Enter(m.ctx, m.mem, m.sched.rsp0, Some(e.code)).rsp;
  }

  // ----- Each task alone -----

  /** What the running task itself does in one event: its instructions and its system calls, nothing else. */
  function OwnStep(m: Machine, e: Event): seq<Context -> Context> {
    match e
    case User(f) => [f]
    case Timer(_, _, _) => []
    case Device(_, _, _) => []
    case Fault(_, _, _) => []
    case _ => var ret := SyscallResult(m, e); [(c: Context) => AfterSyscall(c, ret)]
  }

  function Alone(c: Context, own: seq<Context -> Context>): Context
    decreases |own|
  {
    if own == [] then c else Alone(own[0](c), own[1..])
  }

  function Run(m: Machine, es: seq<Event>): Machine
    requires AllAllowed(m, es)
    decreases |es|
  {
    if es == [] then m else Run(Step(m, es[0]), es[1..])
  }

  ghost predicate AllAllowed(m: Machine, es: seq<Event>)
    decreases |es|
  {
    es != [] ==> Allowed(m, es[0]) && AllAllowed(Step(m, es[0]), es[1..])
  }

  /** Everything task `i` itself did in a run, in order. */
  function Own(m: Machine, es: seq<Event>, i: nat): seq<Context -> Context>
    requires AllAllowed(m, es)
    decreases |es|
  {
    if es == [] then []
    else (if m.sched.cur == i then OwnStep(m, es[0]) else []) + Own(Step(m, es[0]), es[1..], i)
  }

  function Solo(m: Machine, v: seq<Context>, es: seq<Event>): (r: seq<Context>)
    requires AllAllowed(m, es)
    ensures |r| == |v|
  {
    seq(|v|, i requires 0 <= i < |v| => Alone(v[i], Own(m, es, i)))
  }

  function VStep(m: Machine, v: seq<Context>, e: Event): (r: seq<Context>)
    requires m.sched.cur < |v|
    ensures |r| == |v|
  {
    v[m.sched.cur := Alone(v[m.sched.cur], OwnStep(m, e))]
  }

  // ----- Preservation -----

  lemma {:induction false} ScribbleWithin(mem: Mem, scratch: seq<(int, Word)>, lo: int, hi: int)
    requires Confined(scratch, lo, hi)
    ensures OnlyWithin(mem, Scribble(mem, scratch), lo, hi)
    decreases |scratch|
  {
    if scratch != [] {
      assert lo <= scratch[0].0 && scratch[0].0 + 8 <= hi;
      ScribbleWithin(Write(mem, scratch[0].0, scratch[0].1), scratch[1..], lo, hi);
    }
  }

  lemma ParkedStable(mem: Mem, mem': Mem, t: Process, c: Context)
    requires Parked(mem, t, c)
    requires t.stackBase + TASK_KSTACK_SIZE <= t.stackTop
    requires Agree(mem, mem', t.stackBase, t.stackTop)
    ensures Parked(mem', t, c)
  {
  }

  /** Everything an interrupt writes lies on the running task's own kernel stack. */
  lemma OwnStackOnly(m: Machine, error: Option<Word>, scratch: seq<(int, Word)>)
    requires Tables(m.sched)
    requires Confined(scratch, Running(m).stackBase, Enter(m.ctx, m.mem, m.sched.rsp0, error).rsp)
    ensures var k := Enter(m.ctx, m.mem, m.sched.rsp0, error);
      OnlyWithin(m.mem, Scribble(k.mem, scratch), Running(m).stackBase, Running(m).stackTop)
  {
    match error {
      case None => EnterSaves(m.ctx, m.mem, m.sched.rsp0);
      case Some(code) => FaultEnters(m.ctx, m.mem, m.sched.rsp0, code);
    }
    var k := Enter(m.ctx, m.mem, m.sched.rsp0, error);
    ScribbleWithin(k.mem, scratch, Running(m).stackBase, k.rsp);
  }

  lemma EntryKeepsOthers(m: Machine, v: seq<Context>, error: Option<Word>, scratch: seq<(int, Word)>)
    requires Inv(m, v)
    requires Confined(scratch, Running(m).stackBase, Enter(m.ctx, m.mem, m.sched.rsp0, error).rsp)
    ensures var k := Enter(m.ctx, m.mem, m.sched.rsp0, error);
      OthersParked(Scribble(k.mem, scratch), m.sched, v)
  {
    OwnStackOnly(m, error, scratch);
    var mem' := Scribble(Enter(m.ctx, m.mem, m.sched.rsp0, error).mem, scratch);
    forall i | 0 <= i < |m.sched.tasks| && i != m.sched.cur && m.sched.tasks[i].state != Terminated
      ensures Parked(mem', m.sched.tasks[i], v[i])
    {
      ParkedStable(m.mem, mem', m.sched.tasks[i], v[i]);
    }
  }

  /** The pick is alive whenever there is someone to run. */
  lemma PickIsLive(tasks: seq<Process>, cur: nat)
    requires cur < |tasks| && Dispatchable(tasks, cur)
    ensures tasks[Pick(tasks, cur)].state != Terminated
  {
    PickIsNearestReady(tasks, cur);
    if w :| IsReady(tasks, w) {
      assert IsReady(tasks, Pick(tasks, cur));
    }
  }

  /** The handler may return: `rsp` is a complete frame of the task that is now current. */
  ghost predicate Resumable(s: Sched, v: seq<Context>, mem: Mem, rsp: int) {
    && Tables(s) && |s.tasks| == |v|
    && OthersParked(mem, s, v)
    && Frame(mem, rsp, v[s.cur])
  }

  lemma EntrySavesRunning(m: Machine, v: seq<Context>, scratch: seq<(int, Word)>)
    requires Inv(m, v)
    requires Confined(scratch, Running(m).stackBase, Enter(m.ctx, m.mem, m.sched.rsp0, None).rsp)
    ensures var k := Enter(m.ctx, m.mem, m.sched.rsp0, None);
      && k.rsp == AlignDown(Running(m).stackTop) - FRAME_SIZE
      && Resumable(m.sched, v, Scribble(k.mem, scratch), k.rsp)
  {
    var k := Enter(m.ctx, m.mem, m.sched.rsp0, None);
    EntryKeepsOthers(m, v, None, scratch);
    EnterSaves(m.ctx, m.mem, m.sched.rsp0);
    ScribbleWithin(k.mem, scratch, Running(m).stackBase, k.rsp);
    FrameStable(k.mem, Scribble(k.mem, scratch), k.rsp, m.ctx);
  }

  lemma ResumeKeeps(r: (Sched, int), v: seq<Context>, mem: Mem, regs: RegFile, services: map<Word, TaskId>)
    requires Resumable(r.0, v, mem, r.1)
    ensures Inv(Resume(r, mem, regs, services), v)
  {
    LeaveResumes(regs, mem, r.1, v[r.0.cur]);
  }

  /**
    `schedule_next` on a memory in which the running task's frame lies at `rsp` (unless it has just been killed):
    the stack pointer it returns is a complete frame of the task that is now current.
  */
  lemma ScheduleResumes(s: Sched, v: seq<Context>, mem: Mem, rsp: int, force: bool)
    requires Tables(s) && |v| == |s.tasks| && OthersParked(mem, s, v)
    requires Dispatchable(s.tasks, s.cur)
    requires if force then s.tasks[s.cur].state == Terminated
             else rsp == AlignDown(s.tasks[s.cur].stackTop) - FRAME_SIZE && Frame(mem, rsp, v[s.cur])
    ensures var r := Schedule(s, rsp, force); Resumable(r.0, v, mem, r.1)
  {
    var next := Pick(s.tasks, s.cur);
    PickIsLive(s.tasks, s.cur);
    var (s', rsp') := Schedule(s, rsp, force);
    if s' != s {
      assert (s', rsp') == Dispatch(s, next, rsp);
      forall i | 0 <= i < |s'.tasks| && i != s'.cur && s'.tasks[i].state != Terminated
        ensures Parked(mem, s'.tasks[i], v[i])
      {
        if i != s.cur {
          assert s'.tasks[i] == s.tasks[i];
        }
      }
    }
  }

  lemma PolledKeeps(s: Sched, v: seq<Context>, mem: Mem, poll: Poll)
    requires Tables(s) && |v| == |s.tasks| && OthersParked(mem, s, v) && PollAllowed(s, poll)
    ensures var s' := Polled(s, poll); Tables(s') && |s'.tasks| == |s.tasks| && OthersParked(mem, s', v)
  {
  }

  lemma TimerResumes(s: Sched, v: seq<Context>, mem: Mem, rsp: int, poll: Poll)
    requires Resumable(s, v, mem, rsp) && rsp == AlignDown(s.tasks[s.cur].stackTop) - FRAME_SIZE
    requires PollAllowed(s, poll) && Dispatchable(Polled(s, poll).tasks, s.cur)
    ensures var r := TimerInner(s, poll, rsp); Resumable(r.0, v, mem, r.1)
  {
    var p := Polled(s, poll);
    PolledKeeps(s, v, mem, poll);
    var p1 := p.(ticks := p.ticks + 1);
    assert Tables(p1) && OthersParked(mem, p1, v);
    assert p1.tasks[p1.cur].stackTop == s.tasks[s.cur].stackTop;
    ScheduleResumes(p1, v, mem, rsp, false);
    assert TimerInner(s, poll, rsp) == Schedule(p1, rsp, false);
  }

  lemma FaultResumes(s: Sched, v: seq<Context>, mem: Mem, rsp: int)
    requires Tables(s) && |v| == |s.tasks| && OthersParked(mem, s, v)
    requires Dispatchable(Kill(s).tasks, s.cur)
    ensures var r := FaultInner(s, rsp); Resumable(r.0, v, mem, r.1)
  {
    var dead := Kill(s);
    assert forall i :: 0 <= i < |s.tasks| && i != s.cur ==> dead.tasks[i] == s.tasks[i];
    assert OthersParked(mem, dead, v);
    ScheduleResumes(dead, v, mem, rsp, true);
  }

  lemma AfterTimerKeeps(m: Machine, v: seq<Context>, k: State, poll: Poll, scratch: seq<(int, Word)>, regs: RegFile)
    requires Resumable(m.sched, v, Scribble(k.mem, scratch), k.rsp)
    requires k.rsp == AlignDown(m.sched.tasks[m.sched.cur].stackTop) - FRAME_SIZE
    requires PollAllowed(m.sched, poll) && Dispatchable(Polled(m.sched, poll).tasks, m.sched.cur)
    ensures Inv(AfterTimer(m, k, poll, scratch, regs), v)
  {
    TimerResumes(m.sched, v, Scribble(k.mem, scratch), k.rsp, poll);
    ResumeKeeps(TimerInner(m.sched, poll, k.rsp), v, Scribble(k.mem, scratch), regs, m.services);
  }

  lemma AfterDeviceKeeps(m: Machine, v: seq<Context>, k: State, poll: Poll, scratch: seq<(int, Word)>, regs: RegFile)
    requires Resumable(m.sched, v, Scribble(k.mem, scratch), k.rsp)
    requires PollAllowed(m.sched, poll)
    ensures Inv(AfterDevice(m, k, poll, scratch, regs), v)
  {
    PolledKeeps(m.sched, v, Scribble(k.mem, scratch), poll);
    ResumeKeeps(DeviceInner(m.sched, poll, k.rsp), v, Scribble(k.mem, scratch), regs, m.services);
  }

  lemma AfterFaultKeeps(m: Machine, v: seq<Context>, k: State, scratch: seq<(int, Word)>, regs: RegFile)
    requires Tables(m.sched) && |v| == |m.sched.tasks|
    requires OthersParked(Scribble(k.mem, scratch), m.sched, v)
    requires Dispatchable(Kill(m.sched).tasks, m.sched.cur)
    ensures Inv(AfterFault(m, k, scratch, regs), v)
  {
    FaultResumes(m.sched, v, Scribble(k.mem, scratch), k.rsp);
    ResumeKeeps(FaultInner(m.sched, k.rsp), v, Scribble(k.mem, scratch), regs, m.services);
  }

  lemma TimerKeeps(m: Machine, v: seq<Context>, poll: Poll, scratch: seq<(int, Word)>, regs: RegFile)
    requires Inv(m, v) && Allowed(m, Timer(poll, scratch, regs))
    ensures Inv(Step(m, Timer(poll, scratch, regs)), v)
  {
    EntrySavesRunning(m, v, scratch);
    AfterTimerKeeps(m, v, Enter(m.ctx, m.mem, m.sched.rsp0, None), poll, scratch, regs);
  }

  lemma DeviceKeeps(m: Machine, v: seq<Context>, poll: Poll, scratch: seq<(int, Word)>, regs: RegFile)
    requires Inv(m, v) && Allowed(m, Device(poll, scratch, regs))
    ensures Inv(Step(m, Device(poll, scratch, regs)), v)
  {
    EntrySavesRunning(m, v, scratch);
    AfterDeviceKeeps(m, v, Enter(m.ctx, m.mem, m.sched.rsp0, None), poll, scratch, regs);
  }

  lemma FaultKeeps(m: Machine, v: seq<Context>, code: Word, scratch: seq<(int, Word)>, regs: RegFile)
    requires Inv(m, v) && Allowed(m, Fault(code, scratch, regs))
    ensures Inv(Step(m, Fault(code, scratch, regs)), v)
  {
    EntryKeepsOthers(m, v, Some(code), scratch);
    AfterFaultKeeps(m, v, Enter(m.ctx, m.mem, m.sched.rsp0, Some(code)), scratch, regs);
  }

  /** An interrupt is not an own step of any task. */
  lemma InterruptsAreNobodys(m: Machine, v: seq<Context>, e: Event)
    requires m.sched.cur < |v| && (e.Timer? || e.Device? || e.Fault?)
    ensures VStep(m, v, e) == v
  {
  }

  lemma UserKeeps(m: Machine, v: seq<Context>, f: Context -> Context)
    requires Inv(m, v) && Allowed(m, User(f))
    ensures Inv(Step(m, User(f)), VStep(m, v, User(f)))
  {
    assert Alone(v[m.sched.cur], [f]) == f(v[m.sched.cur]);
    assert forall i :: 0 <= i < |v| && i != m.sched.cur ==> VStep(m, v, User(f))[i] == v[i];
  }

  /** A system call may change states and priorities of tasks, but nothing the switch depends on. */
  ghost predicate SameStacks(s: Sched, s': Sched) {
    && |s'.tasks| == |s.tasks|
    && s' == s.(tasks := s'.tasks)
    && forall i :: 0 <= i < |s.tasks| ==>
         && s'.tasks[i].id == s.tasks[i].id
         && s'.tasks[i].kernelRsp == s.tasks[i].kernelRsp
         && s'.tasks[i].stackBase == s.tasks[i].stackBase && s'.tasks[i].stackTop == s.tasks[i].stackTop
         && (s.tasks[i].state == Terminated ==> s'.tasks[i].state == Terminated)
  }

  lemma SameStacksKeep(m: Machine, v: seq<Context>, s': Sched, ret: Word, services: map<Word, TaskId>)
    requires Inv(m, v) && SameStacks(m.sched, s')
    ensures Inv(Machine(AfterSyscall(m.ctx, ret), m.mem, s', services),
                v[m.sched.cur := AfterSyscall(v[m.sched.cur], ret)])
  {
  }

  lemma SyscallSameStacks(m: Machine, e: Event)
    requires Tables(m.sched) && Allowed(m, e)
    requires e.Exit? || e.SetPriority? || e.RegisterService? || e.OtherCall?
    ensures SameStacks(m.sched, Step(m, e).sched)
  {
  }

  lemma SyscallKeeps(m: Machine, v: seq<Context>, e: Event)
    requires Inv(m, v) && Allowed(m, e)
    requires e.Exit? || e.SetPriority? || e.RegisterService? || e.OtherCall?
    ensures Inv(Step(m, e), VStep(m, v, e))
  {
    var ret := SyscallResult(m, e);
    var m' := Step(m, e);
    assert Alone(v[m.sched.cur], OwnStep(m, e)) == AfterSyscall(v[m.sched.cur], ret);
    SyscallSameStacks(m, e);
    SameStacksKeep(m, v, m'.sched, ret, m'.services);
  }

  /** Every step keeps the invariant, and moves each task's own processor only by the task's own doing. */
  lemma StepKeeps(m: Machine, v: seq<Context>, e: Event)
    requires Inv(m, v) && Allowed(m, e)
    ensures Inv(Step(m, e), VStep(m, v, e))
  {
    match e {
      case User(f) =>
        UserKeeps(m, v, f);
      case Timer(poll, scratch, regs) =>
        InterruptsAreNobodys(m, v, e);
        TimerKeeps(m, v, poll, scratch, regs);
      case Device(poll, scratch, regs) =>
        InterruptsAreNobodys(m, v, e);
        DeviceKeeps(m, v, poll, scratch, regs);
      case Fault(code, scratch, regs) =>
        InterruptsAreNobodys(m, v, e);
        FaultKeeps(m, v, code, scratch, regs);
      case _ =>
        SyscallKeeps(m, v, e);
    }
  }

  /**
    CPU virtualisation. After any run, the processor holds what the running task's own instructions and
    system calls, run alone from its own starting context, would have left there; every other live task's
    kernel stack holds the same for it. Timer ticks, devices, faults and the other tasks are invisible.
  */
  lemma {:induction false} VirtualCpus(m: Machine, v: seq<Context>, es: seq<Event>)
    requires Inv(m, v) && AllAllowed(m, es)
    ensures Inv(Run(m, es), Solo(m, v, es))
    decreases |es|
  {
    if es == [] {
      assert Solo(m, v, es) == v;
    } else {
      var m' := Step(m, es[0]);
      var v' := VStep(m, v, es[0]);
      StepKeeps(m, v, es[0]);
      VirtualCpus(m', v', es[1..]);
      forall i | 0 <= i < |v|
        ensures Solo(m', v', es[1..])[i] == Solo(m, v, es)[i]
      {
        AloneAppend(v[i], if m.sched.cur == i then OwnStep(m, es[0]) else [], Own(m', es[1..], i));
      }
      assert Solo(m', v', es[1..]) == Solo(m, v, es);
    }
  }

  lemma {:induction false} AloneAppend(c: Context, own: seq<Context -> Context>, more: seq<Context -> Context>)
    ensures Alone(c, own + more) == Alone(Alone(c, own), more)
    decreases |own|
  {
    if own == [] {
      assert own + more == more;
    } else {
      assert (own + more)[1..] == own[1..] + more;
      AloneAppend(own[0](c), own[1..], more);
    }
  }

  // ----- Faults and death -----

  /** The task that is current after a fault is alive exactly when there was someone to run. */
  lemma FaultLeavesTheDeadIff(s: Sched, rsp: int)
    requires Tables(s)
    ensures var r := FaultInner(s, rsp).0;
      r.tasks[r.cur].state != Terminated <==> Dispatchable(Kill(s).tasks, s.cur)
  {
    PickIsNearestReady(Kill(s).tasks, s.cur);
    if Dispatchable(Kill(s).tasks, s.cur) {
      PickIsLive(Kill(s).tasks, s.cur);
    }
  }

  /**
    The comments promise that a fault never returns to the faulting context. It returns to the faulting task exactly
    when there is no other one; the frame it resumes there is the fault's own.
  */
  lemma FaultReturnsIff(s: Sched, rsp: int)
    requires Tables(s)
    ensures FaultInner(s, rsp).0.cur == s.cur <==> |s.tasks| == 1
    ensures |s.tasks| == 1 ==> FaultInner(s, rsp).1 == rsp && FaultInner(s, rsp).0.curId == s.tasks[s.cur].id
  {
    PickIsNearestReady(Kill(s).tasks, s.cur);
  }

  /** The machine after a fault, whether or not there is anyone left to run. */
  function Faulted(m: Machine, code: Word, scratch: seq<(int, Word)>, regs: RegFile): Machine
    requires WellFormed(m.sched)
  {
    AfterFault(m, Enter(m.ctx, m.mem, m.sched.rsp0, Some(code)), scratch, regs)
  }

  ghost predicate FaultConfined(m: Machine, code: Word, scratch: seq<(int, Word)>)
    requires WellFormed(m.sched)
  {
    Confined(scratch, Running(m).stackBase, Enter(m.ctx, m.mem, m.sched.rsp0, Some(code)).rsp)
  }

  /** What a context reads as from the frame of a fault: one word askew, so that RIP is the error code. */
  function Askew(c: Context, code: Word): Context {
    Context(c.gpr, code, c.rip, c.cs, c.rflags, c.rsp)
  }

  /** A fault leaves the askew frame on the stack of the task that it kills. */
  lemma FaultLeavesAskew(m: Machine, code: Word, scratch: seq<(int, Word)>)
    requires Tables(m.sched) && FaultConfined(m, code, scratch)
    ensures var k := Enter(m.ctx, m.mem, m.sched.rsp0, Some(code));
      && k.rsp == AlignDown(Running(m).stackTop) - FRAME_SIZE - 8
      && Frame(Scribble(k.mem, scratch), k.rsp, Askew(m.ctx, code))
  {
    var k := Enter(m.ctx, m.mem, m.sched.rsp0, Some(code));
    FaultEnters(m.ctx, m.mem, m.sched.rsp0, code);
    ScribbleWithin(k.mem, scratch, Running(m).stackBase, k.rsp);
    FrameStable(k.mem, Scribble(k.mem, scratch), k.rsp, Askew(m.ctx, code));
  }

  /** A single task that faults "resumes" at its own error code. */
  lemma LoneFaultJumpsToErrorCode(m: Machine, code: Word, scratch: seq<(int, Word)>, regs: RegFile)
    requires Tables(m.sched) && |m.sched.tasks| == 1 && FaultConfined(m, code, scratch)
    ensures Faulted(m, code, scratch, regs).ctx == Askew(m.ctx, code)
  {
    var k := Enter(m.ctx, m.mem, m.sched.rsp0, Some(code));
    FaultLeavesAskew(m, code, scratch);
    FaultReturnsIff(m.sched, k.rsp);
    LeaveResumes(regs, Scribble(k.mem, scratch), k.rsp, Askew(m.ctx, code));
  }

  /** Task `i` is suspended, alive or not, on a frame of `d` within its own kernel stack. */
  ghost predicate Suspended(mem: Mem, s: Sched, i: nat, d: Context) {
    && i < |s.tasks| && i != s.cur
    && s.tasks[i].stackBase <= s.tasks[i].kernelRsp
    && s.tasks[i].kernelRsp + FRAME_SIZE <= s.tasks[i].stackTop
    && Frame(mem, s.tasks[i].kernelRsp, d)
  }

  lemma InterruptKeepsSuspended(m: Machine, error: Option<Word>, scratch: seq<(int, Word)>, i: nat, d: Context)
    requires Tables(m.sched) && Suspended(m.mem, m.sched, i, d)
    requires Confined(scratch, Running(m).stackBase, Enter(m.ctx, m.mem, m.sched.rsp0, error).rsp)
    ensures Suspended(Scribble(Enter(m.ctx, m.mem, m.sched.rsp0, error).mem, scratch), m.sched, i, d)
  {
    OwnStackOnly(m, error, scratch);
    FrameStable(m.mem, Scribble(Enter(m.ctx, m.mem, m.sched.rsp0, error).mem, scratch), m.sched.tasks[i].kernelRsp, d);
  }

  /** No step of the scheduler moves the saved stack pointer of a task that is not running. */
  ghost predicate SavedKept(s: Sched, s': Sched) {
    && |s'.tasks| == |s.tasks|
    && forall i :: 0 <= i < |s.tasks| && i != s.cur ==>
         && s'.tasks[i].kernelRsp == s.tasks[i].kernelRsp
         && s'.tasks[i].stackBase == s.tasks[i].stackBase && s'.tasks[i].stackTop == s.tasks[i].stackTop
  }

  lemma TimerSaves(s: Sched, poll: Poll, rsp: int)
    requires Tables(s) && PollAllowed(s, poll)
    ensures SavedKept(s, TimerInner(s, poll, rsp).0)
  {
  }

  lemma FaultSaves(s: Sched, rsp: int)
    requires Tables(s)
    ensures SavedKept(s, FaultInner(s, rsp).0)
  {
  }

  lemma ResumeKeepsSuspended(
    m: Machine, error: Option<Word>, scratch: seq<(int, Word)>, s': Sched, i: nat, d: Context)
    requires Tables(m.sched) && Suspended(m.mem, m.sched, i, d)
    requires Confined(scratch, Running(m).stackBase, Enter(m.ctx, m.mem, m.sched.rsp0, error).rsp)
    requires SavedKept(m.sched, s') && s'.cur != i
    ensures Suspended(Scribble(Enter(m.ctx, m.mem, m.sched.rsp0, error).mem, scratch), s', i, d)
  {
    InterruptKeepsSuspended(m, error, scratch, i, d);
  }

  lemma InterruptSuspends(m: Machine, e: Event, i: nat, d: Context)
    requires Tables(m.sched) && Allowed(m, e) && Suspended(m.mem, m.sched, i, d)
    requires e.Timer? || e.Device? || e.Fault?
    requires Step(m, e).sched.cur != i
    ensures Suspended(Step(m, e).mem, Step(m, e).sched, i, d)
  {
    var s' := Step(m, e).sched;
    if e.Timer? {
      TimerSaves(m.sched, e.poll, Enter(m.ctx, m.mem, m.sched.rsp0, None).rsp);
      ResumeKeepsSuspended(m, None, e.scratch, s', i, d);
    } else if e.Device? {
      assert s' == Polled(m.sched, e.poll);
      ResumeKeepsSuspended(m, None, e.scratch, s', i, d);
    } else {
      FaultSaves(m.sched, Enter(m.ctx, m.mem, m.sched.rsp0, Some(e.code)).rsp);
      ResumeKeepsSuspended(m, Some(e.code), e.scratch, s', i, d);
    }
  }

  /** The frame of a suspended task that is not dispatched outlives every step. */
  lemma StepKeepsSuspended(m: Machine, e: Event, i: nat, d: Context)
    requires Tables(m.sched) && Allowed(m, e) && Suspended(m.mem, m.sched, i, d)
    requires Step(m, e).sched.cur != i
    ensures Suspended(Step(m, e).mem, Step(m, e).sched, i, d)
  {
    if e.Timer? || e.Device? || e.Fault? {
      InterruptSuspends(m, e, i, d);
    } else if !e.User? {
      SyscallSameStacks(m, e);
    }
  }

  /** No dead task is revived, and none is made current. */
  ghost predicate Outlives(s: Sched, s': Sched)
    requires WellFormed(s)
  {
    && |s'.tasks| == |s.tasks|
    && forall i :: 0 <= i < |s.tasks| && s.tasks[i].state == Terminated ==>
         s'.tasks[i].state == Terminated && (s.cur != i ==> s'.cur != i)
  }

  lemma ScheduleOutlives(s: Sched, rsp: int, force: bool)
    requires WellFormed(s) && !s.held && Dispatchable(s.tasks, s.cur)
    requires force ==> s.tasks[s.cur].state == Terminated
    ensures var s' := Schedule(s, rsp, force).0;
      Outlives(s, s') && s'.cur < |s'.tasks| && s'.tasks[s'.cur].state != Terminated
  {
    PickIsLive(s.tasks, s.cur);
  }

  /** After a timer tick or a fault the processor never runs a dead task, and no task has come back to life. */
  lemma SwitchLeavesTheDead(m: Machine, e: Event)
    requires Tables(m.sched) && Allowed(m, e) && (e.Timer? || e.Fault?)
    ensures var s := Step(m, e).sched;
      Outlives(m.sched, s) && s.cur < |s.tasks| && s.tasks[s.cur].state != Terminated
  {
    match e {
      case Timer(poll, scratch, regs) => TimerOutlives(m.sched, poll, Enter(m.ctx, m.mem, m.sched.rsp0, None).rsp);
      case Fault(code, scratch, regs) => FaultOutlives(m.sched, Enter(m.ctx, m.mem, m.sched.rsp0, Some(code)).rsp);
    }
  }

  lemma TimerOutlives(s: Sched, poll: Poll, rsp: int)
    requires Tables(s) && PollAllowed(s, poll) && Dispatchable(Polled(s, poll).tasks, s.cur)
    ensures var s' := TimerInner(s, poll, rsp).0;
      Outlives(s, s') && s'.cur < |s'.tasks| && s'.tasks[s'.cur].state != Terminated
  {
    var p := Polled(s, poll);
    var p1 := p.(ticks := p.ticks + 1);
    assert Outlives(s, p1);
    assert UniqueIds(p1.tasks);
    ScheduleOutlives(p1, rsp, false);
  }

  lemma FaultOutlives(s: Sched, rsp: int)
    requires Tables(s) && Dispatchable(Kill(s).tasks, s.cur)
    ensures var s' := FaultInner(s, rsp).0;
      Outlives(s, s') && s'.cur < |s'.tasks| && s'.tasks[s'.cur].state != Terminated
  {
    assert UniqueIds(Kill(s).tasks);
    ScheduleOutlives(Kill(s), rsp, true);
  }

  lemma StepOutlives(m: Machine, e: Event)
    requires Tables(m.sched) && Allowed(m, e)
    ensures Outlives(m.sched, Step(m, e).sched)
  {
    if e.Timer? || e.Fault? {
      SwitchLeavesTheDead(m, e);
    } else if !e.User? && !e.Device? {
      SyscallSameStacks(m, e);
    }
  }

  /** Termination is final: a dead task that is not running is never revived and never executes again. */
  lemma {:induction false} DeadStayDead(m: Machine, v: seq<Context>, es: seq<Event>, i: nat)
    requires Inv(m, v) && AllAllowed(m, es)
    requires i < |m.sched.tasks| && m.sched.tasks[i].state == Terminated && m.sched.cur != i
    ensures var s := Run(m, es).sched;
      Tables(s) && |s.tasks| == |m.sched.tasks| && s.tasks[i].state == Terminated && s.cur != i
    ensures Own(m, es, i) == []
    decreases |es|
  {
    if es != [] {
      StepOutlives(m, es[0]);
      StepKeeps(m, v, es[0]);
      DeadStayDead(Step(m, es[0]), VStep(m, v, es[0]), es[1..], i);
    }
  }

  /** The frame of a dead task stays where it is for the rest of the run. */
  lemma {:induction false} DeadFrameStays(m: Machine, v: seq<Context>, es: seq<Event>, i: nat, d: Context)
    requires Inv(m, v) && AllAllowed(m, es) && Suspended(m.mem, m.sched, i, d)
    requires m.sched.tasks[i].state == Terminated
    ensures Suspended(Run(m, es).mem, Run(m, es).sched, i, d)
    decreases |es|
  {
    if es != [] {
      StepOutlives(m, es[0]);
      StepKeepsSuspended(m, es[0], i, d);
      StepKeeps(m, v, es[0]);
      DeadFrameStays(Step(m, es[0]), VStep(m, v, es[0]), es[1..], i, d);
    }
  }

  /** A fault with nobody Ready resumes the plain successor from whatever frame it has, alive or not. */
  lemma FaultFallsThrough(m: Machine, code: Word, scratch: seq<(int, Word)>, regs: RegFile, d: Context)
    requires Tables(m.sched) && FaultConfined(m, code, scratch)
    requires forall w :: !IsReady(Kill(m.sched).tasks, w)
    requires Suspended(m.mem, m.sched, Successor(m.sched.cur, |m.sched.tasks|), d)
    ensures var m' := Faulted(m, code, scratch, regs);
      m'.sched.cur == Successor(m.sched.cur, |m.sched.tasks|) && m'.ctx == d
  {
    var k := Enter(m.ctx, m.mem, m.sched.rsp0, Some(code));
    var i := Successor(m.sched.cur, |m.sched.tasks|);
    InterruptKeepsSuspended(m, Some(code), scratch, i, d);
    FaultPicksSuccessor(m.sched, k.rsp);
    LeaveResumes(regs, Scribble(k.mem, scratch), m.sched.tasks[i].kernelRsp, d);
  }

  lemma FaultPicksSuccessor(s: Sched, rsp: int)
    requires Tables(s) && (forall w :: !IsReady(Kill(s).tasks, w)) && Successor(s.cur, |s.tasks|) != s.cur
    ensures var next := Successor(s.cur, |s.tasks|);
      FaultInner(s, rsp).0.cur == next && FaultInner(s, rsp).1 == s.tasks[next].kernelRsp
  {
    PickIsNearestReady(Kill(s).tasks, s.cur);
  }

  /** After a fault that had someone to switch to, the dead task is suspended on its askew frame. */
  lemma FaultSuspendsAskew(m: Machine, code: Word, scratch: seq<(int, Word)>, regs: RegFile)
    requires Tables(m.sched) && Allowed(m, Fault(code, scratch, regs))
    ensures var m' := Step(m, Fault(code, scratch, regs));
      && Suspended(m'.mem, m'.sched, m.sched.cur, Askew(m.ctx, code))
      && m'.sched.tasks[m.sched.cur].state == Terminated
  {
    var k := Enter(m.ctx, m.mem, m.sched.rsp0, Some(code));
    FaultLeavesAskew(m, code, scratch);
    PickIsLive(Kill(m.sched).tasks, m.sched.cur);
    FaultParks(m.sched, k.rsp);
  }

  lemma FaultParks(s: Sched, rsp: int)
    requires Tables(s) && Dispatchable(Kill(s).tasks, s.cur)
    ensures var r := FaultInner(s, rsp).0;
      && r.cur != s.cur && |r.tasks| == |s.tasks|
      && r.tasks[s.cur] == s.tasks[s.cur].(state := Terminated, kernelRsp := rsp)
  {
    PickIsLive(Kill(s).tasks, s.cur);
  }

  /**
    The second fault. When a task faulted earlier, and later another one faults with nobody left to run and the dead one
    next in line, the processor is given the dead task's askew frame: it runs on from its old error code.
  */
  lemma SecondFaultResumesTheDead(
    m: Machine, v: seq<Context>, first: Event, es: seq<Event>, code: Word, scratch: seq<(int, Word)>, regs: RegFile)
    requires Inv(m, v) && first.Fault? && AllAllowed(m, [first] + es)
    requires var m2 := Run(m, [first] + es);
      && Tables(m2.sched) && FaultConfined(m2, code, scratch)
      && (forall w :: !IsReady(Kill(m2.sched).tasks, w))
      && Successor(m2.sched.cur, |m2.sched.tasks|) == m.sched.cur
    ensures var m3 := Faulted(Run(m, [first] + es), code, scratch, regs);
      m3.sched.cur == m.sched.cur && m3.ctx == Askew(m.ctx, first.code)
  {
    assert ([first] + es)[1..] == es;
    var m1 := Step(m, first);
    FaultSuspendsAskew(m, first.code, first.scratch, first.regs);
    StepKeeps(m, v, first);
    DeadFrameStays(m1, VStep(m, v, first), es, m.sched.cur, Askew(m.ctx, first.code));
    FaultFallsThrough(Run(m1, es), code, scratch, regs, Askew(m.ctx, first.code));
  }

  lemma OtherOfTwo(s: Sched, i: nat)
    requires Tables(s) && |s.tasks| == 2 && i < 2 && s.cur != i && s.tasks[i].state == Terminated
    ensures (forall w :: !IsReady(Kill(s).tasks, w)) && Successor(s.cur, 2) == i
  {
  }

  /**
    So it always is with two processes, the number that `kernel_main` starts: once one has faulted, a fault of
    the other, whenever it comes, runs the first one again, from its error code.
  */
  lemma SecondOfTwoFaultsResumesTheFirst(
    m: Machine, v: seq<Context>, first: Event, es: seq<Event>, code: Word, scratch: seq<(int, Word)>, regs: RegFile)
    requires Inv(m, v) && |m.sched.tasks| == 2 && first.Fault? && AllAllowed(m, [first] + es)
    ensures var m2 := Run(m, [first] + es);
      && Tables(m2.sched) && m2.sched.cur != m.sched.cur
      && (FaultConfined(m2, code, scratch) ==>
            var m3 := Faulted(m2, code, scratch, regs);
            m3.sched.cur == m.sched.cur && m3.ctx == Askew(m.ctx, first.code))
  {
    assert ([first] + es)[1..] == es;
    var m1 := Step(m, first);
    FaultSuspendsAskew(m, first.code, first.scratch, first.regs);
    StepKeeps(m, v, first);
    DeadStayDead(m1, VStep(m, v, first), es, m.sched.cur);
    var m2 := Run(m1, es);
    assert m2 == Run(m, [first] + es);
    OtherOfTwo(m2.sched, m.sched.cur);
    if FaultConfined(m2, code, scratch) {
      SecondFaultResumesTheDead(m, v, first, es, code, scratch, regs);
    }
  }

  /** In particular right after the boot, when both processes are Ready: two faults in a row do it. */
  lemma TwoFaultsFromBoot(
    m: Machine, v: seq<Context>, code1: Word, scratch1: seq<(int, Word)>, regs1: RegFile,
    code2: Word, scratch2: seq<(int, Word)>, regs2: RegFile)
    requires Inv(m, v) && |m.sched.tasks| == 2 && IsReady(m.sched.tasks, 0) && IsReady(m.sched.tasks, 1)
    requires FaultConfined(m, code1, scratch1)
    ensures Allowed(m, Fault(code1, scratch1, regs1))
    ensures var m1 := Step(m, Fault(code1, scratch1, regs1));
      && Inv(m1, v)
      && (FaultConfined(m1, code2, scratch2) ==>
            Faulted(m1, code2, scratch2, regs2).ctx == Askew(m.ctx, code1))
  {
    OtherIsReady(m.sched);
    var m1 := Step(m, Fault(code1, scratch1, regs1));
    FaultKeeps(m, v, code1, scratch1, regs1);
    FaultSuspendsAskew(m, code1, scratch1, regs1);
    OtherOfTwo(m1.sched, m.sched.cur);
    if FaultConfined(m1, code2, scratch2) {
      FaultFallsThrough(m1, code2, scratch2, regs2, Askew(m.ctx, code1));
    }
  }

  lemma OtherIsReady(s: Sched)
    requires Tables(s) && |s.tasks| == 2 && IsReady(s.tasks, 0) && IsReady(s.tasks, 1)
    ensures Dispatchable(Kill(s).tasks, s.cur)
  {
    assert IsReady(Kill(s).tasks, Successor(s.cur, 2));
  }

  // ----- Who is calling -----

  /**
    A system call that uses the caller's identity touches no other process, and the service registry
    only ever learns 0 or the running process's id.
  */
  lemma CallersActForThemselves(m: Machine, v: seq<Context>, e: Event)
    requires Inv(m, v) && Allowed(m, e) && (e.Exit? || e.SetPriority? || e.RegisterService?)
    ensures var m' := Step(m, e);
      && |m'.sched.tasks| == |m.sched.tasks|
      && (forall i :: 0 <= i < |m.sched.tasks| && i != m.sched.cur ==> m'.sched.tasks[i] == m.sched.tasks[i])
      && (forall name :: name in m'.services && !(name in m.services && m.services[name] == m'.services[name]) ==>
            m'.services[name] == 0 || m'.services[name] == Running(m).id)
  {
  }

  /**
    SYS_EXIT is documented to end the calling process. It does so exactly when CURRENT_TASK_ID has not been
    reset to 0 by a drain since the last switch, and the process is in the registry.
  */
  lemma ExitEndsCallerIff(m: Machine, v: seq<Context>)
    requires Inv(m, v) && Running(m).state != Terminated
    ensures Step(m, Exit).sched.tasks[m.sched.cur].state == Terminated
      <==> m.sched.curId != 0 && m.sched.curId in m.sched.registry
  {
  }

  /** SYS_SET_PRIORITY changes the caller's slice under the same condition, and reports which it was. */
  lemma SetPriorityAppliesIff(m: Machine, v: seq<Context>, ticks: nat)
    requires Inv(m, v)
    ensures var m' := Step(m, SetPriority(ticks));
      var applies := m.sched.curId != 0 && m.sched.curId in m.sched.registry;
      && Running(m').priority == (if applies then ticks else Running(m).priority)
      && (0 !in m.sched.registry ==> m'.ctx.gpr.Get(RAX) == if applies then 0 else 1)
  {
  }

  /**
    SYS_REG_SERVICE publishes the running process under the name, or id 0 once a drain has reset the caller's
    identity; services under other names stay.
  */
  lemma RegisterPublishesCaller(m: Machine, v: seq<Context>, name: Word)
    requires Inv(m, v)
    ensures var m' := Step(m, RegisterService(name));
      && name in m'.services && m'.services[name] == (if m.sched.curId != 0 then Running(m).id else 0)
      && (forall other :: other != name ==> (other in m'.services <==> other in m.services))
      && (forall other :: other != name && other in m.services ==> m'.services[other] == m.services[other])
  {
  }

  predicate Drains(e: Event) {
    (e.Timer? || e.Device?) && e.poll.Drained?
  }

  /** Whom the kernel takes for the caller: after a switch the new task, after a drain without one nobody. */
  ghost predicate Identified(s: Sched, s': Sched, drained: bool) {
    && s'.cur < |s'.tasks|
    && s'.curId == (if s'.cur != s.cur then s'.tasks[s'.cur].id else if drained then 0 else s.curId)
    && s'.registry <= s.registry
  }

  lemma ScheduleIdentifies(s: Sched, rsp: int, force: bool)
    requires WellFormed(s) && !s.held && Dispatchable(s.tasks, s.cur)
    requires force ==> s.tasks[s.cur].state == Terminated
    ensures Identified(s, Schedule(s, rsp, force).0, false)
  {
    PickIsLive(s.tasks, s.cur);
  }

  lemma TimerIdentifies(s: Sched, poll: Poll, rsp: int)
    requires Tables(s) && PollAllowed(s, poll) && Dispatchable(Polled(s, poll).tasks, s.cur)
    ensures Identified(s, TimerInner(s, poll, rsp).0, poll.Drained?)
  {
    var p := Polled(s, poll);
    var p1 := p.(ticks := p.ticks + 1);
    assert UniqueIds(p1.tasks);
    ScheduleIdentifies(p1, rsp, false);
  }

  lemma FaultIdentifies(s: Sched, rsp: int)
    requires Tables(s) && Dispatchable(Kill(s).tasks, s.cur)
    ensures Identified(s, FaultInner(s, rsp).0, false)
  {
    assert UniqueIds(Kill(s).tasks);
    ScheduleIdentifies(Kill(s), rsp, true);
  }

  /** The caller's identity after every step. */
  lemma StepIdentifies(m: Machine, e: Event)
    requires Tables(m.sched) && Allowed(m, e)
    ensures Identified(m.sched, Step(m, e).sched, Drains(e))
  {
    match e {
      case User(_) =>
      case Timer(poll, _, _) => TimerIdentifies(m.sched, poll, Enter(m.ctx, m.mem, m.sched.rsp0, None).rsp);
      case Device(poll, _, _) => DeviceIdentifies(m, e);
      case Fault(code, _, _) => FaultIdentifies(m.sched, Enter(m.ctx, m.mem, m.sched.rsp0, Some(code)).rsp);
      case _ => SyscallSameStacks(m, e);
    }
  }

  lemma DeviceIdentifies(m: Machine, e: Event)
    requires Tables(m.sched) && Allowed(m, e) && e.Device?
    ensures Identified(m.sched, Step(m, e).sched, Drains(e))
  {
    assert Step(m, e).sched == Polled(m.sched, e.poll);
  }

  /** The run never hands the processor to another task. */
  ghost predicate Stays(m: Machine, es: seq<Event>)
    requires AllAllowed(m, es)
    decreases |es|
  {
    es != [] ==> Step(m, es[0]).sched.cur == m.sched.cur && Stays(Step(m, es[0]), es[1..])
  }

  /** An identity that was reset to 0 stays 0 until the next switch. */
  lemma {:induction false} NobodyUntilSwitch(m: Machine, v: seq<Context>, es: seq<Event>)
    requires Inv(m, v) && AllAllowed(m, es) && Stays(m, es)
    requires m.sched.curId == 0 && 0 !in m.sched.registry
    ensures var s := Run(m, es).sched; WellFormed(s) && s.cur == m.sched.cur && s.curId == 0 && 0 !in s.registry
    decreases |es|
  {
    if es != [] {
      StepIdentifies(m, es[0]);
      StepKeeps(m, v, es[0]);
      NobodyUntilSwitch(Step(m, es[0]), VStep(m, v, es[0]), es[1..]);
    }
  }

  /** What the three calls that use the caller's identity do for nobody: nothing, an error, a service of id 0. */
  ghost predicate Silenced(m: Machine)
    requires WellFormed(m.sched)
  {
    && Step(m, Exit).sched == m.sched
    && (forall ticks :: Step(m, SetPriority(ticks)).sched == m.sched)
    && (forall ticks :: Step(m, SetPriority(ticks)).ctx.gpr.Get(RAX) == 1)
    && (forall name :: name in Step(m, RegisterService(name)).services)
    && (forall name :: Step(m, RegisterService(name)).services[name] == 0)
  }

  /**
    A timer tick or device interrupt that drains and does not switch leaves the running process nobody: until the
    next switch, whatever else happens, its exit and set-priority calls do nothing, and the services it publishes
    are published for id 0.
  */
  lemma DrainSilencesCaller(m: Machine, v: seq<Context>, e: Event, es: seq<Event>)
    requires Inv(m, v) && 0 !in m.sched.registry
    requires AllAllowed(m, [e] + es) && Stays(m, [e] + es) && Drains(e)
    ensures WellFormed(Run(m, [e] + es).sched) && Silenced(Run(m, [e] + es))
  {
    var m1 := Step(m, e);
    assert ([e] + es)[1..] == es;
    StepIdentifies(m, e);
    StepKeeps(m, v, e);
    NobodyUntilSwitch(m1, VStep(m, v, e), es);
    assert Run(m, [e] + es) == Run(m1, es);
    NobodyIsSilenced(Run(m1, es));
  }

  lemma NobodyIsSilenced(m: Machine)
    requires WellFormed(m.sched) && m.sched.curId == 0 && 0 !in m.sched.registry
    ensures Silenced(m)
  {
  }
}
