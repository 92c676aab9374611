/**
  The task control block, shared by the preemptive scheduler and the async executor,
  and the forging of a user process's first stack.
*/
module Tasks {
  import opened Options
  import opened Cpu
  import opened Trap
  import opened Mailbox

  /** 0 is the kernel's own initial context; real tasks start at 1. */
  type TaskId = nat

  datatype TaskState = Ready | Blocked | Terminated

  /**
    A kernel future, as the finite list of things it still does: await its own mailbox, send a message,
    wake a task through a cloned waker, or return Pending once without having arranged anything.
  */
  datatype Action = Receive | Send(to: TaskId, msg: Message) | Wake(id: TaskId) | Pend

  /** A task as the executor and the system calls see it. */
  datatype TaskView = TaskView(
    id: TaskId, state: TaskState, priority: nat, future: seq<Action>, mailbox: Slot, waker: Option<TaskId>)

  /** The same task as the scheduler sees it. */
  datatype Process = Process(
    id: TaskId, state: TaskState, priority: nat, kernelRsp: int, stackBase: int, stackTop: int)

  const DEFAULT_PRIORITY := 5
  const TASK_KSTACK_SIZE := 4096 * 4
  const PROCESS_KSTACK_SIZE := 4096 * 8
  const USER_DATA_SELECTOR := 0x2b
  const USER_CODE_SELECTOR := 0x33
  const USER_RFLAGS := 0x202

  class Task {
    const id: TaskId
    var state: TaskState
    var priority: nat
    var future: seq<Action>
    var kernelRsp: int
    const stackBase: int
    const stackTop: int
    var mailbox: Slot
    var waker: Option<TaskId>

    function View(): TaskView
      reads this
    {
      TaskView(id, state, priority, future, mailbox, waker)
    }

    function AsProcess(): Process
      reads this
    {
      Process(id, state, priority, kernelRsp, stackBase, stackTop)
    }

    /** `Task::new`: a background task. `base` is the start of its leaked stack block. */
    constructor (id: TaskId, future: seq<Action>, base: int)
      ensures View() == NewTask(id, future)
      ensures AsProcess() == NewProcess(id, base, base + TASK_KSTACK_SIZE, base + TASK_KSTACK_SIZE)
    {
      this.id, this.state, this.priority, this.future := id, Ready, DEFAULT_PRIORITY, future;
      this.stackBase, this.stackTop := base, base + TASK_KSTACK_SIZE;
      this.kernelRsp := base + TASK_KSTACK_SIZE;
      this.mailbox, this.waker := EMPTY, None;
    }

    constructor User(id: TaskId, base: int, rsp: int)
      ensures View() == NewTask(id, [])
      ensures AsProcess() == NewProcess(id, base, rsp, base + PROCESS_KSTACK_SIZE)
    {
      this.id, this.state, this.priority, this.future := id, Ready, DEFAULT_PRIORITY, [];
      this.stackBase, this.stackTop := base, base + PROCESS_KSTACK_SIZE;
      this.kernelRsp := rsp;
      this.mailbox, this.waker := EMPTY, None;
    }
  }

  function NewTask(id: TaskId, future: seq<Action>): TaskView {
    TaskView(id, Ready, DEFAULT_PRIORITY, future, EMPTY, None)
  }

  function NewProcess(id: TaskId, base: int, rsp: int, top: int): Process {
    Process(id, Ready, DEFAULT_PRIORITY, rsp, base, top)
  }

  /** What a fresh process must see: zeroed registers, its entry point, its own stack, interrupts on. */
  function InitialContext(entry: Word, userStackTop: Word): Context {
    Context(ZERO_REGS, entry, USER_CODE_SELECTOR, USER_RFLAGS, userStackTop, USER_DATA_SELECTOR)
  }

  /**
    The process starts as it must: at its entry point, on its stack, with zeroed registers, in ring 3 under the sixth
    and fifth GDT descriptors, and with interrupts (RFLAGS bit 9) enabled.
  */
  ghost predicate StartsAt(c: Context, entry: Word, userStackTop: Word) {
    && c.rip == entry && c.rsp == userStackTop
    && (forall r: Reg :: c.gpr.Get(r) == 0)
    && c.cs == 8 * 6 + 3 && c.ss == 8 * 5 + 3
    && (c.rflags / 512) % 2 == 1
  }

  lemma InitialStarts(entry: Word, userStackTop: Word)
    ensures StartsAt(InitialContext(entry, userStackTop), entry, userStackTop)
  {
  }

  /**
    `create_user_process`: the forged stack is a complete frame, indistinguishable from that of a process
    suspended in its initial context. Popping it, with whatever is in the registers, starts the process as it must;
    forging it touches nothing but the top 160 bytes of its own stack.
  */
  method CreateUserProcess(mem: Mem, id: TaskId, base: int, entry: Word, userStackTop: Word)
    returns (t: Task, mem': Mem)
    ensures fresh(t)
    ensures t.View() == NewTask(id, [])
    ensures var top := base + PROCESS_KSTACK_SIZE; t.AsProcess() == NewProcess(id, base, top - FRAME_SIZE, top)
    ensures t.state == Ready && t.priority == 5 && t.stackTop == t.stackBase + 32 * 1024
    ensures Frame(mem', t.kernelRsp, InitialContext(entry, userStackTop))
    ensures forall regs :: StartsAt(Leave(regs, mem', t.kernelRsp), entry, userStackTop)
    ensures OnlyWithin(mem, mem', t.kernelRsp, t.stackTop)
  {
    var top := base + PROCESS_KSTACK_SIZE;
    var iretq := ForgeIretqFrame(mem, top, entry, userStackTop);
    var rsp;
    rsp, mem' := ForgeRegisters(iretq, top - 40);
    t := new Task.User(id, base, rsp);
    forall regs ensures StartsAt(Leave(regs, mem', rsp), entry, userStackTop) {
      LeaveResumes(regs, mem', rsp, InitialContext(entry, userStackTop));
      InitialStarts(entry, userStackTop);
    }
  }

  /** The five words that IRETQ will take. */
  method ForgeIretqFrame(mem: Mem, top: int, entry: Word, userStackTop: Word) returns (mem': Mem)
    ensures OnlyWithin(mem, mem', top - 40, top)
    ensures Holds(mem', top - 40, entry) && Holds(mem', top - 32, USER_CODE_SELECTOR)
    ensures Holds(mem', top - 24, USER_RFLAGS) && Holds(mem', top - 16, userStackTop)
    ensures Holds(mem', top - 8, USER_DATA_SELECTOR)
  {
    var rsp := top;
    mem' := mem;
    rsp, mem' := rsp - 8, Write(mem', rsp - 8, USER_DATA_SELECTOR);
    rsp, mem' := rsp - 8, Write(mem', rsp - 8, userStackTop);
    rsp, mem' := rsp - 8, Write(mem', rsp - 8, USER_RFLAGS);
    rsp, mem' := rsp - 8, Write(mem', rsp - 8, USER_CODE_SELECTOR);
    rsp, mem' := rsp - 8, Write(mem', rsp - 8, entry);
  }

  /** Fifteen zeros for the general registers. */
  method ForgeRegisters(mem: Mem, top: int) returns (rsp: int, mem': Mem)
    ensures rsp == top - 120
    ensures OnlyWithin(mem, mem', rsp, top)
    ensures Stored(mem', top, SAVE_ORDER, ZERO_REGS)
  {
    rsp, mem' := top, mem;
    for i := 0 to 15
      invariant rsp == top - 8 * i
      invariant OnlyWithin(mem, mem', rsp, top)
      invariant Zeros(mem', rsp, i)
    {
      ZeroPushed(mem', rsp, i);
      rsp, mem' := rsp - 8, Write(mem', rsp - 8, 0);
    }
    ZerosAreRegisters(mem', rsp);
  }

  /** `n` zero words lie upwards from `rsp`. */
  ghost predicate Zeros(mem: Mem, rsp: int, n: nat) {
    forall a :: rsp <= a < rsp + 8 * n && (a - rsp) % 8 == 0 ==> Holds(mem, a, 0)
  }

  lemma ZeroPushed(mem: Mem, rsp: int, n: nat)
    requires Zeros(mem, rsp, n)
    ensures Zeros(Write(mem, rsp - 8, 0), rsp - 8, n + 1)
  {
    var mem' := Write(mem, rsp - 8, 0);
    forall a | rsp - 8 <= a < rsp + 8 * n && (a - (rsp - 8)) % 8 == 0
      ensures Holds(mem', a, 0)
    {
      if a >= rsp {
        assert (a - rsp) % 8 == 0;
        assert Holds(mem, a, 0);
      }
    }
  }

  lemma ZerosAreRegisters(mem: Mem, rsp: int)
    requires Zeros(mem, rsp, 15)
    ensures Stored(mem, rsp + 120, SAVE_ORDER, ZERO_REGS)
  {
  }
}
