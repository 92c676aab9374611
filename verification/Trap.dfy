/**
  Entering and leaving the kernel: the interrupt wrapper, the frame the processor pushes under it,
  the system-call entry and the kernel's own context switch.
*/
module Trap {
  import opened Options
  import opened Cpu

  /** Everything a task can see of the processor. */
  datatype Context = Context(gpr: RegFile, rip: Word, cs: Word, rflags: Word, rsp: Word, ss: Word)

  /** Bytes of a resumable frame: fifteen registers under the five words IRETQ takes. */
  const FRAME_SIZE := 160

  const SAVE_ORDER := [RAX, RBX, RCX, RDX, RDI, RSI, RBP, R8, R9, R10, R11, R12, R13, R14, R15]
  const RESTORE_ORDER := [R15, R14, R13, R12, R11, R10, R9, R8, RBP, RSI, RDI, RDX, RCX, RBX, RAX]

  const SYSCALL_SAVE := [R11, RCX, RBP, RBX, RDI, RSI, RDX, R10, R8, R9, R12, R13, R14, R15]
  const SYSCALL_RESTORE := [R15, R14, R13, R12, R9, R8, R10, RDX, RSI, RDI, RBX, RBP, RCX, R11]

  const SWITCH_SAVE := [RBP, RBX, R12, R13, R14, R15]
  const SWITCH_RESTORE := [R15, R14, R13, R12, RBX, RBP]

  /** Each restore list is its save list reversed. */
  lemma RestoresReverseSaves()
    ensures RESTORE_ORDER == Reverse(SAVE_ORDER)
    ensures SYSCALL_RESTORE == Reverse(SYSCALL_SAVE)
    ensures SWITCH_RESTORE == Reverse(SWITCH_SAVE)
  {
  }

  /** Where the wrapper saves a register, counted from the top word. */
  function SlotOf(r: Reg): (i: nat)
    ensures i < |SAVE_ORDER| && SAVE_ORDER[i] == r
  {
    match r
    case RAX => 0
    case RBX => 1
    case RCX => 2
    case RDX => 3
    case RDI => 4
    case RSI => 5
    case RBP => 6
    case R8 => 7
    case R9 => 8
    case R10 => 9
    case R11 => 10
    case R12 => 11
    case R13 => 12
    case R14 => 13
    case R15 => 14
  }

  /** The context switch saves the registers a C function must preserve (System V ABI, section 3.2.1), and no others. */
  lemma SwitchSavesCalleeSaved(r: Reg)
    ensures r in SWITCH_SAVE <==> r == RBX || r == RBP || r == R12 || r == R13 || r == R14 || r == R15
  {
  }

  /** The system-call stub saves every register except RAX. */
  lemma SyscallSavesAllButRax(r: Reg)
    ensures r in SYSCALL_SAVE <==> r != RAX
  {
  }

  // ----- Interrupts and exceptions from ring 3 -----

  /** The processor aligns the RSP0 it loads from the TSS (Intel SDM, Volume 3A, section 6.14.2). */
  function AlignDown(a: int): int {
    a - a % 16
  }

  function PushWord(s: State, w: Word): State {
    s.(rsp := s.rsp - 8, mem := Write(s.mem, s.rsp - 8, w))
  }

  /** The five words the processor pushes, and the error code that faults add. */
  function HardwareFrame(c: Context, mem: Mem, rsp0: int, error: Option<Word>): State {
    var s := State(c.gpr, AlignDown(rsp0), mem);
    var t := PushWord(PushWord(PushWord(PushWord(PushWord(s, c.ss), c.rsp), c.rflags), c.cs), c.rip);
    match error
    case None => t
    case Some(code) => PushWord(t, code)
  }

  /** The state in which the wrapper calls its handler. */
  function Enter(c: Context, mem: Mem, rsp0: int, error: Option<Word>): State {
    Run(Pushes(SAVE_ORDER), HardwareFrame(c, mem, rsp0, error))
  }

  function Iretq(s: State): Context {
    Context(s.regs, Read(s.mem, s.rsp), Read(s.mem, s.rsp + 8), Read(s.mem, s.rsp + 16),
            Read(s.mem, s.rsp + 24), Read(s.mem, s.rsp + 32))
  }

  /** What the wrapper resumes when its handler returned the stack pointer `rsp`. */
  function Leave(regs: RegFile, mem: Mem, rsp: int): Context {
    Iretq(Run(Pops(RESTORE_ORDER), State(regs, rsp, mem)))
  }

  /** The twenty words from `rsp` up are the complete context `c`. */
  ghost predicate Frame(mem: Mem, rsp: int, c: Context) {
    && Stored(mem, rsp + 120, SAVE_ORDER, c.gpr)
    && Holds(mem, rsp + 120, c.rip)
    && Holds(mem, rsp + 128, c.cs)
    && Holds(mem, rsp + 136, c.rflags)
    && Holds(mem, rsp + 144, c.rsp)
    && Holds(mem, rsp + 152, c.ss)
  }

  lemma HardwareFrameStores(c: Context, mem: Mem, rsp0: int, error: Option<Word>)
    ensures var s := HardwareFrame(c, mem, rsp0, error);
      var top := AlignDown(rsp0);
      && s.regs == c.gpr
      && s.rsp == top - (if error.None? then 40 else 48)
      && OnlyWithin(mem, s.mem, s.rsp, top)
      && Holds(s.mem, top - 40, c.rip)
      && Holds(s.mem, top - 32, c.cs)
      && Holds(s.mem, top - 24, c.rflags)
      && Holds(s.mem, top - 16, c.rsp)
      && Holds(s.mem, top - 8, c.ss)
      && (error.Some? ==> Holds(s.mem, top - 48, error.value))
  {
  }

  /** A handler without an error code runs above a complete frame of the interrupted context. */
  lemma EnterSaves(c: Context, mem: Mem, rsp0: int)
    ensures var s := Enter(c, mem, rsp0, None);
      && s.rsp == AlignDown(rsp0) - FRAME_SIZE
      && Frame(s.mem, s.rsp, c)
      && OnlyWithin(mem, s.mem, s.rsp, AlignDown(rsp0))
  {
    HardwareFrameStores(c, mem, rsp0, None);
    PushesStore(SAVE_ORDER, HardwareFrame(c, mem, rsp0, None));
  }

  /** A fault's error code shifts the frame by one word, but stays on the same stack. */
  lemma FaultEnters(c: Context, mem: Mem, rsp0: int, code: Word)
    ensures var s := Enter(c, mem, rsp0, Some(code));
      && s.rsp == AlignDown(rsp0) - FRAME_SIZE - 8
      && OnlyWithin(mem, s.mem, s.rsp, AlignDown(rsp0))
      && Frame(s.mem, s.rsp, Context(c.gpr, code, c.rip, c.cs, c.rflags, c.rsp))
  {
    HardwareFrameStores(c, mem, rsp0, Some(code));
    PushesStore(SAVE_ORDER, HardwareFrame(c, mem, rsp0, Some(code)));
  }

  lemma RestoreLoads(regs: RegFile, mem: Mem, rsp: int, c: Context)
    requires Stored(mem, rsp + 120, SAVE_ORDER, c.gpr)
    ensures Run(Pops(RESTORE_ORDER), State(regs, rsp, mem)) == State(c.gpr, rsp + 120, mem)
  {
    RestoresReverseSaves();
    PopsLoad(SAVE_ORDER, c.gpr, State(regs, rsp, mem));
    var t := Run(Pops(RESTORE_ORDER), State(regs, rsp, mem));
    forall r: Reg
      ensures t.regs.Get(r) == c.gpr.Get(r)
    {
      assert SAVE_ORDER[SlotOf(r)] == r;
    }
    SameRegs(t.regs, c.gpr);
  }

  /** Leaving through a complete frame resumes exactly its context, whatever the handler left in registers. */
  lemma LeaveResumes(regs: RegFile, mem: Mem, rsp: int, c: Context)
    requires Frame(mem, rsp, c)
    ensures Leave(regs, mem, rsp) == c
  {
    RestoreLoads(regs, mem, rsp, c);
  }

  /** A frame survives everything that keeps its 160 bytes. */
  lemma FrameStable(mem: Mem, mem': Mem, rsp: int, c: Context)
    requires Frame(mem, rsp, c)
    requires Agree(mem, mem', rsp, rsp + FRAME_SIZE)
    ensures Frame(mem', rsp, c)
  {
  }

  /**
    The wrapper never pops an error code. Resuming a fault's own frame therefore jumps to the error code
    with every later word shifted: the interrupted context comes back exactly when the words line up by chance.
  */
  lemma FaultFrameIsNotResumable(c: Context, mem: Mem, rsp0: int, code: Word, regs: RegFile)
    ensures var s := Enter(c, mem, rsp0, Some(code));
      var back := Leave(regs, s.mem, s.rsp);
      && back == Context(c.gpr, code, c.rip, c.cs, c.rflags, c.rsp)
      && (back == c <==> code == c.rip == c.cs == c.rflags == c.rsp == c.ss)
  {
    FaultEnters(c, mem, rsp0, code);
    var s := Enter(c, mem, rsp0, Some(code));
    LeaveResumes(regs, s.mem, s.rsp, Context(c.gpr, code, c.rip, c.cs, c.rflags, c.rsp));
  }

  // ----- System calls -----

  /** The registers right after the SYSCALL instruction: RCX and R11 take RIP and RFLAGS. */
  function SyscallRegs(c: Context): RegFile {
    c.gpr.Set(RCX, c.rip).Set(R11, c.rflags)
  }

  /** The state in which the entry stub calls `handle_syscall`: saved registers, arguments moved. */
  function SyscallEnter(c: Context, mem: Mem): State {
    var s := Run(Pushes(SYSCALL_SAVE), State(SyscallRegs(c), c.rsp, mem));
    var r1 := s.regs.Set(RDX, s.regs.Get(RSI));
    var r2 := r1.Set(RSI, r1.Get(RDI));
    s.(regs := r2.Set(RDI, r2.Get(RAX)))
  }

  /** Popping the saved registers and SYSRETQ. */
  function SyscallLeave(c: Context, mid: State): Context {
    var s := Run(Pops(SYSCALL_RESTORE), mid);
    Context(s.regs, s.regs.Get(RCX), c.cs, s.regs.Get(R11), s.rsp, c.ss)
  }

  /** What a task sees of a system call that returned `ret`. */
  function AfterSyscall(c: Context, ret: Word): Context {
    c.(gpr := SyscallRegs(c).Set(RAX, ret))
  }

  /**
    The stub hands the call number and two arguments over in C order, and, whatever registers the handler
    uses, returns with its result in RAX, the stack pointer, RIP and RFLAGS as they were, and every register but
    RCX and R11 too: those two the SYSCALL instruction itself overwrote, with RIP and RFLAGS.
  */
  lemma SyscallIsTransparent(c: Context, mem: Mem, mid: State)
    requires var s := SyscallEnter(c, mem); mid.rsp == s.rsp && Agree(s.mem, mid.mem, s.rsp, c.rsp)
    ensures var s := SyscallEnter(c, mem);
      s.regs.Get(RDI) == c.gpr.Get(RAX) && s.regs.Get(RSI) == c.gpr.Get(RDI) && s.regs.Get(RDX) == c.gpr.Get(RSI)
    ensures SyscallLeave(c, mid) == AfterSyscall(c, mid.regs.Get(RAX))
  {
    var s0 := State(SyscallRegs(c), c.rsp, mem);
    PushesStore(SYSCALL_SAVE, s0);
    SaveRestore(SYSCALL_SAVE, s0, mid);
    RestoresReverseSaves();
    var t := Run(Pops(SYSCALL_RESTORE), mid);
    var ret := mid.regs.Get(RAX);
    forall r: Reg
      ensures t.regs.Get(r) == SyscallRegs(c).Set(RAX, ret).Get(r)
    {
      SyscallSavesAllButRax(r);
    }
    SameRegs(t.regs, SyscallRegs(c).Set(RAX, ret));
  }

  // ----- The kernel's own context switch -----

  datatype Switched = Switched(cpu: State, rip: Word)

  /** `switch_context(old, new)`: `slot` is where the old stack pointer goes, `target` the stack to load. */
  function SwitchContext(s: State, slot: int, target: int): Switched {
    var saved := Run(Pushes(SWITCH_SAVE), s);
    var parked := Write(saved.mem, slot, saved.rsp);
    var t := Run(Pops(SWITCH_RESTORE), State(saved.regs, target, parked));
    Switched(t.(rsp := t.rsp + 8), Read(t.mem, t.rsp))
  }

  ghost predicate Apart(a: int, alo: int, ahi: int) {
    a + 8 <= alo || ahi <= a
  }

  lemma SwitchParks(s: State, slot: int, target: int)
    ensures var saved := Run(Pushes(SWITCH_SAVE), s);
      SwitchContext(s, slot, target).cpu.mem == Write(saved.mem, slot, s.rsp - 48)
  {
    PushesStore(SWITCH_SAVE, s);
    var saved := Run(Pushes(SWITCH_SAVE), s);
    PopsKeepMemory(SWITCH_RESTORE, State(saved.regs, target, Write(saved.mem, slot, saved.rsp)));
  }

  /**
    Switching away and later back to the parked stack returns to the original caller with its
    callee-saved registers, as long as the 56 bytes of the parked frame and the slot kept their words
    and the second switch parks elsewhere.
  */
  lemma SwitchRoundTrip(s: State, slot: int, target: int, mid: State, slot2: int)
    requires s.rsp in s.mem
    requires Apart(slot, s.rsp - 48, s.rsp + 8)
    requires var m := SwitchContext(s, slot, target).cpu.mem;
      Agree(m, mid.mem, s.rsp - 48, s.rsp + 8) && Agree(m, mid.mem, slot, slot + 8)
    requires mid.rsp <= s.rsp - 48 || s.rsp + 56 <= mid.rsp
    requires Apart(slot2, s.rsp - 48, s.rsp + 8)
    ensures var back := SwitchContext(mid, slot2, Read(mid.mem, slot));
      && back.rip == s.mem[s.rsp]
      && back.cpu.rsp == s.rsp + 8
      && (forall r: Reg :: r in SWITCH_SAVE ==> back.cpu.regs.Get(r) == s.regs.Get(r))
  {
    RestoresReverseSaves();
    SwitchBackMemory(s, slot, target, mid, slot2);
    PushesStore(SWITCH_SAVE, s);
    var again := Run(Pushes(SWITCH_SAVE), mid);
    var mem := Write(again.mem, slot2, again.rsp);
    SaveRestore(SWITCH_SAVE, s, State(again.regs, s.rsp - 48, mem));
  }

  /** When the second switch restores, the parked frame holds what the first one pushed. */
  lemma SwitchBackMemory(s: State, slot: int, target: int, mid: State, slot2: int)
    requires Apart(slot, s.rsp - 48, s.rsp + 8) && Apart(slot2, s.rsp - 48, s.rsp + 8)
    requires var m := SwitchContext(s, slot, target).cpu.mem;
      Agree(m, mid.mem, s.rsp - 48, s.rsp + 8) && Agree(m, mid.mem, slot, slot + 8)
    requires mid.rsp <= s.rsp - 48 || s.rsp + 56 <= mid.rsp
    ensures Read(mid.mem, slot) == s.rsp - 48
    ensures var again := Run(Pushes(SWITCH_SAVE), mid);
      Agree(Run(Pushes(SWITCH_SAVE), s).mem, Write(again.mem, slot2, again.rsp), s.rsp - 48, s.rsp + 8)
  {
    var saved := Run(Pushes(SWITCH_SAVE), s);
    SwitchParks(s, slot, target);
    var again := Run(Pushes(SWITCH_SAVE), mid);
    PushesStore(SWITCH_SAVE, mid);
    ParkedFrameKept(saved.mem, mid.mem, again.mem, s.rsp - 48, slot, s.rsp - 48, slot2, again.rsp, mid.rsp);
  }

  /** Neither parking a stack pointer elsewhere nor pushing elsewhere touches the 56 bytes of a parked frame. */
  lemma ParkedFrameKept(
    saved: Mem, mid: Mem, again: Mem, frame: int, slot: int, w: Word, slot2: int, w2: Word, top: int)
    requires Apart(slot, frame, frame + 56) && Apart(slot2, frame, frame + 56)
    requires Agree(Write(saved, slot, w), mid, frame, frame + 56)
    requires Agree(Write(saved, slot, w), mid, slot, slot + 8)
    requires OnlyWithin(mid, again, top - 48, top) && (top <= frame || frame + 104 <= top)
    ensures Read(mid, slot) == w
    ensures Agree(saved, Write(again, slot2, w2), frame, frame + 56)
  {
  }
}
