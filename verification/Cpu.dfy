/**
  The part of the processor the kernel's assembly uses: the fifteen general registers it saves,
  a stack pointer, word memory, and the PUSH and POP instructions.

  Words are 64-bit values that the modelled code only moves, so they are plain integers here.
  Addresses are byte addresses with no alignment assumed: a word occupies [a, a + 8), and writing it
  destroys every word that overlaps those bytes.
*/
module Cpu {
  type Word = int

  datatype Reg = RAX | RBX | RCX | RDX | RDI | RSI | RBP | R8 | R9 | R10 | R11 | R12 | R13 | R14 | R15

  datatype RegFile = RegFile(
    rax: Word, rbx: Word, rcx: Word, rdx: Word, rdi: Word, rsi: Word, rbp: Word, r8: Word,
    r9: Word, r10: Word, r11: Word, r12: Word, r13: Word, r14: Word, r15: Word)
  {
    function Get(r: Reg): Word {
      match r
      case RAX => rax
      case RBX => rbx
      case RCX => rcx
      case RDX => rdx
      case RDI => rdi
      case RSI => rsi
      case RBP => rbp
      case R8 => r8
      case R9 => r9
      case R10 => r10
      case R11 => r11
      case R12 => r12
      case R13 => r13
      case R14 => r14
      case R15 => r15
    }

    function Set(r: Reg, w: Word): (regs: RegFile)
      ensures forall q: Reg :: regs.Get(q) == if q == r then w else Get(q)
    {
      match r
      case RAX => this.(rax := w)
      case RBX => this.(rbx := w)
      case RCX => this.(rcx := w)
      case RDX => this.(rdx := w)
      case RDI => this.(rdi := w)
      case RSI => this.(rsi := w)
      case RBP => this.(rbp := w)
      case R8 => this.(r8 := w)
      case R9 => this.(r9 := w)
      case R10 => this.(r10 := w)
      case R11 => this.(r11 := w)
      case R12 => this.(r12 := w)
      case R13 => this.(r13 := w)
      case R14 => this.(r14 := w)
      case R15 => this.(r15 := w)
    }
  }

  const ZERO_REGS := RegFile(0, 0, 0, 0, 0, 0, 0, 0, 0, 0, 0, 0, 0, 0, 0)

  /** A register file is the values of its registers. */
  lemma SameRegs(a: RegFile, b: RegFile)
    requires forall r: Reg :: a.Get(r) == b.Get(r)
    ensures a == b
  {
    assert a.Get(RAX) == b.Get(RAX) && a.Get(RBX) == b.Get(RBX) && a.Get(RCX) == b.Get(RCX) && a.Get(RDX) == b.Get(RDX) && a.Get(RDI) == b.Get(RDI) && a.Get(RSI) == b.Get(RSI) && a.Get(RBP) == b.Get(RBP) && a.Get(R8) == b.Get(R8) && a.Get(R9) == b.Get(R9) && a.Get(R10) == b.Get(R10) && a.Get(R11) == b.Get(R11) && a.Get(R12) == b.Get(R12) && a.Get(R13) == b.Get(R13) && a.Get(R14) == b.Get(R14) && a.Get(R15) == b.Get(R15);
  }

  type Mem = map<int, Word>

  function Write(m: Mem, a: int, w: Word): (m': Mem)
    ensures a in m' && m'[a] == w
    ensures forall b :: b <= a - 8 || a + 8 <= b ==> (b in m' <==> b in m) && (b in m ==> m'[b] == m[b])
    ensures forall b :: a - 8 < b < a + 8 && b != a ==> b !in m'
  {
    (map b | b in m && (b <= a - 8 || a + 8 <= b) :: m[b])[a := w]
  }

  /** A word that was never written, or was overlapped since, reads as an arbitrary value: zero. */
  function Read(m: Mem, a: int): Word {
    if a in m then m[a] else 0
  }

  /** The two memories hold the same words in the byte range [lo, hi). */
  ghost predicate Agree(m: Mem, m': Mem, lo: int, hi: int) {
    forall a {:trigger a in m} {:trigger a in m'} :: lo <= a && a + 8 <= hi ==>
      (a in m <==> a in m') && (a in m ==> m[a] == m'[a])
  }

  datatype State = State(regs: RegFile, rsp: int, mem: Mem)

  datatype Instr = Push(src: Reg) | Pop(dst: Reg)

  function Exec(i: Instr, s: State): State {
    match i
    case Push(r) => s.(rsp := s.rsp - 8, mem := Write(s.mem, s.rsp - 8, s.regs.Get(r)))
    case Pop(r) => s.(rsp := s.rsp + 8, regs := s.regs.Set(r, Read(s.mem, s.rsp)))
  }

  function Run(prog: seq<Instr>, s: State): State {
    if prog == [] then s else Run(prog[1..], Exec(prog[0], s))
  }

  function Pushes(rs: seq<Reg>): (p: seq<Instr>)
    ensures |p| == |rs|
  {
    seq(|rs|, i requires 0 <= i < |rs| => Push(rs[i]))
  }

  function Pops(rs: seq<Reg>): (p: seq<Instr>)
    ensures |p| == |rs|
  {
    seq(|rs|, i requires 0 <= i < |rs| => Pop(rs[i]))
  }

  function Reverse(rs: seq<Reg>): (r: seq<Reg>)
    ensures |r| == |rs|
  {
    seq(|rs|, i requires 0 <= i < |rs| => rs[|rs| - 1 - i])
  }

  lemma {:induction false} RunAppend(p: seq<Instr>, q: seq<Instr>, s: State)
    ensures Run(p + q, s) == Run(q, Run(p, s))
  {
    if p == [] {
      assert p + q == q;
    } else {
      assert (p + q)[1..] == p[1..] + q;
      RunAppend(p[1..], q, Exec(p[0], s));
    }
  }

  /** `rs` lies in memory as a sequence of pushes from `top` left it: rs[0] highest. */
  ghost predicate Stored(m: Mem, top: int, rs: seq<Reg>, regs: RegFile) {
    forall i :: 0 <= i < |rs| ==> Holds(m, top - 8 * (i + 1), regs.Get(rs[i]))
  }

  ghost predicate Holds(m: Mem, a: int, w: Word) {
    a in m && m[a] == w
  }

  /** Nothing outside the byte range [lo, hi) differs. */
  ghost predicate OnlyWithin(m: Mem, m': Mem, lo: int, hi: int) {
    forall a {:trigger a in m} {:trigger a in m'} :: a + 8 <= lo || hi <= a ==>
      (a in m <==> a in m') && (a in m ==> m[a] == m'[a])
  }

  /** Pushing a register list stores it downwards from the stack pointer and touches nothing else. */
  lemma {:induction false} PushesStore(rs: seq<Reg>, s: State)
    ensures var t := Run(Pushes(rs), s);
      && t.regs == s.regs
      && t.rsp == s.rsp - 8 * |rs|
      && Stored(t.mem, s.rsp, rs, s.regs)
      && OnlyWithin(s.mem, t.mem, t.rsp, s.rsp)
  {
    if rs != [] {
      var s1 := Exec(Push(rs[0]), s);
      assert Pushes(rs)[1..] == Pushes(rs[1..]);
      PushesStore(rs[1..], s1);
      var t := Run(Pushes(rs), s);
      assert t == Run(Pushes(rs[1..]), s1);
      forall i | 0 <= i < |rs|
        ensures Holds(t.mem, s.rsp - 8 * (i + 1), s.regs.Get(rs[i]))
      {
        if i == 0 {
          assert s.rsp - 8 in s1.mem;
        } else {
          assert rs[1..][i - 1] == rs[i];
          assert Holds(t.mem, s1.rsp - 8 * ((i - 1) + 1), s1.regs.Get(rs[1..][i - 1]));
        }
      }
    }
  }

  /** Popping the reverse of a stored list loads every listed register, and only those. */
  lemma {:induction false} PopsLoad(rs: seq<Reg>, saved: RegFile, s: State)
    requires Stored(s.mem, s.rsp + 8 * |rs|, rs, saved)
    ensures var t := Run(Pops(Reverse(rs)), s);
      && t.rsp == s.rsp + 8 * |rs|
      && t.mem == s.mem
      && (forall r: Reg :: t.regs.Get(r) == if r in rs then saved.Get(r) else s.regs.Get(r))
  {
    if rs != [] {
      var top := s.rsp + 8 * |rs|;
      assert Holds(s.mem, top - 8 * (0 + 1), saved.Get(rs[0]));
      forall i | 0 <= i < |rs[1..]|
        ensures Holds(s.mem, top - 8 - 8 * (i + 1), saved.Get(rs[1..][i]))
      {
        assert Holds(s.mem, top - 8 * ((i + 1) + 1), saved.Get(rs[i + 1]));
      }
      PopsLoad(rs[1..], saved, s);
      assert Pops(Reverse(rs)) == Pops(Reverse(rs[1..])) + [Pop(rs[0])];
      RunAppend(Pops(Reverse(rs[1..])), [Pop(rs[0])], s);
      var u := Run(Pops(Reverse(rs[1..])), s);
      var t := Run([Pop(rs[0])], u);
      assert t == Exec(Pop(rs[0]), u);
      forall r: Reg
        ensures t.regs.Get(r) == if r in rs then saved.Get(r) else s.regs.Get(r)
      {
        assert r in rs <==> r == rs[0] || r in rs[1..];
      }
    }
  }

  lemma {:induction false} PopsKeepMemory(rs: seq<Reg>, s: State)
    ensures Run(Pops(rs), s).mem == s.mem
  {
    if rs != [] {
      assert Pops(rs)[1..] == Pops(rs[1..]);
      PopsKeepMemory(rs[1..], Exec(Pop(rs[0]), s));
    }
  }

  lemma StoredStable(m: Mem, m': Mem, top: int, rs: seq<Reg>, regs: RegFile)
    requires Stored(m, top, rs, regs)
    requires Agree(m, m', top - 8 * |rs|, top)
    ensures Stored(m', top, rs, regs)
  {
  }

  /**
    Saving then restoring is the identity: push any register list, let the code in between do anything
    that leaves the stack pointer and the saved words alone, pop the reverse list.
    Every listed register and the stack pointer are back; the others keep what the code in between left.
  */
  lemma SaveRestore(rs: seq<Reg>, s: State, mid: State)
    requires mid.rsp == s.rsp - 8 * |rs|
    requires Agree(Run(Pushes(rs), s).mem, mid.mem, mid.rsp, s.rsp)
    ensures var t := Run(Pops(Reverse(rs)), mid);
      && t.rsp == s.rsp
      && t.mem == mid.mem
      && (forall r: Reg :: t.regs.Get(r) == if r in rs then s.regs.Get(r) else mid.regs.Get(r))
  {
    PushesStore(rs, s);
    StoredStable(Run(Pushes(rs), s).mem, mid.mem, s.rsp, rs, s.regs);
    PopsLoad(rs, s.regs, mid);
  }
}
