/**
  Deadlock freedom by lock order: every operation of the kernel takes its blocking locks along one ranking,
  so any number of concurrent agents running any operations always has one that can step.
*/
module LockOrder {
  import opened Tasks

  /** `Services` is the service registry; `Heap` is the spin lock inside the global allocator. */
  datatype Kind =
    | Executor | TaskList | Future | Registry | Mailbox | State | WakerSlot
    | Services | Heap | InitBox | Pics | Serial

  /** Task-owned locks exist once per task id; the global ones use id 0. */
  datatype Lock = Lock(kind: Kind, id: TaskId)

  function Rank(l: Lock): nat {
    match l.kind
    case Executor => 0
    case TaskList => 1
    case Future => 2
    case Registry => 3
    case Mailbox => 4
    case State => 5
    case WakerSlot => 6
    case Services => 7
    case Heap => 8
    case InitBox => 9
    case Pics => 10
    case Serial => 11
  }

  const MAX_RANK := 11

  /** `Shared` is a reader of the registry's RwLock. */
  datatype Mode = Shared | Exclusive

  /** The locks an agent holds, latest first: guards are dropped in reverse order. */
  datatype Held = Nothing | Holding(lock: Lock, mode: Mode, rest: Held)

  /** What an agent still does to locks. `Try` goes on with `got` or, when the lock is taken, with `busy`. */
  datatype Prog =
    | Done
    | Acquire(lock: Lock, mode: Mode, next: Prog)
    | Release(next: Prog)
    | Try(lock: Lock, got: Prog, busy: Prog)

  datatype Agent = Agent(prog: Prog, held: Held)

  // ----- Steps -----

  predicate Holds(h: Held, l: Lock) {
    h.Holding? && (h.lock == l || Holds(h.rest, l))
  }

  predicate HoldsExclusive(h: Held, l: Lock) {
    h.Holding? && ((h.lock == l && h.mode == Exclusive) || HoldsExclusive(h.rest, l))
  }

  predicate Excludes(a: Agent, l: Lock, mode: Mode) {
    if mode == Shared then HoldsExclusive(a.held, l) else Holds(a.held, l)
  }

  ghost predicate Available(agents: seq<Agent>, l: Lock, mode: Mode) {
    forall j :: 0 <= j < |agents| ==> !Excludes(agents[j], l, mode)
  }

  ghost predicate CanStep(agents: seq<Agent>, i: nat) {
    && i < |agents|
    && !agents[i].prog.Done?
    && (agents[i].prog.Acquire? ==> Available(agents, agents[i].prog.lock, agents[i].prog.mode))
    && (agents[i].prog.Release? ==> agents[i].held.Holding?)
  }

  ghost function Moved(agents: seq<Agent>, i: nat): Agent
    requires CanStep(agents, i)
  {
    var a := agents[i];
    match a.prog
    case Acquire(l, mode, k) => Agent(k, Holding(l, mode, a.held))
    case Release(k) => Agent(k, a.held.rest)
    case Try(l, got, busy) =>
      if Available(agents, l, Exclusive) then Agent(got, Holding(l, Exclusive, a.held)) else Agent(busy, a.held)
  }

  ghost function Step(agents: seq<Agent>, i: nat): seq<Agent>
    requires CanStep(agents, i)
  {
    agents[i := Moved(agents, i)]
  }

  // ----- The discipline -----

  predicate AllBelow(h: Held, rank: nat) {
    h.Holding? ==> Rank(h.lock) < rank && AllBelow(h.rest, rank)
  }

  /** A blocking acquisition outranks everything held, every guard is dropped, nothing is held at the end. */
  predicate Disciplined(p: Prog, h: Held)
    decreases p
  {
    match p
    case Done => h.Nothing?
    case Acquire(l, mode, k) => AllBelow(h, Rank(l)) && Disciplined(k, Holding(l, mode, h))
    case Release(k) => h.Holding? && Disciplined(k, h.rest)
    case Try(l, got, busy) => Disciplined(got, Holding(l, Exclusive, h)) && Disciplined(busy, h)
  }

  ghost predicate AllDisciplined(agents: seq<Agent>) {
    forall i :: 0 <= i < |agents| ==> Disciplined(agents[i].prog, agents[i].held)
  }

  /** Two agents hold the same lock only as readers. */
  ghost predicate MutuallyExclusive(agents: seq<Agent>) {
    forall i, j, l: Lock :: 0 <= i < |agents| && 0 <= j < |agents| && i != j && Holds(agents[i].held, l) ==>
      !HoldsExclusive(agents[j].held, l)
  }

  lemma {:induction false} BelowIsNotHeld(h: Held, l: Lock)
    requires AllBelow(h, Rank(l))
    ensures !Holds(h, l)
  {
    if h.Holding? {
      BelowIsNotHeld(h.rest, l);
    }
  }

  lemma {:induction false} HeldIsBelow(h: Held, l: Lock, rank: nat)
    requires AllBelow(h, rank) && Holds(h, l)
    ensures Rank(l) < rank
  {
    if h.lock != l {
      HeldIsBelow(h.rest, l, rank);
    }
  }

  lemma {:induction false} ExclusiveIsHeld(h: Held, l: Lock)
    requires HoldsExclusive(h, l)
    ensures Holds(h, l)
  {
    if !(h.lock == l) {
      ExclusiveIsHeld(h.rest, l);
    }
  }

  lemma RankBound(l: Lock)
    ensures Rank(l) <= MAX_RANK
  {
  }

  lemma StepKeeps(agents: seq<Agent>, i: nat)
    requires AllDisciplined(agents) && MutuallyExclusive(agents) && CanStep(agents, i)
    ensures AllDisciplined(Step(agents, i)) && MutuallyExclusive(Step(agents, i))
  {
    var after := Step(agents, i);
    assert Disciplined(agents[i].prog, agents[i].held);
    forall j, k, l: Lock | 0 <= j < |after| && 0 <= k < |after| && j != k && Holds(after[j].held, l)
      ensures !HoldsExclusive(after[k].held, l)
    {
      if HoldsExclusive(after[k].held, l) {
        ExclusiveIsHeld(after[k].held, l);
      }
    }
  }

  /** From a blocked agent, follow who holds the lock it waits for: ranks rise, so the chase ends at one that moves. */
  lemma {:induction false} ChaseToMover(agents: seq<Agent>, i: nat) returns (j: nat)
    requires AllDisciplined(agents) && i < |agents| && !agents[i].prog.Done?
    ensures CanStep(agents, j)
    decreases if agents[i].prog.Acquire? then MAX_RANK - Rank(agents[i].prog.lock) else MAX_RANK + 1
  {
    assert Disciplined(agents[i].prog, agents[i].held);
    if CanStep(agents, i) {
      return i;
    }
    var l := agents[i].prog.lock;
    var k :| 0 <= k < |agents| && Excludes(agents[k], l, agents[i].prog.mode);
    if agents[i].prog.mode == Shared {
      ExclusiveIsHeld(agents[k].held, l);
    }
    assert Disciplined(agents[k].prog, agents[k].held);
    if CanStep(agents, k) {
      return k;
    }
    HeldIsBelow(agents[k].held, l, Rank(agents[k].prog.lock));
    RankBound(agents[k].prog.lock);
    j := ChaseToMover(agents, k);
  }

  // ----- Whole runs -----

  function Size(p: Prog): nat {
    match p
    case Done => 0
    case Acquire(_, _, k) => 1 + Size(k)
    case Release(k) => 1 + Size(k)
    case Try(_, got, busy) => 1 + Size(got) + Size(busy)
  }

  function TotalSize(agents: seq<Agent>): nat {
    if agents == [] then 0 else Size(agents[0].prog) + TotalSize(agents[1..])
  }

  lemma {:induction false} SmallerAgent(agents: seq<Agent>, i: nat, a: Agent)
    requires i < |agents| && Size(a.prog) < Size(agents[i].prog)
    ensures TotalSize(agents[i := a]) < TotalSize(agents)
  {
    if i == 0 {
      assert agents[0 := a][1..] == agents[1..];
    } else {
      assert agents[i := a][1..] == agents[1..][i - 1 := a];
      SmallerAgent(agents[1..], i - 1, a);
    }
  }

  ghost predicate Schedule(agents: seq<Agent>, turns: seq<nat>)
    decreases |turns|
  {
    turns != [] ==> CanStep(agents, turns[0]) && Schedule(Step(agents, turns[0]), turns[1..])
  }

  ghost function After(agents: seq<Agent>, turns: seq<nat>): seq<Agent>
    requires Schedule(agents, turns)
    decreases |turns|
  {
    if turns == [] then agents else After(Step(agents, turns[0]), turns[1..])
  }

  lemma {:induction false} RunKeeps(agents: seq<Agent>, turns: seq<nat>)
    requires AllDisciplined(agents) && MutuallyExclusive(agents) && Schedule(agents, turns)
    ensures AllDisciplined(After(agents, turns)) && MutuallyExclusive(After(agents, turns))
    ensures |turns| + TotalSize(After(agents, turns)) <= TotalSize(agents)
    decreases |turns|
  {
    if turns != [] {
      StepKeeps(agents, turns[0]);
      SmallerAgent(agents, turns[0], Moved(agents, turns[0]));
      RunKeeps(Step(agents, turns[0]), turns[1..]);
    }
  }

  // ----- The kernel's operations -----

  /**
    The outcomes that decide which locks are taken are parameters: any of them may occur.
    `heap` counts how often an operation on a table, a waker or a future calls the allocator.
  */
  datatype FutureAct =
    | RecvAct(got: bool, heap: nat)
    | SendAct(target: TaskId, found: bool, blocked: bool, heap: nat)
    | HeapAct(heap: nat)
    | PrintAct

  datatype Round = Stale | NotReady(id: TaskId) | Polled(id: TaskId, acts: seq<FutureAct>, finished: bool, heap: nat)

  datatype Op =
    | SpawnOp(heap: nat)
    | SendOp(target: TaskId, found: bool, blocked: bool, heap: nat)
    | ExitOp(id: TaskId, found: bool)
    | SetPriorityOp
    | ReceiveOp                                        // SYS_RECV
    | PublishOp(heap: nat)                             // SYS_REG_SERVICE
    | LookupOp                                         // SYS_GET_SERVICE_PID
    | PrintOp                                          // SYS_PRINT
    | TimerOp(rounds: seq<Round>, scanned: seq<TaskId>)
    | DeviceOp(rounds: seq<Round>)
    | FaultOp(id: TaskId, scanned: seq<TaskId>)
    | EnlistOp(heap: nat)                              // boot: pushing onto TASK_LIST

  function Global(kind: Kind): Lock {
    Lock(kind, 0)
  }

  /** A lock taken and dropped within one statement. */
  function Touch(l: Lock, mode: Mode, k: Prog): Prog {
    Acquire(l, mode, Release(k))
  }

  /** Calls into the allocator, which locks the heap for each of them. */
  function Allocs(heap: nat, k: Prog): Prog {
    if heap == 0 then k else Touch(Global(Heap), Exclusive, Allocs(heap - 1, k))
  }

  /** A lock under which the allocator may be called. */
  function TouchHeap(l: Lock, mode: Mode, heap: nat, k: Prog): Prog {
    Acquire(l, mode, Allocs(heap, Release(k)))
  }

  /** Waking consumes the waker, which may free it. */
  function SendProg(target: TaskId, found: bool, blocked: bool, heap: nat, k: Prog): Prog {
    Acquire(Global(Registry), Shared,
      if !found then Release(k)
      else Acquire(Lock(Mailbox, target), Exclusive, Acquire(Lock(State, target), Exclusive,
        if blocked then TouchHeap(Lock(WakerSlot, target), Exclusive, heap, Release(Release(Release(k))))
        else Release(Release(Release(k))))))
  }

  /** Storing a waker drops the one before, which may free it. */
  function RecvProg(id: TaskId, got: bool, heap: nat, k: Prog): Prog {
    Acquire(Lock(Mailbox, id), Exclusive,
      if got then Touch(Lock(State, id), Exclusive, Release(k))
      else TouchHeap(Lock(WakerSlot, id), Exclusive, heap, Touch(Lock(State, id), Exclusive, Release(k))))
  }

  function ActsProg(id: TaskId, acts: seq<FutureAct>, k: Prog): Prog {
    if acts == [] then k
    else
      var rest := ActsProg(id, acts[1..], k);
      match acts[0]
      case RecvAct(got, heap) => RecvProg(id, got, heap, rest)
      case SendAct(target, found, blocked, heap) => SendProg(target, found, blocked, heap, rest)
      case HeapAct(heap) => Allocs(heap, rest)
      case PrintAct => Touch(Global(Serial), Exclusive, rest)
  }

  /** A finished task leaves the executor's tasks, the registry and the waker cache. */
  function RemoveProg(heap: nat, k: Prog): Prog {
    Allocs(heap, TouchHeap(Global(Registry), Exclusive, heap, Allocs(heap, k)))
  }

  function RoundsProg(rounds: seq<Round>, k: Prog): Prog {
    if rounds == [] then k
    else
      var rest := RoundsProg(rounds[1..], k);
      match rounds[0]
      case Stale => rest
      case NotReady(id) => Touch(Lock(State, id), Exclusive, rest)
      case Polled(id, acts, finished, heap) =>
        Touch(Lock(State, id), Exclusive, Allocs(heap,
          Acquire(Lock(Future, id), Exclusive, ActsProg(id, acts, Release(
            if finished then RemoveProg(heap, rest) else rest)))))
  }

  function DrainProg(rounds: seq<Round>, k: Prog): Prog {
    Try(Global(Executor), RoundsProg(rounds, Release(k)), k)
  }

  function TouchStates(ids: seq<TaskId>, k: Prog): Prog {
    if ids == [] then k else Touch(Lock(State, ids[0]), Exclusive, TouchStates(ids[1..], k))
  }

  function ScheduleProg(scanned: seq<TaskId>, k: Prog): Prog {
    Try(Global(TaskList), TouchStates(scanned, Release(k)), k)
  }

  function OpProg(op: Op, k: Prog): Prog {
    match op
    case SpawnOp(heap) =>
      Acquire(Global(Executor), Exclusive, Allocs(heap, TouchHeap(Global(Registry), Exclusive, heap, Release(k))))
    case SendOp(target, found, blocked, heap) => SendProg(target, found, blocked, heap, k)
    case ExitOp(id, found) =>
      Acquire(Global(Registry), Shared,
        if found then Touch(Lock(State, id), Exclusive, Touch(Global(Serial), Exclusive, Release(k))) else Release(k))
    case SetPriorityOp => Touch(Global(Registry), Shared, k)
    case ReceiveOp => Try(Global(InitBox), Release(k), k)
    case PublishOp(heap) => TouchHeap(Global(Services), Exclusive, heap, k)
    case LookupOp => Touch(Global(Services), Shared, k)
    case PrintOp => Touch(Global(Serial), Exclusive, k)
    case TimerOp(rounds, scanned) =>
      Touch(Global(Pics), Exclusive, DrainProg(rounds, ScheduleProg(scanned, k)))
    case DeviceOp(rounds) =>
      var rest := Touch(Global(Pics), Exclusive, DrainProg(rounds, k));
      Try(Global(InitBox), Release(rest), rest)
    case FaultOp(id, scanned) =>
      var rest := ScheduleProg(scanned, k);
      Try(Global(TaskList), Touch(Global(Serial), Exclusive, Touch(Lock(State, id), Exclusive, Release(rest))), rest)
    case EnlistOp(heap) => TouchHeap(Global(TaskList), Exclusive, heap, k)
  }

  function OpsProg(ops: seq<Op>): Prog {
    if ops == [] then Done else OpProg(ops[0], OpsProg(ops[1..]))
  }

  /** Futures run with at most the executor's and their own lock held. */
  predicate PollContext(h: Held) {
    AllBelow(h, Rank(Global(Registry)))
  }

  lemma {:induction false} BelowHigher(h: Held, low: nat, high: nat)
    requires AllBelow(h, low) && low <= high
    ensures AllBelow(h, high)
  {
    if h.Holding? {
      BelowHigher(h.rest, low, high);
    }
  }

  lemma PollContextBelow(h: Held)
    requires PollContext(h)
    ensures AllBelow(h, 4) && AllBelow(h, 5) && AllBelow(h, 6) && AllBelow(h, 8) && AllBelow(h, 11)
  {
  }

  lemma TouchDisciplined(l: Lock, mode: Mode, k: Prog, h: Held)
    requires AllBelow(h, Rank(l)) && Disciplined(k, h)
    ensures Disciplined(Touch(l, mode, k), h)
  {
  }

  lemma {:induction false} AllocsDisciplined(heap: nat, k: Prog, h: Held)
    requires AllBelow(h, Rank(Global(Heap))) && Disciplined(k, h)
    ensures Disciplined(Allocs(heap, k), h)
  {
    if heap > 0 {
      AllocsDisciplined(heap - 1, k, h);
      TouchDisciplined(Global(Heap), Exclusive, Allocs(heap - 1, k), h);
    }
  }

  lemma TouchHeapDisciplined(l: Lock, mode: Mode, heap: nat, k: Prog, h: Held)
    requires AllBelow(h, Rank(l)) && Rank(l) < Rank(Global(Heap)) && Disciplined(k, h)
    ensures Disciplined(TouchHeap(l, mode, heap, k), h)
  {
    BelowHigher(h, Rank(l), Rank(Global(Heap)));
    AllocsDisciplined(heap, Release(k), Holding(l, mode, h));
  }

  lemma SendDisciplined(target: TaskId, found: bool, blocked: bool, heap: nat, k: Prog, h: Held)
    requires PollContext(h) && Disciplined(k, h)
    ensures Disciplined(SendProg(target, found, blocked, heap, k), h)
  {
    PollContextBelow(h);
    var h1 := Holding(Global(Registry), Shared, h);
    var h2 := Holding(Lock(Mailbox, target), Exclusive, h1);
    var h3 := Holding(Lock(State, target), Exclusive, h2);
    var unwind := Release(Release(Release(k)));
    assert Disciplined(Release(k), h1);
    assert Disciplined(unwind, h3);
    TouchHeapDisciplined(Lock(WakerSlot, target), Exclusive, heap, unwind, h3);
    var rest := if blocked then TouchHeap(Lock(WakerSlot, target), Exclusive, heap, unwind) else unwind;
    assert Disciplined(Acquire(Lock(State, target), Exclusive, rest), h2);
    assert Disciplined(Acquire(Lock(Mailbox, target), Exclusive, Acquire(Lock(State, target), Exclusive, rest)), h1);
  }

  lemma RecvDisciplined(id: TaskId, got: bool, heap: nat, k: Prog, h: Held)
    requires PollContext(h) && Disciplined(k, h)
    ensures Disciplined(RecvProg(id, got, heap, k), h)
  {
    PollContextBelow(h);
    var h1 := Holding(Lock(Mailbox, id), Exclusive, h);
    assert Disciplined(Release(k), h1);
    TouchDisciplined(Lock(State, id), Exclusive, Release(k), h1);
    TouchHeapDisciplined(Lock(WakerSlot, id), Exclusive, heap, Touch(Lock(State, id), Exclusive, Release(k)), h1);
  }

  lemma {:induction false} ActsDisciplined(id: TaskId, acts: seq<FutureAct>, k: Prog, h: Held)
    requires PollContext(h) && Disciplined(k, h)
    ensures Disciplined(ActsProg(id, acts, k), h)
  {
    if acts != [] {
      ActsDisciplined(id, acts[1..], k, h);
      var rest := ActsProg(id, acts[1..], k);
      match acts[0] {
        case RecvAct(got, heap) => RecvDisciplined(id, got, heap, rest, h);
        case SendAct(target, found, blocked, heap) => SendDisciplined(target, found, blocked, heap, rest, h);
        case HeapAct(heap) =>
          PollContextBelow(h);
          AllocsDisciplined(heap, rest, h);
        case PrintAct =>
          PollContextBelow(h);
          TouchDisciplined(Global(Serial), Exclusive, rest, h);
      }
    }
  }

  lemma RemoveDisciplined(heap: nat, k: Prog, h: Held)
    requires AllBelow(h, Rank(Global(Registry))) && Disciplined(k, h)
    ensures Disciplined(RemoveProg(heap, k), h)
  {
    PollContextBelow(h);
    AllocsDisciplined(heap, k, h);
    TouchHeapDisciplined(Global(Registry), Exclusive, heap, Allocs(heap, k), h);
    AllocsDisciplined(heap, TouchHeap(Global(Registry), Exclusive, heap, Allocs(heap, k)), h);
  }

  lemma {:induction false} RoundsDisciplined(rounds: seq<Round>, k: Prog)
    requires Disciplined(k, Holding(Global(Executor), Exclusive, Nothing))
    ensures Disciplined(RoundsProg(rounds, k), Holding(Global(Executor), Exclusive, Nothing))
  {
    if rounds != [] {
      var h := Holding(Global(Executor), Exclusive, Nothing);
      RoundsDisciplined(rounds[1..], k);
      var rest := RoundsProg(rounds[1..], k);
      match rounds[0] {
        case Stale =>
        case NotReady(id) => TouchDisciplined(Lock(State, id), Exclusive, rest, h);
        case Polled(id, acts, finished, heap) =>
          RemoveDisciplined(heap, rest, h);
          var tail := if finished then RemoveProg(heap, rest) else rest;
          var h1 := Holding(Lock(Future, id), Exclusive, h);
          assert PollContext(h1);
          assert Disciplined(Release(tail), h1);
          ActsDisciplined(id, acts, Release(tail), h1);
          var poll := Acquire(Lock(Future, id), Exclusive, ActsProg(id, acts, Release(tail)));
          assert Disciplined(poll, h);
          AllocsDisciplined(heap, poll, h);
          TouchDisciplined(Lock(State, id), Exclusive, Allocs(heap, poll), h);
      }
    }
  }

  lemma {:induction false} TouchStatesDisciplined(ids: seq<TaskId>, k: Prog, h: Held)
    requires AllBelow(h, 5) && Disciplined(k, h)
    ensures Disciplined(TouchStates(ids, k), h)
  {
    if ids != [] {
      TouchStatesDisciplined(ids[1..], k, h);
      TouchDisciplined(Lock(State, ids[0]), Exclusive, TouchStates(ids[1..], k), h);
    }
  }

  lemma DrainDisciplined(rounds: seq<Round>, k: Prog)
    requires Disciplined(k, Nothing)
    ensures Disciplined(DrainProg(rounds, k), Nothing)
  {
    RoundsDisciplined(rounds, Release(k));
  }

  lemma ScheduleDisciplined(scanned: seq<TaskId>, k: Prog)
    requires Disciplined(k, Nothing)
    ensures Disciplined(ScheduleProg(scanned, k), Nothing)
  {
    TouchStatesDisciplined(scanned, Release(k), Holding(Global(TaskList), Exclusive, Nothing));
  }

  /** Every operation obeys the ranking. */
  lemma OpDisciplined(op: Op, k: Prog)
    requires Disciplined(k, Nothing)
    ensures Disciplined(OpProg(op, k), Nothing)
  {
    match op {
      case SpawnOp(heap) =>
        var h := Holding(Global(Executor), Exclusive, Nothing);
        assert Disciplined(Release(k), h);
        TouchHeapDisciplined(Global(Registry), Exclusive, heap, Release(k), h);
        AllocsDisciplined(heap, TouchHeap(Global(Registry), Exclusive, heap, Release(k)), h);
      case SendOp(target, found, blocked, heap) => SendDisciplined(target, found, blocked, heap, k, Nothing);
      case ExitOp(id, found) =>
        var h := Holding(Global(Registry), Shared, Nothing);
        assert Disciplined(Release(k), h);
        TouchDisciplined(Global(Serial), Exclusive, Release(k), h);
        TouchDisciplined(Lock(State, id), Exclusive, Touch(Global(Serial), Exclusive, Release(k)), h);
      case SetPriorityOp => TouchDisciplined(Global(Registry), Shared, k, Nothing);
      case ReceiveOp => assert Disciplined(Release(k), Holding(Global(InitBox), Exclusive, Nothing));
      case PublishOp(heap) => TouchHeapDisciplined(Global(Services), Exclusive, heap, k, Nothing);
      case LookupOp => TouchDisciplined(Global(Services), Shared, k, Nothing);
      case PrintOp => TouchDisciplined(Global(Serial), Exclusive, k, Nothing);
      case TimerOp(rounds, scanned) =>
        ScheduleDisciplined(scanned, k);
        DrainDisciplined(rounds, ScheduleProg(scanned, k));
        TouchDisciplined(Global(Pics), Exclusive, DrainProg(rounds, ScheduleProg(scanned, k)), Nothing);
      case DeviceOp(rounds) =>
        DrainDisciplined(rounds, k);
        var rest := Touch(Global(Pics), Exclusive, DrainProg(rounds, k));
        TouchDisciplined(Global(Pics), Exclusive, DrainProg(rounds, k), Nothing);
        assert Disciplined(Release(rest), Holding(Global(InitBox), Exclusive, Nothing));
      case FaultOp(id, scanned) =>
        var h := Holding(Global(TaskList), Exclusive, Nothing);
        var rest := ScheduleProg(scanned, k);
        ScheduleDisciplined(scanned, k);
        assert Disciplined(Release(rest), h);
        TouchDisciplined(Lock(State, id), Exclusive, Release(rest), h);
        TouchDisciplined(Global(Serial), Exclusive, Touch(Lock(State, id), Exclusive, Release(rest)), h);
      case EnlistOp(heap) => TouchHeapDisciplined(Global(TaskList), Exclusive, heap, k, Nothing);
    }
  }

  // ----- Which locks an operation works under -----

  datatype Need = Need(lock: Lock, mode: Mode)

  predicate HoldsAs(h: Held, n: Need) {
    h.Holding? && ((h.lock == n.lock && h.mode == n.mode) || HoldsAs(h.rest, n))
  }

  predicate HoldsAll(h: Held, needs: set<Need>) {
    forall n :: n in needs ==> HoldsAs(h, n)
  }

  /** When its tries succeed, the program passes a state in which it holds all of these at once. */
  predicate Passes(p: Prog, h: Held, needs: set<Need>)
    decreases p
  {
    HoldsAll(h, needs) ||
    match p
    case Done => false
    case Acquire(l, mode, k) => Passes(k, Holding(l, mode, h), needs)
    case Release(k) => h.Holding? && Passes(k, h.rest, needs)
    case Try(l, got, _) => Passes(got, Holding(l, Exclusive, h), needs)
  }

  function Shares(kind: Kind): Need {
    Need(Global(kind), Shared)
  }

  function Owns(kind: Kind): Need {
    Need(Global(kind), Exclusive)
  }

  function OwnsOf(kind: Kind, id: TaskId): Need {
    Need(Lock(kind, id), Exclusive)
  }

  /** What a send must hold at once, beyond `base`: to store, to look at the state, and to take the waker. */
  function SendNeeds(base: set<Need>, target: TaskId, found: bool, blocked: bool): set<set<Need>> {
    if !found then {base + {Shares(Registry)}}
    else
      var store := base + {Shares(Registry)} + {OwnsOf(Mailbox, target)} + {OwnsOf(State, target)};
      if blocked then {store, store + {OwnsOf(WakerSlot, target)}} else {store}
  }

  /** A receive looks, takes or registers, and stores the state, all under its mailbox. */
  function RecvNeeds(base: set<Need>, id: TaskId, got: bool): set<set<Need>> {
    var box := base + {OwnsOf(Mailbox, id)};
    if got then {box + {OwnsOf(State, id)}} else {box + {OwnsOf(WakerSlot, id)}, box + {OwnsOf(State, id)}}
  }

  function ActNeeds(base: set<Need>, id: TaskId, act: FutureAct): set<set<Need>> {
    match act
    case RecvAct(got, _) => RecvNeeds(base, id, got)
    case SendAct(target, found, blocked, _) => SendNeeds(base, target, found, blocked)
    case HeapAct(heap) => if heap > 0 then {base + {Owns(Heap)}} else {}
    case PrintAct => {base + {Owns(Serial)}}
  }

  /** A poll runs under the executor and its own future; removing a finished task writes the registry. */
  function RoundNeeds(round: Round): set<set<Need>> {
    match round
    case Stale => {}
    case NotReady(id) => {{Owns(Executor), OwnsOf(State, id)}}
    case Polled(id, acts, finished, _) =>
      {{Owns(Executor), OwnsOf(State, id)}, {Owns(Executor), OwnsOf(Future, id)}}
      + (set i, needs | 0 <= i < |acts| && needs in ActNeeds({Owns(Executor), OwnsOf(Future, id)}, id, acts[i]) :: needs)
      + if finished then {{Owns(Executor), Owns(Registry)}} else {}
  }

  function DrainNeeds(rounds: seq<Round>): set<set<Need>> {
    {{Owns(Executor)}} + set i, needs | 0 <= i < |rounds| && needs in RoundNeeds(rounds[i]) :: needs
  }

  function ScheduleNeeds(scanned: seq<TaskId>): set<set<Need>> {
    {{Owns(TaskList)}} + set i | 0 <= i < |scanned| :: {Owns(TaskList), OwnsOf(State, scanned[i])}
  }

  /** The lock sets each operation must hold at once, for the data it works on. */
  function OpNeeds(op: Op): set<set<Need>> {
    match op
    case SpawnOp(_) => {{Owns(Executor), Owns(Registry)}}
    case SendOp(target, found, blocked, _) => SendNeeds({}, target, found, blocked)
    case ExitOp(id, found) => {if found then {Shares(Registry), OwnsOf(State, id)} else {Shares(Registry)}}
    case SetPriorityOp => {{Shares(Registry)}}
    case ReceiveOp => {{Owns(InitBox)}}
    case PublishOp(_) => {{Owns(Services)}}
    case LookupOp => {{Shares(Services)}}
    case PrintOp => {{Owns(Serial)}}
    case TimerOp(rounds, scanned) => DrainNeeds(rounds) + ScheduleNeeds(scanned)
    case DeviceOp(rounds) => {{Owns(InitBox)}} + DrainNeeds(rounds)
    case FaultOp(id, scanned) => {{Owns(TaskList), OwnsOf(State, id)}} + ScheduleNeeds(scanned)
    case EnlistOp(_) => {{Owns(TaskList)}}
  }

  lemma {:induction false} AllocsPass(heap: nat, k: Prog, h: Held, needs: set<Need>)
    requires Passes(k, h, needs)
    ensures Passes(Allocs(heap, k), h, needs)
  {
    if heap > 0 {
      AllocsPass(heap - 1, k, h, needs);
    }
  }

  lemma TouchPasses(l: Lock, mode: Mode, k: Prog, h: Held, needs: set<Need>)
    requires Passes(k, h, needs) || HoldsAll(Holding(l, mode, h), needs)
    ensures Passes(Touch(l, mode, k), h, needs)
  {
  }

  lemma TouchHeapPasses(l: Lock, mode: Mode, heap: nat, k: Prog, h: Held, needs: set<Need>)
    requires Passes(k, h, needs) || HoldsAll(Holding(l, mode, h), needs)
    ensures Passes(TouchHeap(l, mode, heap, k), h, needs)
  {
    if !HoldsAll(Holding(l, mode, h), needs) {
      AllocsPass(heap, Release(k), Holding(l, mode, h), needs);
    }
  }

  /** One more lock: what was held is held still, and it is held too. */
  lemma HoldsMore(h: Held, l: Lock, mode: Mode, base: set<Need>)
    requires HoldsAll(h, base)
    ensures HoldsAll(Holding(l, mode, h), base) && HoldsAll(Holding(l, mode, h), base + {Need(l, mode)})
  {
  }

  lemma HoldsBoth(l1: Lock, mode: Mode, l2: Lock)
    ensures HoldsAll(Holding(l2, Exclusive, Holding(l1, mode, Nothing)), {Need(l1, mode), Need(l2, Exclusive)})
  {
    HoldsMore(Holding(l1, mode, Nothing), l2, Exclusive, {Need(l1, mode)});
  }

  lemma SendPasses(
    target: TaskId, found: bool, blocked: bool, heap: nat, k: Prog, h: Held, base: set<Need>, needs: set<Need>)
    requires HoldsAll(h, base) && needs in SendNeeds(base, target, found, blocked)
    ensures Passes(SendProg(target, found, blocked, heap, k), h, needs)
  {
    var h1 := Holding(Global(Registry), Shared, h);
    var h2 := Holding(Lock(Mailbox, target), Exclusive, h1);
    var h3 := Holding(Lock(State, target), Exclusive, h2);
    var r := base + {Shares(Registry)};
    var b := r + {OwnsOf(Mailbox, target)};
    HoldsMore(h, Global(Registry), Shared, base);
    HoldsMore(h1, Lock(Mailbox, target), Exclusive, r);
    HoldsMore(h2, Lock(State, target), Exclusive, b);
    if found && blocked {
      HoldsMore(h3, Lock(WakerSlot, target), Exclusive, b + {OwnsOf(State, target)});
      var rest := TouchHeap(Lock(WakerSlot, target), Exclusive, heap, Release(Release(Release(k))));
      assert Passes(rest, h3, needs);
      assert Passes(Acquire(Lock(State, target), Exclusive, rest), h2, needs);
    } else if found {
      assert Passes(Acquire(Lock(State, target), Exclusive, Release(Release(Release(k)))), h2, needs);
    }
  }

  lemma RecvPasses(id: TaskId, got: bool, heap: nat, k: Prog, h: Held, base: set<Need>, needs: set<Need>)
    requires HoldsAll(h, base) && needs in RecvNeeds(base, id, got)
    ensures Passes(RecvProg(id, got, heap, k), h, needs)
  {
    var h1 := Holding(Lock(Mailbox, id), Exclusive, h);
    var box := base + {OwnsOf(Mailbox, id)};
    HoldsMore(h, Lock(Mailbox, id), Exclusive, base);
    HoldsMore(h1, Lock(State, id), Exclusive, box);
    HoldsMore(h1, Lock(WakerSlot, id), Exclusive, box);
    var state := Touch(Lock(State, id), Exclusive, Release(k));
    if got || needs == box + {OwnsOf(State, id)} {
      TouchPasses(Lock(State, id), Exclusive, Release(k), h1, needs);
    }
    if !got {
      TouchHeapPasses(Lock(WakerSlot, id), Exclusive, heap, state, h1, needs);
    }
  }

  lemma ActPasses(id: TaskId, act: FutureAct, acts: seq<FutureAct>, k: Prog, h: Held, base: set<Need>, needs: set<Need>)
    requires HoldsAll(h, base) && acts != [] && acts[0] == act && needs in ActNeeds(base, id, act)
    ensures Passes(ActsProg(id, acts, k), h, needs)
  {
    var rest := ActsProg(id, acts[1..], k);
    match act {
      case RecvAct(got, heap) => RecvPasses(id, got, heap, rest, h, base, needs);
      case SendAct(target, found, blocked, heap) => SendPasses(target, found, blocked, heap, rest, h, base, needs);
      case HeapAct(heap) =>
        HoldsMore(h, Global(Heap), Exclusive, base);
        TouchPasses(Global(Heap), Exclusive, Allocs(heap - 1, rest), h, needs);
      case PrintAct =>
        HoldsMore(h, Global(Serial), Exclusive, base);
        TouchPasses(Global(Serial), Exclusive, rest, h, needs);
    }
  }

  /** A program passes whatever its continuation passes. */
  lemma SendContinues(target: TaskId, found: bool, blocked: bool, heap: nat, k: Prog, h: Held, needs: set<Need>)
    requires Passes(k, h, needs)
    ensures Passes(SendProg(target, found, blocked, heap, k), h, needs)
  {
    var h1 := Holding(Global(Registry), Shared, h);
    var h2 := Holding(Lock(Mailbox, target), Exclusive, h1);
    var h3 := Holding(Lock(State, target), Exclusive, h2);
    assert Passes(Release(k), h1, needs);
    assert Passes(Release(Release(k)), h2, needs);
    assert Passes(Release(Release(Release(k))), h3, needs);
    TouchHeapPasses(Lock(WakerSlot, target), Exclusive, heap, Release(Release(Release(k))), h3, needs);
    var rest := if blocked then TouchHeap(Lock(WakerSlot, target), Exclusive, heap, Release(Release(Release(k))))
      else Release(Release(Release(k)));
    assert Passes(Acquire(Lock(State, target), Exclusive, rest), h2, needs);
    assert Passes(Acquire(Lock(Mailbox, target), Exclusive, Acquire(Lock(State, target), Exclusive, rest)), h1, needs);
  }

  lemma RecvContinues(id: TaskId, got: bool, heap: nat, k: Prog, h: Held, needs: set<Need>)
    requires Passes(k, h, needs)
    ensures Passes(RecvProg(id, got, heap, k), h, needs)
  {
    var h1 := Holding(Lock(Mailbox, id), Exclusive, h);
    TouchPasses(Lock(State, id), Exclusive, Release(k), h1, needs);
    TouchHeapPasses(Lock(WakerSlot, id), Exclusive, heap, Touch(Lock(State, id), Exclusive, Release(k)), h1, needs);
  }

  lemma {:induction false} ActsContinue(id: TaskId, acts: seq<FutureAct>, k: Prog, h: Held, needs: set<Need>)
    requires Passes(k, h, needs)
    ensures Passes(ActsProg(id, acts, k), h, needs)
  {
    if acts != [] {
      ActsContinue(id, acts[1..], k, h, needs);
      ActContinues(id, acts, k, h, needs);
    }
  }

  lemma ActContinues(id: TaskId, acts: seq<FutureAct>, k: Prog, h: Held, needs: set<Need>)
    requires acts != [] && Passes(ActsProg(id, acts[1..], k), h, needs)
    ensures Passes(ActsProg(id, acts, k), h, needs)
  {
    var rest := ActsProg(id, acts[1..], k);
    match acts[0] {
      case RecvAct(got, heap) => RecvContinues(id, got, heap, rest, h, needs);
      case SendAct(target, found, blocked, heap) => SendContinues(target, found, blocked, heap, rest, h, needs);
      case HeapAct(heap) => AllocsPass(heap, rest, h, needs);
      case PrintAct => TouchPasses(Global(Serial), Exclusive, rest, h, needs);
    }
  }

  lemma {:induction false} ActsPass(
    id: TaskId, acts: seq<FutureAct>, i: nat, k: Prog, h: Held, base: set<Need>, needs: set<Need>)
    requires HoldsAll(h, base) && i < |acts| && needs in ActNeeds(base, id, acts[i])
    ensures Passes(ActsProg(id, acts, k), h, needs)
    decreases i
  {
    if i == 0 {
      ActPasses(id, acts[0], acts, k, h, base, needs);
    } else {
      ActsPass(id, acts[1..], i - 1, k, h, base, needs);
      ActContinues(id, acts, k, h, needs);
    }
  }

  lemma RemoveContinues(heap: nat, k: Prog, h: Held, needs: set<Need>)
    requires Passes(k, h, needs) || HoldsAll(Holding(Global(Registry), Exclusive, h), needs)
    ensures Passes(RemoveProg(heap, k), h, needs)
  {
    if Passes(k, h, needs) {
      AllocsPass(heap, k, h, needs);
    }
    TouchHeapPasses(Global(Registry), Exclusive, heap, Allocs(heap, k), h, needs);
    AllocsPass(heap, TouchHeap(Global(Registry), Exclusive, heap, Allocs(heap, k)), h, needs);
  }

  lemma RoundContinues(rounds: seq<Round>, k: Prog, h: Held, needs: set<Need>)
    requires rounds != [] && Passes(RoundsProg(rounds[1..], k), h, needs)
    ensures Passes(RoundsProg(rounds, k), h, needs)
  {
    var rest := RoundsProg(rounds[1..], k);
    match rounds[0] {
      case Stale =>
      case NotReady(id) => TouchPasses(Lock(State, id), Exclusive, rest, h, needs);
      case Polled(id, acts, finished, heap) =>
        RemoveContinues(heap, rest, h, needs);
        var tail := if finished then RemoveProg(heap, rest) else rest;
        var h1 := Holding(Lock(Future, id), Exclusive, h);
        assert Passes(Release(tail), h1, needs);
        ActsContinue(id, acts, Release(tail), h1, needs);
        PollPasses(id, acts, heap, Release(tail), h, needs);
    }
  }

  /** Around a poll: the state check, a waker for the cache, the future's lock. */
  lemma PollPasses(id: TaskId, acts: seq<FutureAct>, heap: nat, tail: Prog, h: Held, needs: set<Need>)
    requires
      || HoldsAll(Holding(Lock(State, id), Exclusive, h), needs)
      || Passes(ActsProg(id, acts, tail), Holding(Lock(Future, id), Exclusive, h), needs)
    ensures var poll := Acquire(Lock(Future, id), Exclusive, ActsProg(id, acts, tail));
      Passes(Touch(Lock(State, id), Exclusive, Allocs(heap, poll)), h, needs)
  {
    var poll := Acquire(Lock(Future, id), Exclusive, ActsProg(id, acts, tail));
    if Passes(ActsProg(id, acts, tail), Holding(Lock(Future, id), Exclusive, h), needs) {
      AllocsPass(heap, poll, h, needs);
    }
    TouchPasses(Lock(State, id), Exclusive, Allocs(heap, poll), h, needs);
  }

  /** The executor's lock is held throughout a drain. */
  const DRAINING := Holding(Lock(Executor, 0), Exclusive, Nothing)

  lemma RoundPasses(rounds: seq<Round>, k: Prog, needs: set<Need>)
    requires rounds != [] && needs in RoundNeeds(rounds[0])
    ensures Passes(RoundsProg(rounds, k), DRAINING, needs)
  {
    var rest := RoundsProg(rounds[1..], k);
    match rounds[0] {
      case Stale =>
      case NotReady(id) =>
        HoldsBoth(Global(Executor), Exclusive, Lock(State, id));
        TouchPasses(Lock(State, id), Exclusive, rest, DRAINING, needs);
      case Polled(id, acts, finished, heap) =>
        HoldsBoth(Global(Executor), Exclusive, Lock(State, id));
        HoldsBoth(Global(Executor), Exclusive, Lock(Future, id));
        HoldsBoth(Global(Executor), Exclusive, Global(Registry));
        var tail := if finished then RemoveProg(heap, rest) else rest;
        var h1 := Holding(Lock(Future, id), Exclusive, DRAINING);
        if i :| 0 <= i < |acts| && needs in ActNeeds({Owns(Executor), OwnsOf(Future, id)}, id, acts[i]) {
          ActsPass(id, acts, i, Release(tail), h1, {Owns(Executor), OwnsOf(Future, id)}, needs);
        } else if finished && needs == {Owns(Executor), Owns(Registry)} {
          RemoveContinues(heap, rest, DRAINING, needs);
          assert Passes(Release(tail), h1, needs);
          ActsContinue(id, acts, Release(tail), h1, needs);
        } else if HoldsAll(h1, needs) {
          assert Passes(ActsProg(id, acts, Release(tail)), h1, needs);
        }
        PollPasses(id, acts, heap, Release(tail), DRAINING, needs);
    }
  }

  lemma {:induction false} RoundsPass(rounds: seq<Round>, i: nat, k: Prog, needs: set<Need>)
    requires i < |rounds| && needs in RoundNeeds(rounds[i])
    ensures Passes(RoundsProg(rounds, k), DRAINING, needs)
    decreases i
  {
    if i == 0 {
      RoundPasses(rounds, k, needs);
    } else {
      RoundsPass(rounds[1..], i - 1, k, needs);
      RoundContinues(rounds, k, DRAINING, needs);
    }
  }

  lemma {:induction false} RoundsContinue(rounds: seq<Round>, k: Prog, h: Held, needs: set<Need>)
    requires Passes(k, h, needs)
    ensures Passes(RoundsProg(rounds, k), h, needs)
  {
    if rounds != [] {
      RoundsContinue(rounds[1..], k, h, needs);
      RoundContinues(rounds, k, h, needs);
    }
  }

  lemma DrainPasses(rounds: seq<Round>, k: Prog, needs: set<Need>)
    requires needs in DrainNeeds(rounds) || Passes(k, Nothing, needs)
    ensures Passes(DrainProg(rounds, k), Nothing, needs)
  {
    if needs in DrainNeeds(rounds) {
      if i :| 0 <= i < |rounds| && needs in RoundNeeds(rounds[i]) {
        RoundsPass(rounds, i, Release(k), needs);
      }
    } else {
      assert Passes(Release(k), DRAINING, needs);
      RoundsContinue(rounds, Release(k), DRAINING, needs);
    }
  }

  lemma {:induction false} TouchStatesPass(ids: seq<TaskId>, i: nat, k: Prog, h: Held, needs: set<Need>)
    requires i < |ids| && HoldsAll(Holding(Lock(State, ids[i]), Exclusive, h), needs)
    ensures Passes(TouchStates(ids, k), h, needs)
    decreases i
  {
    if i > 0 {
      TouchStatesPass(ids[1..], i - 1, k, h, needs);
    }
    TouchPasses(Lock(State, ids[0]), Exclusive, TouchStates(ids[1..], k), h, needs);
  }

  lemma SchedulePasses(scanned: seq<TaskId>, k: Prog, needs: set<Need>)
    requires needs in ScheduleNeeds(scanned)
    ensures Passes(ScheduleProg(scanned, k), Nothing, needs)
  {
    if i :| 0 <= i < |scanned| && needs == {Owns(TaskList), OwnsOf(State, scanned[i])} {
      TouchStatesPass(scanned, i, Release(k), Holding(Global(TaskList), Exclusive, Nothing), needs);
    }
  }

  /** Every operation holds, at some moment and all at once, each set of locks that its work on shared data needs. */
  lemma OpHolds(op: Op, k: Prog, needs: set<Need>)
    requires needs in OpNeeds(op)
    ensures Passes(OpProg(op, k), Nothing, needs)
  {
    match op {
      case SpawnOp(heap) =>
        var h := Holding(Global(Executor), Exclusive, Nothing);
        HoldsBoth(Global(Executor), Exclusive, Global(Registry));
        TouchHeapPasses(Global(Registry), Exclusive, heap, Release(k), h, needs);
        AllocsPass(heap, TouchHeap(Global(Registry), Exclusive, heap, Release(k)), h, needs);
      case SendOp(target, found, blocked, heap) => SendPasses(target, found, blocked, heap, k, Nothing, {}, needs);
      case ExitOp(id, found) =>
        var h := Holding(Global(Registry), Shared, Nothing);
        if found {
          HoldsBoth(Global(Registry), Shared, Lock(State, id));
          TouchPasses(Lock(State, id), Exclusive, Touch(Global(Serial), Exclusive, Release(k)), h, needs);
        }
      case SetPriorityOp => TouchPasses(Global(Registry), Shared, k, Nothing, needs);
      case ReceiveOp =>
      case PublishOp(heap) => TouchHeapPasses(Global(Services), Exclusive, heap, k, Nothing, needs);
      case LookupOp => TouchPasses(Global(Services), Shared, k, Nothing, needs);
      case PrintOp => TouchPasses(Global(Serial), Exclusive, k, Nothing, needs);
      case TimerOp(rounds, scanned) =>
        if needs in ScheduleNeeds(scanned) {
          SchedulePasses(scanned, k, needs);
        }
        DrainPasses(rounds, ScheduleProg(scanned, k), needs);
        TouchPasses(Global(Pics), Exclusive, DrainProg(rounds, ScheduleProg(scanned, k)), Nothing, needs);
      case DeviceOp(rounds) =>
        var rest := Touch(Global(Pics), Exclusive, DrainProg(rounds, k));
        if needs in DrainNeeds(rounds) {
          DrainPasses(rounds, k, needs);
          TouchPasses(Global(Pics), Exclusive, DrainProg(rounds, k), Nothing, needs);
          assert Passes(Release(rest), Holding(Global(InitBox), Exclusive, Nothing), needs);
        }
      case FaultOp(id, scanned) => FaultHolds(id, scanned, k, needs);
      case EnlistOp(heap) => TouchHeapPasses(Global(TaskList), Exclusive, heap, k, Nothing, needs);
    }
  }

  lemma FaultHolds(id: TaskId, scanned: seq<TaskId>, k: Prog, needs: set<Need>)
    requires needs == {Owns(TaskList), OwnsOf(State, id)} || needs in ScheduleNeeds(scanned)
    ensures Passes(OpProg(FaultOp(id, scanned), k), Nothing, needs)
  {
    var h := Holding(Global(TaskList), Exclusive, Nothing);
    var rest := ScheduleProg(scanned, k);
    if needs in ScheduleNeeds(scanned) {
      SchedulePasses(scanned, k, needs);
      assert Passes(Release(rest), h, needs);
    }
    HoldsBoth(Global(TaskList), Exclusive, Lock(State, id));
    TouchPasses(Lock(State, id), Exclusive, Release(rest), h, needs);
    TouchPasses(Global(Serial), Exclusive, Touch(Lock(State, id), Exclusive, Release(rest)), h, needs);
  }

  lemma {:induction false} OpsDisciplined(ops: seq<Op>)
    ensures Disciplined(OpsProg(ops), Nothing)
  {
    if ops != [] {
      OpsDisciplined(ops[1..]);
      OpDisciplined(ops[0], OpsProg(ops[1..]));
    }
  }

  function Launch(work: seq<seq<Op>>): (agents: seq<Agent>)
    ensures |agents| == |work|
  {
    seq(|work|, i requires 0 <= i < |work| => Agent(OpsProg(work[i]), Nothing))
  }

  /**
    Deadlock freedom: any number of agents, each running any list of operations with any outcomes,
    under any interleaving. Locks exclude each other, whoever has not finished is not stuck for ever since
    some agent can step, and no run is longer than the work there is.
  */
  lemma NoDeadlock(work: seq<seq<Op>>, turns: seq<nat>)
    requires Schedule(Launch(work), turns)
    ensures var agents := After(Launch(work), turns);
      && MutuallyExclusive(agents)
      && ((exists j :: CanStep(agents, j)) <==> (exists i :: 0 <= i < |agents| && !agents[i].prog.Done?))
      && |turns| <= TotalSize(Launch(work))
  {
    forall i | 0 <= i < |work|
      ensures Disciplined(Launch(work)[i].prog, Launch(work)[i].held)
    {
      OpsDisciplined(work[i]);
    }
    RunKeeps(Launch(work), turns);
    var agents := After(Launch(work), turns);
    if i :| 0 <= i < |agents| && !agents[i].prog.Done? {
      var j := ChaseToMover(agents, i);
    }
  }

  lemma {:induction false} OwnedIsExclusive(h: Held, l: Lock)
    requires HoldsAs(h, Need(l, Exclusive))
    ensures HoldsExclusive(h, l)
  {
    if !(h.lock == l && h.mode == Exclusive) {
      OwnedIsExclusive(h.rest, l);
    }
  }

  /**
    In every reachable state the holder of an exclusive lock is alone with it. With `OpHolds`: two sends to one task
    are never both between their store and their wake, nor a send and a receive.
  */
  lemma OwnersExclude(work: seq<seq<Op>>, turns: seq<nat>, i: nat, j: nat, l: Lock)
    requires Schedule(Launch(work), turns)
    requires var agents := After(Launch(work), turns);
      i < |agents| && j < |agents| && i != j && HoldsAs(agents[i].held, Need(l, Exclusive))
    ensures !Holds(After(Launch(work), turns)[j].held, l)
  {
    NoDeadlock(work, turns);
    OwnedIsExclusive(After(Launch(work), turns)[i].held, l);
  }
}
