/**
  One task's mailbox protocol at the granularity of single lock operations: the executor polling the task's
  `IpcReceiveFuture`, and any number of senders in SYS_SEND, interleaved in any order.
  Pushing a token always finds room here: module Tokens proves that it does.
*/
module IpcSteps {
  import opened Options
  import opened Mailbox
  import opened Tasks
  import Exec = AsyncExecutor

  datatype Holder = Free | Receiver | Sender(i: nat)

  /**
    Where the executor is with this task. From `Locked` to `Leaving` or `Delivering` it holds the mailbox lock.
    Each constructor names what has been done last.
  */
  datatype RPc = Idle | Popped | Checked | Locked | Took | FoundEmpty | Registered | Leaving | Delivering | Goes | Finished

  /** Where a sender is; it holds the mailbox lock throughout, and the state lock from `HasState` to `Waked`. */
  datatype SPc = Outside | Holds(msg: Message) | Stored | HasState | MadeReady | TookWaker | Waked | LeftState

  /** `tokens` counts the task's id in the executor's queue. */
  datatype St = St(
    mailbox: Slot, state: TaskState, waker: bool, tokens: nat,
    mailboxLock: Holder, stateLock: Option<nat>, receiver: RPc, senders: seq<SPc>)

  /** `again`: a future that got its message awaits the next one, or finishes. `Kill` is an exit or a fault. */
  datatype Event = ReceiverMoves(again: bool) | SenderMoves(i: nat, msg: Message) | Kill

  ghost predicate Enabled(s: St, e: Event) {
    match e
    case ReceiverMoves(_) =>
      (match s.receiver
       case Idle => s.tokens > 0
       case Checked => s.mailboxLock == Free
       case Popped => s.stateLock.None?
       case Took => s.stateLock.None?
       case Registered => s.stateLock.None?
       case Finished => false
       case _ => true)
    case SenderMoves(i, _) =>
      && i < |s.senders|
      && (s.senders[i].Outside? ==> s.mailboxLock == Free)
      && (s.senders[i].Stored? ==> s.stateLock.None?)
    case Kill => s.stateLock.None?
  }

  function ReceiverStep(s: St, again: bool): St {
    match s.receiver
    case Idle => if s.tokens > 0 then s.(tokens := s.tokens - 1, receiver := Popped) else s
    case Popped => s.(receiver := if s.state == Ready then Checked else Idle)
    case Checked => s.(mailboxLock := Receiver, receiver := Locked)
    case Locked =>
      if s.mailbox.pending.Some? then s.(mailbox := s.mailbox.Take(), receiver := Took)
      else s.(receiver := FoundEmpty)
    case Took => s.(state := Ready, receiver := Delivering)
    case FoundEmpty => s.(waker := true, receiver := Registered)
    case Registered => s.(state := Blocked, receiver := Leaving)
    case Leaving => s.(mailboxLock := Free, receiver := Idle)
    case Delivering => s.(mailboxLock := Free, receiver := Goes)
    case Goes => s.(receiver := if again then Checked else Finished)
    case Finished => s
  }

  function SenderStep(s: St, i: nat, msg: Message): St
    requires i < |s.senders|
  {
    match s.senders[i]
    case Outside => s.(mailboxLock := Sender(i), senders := s.senders[i := Holds(msg)])
    case Holds(m) => s.(mailbox := s.mailbox.Store(m), senders := s.senders[i := Stored])
    case Stored => s.(stateLock := Some(i), senders := s.senders[i := HasState])
    case HasState =>
      if s.state == Blocked then s.(state := Ready, senders := s.senders[i := MadeReady])
      else s.(senders := s.senders[i := Waked])
    case MadeReady =>
      if s.waker then s.(waker := false, senders := s.senders[i := TookWaker])
      else s.(senders := s.senders[i := Waked])
    case TookWaker => s.(tokens := s.tokens + 1, senders := s.senders[i := Waked])
    case Waked => s.(stateLock := None, senders := s.senders[i := LeftState])
    case LeftState => s.(mailboxLock := Free, senders := s.senders[i := Outside])
  }

  function Next(s: St, e: Event): St
    requires Enabled(s, e)
  {
    match e
    case ReceiverMoves(again) => ReceiverStep(s, again)
    case SenderMoves(i, msg) => SenderStep(s, i, msg)
    case Kill => s.(state := Terminated)
  }

  // ----- The invariant -----

  predicate ReceiverHolds(pc: RPc) {
    pc.Locked? || pc.Took? || pc.FoundEmpty? || pc.Registered? || pc.Leaving? || pc.Delivering?
  }

  predicate SenderHasState(pc: SPc) {
    pc.HasState? || pc.MadeReady? || pc.TookWaker? || pc.Waked?
  }

  /** The executor is polling the task and has not put it to sleep. */
  predicate Polling(pc: RPc) {
    !pc.Idle? && !pc.Leaving?
  }

  /** A sender has made the task Ready but not yet queued its token. */
  predicate Waking(s: St) {
    s.mailboxLock.Sender? && s.mailboxLock.i < |s.senders| &&
    (s.senders[s.mailboxLock.i].MadeReady? || s.senders[s.mailboxLock.i].TookWaker?)
  }

  /** Who is responsible for the task being looked at: a token, the executor, or a sender about to push. */
  function Credit(s: St): nat {
    s.tokens + (if Polling(s.receiver) then 1 else 0) + (if Waking(s) then 1 else 0)
  }

  /** A sender has stored a message and is about to look at the state. */
  predicate Storing(s: St) {
    s.mailboxLock.Sender? && s.mailboxLock.i < |s.senders| &&
    (s.senders[s.mailboxLock.i].Stored? || s.senders[s.mailboxLock.i].HasState?)
  }

  ghost predicate LocksAgree(s: St) {
    && (ReceiverHolds(s.receiver) <==> s.mailboxLock == Receiver)
    && (forall i :: 0 <= i < |s.senders| ==> (!s.senders[i].Outside? <==> s.mailboxLock == Sender(i)))
    && (forall i :: 0 <= i < |s.senders| ==> (SenderHasState(s.senders[i]) <==> s.stateLock == Some(i)))
    && (s.mailboxLock.Sender? ==> s.mailboxLock.i < |s.senders|)
    && (s.stateLock.Some? ==> s.stateLock.value < |s.senders|)
  }

  ghost predicate Inv(s: St) {
    && LocksAgree(s)
    && Traced(s.mailbox)
    && (s.state == Blocked ==> Credit(s) == 0 && s.waker && (s.mailbox.pending.None? || Storing(s)))
    && (s.state == Ready ==> Credit(s) == 1)
    && (s.state == Terminated ==> Credit(s) <= 1)
    && (Waking(s) ==> s.state == Ready && (s.senders[s.mailboxLock.i].MadeReady? ==> s.waker))
    && (s.receiver.FoundEmpty? || s.receiver.Registered? ==> s.mailbox.pending.None?)
    && (s.receiver.Registered? ==> s.waker)
  }

  lemma ReceiverKeeps(s: St, again: bool)
    requires Inv(s) && Enabled(s, ReceiverMoves(again))
    ensures Inv(ReceiverStep(s, again))
  {
    if s.receiver.Locked? {
      TakeTraced(s.mailbox);
    }
  }

  lemma SenderKeepsLocks(s: St, i: nat, msg: Message)
    requires LocksAgree(s) && Enabled(s, SenderMoves(i, msg))
    ensures LocksAgree(SenderStep(s, i, msg))
  {
  }

  lemma SenderKeeps(s: St, i: nat, msg: Message)
    requires Inv(s) && Enabled(s, SenderMoves(i, msg))
    ensures Inv(SenderStep(s, i, msg))
  {
    SenderKeepsLocks(s, i, msg);
    assert !s.senders[i].Outside? ==> s.mailboxLock == Sender(i);
    if s.senders[i].Holds? {
      StoreTraced(s.mailbox, s.senders[i].msg);
    }
  }

  lemma StepKeeps(s: St, e: Event)
    requires Inv(s) && Enabled(s, e)
    ensures Inv(Next(s, e))
  {
    match e {
      case ReceiverMoves(again) => ReceiverKeeps(s, again);
      case SenderMoves(i, msg) => SenderKeeps(s, i, msg);
      case Kill =>
    }
  }

  /** A freshly spawned task with `n` possible senders. */
  function Initial(n: nat): St {
    St(EMPTY, Ready, false, 1, Free, None, Idle, seq(n, _ => Outside))
  }

  ghost predicate Schedule(s: St, es: seq<Event>)
    decreases |es|
  {
    es != [] ==> Enabled(s, es[0]) && Schedule(Next(s, es[0]), es[1..])
  }

  function After(s: St, es: seq<Event>): St
    requires Schedule(s, es)
    decreases |es|
  {
    if es == [] then s else After(Next(s, es[0]), es[1..])
  }

  lemma {:induction false} InvKept(s: St, es: seq<Event>)
    requires Inv(s) && Schedule(s, es)
    ensures Inv(After(s, es))
    decreases |es|
  {
    if es != [] {
      StepKeeps(s, es[0]);
      InvKept(Next(s, es[0]), es[1..]);
    }
  }

  // ----- What it means -----

  /**
    No lost wake-up, under every interleaving: whenever the mailbox lock is free, a blocked task has an empty
    mailbox and a stored waker, and a live task with a message waiting is queued or being polled, exactly once.
  */
  lemma NoLostWakeUp(n: nat, es: seq<Event>)
    requires Schedule(Initial(n), es)
    ensures var s := After(Initial(n), es);
      && Traced(s.mailbox)
      && (s.mailboxLock == Free && s.state == Blocked ==> s.mailbox.pending.None? && s.waker && s.tokens == 0)
      && (s.mailboxLock == Free && s.state == Ready ==> s.tokens + (if Polling(s.receiver) then 1 else 0) == 1)
      && (s.mailboxLock == Free && s.mailbox.pending.Some? && s.state != Terminated ==> s.state == Ready)
  {
    EmptyTraced();
    assert Inv(Initial(n));
    InvKept(Initial(n), es);
  }

  /** Since `s` nothing was received, and a message still waits: one that was stored no earlier. */
  ghost predicate StillWaiting(s: St, t: St) {
    t.mailbox.received == s.mailbox.received && t.mailbox.pending.Some? && s.mailbox.stored <= t.mailbox.stored
  }

  predicate Takes(s: St, e: Event) {
    e.ReceiverMoves? && s.receiver.Locked? && s.mailbox.pending.Some?
  }

  /** A waiting message goes on waiting until the executor takes it, and then it takes the latest one. */
  lemma StepTakesLatest(s: St, e: Event)
    requires Inv(s) && Enabled(s, e) && s.mailbox.pending.Some?
    ensures var t := Next(s, e);
      if Takes(s, e) then t.mailbox.received == s.mailbox.received + [s.mailbox.stored[|s.mailbox.stored| - 1]]
      else StillWaiting(s, t)
  {
  }

  lemma {:induction false} ReceivedGrows(s: St, es: seq<Event>)
    requires Schedule(s, es)
    ensures s.mailbox.received <= After(s, es).mailbox.received
    decreases |es|
  {
    if es != [] {
      ReceivedGrows(Next(s, es[0]), es[1..]);
    }
  }

  /**
    From any state with a message waiting, and under every interleaving of lock steps: either no message has been
    received since and one still waits, or the first one received, at step `k`, was the latest one stored by then.
  */
  lemma {:induction false} NextPollTakesLatest(s: St, es: seq<Event>) returns (k: nat)
    requires Inv(s) && s.mailbox.pending.Some? && Schedule(s, es)
    ensures k <= |es| && Schedule(s, es[..k]) && StillWaiting(s, After(s, es[..k]))
    ensures k < |es| ==>
      var stored := After(s, es[..k]).mailbox.stored;
      && Takes(After(s, es[..k]), es[k])
      && s.mailbox.received + [stored[|stored| - 1]] <= After(s, es).mailbox.received
    decreases |es|
  {
    if es == [] {
      k := 0;
    } else {
      StepTakesLatest(s, es[0]);
      if Takes(s, es[0]) {
        ReceivedGrows(Next(s, es[0]), es[1..]);
        assert es[..0] == [];
        k := 0;
      } else {
        StepKeeps(s, es[0]);
        var j := NextPollTakesLatest(Next(s, es[0]), es[1..]);
        k := j + 1;
        assert es[..k][1..] == es[1..][..j];
      }
    }
  }

  // ----- Progress -----

  /** How many steps a sender in the middle of a send has left. */
  function SenderLeft(pc: SPc): nat {
    match pc
    case Outside => 0
    case Holds(_) => 7
    case Stored => 6
    case HasState => 5
    case MadeReady => 4
    case TookWaker => 3
    case Waked => 2
    case LeftState => 1
  }

  /** What stands before the executor's next step: the rest of the send that holds the mailbox, if any. */
  function HolderLeft(s: St): nat {
    if s.mailboxLock.Sender? && s.mailboxLock.i < |s.senders| then SenderLeft(s.senders[s.mailboxLock.i]) else 0
  }

  /** No new send is begun: whoever holds the mailbox moves, otherwise the executor. */
  function Mover(s: St): Event {
    if s.mailboxLock.Sender? then SenderMoves(s.mailboxLock.i, Message(0, 0, 0, (0, 0))) else ReceiverMoves(true)
  }

  lemma MoverMoves(s: St)
    requires Inv(s) && !s.receiver.Finished? && (s.receiver.Idle? ==> s.mailboxLock.Sender? || s.tokens > 0)
    ensures Enabled(s, Mover(s)) && Inv(Next(s, Mover(s)))
    ensures var t := Next(s, Mover(s));
      && (s.mailboxLock.Sender? ==> HolderLeft(t) < HolderLeft(s) && t.receiver == s.receiver)
      && (!s.mailboxLock.Sender? ==> HolderLeft(t) == 0 && t == ReceiverStep(s, true))
  {
    if s.mailboxLock.Sender? {
      assert !s.senders[s.mailboxLock.i].Outside?;
    }
    StepKeeps(s, Mover(s));
  }

  function StepsToTake(pc: RPc): nat {
    match pc
    case Locked => 1
    case Checked => 2
    case Popped => 3
    case Goes => 3
    case Idle => 4
    case Delivering => 4
    case _ => 5
  }

  predicate OutsidePoll(pc: RPc) {
    pc.Idle? || pc.Popped? || pc.Leaving? || pc.Finished?
  }

  /** Nobody will read the mailbox any more: the future has finished, or the task is dead and not being polled. */
  predicate Deaf(s: St) {
    s.receiver.Finished? || (s.state == Terminated && OutsidePoll(s.receiver))
  }

  /** At most twelve more steps, with no new send begun, have a waiting message received. */
  lemma {:induction false} MessageIsTaken(s: St) returns (es: seq<Event>)
    requires Inv(s) && s.mailbox.pending.Some? && !Deaf(s)
    ensures Schedule(s, es) && |es| <= HolderLeft(s) + StepsToTake(s.receiver) <= 12
    ensures |After(s, es).mailbox.received| == |s.mailbox.received| + 1
    decreases HolderLeft(s) + StepsToTake(s.receiver)
  {
    var e := Mover(s);
    MoverMoves(s);
    StepTakesLatest(s, e);
    if Takes(s, e) {
      es := [e];
      assert es[1..] == [];
    } else {
      var rest := MessageIsTaken(Next(s, e));
      es := [e] + rest;
      assert es[1..] == rest;
    }
  }

  lemma {:induction false} DeafReceivesNothing(s: St, es: seq<Event>)
    requires Inv(s) && Deaf(s) && Schedule(s, es)
    ensures After(s, es).mailbox.received == s.mailbox.received
    decreases |es|
  {
    if es != [] {
      StepKeeps(s, es[0]);
      DeafReceivesNothing(Next(s, es[0]), es[1..]);
    }
  }

  /** A waiting message can still be received exactly when the task is not deaf, and then within twelve steps. */
  lemma MessageCanBeTakenIff(s: St)
    requires Inv(s) && s.mailbox.pending.Some?
    ensures (exists es :: Schedule(s, es) && After(s, es).mailbox.received != s.mailbox.received) <==> !Deaf(s)
  {
    if Deaf(s) {
      forall es | Schedule(s, es)
        ensures After(s, es).mailbox.received == s.mailbox.received
      {
        DeafReceivesNothing(s, es);
      }
    } else {
      var es := MessageIsTaken(s);
    }
  }

  // ----- The atomic operations of module AsyncExecutor -----

  ghost predicate Repeatable(s: St, e: Event, n: nat)
    decreases n
  {
    n > 0 ==> Enabled(s, e) && Repeatable(Next(s, e), e, n - 1)
  }

  function Repeated(s: St, e: Event, n: nat): St
    requires Repeatable(s, e, n)
    decreases n
  {
    if n == 0 then s else Repeated(Next(s, e), e, n - 1)
  }

  /** The step-level state shows what the executor's tables hold for task `id`. */
  ghost predicate Shows(s: St, e: Exec.Exec, id: TaskId) {
    && id in e.registry
    && s.mailbox == e.registry[id].mailbox
    && s.state == e.registry[id].state
    && e.registry[id].waker == (if s.waker then Some(id) else None)
    && s.tokens == multiset(e.queue)[id]
  }

  /** How many steps an undisturbed send takes. */
  function SendSteps(s: St): nat {
    if s.state != Blocked then 6 else if s.waker then 8 else 7
  }

  /** A sender that runs undisturbed has the effect of the executor's `Deliver`, and leaves no lock behind. */
  lemma SenderRefinesDeliver(s: St, e: Exec.Exec, id: TaskId, i: nat, msg: Message)
    requires Shows(s, e, id) && |e.queue| < Exec.QUEUE_CAPACITY
    requires s.mailboxLock == Free && s.stateLock.None? && i < |s.senders| && s.senders[i].Outside?
    ensures Repeatable(s, SenderMoves(i, msg), SendSteps(s))
    ensures var t := Repeated(s, SenderMoves(i, msg), SendSteps(s));
      && Shows(t, Exec.Deliver(e, id, msg), id)
      && t.mailboxLock == Free && t.stateLock.None? && t.senders == s.senders && t.receiver == s.receiver
  {
    var m := SenderMoves(i, msg);
    var s1 := Next(s, m);
    var s2 := Next(s1, m);
    var s3 := Next(s2, m);
    var s4 := Next(s3, m);
    var n := SendSteps(s) - 4;
    assert multiset(e.queue + [id])[id] == multiset(e.queue)[id] + 1;
    if s.state != Blocked {
      UnlockingSend(s4, s, i, msg);
    } else {
      WakingSend(s4, s, i, msg);
    }
    assert Repeatable(s3, m, n + 1) && Repeated(s3, m, n + 1) == Repeated(s4, m, n);
    assert Repeatable(s2, m, n + 2) && Repeated(s2, m, n + 2) == Repeated(s4, m, n);
    assert Repeatable(s1, m, n + 3) && Repeated(s1, m, n + 3) == Repeated(s4, m, n);
  }

  /** The end of every send: the state lock is dropped, then the mailbox lock. */
  lemma UnlockingSend(t: St, s: St, i: nat, msg: Message)
    requires i < |s.senders| && s.senders[i].Outside? && t.senders == s.senders[i := Waked]
    ensures var m := SenderMoves(i, msg);
      Repeatable(t, m, 2) && Repeated(t, m, 2) == t.(stateLock := None, mailboxLock := Free, senders := s.senders)
  {
    var m := SenderMoves(i, msg);
    var t1 := Next(t, m);
    var t2 := Next(t1, m);
    assert t2.senders == s.senders;
    assert Repeatable(t1, m, 1) && Repeated(t1, m, 1) == t2;
  }

  /** The second half of a send to a blocked task. */
  lemma WakingSend(s4: St, s: St, i: nat, msg: Message)
    requires i < |s.senders| && s.senders[i].Outside? && s.mailboxLock == Free && s.stateLock.None?
    requires s4 == s.(mailbox := s.mailbox.Store(msg), state := Ready, mailboxLock := Sender(i),
                      stateLock := Some(i), senders := s.senders[i := MadeReady])
    ensures var m := SenderMoves(i, msg);
      var n := if s.waker then 4 else 3;
      Repeatable(s4, m, n) && Repeated(s4, m, n) ==
        s.(mailbox := s.mailbox.Store(msg), state := Ready, waker := false,
           tokens := s.tokens + if s.waker then 1 else 0)
  {
    var m := SenderMoves(i, msg);
    var s5 := Next(s4, m);
    if s.waker {
      var s6 := Next(s5, m);
      UnlockingSend(s6, s, i, msg);
      assert Repeatable(s5, m, 3) && Repeated(s5, m, 3) == Repeated(s6, m, 2);
    } else {
      UnlockingSend(s5, s, i, msg);
    }
  }

  /** The executor polling a receive undisturbed has the effect of the executor's `Act`. */
  lemma ReceiverRefinesAct(s: St, e: Exec.Exec, id: TaskId, again: bool)
    requires Shows(s, e, id)
    requires e.registry[id].id == id && e.registry[id].future != [] && e.registry[id].future[0].Receive?
    requires s.mailboxLock == Free && s.stateLock.None? && s.receiver.Checked?
    ensures var n := if s.mailbox.pending.Some? then 4 else 5;
      Repeatable(s, ReceiverMoves(again), n) &&
      var t := Repeated(s, ReceiverMoves(again), n);
      var r := Exec.Act(e, id);
      && Shows(t, r.s, id)
      && t.mailboxLock == Free && t.stateLock.None? && t.senders == s.senders
      && (r.Goes? <==> t.receiver.Goes?) && (r.Pends? <==> t.receiver.Idle?)
  {
    var m := ReceiverMoves(again);
    var s1 := Next(s, m);
    var s2 := Next(s1, m);
    var s3 := Next(s2, m);
    var s4 := Next(s3, m);
    if s.mailbox.pending.Some? {
      assert Repeatable(s3, m, 1) && Repeated(s3, m, 1) == s4;
      assert Repeatable(s2, m, 2) && Repeated(s2, m, 2) == s4;
      assert Repeatable(s1, m, 3) && Repeated(s1, m, 3) == s4;
    } else {
      var s5 := Next(s4, m);
      assert Repeatable(s4, m, 1) && Repeated(s4, m, 1) == s5;
      assert Repeatable(s3, m, 2) && Repeated(s3, m, 2) == s5;
      assert Repeatable(s2, m, 3) && Repeated(s2, m, 3) == s5;
      assert Repeatable(s1, m, 4) && Repeated(s1, m, 4) == s5;
    }
  }

  // ----- Killing at this granularity -----

  /** A task killed while it is not being polled stays dead under every interleaving. */
  lemma {:induction false} KillOutsidePollIsFinal(s: St, es: seq<Event>)
    requires s.state == Terminated && OutsidePoll(s.receiver) && Schedule(s, es)
    ensures After(s, es).state == Terminated && OutsidePoll(After(s, es).receiver)
    decreases |es|
  {
    if es != [] {
      KillOutsidePollIsFinal(Next(s, es[0]), es[1..]);
    }
  }

  /** How far a poll in progress is from its next store of the state. */
  function StepsToStore(pc: RPc): nat {
    match pc
    case Took => 1
    case Registered => 1
    case FoundEmpty => 2
    case Locked => 3
    case Checked => 4
    case Goes => 5
    case _ => 6
  }

  /** A task killed during a poll can come back: let the sender holding its mailbox finish, and the poll go on. */
  lemma {:induction false} KillDuringPollIsUndone(s: St) returns (es: seq<Event>)
    requires Inv(s) && s.state == Terminated && !OutsidePoll(s.receiver)
    ensures Schedule(s, es) && After(s, es).state != Terminated
    decreases HolderLeft(s) + StepsToStore(s.receiver)
  {
    var e := Mover(s);
    MoverMoves(s);
    var rest := [];
    if Next(s, e).state == Terminated {
      rest := KillDuringPollIsUndone(Next(s, e));
    }
    es := [e] + rest;
    assert es[1..] == rest;
  }

  /**
    A kill is meant to be final. With single lock steps interleaved it is exactly when it strikes outside
    the stretch of a poll that ends in the future's own store of the state.
  */
  lemma KillIsFinalIff(s: St)
    requires Inv(s) && s.state == Terminated
    ensures (forall es :: Schedule(s, es) ==> After(s, es).state == Terminated) <==> OutsidePoll(s.receiver)
  {
    if OutsidePoll(s.receiver) {
      forall es | Schedule(s, es)
        ensures After(s, es).state == Terminated
      {
        KillOutsidePollIsFinal(s, es);
      }
    } else {
      var es := KillDuringPollIsUndone(s);
    }
  }

  /**
    For example: a fresh task is polled, finds its mailbox empty, is killed, and ends up Blocked.
    Only the interrupt gates, which run every drain to its end, keep this from happening.
  */
  lemma KillDuringPollIsOverwritten()
    ensures Repeatable(Initial(0), ReceiverMoves(false), 5)
    ensures var s := Repeated(Initial(0), ReceiverMoves(false), 5);
      && Enabled(s, Kill)
      && Next(s, Kill).state == Terminated
      && Enabled(Next(s, Kill), ReceiverMoves(false))
      && Next(Next(s, Kill), ReceiverMoves(false)).state == Blocked
  {
  }
}
