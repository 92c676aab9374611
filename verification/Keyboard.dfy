/**
  The scancode stream: interrupt handlers push codes and wake, one consumer pops, registers, pops again.
  The protocol is given as single atomic steps on the shared queue and waker slot, interleaved in any order;
  the class below performs them in the source's order.
*/
module Keyboard {
  import opened Options

  const CAPACITY := 100

  type Code = int

  /** The consumer: running its own code, or somewhere inside `poll_next`, or asleep after Pending. */
  datatype Consumer = Awake | PoppedNone | HasRegistered | MustUnregister(code: Code) | Asleep

  /**
    `registered` is the waker slot. `wakes` counts producers between their push and their `WAKER.wake()`.
    `woken` tells that the consumer's waker has fired since it last registered. `accepted` and `delivered`
    are the codes pushed and the codes handed out so far.
  */
  datatype St = St(
    queue: seq<Code>, registered: bool, wakes: nat, consumer: Consumer, woken: bool,
    accepted: seq<Code>, delivered: seq<Code>)

  datatype Event =
    | Push(code: Code)      // add_scancode, first half: a full queue drops the code and does not wake
    | WakeUp                // add_scancode, second half: take the waker and fire it
    | Consume               // the consumer's next step

  ghost predicate Enabled(s: St, e: Event) {
    match e
    case Push(_) => true
    case WakeUp => s.wakes > 0
    case Consume => s.consumer.Asleep? ==> s.woken
  }

  function Deliver(s: St, next: Consumer): St
    requires s.queue != []
  {
    s.(queue := s.queue[1..], delivered := s.delivered + [s.queue[0]], consumer := next)
  }

  function Next(s: St, e: Event): St
    requires Enabled(s, e)
  {
    match e
    case Push(code) =>
      if |s.queue| < CAPACITY then
        s.(queue := s.queue + [code], wakes := s.wakes + 1, accepted := s.accepted + [code])
      else s
    case WakeUp =>
      var s' := s.(wakes := s.wakes - 1);
      if s.registered then s'.(registered := false, woken := true) else s'
    case Consume =>
      match s.consumer
      case Awake => if s.queue != [] then Deliver(s, Awake) else s.(consumer := PoppedNone)
      case PoppedNone => s.(registered := true, woken := false, consumer := HasRegistered)
      case HasRegistered => if s.queue != [] then Deliver(s, MustUnregister(s.queue[0])) else s.(consumer := Asleep)
      case MustUnregister(_) => s.(registered := false, consumer := Awake)
      case Asleep => s.(consumer := Awake)
  }

  /** A code is accepted behind all others, and its wake is due, exactly while fewer than 100 codes wait. */
  lemma PushAccepts(s: St, code: Code)
    ensures var t := Next(s, Push(code));
      && t.delivered == s.delivered && t.consumer == s.consumer && t.registered == s.registered && t.woken == s.woken
      && if |s.queue| < 100 then t.queue == s.queue + [code] && t.accepted == s.accepted + [code] && t.wakes == s.wakes + 1
         else t == s
  {
  }

  const INITIAL := St([], false, 0, Awake, false, [], [])

  /** Between its registration and its next poll, the consumer's waker is in the slot or has fired. */
  predicate Armed(s: St) {
    s.registered || s.woken
  }

  ghost predicate Inv(s: St) {
    && |s.queue| <= CAPACITY
    && s.accepted == s.delivered + s.queue
    && (s.consumer.HasRegistered? || s.consumer.Asleep? ==> Armed(s))
    && (s.consumer.Asleep? && s.queue != [] ==> s.woken || s.wakes > 0)
  }

  lemma StepKeeps(s: St, e: Event)
    requires Inv(s) && Enabled(s, e)
    ensures Inv(Next(s, e))
  {
  }

  ghost predicate Schedule(s: St, es: seq<Event>)
    decreases |es|
  {
    es != [] ==> Enabled(s, es[0]) && Schedule(Next(s, es[0]), es[1..])
  }

  function After(s: St, es: seq<Event>): St
    requires Schedule(s, es)
    decreases |es|
  {
    if es == [] then s else After(Next(s, es[0]), es[1..])
  }

  lemma {:induction false} InvKept(s: St, es: seq<Event>)
    requires Inv(s) && Schedule(s, es)
    ensures Inv(After(s, es))
    decreases |es|
  {
    if es != [] {
      StepKeeps(s, es[0]);
      InvKept(Next(s, es[0]), es[1..]);
    }
  }

  /**
    The stream never sleeps on data, and never reorders it, under every interleaving: a consumer that returned
    Pending while codes are queued has been woken, or a producer is about to wake it through its registered waker;
    what was delivered, followed by what is queued, is what was accepted.
  */
  lemma NeverSleepsOnData(es: seq<Event>)
    requires Schedule(INITIAL, es)
    ensures var s := After(INITIAL, es);
      && (s.consumer.Asleep? && s.queue != [] ==> s.woken || (s.registered && s.wakes > 0))
      && s.accepted == s.delivered + s.queue
  {
    InvKept(INITIAL, es);
  }

  /** `n` pending wakes, run to the end. */
  function FireAll(s: St, n: nat): St
    requires s.wakes >= n
    decreases n
  {
    if n == 0 then s else FireAll(Next(s, WakeUp), n - 1)
  }

  lemma {:induction false} FiringWakes(s: St, n: nat)
    requires Inv(s) && s.wakes >= n && s.consumer.Asleep? && s.queue != []
    ensures var t := FireAll(s, n);
      && t.queue == s.queue && t.consumer == s.consumer && t.delivered == s.delivered
      && (t.woken <==> s.woken || n > 0)
    decreases n
  {
    if n > 0 {
      StepKeeps(s, WakeUp);
      FiringWakes(Next(s, WakeUp), n - 1);
    }
  }

  /** Once the producers have finished, a sleeping consumer with data is woken and its next poll delivers the oldest code. */
  lemma SleeperDelivers(s: St)
    requires Inv(s) && s.consumer.Asleep? && s.queue != []
    ensures var t := FireAll(s, s.wakes);
      && Enabled(t, Consume)
      && Enabled(Next(t, Consume), Consume)
      && Next(Next(t, Consume), Consume).delivered == s.delivered + [s.queue[0]]
  {
    FiringWakes(s, s.wakes);
  }

  // ----- The same, as the kernel does it -----

  /** SCANCODE_QUEUE and WAKER. A poll's result is the code, or None for Pending. */
  class ScancodeStream {
    var queue: seq<Code>
    var registered: bool
    ghost var wakes: nat
    ghost var consumer: Consumer
    ghost var woken: bool
    ghost var accepted: seq<Code>
    ghost var delivered: seq<Code>

    ghost function Snapshot(): St
      reads this
    {
      St(queue, registered, wakes, consumer, woken, accepted, delivered)
    }

    constructor ()
      ensures Snapshot() == INITIAL
    {
      queue, registered, wakes, consumer, woken, accepted, delivered := [], false, 0, Awake, false, [], [];
    }

    ghost method Become(s: St)
      requires s.queue == queue && s.registered == registered
      modifies this
      ensures Snapshot() == s
    {
      wakes, consumer, woken, accepted, delivered := s.wakes, s.consumer, s.woken, s.accepted, s.delivered;
    }

    /** An interrupt that is not itself interrupted: push, then wake. */
    method AddScancode(code: Code)
      requires Inv(Snapshot())
      modifies this
      ensures Inv(Snapshot())
      ensures var s := old(Snapshot()); var s1 := Next(s, Push(code));
        Snapshot() == if |s.queue| < CAPACITY then Next(s1, WakeUp) else s1
    {
      ghost var s := Snapshot();
      ghost var s1 := Next(s, Push(code));
      StepKeeps(s, Push(code));
      if |queue| < CAPACITY {
        queue := queue + [code];
        StepKeeps(s1, WakeUp);
        registered := false;
        Become(Next(s1, WakeUp));
      }
    }

    /** A burst of such interrupts. The queue takes what it has room for, in order. */
    method Interrupts(codes: seq<Code>)
      requires Inv(Snapshot())
      modifies this
      ensures Inv(Snapshot()) && consumer == old(consumer)
      ensures queue == Fill(old(queue), codes)
      ensures registered == (old(registered) && queue == old(queue))
      ensures woken == (old(woken) || (old(registered) && queue != old(queue)))
    {
      for i := 0 to |codes|
        invariant Inv(Snapshot()) && consumer == old(consumer)
        invariant queue == Fill(old(queue), codes[..i])
        invariant registered == (old(registered) && queue == old(queue))
        invariant woken == (old(woken) || (old(registered) && queue != old(queue)))
      {
        assert codes[..i + 1] == codes[..i] + [codes[i]];
        AddScancode(codes[i]);
      }
      assert codes[..|codes|] == codes;
    }

    /**
      `poll_next`, with `early` codes arriving between its first pop and the registration, `late` ones between
      the registration and the second pop. It delivers the oldest code there is at either pop; it returns Pending
      exactly when there is none at both, and then its waker is in the slot.
    */
    method PollNext(early: seq<Code>, late: seq<Code>) returns (code: Option<Code>)
      requires Inv(Snapshot()) && consumer.Awake?
      modifies this
      ensures Inv(Snapshot())
      ensures old(queue) != [] ==>
        code == Some(old(queue)[0]) && queue == old(queue)[1..] && consumer.Awake? && registered == old(registered)
      ensures old(queue) == [] && early + late != [] ==>
        code == Some((early + late)[0]) && queue == Fill(Fill([], early), late)[1..] && consumer.Awake? && !registered
      ensures old(queue) == [] && early + late == [] ==>
        code == None && queue == [] && consumer.Asleep? && registered && !woken
    {
      ghost var s := Snapshot();
      StepKeeps(s, Consume);
      if queue != [] {
        code := Some(queue[0]);
        queue := queue[1..];
        Become(Next(s, Consume));
        return;
      }
      Become(Next(s, Consume));
      Interrupts(early);
      Register();
      assert queue == Fill([], early);
      Interrupts(late);
      assert queue == Fill(Fill([], early), late);
      code := Recheck();
    }

    method Register()
      requires Inv(Snapshot()) && consumer.PoppedNone?
      modifies this
      ensures Inv(Snapshot()) && consumer.HasRegistered? && registered && !woken && queue == old(queue)
    {
      ghost var s := Snapshot();
      StepKeeps(s, Consume);
      registered := true;
      Become(Next(s, Consume));
    }

    /** The second pop, and taking the waker back when it succeeds. */
    method Recheck() returns (code: Option<Code>)
      requires Inv(Snapshot()) && consumer.HasRegistered?
      modifies this
      ensures Inv(Snapshot())
      ensures old(queue) != [] ==>
        code == Some(old(queue)[0]) && queue == old(queue)[1..] && consumer.Awake? && !registered
      ensures old(queue) == [] ==>
        code == None && queue == [] && consumer.Asleep? && registered == old(registered) && woken == old(woken)
    {
      ghost var s := Snapshot();
      StepKeeps(s, Consume);
      if queue != [] {
        StepKeeps(Next(s, Consume), Consume);
        code := Some(queue[0]);
        queue := queue[1..];
        registered := false;
        Become(Next(Next(s, Consume), Consume));
      } else {
        code := None;
        Become(Next(s, Consume));
      }
    }
  }

  function Fill(queue: seq<Code>, codes: seq<Code>): (r: seq<Code>)
    requires |queue| <= CAPACITY
    ensures |r| <= CAPACITY
  {
    if |queue| + |codes| <= CAPACITY then queue + codes else queue + codes[..CAPACITY - |queue|]
  }
}
