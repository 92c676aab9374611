/**
  The one-message mailbox of every task, and the global mailbox that the keyboard and serial handlers fill.
*/
module Mailbox {
  import opened Options

  /** `tag` is the field the source calls label. */
  datatype Message = Message(from: int, to: int, tag: int, payload: (int, int))

  /**
    `pending` is the mailbox proper. The other fields are its history, which no code reads:
    the messages stored so far, the messages handed out so far, and how many were overwritten unread.
  */
  datatype Slot = Slot(pending: Option<Message>, stored: seq<Message>, received: seq<Message>, overwritten: nat)
  {
    function Store(m: Message): Slot {
      Slot(Some(m), stored + [m], received, overwritten + if pending.Some? then 1 else 0)
    }

    function Take(): Slot {
      match pending
      case None => this
      case Some(m) => Slot(None, stored, received + [m], overwritten)
    }
  }

  const EMPTY := Slot(None, [], [], 0)

  ghost predicate Increasing(at: seq<int>, bound: nat) {
    && (forall i, j :: 0 <= i < j < |at| ==> at[i] < at[j])
    && (forall i :: 0 <= i < |at| ==> 0 <= at[i] < bound)
  }

  /** `at` tells which stored message each received one is: in order, none twice, none newer than the pending one. */
  ghost predicate ReceivedAt(s: Slot, at: seq<int>) {
    && |at| == |s.received|
    && Increasing(at, |s.stored| - if s.pending.Some? && s.stored != [] then 1 else 0)
    && (forall i :: 0 <= i < |at| ==> s.received[i] == s.stored[at[i]])
  }

  /**
    The mailbox law: what was received is an in-order, duplicate-free subsequence of what was stored,
    the pending message is the latest one, and every message stored is received, overwritten or pending.
  */
  ghost predicate Traced(s: Slot) {
    && (exists at :: ReceivedAt(s, at))
    && (s.pending.Some? ==> s.stored != [] && s.pending.value == s.stored[|s.stored| - 1])
    && |s.stored| == |s.received| + s.overwritten + if s.pending.Some? then 1 else 0
  }

  lemma EmptyTraced()
    ensures Traced(EMPTY)
  {
    assert ReceivedAt(EMPTY, []);
  }

  lemma StoreTraced(s: Slot, m: Message)
    requires Traced(s)
    ensures Traced(s.Store(m)) && s.Store(m).pending == Some(m)
  {
    var at :| ReceivedAt(s, at);
    assert ReceivedAt(s.Store(m), at);
  }

  lemma TakeTraced(s: Slot)
    requires Traced(s)
    ensures Traced(s.Take())
  {
    var at :| ReceivedAt(s, at);
    if s.pending.Some? {
      assert ReceivedAt(s.Take(), at + [|s.stored| - 1]);
    }
  }

  datatype Op = StoreOp(m: Message) | TakeOp

  function Apply(s: Slot, ops: seq<Op>): Slot
    decreases |ops|
  {
    if ops == [] then s
    else Apply(match ops[0] case StoreOp(m) => s.Store(m) case TakeOp => s.Take(), ops[1..])
  }

  /** The mailbox law holds after every sequence of stores and takes. */
  lemma {:induction false} EveryRunTraced(s: Slot, ops: seq<Op>)
    requires Traced(s)
    ensures Traced(Apply(s, ops))
    decreases |ops|
  {
    if ops != [] {
      match ops[0] {
        case StoreOp(m) =>
          StoreTraced(s, m);
          EveryRunTraced(s.Store(m), ops[1..]);
        case TakeOp =>
          TakeTraced(s);
          EveryRunTraced(s.Take(), ops[1..]);
      }
    }
  }

  /**
    `s'` is the mailbox `s` some stores and takes later: a message that was waiting in `s` waits on, or the first one
    received since is that message or one stored after it.
  */
  ghost predicate Newer(s: Slot, s': Slot) {
    && s.stored <= s'.stored && s.received <= s'.received
    && (s.pending.Some? ==>
          if s'.received == s.received then s'.pending.Some?
          else StoredSince(s, s', s'.received[|s.received|]))
  }

  /** The message waiting in `s`, or one stored after it. */
  ghost predicate StoredSince(s: Slot, s': Slot, m: Message) {
    exists k :: |s.stored| - 1 <= k < |s'.stored| && 0 <= k && s'.stored[k] == m
  }

  lemma NewerTransitive(a: Slot, b: Slot, c: Slot)
    requires Newer(a, b) && Newer(b, c)
    ensures Newer(a, c)
  {
    if a.pending.Some? && c.received != a.received {
      var m := c.received[|a.received|];
      if b.received == a.received {
        var k :| |b.stored| - 1 <= k < |c.stored| && 0 <= k && c.stored[k] == m;
      } else {
        var k :| |a.stored| - 1 <= k < |b.stored| && 0 <= k && b.stored[k] == m;
        assert c.stored[k] == m;
      }
    }
  }

  lemma OpsAreNewer(s: Slot, m: Message)
    requires Traced(s)
    ensures Newer(s, s) && Newer(s, s.Store(m)) && Newer(s, s.Take())
  {
    if s.pending.Some? {
      assert s.Take().stored[|s.stored| - 1] == s.Take().received[|s.received|];
    }
  }

  /** The global mailbox after a device handler: unless its lock is taken, the byte is the pending message. */
  function Forwarded(s: Slot, held: bool, tag: int, data: int): (s': Slot)
    ensures s'.received == s.received
    ensures held ==> s' == s
    ensures !held ==> s'.pending == Some(Message(0, 1, tag, (data, 0)))
  {
    if held then s else s.Store(Message(0, 1, tag, (data, 0)))
  }

  /** INIT_MAILBOX: the handlers and SYS_RECV only try its lock, and skip it when it is held. */
  class InitMailbox {
    var slot: Slot
    var held: bool

    ghost predicate Valid()
      reads this
    {
      Traced(slot)
    }

    constructor ()
      ensures Valid() && slot == EMPTY && !held
    {
      slot, held := EMPTY, false;
      new;
      EmptyTraced();
    }

    /** The keyboard handler (tag 2) and the serial handler (tag 3) forward one byte to process 1. */
    method Forward(tag: int, data: int)
      requires Valid()
      modifies this
      ensures Valid() && held == old(held)
      ensures slot == Forwarded(old(slot), held, tag, data)
    {
      if !held {
        StoreTraced(slot, Message(0, 1, tag, (data, 0)));
        slot := slot.Store(Message(0, 1, tag, (data, 0)));
      }
    }

    /** SYS_RECV: 1 and the message when there is one, 0 otherwise. */
    method Receive() returns (ret: int, msg: Option<Message>)
      requires Valid()
      modifies this
      ensures Valid() && held == old(held)
      ensures ret == 1 <==> msg.Some?
      ensures ret == 0 <==> msg.None?
      ensures msg == if held then None else old(slot.pending)
      ensures slot == if held then old(slot) else old(slot).Take()
      ensures msg.Some? ==> slot.pending == None && slot.received == old(slot.received) + [msg.value]
    {
      ret, msg := 0, None;
      if !held && slot.pending.Some? {
        TakeTraced(slot);
        ret, msg := 1, slot.pending;
        slot := slot.Take();
      }
    }
  }
}
