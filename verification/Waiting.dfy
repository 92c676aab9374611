/**
  Bounded waiting: how long the cyclic scan and the modulo time slice can keep a Ready task from the processor.
*/
module Waiting {
  import opened Options
  import opened Cpu
  import opened Trap
  import opened Tasks
  import opened Scheduler
  import opened Virtualisation

  // ----- Time slices -----

  lemma SmallMultiple(p: int, d: int)
    requires -p < p * d < p
    ensures d == 0
  {
  }

  lemma DivModUnique(a: int, p: int, q: int, r: int)
    requires 0 <= r < p && a == p * q + r
    ensures a % p == r
  {
    assert p * (a / p - q) == r - a % p;
    SmallMultiple(p, a / p - q);
  }

  lemma ModNext(t: nat, p: nat)
    requires p >= 1
    ensures (t + 1) % p == if t % p + 1 == p then 0 else t % p + 1
  {
    var q := t / p;
    assert t == p * q + t % p;
    if t % p + 1 == p {
      assert p * (q + 1) == p * q + p;
      DivModUnique(t + 1, p, q + 1, 0);
    } else {
      DivModUnique(t + 1, p, q, t % p + 1);
    }
  }

  /** Ticks until the slice of a task of priority `p` is up, counted from tick count `t`. */
  function Remaining(t: nat, p: nat): (r: nat)
    requires p >= 1
    ensures 1 <= r <= p
  {
    p - t % p
  }

  predicate Due(tick: nat, p: nat)
    requires p >= 1
  {
    tick % p == 0
  }

  /**
    Any p consecutive tick counts contain exactly one multiple of p, and it is `Remaining` ahead: a task of
    priority p dispatched at tick t runs for its full p ticks if and only if t is itself such a multiple.
  */
  lemma SliceEnds(t: nat, p: nat)
    requires p >= 1
    ensures forall tick :: t < tick <= t + p ==> (Due(tick, p) <==> tick == t + Remaining(t, p))
    ensures Remaining(t, p) == p <==> Due(t, p)
  {
    var q := t / p + 1;
    assert t + Remaining(t, p) == p * q;
    DivModUnique(p * q, p, q, 0);
    forall tick | t < tick <= t + p && Due(tick, p)
      ensures tick == p * q
    {
      assert tick - p * q == p * (tick / p - q);
      SmallMultiple(p, tick / p - q);
    }
  }

  // ----- When the scheduler switches -----

  /** The slice length of a task of this priority: the source's `priority.max(1)`. */
  function AtLeastOne(priority: nat): (p: nat)
    ensures p >= 1 && p >= priority && (p == 1 || p == priority)
  {
    if priority < 1 then 1 else priority
  }

  /** Another task is Ready, or the current one is blocked and so the scan falls through to its successor. */
  ghost predicate SomeoneElse(tasks: seq<Process>, cur: nat)
    requires cur < |tasks|
  {
    (exists w :: w != cur && IsReady(tasks, w)) || (tasks[cur].state != Ready && |tasks| >= 2)
  }

  /**
    A live task is switched away from exactly when the tick count is a multiple of its priority (1 for priority 0) and
    there is someone else; otherwise nothing at all changes.
  */
  lemma SwitchesIff(s: Sched, rsp: int)
    requires !s.held && s.cur < |s.tasks| && s.tasks[s.cur].state != Terminated
    ensures var switches := Due(s.ticks, AtLeastOne(s.tasks[s.cur].priority)) && SomeoneElse(s.tasks, s.cur);
      && (Schedule(s, rsp, false).0.cur != s.cur <==> switches)
      && (!switches ==> Schedule(s, rsp, false) == (s, rsp))
  {
    var n := |s.tasks|;
    PickIsNearestReady(s.tasks, s.cur);
    if w :| w != s.cur && IsReady(s.tasks, w) {
      assert Ahead(s.cur, w, n) < n == Ahead(s.cur, s.cur, n);
    } else if s.tasks[s.cur].state != Ready {
      assert forall w :: !IsReady(s.tasks, w);
    } else {
      assert IsReady(s.tasks, s.cur);
    }
  }

  // ----- Slices in the way -----

  /** The slices of tasks lo, ..., hi - 1. */
  function SliceSum(tasks: seq<Process>, lo: nat, hi: nat): nat
    requires lo <= hi <= |tasks|
    decreases hi - lo
  {
    if lo == hi then 0 else SliceLength(tasks[lo]) + SliceSum(tasks, lo + 1, hi)
  }

  /** The slices of every task but `w`. */
  function Others(tasks: seq<Process>, w: nat): nat
    requires w < |tasks|
  {
    SliceSum(tasks, 0, w) + SliceSum(tasks, w + 1, |tasks|)
  }

  /** The slices from task `i` up to, not including, `w`, cyclically. */
  function Between(tasks: seq<Process>, i: nat, w: nat): nat
    requires i < |tasks| && w < |tasks|
  {
    if i <= w then SliceSum(tasks, i, w) else SliceSum(tasks, i, |tasks|) + SliceSum(tasks, 0, w)
  }

  lemma {:induction false} SliceSumShrinks(tasks: seq<Process>, lo: nat, mid: nat, hi: nat)
    requires lo <= mid <= hi <= |tasks|
    ensures SliceSum(tasks, mid, hi) <= SliceSum(tasks, lo, hi)
    decreases mid - lo
  {
    if lo < mid {
      SliceSumShrinks(tasks, lo + 1, mid, hi);
    }
  }

  /** Moving forward without passing `w` leaves at most the slices from there on. */
  lemma NearerIsLess(tasks: seq<Process>, cur: nat, next: nat, w: nat)
    requires cur < |tasks| && next < |tasks| && w < |tasks| && cur != w
    requires Ahead(cur, next, |tasks|) <= Ahead(cur, w, |tasks|)
    ensures Between(tasks, next, w) <= Between(tasks, Successor(cur, |tasks|), w)
  {
    var from := Successor(cur, |tasks|);
    if from <= next <= w {
      SliceSumShrinks(tasks, from, next, w);
    } else if next <= w {
      SliceSumShrinks(tasks, 0, next, w);
    } else {
      SliceSumShrinks(tasks, from, next, |tasks|);
    }
  }

  lemma BetweenSplits(tasks: seq<Process>, i: nat, w: nat)
    requires i < |tasks| && w < |tasks| && i != w
    ensures Between(tasks, i, w) == SliceLength(tasks[i]) + Between(tasks, Successor(i, |tasks|), w)
  {
    assert SliceSum(tasks, |tasks|, |tasks|) == 0;
  }

  lemma BetweenIsOthers(tasks: seq<Process>, i: nat, w: nat)
    requires i < |tasks| && w < |tasks|
    ensures Between(tasks, i, w) <= Others(tasks, w)
  {
    if i <= w {
      SliceSumShrinks(tasks, 0, i, w);
    } else {
      SliceSumShrinks(tasks, w + 1, i, |tasks|);
    }
  }

  lemma {:induction false} SliceSumCongruent(tasks: seq<Process>, tasks': seq<Process>, lo: nat, hi: nat)
    requires SamePriorities(tasks, tasks') && lo <= hi <= |tasks|
    ensures SliceSum(tasks, lo, hi) == SliceSum(tasks', lo, hi)
    decreases hi - lo
  {
    if lo < hi {
      SliceSumCongruent(tasks, tasks', lo + 1, hi);
    }
  }

  ghost predicate SamePriorities(tasks: seq<Process>, tasks': seq<Process>) {
    && |tasks'| == |tasks|
    && forall i :: 0 <= i < |tasks| ==> tasks'[i].priority == tasks[i].priority
  }

  // ----- The wait -----

  /** Ticks the running task may still keep, plus every slice between it and the waiting task. */
  function Wait(s: Sched, w: nat): nat
    requires s.cur < |s.tasks| && w < |s.tasks|
  {
    Remaining(s.ticks, SliceLength(s.tasks[s.cur])) + Between(s.tasks, Successor(s.cur, |s.tasks|), w)
  }

  ghost predicate Waiting(s: Sched, w: nat) {
    s.cur < |s.tasks| && s.cur != w && IsReady(s.tasks, w)
  }

  lemma WaitCongruent(s: Sched, s': Sched, w: nat)
    requires s.cur < |s.tasks| && w < |s.tasks|
    requires SamePriorities(s.tasks, s'.tasks) && s'.cur == s.cur && s'.ticks == s.ticks
    ensures Wait(s', w) == Wait(s, w)
  {
    var i := Successor(s.cur, |s.tasks|);
    if i <= w {
      SliceSumCongruent(s.tasks, s'.tasks, i, w);
    } else {
      SliceSumCongruent(s.tasks, s'.tasks, i, |s.tasks|);
      SliceSumCongruent(s.tasks, s'.tasks, 0, w);
    }
  }

  /** A switch passes over no Ready task: it strictly lowers the distance to `w` and uses up the slices passed. */
  lemma SwitchShortensWait(s: Sched, w: nat, rsp: int)
    requires Waiting(s, w)
    ensures var next := Pick(s.tasks, s.cur);
      var s' := Dispatch(s, next, rsp).0;
      && s.cur != next
      && (next != w ==> Ahead(next, w, |s.tasks|) < Ahead(s.cur, w, |s.tasks|))
      && (next != w ==> Wait(s', w) <= Wait(s, w) - Remaining(s.ticks, SliceLength(s.tasks[s.cur])))
  {
    var next := Pick(s.tasks, s.cur);
    var s' := Dispatch(s, next, rsp).0;
    PickIsNearestReady(s.tasks, s.cur);
    if next != w {
      NearerIsLess(s.tasks, s.cur, next, w);
      BetweenSplits(s.tasks, next, w);
      assert SamePriorities(s.tasks, s'.tasks);
      WaitCongruent(s.(cur := next), s', w);
    }
  }

  lemma ScheduleShortensWait(s: Sched, w: nat, rsp: int, force: bool)
    requires Waiting(s, w) && !s.held
    ensures var s' := Schedule(s, rsp, force).0;
      s'.cur != w ==>
      && Waiting(s', w)
      && Wait(s', w) <= Wait(s, w)
      && (s.ticks % SliceLength(s.tasks[s.cur]) == 0 ==>
            Wait(s', w) <= Wait(s, w) - SliceLength(s.tasks[s.cur]))
  {
    SwitchShortensWait(s, w, rsp);
  }

  lemma TimerShortensWait(s: Sched, poll: Poll, rsp: int, w: nat)
    requires WellFormed(s) && !s.held && PollAllowed(s, poll) && s.cur != w && w < |s.tasks|
    requires var s' := TimerInner(s, poll, rsp).0; IsReady(s'.tasks, w) && s'.cur != w
    ensures Wait(TimerInner(s, poll, rsp).0, w) < Wait(s, w)
  {
    var p := Polled(s, poll);
    assert SamePriorities(s.tasks, p.tasks);
    WaitCongruent(s, p, w);
    var p1 := p.(ticks := p.ticks + 1);
    var slice := SliceLength(p.tasks[p.cur]);
    ModNext(p.ticks, slice);
    assert IsReady(p1.tasks, w) by {
      var s' := Schedule(p1, rsp, false).0;
      assert s'.tasks[w].state == p1.tasks[w].state;
    }
    ScheduleShortensWait(p1, w, rsp, false);
    var s' := Schedule(p1, rsp, false).0;
    if p1.ticks % slice == 0 {
      assert Remaining(p1.ticks, slice) == slice && Remaining(p.ticks, slice) == 1;
      assert Wait(p1, w) == Wait(p, w) - 1 + slice;
    } else {
      assert Wait(p1, w) == Wait(p, w) - 1;
    }
  }

  lemma FaultShortensWait(s: Sched, rsp: int, w: nat)
    requires WellFormed(s) && !s.held && s.cur != w && IsReady(s.tasks, w)
    requires FaultInner(s, rsp).0.cur != w
    ensures Wait(FaultInner(s, rsp).0, w) <= Wait(s, w)
  {
    var dead := Kill(s);
    assert SamePriorities(s.tasks, dead.tasks);
    WaitCongruent(s, dead, w);
    ScheduleShortensWait(dead, w, rsp, true);
  }

  lemma StepShortensWait(m: Machine, e: Event, w: nat)
    requires Tables(m.sched) && Allowed(m, e)
    requires var m' := Step(m, e);
      Waiting(m.sched, w) && Waiting(m'.sched, w) && SamePriorities(m.sched.tasks, m'.sched.tasks)
    ensures Wait(Step(m, e).sched, w) <= Wait(m.sched, w) - if e.Timer? then 1 else 0
  {
    match e {
      case Timer(poll, scratch, regs) =>
        var rsp := Enter(m.ctx, m.mem, m.sched.rsp0, None).rsp;
        assert Step(m, e).sched == TimerInner(m.sched, poll, rsp).0;
        TimerShortensWait(m.sched, poll, rsp, w);
      case Fault(code, scratch, regs) =>
        var rsp := Enter(m.ctx, m.mem, m.sched.rsp0, Some(code)).rsp;
        assert Step(m, e).sched == FaultInner(m.sched, rsp).0;
        FaultShortensWait(m.sched, rsp, w);
      case _ =>
        WaitCongruent(m.sched, Step(m, e).sched, w);
    }
  }

  function Ticks(es: seq<Event>): nat {
    if es == [] then 0 else (if es[0].Timer? then 1 else 0) + Ticks(es[1..])
  }

  /** Priorities never change in the run, and `w` is Ready for as long as it has not been given the processor. */
  ghost predicate ReadyUntilDispatched(m: Machine, es: seq<Event>, w: nat)
    requires AllAllowed(m, es)
    decreases |es|
  {
    m.sched.cur != w ==>
    && IsReady(m.sched.tasks, w)
    && (es != [] ==>
          && SamePriorities(m.sched.tasks, Step(m, es[0]).sched.tasks)
          && ReadyUntilDispatched(Step(m, es[0]), es[1..], w))
  }

  lemma {:induction false} WaitCounts(m: Machine, v: seq<Context>, es: seq<Event>, w: nat) returns (k: nat)
    requires Inv(m, v) && AllAllowed(m, es) && ReadyUntilDispatched(m, es, w) && w < |m.sched.tasks|
    requires m.sched.cur != w ==> Ticks(es) >= Wait(m.sched, w)
    ensures k <= |es| && AllAllowed(m, es[..k]) && Virtualisation.Run(m, es[..k]).sched.cur == w
    ensures if m.sched.cur == w then k == 0 else Ticks(es[..k]) <= Wait(m.sched, w)
    decreases |es|
  {
    if m.sched.cur == w {
      k := 0;
    } else {
      var m' := Step(m, es[0]);
      StepKeeps(m, v, es[0]);
      if m'.sched.cur != w {
        assert Waiting(m'.sched, w);
        StepShortensWait(m, es[0], w);
      }
      var j := WaitCounts(m', VStep(m, v, es[0]), es[1..], w);
      k := j + 1;
      assert es[..k][1..] == es[1..][..j];
    }
  }

  /**
    Bounded waiting: a task that stays Ready is given the processor before more timer ticks have passed than
    the slices of all other tasks add up to, whatever else happens: device interrupts, faults,
    other tasks blocking, waking or dying.
  */
  lemma BoundedWaiting(m: Machine, v: seq<Context>, es: seq<Event>, w: nat) returns (k: nat)
    requires Inv(m, v) && AllAllowed(m, es) && ReadyUntilDispatched(m, es, w) && w < |m.sched.tasks|
    requires Ticks(es) >= Others(m.sched.tasks, w)
    ensures k <= |es| && AllAllowed(m, es[..k]) && Virtualisation.Run(m, es[..k]).sched.cur == w
    ensures Ticks(es[..k]) <= Others(m.sched.tasks, w)
  {
    if m.sched.cur != w {
      BetweenSplits(m.sched.tasks, m.sched.cur, w);
      BetweenIsOthers(m.sched.tasks, m.sched.cur, w);
      k := WaitCounts(m, v, es, w);
    } else {
      k := 0;
    }
  }

  // ----- Keeping the processor -----

  /** There is no fault in the run, and task `c` is alive throughout, at priority `p`. */
  ghost predicate Undisturbed(m: Machine, es: seq<Event>, c: nat, p: nat)
    requires AllAllowed(m, es)
    decreases |es|
  {
    && c < |m.sched.tasks| && m.sched.tasks[c].state != Terminated && m.sched.tasks[c].priority == p
    && (es != [] ==> !es[0].Fault? && Undisturbed(Step(m, es[0]), es[1..], c, p))
  }

  lemma SomeoneElseCongruent(tasks: seq<Process>, tasks': seq<Process>, cur: nat)
    requires cur < |tasks| == |tasks'|
    requires forall i :: 0 <= i < |tasks| ==> tasks'[i].state == tasks[i].state
    ensures SomeoneElse(tasks', cur) <==> SomeoneElse(tasks, cur)
  {
    forall w | IsReady(tasks, w) || IsReady(tasks', w)
      ensures IsReady(tasks, w) && IsReady(tasks', w)
    {
    }
  }

  /** From `s` to `s'` a tick was counted, and the task was switched away from exactly when its slice ended there. */
  ghost predicate SwitchesWhenDue(s: Sched, s': Sched) {
    && s.cur < |s.tasks| == |s'.tasks| && s'.ticks == s.ticks + 1
    && (s'.cur != s.cur <==> Due(s'.ticks, AtLeastOne(s.tasks[s.cur].priority)) && SomeoneElse(s'.tasks, s.cur))
  }

  lemma TickSwitchesIff(s: Sched, poll: Poll, rsp: int)
    requires Tables(s) && PollAllowed(s, poll) && TimerInner(s, poll, rsp).0.tasks[s.cur].state != Terminated
    ensures SwitchesWhenDue(s, TimerInner(s, poll, rsp).0)
  {
    var p := Polled(s, poll);
    var p1 := p.(ticks := p.ticks + 1);
    PolledIsAlive(s, poll, rsp);
    SwitchesIff(p1, rsp);
    assert TimerInner(s, poll, rsp) == Schedule(p1, rsp, false);
    SomeoneElseCongruent(p1.tasks, Schedule(p1, rsp, false).0.tasks, s.cur);
  }

  lemma PolledIsAlive(s: Sched, poll: Poll, rsp: int)
    requires Tables(s) && PollAllowed(s, poll) && TimerInner(s, poll, rsp).0.tasks[s.cur].state != Terminated
    ensures Polled(s, poll).tasks[s.cur].state != Terminated
  {
  }

  /**
    A tick switches away from a task that is alive after it exactly when its slice ends there, at a multiple of
    max(priority, 1), and there is someone else.
  */
  lemma TimerSwitchesWhenDue(m: Machine, e: Event)
    requires Tables(m.sched) && Allowed(m, e) && e.Timer?
    requires var tasks := Step(m, e).sched.tasks; m.sched.cur < |tasks| && tasks[m.sched.cur].state != Terminated
    ensures SwitchesWhenDue(m.sched, Step(m, e).sched)
  {
    var rsp := TimerHandled(m, e);
    TickSwitchesIff(m.sched, e.poll, rsp);
  }

  /** Only ticks and faults switch, and only ticks count. */
  lemma OthersStay(m: Machine, e: Event)
    requires Tables(m.sched) && Allowed(m, e) && !e.Fault? && !e.Timer?
    ensures Step(m, e).sched.cur == m.sched.cur && Step(m, e).sched.ticks == m.sched.ticks
  {
    if e.Device? {
      DeviceHandled(m, e);
    } else if !e.User? {
      SyscallSameStacks(m, e);
    }
  }

  /** Short of a tick that ends its slice, nothing but a fault takes the processor from a live task. */
  lemma StepStays(m: Machine, e: Event, c: nat)
    requires Tables(m.sched) && Allowed(m, e) && !e.Fault? && c == m.sched.cur
    requires c < |Step(m, e).sched.tasks| && Step(m, e).sched.tasks[c].state != Terminated
    requires e.Timer? ==> !Due(m.sched.ticks + 1, AtLeastOne(m.sched.tasks[c].priority))
    ensures Step(m, e).sched.cur == c && Step(m, e).sched.ticks == m.sched.ticks + if e.Timer? then 1 else 0
  {
    if e.Timer? {
      TimerSwitchesWhenDue(m, e);
    } else {
      OthersStay(m, e);
    }
  }

  lemma StepStaysInvariant(m: Machine, v: seq<Context>, e: Event, c: nat, p: nat)
    requires Inv(m, v) && Allowed(m, e) && m.sched.cur == c && !e.Fault?
    requires m.sched.tasks[c].priority == p && (e.Timer? ==> !Due(m.sched.ticks + 1, AtLeastOne(p)))
    requires c < |Step(m, e).sched.tasks| && Step(m, e).sched.tasks[c].state != Terminated
    ensures Inv(Step(m, e), VStep(m, v, e)) && Step(m, e).sched.cur == c
    ensures Step(m, e).sched.ticks == m.sched.ticks + if e.Timer? then 1 else 0
  {
    StepStays(m, e, c);
    StepKeeps(m, v, e);
  }

  /** None of the tick counts from t + 1 to t + n ends a slice of a task of priority `p`. */
  ghost predicate NoneDue(t: nat, n: nat, p: nat)
    decreases n
  {
    n > 0 ==> !Due(t + 1, AtLeastOne(p)) && NoneDue(t + 1, n - 1, p)
  }

  /**
    A task keeps the processor for its whole slice: over any run without a fault in which it stays alive, at the same
    priority, it is running for as long as the tick count has not met the next multiple of that priority.
  */
  lemma {:induction false} KeepsItsSlice(m: Machine, v: seq<Context>, es: seq<Event>, c: nat, p: nat)
    requires Inv(m, v) && m.sched.cur == c && AllAllowed(m, es) && Undisturbed(m, es, c, p)
    requires NoneDue(m.sched.ticks, Ticks(es), p)
    ensures var s := Virtualisation.Run(m, es).sched; s.cur == c && s.ticks == m.sched.ticks + Ticks(es)
    decreases |es|
  {
    if es != [] {
      NoneDueNext(m.sched.ticks, es, p);
      SliceStep(m, v, es, c, p);
      UndisturbedNext(m, es, c, p);
      KeepsItsSlice(Step(m, es[0]), VStep(m, v, es[0]), es[1..], c, p);
    }
  }

  lemma SliceStep(m: Machine, v: seq<Context>, es: seq<Event>, c: nat, p: nat)
    requires Inv(m, v) && m.sched.cur == c && es != [] && AllAllowed(m, es) && Undisturbed(m, es, c, p)
    requires es[0].Timer? ==> !Due(m.sched.ticks + 1, AtLeastOne(p))
    ensures Inv(Step(m, es[0]), VStep(m, v, es[0])) && Step(m, es[0]).sched.cur == c
    ensures Step(m, es[0]).sched.ticks == m.sched.ticks + if es[0].Timer? then 1 else 0
  {
    UndisturbedNext(m, es, c, p);
    StepStaysInvariant(m, v, es[0], c, p);
  }

  lemma UndisturbedNext(m: Machine, es: seq<Event>, c: nat, p: nat)
    requires es != [] && AllAllowed(m, es) && Undisturbed(m, es, c, p)
    ensures c < |m.sched.tasks| && m.sched.tasks[c].priority == p && !es[0].Fault?
    ensures var s := Step(m, es[0]).sched; c < |s.tasks| && s.tasks[c].state != Terminated
    ensures AllAllowed(Step(m, es[0]), es[1..]) && Undisturbed(Step(m, es[0]), es[1..], c, p)
  {
  }

  /** That is, for the `Remaining` ticks less one. */
  lemma {:induction false} NoneDueIff(t: nat, n: nat, p: nat)
    ensures NoneDue(t, n, p) <==> n < Remaining(t, AtLeastOne(p))
    decreases n
  {
    if n > 0 {
      ModNext(t, AtLeastOne(p));
      NoneDueIff(t + 1, n - 1, p);
    }
  }

  lemma NoneDueNext(t: nat, es: seq<Event>, p: nat)
    requires es != [] && NoneDue(t, Ticks(es), p)
    ensures es[0].Timer? ==> !Due(t + 1, AtLeastOne(p))
    ensures NoneDue(t + if es[0].Timer? then 1 else 0, Ticks(es[1..]), p)
  {
  }
}
