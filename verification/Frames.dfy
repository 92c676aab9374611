/**
  The bump allocator of physical frames: every call rebuilds the iterator over all usable frames
  and takes the `next`-th element.
*/
module Frames {
  import opened Options

  const PAGE := 4096

  /** A physical frame, by its start address. */
  type Frame = int

  datatype Region = Region(start: nat, end: nat, usable: bool)

  /** The frame, or the page, that contains an address. */
  function Containing(addr: int): Frame {
    addr - addr % PAGE
  }

  /** `(start..end).step_by(4096)`: how many addresses it yields. */
  function StepCount(r: Region): nat {
    if r.end <= r.start then 0 else (r.end - r.start + PAGE - 1) / PAGE
  }

  function FramesOf(r: Region): (f: seq<Frame>)
    ensures |f| == if r.usable then StepCount(r) else 0
  {
    seq(if r.usable then StepCount(r) else 0, i => Containing(r.start + PAGE * i))
  }

  /** `usable_frames`: the usable regions' frames, one region after another. */
  function UsableFrames(regions: seq<Region>): seq<Frame> {
    if regions == [] then [] else FramesOf(regions[0]) + UsableFrames(regions[1..])
  }

  function Nth(frames: seq<Frame>, k: nat): Option<Frame> {
    if k < |frames| then Some(frames[k]) else None
  }

  // ----- What the boot loader must provide, and what follows -----

  /** Usable regions are whole pages and do not overlap. */
  ghost predicate WellPlaced(regions: seq<Region>) {
    && (forall i :: 0 <= i < |regions| && regions[i].usable ==>
          regions[i].start % PAGE == 0 && regions[i].end % PAGE == 0 && regions[i].start <= regions[i].end)
    && (forall i, j :: 0 <= i < j < |regions| && regions[i].usable && regions[j].usable ==>
          regions[i].end <= regions[j].start || regions[j].end <= regions[i].start)
  }

  ghost predicate Distinct(frames: seq<Frame>) {
    forall i, j :: 0 <= i < j < |frames| ==> frames[i] != frames[j]
  }

  ghost predicate Within(f: Frame, r: Region) {
    r.usable && r.start <= f && f + PAGE <= r.end
  }

  lemma FramesOfPlaced(r: Region)
    requires r.usable && r.start % PAGE == 0 && r.end % PAGE == 0 && r.start <= r.end
    ensures Distinct(FramesOf(r))
    ensures PAGE * |FramesOf(r)| == r.end - r.start
    ensures forall i :: 0 <= i < |FramesOf(r)| ==> FramesOf(r)[i] == r.start + PAGE * i && Within(FramesOf(r)[i], r)
  {
  }

  /** The usable bytes of a memory map. */
  function UsableBytes(regions: seq<Region>): int {
    if regions == [] then 0
    else (if regions[0].usable then regions[0].end - regions[0].start else 0) + UsableBytes(regions[1..])
  }

  lemma WellPlacedTail(regions: seq<Region>)
    requires WellPlaced(regions) && regions != []
    ensures WellPlaced(regions[1..])
  {
  }

  lemma DistinctConcat(a: seq<Frame>, b: seq<Frame>)
    requires Distinct(a) && Distinct(b) && (forall f :: f in b ==> f !in a)
    ensures Distinct(a + b)
  {
    forall i, j | 0 <= i < j < |a + b|
      ensures (a + b)[i] != (a + b)[j]
    {
      if i < |a| <= j {
        assert b[j - |a|] in b;
      }
    }
  }

  /**
    Over a well-placed memory map the usable frames are distinct, lie inside usable memory,
    and cover all of it: one frame for every 4096 usable bytes.
  */
  lemma {:induction false} UsableFramesPlaced(regions: seq<Region>)
    requires WellPlaced(regions)
    ensures Distinct(UsableFrames(regions))
    ensures PAGE * |UsableFrames(regions)| == UsableBytes(regions)
    ensures forall f :: f in UsableFrames(regions) ==>
      exists i :: 0 <= i < |regions| && Within(f, regions[i])
  {
    if regions != [] {
      var rest := regions[1..];
      WellPlacedTail(regions);
      UsableFramesPlaced(rest);
      if regions[0].usable {
        FramesOfPlaced(regions[0]);
      }
      forall f | f in UsableFrames(rest)
        ensures exists i :: 1 <= i < |regions| && Within(f, regions[i])
      {
        var i :| 0 <= i < |rest| && Within(f, rest[i]);
        assert Within(f, regions[i + 1]);
      }
      forall f | f in UsableFrames(rest)
        ensures f !in FramesOf(regions[0])
      {
        var i :| 1 <= i < |regions| && Within(f, regions[i]);
        assert regions[0].usable && regions[i].usable ==>
          regions[0].end <= regions[i].start || regions[i].end <= regions[0].start;
      }
      DistinctConcat(FramesOf(regions[0]), UsableFrames(rest));
      forall f | f in UsableFrames(regions)
        ensures exists i :: 0 <= i < |regions| && Within(f, regions[i])
      {
        if f in FramesOf(regions[0]) {
          assert Within(f, regions[0]);
        }
      }
    }
  }

  lemma {:induction false} UsableFramesAligned(regions: seq<Region>)
    ensures forall k :: 0 <= k < |UsableFrames(regions)| ==> UsableFrames(regions)[k] % PAGE == 0
  {
    if regions != [] {
      UsableFramesAligned(regions[1..]);
    }
  }

  /** Two calls never get the same frame, and exactly one call per usable page succeeds. */
  lemma AllocationsDistinct(regions: seq<Region>, j: nat, k: nat)
    requires WellPlaced(regions) && j < k
    ensures var f, g := Nth(UsableFrames(regions), j), Nth(UsableFrames(regions), k);
      && (f.Some? && g.Some? ==> f.value != g.value)
      && (f.Some? <==> PAGE * j < UsableBytes(regions))
  {
    UsableFramesPlaced(regions);
  }

  // ----- An incremental cursor -----

  /** A region and a frame within it: what the allocator could keep instead of recounting from the start. */
  datatype Cursor = Cursor(region: nat, index: nat)

  /** The next frame, skipping exhausted regions. */
  function Advance(regions: seq<Region>, c: Cursor): (Option<Frame>, Cursor)
    decreases |regions| - c.region
  {
    if c.region >= |regions| then (None, c)
    else if c.index < |FramesOf(regions[c.region])| then
      (Some(FramesOf(regions[c.region])[c.index]), Cursor(c.region, c.index + 1))
    else Advance(regions, Cursor(c.region + 1, 0))
  }

  /** The cursor stands after `k` calls: after `k` frames, or past the last one. */
  ghost predicate StandsAt(regions: seq<Region>, c: Cursor, k: nat) {
    && c.region <= |regions|
    && (c.region < |regions| ==>
          c.index <= |FramesOf(regions[c.region])| && k == |UsableFrames(regions[..c.region])| + c.index)
    && (c.region == |regions| ==> k >= |UsableFrames(regions)|)
  }

  /** One call on the cursor yields what recounting yields, also after the frames have run out. */
  lemma {:induction false} CursorStep(regions: seq<Region>, c: Cursor, k: nat)
    requires StandsAt(regions, c, k)
    ensures var (f, c') := Advance(regions, c);
      && f == Nth(UsableFrames(regions), k)
      && StandsAt(regions, c', k + 1)
    decreases |regions| - c.region
  {
    UsableFramesSplit(regions, c.region);
    if c.region < |regions| {
      UsableFramesSnoc(regions, c.region);
      if c.index == |FramesOf(regions[c.region])| {
        assert regions[..|regions|] == regions;
        CursorStep(regions, Cursor(c.region + 1, 0), k);
      }
    }
  }

  /** What `n` calls on the cursor yield. */
  function Calls(regions: seq<Region>, c: Cursor, n: nat): seq<Option<Frame>>
    decreases n
  {
    if n == 0 then []
    else
      var (f, c') := Advance(regions, c);
      [f] + Calls(regions, c', n - 1)
  }

  lemma {:induction false} CallsFrom(regions: seq<Region>, c: Cursor, k: nat, n: nat)
    requires StandsAt(regions, c, k)
    ensures |Calls(regions, c, n)| == n
    ensures forall i :: 0 <= i < n ==> Calls(regions, c, n)[i] == Nth(UsableFrames(regions), k + i)
    decreases n
  {
    if n > 0 {
      CursorStep(regions, c, k);
      var (f, c') := Advance(regions, c);
      CallsFrom(regions, c', k + 1, n - 1);
      assert forall i :: 0 < i < n ==> Calls(regions, c, n)[i] == Calls(regions, c', n - 1)[i - 1];
    }
  }

  /** From the start, every call on the cursor yields what the allocator's call of the same number yields. */
  lemma CursorRefinesNth(regions: seq<Region>, n: nat)
    ensures |Calls(regions, Cursor(0, 0), n)| == n
    ensures forall k :: 0 <= k < n ==> Calls(regions, Cursor(0, 0), n)[k] == Nth(UsableFrames(regions), k)
  {
    CallsFrom(regions, Cursor(0, 0), 0, n);
  }

  // ----- The allocator -----

  class BootInfoFrameAllocator {
    const regions: seq<Region>
    var next: nat

    constructor (regions: seq<Region>)
      ensures this.regions == regions && next == 0
    {
      this.regions := regions;
      this.next := 0;
    }

    /** Walks the frames in the iterator's order and stops at the `n`-th. */
    method NthUsableFrame(n: nat) returns (frame: Option<Frame>)
      ensures frame == Nth(UsableFrames(regions), n)
    {
      var passed: nat := 0;
      for i := 0 to |regions|
        invariant passed == |UsableFrames(regions[..i])| <= n
      {
        var r := regions[i];
        UsableFramesSnoc(regions, i);
        UsableFramesSplit(regions, i + 1);
        if r.usable {
          var addr := r.start;
          var k: nat := 0;
          while addr < r.end
            invariant addr == r.start + PAGE * k && k <= StepCount(r)
            invariant passed == |UsableFrames(regions[..i])| + k <= n
            decreases r.end - addr
          {
            if passed == n {
              return Some(Containing(addr));
            }
            passed := passed + 1;
            addr := addr + PAGE;
            k := k + 1;
          }
        }
      }
      assert regions[..|regions|] == regions;
      frame := None;
    }

    /** The k-th call yields the k-th usable frame, and None once they have run out. */
    method AllocateFrame() returns (frame: Option<Frame>)
      modifies this
      ensures next == old(next) + 1
      ensures frame == Nth(UsableFrames(regions), old(next))
    {
      frame := NthUsableFrame(next);
      next := next + 1;
    }
  }

  lemma {:induction false} UsableFramesSnoc(regions: seq<Region>, i: nat)
    requires i < |regions|
    ensures UsableFrames(regions[..i + 1]) == UsableFrames(regions[..i]) + FramesOf(regions[i])
  {
    if i == 0 {
      assert regions[..1] == [regions[0]];
      assert regions[..1][1..] == [];
    } else {
      UsableFramesSnoc(regions[1..], i - 1);
      assert regions[..i + 1][1..] == regions[1..][..i];
      assert regions[..i][1..] == regions[1..][..i - 1];
    }
  }

  lemma {:induction false} UsableFramesSplit(regions: seq<Region>, i: nat)
    requires i <= |regions|
    ensures UsableFrames(regions) == UsableFrames(regions[..i]) + UsableFrames(regions[i..])
  {
    if i == 0 {
      assert regions[0..] == regions;
    } else {
      UsableFramesSplit(regions[1..], i - 1);
      assert regions[..i][1..] == regions[1..][..i - 1];
      assert regions[1..][i - 1..] == regions[i..];
    }
  }
}
