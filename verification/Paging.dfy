/**
  Virtual memory as the boot code sees it: a page map over physical frames, filled from the frame allocator,
  and byte writes that go through it.
*/
module Paging {
  import opened Options
  import opened Frames

  type Byte = int

  datatype Flags = Flags(writable: bool, user: bool, noExecute: bool)
  datatype Entry = Entry(frame: Frame, flags: Flags)

  /**
    `pages` maps page start addresses; `phys` is physical memory, whose bytes are arbitrary until written;
    `tables` are the frames the page tables themselves took; `used` counts the frames handed out of `frames`.
  */
  datatype Space = Space(
    pages: map<int, Entry>, phys: map<int, Byte>, tables: set<Frame>, frames: seq<Frame>, used: nat)

  function Translate(s: Space, addr: int): Option<int> {
    var page := Containing(addr);
    if page in s.pages then Some(s.pages[page].frame + addr % PAGE) else None
  }

  /** What a read at a virtual address gives; None is a page fault. */
  function Load(s: Space, addr: int): Option<Byte> {
    match Translate(s, addr)
    case None => None
    case Some(p) => Some(if p in s.phys then s.phys[p] else 0)
  }

  function Store(s: Space, addr: int, b: Byte): Space
    requires Translate(s, addr).Some?
  {
    s.(phys := s.phys[Translate(s, addr).value := b])
  }

  // ----- The invariant -----

  ghost predicate Untouched(s: Space, f: Frame) {
    f !in s.tables && forall p :: p in s.pages ==> s.pages[p].frame != f
  }

  /**
    No two pages share a frame, no page maps a page-table frame, and no frame still to be handed out is in use.
  */
  ghost predicate Inv(s: Space) {
    && Distinct(s.frames)
    && (forall k :: 0 <= k < |s.frames| ==> s.frames[k] % PAGE == 0)
    && (forall p :: p in s.pages ==> p % PAGE == 0 && s.pages[p].frame % PAGE == 0)
    && (forall p, q :: p in s.pages && q in s.pages && p != q ==> s.pages[p].frame != s.pages[q].frame)
    && (forall p :: p in s.pages ==> s.pages[p].frame !in s.tables)
    && (forall f :: f in s.tables ==> f % PAGE == 0)
    && (forall k :: s.used <= k < |s.frames| ==> Untouched(s, s.frames[k]))
  }

  /** A write through one virtual address changes no other virtual address. */
  lemma StoreIsLocal(s: Space, addr: int, b: Byte, other: int)
    requires Inv(s) && Translate(s, addr).Some?
    ensures Load(Store(s, addr, b), other) == if other == addr then Some(b) else Load(s, other)
  {
  }

  /** Nothing that was mapped moved, changed its flags, or reads differently. */
  ghost predicate Preserves(s: Space, s': Space) {
    && s'.frames == s.frames && s.used <= s'.used && s.tables <= s'.tables
    && (forall p :: p in s.pages ==> p in s'.pages && s'.pages[p] == s.pages[p])
    && (forall a :: Load(s, a).Some? ==> Load(s', a) == Load(s, a))
  }

  /** The `i`-th page of a range that starts at page `first`. */
  function PageAt(first: int, i: int): int {
    first + PAGE * i
  }

  ghost predicate InRange(p: int, first: int, count: int) {
    exists i :: 0 <= i < count && p == PageAt(first, i)
  }

  /** `f` was handed out and serves no purpose yet. */
  ghost predicate Spare(s: Space, f: Frame) {
    f % PAGE == 0 && Untouched(s, f) && forall k :: s.used <= k < |s.frames| ==> s.frames[k] != f
  }

  /** Physical memory after arbitrary writes to page-table frames. */
  function WithTableWrites(s: Space, w: map<int, Byte>): Space {
    s.(phys := s.phys + map a | a in w && Containing(a) in s.tables :: w[a])
  }

  /** What the mapper writes into its tables is not visible through any mapped page. */
  lemma TableWritesInvisible(s: Space, w: map<int, Byte>)
    requires Inv(s)
    ensures Inv(WithTableWrites(s, w)) && Preserves(s, WithTableWrites(s, w))
  {
  }

  lemma TableTaken(s: Space, f: Frame)
    requires Inv(s) && Spare(s, f)
    ensures var s' := s.(tables := s.tables + {f}); Inv(s') && Preserves(s, s')
  {
  }

  lemma PageMapped(s: Space, page: int, f: Frame, flags: Flags)
    requires Inv(s) && Spare(s, f) && page % PAGE == 0 && page !in s.pages
    ensures var s' := s.(pages := s.pages[page := Entry(f, flags)]); Inv(s') && Preserves(s, s')
  {
  }

  /** The frame the allocator hands out next is spare from then on. */
  lemma NextIsSpare(s: Space)
    requires Inv(s)
    ensures var s' := s.(used := s.used + 1);
      && Inv(s') && Preserves(s, s')
      && (s.used < |s.frames| ==> Spare(s', s.frames[s.used]))
      && (forall f :: Spare(s, f) ==> Spare(s', f) && (s.used < |s.frames| ==> s.frames[s.used] != f))
  {
  }

  lemma PreservesTransitive(a: Space, b: Space, c: Space)
    requires Preserves(a, b) && Preserves(b, c)
    ensures Preserves(a, c)
  {
  }

  datatype MapResult = Mapped | AlreadyMapped | OutOfFrames

  /** The frames that mapping `count` pages takes at most, with up to `levels` page-table frames for each. */
  function FramesFor(count: nat, levels: nat): nat {
    count * (levels + 1)
  }

  lemma FramesForSum(a: nat, b: nat, levels: nat)
    ensures FramesFor(a + b, levels) == FramesFor(a, levels) + FramesFor(b, levels)
    ensures FramesFor(1, levels) == levels + 1
  {
  }

  /** The allocator has been asked for more frames than there are. */
  predicate Exhausted(s: Space) {
    s.used > |s.frames|
  }

  /**
    The memory side of the boot code: the mapper, the allocator it draws on, and physical memory.
    `levels` is the number of page tables below the root, three on this machine.
  */
  class Mapper {
    const allocator: BootInfoFrameAllocator
    const levels: nat
    var pages: map<int, Entry>
    var phys: map<int, Byte>
    var tables: set<Frame>

    ghost function Snapshot(): Space
      reads this, allocator
    {
      Space(pages, phys, tables, UsableFrames(allocator.regions), allocator.next)
    }

    /** The state at entry: `pages` and `tables` are what the boot loader set up. */
    constructor (regions: seq<Region>, pages: map<int, Entry>, phys: map<int, Byte>, tables: set<Frame>, levels: nat)
      ensures fresh(allocator) && this.levels == levels
      ensures Snapshot() == Space(pages, phys, tables, UsableFrames(regions), 0)
    {
      this.levels := levels;
      this.allocator := new BootInfoFrameAllocator(regions);
      this.pages, this.phys, this.tables := pages, phys, tables;
    }

    method Allocate() returns (frame: Option<Frame>)
      requires Inv(Snapshot())
      modifies allocator
      ensures var s := old(Snapshot());
        Inv(Snapshot()) && Snapshot() == s.(used := s.used + 1) && Preserves(s, Snapshot()) &&
        frame == Nth(s.frames, s.used)
      ensures frame.Some? ==> Spare(Snapshot(), frame.value)
    {
      NextIsSpare(Snapshot());
      frame := allocator.AllocateFrame();
    }

    /** A page table is missing on the way: take a frame for it. */
    method TakeTable(ghost spare: Frame) returns (taken: bool)
      requires Inv(Snapshot()) && Spare(Snapshot(), spare)
      modifies this`tables, allocator
      ensures Inv(Snapshot()) && Preserves(old(Snapshot()), Snapshot()) && Spare(Snapshot(), spare)
      ensures Snapshot().used == old(Snapshot()).used + 1 && (!taken ==> Exhausted(Snapshot()))
    {
      ghost var s := Snapshot();
      NextIsSpare(s);
      var frame := Allocate();
      taken := frame.Some?;
      if taken {
        ghost var s1 := Snapshot();
        TableTaken(s1, frame.value);
        tables := tables + {frame.value};
        PreservesTransitive(s, s1, Snapshot());
      }
    }

    /**
      `map_to`: it may take frames for page tables and write to them, before it finds the page free or taken.
      How many, up to one a level, and what it writes there, is left open. It fails for want of frames only when the
      allocator has none left.
    */
    method MapTo(page: int, frame: Frame, flags: Flags) returns (r: MapResult)
      requires Inv(Snapshot()) && page % PAGE == 0 && Spare(Snapshot(), frame)
      modifies this, allocator
      ensures Inv(Snapshot()) && Preserves(old(Snapshot()), Snapshot())
      ensures r == Mapped ==> page !in old(pages) && pages == old(pages)[page := Entry(frame, flags)]
      ensures r != Mapped ==> pages == old(pages)
      ensures r == AlreadyMapped ==> page in old(pages)
      ensures r == OutOfFrames ==> Exhausted(Snapshot())
      ensures Snapshot().used <= old(Snapshot()).used + levels
    {
      ghost var s := Snapshot();
      var needed: nat :| 0 <= needed <= levels;
      for i := 0 to needed
        invariant Inv(Snapshot()) && Preserves(s, Snapshot()) && Spare(Snapshot(), frame)
        invariant pages == old(pages) && Snapshot().used == s.used + i
      {
        ghost var s1 := Snapshot();
        var taken := TakeTable(frame);
        PreservesTransitive(s, s1, Snapshot());
        if !taken {
          return OutOfFrames;
        }
      }
      if page in pages {
        return AlreadyMapped;
      }
      ghost var s2 := Snapshot();
      PageMapped(s2, page, frame, flags);
      pages := pages[page := Entry(frame, flags)];
      ghost var s3 := Snapshot();
      PreservesTransitive(s, s2, s3);
      var written: map<int, Byte> := *;
      TableWritesInvisible(s3, written);
      phys := phys + map a | a in written && Containing(a) in tables :: written[a];
      PreservesTransitive(s, s3, Snapshot());
      r := Mapped;
    }

    /** A byte written through the page map. */
    method StoreByte(addr: int, b: Byte)
      requires Translate(Snapshot(), addr).Some?
      modifies this`phys
      ensures Snapshot() == Store(old(Snapshot()), addr, b)
    {
      phys := phys[pages[Containing(addr)].frame + addr % PAGE := b];
    }

    /** `update_flags`. */
    method UpdateFlags(page: int, flags: Flags)
      requires page in pages
      modifies this`pages
      ensures pages == old(pages)[page := old(pages)[page].(flags := flags)]
    {
      pages := pages[page := pages[page].(flags := flags)];
    }

    /** `allocate_frame`, then `map_to`. */
    method MapFresh(page: int, flags: Flags) returns (r: MapResult)
      requires Inv(Snapshot()) && page % PAGE == 0
      modifies this, allocator
      ensures Inv(Snapshot()) && Preserves(old(Snapshot()), Snapshot())
      ensures r == Mapped ==> page !in old(pages) && page in pages && pages == old(pages)[page := pages[page]]
      ensures r == Mapped ==> pages[page].flags == flags
      ensures r != Mapped ==> pages == old(pages)
      ensures r == AlreadyMapped ==> page in old(pages)
      ensures r == OutOfFrames ==> Exhausted(Snapshot())
      ensures Snapshot().used <= old(Snapshot()).used + levels + 1
    {
      ghost var s := Snapshot();
      var frame := Allocate();
      ghost var s1 := Snapshot();
      if frame.None? {
        return OutOfFrames;
      }
      r := MapTo(page, frame.value, flags);
      PreservesTransitive(s, s1, Snapshot());
    }

    /** The loop all three callers share: a fresh frame for each of `count` pages. */
    method MapPages(first: int, count: nat, flags: Flags) returns (r: MapResult)
      requires Inv(Snapshot()) && first % PAGE == 0
      modifies this, allocator
      ensures Inv(Snapshot()) && Preserves(old(Snapshot()), Snapshot())
      ensures forall p :: p in pages ==> p in old(pages) || InRange(p, first, count)
      ensures r == Mapped ==> forall i :: 0 <= i < count ==>
        PageAt(first, i) !in old(pages) && PageAt(first, i) in pages && pages[PageAt(first, i)].flags == flags
      ensures r == AlreadyMapped ==> exists i :: 0 <= i < count && PageAt(first, i) in old(pages)
      ensures r == OutOfFrames ==> Exhausted(Snapshot())
      ensures Snapshot().used <= old(Snapshot()).used + FramesFor(count, levels)
    {
      ghost var s := Snapshot();
      for i := 0 to count
        invariant Inv(Snapshot()) && Preserves(s, Snapshot())
        invariant Snapshot().used <= s.used + FramesFor(i, levels)
        invariant forall p :: p in pages ==> p in s.pages || InRange(p, first, i)
        invariant forall j :: 0 <= j < i ==>
          PageAt(first, j) !in s.pages && PageAt(first, j) in pages && pages[PageAt(first, j)].flags == flags
      {
        ghost var s1 := Snapshot();
        FramesForSum(i, 1, levels);
        FramesForSum(i + 1, count - i - 1, levels);
        var result := MapFresh(PageAt(first, i), flags);
        PreservesTransitive(s, s1, Snapshot());
        if result != Mapped {
          if result == AlreadyMapped {
            NotInRange(first, i);
          }
          return result;
        }
        NotInRange(first, i);
        assert InRange(PageAt(first, i), first, i + 1);
      }
      r := Mapped;
    }
  }

  lemma NotInRange(first: int, i: nat)
    ensures !InRange(PageAt(first, i), first, i)
  {
  }
}
