/**
  What the boot code puts into memory: the kernel heap, the init program's segments and the user stacks.
*/
module Loader {
  import opened Options
  import opened Frames
  import opened Paging

  /** A program header; `load` says that its type is PT_LOAD, `writable` and `executable` are its PF_W and PF_X. */
  datatype Segment = Segment(
    load: bool, vaddr: nat, memsz: nat, filesz: nat, offset: nat, writable: bool, executable: bool)

  /** A program header as the ELF format requires it (System V gABI, chapter 5, Program Header). */
  ghost predicate ValidSegment(seg: Segment, data: seq<Byte>) {
    seg.filesz <= seg.memsz && seg.offset + seg.filesz <= |data|
  }

  function FirstPage(seg: Segment): int {
    Containing(seg.vaddr)
  }

  /** Pages from the first byte's to the last byte's; an empty segment ends before it starts. */
  function PageCount(seg: Segment): nat {
    var last := Containing(seg.vaddr + seg.memsz - 1);
    if last < FirstPage(seg) then 0 else (last - FirstPage(seg)) / PAGE + 1
  }

  /** The loader looks at PF_W only: no page is ever made non-executable. */
  function SegmentFlags(seg: Segment): Flags {
    Flags(seg.writable, true, false)
  }

  /** The segment's memory image: the file bytes, then zeros up to its size. */
  function ImageByte(seg: Segment, data: seq<Byte>, k: nat): Byte
    requires k < seg.memsz && seg.offset + seg.filesz <= |data|
  {
    if k < seg.filesz then data[seg.offset + k] else 0
  }

  ghost predicate HasImage(s: Space, seg: Segment, data: seq<Byte>)
    requires ValidSegment(seg, data)
  {
    forall a :: seg.vaddr <= a < seg.vaddr + seg.memsz ==> Load(s, a) == Some(ImageByte(seg, data, a - seg.vaddr))
  }

  ghost predicate HasFlags(s: Space, seg: Segment) {
    forall i :: 0 <= i < PageCount(seg) ==>
      var p := PageAt(FirstPage(seg), i); p in s.pages && s.pages[p].flags == SegmentFlags(seg)
  }

  /** Read back, a segment is its bytes of the file, and zeros from there to its size. */
  lemma LoadedBytes(s: Space, seg: Segment, data: seq<Byte>, k: nat)
    requires ValidSegment(seg, data) && HasImage(s, seg, data) && k < seg.memsz
    ensures Load(s, seg.vaddr + k) == Some(if k < seg.filesz then data[seg.offset + k] else 0)
  {
  }

  /** No page of the segment is mapped yet. */
  ghost predicate PagesFree(s: Space, seg: Segment) {
    forall i :: 0 <= i < PageCount(seg) ==> PageAt(FirstPage(seg), i) !in s.pages
  }

  /**
    The pages of a segment are exactly the pages its bytes lie on; an empty segment has none, or, when it starts
    within a page, that one.
  */
  lemma SegmentPagesIff(seg: Segment, p: int)
    requires p % PAGE == 0 && seg.vaddr + seg.memsz > 0
    ensures InRange(p, FirstPage(seg), PageCount(seg)) <==>
      if seg.memsz > 0 then exists a :: seg.vaddr <= a < seg.vaddr + seg.memsz && Containing(a) == p
      else seg.vaddr % PAGE != 0 && p == Containing(seg.vaddr)
  {
    if seg.memsz > 0 {
      forall a | seg.vaddr <= a < seg.vaddr + seg.memsz && Containing(a) == p
        ensures InRange(p, FirstPage(seg), PageCount(seg))
      {
        SegmentCovered(seg, a);
      }
      if InRange(p, FirstPage(seg), PageCount(seg)) {
        var i :| 0 <= i < PageCount(seg) && p == PageAt(FirstPage(seg), i);
        assert Containing(if p < seg.vaddr then seg.vaddr else p) == p;
      }
    } else if seg.vaddr % PAGE != 0 {
      assert PageAt(FirstPage(seg), 0) == Containing(seg.vaddr) && PageCount(seg) == 1;
    }
  }

  lemma SegmentCovered(seg: Segment, a: int)
    requires seg.vaddr <= a < seg.vaddr + seg.memsz
    ensures InRange(Containing(a), FirstPage(seg), PageCount(seg))
  {
    var i := (Containing(a) - FirstPage(seg)) / PAGE;
    assert Containing(a) == PageAt(FirstPage(seg), i);
  }

  /** The space differs only in bytes: everything outside [lo, hi) reads as before. */
  ghost predicate OnlyBytes(s: Space, s': Space, lo: int, hi: int) {
    && s' == s.(phys := s'.phys)
    && forall a :: !(lo <= a < hi) ==> Load(s', a) == Load(s, a)
  }

  ghost predicate AllMapped(s: Space, lo: int, hi: int) {
    forall a :: lo <= a < hi ==> Translate(s, a).Some?
  }

  /** `write_bytes(dest, 0, n)`. */
  method ZeroBytes(m: Mapper, dest: int, n: nat)
    requires Inv(m.Snapshot()) && AllMapped(m.Snapshot(), dest, dest + n)
    modifies m`phys
    ensures Inv(m.Snapshot()) && OnlyBytes(old(m.Snapshot()), m.Snapshot(), dest, dest + n)
    ensures forall a :: dest <= a < dest + n ==> Load(m.Snapshot(), a) == Some(0)
  {
    ghost var s := m.Snapshot();
    for i := 0 to n
      invariant Inv(m.Snapshot()) && OnlyBytes(s, m.Snapshot(), dest, dest + i)
      invariant forall a :: dest <= a < dest + i ==> Load(m.Snapshot(), a) == Some(0)
    {
      ghost var before := m.Snapshot();
      assert Translate(s, dest + i).Some?;
      m.StoreByte(dest + i, 0);
      forall a ensures Load(m.Snapshot(), a) == if a == dest + i then Some(0) else Load(before, a) {
        StoreIsLocal(before, dest + i, 0, a);
      }
    }
  }

  /** `copy_nonoverlapping(data + offset, dest, n)`. */
  method CopyBytes(m: Mapper, data: seq<Byte>, offset: nat, dest: int, n: nat)
    requires Inv(m.Snapshot()) && AllMapped(m.Snapshot(), dest, dest + n) && offset + n <= |data|
    modifies m`phys
    ensures Inv(m.Snapshot()) && OnlyBytes(old(m.Snapshot()), m.Snapshot(), dest, dest + n)
    ensures forall a :: dest <= a < dest + n ==> Load(m.Snapshot(), a) == Some(data[offset + (a - dest)])
  {
    ghost var s := m.Snapshot();
    for i := 0 to n
      invariant Inv(m.Snapshot()) && OnlyBytes(s, m.Snapshot(), dest, dest + i)
      invariant forall a :: dest <= a < dest + i ==> Load(m.Snapshot(), a) == Some(data[offset + (a - dest)])
    {
      ghost var before := m.Snapshot();
      assert Translate(s, dest + i).Some?;
      m.StoreByte(dest + i, data[offset + i]);
      forall a ensures Load(m.Snapshot(), a) == if a == dest + i then Some(data[offset + i]) else Load(before, a) {
        StoreIsLocal(before, dest + i, data[offset + i], a);
      }
    }
  }

  lemma FlagsInvisible(s: Space, page: int, flags: Flags)
    requires Inv(s) && page in s.pages
    ensures var s' := s.(pages := s.pages[page := s.pages[page].(flags := flags)]);
      Inv(s') && forall a :: Load(s', a) == Load(s, a)
  {
  }

  /** The loop that takes the write permission away again. */
  method ProtectPages(m: Mapper, first: int, count: nat, flags: Flags)
    requires Inv(m.Snapshot())
    requires forall i :: 0 <= i < count ==> PageAt(first, i) in m.pages
    modifies m`pages
    ensures Inv(m.Snapshot()) && m.pages.Keys == old(m.pages).Keys
    ensures forall a :: Load(m.Snapshot(), a) == Load(old(m.Snapshot()), a)
    ensures forall p :: p in m.pages && !InRange(p, first, count) ==> m.pages[p] == old(m.pages)[p]
    ensures forall i :: 0 <= i < count ==> m.pages[PageAt(first, i)].flags == flags
  {
    ghost var s := m.Snapshot();
    for k := 0 to count
      invariant Inv(m.Snapshot()) && m.pages.Keys == s.pages.Keys
      invariant forall a :: Load(m.Snapshot(), a) == Load(s, a)
      invariant forall p :: p in m.pages && !InRange(p, first, k) ==> m.pages[p] == s.pages[p]
      invariant forall i :: 0 <= i < k ==> m.pages[PageAt(first, i)].flags == flags
    {
      assert PageAt(first, k) in m.pages;
      FlagsInvisible(m.Snapshot(), PageAt(first, k), flags);
      assert InRange(PageAt(first, k), first, k + 1);
      assert forall p :: InRange(p, first, k) ==> InRange(p, first, k + 1);
      m.UpdateFlags(PageAt(first, k), flags);
    }
  }

  /** How loading ends: everything but `Loaded` is a panic. */
  datatype LoadResult = Loaded | AddressUnderflow | PageTaken | NoMemory

  /**
    `load_segment`: on success the segment's image and permissions are in place, its pages were all free,
    and nothing that was mapped before reads differently or lost its permissions. It fails only on an empty segment at
    address 0, on a page that was taken, or when the allocator has run out, and it takes no more frames than it needs.
  */
  method LoadSegment(m: Mapper, data: seq<Byte>, seg: Segment) returns (r: LoadResult)
    requires Inv(m.Snapshot()) && ValidSegment(seg, data)
    modifies m, m.allocator
    ensures Inv(m.Snapshot()) && Preserves(old(m.Snapshot()), m.Snapshot())
    ensures r == Loaded ==> HasImage(m.Snapshot(), seg, data) && HasFlags(m.Snapshot(), seg)
    ensures r == Loaded ==> PagesFree(old(m.Snapshot()), seg)
    ensures r == PageTaken ==> !PagesFree(old(m.Snapshot()), seg)
    ensures r == AddressUnderflow <==> seg.vaddr + seg.memsz == 0
    ensures r == NoMemory ==> Exhausted(m.Snapshot())
    ensures m.Snapshot().used <= old(m.Snapshot()).used + FramesFor(PageCount(seg), m.levels)
    ensures forall p :: p in m.pages ==> p in old(m.pages) || InRange(p, FirstPage(seg), PageCount(seg))
  {
    ghost var s := m.Snapshot();
    if seg.vaddr + seg.memsz == 0 {
      return AddressUnderflow;
    }
    var first := FirstPage(seg);
    var count := PageCount(seg);
    var mapped := m.MapPages(first, count, SegmentFlags(seg).(writable := true));
    match mapped {
      case AlreadyMapped => return PageTaken;
      case OutOfFrames => return NoMemory;
      case Mapped =>
    }
    ghost var s1 := m.Snapshot();
    forall a | seg.vaddr <= a < seg.vaddr + seg.memsz
      ensures Translate(s1, a).Some? && Load(s, a) == None
    {
      SegmentCovered(seg, a);
    }
    ZeroBytes(m, seg.vaddr, seg.memsz);
    ghost var s2 := m.Snapshot();
    forall a | seg.vaddr <= a < seg.vaddr + seg.filesz
      ensures Translate(s2, a).Some?
    {
      assert Translate(s2, a) == Translate(s1, a);
    }
    CopyBytes(m, data, seg.offset, seg.vaddr, seg.filesz);
    ghost var s3 := m.Snapshot();
    assert HasImage(s3, seg, data);
    assert Preserves(s, s3);
    if !seg.writable {
      assert forall i :: 0 <= i < count ==> InRange(PageAt(first, i), first, count);
      ProtectPages(m, first, count, SegmentFlags(seg));
    }
    r := Loaded;
  }

  /** The last byte of an empty segment at address 0 has no address. */
  predicate AtZero(seg: Segment) {
    seg.vaddr + seg.memsz == 0
  }

  /** The pages of all loadable segments. */
  function PagesOf(headers: seq<Segment>): nat {
    if headers == [] then 0
    else PagesOf(headers[..|headers| - 1]) + var seg := headers[|headers| - 1]; if seg.load then PageCount(seg) else 0
  }

  lemma {:induction false} FramesOfNext(headers: seq<Segment>, k: nat, levels: nat)
    requires k < |headers|
    ensures FramesFor(PagesOf(headers[..k + 1]), levels) ==
      FramesFor(PagesOf(headers[..k]), levels) + FramesFor(if headers[k].load then PageCount(headers[k]) else 0, levels)
    ensures FramesFor(PagesOf(headers[..k + 1]), levels) <= FramesFor(PagesOf(headers), levels)
    decreases |headers| - k
  {
    assert headers[..k + 1][..k] == headers[..k];
    FramesForSum(PagesOf(headers[..k]), if headers[k].load then PageCount(headers[k]) else 0, levels);
    if k + 1 < |headers| {
      FramesOfNext(headers, k + 1, levels);
    } else {
      assert headers[..k + 1] == headers;
    }
  }

  /** Two segments have no page in common. */
  ghost predicate PagesApart(a: Segment, b: Segment) {
    forall i, j :: 0 <= i < PageCount(a) && 0 <= j < PageCount(b) ==> PageAt(FirstPage(a), i) != PageAt(FirstPage(b), j)
  }

  lemma ImageKept(s: Space, s': Space, seg: Segment, data: seq<Byte>)
    requires ValidSegment(seg, data) && HasImage(s, seg, data) && HasFlags(s, seg) && Preserves(s, s')
    ensures HasImage(s', seg, data) && HasFlags(s', seg)
  {
  }

  /** Segment `j` meets a page that was mapped before, or one of an earlier segment. */
  ghost predicate Clashes(s: Space, headers: seq<Segment>, j: nat) {
    && j < |headers| && headers[j].load
    && (!PagesFree(s, headers[j]) || exists i :: 0 <= i < j && headers[i].load && !PagesApart(headers[i], headers[j]))
  }

  /**
    `load_elf`: on success every loadable segment has its image and its permissions, the segments share no page,
    nothing mapped before has changed, and the entry point is returned. It never panics over a taken page
    unless a segment meets a page that was mapped or another segment's.
  */
  method LoadElf(m: Mapper, data: seq<Byte>, headers: seq<Segment>, entry: int)
    returns (r: LoadResult, entryPoint: int)
    requires Inv(m.Snapshot())
    requires forall i :: 0 <= i < |headers| && headers[i].load ==> ValidSegment(headers[i], data)
    modifies m, m.allocator
    ensures Inv(m.Snapshot()) && Preserves(old(m.Snapshot()), m.Snapshot()) && entryPoint == entry
    ensures r == Loaded ==> forall i :: 0 <= i < |headers| && headers[i].load ==>
      && HasImage(m.Snapshot(), headers[i], data) && HasFlags(m.Snapshot(), headers[i])
      && PagesFree(old(m.Snapshot()), headers[i]) && !AtZero(headers[i])
    ensures r == Loaded ==> forall i, j :: 0 <= i < j < |headers| && headers[i].load && headers[j].load ==>
      PagesApart(headers[i], headers[j])
    ensures r == Loaded ==> OnlySegments(old(m.Snapshot()), m.Snapshot(), headers)
    ensures r == AddressUnderflow ==> exists j :: 0 <= j < |headers| && headers[j].load && AtZero(headers[j])
    ensures r == NoMemory ==> Exhausted(m.Snapshot())
    ensures m.Snapshot().used <= old(m.Snapshot()).used + FramesFor(PagesOf(headers), m.levels)
    ensures r == PageTaken ==> exists j :: Clashes(old(m.Snapshot()), headers, j)
  {
    ghost var s := m.Snapshot();
    entryPoint := entry;
    for k := 0 to |headers|
      invariant Inv(m.Snapshot()) && Preserves(s, m.Snapshot())
      invariant LoadedUpTo(s, m.Snapshot(), headers, k, data)
      invariant m.Snapshot().used <= s.used + FramesFor(PagesOf(headers[..k]), m.levels)
    {
      ghost var before := m.Snapshot();
      FramesOfNext(headers, k, m.levels);
      if headers[k].load {
        r := LoadSegment(m, data, headers[k]);
        PreservesTransitive(s, before, m.Snapshot());
        if r != Loaded {
          if r == PageTaken {
            TakenByWhom(s, before, headers, k);
          }
          return;
        }
      }
      SegmentAdded(s, before, m.Snapshot(), headers, k, data);
    }
    assert headers[..|headers|] == headers;
    r := Loaded;
  }

  /** The first `k` headers are dealt with. */
  ghost predicate LoadedUpTo(s: Space, s': Space, headers: seq<Segment>, k: nat, data: seq<Byte>)
    requires k <= |headers|
    requires forall i :: 0 <= i < |headers| && headers[i].load ==> ValidSegment(headers[i], data)
  {
    && (forall i :: 0 <= i < k && headers[i].load ==>
          HasImage(s', headers[i], data) && HasFlags(s', headers[i]) && PagesFree(s, headers[i]) && !AtZero(headers[i]))
    && (forall i, j :: 0 <= i < j < k && headers[i].load && headers[j].load ==> PagesApart(headers[i], headers[j]))
    && OnlySegments(s, s', headers[..k])
  }

  lemma SegmentAdded(s: Space, before: Space, after: Space, headers: seq<Segment>, k: nat, data: seq<Byte>)
    requires k < |headers|
    requires forall i :: 0 <= i < |headers| && headers[i].load ==> ValidSegment(headers[i], data)
    requires LoadedUpTo(s, before, headers, k, data) && Preserves(s, before)
    requires if headers[k].load then
        && HasImage(after, headers[k], data) && HasFlags(after, headers[k]) && PagesFree(before, headers[k])
        && !AtZero(headers[k])
        && Preserves(before, after)
        && forall p :: p in after.pages ==> p in before.pages || InRange(p, FirstPage(headers[k]), PageCount(headers[k]))
      else after == before
    ensures LoadedUpTo(s, after, headers, k + 1, data)
  {
    forall i | 0 <= i < k && headers[i].load
      ensures HasImage(after, headers[i], data) && HasFlags(after, headers[i])
      ensures headers[k].load ==> PagesApart(headers[i], headers[k])
    {
      if headers[k].load {
        ImageKept(before, after, headers[i], data);
        assert HasFlags(before, headers[i]);
      }
    }
    NewPagesOfSegments(s, before, after, headers, k);
  }

  lemma NewPagesOfSegments(s: Space, before: Space, after: Space, headers: seq<Segment>, k: nat)
    requires k < |headers| && OnlySegments(s, before, headers[..k])
    requires forall p :: p in after.pages ==>
      p in before.pages || (headers[k].load && InRange(p, FirstPage(headers[k]), PageCount(headers[k])))
    ensures OnlySegments(s, after, headers[..k + 1])
  {
  }

  /** Every page that is new belongs to one of the segments. */
  ghost predicate OnlySegments(s: Space, s': Space, segs: seq<Segment>) {
    forall p :: p in s'.pages ==> p in s.pages || OfSome(p, segs)
  }

  ghost predicate OfSome(p: int, segs: seq<Segment>) {
    exists i :: 0 <= i < |segs| && segs[i].load && InRange(p, FirstPage(segs[i]), PageCount(segs[i]))
  }

  lemma TakenByWhom(s: Space, before: Space, headers: seq<Segment>, k: nat)
    requires k < |headers| && OnlySegments(s, before, headers[..k]) && !PagesFree(before, headers[k])
    requires headers[k].load
    ensures Clashes(s, headers, k)
  {
  }

  // ----- Stacks and heap -----

  ghost predicate RangeMapped(s: Space, first: int, count: nat, flags: Flags) {
    forall i :: 0 <= i < count ==> PageAt(first, i) in s.pages && s.pages[PageAt(first, i)].flags == flags
  }

  ghost predicate RangeFree(s: Space, first: int, count: nat) {
    forall i :: 0 <= i < count ==> PageAt(first, i) !in s.pages
  }

  const STACK_FLAGS := Flags(true, true, false)

  /** `setup_user_stack`: None is a panic. The stack it returns is mapped from its base to its top. */
  method SetupUserStack(m: Mapper, base: nat, count: nat) returns (top: Option<int>)
    requires Inv(m.Snapshot())
    modifies m, m.allocator
    ensures Inv(m.Snapshot()) && Preserves(old(m.Snapshot()), m.Snapshot())
    ensures top.Some? ==>
      && top.value == base + PAGE * count
      && RangeFree(old(m.Snapshot()), Containing(base), count)
      && RangeMapped(m.Snapshot(), Containing(base), count, STACK_FLAGS)
      && (base % PAGE == 0 ==> forall a :: base <= a < top.value ==> Translate(m.Snapshot(), a).Some?)
    ensures top.None? ==> Exhausted(m.Snapshot()) || !RangeFree(old(m.Snapshot()), Containing(base), count)
    ensures forall p :: p in m.pages ==> p in old(m.pages) || InRange(p, Containing(base), count)
    ensures m.Snapshot().used <= old(m.Snapshot()).used + FramesFor(count, m.levels)
  {
    var mapped := m.MapPages(Containing(base), count, STACK_FLAGS);
    if mapped != Mapped {
      return None;
    }
    forall a | base <= a < base + PAGE * count && base % PAGE == 0
      ensures Translate(m.Snapshot(), a).Some?
    {
      var i := (Containing(a) - base) / PAGE;
      assert Containing(a) == PageAt(base, i);
    }
    top := Some(base + PAGE * count);
  }

  const HEAP_START := 0x4444_4444_0000
  const HEAP_SIZE := 100 * 1024
  const HEAP_PAGES := 25
  const HEAP_FLAGS := Flags(true, false, false)

  /** `init_heap`: on success every heap address is mapped, writable, and closed to user mode. */
  method InitHeap(m: Mapper) returns (r: MapResult)
    requires Inv(m.Snapshot())
    modifies m, m.allocator
    ensures Inv(m.Snapshot()) && Preserves(old(m.Snapshot()), m.Snapshot())
    ensures r == Mapped ==>
      && RangeFree(old(m.Snapshot()), HEAP_START, HEAP_PAGES)
      && RangeMapped(m.Snapshot(), HEAP_START, HEAP_PAGES, HEAP_FLAGS)
      && forall a :: HEAP_START <= a < HEAP_START + HEAP_SIZE ==> Translate(m.Snapshot(), a).Some?
    ensures r == AlreadyMapped ==> !RangeFree(old(m.Snapshot()), HEAP_START, HEAP_PAGES)
    ensures r == OutOfFrames ==> Exhausted(m.Snapshot())
    ensures forall p :: p in m.pages ==> p in old(m.pages) || InRange(p, HEAP_START, HEAP_PAGES)
    ensures m.Snapshot().used <= old(m.Snapshot()).used + FramesFor(HEAP_PAGES, m.levels)
  {
    var first := Containing(HEAP_START);
    var last := Containing(HEAP_START + HEAP_SIZE - 1);
    r := m.MapPages(first, (last - first) / PAGE + 1, HEAP_FLAGS);
    forall a | HEAP_START <= a < HEAP_START + HEAP_SIZE && r == Mapped
      ensures Translate(m.Snapshot(), a).Some?
    {
      var i := (Containing(a) - HEAP_START) / PAGE;
      assert Containing(a) == PageAt(HEAP_START, i);
    }
  }

  lemma RangeKept(s: Space, s': Space, first: int, count: nat, flags: Flags)
    requires RangeMapped(s, first, count, flags) && Preserves(s, s')
    ensures RangeMapped(s', first, count, flags)
  {
  }

  // ----- Write or execute -----

  predicate WritableAndExecutable(flags: Flags) {
    flags.writable && !flags.noExecute
  }

  /** The pages' permissions are the ones the program header asks for. */
  ghost predicate HeaderHonoured(s: Space, seg: Segment)
    requires HasFlags(s, seg)
  {
    forall i :: 0 <= i < PageCount(seg) ==>
      var flags := s.pages[PageAt(FirstPage(seg), i)].flags;
      flags.writable == seg.writable && flags.noExecute == !seg.executable
  }

  /** No page that loading added can be both written and executed. */
  ghost predicate WriteXorExecute(s: Space, s': Space) {
    forall p :: p in s'.pages && p !in s.pages ==> !WritableAndExecutable(s'.pages[p].flags)
  }

  /**
    A loaded page is open to user mode, writable exactly when its segment is, and can be written and executed exactly
    then.
  */
  lemma LoadedPageIsBothIff(s: Space, seg: Segment, a: int)
    requires HasFlags(s, seg) && seg.vaddr <= a < seg.vaddr + seg.memsz
    ensures Containing(a) in s.pages
    ensures s.pages[Containing(a)].flags.user && (s.pages[Containing(a)].flags.writable <==> seg.writable)
    ensures WritableAndExecutable(s.pages[Containing(a)].flags) <==> seg.writable
  {
    SegmentCovered(seg, a);
  }

  /** What a program header asks for is what its pages get exactly when it asks for execution. */
  lemma HeaderHonouredIff(s: Space, seg: Segment)
    requires HasFlags(s, seg) && PageCount(seg) > 0
    ensures HeaderHonoured(s, seg) <==> seg.executable
  {
    assert PageAt(FirstPage(seg), 0) in s.pages;
  }

  /** The image that `load_elf` leaves obeys W^X exactly when it has no writable segment. */
  lemma ImageIsWriteXorExecuteIff(s: Space, s': Space, headers: seq<Segment>)
    requires OnlySegments(s, s', headers)
    requires forall i :: 0 <= i < |headers| && headers[i].load ==> HasFlags(s', headers[i]) && PagesFree(s, headers[i])
    ensures WriteXorExecute(s, s') <==>
      forall i :: 0 <= i < |headers| && headers[i].load && PageCount(headers[i]) > 0 ==> !headers[i].writable
  {
    forall i | 0 <= i < |headers| && headers[i].load && PageCount(headers[i]) > 0 && headers[i].writable
      ensures !WriteXorExecute(s, s')
    {
      assert PageAt(FirstPage(headers[i]), 0) in s'.pages;
    }
    forall p | p in s'.pages && p !in s.pages
      ensures exists i ::
        && 0 <= i < |headers| && headers[i].load && PageCount(headers[i]) > 0
        && s'.pages[p].flags == SegmentFlags(headers[i])
    {
      assert OfSome(p, headers);
    }
  }

  /** Every page of a user stack is open to user mode, and can be written and executed. */
  lemma StackPageIsBoth(s: Space, first: int, count: nat, a: int)
    requires RangeMapped(s, first, count, STACK_FLAGS) && first % PAGE == 0 && first <= a < first + PAGE * count
    ensures Containing(a) in s.pages
    ensures s.pages[Containing(a)].flags.user && WritableAndExecutable(s.pages[Containing(a)].flags)
  {
    var i := (Containing(a) - first) / PAGE;
    assert Containing(a) == PageAt(first, i);
  }

  /** The kernel's hundred kilobytes of heap are writable and closed to user mode. */
  lemma HeapPageIsKernels(s: Space, a: int)
    requires RangeMapped(s, HEAP_START, HEAP_PAGES, HEAP_FLAGS)
    requires 0x4444_4444_0000 <= a < 0x4444_4444_0000 + 100 * 1024
    ensures Containing(a) in s.pages
    ensures s.pages[Containing(a)].flags.writable && !s.pages[Containing(a)].flags.user
  {
    var i := (Containing(a) - HEAP_START) / PAGE;
    assert Containing(a) == PageAt(HEAP_START, i);
  }

  // ----- The whole boot -----

  const STACK_A := 0x3000_0000
  const STACK_B := 0x4000_0000
  const STACK_PAGES := 8

  /** The page was mapped before the boot, or is wanted by the heap or by a segment. */
  ghost predicate Taken(s: Space, headers: seq<Segment>, p: int) {
    p in s.pages || InRange(p, HEAP_START, HEAP_PAGES) || OfSome(p, headers)
  }

  ghost predicate StackTaken(s: Space, headers: seq<Segment>, base: int) {
    exists i :: 0 <= i < STACK_PAGES && Taken(s, headers, PageAt(base, i))
  }

  /** A page of the segment was mapped before the boot, or is the heap's. */
  ghost predicate MeetsHeap(s: Space, seg: Segment) {
    exists i :: 0 <= i < PageCount(seg) &&
      var p := PageAt(FirstPage(seg), i); p in s.pages || InRange(p, HEAP_START, HEAP_PAGES)
  }

  ghost predicate SegmentObstructed(s: Space, headers: seq<Segment>, j: nat) {
    && j < |headers| && headers[j].load
    && (AtZero(headers[j]) || MeetsHeap(s, headers[j])
        || exists i :: 0 <= i < j && headers[i].load && !PagesApart(headers[i], headers[j]))
  }

  /** Two parts of the boot want the same page, or one wants a page that is taken; or a segment has no address. */
  ghost predicate Obstructed(s: Space, headers: seq<Segment>) {
    || !RangeFree(s, HEAP_START, HEAP_PAGES)
    || (exists j :: SegmentObstructed(s, headers, j))
    || StackTaken(s, headers, STACK_A) || StackTaken(s, headers, STACK_B)
  }

  lemma ClashObstructs(s0: Space, s1: Space, headers: seq<Segment>, j: nat)
    requires Clashes(s1, headers, j)
    requires forall p :: p in s1.pages ==> p in s0.pages || InRange(p, HEAP_START, HEAP_PAGES)
    ensures SegmentObstructed(s0, headers, j)
  {
  }

  /** Stack B's pages are none of stack A's. */
  lemma StacksAreApart(i: nat)
    requires i < STACK_PAGES
    ensures !InRange(PageAt(STACK_B, i), STACK_A, STACK_PAGES)
  {
  }

  lemma TakenPage(s: Space, s': Space, headers: seq<Segment>, base: int)
    requires !RangeFree(s', base, STACK_PAGES)
    requires forall i :: 0 <= i < STACK_PAGES && PageAt(base, i) in s'.pages ==> Taken(s, headers, PageAt(base, i))
    ensures StackTaken(s, headers, base)
  {
  }

  /** What a boot that got through found: every page it wanted was free when it came to it. */
  lemma BootedIsUnobstructed(s0: Space, s1: Space, s2: Space, s3: Space, headers: seq<Segment>)
    requires RangeFree(s0, HEAP_START, HEAP_PAGES) && RangeMapped(s1, HEAP_START, HEAP_PAGES, HEAP_FLAGS)
    requires Preserves(s0, s1) && Preserves(s1, s2) && Preserves(s2, s3)
    requires forall i :: 0 <= i < |headers| && headers[i].load ==>
      !AtZero(headers[i]) && PagesFree(s1, headers[i]) && HasFlags(s2, headers[i])
    requires forall i, j :: 0 <= i < j < |headers| && headers[i].load && headers[j].load ==>
      PagesApart(headers[i], headers[j])
    requires RangeFree(s2, STACK_A, STACK_PAGES) && RangeFree(s3, STACK_B, STACK_PAGES)
    ensures !Obstructed(s0, headers)
  {
    forall p | Taken(s0, headers, p) ensures p in s2.pages && p in s3.pages {
      if OfSome(p, headers) {
        var i :| 0 <= i < |headers| && headers[i].load && InRange(p, FirstPage(headers[i]), PageCount(headers[i]));
        assert HasFlags(s2, headers[i]);
      }
    }
    forall j | 0 <= j < |headers| && headers[j].load ensures !MeetsHeap(s0, headers[j]) {
      assert PagesFree(s1, headers[j]);
    }
  }

  /**
    Steps 2 to 4 of `kernel_main`. When the boot gets through, everything it set up is there at once:
    the heap, the init program's image with its permissions, and both processes' stacks,
    and no two of their pages share a frame. It never leaves a memory that obeys W^X.
    Unless the frames run out it gets through exactly when no two parts of it want the same page and none wants one
    that is taken; and it takes no more frames than its pages and their tables need.
  */
  method BootMemory(m: Mapper, data: seq<Byte>, headers: seq<Segment>, entry: int)
    returns (booted: bool, entryPoint: int, stackA: int, stackB: int)
    requires Inv(m.Snapshot())
    requires forall i :: 0 <= i < |headers| && headers[i].load ==> ValidSegment(headers[i], data)
    modifies m, m.allocator
    ensures Inv(m.Snapshot()) && Preserves(old(m.Snapshot()), m.Snapshot())
    ensures booted ==>
      && entryPoint == entry && stackA == 0x3000_8000 && stackB == 0x4000_8000
      && RangeMapped(m.Snapshot(), HEAP_START, HEAP_PAGES, HEAP_FLAGS)
      && (forall i :: 0 <= i < |headers| && headers[i].load ==>
            HasImage(m.Snapshot(), headers[i], data) && HasFlags(m.Snapshot(), headers[i]))
      && RangeMapped(m.Snapshot(), STACK_A, STACK_PAGES, STACK_FLAGS)
      && RangeMapped(m.Snapshot(), STACK_B, STACK_PAGES, STACK_FLAGS)
      && !WriteXorExecute(old(m.Snapshot()), m.Snapshot())
    ensures !Exhausted(m.Snapshot()) ==> (booted <==> !Obstructed(old(m.Snapshot()), headers))
    ensures booted ==> !Obstructed(old(m.Snapshot()), headers)
    ensures m.Snapshot().used <= old(m.Snapshot()).used +
      FramesFor(HEAP_PAGES, m.levels) + FramesFor(PagesOf(headers), m.levels) + 2 * FramesFor(STACK_PAGES, m.levels)
  {
    booted, entryPoint, stackA, stackB := false, entry, 0, 0;
    ghost var s0 := m.Snapshot();
    var heap := InitHeap(m);
    ghost var s1 := m.Snapshot();
    if heap != Mapped {
      return;
    }
    var loaded;
    loaded, entryPoint := LoadElf(m, data, headers, entry);
    ghost var s2 := m.Snapshot();
    PreservesTransitive(s0, s1, s2);
    RangeKept(s1, s2, HEAP_START, HEAP_PAGES, HEAP_FLAGS);
    if loaded != Loaded {
      if loaded == PageTaken {
        ghost var j :| Clashes(s1, headers, j);
        ClashObstructs(s0, s1, headers, j);
      } else if loaded == AddressUnderflow {
        ghost var j :| 0 <= j < |headers| && headers[j].load && AtZero(headers[j]);
        assert SegmentObstructed(s0, headers, j);
      }
      return;
    }
    assert forall p :: p in s2.pages ==> Taken(s0, headers, p);
    var a := SetupUserStack(m, STACK_A, STACK_PAGES);
    ghost var s3 := m.Snapshot();
    PreservesTransitive(s0, s2, s3);
    if a.None? {
      if !Exhausted(s3) {
        TakenPage(s0, s2, headers, STACK_A);
      }
      return;
    }
    var b := SetupUserStack(m, STACK_B, STACK_PAGES);
    ghost var s4 := m.Snapshot();
    PreservesTransitive(s0, s3, s4);
    PreservesTransitive(s2, s3, s4);
    if b.None? {
      if !Exhausted(s4) {
        forall i | 0 <= i < STACK_PAGES && PageAt(STACK_B, i) in s3.pages
          ensures Taken(s0, headers, PageAt(STACK_B, i))
        {
          StacksAreApart(i);
        }
        TakenPage(s0, s3, headers, STACK_B);
      }
      return;
    }
    RangeKept(s3, s4, STACK_A, STACK_PAGES, STACK_FLAGS);
    RangeKept(s2, s4, HEAP_START, HEAP_PAGES, HEAP_FLAGS);
    forall i | 0 <= i < |headers| && headers[i].load
      ensures HasImage(s4, headers[i], data) && HasFlags(s4, headers[i])
    {
      ImageKept(s2, s4, headers[i], data);
    }
    StackPageIsBoth(s4, STACK_A, STACK_PAGES, STACK_A);
    assert PageAt(STACK_A, 0) == STACK_A && STACK_A !in s0.pages;
    BootedIsUnobstructed(s0, s1, s2, s3, headers);
    booted, stackA, stackB := true, a.value, b.value;
  }

  // ----- Isolation -----

  /** A run of byte writes, such as a process makes to its stack. */
  function StoreAll(s: Space, writes: seq<(int, Byte)>): Space
    requires forall i :: 0 <= i < |writes| ==> Translate(s, writes[i].0).Some?
    decreases |writes|
  {
    if writes == [] then s
    else
      var s1 := Store(s, writes[0].0, writes[0].1);
      assert forall a :: Translate(s1, a) == Translate(s, a);
      StoreAll(s1, writes[1..])
  }

  /**
    Isolation: however much is written through one range of pages, no byte of any page outside it changes,
    so a process that stays on its stack cannot reach the other's, the image, the heap or a page table.
  */
  lemma {:induction false} WritesStayInTheirRange(
    s: Space, first: int, count: nat, writes: seq<(int, Byte)>, a: int)
    requires Inv(s)
    requires forall i :: 0 <= i < |writes| ==>
      Translate(s, writes[i].0).Some? && InRange(Containing(writes[i].0), first, count)
    requires !InRange(Containing(a), first, count)
    ensures Load(StoreAll(s, writes), a) == Load(s, a) && Inv(StoreAll(s, writes))
    ensures forall p :: Containing(p) in s.tables ==>
      (p in StoreAll(s, writes).phys <==> p in s.phys) && (p in s.phys ==> StoreAll(s, writes).phys[p] == s.phys[p])
    decreases |writes|
  {
    if writes != [] {
      var s1 := Store(s, writes[0].0, writes[0].1);
      StoreIsLocal(s, writes[0].0, writes[0].1, a);
      assert Containing(Translate(s, writes[0].0).value) == s.pages[Containing(writes[0].0)].frame;
      WritesStayInTheirRange(s1, first, count, writes[1..], a);
    }
  }

  /**
    What the boot loader must hand over: a well-placed memory map, and a page map of its own that is injective
    and stays clear of usable memory and of the page tables. Then the whole boot starts inside the invariant.
  */
  lemma BootLoaderHandsOver(regions: seq<Region>, pages: map<int, Entry>, phys: map<int, Byte>, tables: set<Frame>)
    requires WellPlaced(regions)
    requires forall p :: p in pages ==> p % PAGE == 0 && pages[p].frame % PAGE == 0 && pages[p].frame !in tables
    requires forall p, q :: p in pages && q in pages && p != q ==> pages[p].frame != pages[q].frame
    requires forall f :: f in tables ==> f % PAGE == 0
    requires forall p, r :: p in pages && r in regions ==> !Within(pages[p].frame, r)
    requires forall f, r :: f in tables && r in regions ==> !Within(f, r)
    ensures Inv(Space(pages, phys, tables, UsableFrames(regions), 0))
  {
    UsableFramesPlaced(regions);
    UsableFramesAligned(regions);
    var frames := UsableFrames(regions);
    forall k | 0 <= k < |frames|
      ensures Untouched(Space(pages, phys, tables, frames, 0), frames[k])
    {
      assert frames[k] in frames;
      var i :| 0 <= i < |regions| && Within(frames[k], regions[i]);
      assert regions[i] in regions;
    }
  }
}
