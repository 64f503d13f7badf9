/** The pages of slabs. Slabs are placed on whole pages that the bitmap has handed out; that they do not overlap
    follows from the pages having been free. */
module SlabPages {
  import opened Words
  import opened Wrappers
  import opened Segments
  import opened Radixes
  import opened Reservations
  import opened VaBitmaps
  import opened Links
  import opened SizeClasses
  import opened Carving
  import opened SlabLife

  /** The bytes a slab takes, metadata and blocks. */
  function Bytes(s: Slab, y: Layout): nat {
    EndOf(s, y) - s.start
  }

  /** The pages a slab occupies, the last one perhaps in part. */
  ghost function PagesOfSlab(s: Slab, y: Layout): set<int> {
    Span(s.start / BLOCK_SIZE, s.start / BLOCK_SIZE + BlocksFor(Bytes(s, y)))
  }

  ghost predicate OnPages(s: Slab, used: set<int>, y: Layout) {
    s.start % BLOCK_SIZE == 0 && PagesOfSlab(s, y) <= used
  }

  /** Every slab begins at a page, and its pages are in use. */
  ghost predicate Backed(slabs: seq<Slab>, used: set<int>, y: Layout) {
    forall k :: 0 <= k < |slabs| ==> OnPages(slabs[k], used, y)
  }

  /** Every byte of a slab lies in one of its pages. */
  lemma ByteOnPage(s: Slab, y: Layout, a: int)
    requires s.start % BLOCK_SIZE == 0 && s.start <= a < EndOf(s, y)
    ensures a / BLOCK_SIZE in PagesOfSlab(s, y)
  {
    assert s.start == s.start / BLOCK_SIZE * BLOCK_SIZE;
    assert Between(s.start / BLOCK_SIZE, a / BLOCK_SIZE, s.start / BLOCK_SIZE + BlocksFor(Bytes(s, y)));
  }

  /** Slabs on different pages do not overlap. */
  lemma SlabsApart(s: Slab, t: Slab, y: Layout)
    requires LayoutOk(y) && s.start % BLOCK_SIZE == 0 && t.start % BLOCK_SIZE == 0
    requires PagesOfSlab(s, y) !! PagesOfSlab(t, y)
    ensures Disjoint(s, t, y)
  {
    EndBehind(s, y);
    EndBehind(t, y);
    if s.start <= t.start < EndOf(s, y) {
      ByteOnPage(s, y, t.start);
      ByteOnPage(t, y, t.start);
    } else if t.start <= s.start < EndOf(t, y) {
      ByteOnPage(s, y, s.start);
      ByteOnPage(t, y, s.start);
    }
  }

  /** On free pages there is room for a slab. */
  lemma FreeIsAddable(slabs: seq<Slab>, used: set<int>, s: Slab, y: Layout)
    requires LayoutOk(y) && Backed(slabs, used, y) && SlabOk(s, y) && s.start % BLOCK_SIZE == 0
    requires PagesOfSlab(s, y) !! used
    ensures Addable(slabs, s, y)
  {
    forall k | 0 <= k < |slabs|
      ensures Disjoint(slabs[k], s, y)
    {
      assert OnPages(slabs[k], used, y);
      SlabsApart(slabs[k], s, y);
    }
  }

  // ------------------------------------------------------------------ all slabs

  ghost function AllPages(slabs: seq<Slab>, y: Layout): set<int> {
    if slabs == [] then {} else AllPages(slabs[..|slabs| - 1], y) + PagesOfSlab(slabs[|slabs| - 1], y)
  }

  lemma {:induction false} AllPagesBack(slabs: seq<Slab>, y: Layout, k: nat)
    requires k < |slabs|
    ensures PagesOfSlab(slabs[k], y) <= AllPages(slabs, y)
  {
    if k < |slabs| - 1 {
      AllPagesBack(slabs[..|slabs| - 1], y, k);
    }
  }

  lemma AllPagesAdd(slabs: seq<Slab>, s: Slab, y: Layout)
    ensures AllPages(slabs + [s], y) == AllPages(slabs, y) + PagesOfSlab(s, y)
  {
    assert (slabs + [s])[..|slabs|] == slabs;
  }

  /** Carving does not change the pages. */
  lemma {:induction false} AllPagesSame(slabs: seq<Slab>, slabs': seq<Slab>, y: Layout)
    requires |slabs| == |slabs'| && forall k :: 0 <= k < |slabs| ==> SameSpot(slabs[k], slabs'[k])
    ensures AllPages(slabs', y) == AllPages(slabs, y)
  {
    if slabs != [] {
      var n := |slabs| - 1;
      AllPagesSame(slabs[..n], slabs'[..n], y);
      assert SameSpot(slabs[n], slabs'[n]);
      assert EndOf(slabs[n], y) == EndOf(slabs'[n], y);
    }
  }

  /** The same slab, perhaps with a different number of blocks carved. */
  ghost predicate SameSpot(s: Slab, s': Slab) {
    s' == s.(carved := s'.carved)
  }

  // ------------------------------------------------------------------ pages for a slab

  /** No segment reaches beyond this address. */
  const TOP := RADIX_MAX_CHUNKS * CHUNK_SIZE

  /** `used` became `used'` by taking the pages of a slab, which were free. */
  ghost predicate Lent(s: Slab, used: set<int>, used': set<int>, y: Layout) {
    && 0 < s.start && s.start % BLOCK_SIZE == 0 && EndOf(s, y) <= TOP
    && used !! PagesOfSlab(s, y) && used' == used + PagesOfSlab(s, y)
  }

  lemma PagesAligned(a: nat)
    requires a % BLOCK_SIZE == 0
    ensures a % 16 == 0
  {
    assert a == 16 * (256 * (a / BLOCK_SIZE));
  }

  /** On pages that were free there is room for a slab. */
  lemma LentIsAddable(slabs: seq<Slab>, s: Slab, used: set<int>, used': set<int>, y: Layout)
    requires LayoutOk(y) && Backed(slabs, used, y) && Lent(s, used, used', y)
    requires s.head % 16 == 0 && s.carved <= Capacity(s.class_, y)
    ensures SlabOk(s, y) && Addable(slabs, s, y)
  {
    PagesAligned(s.start);
    FreeIsAddable(slabs, used, s, y);
  }

  /** What the kernel and the random number generator contribute to one request for a slab. */
  datatype Supply = Supply(rand: nat -> nat, first: KernelReply, kernel: nat -> KernelReply, mmapOk: bool)

  ghost predicate SupplyOk(va: VaBitmap, x: Supply) {
    va.Honest(x.first) && va.HonestAll(x.kernel)
  }

  /** The bitmap has no pages: the process does not survive asking for them. */
  ghost predicate Starved(va: VaBitmap, count: int, x: Supply)
    requires va.Valid() && KernelsOk(x.kernel)
    reads va, va.Repr
  {
    va.AllocFate(count, x.first, x.kernel) != Granted
  }

  /** What comes of it: an address, nothing, or the death of the process. */
  datatype Reply = Mapped(start: nat) | NotMapped | Dead

  /** The pages at an address in a segment end before the reach of the index does. */
  lemma BelowTop(s: Segment, addr: int, size: int)
    requires SegmentOk(s) && 0 < size && VaBitmap.RunIn(s, addr, BlocksFor(size))
    ensures addr + size <= TOP
  {
    ChunkyPositive(s.vaEnd - s.vaStart);
    assert s.vaStart == Base(s) * BLOCK_SIZE && addr == addr / BLOCK_SIZE * BLOCK_SIZE;
    assert addr + size <= s.vaEnd;
    assert LastChunk(s.vaStart, s.vaEnd - s.vaStart) == Min(s.vaEnd - 1, USIZE_MAX) / CHUNK_SIZE;
  }

  lemma TakenIsLent(s: Slab, used: set<int>, used': set<int>, y: Layout)
    requires 0 < s.start && s.start % BLOCK_SIZE == 0 && EndOf(s, y) <= TOP
    requires
      var p, n := s.start / BLOCK_SIZE, BlocksFor(Bytes(s, y));
      AllFree(used, p, p + n) && used' == used + Span(p, p + n)
    ensures Lent(s, used, used', y)
  {
  }

  /** Freeing pages right after they were taken. */
  lemma GivenBack(s: Segment, used: set<int>, addr: int, size: int)
    requires SegmentOk(s) && 0 < size && VaBitmap.RunIn(s, addr, BlocksFor(size))
    requires AllFree(used, addr / BLOCK_SIZE, addr / BLOCK_SIZE + BlocksFor(size))
    ensures s.Contains(addr)
    ensures
      var p := addr / BLOCK_SIZE;
      VaBitmap.FreedBy(used + Span(p, p + BlocksFor(size)), s, addr, size) == used
  {
    ChunkyPositive(s.vaEnd - s.vaStart);
    assert s.vaStart == Base(s) * BLOCK_SIZE && addr == addr / BLOCK_SIZE * BLOCK_SIZE;
  }

  /** Pages in a listed segment are within the reach of the index and in the arena. */
  lemma HintBelowTop(va: VaBitmap, addr: int, size: int)
    requires va.Valid() && 0 < size && exists s :: s in va.segs && VaBitmap.RunIn(s, addr, BlocksFor(size))
    ensures addr + size <= TOP && InArena(va.arena, addr, addr + size)
  {
    var s :| s in va.segs && VaBitmap.RunIn(s, addr, BlocksFor(size));
    BelowTop(s, addr, size);
    InSegment(s, addr, size);
    var i :| 0 <= i < |va.segs| && va.segs[i] == s;
    assert InArena(va.arena, s.vaStart, s.vaEnd);
  }

  lemma InSegment(s: Segment, addr: int, size: int)
    requires SegmentOk(s) && 0 < size && VaBitmap.RunIn(s, addr, BlocksFor(size))
    ensures s.vaStart <= addr && addr + size <= s.vaEnd
  {
    ChunkyPositive(s.vaEnd - s.vaStart);
    assert s.vaStart == Base(s) * BLOCK_SIZE && addr == addr / BLOCK_SIZE * BLOCK_SIZE;
  }

  /** Used pages belong to segments, so what is on them lies in the arena. */
  lemma BackedInArena(va: VaBitmap, s: Slab, y: Layout)
    requires va.Valid() && OnPages(s, va.used, y)
    ensures InArena(va.arena, s.start, EndOf(s, y))
  {
    forall a | s.start <= a < EndOf(s, y)
      ensures a in va.arena
    {
      ByteOnPage(s, y, a);
      UsedInArena(va, a);
    }
  }

  lemma UsedInArena(va: VaBitmap, a: int)
    requires va.Valid() && a / BLOCK_SIZE in va.used
    ensures va.Ours(a) && a in va.arena && a < TOP
  {
    var i :| 0 <= i < |va.segs| && PageIn(va.segs[i], a / BLOCK_SIZE);
    PageInside(va.segs[i], a);
    assert InArena(va.arena, va.segs[i].vaStart, va.segs[i].vaEnd);
  }

  lemma PageInside(s: Segment, a: int)
    requires SegmentOk(s) && PageIn(s, a / BLOCK_SIZE)
    ensures s.Contains(a) && a < TOP
  {
    ChunkyPositive(s.vaEnd - s.vaStart);
    assert s.vaStart == Base(s) * BLOCK_SIZE;
    assert LastChunk(s.vaStart, s.vaEnd - s.vaStart) == Min(s.vaEnd - 1, USIZE_MAX) / CHUNK_SIZE;
  }

  /** Free pages that have just been taken. They are still there in the latest segment. */
  method PutBack(va: VaBitmap, addr: int, size: nat, ghost was: set<int>)
    requires va.Valid() && 0 < size && va.Takes(was, addr, BlocksFor(size))
    modifies va.Repr
    ensures va.Valid() && va.Repr == old(va.Repr) && va.segs == old(va.segs) && va.used == was
    ensures !va.LatestFull(BlocksFor(size))
  {
    ghost var s :| s in va.segs && VaBitmap.RunIn(s, addr, BlocksFor(size)) && va.latest == s;
    GivenBack(s, was, addr, size);
    va.Free(addr, size);
    va.RunThere(s, addr, BlocksFor(size));
  }

  /** Where there is room, the process survives. */
  lemma RoomIsEnough(va: VaBitmap, count: int, x: Supply)
    requires va.Valid() && KernelsOk(x.kernel) && !va.LatestFull(count)
    ensures !Starved(va, count, x)
  {
  }

  /** Take pages for `size` bytes and map them; if they cannot be mapped they go back, and then there is room for
      the next attempt. */
  method TakeAndMap(va: VaBitmap, size: nat, x: Supply) returns (r: Reply)
    requires va.Valid() && 0 < size && SupplyOk(va, x)
    modifies va.Repr
    ensures va.Valid() && fresh(va.Repr - old(va.Repr)) && Keeps(old(va.segs), va.segs)
    ensures !r.Mapped? ==> va.used == old(va.used)
    ensures r.Mapped? ==> 0 < r.start && r.start % BLOCK_SIZE == 0 && r.start + size <= TOP
    ensures r.Mapped? ==> InArena(va.arena, r.start, r.start + size)
    ensures r.Mapped? ==>
      var p := r.start / BLOCK_SIZE;
      && AllFree(old(va.used), p, p + BlocksFor(size))
      && va.used == old(va.used) + Span(p, p + BlocksFor(size))
    ensures (r.Mapped? ==> x.mmapOk) && (r.NotMapped? ==> !x.mmapOk && !va.LatestFull(BlocksFor(size)))
    ensures size <= CHUNK_SIZE ==> (r.Dead? <==> old(Starved(va, BlocksFor(size), x)))
  {
    var hint := va.Alloc(size, x.rand, x.first, x.kernel);
    if !hint.Address? {
      return Dead;
    }
    HintBelowTop(va, hint.addr, size);
    if !x.mmapOk {
      PutBack(va, hint.addr, size, old(va.used));
      return NotMapped;
    }
    r := Mapped(hint.addr);
  }

  /** The bytes a slab of a class takes, metadata and blocks. */
  function SlabBytes(c: Class, y: Layout): nat {
    METADATA_SIZE + Capacity(c, y) * Size(c, y)
  }

  /** The pages a slab of a class takes. */
  function SlabCount(c: Class, y: Layout): int {
    BlocksFor(SlabBytes(c, y))
  }

  /** There is room for a slab of class `c` at `start`: free pages that the kernel may hand out. */
  ghost predicate Spot(start: nat, c: Class, used: set<int>, arena: iset<int>, y: Layout) {
    var s := NewSlab(start, c, 0);
    && 0 < start && start % BLOCK_SIZE == 0 && EndOf(s, y) <= TOP && InArena(arena, start, EndOf(s, y))
    && used !! PagesOfSlab(s, y)
  }

  /** What became of the used pages: those of a slab at a spot that was free were added, or nothing has changed. */
  ghost predicate Settles(r: Reply, c: Class, t: nat, used: set<int>, used': set<int>, arena: iset<int>, y: Layout) {
    match r
    case Mapped(start) => Lent(NewSlab(start, c, t), used, used', y) && Spot(start, c, used, arena, y)
    case _ => used' == used
  }

  /** Ask for a slab of class `c`. */
  method MapPages(va: VaBitmap, c: Class, ghost t: nat, y: Layout, x: Supply) returns (r: Reply)
    requires va.Valid() && LayoutOk(y) && SupplyOk(va, x)
    modifies va.Repr
    ensures va.Valid() && fresh(va.Repr - old(va.Repr)) && Keeps(old(va.segs), va.segs)
    ensures Settles(r, c, t, old(va.used), va.used, va.arena, y)
    ensures (r.Mapped? ==> x.mmapOk) && (r.NotMapped? ==> !x.mmapOk && !va.LatestFull(SlabCount(c, y)))
    ensures SlabBytes(c, y) <= CHUNK_SIZE ==> (r.Dead? <==> old(Starved(va, SlabCount(c, y), x)))
  {
    r := TakeAndMap(va, SlabBytes(c, y), x);
    if r.Mapped? {
      NthIs(r.start + METADATA_SIZE, Size(c, y), Capacity(c, y));
      TakenIsLent(NewSlab(r.start, c, t), old(va.used), va.used, y);
    }
  }

  /** None of the first `n` requests for a slab is granted. */
  predicate NoneMapped(supplies: seq<Supply>, n: nat)
    requires n <= |supplies|
  {
    forall i :: 0 <= i < n ==> !supplies[i].mmapOk
  }

  ghost predicate SuppliesOk(va: VaBitmap, supplies: seq<Supply>) {
    |supplies| == 3 && forall i :: 0 <= i < 3 ==> SupplyOk(va, supplies[i])
  }

  /** What becomes of a request for a new slab of `count` pages: the process dies if the bitmap has none at the first
      attempt, and the request is refused if all three mappings are. */
  ghost function NewFate(va: VaBitmap, count: int, supplies: seq<Supply>): Fate
    requires va.Valid() && SuppliesOk(va, supplies)
    reads va, va.Repr
  {
    if Starved(va, count, supplies[0]) then Deadly else if NoneMapped(supplies, 3) then Denied else Granted
  }

  /** Up to `n` requests were made: none was granted, or the last one. */
  ghost predicate Asked(r: Reply, supplies: seq<Supply>, n: nat)
    requires n <= |supplies|
  {
    match r
    case Mapped(_) => !NoneMapped(supplies, |supplies|)
    case NotMapped => NoneMapped(supplies, n)
    case Dead => true
  }

  lemma AskedMore(r: Reply, supplies: seq<Supply>, i: nat)
    requires i < |supplies| && NoneMapped(supplies, i)
    requires (r.Mapped? ==> supplies[i].mmapOk) && (r.NotMapped? ==> !supplies[i].mmapOk)
    ensures Asked(r, supplies, i + 1)
  {
  }

  /** Ask again, when there is room: the process survives. */
  method MapAgain(va: VaBitmap, c: Class, ghost t: nat, y: Layout, x: Supply) returns (r: Reply)
    requires va.Valid() && LayoutOk(y) && SupplyOk(va, x) && !va.LatestFull(SlabCount(c, y))
    modifies va.Repr
    ensures va.Valid() && fresh(va.Repr - old(va.Repr)) && Keeps(old(va.segs), va.segs)
    ensures Settles(r, c, t, old(va.used), va.used, va.arena, y)
    ensures (r.Mapped? ==> x.mmapOk) && (r.NotMapped? ==> !x.mmapOk && !va.LatestFull(SlabCount(c, y)))
    ensures SlabBytes(c, y) <= CHUNK_SIZE ==> !r.Dead?
  {
    RoomIsEnough(va, SlabCount(c, y), x);
    r := MapPages(va, c, t, y, x);
  }

  /** Ask for a slab up to three times. The process dies only of the first attempt: after it there is room. */
  method MapRetry(va: VaBitmap, c: Class, ghost t: nat, y: Layout, supplies: seq<Supply>) returns (r: Reply)
    requires va.Valid() && LayoutOk(y) && SuppliesOk(va, supplies)
    modifies va.Repr
    ensures va.Valid() && fresh(va.Repr - old(va.Repr)) && Keeps(old(va.segs), va.segs)
    ensures Settles(r, c, t, old(va.used), va.used, va.arena, y)
    ensures Asked(r, supplies, 3) && (r.NotMapped? ==> !va.LatestFull(SlabCount(c, y)))
    ensures SlabBytes(c, y) <= CHUNK_SIZE ==> (r.Dead? <==> old(Starved(va, SlabCount(c, y), supplies[0])))
  {
    r := MapPages(va, c, t, y, supplies[0]);
    AskedMore(r, supplies, 0);
    var i := 1;
    while i != 3 && r.NotMapped?
      invariant 1 <= i <= 3 && va.Valid() && fresh(va.Repr - old(va.Repr)) && Keeps(old(va.segs), va.segs)
      invariant Settles(r, c, t, old(va.used), va.used, va.arena, y)
      invariant Asked(r, supplies, i) && (r.NotMapped? ==> !va.LatestFull(SlabCount(c, y)))
      invariant SlabBytes(c, y) <= CHUNK_SIZE ==> (r.Dead? <==> old(Starved(va, SlabCount(c, y), supplies[0])))
      decreases 3 - i
    {
      r := MapAgain(va, c, t, y, supplies[i]);
      AskedMore(r, supplies, i);
      i := i + 1;
    }
  }

  /** New slabs, at most one, are on pages that were free. */
  ghost predicate Lends(slabs: seq<Slab>, slabs': seq<Slab>, used: set<int>, used': set<int>, y: Layout) {
    if |slabs'| == |slabs| then used' == used
    else |slabs'| == |slabs| + 1 && slabs'[|slabs|].head == METADATA_SIZE && Lent(slabs'[|slabs|], used, used', y)
  }

  /** Slabs that were there are still there, with all their blocks. */
  ghost predicate SpotsKept(slabs: seq<Slab>, slabs': seq<Slab>) {
    |slabs| <= |slabs'|
    && forall k :: 0 <= k < |slabs| ==> SameSpot(slabs[k], slabs'[k]) && slabs[k].carved <= slabs'[k].carved
  }

  lemma ClassKept(slabs: seq<Slab>, slabs': seq<Slab>, b: nat, c: Class, y: Layout)
    requires SpotsKept(slabs, slabs') && HasClass(slabs, b, c, y)
    ensures HasClass(slabs', b, c, y)
  {
    var k: nat, i: nat :| CarvedAt(slabs, k, i, b, c, y);
    assert SameSpot(slabs[k], slabs'[k]) && BlockOf(slabs'[k], i, y) == BlockOf(slabs[k], i, y);
    assert CarvedAt(slabs', k, i, b, c, y);
  }
}
