/** Big allocations: each owns whole pages, taken from the bitmap, and is remembered by size in the
    table. Growing and shrinking in place must keep the two in step, since freeing recomputes the pages
    from the remembered size. Transparent huge pages are off. */
module BigHeaps {
  import opened Words
  import opened Wrappers
  import opened Segments
  import opened Radixes
  import opened Reservations
  import opened VaBitmaps
  import opened BigAllocMaps
  import opened SizeClasses

  const BIG_CLASS := 100

  lemma AlignPages(size: int)
    requires 0 <= size
    ensures AlignTo(size, BLOCK_SIZE) == BlocksFor(size) * BLOCK_SIZE
    ensures BlocksFor(AlignTo(size, BLOCK_SIZE)) == BlocksFor(size)
  {
  }

  // ------------------------------------------------------------------ accounts

  /** The pages of the block with header `h` and payload `size`. */
  ghost function PagesOf(h: int, size: int, hs: int): set<int> {
    Span(h / BLOCK_SIZE, h / BLOCK_SIZE + BlocksFor(size + hs))
  }

  /** The used pages are exactly the pages of the big blocks and those lent to the slab allocator, and
      nothing is counted twice. */
  ghost predicate Accounts(m: map<nat, Meta>, used: set<int>, slab: set<int>, hs: int) {
    && (forall h :: h in m ==> 0 < h && h % BLOCK_SIZE == 0)
    && (forall h, g :: h in m && g in m && h != g ==> PagesOf(h, m[h].size, hs) !! PagesOf(g, m[g].size, hs))
    && (forall h :: h in m ==> PagesOf(h, m[h].size, hs) !! slab)
    && slab <= used
    && (forall h :: h in m ==> PagesOf(h, m[h].size, hs) <= used)
    && (forall p :: p in used ==> p in slab || exists h :: h in m && p in PagesOf(h, m[h].size, hs))
  }

  /** The pages `m` gives to the header `h`, if it is a big block. */
  ghost function Held(m: map<nat, Meta>, h: nat, hs: int): set<int> {
    if h in m then PagesOf(h, m[h].size, hs) else {}
  }

  /** A change that touches one block only and takes no page from anybody else. */
  ghost predicate OneBlock(m: map<nat, Meta>, m': map<nat, Meta>, h: nat) {
    forall g :: g != h ==> (g in m <==> g in m') && (g in m ==> m'[g] == m[g])
  }

  /** Accounts stay right when one block changes the pages it holds, possibly lending some to the slab
      allocator, as long as the pages it adds were free. */
  lemma AccountsChange(m: map<nat, Meta>, used: set<int>, slab: set<int>,
                       m': map<nat, Meta>, used': set<int>, lent: set<int>, hs: int, h: nat)
    requires Accounts(m, used, slab, hs) && OneBlock(m, m', h)
    requires h in m' ==> 0 < h && h % BLOCK_SIZE == 0
    requires Held(m', h, hs) !! lent && (Held(m', h, hs) + lent) !! (used - Held(m, h, hs))
    requires used' == used - Held(m, h, hs) + Held(m', h, hs) + lent
    ensures Accounts(m', used', slab + lent, hs)
  {
    forall g | g in m && g != h
      ensures PagesOf(g, m[g].size, hs) <= used - Held(m, h, hs)
    {
    }
    forall p | p in used'
      ensures p in slab + lent || exists g :: g in m' && p in PagesOf(g, m'[g].size, hs)
    {
      if p in Held(m', h, hs) {
        assert h in m';
      } else if p !in slab + lent {
        var g :| g in m && p in PagesOf(g, m[g].size, hs);
        assert g != h && g in m';
      }
    }
  }

  /** Every block holds its first page, so a free first page means a new header. */
  lemma FreshHeader(m: map<nat, Meta>, used: set<int>, slab: set<int>, hs: int, h: nat, size: nat)
    requires Accounts(m, used, slab, hs) && 0 < hs && used !! PagesOf(h, size, hs)
    ensures h !in m && Held(m, h, hs) == {}
  {
    assert forall any: nat :: h / BLOCK_SIZE in PagesOf(h, any, hs);
  }

  /** Every big block lies inside one segment. */
  ghost predicate Placed(segs: seq<Segment>, m: map<nat, Meta>, hs: int) {
    forall h :: h in m ==> PlacedIn(segs, h, BlocksFor(m[h].size + hs))
  }

  ghost predicate PlacedIn(segs: seq<Segment>, h: int, count: int) {
    exists s :: s in segs && VaBitmap.RunIn(s, h, count)
  }

  lemma PlacedKept(segs: seq<Segment>, segs': seq<Segment>, m: map<nat, Meta>, hs: int)
    requires Placed(segs, m, hs) && Keeps(segs, segs')
    ensures Placed(segs', m, hs)
  {
    forall h | h in m
      ensures PlacedIn(segs', h, BlocksFor(m[h].size + hs))
    {
      assert PlacedIn(segs, h, BlocksFor(m[h].size + hs));
    }
  }

  /** `used` became `used'` by taking the pages of a block at `h`. */
  ghost predicate Took(segs: seq<Segment>, used: set<int>, used': set<int>, h: int, size: int, hs: int) {
    && 0 < h && h % BLOCK_SIZE == 0 && PlacedIn(segs, h, BlocksFor(size + hs))
    && used !! PagesOf(h, size, hs) && used' == used + PagesOf(h, size, hs)
  }

  // ------------------------------------------------------------------ the ledger

  /** The block at `h` is re-registered with `size` bytes, as a big block or as a slab block. */
  ghost function Registered(m: map<nat, Meta>, h: nat, size: nat, big: bool): map<nat, Meta> {
    if big then m[h := Meta(size, BIG_CLASS, 0, 0)] else m - {h}
  }

  /** The pages that `used` must hold after the block at `h` is resized. */
  ghost function ResizedPages(used: set<int>, h: nat, from: nat, to: nat, hs: int): set<int> {
    used - PagesOf(h, from, hs) + PagesOf(h, to, hs)
  }

  /** The state that matters: the segments, the remembered sizes, the used pages, and the pages held by
      slabs. */
  datatype Ledger = Ledger(segs: seq<Segment>, table: map<nat, Meta>, used: set<int>, slab: set<int>)

  /** Every page is accounted for and every big block lies in one segment: the pages of a live block are
      exactly those its remembered size and header need. */
  ghost predicate Books(l: Ledger, hs: int) {
    Accounts(l.table, l.used, l.slab, hs) && Placed(l.segs, l.table, hs)
  }

  /** What the books say about one header. */
  ghost predicate SoundAt(l: Ledger, h: nat, hs: int) {
    h in l.table ==>
      && 0 < h && h % BLOCK_SIZE == 0 && PlacedIn(l.segs, h, BlocksFor(l.table[h].size + hs))
      && PagesOf(h, l.table[h].size, hs) <= l.used
  }

  lemma BooksSound(l: Ledger, h: nat, hs: int)
    requires Books(l, hs)
    ensures SoundAt(l, h, hs)
  {
  }

  /** What an operation may do to the ledger. */
  datatype Action =
    | Nothing
    | NewBlock(h: nat, size: nat)
    | DropBlock(h: nat)
    | Resize(h: nat, size: nat, big: bool)
    | Lend(page: int, count: int)

  ghost predicate Step(l: Ledger, a: Action, l': Ledger, hs: int) {
    match a
    case Nothing =>
      && Keeps(l.segs, l'.segs)
      && l'.table == l.table && l'.used == l.used && l'.slab == l.slab
    case NewBlock(h, size) =>
      && Keeps(l.segs, l'.segs)
      && l'.table == l.table[h := Meta(size, BIG_CLASS, 0, 0)] && l'.slab == l.slab
      && Took(l'.segs, l.used, l'.used, h, size, hs)
    case DropBlock(h) =>
      && Keeps(l.segs, l'.segs)
      && l'.table == l.table - {h} && l'.slab == l.slab
      && l'.used == l.used - Held(l.table, h, hs)
    case Resize(h, size, big) =>
      && Keeps(l.segs, l'.segs)
      && h in l.table && PlacedIn(l'.segs, h, BlocksFor(size + hs))
      && PagesOf(h, size, hs) !! (l.used - PagesOf(h, l.table[h].size, hs))
      && l'.used == ResizedPages(l.used, h, l.table[h].size, size, hs)
      && l'.table == Registered(l.table, h, size, big)
      && l'.slab == if big then l.slab else l.slab + PagesOf(h, size, hs)
    case Lend(page, count) =>
      && Keeps(l.segs, l'.segs)
      && l'.table == l.table && AllFree(l.used, page, page + count)
      && l'.used == l.used + Span(page, page + count)
      && l'.slab == l.slab + Span(page, page + count)
  }

  /** The pages held by slabs after it. */
  ghost function SlabAfter(slab: set<int>, a: Action, hs: int): set<int> {
    match a
    case Resize(h, size, big) => if big then slab else slab + PagesOf(h, size, hs)
    case Lend(page, count) => slab + Span(page, page + count)
    case _ => slab
  }

  lemma LendKeepsAccounts(m: map<nat, Meta>, used: set<int>, slab: set<int>, hs: int, lent: set<int>)
    requires Accounts(m, used, slab, hs) && used !! lent
    ensures Accounts(m, used + lent, slab + lent, hs)
  {
  }

  lemma NewBlockKeepsBooks(l: Ledger, h: nat, size: nat, l': Ledger, hs: int)
    requires Books(l, hs) && Step(l, NewBlock(h, size), l', hs) && 0 < hs
    ensures Books(l', hs)
  {
    PlacedKept(l.segs, l'.segs, l.table, hs);
    FreshHeader(l.table, l.used, l.slab, hs, h, size);
    AccountsChange(l.table, l.used, l.slab, l'.table, l'.used, {}, hs, h);
    assert l.slab + {} == l'.slab;
  }

  lemma DropBlockKeepsBooks(l: Ledger, h: nat, l': Ledger, hs: int)
    requires Books(l, hs) && Step(l, DropBlock(h), l', hs)
    ensures Books(l', hs)
  {
    PlacedKept(l.segs, l'.segs, l.table, hs);
    AccountsChange(l.table, l.used, l.slab, l'.table, l'.used, {}, hs, h);
    assert l.slab + {} == l'.slab;
  }

  /** A block that stays in the table holds the pages of its new size. */
  lemma StayKeepsBooks(l: Ledger, h: nat, size: nat, l': Ledger, hs: int)
    requires Books(l, hs) && Step(l, Resize(h, size, true), l', hs) && 0 < hs
    ensures Books(l', hs)
  {
    PlacedKept(l.segs, l'.segs, l.table, hs);
    AccountsChange(l.table, l.used, l.slab, l'.table, l'.used, {}, hs, h);
    assert l.slab + {} == l'.slab;
  }

  /** A block that leaves the table lends its pages to the slabs. */
  lemma LeaveKeepsBooks(l: Ledger, h: nat, size: nat, l': Ledger, hs: int)
    requires Books(l, hs) && Step(l, Resize(h, size, false), l', hs) && 0 < hs
    ensures Books(l', hs)
  {
    PlacedKept(l.segs, l'.segs, l.table, hs);
    AccountsChange(l.table, l.used, l.slab, l'.table, l'.used, PagesOf(h, size, hs), hs, h);
  }

  lemma ResizeKeepsBooks(l: Ledger, h: nat, size: nat, big: bool, l': Ledger, hs: int)
    requires Books(l, hs) && Step(l, Resize(h, size, big), l', hs) && 0 < hs
    ensures Books(l', hs)
  {
    if big {
      StayKeepsBooks(l, h, size, l', hs);
    } else {
      LeaveKeepsBooks(l, h, size, l', hs);
    }
  }

  /** Every operation keeps the books right. */
  lemma StepKeepsBooks(l: Ledger, a: Action, l': Ledger, hs: int)
    requires Books(l, hs) && Step(l, a, l', hs) && 0 < hs
    ensures Books(l', hs)
  {
    match a
    case Nothing => PlacedKept(l.segs, l'.segs, l.table, hs);
    case NewBlock(h, size) => NewBlockKeepsBooks(l, h, size, l', hs);
    case DropBlock(h) => DropBlockKeepsBooks(l, h, l', hs);
    case Resize(h, size, big) => ResizeKeepsBooks(l, h, size, big, l', hs);
    case Lend(page, count) =>
      PlacedKept(l.segs, l'.segs, l.table, hs);
      LendKeepsAccounts(l.table, l.used, l.slab, hs, Span(page, page + count));
  }

  /** A run: ledgers `ls`, with action `as[i]` leading from `ls[i]` to `ls[i + 1]`. */
  ghost predicate IsRun(ls: seq<Ledger>, as_: seq<Action>, hs: int) {
    |ls| == |as_| + 1 && forall i :: 0 <= i < |as_| ==> Step(ls[i], as_[i], ls[i + 1], hs)
  }

  const NO_BLOCKS := Ledger([], map[], {}, {})

  lemma StartBooks(hs: int)
    ensures Books(NO_BLOCKS, hs)
  {
  }

  /** Over every run that starts without blocks, the books are right at every point. */
  lemma {:induction false} RunKeepsBooks(ls: seq<Ledger>, as_: seq<Action>, hs: int, n: nat)
    requires IsRun(ls, as_, hs) && ls[0] == NO_BLOCKS && 0 < hs && n < |ls|
    ensures Books(ls[n], hs)
  {
    if n == 0 {
      StartBooks(hs);
    } else {
      RunKeepsBooks(ls, as_, hs, n - 1);
      StepKeepsBooks(ls[n - 1], as_[n - 1], ls[n], hs);
    }
  }

  /** Freeing a block right after it was made, possibly resized in between, restores the used pages. */
  lemma DropReturnsAll(l: Ledger, l1: Ledger, l2: Ledger, l3: Ledger, h: nat, size: nat, size': nat, hs: int)
    requires Books(l, hs) && 0 < hs
    requires Step(l, NewBlock(h, size), l1, hs)
    requires Step(l1, Resize(h, size', true), l2, hs)
    requires Step(l2, DropBlock(h), l3, hs)
    ensures l3.used == l.used && l3.table == l.table
  {
    FreshHeader(l.table, l.used, l.slab, hs, h, size);
    assert l2.used == l.used + PagesOf(h, size', hs);
    assert l.used !! PagesOf(h, size', hs);
  }

  // ------------------------------------------------------------------ pages

  /** The pages are in the segment where the next search begins. */
  ghost predicate InLatest(va: VaBitmap, h: int, count: int)
    reads va
  {
    va.latest != null && va.latest in va.segs && VaBitmap.RunIn(va.latest, h, count)
  }

  /** Take pages for a header and `size` bytes. */
  method TakePages(va: VaBitmap, size: nat, hs: nat, rand: nat -> nat, first: KernelReply,
                          kernel: nat -> KernelReply) returns (r: Outcome)
    requires va.Valid() && va.Honest(first) && va.HonestAll(kernel)
    modifies va.Repr
    ensures va.Valid() && fresh(va.Repr - old(va.Repr)) && Keeps(old(va.segs), va.segs)
    ensures !r.Address? ==> va.used == old(va.used)
    ensures r.Address? ==> Took(va.segs, old(va.used), va.used, r.addr, size, hs)
    ensures 0 < size + hs <= CHUNK_SIZE ==> FateOf(r) == old(va.AllocFate(BlocksFor(size + hs), first, kernel))
    ensures 0 < size + hs <= CHUNK_SIZE && r.NoSpace? ==>
      va.Stuck(BlocksFor(size + hs), old(va.segs), old(va.MemoFrom(kernel, 0)))
    ensures r.Address? ==> InLatest(va, r.addr, BlocksFor(size + hs))
  {
    var total := AlignTo(size + hs, BLOCK_SIZE);
    TotalFits(size + hs);
    ghost var fate := va.AllocFate(BlocksFor(total), first, kernel);
    r := va.Alloc(total, rand, first, kernel);
    if r.Address? {
      TookPages(va, old(va.used), r.addr, BlocksFor(total), size, hs);
    }
  }

  /** Rounding up to pages neither changes their number nor leads beyond a chunk. */
  lemma TotalFits(bytes: nat)
    ensures BlocksFor(AlignTo(bytes, BLOCK_SIZE)) == BlocksFor(bytes)
    ensures 0 < bytes <= CHUNK_SIZE ==> 0 < AlignTo(bytes, BLOCK_SIZE) <= CHUNK_SIZE
  {
    AlignPages(bytes);
  }

  lemma TookPages(va: VaBitmap, was: set<int>, h: int, n: int, size: int, hs: int)
    requires va.Takes(was, h, n) && n == BlocksFor(size + hs)
    ensures Took(va.segs, was, va.used, h, size, hs)
  {
  }

  /** Give back the pages of a block. */
  method GivePages(va: VaBitmap, h: int, size: nat, hs: nat)
    requires va.Valid() && 0 < h && h % BLOCK_SIZE == 0 && 0 < hs
    requires PlacedIn(va.segs, h, BlocksFor(size + hs))
    modifies va.Repr
    ensures va.Valid() && va.Repr == old(va.Repr) && va.segs == old(va.segs)
    ensures va.used == old(va.used) - PagesOf(h, size, hs) && va.latest == old(va.latest)
  {
    ghost var s :| s in va.segs && VaBitmap.RunIn(s, h, BlocksFor(size + hs));
    FreesWhole(va.used, s, h, size, hs);
    va.Free(h, AlignTo(size + hs, BLOCK_SIZE));
  }

  lemma FreesWhole(used: set<int>, s: Segment, h: int, size: int, hs: int)
    requires s.vaStart % BLOCK_SIZE == 0 && s.vaStart <= s.vaEnd && 0 <= size + hs
    requires VaBitmap.RunIn(s, h, BlocksFor(size + hs))
    ensures s.Contains(h)
    ensures VaBitmap.FreedBy(used, s, h, AlignTo(size + hs, BLOCK_SIZE)) == used - PagesOf(h, size, hs)
  {
    AlignPages(size + hs);
    assert h == h / BLOCK_SIZE * BLOCK_SIZE && s.vaStart == Base(s) * BLOCK_SIZE;
  }

  /** The pages by which the block at `h` grows from `small` to `large` bytes. */
  ghost function TailPages(h: int, small: int, large: int, hs: int): set<int> {
    Span(h / BLOCK_SIZE + BlocksFor(small + hs), h / BLOCK_SIZE + BlocksFor(large + hs))
  }

  lemma TailSplits(h: int, small: int, large: int, hs: int)
    requires 0 <= small + hs && BlocksFor(small + hs) <= BlocksFor(large + hs)
    ensures PagesOf(h, large, hs) == PagesOf(h, small, hs) + TailPages(h, small, large, hs)
    ensures PagesOf(h, small, hs) !! TailPages(h, small, large, hs)
  {
  }

  /** Give back the pages behind the first `small` bytes of a block of `large` bytes. */
  method GiveTail(va: VaBitmap, ghost h: nat, ghost small: nat, ghost large: nat, ghost hs: nat, start: nat, len: nat)
    requires va.Valid() && 0 < h && h % BLOCK_SIZE == 0 && 0 < hs && TailAt(h, start, len, small, large, hs)
    requires BlocksFor(small + hs) < BlocksFor(large + hs)
    requires PlacedIn(va.segs, h, BlocksFor(large + hs))
    modifies va.Repr
    ensures va.Valid() && va.Repr == old(va.Repr) && va.segs == old(va.segs)
    ensures va.used == old(va.used) - TailPages(h, small, large, hs)
  {
    ghost var s :| s in va.segs && VaBitmap.RunIn(s, h, BlocksFor(large + hs));
    FreesTail(va.used, s, h, small, large, hs, start, len);
    va.Free(start, len);
  }

  lemma FreesTail(used: set<int>, s: Segment, h: int, small: int, large: int, hs: int, start: int, len: int)
    requires s.vaStart % BLOCK_SIZE == 0 && s.vaStart <= s.vaEnd && 0 <= small + hs && 0 <= large + hs
    requires BlocksFor(small + hs) < BlocksFor(large + hs) && VaBitmap.RunIn(s, h, BlocksFor(large + hs))
    requires start == h + AlignTo(small + hs, BLOCK_SIZE)
    requires len == AlignTo(large + hs, BLOCK_SIZE) - AlignTo(small + hs, BLOCK_SIZE)
    ensures 0 < len && h <= start && s.Contains(start)
    ensures VaBitmap.FreedBy(used, s, start, len) == used - TailPages(h, small, large, hs)
  {
    AlignPages(small + hs);
    AlignPages(large + hs);
    assert h == h / BLOCK_SIZE * BLOCK_SIZE && s.vaStart == Base(s) * BLOCK_SIZE;
    assert start / BLOCK_SIZE == h / BLOCK_SIZE + BlocksFor(small + hs);
    assert BlocksFor(len) == BlocksFor(large + hs) - BlocksFor(small + hs);
  }

  /** The pages behind the block are free and belong to its segment. */
  ghost predicate RoomBehind(segs: seq<Segment>, used: set<int>, h: int, small: int, large: int, hs: int) {
    PlacedIn(segs, h, BlocksFor(large + hs)) && used !! TailPages(h, small, large, hs)
  }

  /** Claim the pages behind a block so that it can hold `large` bytes. */
  method TakeTail(va: VaBitmap, h: int, small: nat, large: nat, hs: nat) returns (r: Option<int>)
    requires va.Valid() && 0 < h && h % BLOCK_SIZE == 0 && 0 < hs
    requires BlocksFor(small + hs) < BlocksFor(large + hs)
    requires PlacedIn(va.segs, h, BlocksFor(small + hs))
    modifies va.Repr
    ensures va.Valid() && va.Repr == old(va.Repr) && va.segs == old(va.segs)
    ensures r.None? ==> va.used == old(va.used)
    ensures r.Some? ==> r.value == AlignTo(large + hs, BLOCK_SIZE)
    ensures r.Some? <==> RoomBehind(va.segs, old(va.used), h, small, large, hs)
    ensures r.Some? ==> va.used == old(va.used) + TailPages(h, small, large, hs)
  {
    ghost var s :| s in va.segs && VaBitmap.RunIn(s, h, BlocksFor(small + hs));
    ResizesTail(va.used, s, h, small, large, hs);
    ghost var used := va.used;
    forall u | u in va.segs && u.Contains(h)
      ensures u == s
    {
      va.OneSegmentOnly(s, h);
    }
    r := va.ReallocInplace(h, AlignTo(small + hs, BLOCK_SIZE), AlignTo(large + hs, BLOCK_SIZE));
  }

  lemma ResizesTail(used: set<int>, s: Segment, h: int, small: int, large: int, hs: int)
    requires s.vaStart % BLOCK_SIZE == 0 && s.vaStart <= s.vaEnd && 0 <= small + hs && 0 <= large + hs
    requires BlocksFor(small + hs) < BlocksFor(large + hs) && VaBitmap.RunIn(s, h, BlocksFor(small + hs))
    ensures s.Contains(h)
    ensures var o, n := BlocksFor(AlignTo(small + hs, BLOCK_SIZE)), BlocksFor(AlignTo(large + hs, BLOCK_SIZE));
      && h / BLOCK_SIZE + o <= VaBitmap.EndPage(s)
      && n * BLOCK_SIZE == AlignTo(large + hs, BLOCK_SIZE)
      && (VaBitmap.CanResize(s, used, h / BLOCK_SIZE, o, n) <==>
            used !! TailPages(h, small, large, hs) && VaBitmap.RunIn(s, h, BlocksFor(large + hs)))
      && Resized(used, h / BLOCK_SIZE, o, n) == used + TailPages(h, small, large, hs)
  {
    AlignPages(small + hs);
    AlignPages(large + hs);
    assert h == h / BLOCK_SIZE * BLOCK_SIZE && s.vaStart == Base(s) * BLOCK_SIZE;
  }

  /** Taking or giving the tail is what a resize does to the used pages. */
  lemma TailResizes(used: set<int>, h: nat, small: nat, large: nat, hs: int)
    requires 0 <= hs && BlocksFor(small + hs) <= BlocksFor(large + hs)
    ensures PagesOf(h, large, hs) <= used ==>
      used - TailPages(h, small, large, hs) == ResizedPages(used, h, large, small, hs)
    ensures PagesOf(h, small, hs) <= used ==>
      used + TailPages(h, small, large, hs) == ResizedPages(used, h, small, large, hs)
    ensures used !! TailPages(h, small, large, hs) ==>
      PagesOf(h, large, hs) !! (used - PagesOf(h, small, hs))
    ensures used !! TailPages(h, small, large, hs) ==>
      used + TailPages(h, small, large, hs) - TailPages(h, small, large, hs) == used
  {
    TailSplits(h, small, large, hs);
  }

  lemma Shorter(segs: seq<Segment>, h: nat, long: int, short: int)
    requires PlacedIn(segs, h, long) && 0 < short <= long
    ensures PlacedIn(segs, h, short)
  {
    var s :| s in segs && VaBitmap.RunIn(s, h, long);
    assert VaBitmap.RunIn(s, h, short);
  }

  /** What becomes of a request for `count` accessible pages: the process dies or the request is refused if the
      bitmap has none, and it is refused if they cannot be made accessible. */
  ghost function BigFate(va: VaBitmap, count: int, first: KernelReply, kernel: nat -> KernelReply, access: bool): Fate
    requires va.Valid() && KernelsOk(kernel)
    reads va, va.Repr
  {
    var fate := va.AllocFate(count, first, kernel);
    if fate == Granted && !access then Denied else fate
  }

  /** What decides about a request that is made again: what became of the request for pages, the segments there were,
      and what is remembered of attempts to grow once it has been refused. */
  datatype Outlook = Outlook(fate: Fate, was: seq<Segment>, memo: Memo)

  ghost function Foresight(va: VaBitmap, count: int, first: KernelReply, kernel: nat -> KernelReply): (o: Outlook)
    requires va.Valid() && KernelsOk(kernel)
    reads va, va.Repr
    ensures MemoOk(o.memo, va.reserver.maxReservation)
  {
    Outlook(va.AllocFate(count, first, kernel), va.segs, va.MemoFrom(kernel, 0))
  }

  /** How a request for `count` pages that was refused leaves the bitmap: with room for it, if there were pages that
      could not be made accessible, and otherwise without. */
  ghost predicate TurnedAway(va: VaBitmap, count: int, o: Outlook)
    reads va, va.reserver, va.latest, va.segs
  {
    && MemoOk(o.memo, va.reserver.maxReservation)
    && if o.fate == Granted then !va.LatestFull(count) else va.Stuck(count, o.was, o.memo)
  }

  /** What becomes of a request that is made again. */
  ghost function AgainFate(o: Outlook, max: int, kernel: nat -> KernelReply, access: bool): Fate
    requires Chunky(max) && MemoOk(o.memo, max) && KernelsOk(kernel)
  {
    var again := if o.fate == Granted then Granted else GrowFate(o.memo, max, o.was, kernel);
    if again == Granted && !access then Denied else again
  }

  lemma AgainIs(va: VaBitmap, count: int, o: Outlook, first: KernelReply, kernel: nat -> KernelReply, access: bool)
    requires va.Valid() && KernelsOk(kernel) && TurnedAway(va, count, o)
    ensures BigFate(va, count, first, kernel, access) == AgainFate(o, va.reserver.maxReservation, kernel, access)
  {
    if o.fate != Granted {
      va.StuckFate(count, o.was, o.memo, first, kernel);
    }
  }

  /** Reserve pages and make them accessible; when that fails they go back. */
  method ReservePages(va: VaBitmap, size: nat, hs: nat, rand: nat -> nat, first: KernelReply,
                             kernel: nat -> KernelReply, protectOk: bool, mmapOk: bool) returns (r: Outcome)
    requires va.Valid() && 0 < hs && va.Honest(first) && va.HonestAll(kernel)
    modifies va.Repr
    ensures va.Valid() && fresh(va.Repr - old(va.Repr)) && Keeps(old(va.segs), va.segs)
    ensures !r.Address? ==> va.used == old(va.used)
    ensures r.Address? ==> Took(va.segs, old(va.used), va.used, r.addr, size, hs)
    ensures size + hs <= CHUNK_SIZE ==>
      FateOf(r) == old(BigFate(va, BlocksFor(size + hs), first, kernel, protectOk || mmapOk))
    ensures size + hs <= CHUNK_SIZE && r.NoSpace? ==>
      TurnedAway(va, BlocksFor(size + hs), old(Foresight(va, BlocksFor(size + hs), first, kernel)))
  {
    r := TakePages(va, size, hs, rand, first, kernel);
    if r.Address? && !protectOk && !mmapOk {
      var h := r.addr;
      GivePages(va, h, size, hs);
      va.RunThere(va.latest, h, BlocksFor(size + hs));
      r := NoSpace;
    }
  }

  /** What `realloc` aims for: the new class, if there is one, the payload size and the bytes with header. A
      block without a class is a big one. */
  method Plan(newSize: int, hs: nat, lut: seq<int>) returns (class_: Option<int>, size: nat, newTotal: nat)
    requires 0 < newSize && LutOk(lut) && (hs == 16 || hs == 32)
    ensures Aims(newSize, class_, size)
    ensures class_.None? ==> newTotal == AlignTo(newSize + hs, BLOCK_SIZE)
    ensures class_.Some? ==> newTotal == size + hs && newTotal % BLOCK_SIZE != 0
  {
    class_ := MatchSizeClass(newSize, lut);
    if class_.None? {
      size, newTotal := newSize, AlignTo(newSize + hs, BLOCK_SIZE);
    } else {
      OddTotals(class_.value, hs);
      size := SIZE_CLASSES[class_.value];
      newTotal := AlignTo(size + hs, 16);
    }
  }

  /** The class and the payload size of a request. */
  ghost predicate Aims(newSize: int, class_: Option<int>, size: int) {
    && ClassOf(newSize, class_) && newSize <= size && (class_.None? <==> newSize > MAX_SLAB_SIZE)
    && size == if class_.None? then newSize else SIZE_CLASSES[class_.value]
  }

  lemma OddTotals(c: int, hs: nat)
    requires 0 <= c < NUM_SIZE_CLASSES && (hs == 16 || hs == 32)
    ensures |SIZE_CLASSES| == NUM_SIZE_CLASSES && 0 < SIZE_CLASSES[c]
    ensures (SIZE_CLASSES[c] + hs) % 16 == 0 && (SIZE_CLASSES[c] + hs) % BLOCK_SIZE != 0
    ensures AlignTo(SIZE_CLASSES[c] + hs, 16) == SIZE_CLASSES[c] + hs
  {
    TableShape();
  }

  /** Claim the pages behind a block and make them accessible; when that fails they go back. */
  method ClaimTail(va: VaBitmap, h: int, small: nat, large: nat, hs: nat, protectOk: bool) returns (ok: bool)
    requires va.Valid() && 0 < h && h % BLOCK_SIZE == 0 && 0 < hs
    requires BlocksFor(small + hs) < BlocksFor(large + hs) && PlacedIn(va.segs, h, BlocksFor(small + hs))
    modifies va.Repr
    ensures va.Valid() && va.Repr == old(va.Repr) && va.segs == old(va.segs)
    ensures ok <==> protectOk && RoomBehind(va.segs, old(va.used), h, small, large, hs)
    ensures va.used == if ok then old(va.used) + TailPages(h, small, large, hs) else old(va.used)
  {
    var r := TakeTail(va, h, small, large, hs);
    if r.None? {
      return false;
    }
    if !protectOk {
      var oldTotal := AlignTo(small + hs, BLOCK_SIZE);
      GiveTail(va, h, small, large, hs, h + oldTotal, r.value - oldTotal);
      TailResizes(old(va.used), h, small, large, hs);
      return false;
    }
    ok := true;
  }

  // ------------------------------------------------------------------ the heap

  class BigHeap {
    const va: VaBitmap
    const table: BigAllocMap
    const headerSize: nat

    ghost predicate Apart()
      reads this, va, table
    {
      && this !in va.Repr && table !in va.Repr && table.table !in va.Repr
      && va in va.Repr && (headerSize == 16 || headerSize == 32)
    }

    ghost predicate Valid()
      reads this, va, va.Repr, table, table.table
    {
      Apart() && va.Valid() && table.Valid()
    }

    /** The ledger when slabs hold the pages `slab`, as long as everything is in order. */
    ghost function State(slab: set<int>): Option<Ledger>
      reads this, va, va.Repr, table, table.table
    {
      if Valid() then Some(Ledger(va.segs, table.contents, va.used, slab)) else None
    }

    /** Whatever the heap works on that it did not work on before is new. */
    twostate predicate Extended()
      reads this, va, table
    {
      fresh(va.Repr - old(va.Repr)) && (table.table == old(table.table) || fresh(table.table))
    }

    constructor (maxReservation: int, ghost space: iset<int>, hash: Hash, header: nat)
      requires Chunky(maxReservation) && (header == 16 || header == 32)
      ensures headerSize == header && State({}) == Some(NO_BLOCKS)
      ensures va.arena == space && va.reserver.maxReservation == maxReservation
      ensures fresh(va.Repr) && fresh(table) && fresh(table.table)
    {
      va := new VaBitmap(maxReservation, space);
      table := new BigAllocMap(hash);
      headerSize := header;
    }

    /** A new block on pages that were free, remembered with its size; or nothing. Up to 4 GiB: when the process
        dies and when the request is refused, exactly. */
    method BigMalloc(size: nat, rand: nat -> nat, first: KernelReply, kernel: nat -> KernelReply,
                     protectOk: bool, mmapOk: bool, ghost slab: set<int>) returns (r: Outcome)
      requires State(slab).Some? && va.Honest(first) && va.HonestAll(kernel)
      modifies va.Repr, table, table.table
      ensures State(slab).Some? && Extended()
      ensures r.Address? ==> headerSize < r.addr
      ensures size + headerSize <= CHUNK_SIZE ==>
        FateOf(r) == old(BigFate(va, BlocksFor(size + headerSize), first, kernel, protectOk || mmapOk))
      ensures size + headerSize <= CHUNK_SIZE && r.NoSpace? ==>
        TurnedAway(va, BlocksFor(size + headerSize), old(Foresight(va, BlocksFor(size + headerSize), first, kernel)))
      ensures Step(old(State(slab)).value, if r.Address? then NewBlock(r.addr - headerSize, size) else Nothing,
                   State(slab).value, headerSize)
    {
      r := ReservePages(va, size, headerSize, rand, first, kernel, protectOk, mmapOk);
      if r.Address? {
        table.Insert(r.addr, Meta(size, BIG_CLASS, 0, 0));
        r := Address(r.addr + headerSize);
      }
    }

    /** Freeing looks the size up and returns exactly the pages the block holds. A header that is not in
        the table aborts the process. */
    method BigFree(h: nat, ghost slab: set<int>) returns (aborted: bool)
      requires State(slab).Some? && SoundAt(State(slab).value, h, headerSize)
      modifies va.Repr, table, table.table
      ensures State(slab).Some? && Extended()
      ensures aborted <==> h !in old(table.contents)
      ensures Step(old(State(slab)).value, DropBlock(h), State(slab).value, headerSize)
    {
      var meta := Drop(h, slab);
      if meta.None? {
        return true;
      }
      GiveBack(h, meta.value.size, slab);
      DropMade(old(State(slab)).value, h, headerSize);
      aborted := false;
    }

    /** Take a block out of the table. */
    method Drop(h: nat, ghost slab: set<int>) returns (meta: Option<Meta>)
      requires State(slab).Some?
      modifies table, table.table
      ensures var l := old(State(slab)).value; State(slab) == Some(l.(table := l.table - {h}))
      ensures meta == if h in old(table.contents) then Some(old(table.contents)[h]) else None
      ensures Extended()
    {
      meta := table.Remove(h);
    }

    /** Give back the pages of a block. */
    method GiveBack(h: nat, size: nat, ghost slab: set<int>)
      requires State(slab).Some? && 0 < h && h % BLOCK_SIZE == 0 && PlacedIn(va.segs, h, BlocksFor(size + headerSize))
      modifies va.Repr
      ensures var l := old(State(slab)).value; State(slab) == Some(l.(used := l.used - PagesOf(h, size, headerSize)))
      ensures va.Repr == old(va.Repr) && table.table == old(table.table)
    {
      GivePages(va, h, size, headerSize);
    }

    // ---------------------------------------------------------------- realloc in place

    /** Enter the new size, or take the block out of the table when it becomes a slab block. */
    method Register(h: nat, size: nat, big: bool, ghost slab: set<int>)
      requires State(slab).Some?
      modifies table, table.table
      ensures State(slab).Some? && Extended() && table.contents == Registered(old(table.contents), h, size, big)
    {
      if big {
        table.Insert(h, Meta(size, BIG_CLASS, 0, 0));
      } else {
        var meta := table.Remove(h);
      }
    }

    /** The same pages: only the remembered size changes. */
    method EqualInPlace(h: nat, size: nat, ghost slab: set<int>)
      requires State(slab).Some? && SoundAt(State(slab).value, h, headerSize) && h in table.contents
      requires BlocksFor(table.contents[h].size + headerSize) == BlocksFor(size + headerSize)
      modifies table, table.table
      ensures State(slab).Some? && Step(old(State(slab)).value, Resize(h, size, true), State(slab).value, headerSize)
      ensures Extended()
    {
      Register(h, size, true, slab);
      EqualMade(old(State(slab)).value, State(slab).value, h, size, headerSize);
    }

    method ExtendPages(h: nat, oldSize: nat, size: nat, protectOk: bool, ghost slab: set<int>) returns (ok: bool)
      requires State(slab).Some? && 0 < h && h % BLOCK_SIZE == 0
      requires BlocksFor(oldSize + headerSize) < BlocksFor(size + headerSize)
      requires PlacedIn(va.segs, h, BlocksFor(oldSize + headerSize))
      modifies va.Repr
      ensures State(slab).Some? && va.segs == old(va.segs) && va.Repr == old(va.Repr)
      ensures ok <==> protectOk && RoomBehind(va.segs, old(va.used), h, oldSize, size, headerSize)
      ensures va.used == if ok then old(va.used) + TailPages(h, oldSize, size, headerSize) else old(va.used)
    {
      ok := ClaimTail(va, h, oldSize, size, headerSize, protectOk);
    }

    method CutPages(ghost h: nat, ghost oldSize: nat, ghost size: nat, start: nat, len: nat, ghost slab: set<int>)
      requires State(slab).Some? && 0 < h && h % BLOCK_SIZE == 0 && TailAt(h, start, len, size, oldSize, headerSize)
      requires BlocksFor(size + headerSize) < BlocksFor(oldSize + headerSize)
      requires PlacedIn(va.segs, h, BlocksFor(oldSize + headerSize))
      modifies va.Repr
      ensures State(slab).Some? && va.segs == old(va.segs) && va.Repr == old(va.Repr)
      ensures va.used == old(va.used) - TailPages(h, size, oldSize, headerSize)
    {
      GiveTail(va, h, size, oldSize, headerSize, start, len);
    }

    /** The new pages are there: remember the larger size. */
    method FinishGrow(h: nat, ghost oldSize: nat, size: nat, big: bool, ghost l: Ledger, ghost slab: set<int>)
      requires State(slab).Some? && SoundAt(l, h, headerSize) && h in l.table && oldSize == l.table[h].size
      requires BlocksFor(oldSize + headerSize) < BlocksFor(size + headerSize)
      requires RoomBehind(l.segs, l.used, h, oldSize, size, headerSize)
      requires State(slab).value == l.(used := l.used + TailPages(h, oldSize, size, headerSize))
      modifies table, table.table
      ensures State(slab).Some? && Extended()
      ensures Step(l, Resize(h, size, big), State(SlabAfter(slab, Resize(h, size, big), headerSize)).value, headerSize)
    {
      Register(h, size, big, slab);
      GrowMade(l, State(SlabAfter(slab, Resize(h, size, big), headerSize)).value, h, oldSize, size, big, headerSize);
    }

    /** More pages: the pages behind the block are claimed and the larger size is remembered; or nothing
        has changed. */
    method GrowInPlace(h: nat, oldSize: nat, size: nat, big: bool, protectOk: bool, ghost slab: set<int>)
      returns (ok: bool)
      requires State(slab).Some? && SoundAt(State(slab).value, h, headerSize) && h in table.contents
      requires oldSize == table.contents[h].size
      requires BlocksFor(oldSize + headerSize) < BlocksFor(size + headerSize)
      modifies va.Repr, table, table.table
      ensures State(slab).Some? && Extended()
      ensures ok <==> protectOk && RoomBehind(old(va.segs), old(va.used), h, oldSize, size, headerSize)
      ensures ok ==> Step(old(State(slab)).value, Resize(h, size, big),
                          State(SlabAfter(slab, Resize(h, size, big), headerSize)).value, headerSize)
      ensures !ok ==> State(slab) == old(State(slab))
    {
      ok := ExtendPages(h, oldSize, size, protectOk, slab);
      if ok {
        FinishGrow(h, oldSize, size, big, old(State(slab)).value, slab);
      }
    }

    /** Fewer pages: the tail goes back and the smaller size is remembered. */
    method ShrinkInPlace(h: nat, ghost oldSize: nat, size: nat, start: nat, len: nat, ghost slab: set<int>)
      requires State(slab).Some? && SoundAt(State(slab).value, h, headerSize) && h in table.contents
      requires oldSize == table.contents[h].size
      requires BlocksFor(size + headerSize) < BlocksFor(oldSize + headerSize)
      requires TailAt(h, start, len, size, oldSize, headerSize)
      modifies va.Repr, table, table.table
      ensures State(slab).Some? && Step(old(State(slab)).value, Resize(h, size, true), State(slab).value, headerSize)
      ensures Extended()
    {
      CutPages(h, oldSize, size, start, len, slab);
      FinishShrink(h, oldSize, size, old(State(slab)).value, slab);
    }

    /** The tail is gone: remember the smaller size. */
    method FinishShrink(h: nat, ghost oldSize: nat, size: nat, ghost l: Ledger, ghost slab: set<int>)
      requires State(slab).Some? && SoundAt(l, h, headerSize) && h in l.table && oldSize == l.table[h].size
      requires BlocksFor(size + headerSize) < BlocksFor(oldSize + headerSize)
      requires State(slab).value == l.(used := l.used - TailPages(h, size, oldSize, headerSize))
      modifies table, table.table
      ensures State(slab).Some? && Step(l, Resize(h, size, true), State(slab).value, headerSize) && Extended()
    {
      Register(h, size, true, slab);
      ShrinkMade(l, State(slab).value, h, oldSize, size, headerSize);
    }

    /** Look the block up and decide which way to go. */
    method Consult(h: nat, newSize: int, lut: seq<int>, madviseOk: bool, ghost slab: set<int>)
      returns (oldSize: nat, d: Decision, class_: Option<int>, size: nat)
      requires State(slab).Some? && h in table.contents && 0 < newSize && LutOk(lut)
      ensures State(slab) == old(State(slab)) && oldSize == table.contents[h].size
      ensures Aims(newSize, class_, size) && Decides(d, h, class_, oldSize, size, headerSize, madviseOk)
    {
      var meta := table.Get(h);
      oldSize := meta.value.size;
      d, class_, size := Decide(h, oldSize, newSize, headerSize, lut, madviseOk);
    }

    /** Resize a big block where it stands. `inPlace` says that the block was kept; otherwise the caller has
        to move it, and nothing has changed. `turned` says that it has become a slab block of class `class_`. */
    method ReallocBig(h: nat, newSize: int, lut: seq<int>, madviseOk: bool, protectOk: bool, ghost slab: set<int>)
      returns (inPlace: bool, class_: Option<int>, turned: bool, ghost action: Action)
      requires State(slab).Some? && SoundAt(State(slab).value, h, headerSize) && h in table.contents
      requires 0 < newSize && LutOk(lut)
      modifies va.Repr, table, table.table
      ensures State(slab).Some? && Extended()
      ensures Step(old(State(slab)).value, action, State(SlabAfter(slab, action, headerSize)).value, headerSize)
      ensures ClassOf(newSize, class_) && newSize <= SizeFor(newSize, class_)
      ensures inPlace <==> StaysInPlace(old(State(slab)).value, h, SizeFor(newSize, class_), headerSize, protectOk)
      ensures action == ReallocAction(old(State(slab)).value, h, SizeFor(newSize, class_), class_.None?, headerSize,
                                      madviseOk, protectOk)
      ensures turned <==> action == Resize(h, SizeFor(newSize, class_), false)
    {
      var oldSize, d, size;
      oldSize, d, class_, size := Consult(h, newSize, lut, madviseOk, slab);
      inPlace, action := Carry(d, h, oldSize, size, class_, madviseOk, protectOk, slab);
      turned := d.Grow? && inPlace && class_.Some?;
    }

    /** Carry out the decision. */
    method Carry(d: Decision, h: nat, oldSize: nat, size: nat, class_: Option<int>, ghost madviseOk: bool,
                 protectOk: bool, ghost slab: set<int>)
      returns (inPlace: bool, ghost action: Action)
      requires State(slab).Some? && SoundAt(State(slab).value, h, headerSize) && h in table.contents
      requires oldSize == table.contents[h].size && Decides(d, h, class_, oldSize, size, headerSize, madviseOk)
      modifies va.Repr, table, table.table
      ensures State(slab).Some? && Extended()
      ensures Step(old(State(slab)).value, action, State(SlabAfter(slab, action, headerSize)).value, headerSize)
      ensures inPlace <==> StaysInPlace(old(State(slab)).value, h, size, headerSize, protectOk)
      ensures action == ReallocAction(old(State(slab)).value, h, size, class_.None?, headerSize, madviseOk, protectOk)
    {
      DecisionIs(State(slab).value, h, d, class_, size, headerSize, madviseOk, protectOk);
      action, inPlace := Nothing, true;
      match d {
        case Equal =>
          EqualInPlace(h, size, slab);
          action := Resize(h, size, true);
        case Shrink(start, len) =>
          ShrinkInPlace(h, oldSize, size, start, len, slab);
          action := Resize(h, size, true);
        case Keep =>
        case Grow =>
          inPlace := GrowInPlace(h, oldSize, size, class_.None?, protectOk, slab);
          action := if inPlace then Resize(h, size, class_.None?) else Nothing;
      }
    }
  }

  /** Which way `realloc` goes; a block that shrinks gives back `len` bytes from `start` on. */
  datatype Decision = Equal | Shrink(start: nat, len: nat) | Keep | Grow

  /** Which way `realloc` goes. Only blocks that stay big are shrunk or re-registered as they are. */
  ghost predicate Decides(d: Decision, h: nat, class_: Option<int>, oldSize: nat, size: nat, hs: nat, madviseOk: bool) {
    var o, n := BlocksFor(oldSize + hs), BlocksFor(size + hs);
    if o < n then d == Grow else if class_.Some? then d == Keep else if n == o then d == Equal
    else if madviseOk then d.Shrink? && TailAt(h, d.start, d.len, size, oldSize, hs) else d == Keep
  }

  /** The bytes behind the last page of a block of `size` bytes, up to that of one of `oldSize` bytes. */
  ghost predicate TailAt(h: nat, start: nat, len: nat, size: nat, oldSize: nat, hs: nat) {
    && (h % BLOCK_SIZE == 0 ==> start == h + AlignTo(size + hs, BLOCK_SIZE))
    && AlignTo(size + hs, BLOCK_SIZE) + len == AlignTo(oldSize + hs, BLOCK_SIZE)
  }

  /** Behind whole pages there is no need to round up. */
  lemma TailStart(h: nat, bytes: nat)
    ensures h % BLOCK_SIZE == 0 ==>
      AlignTo(h + AlignTo(bytes, BLOCK_SIZE), BLOCK_SIZE) == h + AlignTo(bytes, BLOCK_SIZE)
  {
    AlignPages(bytes);
  }

  /** It is found by comparing the byte totals of the old and the new block. */
  method Decide(h: nat, oldSize: nat, newSize: int, hs: nat, lut: seq<int>, madviseOk: bool)
    returns (d: Decision, class_: Option<int>, size: nat)
    requires 0 < newSize && LutOk(lut) && (hs == 16 || hs == 32)
    ensures Aims(newSize, class_, size) && Decides(d, h, class_, oldSize, size, hs, madviseOk)
  {
    var newTotal;
    class_, size, newTotal := Plan(newSize, hs, lut);
    var oldTotal := AlignTo(oldSize + hs, BLOCK_SIZE);
    Totals(oldSize, size, newTotal, class_.None?, hs);
    if newTotal == oldTotal {
      return Equal, class_, size;
    }
    if newTotal < oldTotal {
      var freedStart, freedLen := AlignTo(h + newTotal, BLOCK_SIZE), oldTotal - newTotal;
      if class_.None? {
        TailStart(h, size + hs);
      }
      if freedStart % BLOCK_SIZE == 0 && freedLen % BLOCK_SIZE == 0 && madviseOk {
        return Shrink(freedStart, freedLen), class_, size;
      }
      return Keep, class_, size;
    }
    d := Grow;
  }

  /** The payload size `realloc` aims for. */
  ghost function SizeFor(newSize: nat, class_: Option<int>): nat
    requires ClassOf(newSize, class_)
  {
    if class_.None? then newSize else TableShape(); SIZE_CLASSES[class_.value]
  }

  lemma RequestFits(newSize: nat, class_: Option<int>)
    requires ClassOf(newSize, class_)
    ensures newSize <= SizeFor(newSize, class_)
  {
    TableShape();
  }

  /** The big block at `h` can hold `size` bytes where it is: its pages suffice, or the pages behind it are
      free and can be made accessible. */
  ghost predicate StaysInPlace(l: Ledger, h: nat, size: nat, hs: int, protectOk: bool)
    requires h in l.table
  {
    || BlocksFor(size + hs) <= BlocksFor(l.table[h].size + hs)
    || (protectOk && RoomBehind(l.segs, l.used, h, l.table[h].size, size, hs))
  }

  /** What `realloc` does with the big block at `h`. Requests above the largest slab size keep the block
      big and remember the new size exactly; smaller requests leave everything as it is if they fit in the
      pages of the block and otherwise turn it into a slab block. */
  ghost function ReallocAction(l: Ledger, h: nat, size: nat, big: bool, hs: int, madviseOk: bool,
                               protectOk: bool): Action
    requires h in l.table
  {
    var o, n := BlocksFor(l.table[h].size + hs), BlocksFor(size + hs);
    if o < n then if StaysInPlace(l, h, size, hs, protectOk) then Resize(h, size, big) else Nothing
    else if big && (n == o || madviseOk) then Resize(h, size, true)
    else Nothing
  }

  lemma DecisionIs(l: Ledger, h: nat, d: Decision, class_: Option<int>, size: nat, hs: nat, madviseOk: bool,
                   protectOk: bool)
    requires h in l.table && Decides(d, h, class_, l.table[h].size, size, hs, madviseOk)
    ensures !d.Grow? ==> StaysInPlace(l, h, size, hs, protectOk)
    ensures d.Grow? ==>
      (StaysInPlace(l, h, size, hs, protectOk) <==>
         protectOk && RoomBehind(l.segs, l.used, h, l.table[h].size, size, hs))
    ensures ReallocAction(l, h, size, class_.None?, hs, madviseOk, protectOk) ==
      match d
      case Equal => Resize(h, size, true)
      case Shrink(_, _) => Resize(h, size, true)
      case Keep => Nothing
      case Grow => if StaysInPlace(l, h, size, hs, protectOk) then Resize(h, size, class_.None?) else Nothing
  {
  }

  /** A big block of `oldSize` bytes leaves the table when it has to grow for a request that has a class. */
  ghost predicate TurnsSlab(oldSize: nat, newSize: nat, hs: nat) {
    exists c :: SmallestFit(newSize, c) && BlocksFor(oldSize + hs) < BlocksFor(SIZE_CLASSES[c] + hs)
  }

  /** The blocks that `malloc` makes big are those of more than 2 MiB, and those of no bytes at all. Of these,
      only the latter can turn into slab blocks, and they do so for requests of more than 3840 bytes. */
  lemma TurnsSlabIff(oldSize: nat, newSize: nat, hs: nat)
    requires (oldSize == 0 || oldSize > MAX_SLAB_SIZE) && 0 < newSize && (hs == 16 || hs == 32)
    ensures TurnsSlab(oldSize, newSize, hs) <==> oldSize == 0 && 3840 < newSize <= MAX_SLAB_SIZE
  {
    TableShape();
    if newSize <= MAX_SLAB_SIZE {
      var c := FitFrom(newSize, 0);
      forall d | SmallestFit(newSize, d)
        ensures d == c
      {
        ClassUnique(newSize, Some(c), Some(d));
      }
      FitAbove(newSize, c);
      PagesGrow(oldSize, SIZE_CLASSES[c], hs);
    }
  }

  lemma FitAbove(newSize: nat, c: int)
    requires SmallestFit(newSize, c)
    ensures SIZE_CLASSES[c] > 3840 <==> newSize > 3840
    ensures SIZE_CLASSES[c] <= 3840 || 4096 <= SIZE_CLASSES[c] <= MAX_SLAB_SIZE
  {
    TableShape();
    assert SIZE_CLASSES[21] == 3840 && SIZE_CLASSES[22] == 4096;
  }

  lemma PagesGrow(oldSize: nat, size: nat, hs: nat)
    requires (oldSize == 0 || oldSize > MAX_SLAB_SIZE) && (hs == 16 || hs == 32)
    requires size <= 3840 || 4096 <= size <= MAX_SLAB_SIZE
    ensures BlocksFor(oldSize + hs) < BlocksFor(size + hs) <==> oldSize == 0 && 3840 < size
  {
  }

  /** How the byte totals compare, in pages. */
  lemma Totals(oldSize: nat, size: nat, newTotal: nat, big: bool, hs: nat)
    requires big ==> newTotal == AlignTo(size + hs, BLOCK_SIZE)
    requires !big ==> newTotal == size + hs && newTotal % BLOCK_SIZE != 0
    ensures var oldTotal, o, n := AlignTo(oldSize + hs, BLOCK_SIZE), BlocksFor(oldSize + hs), BlocksFor(size + hs);
      && (newTotal == oldTotal <==> big && n == o)
      && (newTotal < oldTotal <==> if big then n < o else n <= o)
      && (newTotal < oldTotal ==> ((oldTotal - newTotal) % BLOCK_SIZE == 0 <==> big))
  {
    AlignPages(oldSize + hs);
    if big {
      AlignPages(size + hs);
    }
  }

  lemma GrowMade(l: Ledger, l': Ledger, h: nat, oldSize: nat, size: nat, big: bool, hs: int)
    requires SoundAt(l, h, hs) && 0 < hs && h in l.table && oldSize == l.table[h].size
    requires BlocksFor(oldSize + hs) < BlocksFor(size + hs)
    requires RoomBehind(l.segs, l.used, h, oldSize, size, hs) && l'.segs == l.segs
    requires l'.table == Registered(l.table, h, size, big)
    requires l'.used == l.used + TailPages(h, oldSize, size, hs)
    requires l'.slab == if big then l.slab else l.slab + PagesOf(h, size, hs)
    ensures Step(l, Resize(h, size, big), l', hs)
  {
    TailResizes(l.used, h, l.table[h].size, size, hs);
  }

  lemma DropMade(l: Ledger, h: nat, hs: int)
    requires h in l.table
    ensures Step(l, DropBlock(h), l.(table := l.table - {h}, used := l.used - PagesOf(h, l.table[h].size, hs)), hs)
  {
  }

  lemma EqualMade(l: Ledger, l': Ledger, h: nat, size: nat, hs: int)
    requires SoundAt(l, h, hs) && 0 < hs && h in l.table && BlocksFor(l.table[h].size + hs) == BlocksFor(size + hs)
    requires l' == l.(table := Registered(l.table, h, size, true))
    ensures Step(l, Resize(h, size, true), l', hs)
  {
    assert PagesOf(h, size, hs) == PagesOf(h, l.table[h].size, hs) <= l.used;
  }

  lemma ShrinkMade(l: Ledger, l': Ledger, h: nat, oldSize: nat, size: nat, hs: int)
    requires SoundAt(l, h, hs) && 0 < hs && h in l.table && oldSize == l.table[h].size
    requires BlocksFor(size + hs) < BlocksFor(oldSize + hs)
    requires l'.table == Registered(l.table, h, size, true) && l'.segs == l.segs && l'.slab == l.slab
    requires l'.used == l.used - TailPages(h, size, oldSize, hs)
    ensures Step(l, Resize(h, size, true), l', hs)
  {
    TailResizes(l.used, h, size, l.table[h].size, hs);
    TailSplits(h, size, l.table[h].size, hs);
    Shorter(l.segs, h, BlocksFor(l.table[h].size + hs), BlocksFor(size + hs));
  }
}
