/** The code of the allocator as a whole. Every operation of a thread, on slab blocks or on big blocks, extends the
    run of the whole system, so that what is proved of all runs holds after every operation. The run is passed from
    one operation to the next as `past`, for the proofs only. */
module Allocators {
  import opened Wrappers
  import opened Words
  import opened Segments
  import opened Radixes
  import opened Reservations
  import opened VaBitmaps
  import opened BigAllocMaps
  import opened Links
  import opened SizeClasses
  import opened Carving
  import opened SlabLife
  import opened SlabPages
  import opened ThreadLocal
  import opened InterConnect
  import opened SlabThreads
  import opened WholeHeap
  import BigHeaps
  import GTrims

  // ------------------------------------------------------------------ runs of threads are runs of the whole

  /** Slabs stay where they are over every run of a thread. */
  lemma {:induction false} RunKeepsSpots(l: Life, steps: seq<Step>, l': Life, y: Layout)
    requires LayoutOk(y) && Runs(l, steps, l', y)
    ensures SpotsKept(l.slabs, l'.slabs)
    decreases |steps|
  {
    if steps != [] {
      StepKeepsSlabs(l, steps[0], y);
      RunKeepsSpots(Apply(l, steps[0], y), steps[1..], l', y);
    }
  }

  /** Without a new slab, a run of a thread only moves blocks and carves. */
  lemma {:induction false} SmallRuns(r: Run, w: Whole, steps: seq<Step>, l': Life, z: Build) returns (r': Run)
    requires BuildOk(z) && Reaches(r, w, z) && Runs(w.life, steps, l', z.y) && |l'.slabs| == |w.life.slabs|
    ensures Reaches(r', w.(life := l'), z)
    decreases |steps|
  {
    r' := r;
    if steps != [] {
      var m := Apply(w.life, steps[0], z.y);
      RunKeepsSpots(m, steps[1..], l', z.y);
      MoveExtends(r, w, Small(steps[0]), w.(life := m), z);
      r' := SmallRuns(Extended(r, Small(steps[0]), w.(life := m)), w.(life := m), steps[1..], l', z);
    }
  }

  /** The pages of the slabs that are new in `slabs'`, at most one. */
  ghost function NewPagesOf(slabs: seq<Slab>, slabs': seq<Slab>, y: Layout): set<int> {
    if |slabs'| == |slabs| + 1 then PagesOfSlab(slabs'[|slabs|], y) else {}
  }

  /** The books after a thread made at most one slab. */
  ghost predicate BooksAfter(b: BigHeaps.Ledger, b': BigHeaps.Ledger, slabs: seq<Slab>, slabs': seq<Slab>, y: Layout) {
    match b'
    case Ledger(segs, table, used, slab) =>
      && Keeps(b.segs, segs) && table == b.table && Lends(slabs, slabs', b.used, used, y)
      && slab == b.slab + NewPagesOf(slabs, slabs', y)
  }

  lemma QuietRuns(r: Run, w: Whole, steps: seq<Step>, l': Life, b': BigHeaps.Ledger, z: Build) returns (r': Run)
    requires BuildOk(z) && Reaches(r, w, z) && Runs(w.life, steps, l', z.y) && |l'.slabs| == |w.life.slabs|
    requires BooksAfter(w.books, b', w.life.slabs, l'.slabs, z.y)
    ensures Reaches(r', Whole(b', l'), z)
  {
    var m := w.(life := l');
    r' := SmallRuns(r, w, steps, l', z);
    MoveExtends(r', m, Big(BigHeaps.Nothing), Whole(b', l'), z);
    r' := Extended(r', Big(BigHeaps.Nothing), Whole(b', l'));
  }

  /** A step that makes the slab that is there in the end. */
  lemma MapHappens(w: Whole, step: Step, l': Life, b': BigHeaps.Ledger, z: Build)
    requires BuildOk(z) && Enabled(w.life, step, z.y) && |Apply(w.life, step, z.y).slabs| == |w.life.slabs| + 1
    requires SpotsKept(Apply(w.life, step, z.y).slabs, l'.slabs) && |l'.slabs| == |w.life.slabs| + 1
    requires BooksAfter(w.books, b', w.life.slabs, l'.slabs, z.y)
    ensures step.Map? && Happens(w, NewPages(step.t, step.c, step.start), Whole(b', Apply(w.life, step, z.y)), z)
  {
    var m := Apply(w.life, step, z.y);
    var n := |w.life.slabs|;
    assert SameSpot(m.slabs[n], l'.slabs[n]);
    assert step.Map?;
    assert m.slabs[n] == NewSlab(step.start, step.c, step.t);
    assert EndOf(m.slabs[n], z.y) == EndOf(l'.slabs[n], z.y);
  }

  /** With a new slab, a run of a thread is one in which pages are taken for it. */
  lemma {:induction false} TripRuns(r: Run, w: Whole, steps: seq<Step>, l': Life, b': BigHeaps.Ledger, z: Build)
    returns (r': Run)
    requires BuildOk(z) && Reaches(r, w, z) && Runs(w.life, steps, l', z.y) && |l'.slabs| == |w.life.slabs| + 1
    requires BooksAfter(w.books, b', w.life.slabs, l'.slabs, z.y)
    ensures Reaches(r', Whole(b', l'), z)
    decreases |steps|
  {
    assert steps != [];
    var step, m := steps[0], Apply(w.life, steps[0], z.y);
    RunKeepsSpots(m, steps[1..], l', z.y);
    if |m.slabs| == |w.life.slabs| {
      MoveExtends(r, w, Small(step), w.(life := m), z);
      r' := TripRuns(Extended(r, Small(step), w.(life := m)), w.(life := m), steps[1..], l', b', z);
    } else {
      MapHappens(w, step, l', b', z);
      var v := Whole(b', m);
      MoveExtends(r, w, NewPages(step.t, step.c, step.start), v, z);
      r' := SmallRuns(Extended(r, NewPages(step.t, step.c, step.start), v), v, steps[1..], l', z);
    }
  }

  /** Whatever a thread does is a run of the whole. */
  lemma ThreadRuns(r: Run, w: Whole, u: Setup, h: Heap, steps: seq<Step>, l': Life, h': Heap, b': BigHeaps.Ledger,
                   z: Build)
    returns (r': Run)
    requires BuildOk(z) && Reaches(r, w, z) && u.y == z.y && Acts(u, w.life, h, steps, l', h')
    requires BooksAfter(w.books, b', w.life.slabs, l'.slabs, z.y)
    ensures Reaches(r', Whole(b', l'), z)
  {
    if |l'.slabs| == |w.life.slabs| {
      r' := QuietRuns(r, w, steps, l', b', z);
    } else {
      r' := TripRuns(r, w, steps, l', b', z);
    }
  }

  lemma SameBooks(b: BigHeaps.Ledger, slabs: seq<Slab>, slabs': seq<Slab>, y: Layout)
    requires |slabs'| == |slabs|
    ensures BooksAfter(b, b, slabs, slabs', y)
  {
  }

  /** Where pages were free there was no big block. */
  lemma NewIsNew(r: Run, w: Whole, a: BigHeaps.Action, b': BigHeaps.Ledger, z: Build)
    requires BuildOk(z) && Reaches(r, w, z) && BigHeaps.Step(w.books, a, b', z.hs)
    ensures a.NewBlock? ==> a.h !in w.books.table
  {
    if a.NewBlock? && a.h in w.books.table {
      RunKeepsWhole(r, |r.moves|, z);
      BigHeaps.BooksSound(w.books, a.h, z.hs);
      ByteOfBig(a.h, a.size, z.hs, a.h);
      ByteOfBig(a.h, w.books.table[a.h].size, z.hs, a.h);
    }
  }

  /** A block that went out to a user was not out before. */
  lemma OutIsNew(r: Run, w: Whole, out: seq<nat>, b: nat, z: Build)
    requires BuildOk(z) && Reaches(r, w, z) && At(w.life.at, Out) == [b] + out
    ensures b !in out
  {
    RunKeepsWhole(r, |r.moves|, z);
    assert Distinct(At(w.life.at, Out));
    assert forall i :: 0 <= i < |out| ==> out[i] == At(w.life.at, Out)[i + 1] != At(w.life.at, Out)[0];
  }

  /** What a resized block is good for. If it stays big there is room for the request; whether the request is
      remembered depends on what the block was made for. If it cannot stay nothing happens to it. */
  lemma ResizeFits(r: Run, w: Whole, h: nat, newSize: nat, class_: Option<int>, madviseOk: bool, protectOk: bool,
                   b': BigHeaps.Ledger, z: Build)
    requires BuildOk(z) && Reaches(r, w, z) && h in w.books.table && 0 < newSize && ClassOf(newSize, class_)
    requires
      var size := BigHeaps.SizeFor(newSize, class_);
      var a := BigHeaps.ReallocAction(w.books, h, size, class_.None?, z.hs, madviseOk, protectOk);
      BigHeaps.Step(w.books, a, b', z.hs)
    ensures
      var size := BigHeaps.SizeFor(newSize, class_);
      var a := BigHeaps.ReallocAction(w.books, h, size, class_.None?, z.hs, madviseOk, protectOk);
      && (!BigHeaps.StaysInPlace(w.books, h, size, z.hs, protectOk) ==> a == BigHeaps.Nothing)
      && (a == BigHeaps.Resize(h, size, false) ==> w.books.table[h].size == 0 && 3840 < newSize <= size)
      && (a != BigHeaps.Resize(h, size, false) && BigHeaps.StaysInPlace(w.books, h, size, z.hs, protectOk) ==>
            && h in b'.table && h + z.hs + newSize <= EndOfBig(h, b'.table[h].size, z.hs)
            && (newSize <= b'.table[h].size <==> !(w.books.table[h].size == 0 && newSize <= 3840)))
  {
    RunKeepsWhole(r, |r.moves|, z);
    ReallocIs(w.books, h, newSize, class_, madviseOk, protectOk, z);
    BigHeaps.RequestFits(newSize, class_);
    if BigHeaps.StaysInPlace(w.books, h, BigHeaps.SizeFor(newSize, class_), z.hs, protectOk) {
      InPlaceFits(w.books, h, newSize, class_, madviseOk, protectOk, z.hs);
      RememberedIff(w.books, h, newSize, class_, madviseOk, protectOk, z.hs);
    }
  }

  /** The only block of a slab of one block. */
  lemma LoneIs(h: nat, c: Class, t: nat, slabs: seq<Slab>, z: Build)
    requires BuildOk(z) && Capacity(c, z.y) == 1
    ensures HasClass(slabs + [LoneBlock(h, c, t)], h, c, z.y)
    ensures forall code, code' :: Readable(code, h) && Readable(code', h) ==>
              KeysApart(LoneBlock(h, c, t), z.y, code, code')
  {
    assert CarvedAt(slabs + [LoneBlock(h, c, t)], |slabs|, 0, h, c, z.y);
  }

  // ------------------------------------------------------------------ threads beside the books

  /** A thread frees a block. */
  method Release(ghost big: BigHeaps.BigHeap, t: SlabThread, b: nat, c: Class, cpu: nat, ghost l: Life)
    returns (ghost l': Life, ghost steps: seq<Step>)
    requires t.AtRest(l) && t.Beside(big.va) && cpu < t.icc.ncpu
    requires b in At(l.at, Out) && HasClass(l.slabs, b, c, t.y)
    modifies t.tls, t.icc, t.mem
    ensures unchanged(big, big.va, big.va.Repr, big.table, big.table.table)
    ensures t.AtRest(l') && |l'.slabs| == |l.slabs| && Acts(t.Config(), l, old(t.Now()), steps, l', t.Now())
    ensures Carried(l, l', Out, Without(At(l.at, Out), [b]),
                    if |At(l.at, Bin(t.id, c))| >= Limit(c, t.y) then Shard(cpu, c) else Bin(t.id, c), [b])
  {
    l', steps := t.Free(b, c, cpu, l);
  }

  /** A thread trims the shards. */
  method TrimShards(ghost big: BigHeaps.BigHeap, t: SlabThread, cpu: nat, hs: nat, aged: set<nat>, pad: nat,
                    force: bool, ghost l: Life)
    returns (reached: bool, freed: nat, pages: seq<(nat, nat)>, ghost l': Life, ghost steps: seq<Step>)
    requires t.AtRest(l) && t.Beside(big.va) && cpu < t.icc.ncpu
    modifies t.icc, t.mem
    ensures unchanged(big, big.va, big.va.Repr, big.table, big.table.table)
    ensures t.AtRest(l') && |l'.slabs| == |l.slabs| && Acts(t.Config(), l, old(t.Now()), steps, l', t.Now())
    ensures GTrims.Shuffled(l, l', t.id, t.icc.ncpu, PAGE_CLASS, NUM_SIZE_CLASSES)
    ensures GTrims.AllKept(l.at, l'.at, t.icc.ncpu) && (reached <==> freed >= pad)
    ensures GTrims.Amounts(l.at, cpu, t.icc.ncpu, aged, freed, pad, force)
    ensures pages == GTrims.Returned(l.at, cpu, t.icc.ncpu, aged, pad, force, hs)
    ensures forall r :: r in pages ==> GTrims.FreePages(l.at, t.icc.ncpu, hs, r)
  {
    ghost var last;
    reached, freed, pages, last, l', steps := GTrims.Trim(t, cpu, hs, aged, pad, force, l);
  }

  /** Pages that trimming returns to the system have no byte of a block that a user has, whatever was done before. */
  lemma ReturnedUnused(past: Run, ncpu: nat, r: (nat, nat), b: int, class_: Option<int>, size: nat, z: Build)
    requires BuildOk(z) && IsRun(past, z) && GTrims.FreePages(Where(past).at, ncpu, z.hs, r)
    requires Grants(Last(past), b, class_, size, z)
    ensures r.1 <= b || b + z.hs + size <= r.0
  {
    var w := Last(past);
    var p: nat, d: Class, free :|
      p < ncpu && free in At(w.life.at, Shard(p, d)) && GTrims.PagesWithin(free, z.hs, ClassBytes(d)) == Some(r);
    GTrims.PagesInside(free, z.hs, ClassBytes(d), 0);
    BlockBytes(d, z);
    BlocksInOrder(past, w, z);
    NothingShared(past, w, z);
    GrantIs(w, b, class_, size, z);
    assert AllOfClass(w.life.slabs, At(w.life.at, Shard(p, d)), d, z.y);
    assert Apart(At(w.life.at, Out), At(w.life.at, Shard(p, d)));
    assert Exists(w, SlabBlock(free, d), z) && ThingAt(b, class_) != SlabBlock(free, d);
    assert ApartIn(w, ThingAt(b, class_), SlabBlock(free, d), z);
  }

  /** A thread gives back what it has. */
  method Leave(ghost big: BigHeaps.BigHeap, t: SlabThread, cpu: nat, ghost l: Life)
    returns (ghost l': Life, ghost steps: seq<Step>)
    requires t.AtRest(l) && t.Beside(big.va) && cpu < t.icc.ncpu
    modifies t`pending, t.tls, t.icc, t.mem, t.slabs
    ensures unchanged(big, big.va, big.va.Repr, big.table, big.table.table)
    ensures t.AtRest(l') && |l'.slabs| == |l.slabs| && Acts(t.Config(), l, old(t.Now()), steps, l', t.Now())
    ensures |old(t.pending)| == |t.index| == NUM_SIZE_CLASSES
    ensures Exited(l, l', t.id, cpu, NUM_SIZE_CLASSES, old(t.pending), t.index, t.y)
  {
    l', steps := t.Exit(cpu, l);
  }

  /** A thread hands out a block, perhaps of a new slab. The table of big blocks is not concerned. */
  method ServeBeside(big: BigHeaps.BigHeap, t: SlabThread, c: Class, cpu: nat, supplies: seq<Supply>, ghost l: Life)
    returns (r: Outcome, ghost l': Life, ghost steps: seq<Step>)
    requires t.AtRest(l) && t.Backing(big.va).Some? && big.Apart() && cpu < t.icc.ncpu
    requires SuppliesOk(big.va, supplies) && Backed(l.slabs, big.va.used, t.y) && SlabBytes(c, t.y) <= CHUNK_SIZE
    requires t.NeedsSlab(l, c) ==> Spares(t.Config(), c, big.va.used, big.va.arena)
    modifies big.va.Repr, t`pending, t`index, t.batches, t.tls, t.icc, t.mem, t.slabs
    ensures unchanged(big, big.table, big.table.table) && t.AtRest(l') && t.Backing(big.va).Some?
    ensures fresh(big.va.Repr - old(big.va.Repr)) && Keeps(old(big.va.segs), big.va.segs)
    ensures Travels(t.Config(), l, old(t.Now()), old(big.va.used), steps, l', t.Now(), big.va.used)
    ensures FateOf(r) == old(t.SlabFate(big.va, l, c, supplies)) && HandedOut(t.id, l, l', r, c, t.y)
    ensures r.NoSpace? ==> !big.va.LatestFull(SlabCount(c, t.y)) && t.NeedsSlab(l', c)
  {
    r, l', steps := t.Serve(big.va, c, cpu, supplies, l);
  }

  /** The books once pages have been taken for a slab. */
  lemma BooksServe(books: BigHeaps.Ledger, segs: seq<Segment>, used: set<int>, slabs: seq<Slab>, slabs': seq<Slab>,
                   y: Layout)
    returns (books': BigHeaps.Ledger)
    requires Keeps(books.segs, segs) && Lends(slabs, slabs', books.used, used, y)
    ensures books' == BigHeaps.Ledger(segs, books.table, used, books'.slab)
    ensures BooksAfter(books, books', slabs, slabs', y)
  {
    books' := BigHeaps.Ledger(segs, books.table, used, books.slab + NewPagesOf(slabs, slabs', y));
  }

  /** The same, as the books have it. */
  method Serve(big: BigHeaps.BigHeap, t: SlabThread, c: Class, cpu: nat, supplies: seq<Supply>, ghost l: Life,
               ghost books: BigHeaps.Ledger)
    returns (r: Outcome, ghost l': Life, ghost steps: seq<Step>, ghost books': BigHeaps.Ledger)
    requires t.AtRest(l) && t.Beside(big.va) && cpu < t.icc.ncpu && big.State(books.slab) == Some(books)
    requires SuppliesOk(big.va, supplies) && Backed(l.slabs, books.used, t.y) && SlabBytes(c, t.y) <= CHUNK_SIZE
    requires t.NeedsSlab(l, c) ==> Spares(t.Config(), c, big.va.used, big.va.arena)
    modifies big.va.Repr, t`pending, t`index, t.batches, t.tls, t.icc, t.mem, t.slabs
    ensures big.State(books'.slab) == Some(books') && BooksAfter(books, books', l.slabs, l'.slabs, t.y)
    ensures t.AtRest(l') && t.Beside(big.va) && big.Extended()
    ensures Acts(t.Config(), l, old(t.Now()), steps, l', t.Now())
    ensures FateOf(r) == old(t.SlabFate(big.va, l, c, supplies)) && HandedOut(t.id, l, l', r, c, t.y)
    ensures r.NoSpace? ==> !big.va.LatestFull(SlabCount(c, t.y)) && t.NeedsSlab(l', c)
  {
    r, l', steps := ServeBeside(big, t, c, cpu, supplies, l);
    TripIsWay(t.Config(), l, old(t.Now()), books.used, l', t.Now(), big.va.used, steps);
    books' := BooksServe(books, big.va.segs, big.va.used, l.slabs, l'.slabs, t.y);
  }

  /** A big block has left the table: from now on it is a slab block. */
  method Turn(ghost big: BigHeaps.BigHeap, t: SlabThread, h: nat, c: Class, ghost l: Life, ghost z: Build)
    returns (ghost l': Life, ghost steps: seq<Step>)
    requires BuildOk(z) && t.y == z.y && t.AtRest(l) && t.Beside(big.va)
    requires Addable(l.slabs, LoneBlock(h, c, t.id), z.y) && Capacity(c, z.y) == 1
    requires Readable(t.tls.code, h) && Readable(t.icc.code, h)
    modifies t.mem
    ensures unchanged(big, big.va, big.va.Repr, big.table, big.table.table)
    ensures t.AtRest(l') && l' == Turned(l, t.id, h, c) && Acts(t.Config(), l, old(t.Now()), steps, l', t.Now())
  {
    LoneIs(h, c, t.id, l.slabs, z);
    l', steps := t.AdoptBlock(c, h, l);
  }

  /** A thread that does nothing. */
  lemma Rests(t: SlabThread, l: Life)
    requires t.AtRest(l)
    ensures Acts(t.Config(), l, t.Now(), [], l, t.Now())
  {
    StayAgrees(t.Config(), l, t.Memories(), t.Memories());
  }

  // ------------------------------------------------------------------ the allocator

  /** The largest request that is served. */
  const MAX_REQUEST := 1024 * 1024 * 1024 * 3

  /** Where a run has led to. */
  ghost function Last(r: Run): Whole {
    if r.states == [] then NOTHING else r.states[|r.states| - 1]
  }

  /** Where the slab blocks are after a run. */
  ghost function Where(r: Run): Life {
    Last(r).life
  }

  /** The state a run has led to, if it is one. */
  ghost function Led(r: Run, z: Build): Option<Whole> {
    if BuildOk(z) && IsRun(r, z) then Some(Last(r)) else None
  }

  /** What users have after a request for `size` bytes that came out as `r`: a block that is none of those they had,
      with room for as much; or no more than before. */
  ghost predicate Dealt(past: Run, past': Run, r: Outcome, class_: Option<int>, size: nat, z: Build) {
    match r
    case Address(a) =>
      && z.hs < a && Grants(Last(past'), a - z.hs, class_, size, z)
      && (if class_.Some? then OutGrew(past, past', a - z.hs) else TableGrew(past, past', a - z.hs, size))
    case _ => At(Where(past').at, Out) == At(Where(past).at, Out) && Last(past').books.table == Last(past).books.table
  }

  /** Users have one more slab block. */
  ghost predicate OutGrew(past: Run, past': Run, b: nat) {
    && b !in At(Where(past).at, Out) && At(Where(past').at, Out) == [b] + At(Where(past).at, Out)
    && Last(past').books.table == Last(past).books.table
  }

  /** Users have one more big block. */
  ghost predicate TableGrew(past: Run, past': Run, h: nat, size: nat) {
    && h !in Last(past).books.table && At(Where(past').at, Out) == At(Where(past).at, Out)
    && Last(past').books.table == Last(past).books.table[h := Meta(size, BigHeaps.BIG_CLASS, 0, 0)]
  }

  /** Where the slab blocks are once the block at `h` has turned into one. */
  ghost function Turned(l: Life, t: nat, h: nat, c: Class): Life {
    Life(l.at[Out := [h] + At(l.at, Out)], l.slabs + [LoneBlock(h, c, t)])
  }

  /** What the books have for an attempt to make a big block. */
  ghost function Made(r: Outcome, size: nat, hs: nat): BigHeaps.Action {
    if r.Address? && hs <= r.addr then BigHeaps.NewBlock(r.addr - hs, size) else BigHeaps.Nothing
  }

  /** What becomes of a request for a big block of `bytes` bytes, header included. */
  ghost function LargeFate(va: VaBitmap, bytes: nat, x: Supply, protectOk: bool): Fate
    requires va.Valid() && SupplyOk(va, x)
    reads va, va.Repr
  {
    BigHeaps.BigFate(va, BlocksFor(bytes), x.first, x.kernel, protectOk || x.mmapOk)
  }

  /** What decides about a request for a big block of `bytes` bytes that is made again. */
  ghost function Outlooks(va: VaBitmap, bytes: nat, x: Supply): (o: BigHeaps.Outlook)
    requires va.Valid() && SupplyOk(va, x)
    reads va, va.Repr
    ensures MemoOk(o.memo, va.reserver.maxReservation)
  {
    BigHeaps.Foresight(va, BlocksFor(bytes), x.first, x.kernel)
  }

  ghost predicate SentAway(va: VaBitmap, bytes: nat, o: BigHeaps.Outlook)
    reads va, va.reserver, va.latest, va.segs
  {
    BigHeaps.TurnedAway(va, BlocksFor(bytes), o)
  }

  /** Make a big block. */
  method MakeBig(big: BigHeaps.BigHeap, size: nat, x: Supply, protectOk: bool, ghost books: BigHeaps.Ledger)
    returns (r: Outcome, ghost books': BigHeaps.Ledger)
    requires big.State(books.slab) == Some(books) && SupplyOk(big.va, x) && size + big.headerSize <= CHUNK_SIZE
    modifies big.va.Repr, big.table, big.table.table
    ensures big.State(books'.slab) == Some(books') && big.Extended() && (r.Address? ==> big.headerSize < r.addr)
    ensures BigHeaps.Step(books, Made(r, size, big.headerSize), books', big.headerSize)
    ensures FateOf(r) == old(LargeFate(big.va, size + big.headerSize, x, protectOk))
    ensures r.NoSpace? ==> SentAway(big.va, size + big.headerSize, old(Outlooks(big.va, size + big.headerSize, x)))
  {
    r := big.BigMalloc(size, x.rand, x.first, x.kernel, protectOk, x.mmapOk, books.slab);
    books' := big.State(books.slab).value;
  }

  /** Make a big block. The thread is not concerned. */
  method MakeBeside(big: BigHeaps.BigHeap, ghost t: SlabThread, size: nat, x: Supply, protectOk: bool, ghost l: Life,
                    ghost books: BigHeaps.Ledger)
    returns (r: Outcome, ghost books': BigHeaps.Ledger)
    requires big.State(books.slab) == Some(books) && SupplyOk(big.va, x) && size + big.headerSize <= CHUNK_SIZE
    requires t.AtRest(l) && t.Beside(big.va)
    modifies big.va.Repr, big.table, big.table.table
    ensures big.State(books'.slab) == Some(books') && big.Extended() && (r.Address? ==> big.headerSize < r.addr)
    ensures BigHeaps.Step(books, Made(r, size, big.headerSize), books', big.headerSize)
    ensures FateOf(r) == old(LargeFate(big.va, size + big.headerSize, x, protectOk))
    ensures r.NoSpace? ==> SentAway(big.va, size + big.headerSize, old(Outlooks(big.va, size + big.headerSize, x)))
    ensures t.AtRest(l) && t.Beside(big.va) && Acts(t.Config(), l, old(t.Now()), [], l, t.Now())
  {
    Rests(t, l);
    r, books' := MakeBig(big, size, x, protectOk, books);
  }

  /** Give back a big block. The thread is not concerned. */
  method DropBeside(big: BigHeaps.BigHeap, ghost t: SlabThread, h: nat, ghost l: Life, ghost books: BigHeaps.Ledger)
    returns (ghost books': BigHeaps.Ledger)
    requires big.State(books.slab) == Some(books) && BigHeaps.SoundAt(books, h, big.headerSize) && h in books.table
    requires t.AtRest(l) && t.Beside(big.va)
    modifies big.va.Repr, big.table, big.table.table
    ensures big.State(books'.slab) == Some(books') && big.Extended()
    ensures BigHeaps.Step(books, BigHeaps.DropBlock(h), books', big.headerSize)
    ensures t.AtRest(l) && Acts(t.Config(), l, old(t.Now()), [], l, t.Now())
  {
    Rests(t, l);
    var aborted := big.BigFree(h, books.slab);
    books' := big.State(books.slab).value;
  }

  /** Resize a big block where it stands, if there is room. The thread is not concerned. */
  method ResizeBig(big: BigHeaps.BigHeap, ghost t: SlabThread, h: nat, newSize: nat, lut: seq<int>, madviseOk: bool,
                   protectOk: bool, ghost l: Life, ghost books: BigHeaps.Ledger)
    returns (inPlace: bool, class_: Option<int>, turned: bool, ghost action: BigHeaps.Action,
             ghost books': BigHeaps.Ledger)
    requires big.State(books.slab) == Some(books) && t.AtRest(l) && t.Beside(big.va)
    requires h in books.table && BigHeaps.SoundAt(books, h, big.headerSize) && 0 < newSize && LutOk(lut)
    modifies big.va.Repr, big.table, big.table.table
    ensures big.State(books'.slab) == Some(books') && big.Extended()
    ensures BigHeaps.Step(books, action, books', big.headerSize)
    ensures t.AtRest(l) && t.Beside(big.va) && t.Now() == old(t.Now()) && ClassOf(newSize, class_)
    ensures inPlace <==>
      BigHeaps.StaysInPlace(books, h, BigHeaps.SizeFor(newSize, class_), big.headerSize, protectOk)
    ensures action == BigHeaps.ReallocAction(books, h, BigHeaps.SizeFor(newSize, class_), class_.None?, big.headerSize,
                                             madviseOk, protectOk)
    ensures turned <==> action == BigHeaps.Resize(h, BigHeaps.SizeFor(newSize, class_), false)
  {
    inPlace, class_, turned, action := big.ReallocBig(h, newSize, lut, madviseOk, protectOk, books.slab);
    books' := big.State(BigHeaps.SlabAfter(books.slab, action, big.headerSize)).value;
  }

  /** Turn the block that was resized into a slab block, if it has left the table. */
  method Settle(big: BigHeaps.BigHeap, t: SlabThread, h: nat, class_: Option<int>, turned: bool,
                ghost action: BigHeaps.Action, ghost past: Run, ghost books: BigHeaps.Ledger, ghost z: Build)
    returns (ghost past': Run, ghost steps: seq<Step>)
    requires big.State(books.slab) == Some(books) && Led(past, z).Some? && t.y == z.y && t.AtRest(Where(past))
    requires t.Beside(big.va) && BigHeaps.Step(Last(past).books, action, books, z.hs)
    requires turned ==> class_.Some? && 0 <= class_.value < NUM_SIZE_CLASSES && Capacity(class_.value, z.y) == 1
    requires turned ==> action == BigHeaps.Resize(h, ClassBytes(class_.value), false)
    requires turned ==> Readable(t.tls.code, h) && Readable(t.icc.code, h)
    requires !turned ==> StaysBig(action)
    modifies t.mem
    ensures big.State(books.slab) == Some(books) && Led(past', z).Some? && Last(past').books == books
    ensures t.AtRest(Where(past')) && Acts(t.Config(), Where(past), old(t.Now()), steps, Where(past'), t.Now())
    ensures Where(past') == if turned then Turned(Where(past), t.id, h, class_.value) else Where(past)
  {
    Rests(t, Where(past));
    steps := [];
    if turned {
      past', steps := SettleTurned(big, t, h, class_.value, past, books, z);
    } else {
      past' := NoteBig(past, action, books, z);
    }
  }

  /** Turn a block that has left the table into a slab block. */
  method SettleTurned(big: BigHeaps.BigHeap, t: SlabThread, h: nat, c: Class, ghost past: Run,
                      ghost books: BigHeaps.Ledger, ghost z: Build)
    returns (ghost past': Run, ghost steps: seq<Step>)
    requires big.State(books.slab) == Some(books) && Led(past, z).Some? && t.y == z.y && t.AtRest(Where(past))
    requires t.Beside(big.va) && Capacity(c, z.y) == 1 && Readable(t.tls.code, h) && Readable(t.icc.code, h)
    requires BigHeaps.Step(Last(past).books, BigHeaps.Resize(h, ClassBytes(c), false), books, z.hs)
    modifies t.mem
    ensures big.State(books.slab) == Some(books) && Led(past', z).Some? && Last(past').books == books
    ensures t.AtRest(Where(past')) && Acts(t.Config(), Where(past), old(t.Now()), steps, Where(past'), t.Now())
    ensures Where(past') == Turned(Where(past), t.id, h, c)
  {
    ghost var l';
    HintBelowTop(big.va, h, ClassBytes(c) + z.hs);
    past' := NoteTurn(past, t.id, h, c, books, z);
    l', steps := Turn(big, t, h, c, Where(past), z);
  }

  /** What a thread did goes down in the run. */
  lemma NoteThread(past: Run, u: Setup, h: Heap, steps: seq<Step>, l': Life, h': Heap, books: BigHeaps.Ledger, z: Build)
    returns (past': Run)
    requires Led(past, z).Some? && u.y == z.y && Acts(u, Where(past), h, steps, l', h')
    requires BooksAfter(Last(past).books, books, Where(past).slabs, l'.slabs, z.y)
    ensures Led(past', z).Some? && Last(past') == Whole(books, l') && Last(past').books.table == Last(past).books.table
  {
    past' := ThreadRuns(past, Last(past), u, h, steps, l', h', books, z);
  }

  /** What was done with a big block goes down in the run. */
  lemma NoteBig(past: Run, a: BigHeaps.Action, books: BigHeaps.Ledger, z: Build) returns (past': Run)
    requires Led(past, z).Some? && StaysBig(a) && BigHeaps.Step(Last(past).books, a, books, z.hs)
    ensures Led(past', z).Some? && Last(past') == Whole(books, Where(past))
    ensures a.NewBlock? ==> a.h !in Last(past).books.table
  {
    NewIsNew(past, Last(past), a, books, z);
    var w' := Whole(books, Where(past));
    MoveExtends(past, Last(past), Big(a), w', z);
    past' := WholeHeap.Extended(past, Big(a), w');
  }

  /** So does an attempt to make one. */
  lemma NoteMade(past: Run, r: Outcome, size: nat, books: BigHeaps.Ledger, z: Build) returns (past': Run)
    requires Led(past, z).Some? && BigSize(size) && (r.Address? ==> z.hs < r.addr)
    requires BigHeaps.Step(Last(past).books, Made(r, size, z.hs), books, z.hs)
    ensures Led(past', z).Some? && Last(past') == Whole(books, Where(past))
    ensures Dealt(past, past', r, None, size, z)
  {
    past' := NoteBig(past, Made(r, size, z.hs), books, z);
  }

  /** So does a big block that became a slab block. */
  lemma NoteTurn(past: Run, t: nat, h: nat, c: Class, books: BigHeaps.Ledger, z: Build) returns (past': Run)
    requires Led(past, z).Some? && Happens(Last(past), Demote(t, c, h), Whole(books, Turned(Where(past), t, h, c)), z)
    ensures Led(past', z).Some? && Last(past') == Whole(books, Turned(Where(past), t, h, c))
    ensures Addable(Where(past).slabs, LoneBlock(h, c, t), z.y) && Capacity(c, z.y) == 1
  {
    var w' := Whole(books, Turned(Where(past), t, h, c));
    DemoteFits(past, Last(past), t, c, h, w', z);
    MoveExtends(past, Last(past), Demote(t, c, h), w', z);
    past' := WholeHeap.Extended(past, Demote(t, c, h), w');
  }

  /** A big block of no bytes may turn into a slab block, others stay big. */
  lemma ReallocTurns(past: Run, h: nat, newSize: nat, class_: Option<int>, madviseOk: bool, protectOk: bool, z: Build)
    requires Led(past, z).Some? && h in Last(past).books.table && 0 < newSize && ClassOf(newSize, class_)
    ensures
      var size := BigHeaps.SizeFor(newSize, class_);
      var a := BigHeaps.ReallocAction(Last(past).books, h, size, class_.None?, z.hs, madviseOk, protectOk);
      if a == BigHeaps.Resize(h, size, false)
      then class_.Some? && 0 <= class_.value < NUM_SIZE_CLASSES && size == ClassBytes(class_.value)
           && Capacity(class_.value, z.y) == 1 && Last(past).books.table[h].size == 0 && newSize > 3840
      else StaysBig(a)
  {
    RunKeepsWhole(past, |past.moves|, z);
    ReallocIs(Last(past).books, h, newSize, class_, madviseOk, protectOk, z);
  }

  /** What a resized block is good for. */
  lemma ResizeGrants(past: Run, past': Run, t: nat, h: nat, newSize: nat, class_: Option<int>, turned: bool,
                     madviseOk: bool, protectOk: bool, z: Build)
    requires Led(past, z).Some? && h in Last(past).books.table && 0 < newSize && ClassOf(newSize, class_)
    requires
      var size := BigHeaps.SizeFor(newSize, class_);
      var a := BigHeaps.ReallocAction(Last(past).books, h, size, class_.None?, z.hs, madviseOk, protectOk);
      && BigHeaps.Step(Last(past).books, a, Last(past').books, z.hs)
      && (turned <==> a == BigHeaps.Resize(h, size, false))
    requires turned ==> class_.Some? && 0 <= class_.value < NUM_SIZE_CLASSES && Capacity(class_.value, z.y) == 1
    requires Where(past') == if turned then Turned(Where(past), t, h, class_.value) else Where(past)
    ensures
      var books, size := Last(past).books, BigHeaps.SizeFor(newSize, class_);
      var inPlace := BigHeaps.StaysInPlace(books, h, size, z.hs, protectOk);
      && (turned ==> inPlace)
      && (inPlace ==> Grants(Last(past'), h, if turned then class_ else None, newSize, z))
      && (inPlace && !turned ==> Remembers(past, past', h, newSize))
      && (!inPlace ==> Last(past').books.table == books.table && Last(past').books.used == books.used)
  {
    ResizeFits(past, Last(past), h, newSize, class_, madviseOk, protectOk, Last(past').books, z);
    if turned {
      LoneIs(h, class_.value, t, Where(past).slabs, z);
    }
  }

  /** The new size of a big block is remembered, unless a block of no bytes was kept for it. */
  ghost predicate Remembers(past: Run, past': Run, h: nat, newSize: nat) {
    var table, table' := Last(past).books.table, Last(past').books.table;
    h in table && h in table' && (newSize <= table'[h].size <==> !(table[h].size == 0 && newSize <= 3840))
  }

  /** What the user gets of a block: the address behind its header. */
  function Behind(a: Outcome, hs: nat): Outcome {
    match a
    case Address(b) => Address(b + hs)
    case _ => a
  }

  /** A slab block that went out to a user is dealt. */
  lemma OutIsDealt(past: Run, past': Run, id: nat, a: Outcome, c: Class, size: nat, z: Build)
    requires Led(past', z).Some? && HandedOut(id, Where(past), Where(past'), a, c, z.y) && size <= ClassBytes(c)
    requires Last(past').books.table == Last(past).books.table
    ensures FateOf(Behind(a, z.hs)) == FateOf(a) && Dealt(past, past', Behind(a, z.hs), Some(c), size, z)
  {
    if a.Address? {
      OutIsNew(past', Last(past'), At(Where(past).at, Out), a.addr, z);
    }
  }

  /** Keys that are no addresses in the arena are no addresses of blocks. */
  lemma KeysClearOf(va: VaBitmap, past: Run, code: Code, code': Code, z: Build)
    requires va.Valid() && Led(past, z).Some? && Last(past).books.used == va.used
    requires Keyless(code, va.arena) && Keyless(code', va.arena)
    ensures forall k :: 0 <= k < |Where(past).slabs| ==> KeysApart(Where(past).slabs[k], z.y, code, code')
  {
    LedBacked(past, z);
    RunKeepsWhole(past, |past.moves|, z);
    forall k | 0 <= k < |Where(past).slabs|
      ensures KeysApart(Where(past).slabs[k], z.y, code, code')
    {
      assert OnPages(Where(past).slabs[k], va.used, z.y);
      BackedInArena(va, Where(past).slabs[k], z.y);
      KeylessApart(Where(past).slabs[k], z.y, code, code', va.arena);
    }
  }

  /** Make a big block and write it down. */
  method LargeBlock(big: BigHeaps.BigHeap, ghost t: SlabThread, size: nat, x: Supply, protectOk: bool,
                    ghost past: Run, ghost z: Build)
    returns (r: Outcome, ghost past': Run)
    requires big.headerSize == z.hs && Led(past, z).Some? && big.State(Last(past).books.slab) == Some(Last(past).books)
    requires t.AtRest(Where(past)) && t.Beside(big.va) && SupplyOk(big.va, x) && BigSize(size) && size <= MAX_REQUEST
    modifies big.va.Repr, big.table, big.table.table
    ensures big.State(Last(past').books.slab) == Some(Last(past').books) && Led(past', z).Some? && big.Extended()
    ensures t.AtRest(Where(past')) && t.Beside(big.va)
    ensures Acts(t.Config(), Where(past), old(t.Now()), [], Where(past'), t.Now())
    ensures Dealt(past, past', r, None, size, z)
    ensures FateOf(r) == old(LargeFate(big.va, size + big.headerSize, x, protectOk))
    ensures r.NoSpace? ==> SentAway(big.va, size + big.headerSize, old(Outlooks(big.va, size + big.headerSize, x)))
  {
    ghost var books;
    r, books := MakeBeside(big, t, size, x, protectOk, Where(past), Last(past).books);
    past' := NoteMade(past, r, size, books, z);
  }

  /** The slabs are on pages that are in use. */
  lemma LedBacked(past: Run, z: Build)
    requires Led(past, z).Some?
    ensures Backed(Where(past).slabs, Last(past).books.used, z.y)
  {
    RunKeepsWhole(past, |past.moves|, z);
    SlabsBacked(Last(past), z);
  }

  lemma LedSound(past: Run, h: nat, z: Build)
    requires Led(past, z).Some?
    ensures BigHeaps.SoundAt(Last(past).books, h, z.hs)
  {
    RunKeepsWhole(past, |past.moves|, z);
    BigHeaps.BooksSound(Last(past).books, h, z.hs);
  }

  class Allocator {
    const big: BigHeaps.BigHeap
    const z: Build

    /** The state of the whole, as long as everything is in order: `past` is a run, and the books are as it left
        them. */
    ghost function State(past: Run): Option<Whole>
      reads big, big.va, big.va.Repr, big.table, big.table.table
    {
      var books := Last(past).books;
      if big.headerSize == z.hs && big.State(books.slab) == Some(books) then Led(past, z) else None
    }

    lemma InOrder(past: Run)
      requires State(past).Some?
      ensures big.headerSize == z.hs && Led(past, z).Some?
      ensures big.State(Last(past).books.slab) == Some(Last(past).books)
    {
    }

    /** The state of the slabs, if thread `t` is at rest and finds memory in that state. */
    ghost function Attached(t: SlabThread, past: Run): Option<Life>
      reads t`pending, t`index, t.tls, t.icc, t.mem, t.slabs, t.tls.mem, t.icc.mem, t.batches
    {
      if t.y == z.y && t.AtRest(Where(past)) then Some(Where(past)) else None
    }

    constructor (heap: BigHeaps.BigHeap, build: Build)
      requires BuildOk(build) && heap.headerSize == build.hs && heap.State({}) == Some(BigHeaps.NO_BLOCKS)
      ensures State(BEGINNING) == Some(NOTHING) && big == heap && z == build
    {
      big, z := heap, build;
    }

    /** Free a slab block. */
    method FreeSlab(t: SlabThread, b: nat, c: Class, cpu: nat, ghost past: Run)
      returns (ghost past': Run, ghost steps: seq<Step>)
      requires State(past).Some? && Attached(t, past).Some? && t.Beside(big.va) && cpu < t.icc.ncpu
      requires b in At(Where(past).at, Out) && HasClass(Where(past).slabs, b, c, z.y)
      modifies t.tls, t.icc, t.mem
      ensures State(past').Some? && Attached(t, past').Some? && Last(past').books == Last(past).books
      ensures Acts(t.Config(), Where(past), old(t.Now()), steps, Where(past'), t.Now())
      ensures
        var at := Where(past).at;
        var to := if |At(at, Bin(t.id, c))| >= Limit(c, z.y) then Shard(cpu, c) else Bin(t.id, c);
        Carried(Where(past), Where(past'), Out, Without(At(at, Out), [b]), to, [b])
    {
      ghost var l';
      l', steps := Release(big, t, b, c, cpu, Where(past));
      SameBooks(Last(past).books, Where(past).slabs, l'.slabs, z.y);
      past' := NoteThread(past, t.Config(), old(t.Now()), steps, l', t.Now(), Last(past).books, z);
    }

    /** No key gets in the way of a new slab, if one is needed. */
    ghost predicate KeysClear(t: SlabThread, c: Class, past: Run)
      reads big, big.va, t`pending, t`index, t.slabs
    {
      t.NeedsSlab(Where(past), c) ==> Spares(t.Config(), c, big.va.used, big.va.arena)
    }

    /** Allocate a block of a class: from the thread's list, from a shard, from a pending slab or from a new one.
        Only a new slab can be refused, and only when one is needed is it asked for. */
    method MallocSlab(t: SlabThread, c: Class, cpu: nat, supplies: seq<Supply>, ghost past: Run)
      returns (r: Outcome, ghost past': Run, ghost steps: seq<Step>)
      requires State(past).Some? && Attached(t, past).Some? && t.Beside(big.va) && cpu < t.icc.ncpu
      requires SuppliesOk(big.va, supplies) && KeysClear(t, c, past)
      modifies big.va.Repr, t`pending, t`index, t.batches, t.tls, t.icc, t.mem, t.slabs
      ensures State(past').Some? && Attached(t, past').Some? && t.Beside(big.va) && big.Extended()
      ensures Acts(t.Config(), Where(past), old(t.Now()), steps, Where(past'), t.Now())
      ensures FateOf(r) == old(t.SlabFate(big.va, Where(past), c, supplies))
      ensures HandedOut(t.id, Where(past), Where(past'), r, c, z.y)
      ensures Last(past').books.table == Last(past).books.table
      ensures r.NoSpace? ==> !big.va.LatestFull(SlabCount(c, z.y)) && t.NeedsSlab(Where(past'), c)
    {
      LedBacked(past, z);
      SlabsAreSmall(c, z);
      ghost var l', books;
      r, l', steps, books := Serve(big, t, c, cpu, supplies, Where(past), Last(past).books);
      past' := NoteThread(past, t.Config(), old(t.Now()), steps, l', t.Now(), books, z);
    }

    /** Trim the shards. */
    method Trim(t: SlabThread, cpu: nat, aged: set<nat>, pad: nat, force: bool, ghost past: Run)
      returns (reached: bool, freed: nat, pages: seq<(nat, nat)>, ghost past': Run, ghost steps: seq<Step>)
      requires State(past).Some? && Attached(t, past).Some? && t.Beside(big.va) && cpu < t.icc.ncpu
      modifies t.icc, t.mem
      ensures State(past').Some? && Attached(t, past').Some?
      ensures Acts(t.Config(), Where(past), old(t.Now()), steps, Where(past'), t.Now())
      ensures GTrims.Shuffled(Where(past), Where(past'), t.id, t.icc.ncpu, PAGE_CLASS, NUM_SIZE_CLASSES)
      ensures GTrims.Amounts(Where(past).at, cpu, t.icc.ncpu, aged, freed, pad, force)
      ensures pages == GTrims.Returned(Where(past).at, cpu, t.icc.ncpu, aged, pad, force, z.hs)
      ensures forall r :: r in pages ==> GTrims.FreePages(Where(past).at, t.icc.ncpu, z.hs, r)
      ensures GTrims.AllKept(Where(past).at, Where(past').at, t.icc.ncpu) && (reached <==> freed >= pad)
    {
      ghost var l';
      reached, freed, pages, l', steps := TrimShards(big, t, cpu, z.hs, aged, pad, force, Where(past));
      SameBooks(Last(past).books, Where(past).slabs, l'.slabs, z.y);
      past' := NoteThread(past, t.Config(), old(t.Now()), steps, l', t.Now(), Last(past).books, z);
    }

    /** A thread exits. */
    method Exit(t: SlabThread, cpu: nat, ghost past: Run) returns (ghost past': Run, ghost steps: seq<Step>)
      requires State(past).Some? && Attached(t, past).Some? && t.Beside(big.va) && cpu < t.icc.ncpu
      modifies t`pending, t.tls, t.icc, t.mem, t.slabs
      ensures State(past').Some? && Attached(t, past').Some? && |old(t.pending)| == |t.index| == NUM_SIZE_CLASSES
      ensures Acts(t.Config(), Where(past), old(t.Now()), steps, Where(past'), t.Now())
      ensures Exited(Where(past), Where(past'), t.id, cpu, NUM_SIZE_CLASSES, old(t.pending), t.index, z.y)
      ensures At(Where(past').at, Out) == At(Where(past).at, Out) && Last(past').books == Last(past).books
    {
      ghost var l';
      l', steps := Leave(big, t, cpu, Where(past));
      SameBooks(Last(past).books, Where(past).slabs, l'.slabs, z.y);
      past' := NoteThread(past, t.Config(), old(t.Now()), steps, l', t.Now(), Last(past).books, z);
    }

    // ---------------------------------------------------------------- big blocks

    /** Allocate a big block. It is none of those that are there. */
    method MallocBig(size: nat, x: Supply, protectOk: bool, ghost past: Run) returns (r: Outcome, ghost past': Run)
      requires State(past).Some? && BigSize(size) && size <= MAX_REQUEST && SupplyOk(big.va, x)
      modifies big.va.Repr, big.table, big.table.table
      ensures State(past').Some? && big.Extended() && Where(past') == Where(past)
      ensures Dealt(past, past', r, None, size, z)
      ensures FateOf(r) == old(LargeFate(big.va, size + big.headerSize, x, protectOk))
    {
      ghost var books;
      r, books := MakeBig(big, size, x, protectOk, Last(past).books);
      past' := NoteMade(past, r, size, books, z);
    }

    /** Free a big block. */
    method FreeBig(h: nat, ghost past: Run) returns (ghost past': Run)
      requires State(past).Some? && h in Last(past).books.table
      modifies big.va.Repr, big.table, big.table.table
      ensures State(past').Some? && big.Extended() && Where(past') == Where(past)
      ensures Last(past').books.table == Last(past).books.table - {h}
      ensures Last(past').books.used ==
        Last(past).books.used - BigHeaps.PagesOf(h, Last(past).books.table[h].size, z.hs)
    {
      LedSound(past, h, z);
      var aborted := big.BigFree(h, Last(past).books.slab);
      past' := NoteBig(past, BigHeaps.DropBlock(h), big.State(Last(past).books.slab).value, z);
    }

    /** Resize a big block where it stands, if there is room; then there is room for the request. A block of no
        bytes that has to grow for a small request turns into a slab block, which its user has. A block that
        cannot stay is left as it is. The request is remembered unless a block of no bytes is kept for it. */
    method ReallocBig(t: SlabThread, h: nat, newSize: nat, lut: seq<int>, madviseOk: bool, protectOk: bool,
                      ghost past: Run)
      returns (inPlace: bool, class_: Option<int>, turned: bool, ghost past': Run, ghost steps: seq<Step>)
      requires State(past).Some? && Attached(t, past).Some? && t.Beside(big.va) && h in Last(past).books.table
      requires 0 < newSize && LutOk(lut)
      requires Last(past).books.table[h].size == 0 && newSize > 3840 ==>
        Readable(t.tls.code, h) && Readable(t.icc.code, h)
      modifies big.va.Repr, big.table, big.table.table, t.mem
      ensures State(past').Some? && Attached(t, past').Some? && big.Extended() && ClassOf(newSize, class_)
      ensures Acts(t.Config(), Where(past), old(t.Now()), steps, Where(past'), t.Now())
      ensures inPlace <==>
        BigHeaps.StaysInPlace(Last(past).books, h, BigHeaps.SizeFor(newSize, class_), z.hs, protectOk)
      ensures turned ==> inPlace && class_.Some? && 0 <= class_.value < NUM_SIZE_CLASSES
      ensures Where(past') == if turned then Turned(Where(past), t.id, h, class_.value) else Where(past)
      ensures inPlace ==> Grants(Last(past'), h, if turned then class_ else None, newSize, z)
      ensures inPlace && !turned ==> Remembers(past, past', h, newSize)
      ensures !inPlace ==> Last(past').books.table == Last(past).books.table
      ensures !inPlace ==> Last(past').books.used == Last(past).books.used
    {
      ghost var action, books;
      LedSound(past, h, z);
      inPlace, class_, turned, action, books :=
        ResizeBig(big, t, h, newSize, lut, madviseOk, protectOk, Where(past), Last(past).books);
      ReallocTurns(past, h, newSize, class_, madviseOk, protectOk, z);
      past', steps := Settle(big, t, h, class_, turned, action, past, books, z);
      ResizeGrants(past, past', t.id, h, newSize, class_, turned, madviseOk, protectOk, z);
    }

    // ---------------------------------------------------------------- malloc and free

    /** What becomes of a request. Nothing is granted beyond 3 GiB. */
    ghost function RequestFate(t: SlabThread, size: nat, class_: Option<int>, supplies: seq<Supply>, protectOk: bool,
                               past: Run): Fate
      requires big.va.Valid() && SuppliesOk(big.va, supplies)
      requires class_.Some? ==> 0 <= class_.value < NUM_SIZE_CLASSES
      reads big, big.va, big.va.Repr, t`pending, t`index, t.slabs
    {
      if size > MAX_REQUEST then Denied
      else match class_
           case None => LargeFate(big.va, size + big.headerSize, supplies[0], protectOk)
           case Some(c) => t.SlabFate(big.va, Where(past), c, supplies)
    }

    lemma FateIs(t: SlabThread, size: nat, class_: Option<int>, supplies: seq<Supply>, protectOk: bool, past: Run)
      requires big.va.Valid() && SuppliesOk(big.va, supplies) && size <= MAX_REQUEST
      requires class_.Some? ==> 0 <= class_.value < NUM_SIZE_CLASSES
      ensures
        var fate := RequestFate(t, size, class_, supplies, protectOk, past);
        if class_.None? then fate == LargeFate(big.va, size + big.headerSize, supplies[0], protectOk)
        else fate == t.SlabFate(big.va, Where(past), class_.value, supplies)
    {
    }

    ghost function OutlookOf(size: nat, supplies: seq<Supply>): (o: BigHeaps.Outlook)
      requires big.va.Valid() && SuppliesOk(big.va, supplies)
      reads big, big.va, big.va.Repr
      ensures MemoOk(o.memo, big.va.reserver.maxReservation)
    {
      Outlooks(big.va, size + big.headerSize, supplies[0])
    }

    /** How a request that was refused leaves the allocator: a block of a class still needs a new slab, for which there
        are pages; a big block finds what it found before. */
    ghost predicate Declined(t: SlabThread, size: nat, class_: Option<int>, o: BigHeaps.Outlook, past: Run)
      requires class_.Some? ==> 0 <= class_.value < NUM_SIZE_CLASSES
      reads big, big.va, big.va.reserver, big.va.latest, big.va.segs, t`pending, t`index, t.slabs
    {
      size <= MAX_REQUEST ==>
        match class_
        case None => SentAway(big.va, size + big.headerSize, o)
        case Some(c) => !big.va.LatestFull(SlabCount(c, z.y)) && t.NeedsSlab(Where(past), c)
    }

    /** What becomes of a request that is made again after it was refused. */
    ghost function SecondFate(size: nat, class_: Option<int>, o: BigHeaps.Outlook, again: seq<Supply>, protectOk: bool)
      : Fate
      requires |again| == 3 && KernelsOk(again[0].kernel)
      requires Chunky(big.va.reserver.maxReservation) && MemoOk(o.memo, big.va.reserver.maxReservation)
      reads big, big.va
    {
      if size > MAX_REQUEST then Denied
      else match class_
           case None =>
             BigHeaps.AgainFate(o, big.va.reserver.maxReservation, again[0].kernel, protectOk || again[0].mmapOk)
           case Some(_) => if NoneMapped(again, 3) then Denied else Granted
    }

    /** What becomes of a request that is made again if it is refused. */
    ghost function TwiceFate(t: SlabThread, size: nat, class_: Option<int>, first: seq<Supply>, second: seq<Supply>,
                             protectOk: bool, past: Run): Fate
      requires big.va.Valid() && SuppliesOk(big.va, first) && SuppliesOk(big.va, second)
      requires class_.Some? ==> 0 <= class_.value < NUM_SIZE_CLASSES
      reads big, big.va, big.va.Repr, t`pending, t`index, t.slabs
    {
      var fate := RequestFate(t, size, class_, first, protectOk, past);
      if fate == Denied then SecondFate(size, class_, OutlookOf(size, first), second, protectOk) else fate
    }

    lemma SecondIs(t: SlabThread, size: nat, class_: Option<int>, o: BigHeaps.Outlook, again: seq<Supply>,
                   protectOk: bool, past: Run)
      requires big.va.Valid() && SuppliesOk(big.va, again) && ClassOf(size, class_) && t.y == z.y
      requires MemoOk(o.memo, big.va.reserver.maxReservation) && Declined(t, size, class_, o, past)
      ensures RequestFate(t, size, class_, again, protectOk, past) == SecondFate(size, class_, o, again, protectOk)
    {
      if size <= MAX_REQUEST {
        if class_.None? {
          BigHeaps.AgainIs(big.va, BlocksFor(size + big.headerSize), o, again[0].first, again[0].kernel,
                           protectOk || again[0].mmapOk);
        } else {
          RoomIsEnough(big.va, SlabCount(class_.value, z.y), again[0]);
        }
      }
    }

    /** No key gets in the way of a request for `size` bytes. */
    ghost predicate KeysClearFor(t: SlabThread, size: nat, past: Run)
      reads big, big.va, t`pending, t`index, t.slabs
    {
      forall c: Class :: SmallestFit(size, c) ==> KeysClear(t, c, past)
    }

    /** Serve a request that has a class. */
    method MallocSmall(t: SlabThread, size: nat, class_: Option<int>, cpu: nat, supplies: seq<Supply>,
                       ghost past: Run)
      returns (r: Outcome, ghost past': Run, ghost steps: seq<Step>)
      requires State(past).Some? && Attached(t, past).Some? && t.Beside(big.va) && cpu < t.icc.ncpu
      requires class_.Some? && SmallestFit(size, class_.value) && size <= MAX_REQUEST
      requires SuppliesOk(big.va, supplies) && KeysClear(t, class_.value, past)
      modifies big.va.Repr, t`pending, t`index, t.batches, t.tls, t.icc, t.mem, t.slabs
      ensures State(past').Some? && Attached(t, past').Some? && t.Beside(big.va) && big.Extended()
      ensures Acts(t.Config(), Where(past), old(t.Now()), steps, Where(past'), t.Now())
      ensures Dealt(past, past', r, class_, size, z)
      ensures FateOf(r) == old(t.SlabFate(big.va, Where(past), class_.value, supplies))
      ensures r.NoSpace? ==> !big.va.LatestFull(SlabCount(class_.value, z.y)) && t.NeedsSlab(Where(past'), class_.value)
    {
      var a;
      a, past', steps := MallocSlab(t, class_.value, cpu, supplies, past);
      OutIsDealt(past, past', t.id, a, class_.value, size, z);
      r := Behind(a, z.hs);
    }

    /** Serve a request that has no class. The thread is not concerned. */
    method MallocLarge(ghost t: SlabThread, size: nat, ghost class_: Option<int>, supplies: seq<Supply>,
                       protectOk: bool, ghost past: Run)
      returns (r: Outcome, ghost past': Run, ghost steps: seq<Step>)
      requires State(past).Some? && Attached(t, past).Some? && t.Beside(big.va) && SuppliesOk(big.va, supplies)
      requires BigSize(size) && size <= MAX_REQUEST && class_.None?
      modifies big.va.Repr, big.table, big.table.table
      ensures State(past').Some? && Attached(t, past').Some? && t.Beside(big.va) && big.Extended()
      ensures Acts(t.Config(), Where(past), old(t.Now()), steps, Where(past'), t.Now())
      ensures Dealt(past, past', r, class_, size, z)
      ensures FateOf(r) == old(LargeFate(big.va, size + big.headerSize, supplies[0], protectOk))
      ensures r.NoSpace? ==>
        SentAway(big.va, size + big.headerSize, old(Outlooks(big.va, size + big.headerSize, supplies[0])))
    {
      InOrder(past);
      r, past' := LargeBlock(big, t, size, supplies[0], protectOk, past, z);
      steps := [];
    }

    /** Serve a request of class `class_`. */
    method MallocClass(t: SlabThread, size: nat, class_: Option<int>, cpu: nat, supplies: seq<Supply>, protectOk: bool,
                       ghost past: Run)
      returns (r: Outcome, ghost past': Run, ghost steps: seq<Step>)
      requires State(past).Some? && Attached(t, past).Some? && t.Beside(big.va) && cpu < t.icc.ncpu
      requires ClassOf(size, class_) && size <= MAX_REQUEST
      requires SuppliesOk(big.va, supplies) && KeysClearFor(t, size, past)
      modifies big.va.Repr, big.table, big.table.table
      modifies t`pending, t`index, t.batches, t.tls, t.icc, t.mem, t.slabs
      ensures State(past').Some? && Attached(t, past').Some? && t.Beside(big.va) && big.Extended()
      ensures Acts(t.Config(), Where(past), old(t.Now()), steps, Where(past'), t.Now())
      ensures Dealt(past, past', r, class_, size, z)
      ensures FateOf(r) == old(RequestFate(t, size, class_, supplies, protectOk, past))
      ensures r.NoSpace? ==> Declined(t, size, class_, old(OutlookOf(size, supplies)), past')
    {
      FateIs(t, size, class_, supplies, protectOk, past);
      if class_.Some? {
        r, past', steps := MallocSmall(t, size, class_, cpu, supplies, past);
      } else {
        r, past', steps := MallocLarge(t, size, class_, supplies, protectOk, past);
      }
    }

    /** A user asks for memory. What they get is a block they did not have, with room for what they asked for; or
        nothing has changed for them. Which of these, and whether the process survives, is decided by what there
        is and by what the kernel answers. */
    method Malloc(t: SlabThread, size: nat, lut: seq<int>, cpu: nat, supplies: seq<Supply>, protectOk: bool,
                  ghost past: Run)
      returns (r: Outcome, class_: Option<int>, ghost past': Run, ghost steps: seq<Step>)
      requires State(past).Some? && Attached(t, past).Some? && t.Beside(big.va) && cpu < t.icc.ncpu && LutOk(lut)
      requires SuppliesOk(big.va, supplies) && KeysClearFor(t, size, past)
      modifies big.va.Repr, big.table, big.table.table
      modifies t`pending, t`index, t.batches, t.tls, t.icc, t.mem, t.slabs
      ensures State(past').Some? && Attached(t, past').Some? && t.Beside(big.va) && big.Extended()
      ensures ClassOf(size, class_)
      ensures Acts(t.Config(), Where(past), old(t.Now()), steps, Where(past'), t.Now())
      ensures Dealt(past, past', r, class_, size, z)
      ensures FateOf(r) == old(RequestFate(t, size, class_, supplies, protectOk, past))
      ensures r.NoSpace? ==> Declined(t, size, class_, old(OutlookOf(size, supplies)), past')
    {
      if size > MAX_REQUEST {
        Rests(t, Where(past));
        return NoSpace, None, past, [];
      }
      class_ := ClassFor(size, lut);
      r, past', steps := MallocClass(t, size, class_, cpu, supplies, protectOk, past);
    }

    /** Give back a big block. The thread is not concerned. */
    method FreeLarge(ghost t: SlabThread, h: nat, ghost past: Run) returns (ghost past': Run, ghost steps: seq<Step>)
      requires State(past).Some? && Attached(t, past).Some? && t.Beside(big.va) && h in Last(past).books.table
      modifies big.va.Repr, big.table, big.table.table
      ensures State(past').Some? && Attached(t, past').Some? && big.Extended() && Where(past') == Where(past)
      ensures Last(past').books.table == Last(past).books.table - {h}
      ensures Acts(t.Config(), Where(past), old(t.Now()), steps, Where(past'), t.Now())
    {
      LedSound(past, h, z);
      ghost var books := DropBeside(big, t, h, Where(past), Last(past).books);
      past' := NoteBig(past, BigHeaps.DropBlock(h), books, z);
      steps := [];
    }

    /** A user gives back the block at `b`, which has `class_` in its header. They keep all the others. */
    method Free(t: SlabThread, b: nat, class_: Option<int>, cpu: nat, ghost past: Run)
      returns (ghost past': Run, ghost steps: seq<Step>)
      requires State(past).Some? && Attached(t, past).Some? && t.Beside(big.va) && cpu < t.icc.ncpu
      requires Grants(Last(past), b, class_, 0, z)
      modifies big.va.Repr, big.table, big.table.table, t.tls, t.icc, t.mem
      ensures State(past').Some? && Attached(t, past').Some? && big.Extended()
      ensures Acts(t.Config(), Where(past), old(t.Now()), steps, Where(past'), t.Now())
      ensures Last(past').books.table ==
        if class_.None? then Last(past).books.table - {b} else Last(past).books.table
      ensures forall x :: x in At(Where(past').at, Out) <==> x in At(Where(past).at, Out) && (x != b || class_.None?)
    {
      if class_.Some? {
        past', steps := FreeSlab(t, b, class_.value, cpu, past);
        WithoutIs(At(Where(past).at, Out), [b]);
      } else {
        past', steps := FreeLarge(t, b, past);
      }
    }

    /** Whenever the allocator is in order, nothing that exists shares a byte with anything else. */
    lemma NothingSharedNow(past: Run, x: Thing, x': Thing)
      requires State(past).Some? && Exists(Last(past), x, z) && Exists(Last(past), x', z) && x != x'
      ensures ApartIn(Last(past), x, x', z)
    {
      NothingShared(past, Last(past), z);
    }

    // ---------------------------------------------------------------- several threads

    /** A thread starts, with a key that no block there is has for its address. */
    method Spawn(a: SlabThread, id: nat, key: nat, ghost past: Run) returns (b: SlabThread)
      requires State(past).Some? && Attached(a, past).Some? && a.Beside(big.va)
      requires forall k :: 0 <= k < |Where(past).slabs| ==>
        KeysApart(Where(past).slabs[k], z.y, CodeFor(a.tls.hardened, key), a.icc.code)
      requires At(Where(past).at, Hand(id)) == [] && forall c: Class :: At(Where(past).at, Bin(id, c)) == []
      requires forall k :: 0 <= k < |Where(past).slabs| ==> !Unfinished(id, Where(past).slabs[k], z.y)
      ensures Attached(b, past).Some? && b.Beside(big.va) && fresh(b) && fresh(b.tls) && b.id == id
      ensures b.tls.code == CodeFor(a.tls.hardened, key)
      ensures b.mem == a.mem && b.icc == a.icc && b.slabs == a.slabs && b.batches == a.batches
    {
      var code := CodeFor(a.tls.hardened, key);
      var engine := new ThreadLocalEngine(a.mem, code, a.tls.hardened);
      RunKeepsWhole(past, |past.moves|, z);
      b := new SlabThread(id, z.y, engine, a.icc, a.slabs, a.batches, Where(past));
    }
  }

  // ------------------------------------------------------------------ a process

  /** Nothing has happened yet. */
  const BEGINNING := Run([NOTHING], [])

  /** A process starts: the allocator and its first thread. */
  method Start(maxReservation: int, ghost space: iset<int>, hash: Hash, hs: nat, hardened: bool, key: nat,
               numaKey: nat, ncpu: nat)
    returns (heap: Allocator, t: SlabThread)
    requires Chunky(maxReservation) && HeaderSize(hs)
    ensures heap.State(BEGINNING).Some? && heap.z.hs == hs && heap.Attached(t, BEGINNING).Some?
    ensures heap.big.va.arena == space && heap.big.va.reserver.maxReservation == maxReservation
    ensures t.Beside(heap.big.va) && t.id == 0 && t.icc.ncpu == ncpu && t.tls.hardened == hardened
    ensures t.tls.code == CodeFor(hardened, key) && t.icc.code == CodeFor(hardened, numaKey)
    ensures fresh(heap) && fresh(heap.big) && fresh(heap.big.va.Repr) && fresh(heap.big.table)
    ensures fresh(heap.big.table.table)
    ensures fresh(t) && fresh(t.tls) && fresh(t.icc) && fresh(t.mem) && fresh(t.slabs) && fresh(t.batches)
  {
    var y := BuildTables(hs);
    heap := Found(maxReservation, space, hash, Build(y, hs));
    t := Boot(y, hardened, key, numaKey, ncpu);
  }

  /** A new allocator, which has nothing yet. */
  method Found(maxReservation: int, ghost space: iset<int>, hash: Hash, z: Build) returns (heap: Allocator)
    requires Chunky(maxReservation) && BuildOk(z)
    ensures heap.State(BEGINNING).Some? && heap.z == z
    ensures heap.big.va.arena == space && heap.big.va.reserver.maxReservation == maxReservation
    ensures fresh(heap) && fresh(heap.big) && fresh(heap.big.va.Repr) && fresh(heap.big.table)
    ensures fresh(heap.big.table.table)
  {
    var big := new BigHeaps.BigHeap(maxReservation, space, hash, z.hs);
    heap := new Allocator(big, z);
  }

  /** Two big blocks are made, one after the other, and the second one is given back. */
  method BigTwice(heap: Allocator, x: Supply, x': Supply, ghost past: Run)
    returns (r: Outcome, s: Outcome, ghost past': Run)
    requires heap.State(past).Some? && SupplyOk(heap.big.va, x) && SupplyOk(heap.big.va, x')
    modifies heap.big.va.Repr, heap.big.table, heap.big.table.table
    ensures heap.State(past').Some? && Dealt(past, past', r, None, 3000000, heap.z)
  {
    ghost var mid;
    r, mid := heap.MallocBig(3000000, x, true, past);
    s, past' := BigOnce(heap, 5000000, x', mid);
    DealtStays(past, mid, past', r, 3000000, heap.z);
  }

  /** A big block that was dealt stays with its user as long as the table does not change. */
  lemma DealtStays(past: Run, mid: Run, past': Run, r: Outcome, size: nat, z: Build)
    requires Dealt(past, mid, r, None, size, z)
    requires Where(past') == Where(mid) && Last(past').books.table == Last(mid).books.table
    ensures Dealt(past, past', r, None, size, z)
  {
  }

  /** A big block is made and given back. */
  method BigOnce(heap: Allocator, size: nat, x: Supply, ghost past: Run) returns (r: Outcome, ghost past': Run)
    requires heap.State(past).Some? && BigSize(size) && size <= MAX_REQUEST && SupplyOk(heap.big.va, x)
    modifies heap.big.va.Repr, heap.big.table, heap.big.table.table
    ensures heap.State(past').Some? && Where(past') == Where(past)
    ensures Last(past').books.table == Last(past).books.table
  {
    r, past' := heap.MallocBig(size, x, true, past);
    if r.Address? {
      ghost var mid := past';
      past' := heap.FreeBig(r.addr - heap.z.hs, mid);
      TableBack(past, mid, past', r.addr - heap.z.hs, size);
    }
  }

  /** A block that was entered and taken out again leaves the table as it was. */
  lemma TableBack(past: Run, mid: Run, past': Run, h: nat, size: nat)
    requires TableGrew(past, mid, h, size) && Last(past').books.table == Last(mid).books.table - {h}
    ensures Last(past').books.table == Last(past).books.table
  {
  }

  /** Two threads of one process. */
  ghost predicate Partners(heap: Allocator, a: SlabThread, b: SlabThread)
    reads heap.big, heap.big.va
  {
    a.Beside(heap.big.va) && b.Beside(heap.big.va) && 0 < a.icc.ncpu && Share(a, b)
  }

  /** No key of a thread is an address that the kernel may hand out. */
  ghost predicate Keyed(heap: Allocator, t: SlabThread) {
    Keyless(t.tls.code, heap.big.va.arena) && Keyless(t.icc.code, heap.big.va.arena)
  }

  /** Thread `a` allocates a slab block while `b` is at rest. */
  method AllocateBeside(heap: Allocator, a: SlabThread, ghost b: SlabThread, c: Class, supplies: seq<Supply>,
                        ghost past: Run)
    returns (r: Outcome, ghost past': Run)
    requires heap.State(past).Some? && heap.Attached(a, past).Some? && heap.Attached(b, past).Some?
    requires Partners(heap, a, b) && Keyed(heap, a) && Keyed(heap, b) && SuppliesOk(heap.big.va, supplies)
    modifies heap.big.va.Repr, a`pending, a`index, a.batches, a.tls, a.icc, a.mem, a.slabs
    ensures heap.State(past').Some? && heap.Attached(a, past').Some? && heap.Attached(b, past').Some?
    ensures Partners(heap, a, b) && heap.big.Extended()
    ensures HandedOut(a.id, Where(past), Where(past'), r, c, heap.z.y)
    ensures Last(past').books.table == Last(past).books.table
  {
    ghost var steps, v, bins := [], b.Memories(), b.Lists();
    CalmNow(b, Where(past));
    KeylessSpares(a.Config(), c, heap.big.va.used, heap.big.va.arena);
    r, past', steps := heap.MallocSlab(a, c, 0, supplies, past);
    KeysClearOf(heap.big.va, past', b.tls.code, b.icc.code, heap.z);
    StillAtRest(a, b, v, bins, Where(past), Where(past'), steps);
  }

  /** Thread `a` frees a slab block, whoever allocated it, while `b` is at rest. */
  method FreeBeside(heap: Allocator, a: SlabThread, ghost b: SlabThread, block: nat, c: Class, ghost past: Run)
    returns (ghost past': Run)
    requires heap.State(past).Some? && heap.Attached(a, past).Some? && heap.Attached(b, past).Some?
    requires Partners(heap, a, b) && Grants(Last(past), block, Some(c), 0, heap.z)
    modifies a.tls, a.icc, a.mem
    ensures heap.State(past').Some? && heap.Attached(a, past').Some? && heap.Attached(b, past').Some?
    ensures Partners(heap, a, b) && Last(past').books.table == Last(past).books.table
    ensures At(Where(past').at, Out) == Without(At(Where(past).at, Out), [block])
  {
    ghost var steps, v, bins := [], b.Memories(), b.Lists();
    CalmNow(b, Where(past));
    past', steps := heap.FreeSlab(a, block, c, 0, past);
    KeysStay(b.Config(), Where(past), v, a.Config(), HeapOf(v), steps, Where(past'), a.Now());
    StillAtRest(a, b, v, bins, Where(past), Where(past'), steps);
  }

  /** Users have the same blocks. */
  ghost predicate SameUsers(past: Run, past': Run) {
    && Last(past').books.table == Last(past).books.table
    && forall x :: x in At(Where(past').at, Out) <==> x in At(Where(past).at, Out)
  }

  /** A block that was added to those in use was not in use, so taking it away leaves the same ones. */
  lemma FrontIsNew(past: Run, past': Run, b: nat, z: Build)
    requires Led(past', z).Some? && At(Where(past').at, Out) == [b] + At(Where(past).at, Out)
    ensures forall x :: x in Without(At(Where(past').at, Out), [b]) <==> x in At(Where(past).at, Out)
  {
    RunKeepsWhole(past', |past'.moves|, z);
    var all := At(Where(past').at, Out);
    assert Distinct(all) && all[0] == b;
    WithoutIs(all, [b]);
    assert forall i :: 0 <= i < |At(Where(past).at, Out)| ==> At(Where(past).at, Out)[i] == all[i + 1];
  }

  /** Thread `a` allocates, and `b` frees what it allocated. */
  method HandOver(heap: Allocator, a: SlabThread, b: SlabThread, c: Class, supplies: seq<Supply>, ghost past: Run)
    returns (ghost past': Run)
    requires heap.State(past).Some? && heap.Attached(a, past).Some? && heap.Attached(b, past).Some?
    requires Partners(heap, a, b) && Keyed(heap, a) && Keyed(heap, b) && SuppliesOk(heap.big.va, supplies)
    modifies heap.big.va.Repr, a`pending, a`index, a.batches, a.tls, b.tls, a.icc, a.mem, a.slabs
    ensures heap.State(past').Some? && heap.Attached(a, past').Some? && heap.Attached(b, past').Some?
    ensures Partners(heap, a, b) && SameUsers(past, past')
  {
    var r;
    r, past' := AllocateBeside(heap, a, b, c, supplies, past);
    if r.Address? {
      FrontIsNew(past, past', r.addr, heap.z);
      past' := FreeBeside(heap, b, a, r.addr, c, past');
    }
  }

  /** A process starts, and its first thread starts another one. */
  method StartTwo(maxReservation: int, ghost space: iset<int>, hash: Hash, hs: nat, hardened: bool, keys: seq<nat>,
                  ncpu: nat)
    returns (heap: Allocator, a: SlabThread, b: SlabThread)
    requires Chunky(maxReservation) && HeaderSize(hs) && 0 < ncpu && |keys| == 3
    ensures heap.State(BEGINNING).Some? && heap.Attached(a, BEGINNING).Some? && heap.Attached(b, BEGINNING).Some?
    ensures Partners(heap, a, b)
    ensures heap.big.va.arena == space && heap.big.va.reserver.maxReservation == maxReservation
    ensures a.tls.code == CodeFor(hardened, keys[0]) && b.tls.code == CodeFor(hardened, keys[1])
    ensures a.icc.code == CodeFor(hardened, keys[2])
    ensures fresh(heap) && fresh(heap.big) && fresh(heap.big.va.Repr) && fresh({a, a.tls, b, b.tls})
    ensures fresh({a.icc, a.mem, a.slabs, a.batches})
  {
    heap, a := Start(maxReservation, space, hash, hs, hardened, keys[0], keys[2], ncpu);
    b := heap.Spawn(a, 1, keys[1], BEGINNING);
  }

  /** The answers of the kernel to one request: every mapping of up to `max` bytes lies in `space`. */
  ghost predicate Truthful(x: Supply, max: int, space: iset<int>) {
    && KernelOk(x.first.probe) && Within(x.first.probe, max, space)
    && KernelsOk(x.kernel) && forall i :: Within(x.kernel(i).probe, max, space)
  }

  /** Boot, allocate, free, exit: from the start of a process on, every call finds what it needs. In the hardened
      build no key may be an aligned address in what the kernel hands out. */
  method Session(maxReservation: int, ghost space: iset<int>, hash: Hash, hs: nat, hardened: bool, keys: seq<nat>,
                 ncpu: nat, supplies: seq<Supply>)
    returns (heap: Allocator, ghost past: Run)
    requires Chunky(maxReservation) && HeaderSize(hs) && 0 < ncpu && |keys| == |supplies| == 3
    requires forall i :: 0 <= i < 3 ==> Truthful(supplies[i], maxReservation, space)
    requires hardened ==> forall i :: 0 <= i < 3 ==> keys[i] == 0 || keys[i] % 16 != 0 || keys[i] !in space
    ensures heap.State(past).Some? && Last(past).books.table == map[] && At(Where(past).at, Out) == []
  {
    var a, b;
    heap, a, b := StartTwo(maxReservation, space, hash, hs, hardened, keys, ncpu);
    CodeKeyless(hardened, keys[0], space);
    CodeKeyless(hardened, keys[1], space);
    CodeKeyless(hardened, keys[2], space);
    past := HandOver(heap, a, b, 6, supplies, BEGINNING);
    GTrims.SomeElement(At(Where(past).at, Out));
    ghost var steps;
    past, steps := heap.Exit(a, 0, past);
  }
}
