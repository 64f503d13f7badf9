/** Aligned allocation on top of the allocator: what `Memaligns` expects of `malloc` is what `Malloc` promises. */
module AlignedAllocs {
  import opened Wrappers
  import opened Words
  import opened Segments
  import opened VaBitmaps
  import opened SizeClasses
  import opened Carving
  import opened SlabLife
  import opened SlabPages
  import opened SlabThreads
  import opened WholeHeap
  import opened Allocators
  import BigHeaps
  import opened Reservations
  import M = Memaligns

  /** What `malloc` returned for `total` bytes, and the bytes its user may use: those of the class, or as many as were
      asked for. */
  function RawOf(a: Outcome, class_: Option<int>, total: nat): M.Raw
    requires class_.Some? ==> 0 <= class_.value < NUM_SIZE_CLASSES
  {
    match a
    case Address(addr) =>
      if addr < 0 then M.Null
      else M.Block(addr, match class_ case None => total case Some(c) => ClassBytes(c))
    case _ => M.Null
  }

  /** The addresses that belong to the allocator. */
  ghost function Ours(heap: Allocator): iset<int>
    reads heap.big.va
  {
    iset a: int | heap.big.va.Ours(a)
  }

  /** Of a block that is dealt, all usable bytes are the user's. */
  lemma RawIsGranted(past: Run, past': Run, a: Outcome, class_: Option<int>, total: nat, z: Build)
    requires Dealt(past, past', a, class_, total, z) && ClassOf(total, class_) && 0 < total && a.Address?
    ensures
      var raw := RawOf(a, class_, total);
      && raw.Block? && raw.addr == a.addr && z.hs < raw.addr && total <= raw.usable
      && Grants(Last(past'), raw.addr - z.hs, class_, raw.usable, z)
  {
  }

  /** A byte that a user has is in the address space and one of ours. */
  lemma ByteInPlace(va: VaBitmap, past: Run, b: nat, class_: Option<int>, size: nat, a: int, z: Build)
    requires va.Valid() && Led(past, z).Some? && Last(past).books.used == va.used
    requires Grants(Last(past), b, class_, size, z) && b <= a < b + z.hs + size
    ensures b % 16 == 0 && a < TOP && va.Ours(a)
  {
    GrantOnPages(past, Last(past), b, class_, size, a, z);
    UsedInArena(va, a);
  }

  /** An aligned block below the top of the address space serves. */
  lemma IsServed(b: nat, hs: nat, raw: M.Raw, total: nat)
    requires b % 16 == 0 && HeaderSize(hs) && raw.Block? && raw.addr == b + hs
    requires 0 < total <= raw.usable && raw.addr + raw.usable - 1 < TOP
    ensures M.Serves(raw, total)
  {
  }

  /** A block was obtained that aligned allocation can use, or none. */
  ghost predicate Obtained(heap: Allocator, past: Run, past': Run, a: Outcome, class_: Option<int>, total: nat,
                           raw: M.Raw)
    reads heap.big.va
  {
    match raw
    case Null => !a.Address?
    case Block(addr, usable) =>
      && a == Address(addr) && M.Serves(raw, total) && addr in Ours(heap)
      && Dealt(past, past', a, class_, total, heap.z)
      && Grants(Last(past'), addr - heap.z.hs, class_, usable, heap.z)
  }

  /** A block that is dealt is one that aligned allocation can use: 16-aligned, large enough, in the address space and
      one of ours. */
  lemma DealtServes(heap: Allocator, past: Run, past': Run, a: Outcome, class_: Option<int>, total: nat)
    requires heap.State(past').Some? && ClassOf(total, class_) && 0 < total
    requires Dealt(past, past', a, class_, total, heap.z)
    ensures Obtained(heap, past, past', a, class_, total, RawOf(a, class_, total))
  {
    heap.InOrder(past');
    if a.Address? {
      RawServes(heap.big.va, past, past', a, class_, total, heap.z);
    }
  }

  lemma RawServes(va: VaBitmap, past: Run, past': Run, a: Outcome, class_: Option<int>, total: nat, z: Build)
    requires va.Valid() && Led(past', z).Some? && Last(past').books.used == va.used
    requires Dealt(past, past', a, class_, total, z) && ClassOf(total, class_) && 0 < total && a.Address?
    ensures
      var raw := RawOf(a, class_, total);
      && raw.Block? && M.Serves(raw, total) && raw.addr == a.addr && va.Ours(raw.addr)
      && Grants(Last(past'), raw.addr - z.hs, class_, raw.usable, z)
  {
    var raw := RawOf(a, class_, total);
    RawIsGranted(past, past', a, class_, total, z);
    var b := raw.addr - z.hs;
    ByteInPlace(va, past', b, class_, raw.usable, raw.addr, z);
    ByteInPlace(va, past', b, class_, raw.usable, raw.addr + raw.usable - 1, z);
    IsServed(b, z.hs, raw, total);
  }

  /** Whatever size is asked for, no key of the thread gets in the way. */
  lemma KeyedClear(heap: Allocator, t: SlabThread, size: nat, past: Run)
    requires heap.State(past).Some? && heap.Attached(t, past).Some? && Keyed(heap, t)
    ensures heap.KeysClearFor(t, size, past)
  {
    forall c: Class
      ensures heap.KeysClear(t, c, past)
    {
      KeylessSpares(t.Config(), c, heap.big.va.used, heap.big.va.arena);
    }
  }

  /** A request that was refused leaves users with what they had. */
  lemma DealtAfter(past: Run, mid: Run, past': Run, a: Outcome, class_: Option<int>, class_': Option<int>, size: nat,
                   z: Build)
    requires Dealt(past, mid, NoSpace, class_, size, z) && Dealt(mid, past', a, class_', size, z)
    ensures Dealt(past, past', a, class_', size, z)
  {
  }

  /** Ask for memory. */
  method OneTry(heap: Allocator, t: SlabThread, size: nat, lut: seq<int>, cpu: nat, supplies: seq<Supply>,
                protectOk: bool, ghost past: Run)
    returns (a: Outcome, class_: Option<int>, ghost past': Run)
    requires heap.State(past).Some? && heap.Attached(t, past).Some? && t.Beside(heap.big.va) && cpu < t.icc.ncpu
    requires Keyed(heap, t) && LutOk(lut) && SuppliesOk(heap.big.va, supplies)
    modifies heap.big.va.Repr, heap.big.table, heap.big.table.table
    modifies t`pending, t`index, t.batches, t.tls, t.icc, t.mem, t.slabs
    ensures heap.State(past').Some? && heap.Attached(t, past').Some? && t.Beside(heap.big.va) && heap.big.Extended()
    ensures ClassOf(size, class_) && Dealt(past, past', a, class_, size, heap.z)
    ensures FateOf(a) == old(heap.RequestFate(t, size, class_, supplies, protectOk, past))
    ensures a.NoSpace? ==> heap.Declined(t, size, class_, old(heap.OutlookOf(size, supplies)), past')
  {
    ghost var steps;
    KeyedClear(heap, t, size, past);
    a, class_, past', steps := heap.Malloc(t, size, lut, cpu, supplies, protectOk, past);
  }

  /** Ask for memory after a request that was refused. */
  method TryAgain(heap: Allocator, t: SlabThread, size: nat, lut: seq<int>, cpu: nat, supplies: seq<Supply>,
                  protectOk: bool, ghost class0: Option<int>, ghost o: BigHeaps.Outlook, ghost past: Run)
    returns (a: Outcome, class_: Option<int>, ghost past': Run)
    requires heap.State(past).Some? && heap.Attached(t, past).Some? && t.Beside(heap.big.va) && cpu < t.icc.ncpu
    requires Keyed(heap, t) && LutOk(lut) && SuppliesOk(heap.big.va, supplies) && ClassOf(size, class0)
    requires MemoOk(o.memo, heap.big.va.reserver.maxReservation) && heap.Declined(t, size, class0, o, past)
    modifies heap.big.va.Repr, heap.big.table, heap.big.table.table
    modifies t`pending, t`index, t.batches, t.tls, t.icc, t.mem, t.slabs
    ensures heap.State(past').Some? && heap.Attached(t, past').Some? && heap.big.Extended()
    ensures class_ == class0 && Dealt(past, past', a, class_, size, heap.z)
    ensures FateOf(a) == old(heap.SecondFate(size, class0, o, supplies, protectOk))
  {
    heap.SecondIs(t, size, class0, o, supplies, protectOk, past);
    a, class_, past' := OneTry(heap, t, size, lut, cpu, supplies, protectOk, past);
    ClassUnique(size, class0, class_);
  }

  /** Ask for memory, and once more if none is granted: the request fails only if it is refused twice. The bitmap takes
      up none of `others`. */
  method TwoTries(heap: Allocator, t: SlabThread, size: nat, lut: seq<int>, cpu: nat, first: seq<Supply>,
                  second: seq<Supply>, protectOk: bool, ghost past: Run, ghost others: set<object>)
    returns (a: Outcome, class_: Option<int>, ghost past': Run)
    requires heap.State(past).Some? && heap.Attached(t, past).Some? && t.Beside(heap.big.va) && cpu < t.icc.ncpu
    requires others !! heap.big.va.Repr && Keyed(heap, t) && LutOk(lut)
    requires SuppliesOk(heap.big.va, first) && SuppliesOk(heap.big.va, second)
    modifies heap.big.va.Repr, heap.big.table, heap.big.table.table
    modifies t`pending, t`index, t.batches, t.tls, t.icc, t.mem, t.slabs
    ensures heap.State(past').Some? && heap.Attached(t, past').Some?
    ensures others !! heap.big.va.Repr
    ensures ClassOf(size, class_) && Dealt(past, past', a, class_, size, heap.z)
    ensures FateOf(a) == old(heap.TwiceFate(t, size, class_, first, second, protectOk, past))
  {
    ghost var outlook := heap.OutlookOf(size, first);
    a, class_, past' := OneTry(heap, t, size, lut, cpu, first, protectOk, past);
    if !a.NoSpace? {
      return;
    }
    ghost var mid, class0 := past', class_;
    a, class_, past' := TryAgain(heap, t, size, lut, cpu, second, protectOk, class0, outlook, mid);
    DealtAfter(past, mid, past', a, class0, class_, size, heap.z);
  }

  /** An aligned address in a block that its user has. */
  ghost predicate PlacedIn(w: Whole, raw: M.Raw, class_: Option<int>, ptr: nat, alignment: nat, size: nat, z: Build) {
    M.Fits(raw, ptr, alignment, size) && Grants(w, raw.addr - z.hs, class_, raw.usable, z)
  }

  /** Write the two words in front of an aligned address in a block. Nothing else changes. */
  method PlaceBeside(ghost heap: Allocator, words: M.Words, ghost t: SlabThread, alignment: nat, size: nat, got: M.Raw)
    returns (r: M.Result)
    requires words !in heap.big.va.Repr && 8 <= alignment && M.IsPowerOfTwo(alignment)
    requires size + alignment + M.TAG_SIZE <= M.USIZE_MAX
    requires M.Serves(got, size + alignment + M.TAG_SIZE) && (got.Block? ==> got.addr in Ours(heap))
    modifies words
    ensures unchanged(heap.big, heap.big.va, heap.big.va.Repr, heap.big.table, heap.big.table.table)
    ensures unchanged(t, t.tls, t.icc, t.mem, t.slabs, t.tls.mem, t.icc.mem, t.batches)
    ensures Written(heap, got, r, alignment, size, old(words.word), words.word)
  {
    ghost var raw;
    r, raw := words.PosixMemalign(false, alignment, size, got, M.Null, Ours(heap));
    assert r.Failed? ==> r.error == M.Einval || r.error == M.Nomem;
  }

  /** What was written for a block: nothing if there is none. */
  ghost predicate Written(heap: Allocator, got: M.Raw, r: M.Result, alignment: nat, size: nat, word: map<nat, nat>,
                          word': map<nat, nat>)
    reads heap.big.va
  {
    match got
    case Null => r == M.Failed(M.Nomem) && word' == word
    case Block(addr, usable) =>
      && r.Placed? && M.Fits(got, r.ptr, alignment, size) && word' == M.Tagged(word, r.ptr, addr)
      && M.Recover(word', r.ptr, Ours(heap)) == addr && size <= M.UsableSize(word', r.ptr, Ours(heap), usable)
  }

  /** The same. The allocator stays in order. */
  method Place(heap: Allocator, words: M.Words, ghost t: SlabThread, alignment: nat, size: nat, got: M.Raw,
               ghost past: Run)
    returns (r: M.Result)
    requires heap.State(past).Some? && heap.Attached(t, past).Some? && words !in heap.big.va.Repr
    requires 8 <= alignment && M.IsPowerOfTwo(alignment) && size + alignment + M.TAG_SIZE <= M.USIZE_MAX
    requires M.Serves(got, size + alignment + M.TAG_SIZE) && (got.Block? ==> got.addr in Ours(heap))
    modifies words
    ensures heap.State(past).Some? && heap.Attached(t, past).Some?
    ensures Written(heap, got, r, alignment, size, old(words.word), words.word)
  {
    r := PlaceBeside(heap, words, t, alignment, size, got);
  }

  /** Aligned allocation succeeds if the request for memory is granted, fails for lack of memory if it is refused, and
      dies with it. */
  ghost predicate Delivers(r: Option<M.Result>, fate: Fate) {
    match fate
    case Granted => r.Some? && r.value.Placed?
    case Denied => r == Some(M.Failed(M.Nomem))
    case Deadly => r.None?
  }

  /** Aligned allocation of a size and an alignment that are in order. There is no result if the process dies. */
  method PlaceAligned(heap: Allocator, words: M.Words, t: SlabThread, alignment: nat, size: nat, lut: seq<int>,
                      cpu: nat, first: seq<Supply>, second: seq<Supply>, protectOk: bool, ghost past: Run)
    returns (r: Option<M.Result>, ghost raw: M.Raw, ghost class_: Option<int>, ghost past': Run)
    requires heap.State(past).Some? && heap.Attached(t, past).Some? && t.Beside(heap.big.va) && cpu < t.icc.ncpu
    requires Keyed(heap, t) && LutOk(lut) && SuppliesOk(heap.big.va, first) && SuppliesOk(heap.big.va, second)
    requires words !in heap.big.va.Repr
    requires 8 <= alignment && M.IsPowerOfTwo(alignment) && size + alignment + M.TAG_SIZE <= M.USIZE_MAX
    modifies words, heap.big.va.Repr, heap.big.table, heap.big.table.table
    modifies t`pending, t`index, t.batches, t.tls, t.icc, t.mem, t.slabs
    ensures heap.State(past').Some? && heap.Attached(t, past').Some?
    ensures
      var total := size + alignment + M.TAG_SIZE;
      ClassOf(total, class_)
      && Delivers(r, old(heap.TwiceFate(t, total, class_, first, second, protectOk, past)))
    ensures !(r.Some? && r.value.Placed?) ==> words.word == old(words.word)
    ensures r.Some? && r.value.Placed? ==>
      Aligned(heap, past, past', raw, class_, r.value.ptr, alignment, size, old(words.word), words.word)
  {
    var total := size + alignment + M.TAG_SIZE;
    var a, c, got;
    a, c, got, past' := Obtain(heap, words, t, total, lut, cpu, first, second, protectOk, past);
    raw, class_ := got, c;
    if a.Abort? {
      return None, raw, class_, past';
    }
    var res := Place(heap, words, t, alignment, size, got, past');
    r := Some(res);
  }

  /** Get a block for aligned allocation. */
  method Obtain(heap: Allocator, ghost words: M.Words, t: SlabThread, total: nat, lut: seq<int>, cpu: nat,
                first: seq<Supply>, second: seq<Supply>, protectOk: bool, ghost past: Run)
    returns (a: Outcome, class_: Option<int>, raw: M.Raw, ghost past': Run)
    requires heap.State(past).Some? && heap.Attached(t, past).Some? && t.Beside(heap.big.va) && cpu < t.icc.ncpu
    requires Keyed(heap, t) && LutOk(lut) && SuppliesOk(heap.big.va, first) && SuppliesOk(heap.big.va, second)
    requires words !in heap.big.va.Repr && 0 < total
    modifies heap.big.va.Repr, heap.big.table, heap.big.table.table
    modifies t`pending, t`index, t.batches, t.tls, t.icc, t.mem, t.slabs
    ensures heap.State(past').Some? && heap.Attached(t, past').Some? && words !in heap.big.va.Repr
    ensures unchanged(words) && Obtained(heap, past, past', a, class_, total, raw) && ClassOf(total, class_)
    ensures FateOf(a) == old(heap.TwiceFate(t, total, class_, first, second, protectOk, past))
  {
    a, class_, past' := TwoTries(heap, t, total, lut, cpu, first, second, protectOk, past, {words});
    DealtServes(heap, past, past', a, class_, total);
    raw := RawOf(a, class_, total);
  }

  /** `ptr` is aligned and has `size` bytes in a block that its user did not have before, and leads back to that block:
      memory is as it was but for the two words in front of `ptr`. */
  ghost predicate Aligned(heap: Allocator, past: Run, past': Run, raw: M.Raw, class_: Option<int>, ptr: nat,
                          alignment: nat, size: nat, word: map<nat, nat>, word': map<nat, nat>)
    reads heap.big.va
  {
    && PlacedIn(Last(past'), raw, class_, ptr, alignment, size, heap.z)
    && Dealt(past, past', Address(raw.addr), class_, size + alignment + M.TAG_SIZE, heap.z)
    && M.TAG_SIZE <= ptr && word' == M.Tagged(word, ptr, raw.addr)
    && M.Recover(word', ptr, Ours(heap)) == raw.addr && size <= M.UsableSize(word', ptr, Ours(heap), raw.usable)
  }

  /** Aligned allocation. There is no result if the process dies. If the arguments are in order, what comes of it is
      what becomes of a request for the size, the alignment and the two words that is made again if it is refused. */
  method PosixMemalign(heap: Allocator, words: M.Words, t: SlabThread, memptrNull: bool, alignment: nat, size: nat,
                       lut: seq<int>, cpu: nat, first: seq<Supply>, second: seq<Supply>, protectOk: bool,
                       ghost past: Run)
    returns (r: Option<M.Result>, ghost raw: M.Raw, ghost class_: Option<int>, ghost past': Run)
    requires heap.State(past).Some? && heap.Attached(t, past).Some? && t.Beside(heap.big.va) && cpu < t.icc.ncpu
    requires Keyed(heap, t) && LutOk(lut) && SuppliesOk(heap.big.va, first) && SuppliesOk(heap.big.va, second)
    requires alignment <= M.USIZE_MAX && size <= M.USIZE_MAX && words !in heap.big.va.Repr
    modifies words, heap.big.va.Repr, heap.big.table, heap.big.table.table
    modifies t`pending, t`index, t.batches, t.tls, t.icc, t.mem, t.slabs
    ensures heap.State(past').Some? && heap.Attached(t, past').Some?
    ensures r == Some(M.Failed(M.Einval)) <==> memptrNull || alignment < 8 || !M.IsPowerOfTwo(alignment)
    ensures r != Some(M.Failed(M.Einval)) && size + alignment + M.TAG_SIZE > M.USIZE_MAX ==>
      r == Some(M.Failed(M.Nomem))
    ensures r == Some(M.Failed(M.Einval)) || size + alignment + M.TAG_SIZE > M.USIZE_MAX ==> past' == past
    ensures
      var total := size + alignment + M.TAG_SIZE;
      !(memptrNull || alignment < 8 || !M.IsPowerOfTwo(alignment) || total > M.USIZE_MAX) ==>
        ClassOf(total, class_)
        && Delivers(r, old(heap.TwiceFate(t, total, class_, first, second, protectOk, past)))
    ensures !(r.Some? && r.value.Placed?) ==> words.word == old(words.word)
    ensures r.Some? && r.value.Placed? ==>
      Aligned(heap, past, past', raw, class_, r.value.ptr, alignment, size, old(words.word), words.word)
  {
    raw, class_, past' := M.Null, None, past;
    if memptrNull || alignment < 8 || !M.IsPowerOfTwo(alignment) {
      return Some(M.Failed(M.Einval)), raw, class_, past';
    }
    if size + alignment + M.TAG_SIZE > M.USIZE_MAX {
      return Some(M.Failed(M.Nomem)), raw, class_, past';
    }
    r, raw, class_, past' := PlaceAligned(heap, words, t, alignment, size, lut, cpu, first, second, protectOk, past);
  }
}
