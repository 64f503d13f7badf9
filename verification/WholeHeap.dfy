/** The whole allocator: big blocks and slab blocks over one bitmap of pages.

    A state is what the books say about pages and big blocks, and where the slab blocks are. New slabs are put on
    pages that were free in the bitmap; nothing else is asked of their addresses. Whatever happens, nothing that
    is alive shares a byte with anything else. */
module WholeHeap {
  import opened Wrappers
  import opened Words
  import opened Segments
  import opened VaBitmaps
  import opened BigAllocMaps
  import opened SizeClasses
  import opened Carving
  import opened SlabLife
  import opened SlabPages
  import BigHeaps

  datatype Whole = Whole(books: BigHeaps.Ledger, life: Life)

  /** The tables of the allocator and the size of a header. */
  datatype Build = Build(y: Layout, hs: nat)

  ghost predicate BuildOk(z: Build) {
    HeaderSize(z.hs) && LayoutOk(z.y) && SizesAre(z.y.sizes, z.hs) && z.y.counts == ITERATIONS
  }

  lemma MulLe(a: nat, b: nat, m: nat, n: nat)
    requires a <= m && b <= n
    ensures a * b <= m * n
  {
    assert m * n == a * b + a * (n - b) + (m - a) * n;
  }

  /** Slabs are small: one chunk has room for any of them. */
  lemma SlabsAreSmall(c: Class, z: Build)
    requires BuildOk(z)
    ensures SlabBytes(c, z.y) <= 1024 * 1024 * 1024
  {
    TableShape();
    assert ITERATIONS[c] <= 409;
    MulLe(Capacity(c, z.y), Size(c, z.y), 409, MAX_SLAB_SIZE + 32);
  }

  // ------------------------------------------------------------------ moves

  /** What happens at once: something with a big block, a step of the slab allocator that makes no slab, a new
      slab, or a big block becoming a slab block. */
  datatype Move =
    | Big(action: BigHeaps.Action)
    | Small(step: Step)
    | NewPages(t: nat, c: Class, start: nat)
    | Demote(t: nat, c: Class, h: nat)

  /** The sizes that `malloc` makes big blocks for. */
  predicate BigSize(size: nat) {
    size == 0 || size > MAX_SLAB_SIZE
  }

  /** Blocks that stay big. */
  predicate StaysBig(a: BigHeaps.Action) {
    match a
    case Nothing => true
    case NewBlock(_, size) => BigSize(size)
    case DropBlock(_) => true
    case Resize(_, size, big) => big && size > MAX_SLAB_SIZE
    case Lend(_, _) => false
  }

  ghost predicate Happens(w: Whole, m: Move, w': Whole, z: Build)
    requires BuildOk(z)
  {
    match m
    case Big(a) => StaysBig(a) && w'.life == w.life && BigHeaps.Step(w.books, a, w'.books, z.hs)
    case Small(step) =>
      && !step.Map? && !step.Adopt? && Enabled(w.life, step, z.y)
      && w'.life == Apply(w.life, step, z.y) && w'.books == w.books
    case NewPages(t, c, start) =>
      && Lent(NewSlab(start, c, t), w.books.used, w'.books.used, z.y)
      && Keeps(w.books.segs, w'.books.segs) && w'.books.table == w.books.table
      && w'.books.slab == w.books.slab + PagesOfSlab(NewSlab(start, c, t), z.y)
      && w'.life == w.life.(slabs := w.life.slabs + [NewSlab(start, c, t)])
    case Demote(t, c, h) =>
      && Capacity(c, z.y) == 1 && h + ClassBytes(c) + z.hs <= TOP
      && BigHeaps.Step(w.books, BigHeaps.Resize(h, ClassBytes(c), false), w'.books, z.hs)
      && w'.life == Life(w.life.at[Out := [h] + At(w.life.at, Out)], w.life.slabs + [LoneBlock(h, c, t)])
  }

  // ------------------------------------------------------------------ what every move keeps

  ghost predicate Sized(table: map<nat, Meta>) {
    forall h :: h in table ==> BigSize(table[h].size)
  }

  /** Every slab begins at a page and lies within the reach of the index. */
  ghost predicate Paged(slabs: seq<Slab>, y: Layout) {
    forall k :: 0 <= k < |slabs| ==> slabs[k].start % BLOCK_SIZE == 0 && EndOf(slabs[k], y) <= TOP
  }

  /** The books are right, the slab blocks are where they should be, and the pages the books have for slabs are
      those of the slabs. */
  ghost predicate WholeInv(w: Whole, z: Build)
    requires BuildOk(z)
  {
    match w
    case Whole(books, life) =>
      && BigHeaps.Books(books, z.hs) && Inv(life, z.y)
      && books.slab == AllPages(life.slabs, z.y) && Paged(life.slabs, z.y) && Sized(books.table)
  }

  lemma SlabsBacked(w: Whole, z: Build)
    requires BuildOk(z) && WholeInv(w, z)
    ensures Backed(w.life.slabs, w.books.used, z.y)
  {
    forall k | 0 <= k < |w.life.slabs|
      ensures OnPages(w.life.slabs[k], w.books.used, z.y)
    {
      AllPagesBack(w.life.slabs, z.y, k);
    }
  }

  lemma BigKeepsWhole(w: Whole, m: Move, w': Whole, z: Build)
    requires BuildOk(z) && WholeInv(w, z) && Happens(w, m, w', z) && m.Big?
    ensures WholeInv(w', z)
  {
    BigHeaps.StepKeepsBooks(w.books, m.action, w'.books, z.hs);
  }

  lemma PagedSame(slabs: seq<Slab>, slabs': seq<Slab>, y: Layout)
    requires Paged(slabs, y) && |slabs| == |slabs'| && forall k :: 0 <= k < |slabs| ==> SameSpot(slabs[k], slabs'[k])
    ensures Paged(slabs', y)
  {
    forall k | 0 <= k < |slabs'|
      ensures EndOf(slabs'[k], y) == EndOf(slabs[k], y)
    {
      assert SameSpot(slabs[k], slabs'[k]);
    }
  }

  lemma SmallKeepsWhole(w: Whole, m: Move, w': Whole, z: Build)
    requires BuildOk(z) && WholeInv(w, z) && Happens(w, m, w', z) && m.Small?
    ensures WholeInv(w', z)
  {
    StepKeepsInv(w.life, m.step, z.y);
    AllPagesSame(w.life.slabs, w'.life.slabs, z.y);
    PagedSame(w.life.slabs, w'.life.slabs, z.y);
  }

  lemma NewPagesKeepsWhole(w: Whole, m: Move, w': Whole, z: Build)
    requires BuildOk(z) && WholeInv(w, z) && Happens(w, m, w', z) && m.NewPages?
    ensures Enabled(w.life, Map(m.t, m.c, m.start), z.y) && WholeInv(w', z)
  {
    var s := NewSlab(m.start, m.c, m.t);
    SlabsBacked(w, z);
    LentIsAddable(w.life.slabs, s, w.books.used, w'.books.used, z.y);
    MapKeepsInv(w.life, Map(m.t, m.c, m.start), z.y);
    AllPagesAdd(w.life.slabs, s, z.y);
    var p, n := s.start / BLOCK_SIZE, BlocksFor(Bytes(s, z.y));
    assert BigHeaps.Step(w.books, BigHeaps.Lend(p, n), w'.books, z.hs);
    BigHeaps.StepKeepsBooks(w.books, BigHeaps.Lend(p, n), w'.books, z.hs);
  }

  /** A block that leaves the table has the pages of a slab of one block. */
  lemma LonePages(h: nat, c: Class, t: nat, z: Build)
    requires BuildOk(z) && Capacity(c, z.y) == 1
    ensures EndOf(LoneBlock(h, c, t), z.y) == h + ClassBytes(c) + z.hs
    ensures PagesOfSlab(LoneBlock(h, c, t), z.y) == BigHeaps.PagesOf(h, ClassBytes(c), z.hs)
  {
    TableShape();
    assert Size(c, z.y) == ClassBytes(c) + z.hs;
    assert EndOf(LoneBlock(h, c, t), z.y) == Nth(h, Size(c, z.y), 0) + Size(c, z.y);
  }

  /** A big block that has to grow for a request with a class gets a class with one block to a slab. */
  lemma OneToASlab(oldSize: nat, c: Class, z: Build)
    requires BuildOk(z) && BlocksFor(oldSize + z.hs) < BlocksFor(ClassBytes(c) + z.hs)
    ensures Capacity(c, z.y) == 1
  {
    TableShape();
    assert SIZE_CLASSES[21] == 3840;
  }

  /** What resizing a big block in place comes to: it stays big, or it gets a class with one block to a slab. */
  lemma ReallocIs(b: BigHeaps.Ledger, h: nat, newSize: nat, class_: Option<int>, madviseOk: bool, protectOk: bool,
                  z: Build)
    requires BuildOk(z) && h in b.table && 0 < newSize && ClassOf(newSize, class_)
    ensures
      var size := BigHeaps.SizeFor(newSize, class_);
      var a := BigHeaps.ReallocAction(b, h, size, class_.None?, z.hs, madviseOk, protectOk);
      if a == BigHeaps.Resize(h, size, false)
      then class_.Some? && 0 <= class_.value < NUM_SIZE_CLASSES && size == ClassBytes(class_.value)
           && Capacity(class_.value, z.y) == 1
           && (BigSize(b.table[h].size) ==> b.table[h].size == 0 && newSize > 3840)
      else StaysBig(a)
  {
    var size := BigHeaps.SizeFor(newSize, class_);
    if class_.Some? && BlocksFor(b.table[h].size + z.hs) < BlocksFor(size + z.hs) {
      OneToASlab(b.table[h].size, class_.value, z);
      if BigSize(b.table[h].size) {
        BigHeaps.FitAbove(newSize, class_.value);
        BigHeaps.PagesGrow(b.table[h].size, size, z.hs);
      }
    }
  }

  /** The size that is remembered for a big block after it was resized and stayed big. */
  ghost function RememberedAfter(oldSize: nat, a: BigHeaps.Action): nat {
    match a
    case Resize(_, size, _) => size
    case _ => oldSize
  }

  /** A big block that is resized in place has room for the request, in its pages or in its class. */
  lemma InPlaceFits(b: BigHeaps.Ledger, h: nat, newSize: nat, class_: Option<int>, madviseOk: bool, protectOk: bool,
                    hs: nat)
    requires h in b.table && 0 < newSize && ClassOf(newSize, class_)
    requires BigHeaps.StaysInPlace(b, h, BigHeaps.SizeFor(newSize, class_), hs, protectOk)
    ensures
      var size := BigHeaps.SizeFor(newSize, class_);
      var a := BigHeaps.ReallocAction(b, h, size, class_.None?, hs, madviseOk, protectOk);
      newSize <= size && h + hs + newSize <= EndOfBig(h, RememberedAfter(b.table[h].size, a), hs)
  {
    BigHeaps.RequestFits(newSize, class_);
  }

  /** Is the request remembered? What is remembered is what may be used and what a later move of the block copies.
      It is not, exactly if a block of no bytes is kept for a request that fits in its page. */
  lemma RememberedIff(b: BigHeaps.Ledger, h: nat, newSize: nat, class_: Option<int>, madviseOk: bool, protectOk: bool,
                      hs: nat)
    requires h in b.table && BigSize(b.table[h].size) && 0 < newSize && ClassOf(newSize, class_) && HeaderSize(hs)
    requires BigHeaps.StaysInPlace(b, h, BigHeaps.SizeFor(newSize, class_), hs, protectOk)
    ensures
      var a := BigHeaps.ReallocAction(b, h, BigHeaps.SizeFor(newSize, class_), class_.None?, hs, madviseOk, protectOk);
      var kept := RememberedAfter(b.table[h].size, a);
      && (newSize <= kept <==> !(b.table[h].size == 0 && newSize <= 3840))
      && ((forall m: nat :: Min(newSize, m) <= Min(kept, m)) <==> newSize <= kept)
  {
    var oldSize, size := b.table[h].size, BigHeaps.SizeFor(newSize, class_);
    var a := BigHeaps.ReallocAction(b, h, size, class_.None?, hs, madviseOk, protectOk);
    var kept := RememberedAfter(oldSize, a);
    BigHeaps.RequestFits(newSize, class_);
    assert Min(newSize, newSize) <= Min(kept, newSize) <==> newSize <= kept;
    if class_.Some? {
      BigHeaps.FitAbove(newSize, class_.value);
      BigHeaps.PagesGrow(oldSize, size, hs);
    }
  }

  /** A block of no bytes, asked to hold 100: the address is returned as it was, nothing is remembered, and a later
      move of the block copies none of the bytes. */
  lemma ForgottenRequest(b: BigHeaps.Ledger, h: nat, madviseOk: bool, protectOk: bool, hs: nat)
    requires h in b.table && b.table[h].size == 0 && HeaderSize(hs)
    ensures ClassOf(100, Some(6)) && BigHeaps.SizeFor(100, Some(6)) == 128
    ensures BigHeaps.StaysInPlace(b, h, 128, hs, protectOk)
    ensures BigHeaps.ReallocAction(b, h, 128, false, hs, madviseOk, protectOk) == BigHeaps.Nothing
  {
    TableShape();
    assert SIZE_CLASSES[5] == 96 && SIZE_CLASSES[6] == 128;
  }

  /** A slab block that is resized where it stands gets pages for its header and its payload, counted from the start of
      its slab, although it begins behind the metadata. They hold it exactly if the metadata needs no further page. */
  lemma GrownFits(start: nat, size: nat, hs: nat)
    requires start % BLOCK_SIZE == 0
    ensures start + METADATA_SIZE + hs + size <= start + BlocksFor(size + hs) * BLOCK_SIZE <==>
      BlocksFor(METADATA_SIZE + hs + size) == BlocksFor(size + hs)
  {
  }

  /** For all classes with one block to a slab it does not. */
  lemma OneBlockFits(c: Class, z: Build)
    requires BuildOk(z) && Capacity(c, z.y) == 1
    ensures BlocksFor(METADATA_SIZE + z.hs + ClassBytes(c)) == BlocksFor(ClassBytes(c) + z.hs)
  {
    OneBlockSizes(c);
  }

  /** But for a big block that fills its pages it does. */
  lemma GrownTooShort(hs: nat)
    requires HeaderSize(hs)
    ensures BigSize(600 * BLOCK_SIZE - hs)
    ensures BlocksFor(METADATA_SIZE + hs + (600 * BLOCK_SIZE - hs)) == BlocksFor((600 * BLOCK_SIZE - hs) + hs) + 1
  {
  }

  lemma DemoteIsAddable(w: Whole, m: Move, w': Whole, z: Build)
    requires BuildOk(z) && WholeInv(w, z) && Happens(w, m, w', z) && m.Demote?
    ensures m.h % BLOCK_SIZE == 0 && Enabled(w.life, Adopt(m.t, m.c, m.h), z.y)
  {
    var s := LoneBlock(m.h, m.c, m.t);
    LonePages(m.h, m.c, m.t, z);
    BigHeaps.BooksSound(w.books, m.h, z.hs);
    PagesAligned(m.h);
    forall k | 0 <= k < |w.life.slabs|
      ensures Disjoint(w.life.slabs[k], s, z.y)
    {
      AllPagesBack(w.life.slabs, z.y, k);
      assert PagesOfSlab(w.life.slabs[k], z.y) <= w.books.slab;
      SlabsApart(w.life.slabs[k], s, z.y);
    }
  }

  lemma DemoteLife(w: Whole, m: Move, w': Whole, z: Build)
    requires BuildOk(z) && WholeInv(w, z) && Happens(w, m, w', z) && m.Demote?
    ensures Inv(w'.life, z.y) && Paged(w'.life.slabs, z.y)
    ensures AllPages(w'.life.slabs, z.y) == AllPages(w.life.slabs, z.y) + BigHeaps.PagesOf(m.h, ClassBytes(m.c), z.hs)
  {
    DemoteIsAddable(w, m, w', z);
    AdoptKeepsInv(w.life, Adopt(m.t, m.c, m.h), z.y);
    AllPagesAdd(w.life.slabs, LoneBlock(m.h, m.c, m.t), z.y);
    LonePages(m.h, m.c, m.t, z);
  }

  lemma DemoteBooks(w: Whole, m: Move, w': Whole, z: Build)
    requires BuildOk(z) && WholeInv(w, z) && Happens(w, m, w', z) && m.Demote?
    ensures BigHeaps.Books(w'.books, z.hs) && Sized(w'.books.table)
    ensures w'.books.slab == w.books.slab + BigHeaps.PagesOf(m.h, ClassBytes(m.c), z.hs)
  {
    BigHeaps.StepKeepsBooks(w.books, BigHeaps.Resize(m.h, ClassBytes(m.c), false), w'.books, z.hs);
  }

  lemma DemoteKeepsWhole(w: Whole, m: Move, w': Whole, z: Build)
    requires BuildOk(z) && WholeInv(w, z) && Happens(w, m, w', z) && m.Demote?
    ensures WholeInv(w', z)
  {
    DemoteLife(w, m, w', z);
    DemoteBooks(w, m, w', z);
  }

  lemma MoveKeepsWhole(w: Whole, m: Move, w': Whole, z: Build)
    requires BuildOk(z) && WholeInv(w, z) && Happens(w, m, w', z)
    ensures WholeInv(w', z)
  {
    match m
    case Big(_) => BigKeepsWhole(w, m, w', z);
    case Small(_) => SmallKeepsWhole(w, m, w', z);
    case NewPages(_, _, _) => NewPagesKeepsWhole(w, m, w', z);
    case Demote(_, _, _) => DemoteKeepsWhole(w, m, w', z);
  }

  // ------------------------------------------------------------------ runs

  const NOTHING := Whole(BigHeaps.NO_BLOCKS, START)

  /** What has happened since the process began: `moves[i]` led from `states[i]` to `states[i + 1]`. */
  datatype Run = Run(states: seq<Whole>, moves: seq<Move>)

  ghost predicate HappensAt(r: Run, i: nat, z: Build)
    requires BuildOk(z) && |r.states| == |r.moves| + 1 && i < |r.moves|
  {
    Happens(r.states[i], r.moves[i], r.states[i + 1], z)
  }

  ghost predicate IsRun(r: Run, z: Build)
    requires BuildOk(z)
  {
    && |r.states| == |r.moves| + 1 && r.states[0] == NOTHING
    && forall i :: 0 <= i < |r.moves| ==> HappensAt(r, i, z)
  }

  /** A run that leads to `w`. */
  ghost predicate Reaches(r: Run, w: Whole, z: Build)
    requires BuildOk(z)
  {
    IsRun(r, z) && r.states[|r.moves|] == w
  }

  function Extended(r: Run, m: Move, w: Whole): Run {
    Run(r.states + [w], r.moves + [m])
  }

  lemma MoveExtends(r: Run, w: Whole, m: Move, w': Whole, z: Build)
    requires BuildOk(z) && Reaches(r, w, z) && Happens(w, m, w', z)
    ensures Reaches(Extended(r, m, w'), w', z)
  {
    var r' := Extended(r, m, w');
    forall i | 0 <= i < |r'.moves|
      ensures HappensAt(r', i, z)
    {
      if i < |r.moves| {
        assert HappensAt(r, i, z);
      }
    }
  }

  lemma NothingInv(z: Build)
    requires BuildOk(z)
    ensures WholeInv(NOTHING, z)
  {
    BigHeaps.StartBooks(z.hs);
    StartInv(z.y);
  }

  lemma {:induction false} RunKeepsWhole(r: Run, n: nat, z: Build)
    requires BuildOk(z) && IsRun(r, z) && n < |r.states|
    ensures WholeInv(r.states[n], z)
  {
    if n == 0 {
      NothingInv(z);
    } else {
      RunKeepsWhole(r, n - 1, z);
      assert HappensAt(r, n - 1, z);
      MoveKeepsWhole(r.states[n - 1], r.moves[n - 1], r.states[n], z);
    }
  }

  /** After every run, a big block that turns into a slab block fits among the slabs. */
  lemma DemoteFits(r: Run, w: Whole, t: nat, c: Class, h: nat, w': Whole, z: Build)
    requires BuildOk(z) && Reaches(r, w, z) && Happens(w, Demote(t, c, h), w', z)
    ensures Addable(w.life.slabs, LoneBlock(h, c, t), z.y) && Capacity(c, z.y) == 1
  {
    RunKeepsWhole(r, |r.moves|, z);
    DemoteIsAddable(w, Demote(t, c, h), w', z);
  }

  // ------------------------------------------------------------------ nothing shares a byte

  /** What takes up bytes: a big block with its header and all its pages, a slab block with its header, whether a
      user has it or not, and the metadata of a slab. */
  datatype Thing = BigBlock(h: nat) | SlabBlock(b: nat, c: Class) | Metadata(k: nat)

  ghost predicate Exists(w: Whole, x: Thing, z: Build) {
    match x
    case BigBlock(h) => h in w.books.table
    case SlabBlock(b, c) => HasClass(w.life.slabs, b, c, z.y)
    case Metadata(k) => k < |w.life.slabs|
  }

  ghost function From(w: Whole, x: Thing, z: Build): nat
    requires Exists(w, x, z)
  {
    match x
    case BigBlock(h) => h
    case SlabBlock(b, _) => b
    case Metadata(k) => w.life.slabs[k].start
  }

  /** The first byte behind the pages of a big block. */
  function EndOfBig(h: nat, size: nat, hs: nat): (end: nat)
    ensures h + hs + size <= end
  {
    h + BlocksFor(size + hs) * BLOCK_SIZE
  }

  /** The first byte behind it. */
  ghost function Until(w: Whole, x: Thing, z: Build): nat
    requires Exists(w, x, z)
  {
    match x
    case BigBlock(h) => EndOfBig(h, w.books.table[h].size, z.hs)
    case SlabBlock(b, c) => b + z.hs + ClassBytes(c)
    case Metadata(k) => w.life.slabs[k].start + w.life.slabs[k].head
  }

  ghost predicate ApartIn(w: Whole, x: Thing, x': Thing, z: Build)
    requires Exists(w, x, z) && Exists(w, x', z)
  {
    Until(w, x, z) <= From(w, x', z) || Until(w, x', z) <= From(w, x, z)
  }

  /** A slab block is as long as its header and its payload. */
  lemma BlockBytes(c: Class, z: Build)
    requires BuildOk(z)
    ensures Size(c, z.y) == ClassBytes(c) + z.hs
  {
    TableShape();
  }

  /** What belongs to slabs lies in one. */
  lemma InSlab(w: Whole, x: Thing, z: Build) returns (k: nat)
    requires BuildOk(z) && WholeInv(w, z) && Exists(w, x, z) && !x.BigBlock?
    ensures k < |w.life.slabs|
    ensures w.life.slabs[k].start <= From(w, x, z) <= Until(w, x, z) <= EndOf(w.life.slabs[k], z.y)
    ensures From(w, x, z) < EndOf(w.life.slabs[k], z.y)
  {
    match x
    case SlabBlock(b, c) =>
      var i: nat;
      k, i :| CarvedAt(w.life.slabs, k, i, b, c, z.y);
      BlockInside(w.life.slabs, k, i, b, c, z.y);
      BlockBytes(c, z);
    case Metadata(n) =>
      k := n;
      EndBehind(w.life.slabs[k], z.y);
  }

  /** Every byte of a big block lies in one of its pages. */
  lemma ByteOfBig(h: nat, size: nat, hs: nat, a: nat)
    requires h % BLOCK_SIZE == 0 && h <= a < EndOfBig(h, size, hs)
    ensures a / BLOCK_SIZE in BigHeaps.PagesOf(h, size, hs)
  {
    assert h == h / BLOCK_SIZE * BLOCK_SIZE;
    assert Between(h / BLOCK_SIZE, a / BLOCK_SIZE, h / BLOCK_SIZE + BlocksFor(size + hs));
  }

  /** Bytes in pages of a big block and bytes in pages of a slab. */
  lemma RangesApart(h: nat, size: nat, hs: nat, s: Slab, y: Layout, from: nat, until: nat)
    requires h % BLOCK_SIZE == 0 && s.start % BLOCK_SIZE == 0 && 0 < hs
    requires BigHeaps.PagesOf(h, size, hs) !! PagesOfSlab(s, y)
    requires s.start <= from <= until <= EndOf(s, y) && from < EndOf(s, y)
    ensures EndOfBig(h, size, hs) <= from || until <= h
  {
    if h <= from < EndOfBig(h, size, hs) {
      ByteOfBig(h, size, hs, from);
      ByteOnPage(s, y, from);
    } else if from <= h < until {
      ByteOfBig(h, size, hs, h);
      ByteOnPage(s, y, h);
    }
  }

  lemma BigFromSlab(w: Whole, x: Thing, x': Thing, z: Build)
    requires BuildOk(z) && WholeInv(w, z) && Exists(w, x, z) && Exists(w, x', z) && x.BigBlock? && !x'.BigBlock?
    ensures ApartIn(w, x, x', z)
  {
    var k := InSlab(w, x', z);
    BigHeaps.BooksSound(w.books, x.h, z.hs);
    AllPagesBack(w.life.slabs, z.y, k);
    assert BigHeaps.PagesOf(x.h, w.books.table[x.h].size, z.hs) !! w.books.slab;
    RangesApart(x.h, w.books.table[x.h].size, z.hs, w.life.slabs[k], z.y, From(w, x', z), Until(w, x', z));
  }

  lemma BigFromBig(w: Whole, h: nat, g: nat, z: Build)
    requires BuildOk(z) && WholeInv(w, z) && h in w.books.table && g in w.books.table && h < g
    ensures EndOfBig(h, w.books.table[h].size, z.hs) <= g
  {
    BigHeaps.BooksSound(w.books, h, z.hs);
    BigHeaps.BooksSound(w.books, g, z.hs);
    if g < EndOfBig(h, w.books.table[h].size, z.hs) {
      ByteOfBig(h, w.books.table[h].size, z.hs, g);
      ByteOfBig(g, w.books.table[g].size, z.hs, g);
    }
  }

  lemma SlabFromSlab(w: Whole, x: Thing, x': Thing, z: Build)
    requires BuildOk(z) && WholeInv(w, z) && Exists(w, x, z) && Exists(w, x', z) && x != x'
    requires x.SlabBlock? && x'.SlabBlock?
    ensures ApartIn(w, x, x', z)
  {
    BlockBytes(x.c, z);
    BlockBytes(x'.c, z);
    if x.b == x'.b {
      var k: nat, i: nat :| CarvedAt(w.life.slabs, k, i, x.b, x.c, z.y);
      var l: nat, j: nat :| CarvedAt(w.life.slabs, l, j, x.b, x'.c, z.y);
      OneOrigin(w.life.slabs, k, i, x.c, l, j, x'.c, x.b, z.y);
    } else {
      PairApart(w.life.slabs, x.b, x.c, x'.b, x'.c, z.y);
    }
  }

  lemma BlockFromMetadata(w: Whole, x: Thing, x': Thing, z: Build)
    requires BuildOk(z) && WholeInv(w, z) && Exists(w, x, z) && Exists(w, x', z) && x.SlabBlock? && x'.Metadata?
    ensures ApartIn(w, x, x', z)
  {
    BlockBytes(x.c, z);
    MetadataApart(w.life.slabs, x.b, x.c, x'.k, z.y);
  }

  lemma MetadataFromMetadata(w: Whole, k: nat, l: nat, z: Build)
    requires BuildOk(z) && WholeInv(w, z) && k < l < |w.life.slabs|
    ensures ApartIn(w, Metadata(k), Metadata(l), z)
  {
    var m := InSlab(w, Metadata(k), z);
    var n := InSlab(w, Metadata(l), z);
    assert Disjoint(w.life.slabs[k], w.life.slabs[l], z.y);
    InOwnSlab(w, k, z);
    InOwnSlab(w, l, z);
  }

  lemma InOwnSlab(w: Whole, k: nat, z: Build)
    requires k < |w.life.slabs|
    ensures w.life.slabs[k].start + w.life.slabs[k].head <= EndOf(w.life.slabs[k], z.y)
  {
  }

  /** No two of them share a byte. */
  lemma AllApart(w: Whole, x: Thing, x': Thing, z: Build)
    requires BuildOk(z) && WholeInv(w, z) && Exists(w, x, z) && Exists(w, x', z) && x != x'
    ensures ApartIn(w, x, x', z)
  {
    if x.BigBlock? && x'.BigBlock? {
      if x.h < x'.h {
        BigFromBig(w, x.h, x'.h, z);
      } else {
        BigFromBig(w, x'.h, x.h, z);
      }
    } else if x.BigBlock? {
      BigFromSlab(w, x, x', z);
    } else if x'.BigBlock? {
      BigFromSlab(w, x', x, z);
    } else if x.SlabBlock? && x'.SlabBlock? {
      SlabFromSlab(w, x, x', z);
    } else if x.SlabBlock? {
      BlockFromMetadata(w, x, x', z);
    } else if x'.SlabBlock? {
      BlockFromMetadata(w, x', x, z);
    } else if x.k < x'.k {
      MetadataFromMetadata(w, x.k, x'.k, z);
    } else {
      MetadataFromMetadata(w, x'.k, x.k, z);
    }
  }

  /** After every run of the allocator, whatever its threads did: no two of its big blocks, with all their pages,
      slab blocks and slab metadata share a byte; every slab block is in exactly one place; and the pages in use are
      exactly those of the big blocks and of the slabs. */
  lemma NothingShared(r: Run, w: Whole, z: Build)
    requires BuildOk(z) && Reaches(r, w, z)
    ensures forall x, x' :: Exists(w, x, z) && Exists(w, x', z) && x != x' ==> ApartIn(w, x, x', z)
    ensures OnePlace(w.life.at) && forall b :: Placed(w.life.at, b) <==> Carved(w.life.slabs, b, z.y)
    ensures forall p :: p in w.books.used <==>
              || p in AllPages(w.life.slabs, z.y)
              || exists h :: h in w.books.table && p in BigHeaps.PagesOf(h, w.books.table[h].size, z.hs)
  {
    RunKeepsWhole(r, |r.moves|, z);
    forall x, x' | Exists(w, x, z) && Exists(w, x', z) && x != x'
      ensures ApartIn(w, x, x', z)
    {
      AllApart(w, x, x', z);
    }
  }

  /** A user has the block with the header at `b`, which names `class_`, and room for `size` bytes in it. */
  ghost predicate Grants(w: Whole, b: int, class_: Option<int>, size: nat, z: Build) {
    match class_
    case None => 0 <= b && b in w.books.table && b + z.hs + size <= EndOfBig(b, w.books.table[b].size, z.hs)
    case Some(c) =>
      && 0 <= b && 0 <= c < NUM_SIZE_CLASSES && b in At(w.life.at, Out) && HasClass(w.life.slabs, b, c, z.y)
      && size <= ClassBytes(c)
  }

  /** What takes up the bytes that a user has. */
  ghost function ThingAt(b: nat, class_: Option<int>): Thing
    requires class_.Some? ==> 0 <= class_.value < NUM_SIZE_CLASSES
  {
    match class_
    case None => BigBlock(b)
    case Some(c) => SlabBlock(b, c)
  }

  /** What a user has for `size` bytes is, with its header, part of one thing. */
  lemma GrantIs(w: Whole, b: int, class_: Option<int>, size: nat, z: Build)
    requires Grants(w, b, class_, size, z)
    ensures
      var x := ThingAt(b, class_);
      Exists(w, x, z) && From(w, x, z) == b && b + z.hs + size <= Until(w, x, z)
  {
  }

  /** Every byte that a user has lies in a used page, and the header is 16-aligned. */
  lemma GrantOnPages(r: Run, w: Whole, b: int, class_: Option<int>, size: nat, a: int, z: Build)
    requires BuildOk(z) && Reaches(r, w, z) && Grants(w, b, class_, size, z) && b <= a < b + z.hs + size
    ensures b % 16 == 0 && a / BLOCK_SIZE in w.books.used
  {
    RunKeepsWhole(r, |r.moves|, z);
    match class_
    case None =>
      BigHeaps.BooksSound(w.books, b, z.hs);
      PagesAligned(b);
      ByteOfBig(b, w.books.table[b].size, z.hs, a);
    case Some(c) =>
      BlocksInOrder(r, w, z);
      var k := InSlab(w, SlabBlock(b, c), z);
      ByteOnPage(w.life.slabs[k], z.y, a);
      AllPagesBack(w.life.slabs, z.y, k);
  }

  /** After every run: no two of the blocks that users have share a byte, headers included, and there is one block at
      most at an address. */
  lemma GrantsApart(r: Run, w: Whole, b: int, class_: Option<int>, size: nat, b': int, class_': Option<int>,
                    size': nat, z: Build)
    requires BuildOk(z) && Reaches(r, w, z) && Grants(w, b, class_, size, z) && Grants(w, b', class_', size', z)
    ensures if b == b' then class_ == class_' else b + z.hs + size <= b' || b' + z.hs + size' <= b
  {
    GrantIs(w, b, class_, size, z);
    GrantIs(w, b', class_', size', z);
    if ThingAt(b, class_) != ThingAt(b', class_') {
      NothingShared(r, w, z);
      assert ApartIn(w, ThingAt(b, class_), ThingAt(b', class_'), z);
    }
  }

  /** After every run, slab blocks are 16-aligned, no slab has more blocks than its share, lists hold blocks of their
      own class only, and those of threads stay within their bound. */
  lemma BlocksInOrder(r: Run, w: Whole, z: Build)
    requires BuildOk(z) && Reaches(r, w, z)
    ensures forall b, c :: HasClass(w.life.slabs, b, c, z.y) ==> b % 16 == 0
    ensures forall k :: 0 <= k < |w.life.slabs| ==> w.life.slabs[k].carved <= Capacity(w.life.slabs[k].class_, z.y)
    ensures Sorted(w.life, z.y) && Bounded(w.life.at, z.y)
  {
    RunKeepsWhole(r, |r.moves|, z);
    forall b, c | HasClass(w.life.slabs, b, c, z.y)
      ensures b % 16 == 0
    {
      var k: nat, i: nat :| CarvedAt(w.life.slabs, k, i, b, c, z.y);
      BlockInside(w.life.slabs, k, i, b, c, z.y);
    }
    assert forall k :: 0 <= k < |w.life.slabs| ==> SlabOk(w.life.slabs[k], z.y);
  }
}
