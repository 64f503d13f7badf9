/** Cutting a slab into blocks. A slab holds its metadata and then blocks of one size class; they are cut
    off in address order, a few at a time, and come out as a raw chain. */
module Carving {
  import opened Wrappers
  import opened Links
  import opened SizeClasses

  const METADATA_SIZE := 32

  /** For each size class: the bytes of a block, the blocks of a slab, and how many free blocks a thread
      keeps. */
  datatype Tables = Tables(sizes: seq<nat>, counts: seq<nat>, limits: seq<nat>)

  ghost predicate Complete(t: Tables) {
    |t.sizes| == |t.counts| == |t.limits| == NUM_SIZE_CLASSES
  }

  type Layout = t: Tables | Complete(t) witness Tables(seq(34, _ => 16), seq(34, _ => 1), seq(34, _ => 1))

  /** What the tables must be like for the results about blocks. */
  ghost predicate LayoutOk(y: Layout) {
    && (forall c :: 0 <= c < NUM_SIZE_CLASSES ==> 0 < y.sizes[c] && y.sizes[c] % 16 == 0)
    && (forall c :: 0 <= c < NUM_SIZE_CLASSES ==> 1 <= y.counts[c] && 1 <= y.limits[c])
  }

  // ------------------------------------------------------------------ equally spaced blocks

  /** The `i`-th of a row of blocks. */
  function Nth(base: nat, size: nat, i: nat): (r: nat)
    ensures base <= r
  {
    if i == 0 then base else Nth(base, size, i - 1) + size
  }

  /** Addresses are computed with a multiplication. */
  lemma {:induction false} NthIs(base: nat, size: nat, i: nat)
    ensures Nth(base, size, i) == base + i * size
  {
    if i > 0 {
      NthIs(base, size, i - 1);
    }
  }

  /** `n` blocks of `size` bytes, one after the other. */
  function Row(base: nat, size: nat, n: nat): seq<nat> {
    seq(n, i requires 0 <= i => Nth(base, size, i))
  }

  lemma {:induction false} Spaced(base: nat, size: nat, i: nat, j: nat)
    requires i < j
    ensures Nth(base, size, i) + size <= Nth(base, size, j)
  {
    if i < j - 1 {
      Spaced(base, size, i, j - 1);
    }
  }

  lemma {:induction false} Shifted(base: nat, size: nat, m: nat, i: nat)
    ensures Nth(Nth(base, size, m), size, i) == Nth(base, size, m + i)
  {
    if i > 0 {
      Shifted(base, size, m, i - 1);
    }
  }

  lemma MulDiv(n: nat, size: nat)
    requires 0 < size
    ensures n * size / size == n
  {
    forall m: nat
      ensures m < n ==> m * size + size <= n * size
      ensures n < m ==> n * size + size <= m * size
    {
      Ordered(m, n, size);
      Ordered(n, m, size);
    }
    var q := n * size / size;
    assert n * size == q * size + n * size % size;
  }

  lemma Ordered(m: nat, n: nat, size: nat)
    ensures m < n ==> m * size + size <= n * size
  {
    NthIs(0, size, m);
    NthIs(0, size, n);
    if m < n {
      Spaced(0, size, m, n);
    }
  }

  /** The bytes of `n` blocks make room for exactly `n` blocks. */
  lemma RoomFor(base: nat, size: nat, n: nat)
    requires 0 < size
    ensures Max(Nth(base, size, n) - base, 0) / size == n
  {
    NthIs(base, size, n);
    MulDiv(n, size);
  }

  lemma {:induction false} NthAligned(base: nat, size: nat, i: nat)
    requires base % 16 == 0 && size % 16 == 0
    ensures Nth(base, size, i) % 16 == 0
  {
    if i > 0 {
      NthAligned(base, size, i - 1);
    }
  }

  lemma RowDistinct(base: nat, size: nat, n: nat)
    requires 0 < size
    ensures Distinct(Row(base, size, n))
  {
    forall i, j | 0 <= i < j < n
      ensures Nth(base, size, i) != Nth(base, size, j)
    {
      Spaced(base, size, i, j);
    }
  }

  // ------------------------------------------------------------------ metadata

  /** What a slab says about itself at its start: where it begins and ends, and where the next block
      will be cut off. */
  datatype MetaData = MetaData(start: nat, end: nat, next: nat)

  /** The slab at `start`, made for `n` blocks of `size` bytes, with `carved` of them cut off. */
  function MetaFor(start: nat, size: nat, n: nat, carved: nat): MetaData {
    MetaData(start, Nth(start + METADATA_SIZE, size, n), Nth(start + METADATA_SIZE, size, carved))
  }

  /** All metadata, once `carved` blocks of one slab exist. */
  function Advanced(meta: map<nat, MetaData>, slab: nat, size: nat, n: nat, carved: nat): map<nat, MetaData> {
    meta[slab := MetaFor(slab, size, n, carved)]
  }

  class SlabMemory {
    /** The metadata of each slab, by the address of the slab. */
    var meta: map<nat, MetaData>

    constructor ()
      ensures meta == map[]
    {
      meta := map[];
    }

    /** Set up a slab for `n` blocks. */
    method Create(start: nat, size: nat, n: nat)
      modifies this
      ensures meta == Advanced(old(meta), start, size, n, 0)
    {
      var total := METADATA_SIZE + n * size;
      NthIs(start + METADATA_SIZE, size, n);
      meta := meta[start := MetaData(start, start + total, start + METADATA_SIZE)];
    }

    method RemainingBlocks(slab: nat, size: nat, ghost n: nat, ghost carved: nat) returns (r: nat)
      requires slab in meta && 0 < size && carved <= n && meta[slab] == MetaFor(slab, size, n, carved)
      ensures r == n - carved
    {
      Shifted(slab + METADATA_SIZE, size, carved, n - carved);
      RoomFor(meta[slab].next, size, n - carved);
      r := Max(meta[slab].end - meta[slab].next, 0) / size;
    }

    /** Cut off up to `max` blocks. They become a raw chain in address order, with a null tail. */
    method InitBlocks(mem: Memory, slab: nat, size: nat, max: nat, ghost n: nat, ghost carved: nat)
      returns (head: nat, tail: nat, count: nat, ghost blocks: seq<nat>, ghost upto: nat)
      requires slab in meta && 0 < size && carved <= n && meta[slab] == MetaFor(slab, size, n, carved)
      modifies this, mem
      ensures count == Min(n - carved, max) && upto == carved + count
      ensures meta == Advanced(old(meta), slab, size, n, upto)
      ensures blocks == Row(Nth(slab + METADATA_SIZE, size, carved), size, count)
      ensures RawLinked(mem.next, blocks, 0) && SameExcept(old(mem.next), mem.next, blocks)
      ensures head == FirstOf(blocks) && tail == LastOf(blocks)
    {
      var remaining := RemainingBlocks(slab, size, n, carved);
      if remaining == 0 {
        return 0, 0, 0, [], carved;
      }
      count := Min(remaining, max);
      upto := carved + count;
      var base := meta[slab].next;
      blocks := Row(base, size, count);
      head, tail := WriteRow(mem, base, size, count);
      Shifted(slab + METADATA_SIZE, size, carved, count);
      meta := meta[slab := meta[slab].(next := Nth(base, size, count))];
    }
  }

  /** Link a row of blocks, last one first. */
  method WriteRow(mem: Memory, base: nat, size: nat, count: nat) returns (head: nat, tail: nat)
    requires 0 < base && 0 < size
    modifies mem
    ensures RawLinked(mem.next, Row(base, size, count), 0)
    ensures SameExcept(old(mem.next), mem.next, Row(base, size, count))
    ensures head == FirstOf(Row(base, size, count)) && tail == LastOf(Row(base, size, count))
  {
    head, tail := 0, 0;
    ghost var blocks := Row(base, size, count);
    RowDistinct(base, size, count);
    for i := count downto 0
      invariant head == FirstOf(blocks[i..]) && tail == LastOf(blocks[i..]) && (head == 0 <==> i == count)
      invariant LinkedFrom(mem.next, blocks, i) && SameExcept(old(mem.next), mem.next, blocks)
    {
      var current := Nth(base, size, i);
      assert current == blocks[i] && head == RawLinkOf(blocks, i, 0);
      LinkStep(mem.next, blocks, i);
      mem.next := mem.next[current := head];
      if head == 0 {
        tail := current;
      }
      head := current;
    }
    assert blocks == blocks[0..];
  }

  function FirstOf(blocks: seq<nat>): nat {
    if blocks == [] then 0 else blocks[0]
  }

  function LastOf(blocks: seq<nat>): nat {
    if blocks == [] then 0 else blocks[|blocks| - 1]
  }

  /** The blocks from the `i`-th on are linked, with a null tail. */
  ghost predicate LinkedFrom(next: map<nat, nat>, blocks: seq<nat>, i: nat) {
    && (forall j :: i <= j < |blocks| ==> blocks[j] in next)
    && (forall j {:trigger next[blocks[j]]} :: i <= j < |blocks| ==> next[blocks[j]] == RawLinkOf(blocks, j, 0))
  }

  lemma LinkStep(next: map<nat, nat>, blocks: seq<nat>, i: nat)
    requires i < |blocks| && Distinct(blocks) && LinkedFrom(next, blocks, i + 1)
    ensures LinkedFrom(next[blocks[i] := RawLinkOf(blocks, i, 0)], blocks, i)
  {
  }

  // ------------------------------------------------------------------ the tables of the allocator

  /** The header takes 16 bytes, or 32 in the hardened build. */
  ghost predicate HeaderSize(hs: int) {
    hs == 16 || hs == 32
  }

  /** How many bytes of free blocks of a class a thread may keep. */
  function Budget(payload: int): int {
    if payload < 256 then 128 * 1024 else if payload < 16 * 1024 then 96 * 1024 else 64 * 1024
  }

  /** The blocks a thread keeps stay within the budget, except that one block is always allowed; one more
      would not. */
  ghost predicate LimitOk(limit: nat, size: nat, budget: nat) {
    1 <= limit && (limit > 1 ==> limit * size <= budget) && budget < (limit + 1) * size
  }

  /** A thread may keep 128 KiB of each class up to 192 bytes, 96 KiB up to 12 KiB, and 64 KiB of the others. */
  lemma BudgetIs(c: nat)
    requires c < NUM_SIZE_CLASSES
    ensures |SIZE_CLASSES| == NUM_SIZE_CLASSES && SIZE_CLASSES[8] == 192 && SIZE_CLASSES[24] == 12288
    ensures Budget(SIZE_CLASSES[c]) == if c <= 8 then 131072 else if c <= 24 then 98304 else 65536
  {
    TableShape();
    assert SIZE_CLASSES[9] == 256 && SIZE_CLASSES[25] == 16384;
  }

  /** So it keeps more than one free block of exactly the classes below 32 KiB, in either build. */
  lemma KeepsOneIff(c: nat, hs: nat, limit: nat)
    requires HeaderSize(hs) && c < NUM_SIZE_CLASSES
    requires |SIZE_CLASSES| == NUM_SIZE_CLASSES && LimitOk(limit, SIZE_CLASSES[c] + hs, Budget(SIZE_CLASSES[c]))
    ensures limit == 1 <==> 32768 <= SIZE_CLASSES[c]
  {
    BudgetIs(c);
    TableShape();
    assert SIZE_CLASSES[26] == 24576 && SIZE_CLASSES[27] == 32768;
    var size := SIZE_CLASSES[c] + hs;
    if limit > 1 {
      assert 2 * size <= limit * size;
    }
  }

  lemma QuotientLimit(size: nat, budget: nat)
    requires 0 < size
    ensures LimitOk(Max(budget / size, 1), size, budget)
  {
    Quotient(budget, size);
    if budget < size {
      SmallQuotient(budget, size);
    }
  }

  lemma SmallQuotient(a: nat, b: nat)
    requires a < b
    ensures a / b == 0
  {
  }

  /** The number of blocks a thread keeps. No block is larger than 16 MiB; one that was would not be kept
      by the division either. */
  method LimitFor(payload: nat, size: nat) returns (blocks: nat)
    requires 0 < size
    ensures LimitOk(blocks, size, Budget(payload))
  {
    var budget: nat := Budget(payload);
    QuotientLimit(size, budget);
    if size > 16 * 1024 * 1024 {
      SmallQuotient(budget, size);
      blocks := 0;
    } else {
      blocks := budget / size;
    }
    blocks := Max(blocks, 1);
  }

  /** The size of a block is that of its header and its payload. */
  lemma Unrounded(c: nat, hs: nat)
    requires HeaderSize(hs) && c < NUM_SIZE_CLASSES
    ensures |SIZE_CLASSES| == NUM_SIZE_CLASSES && AlignTo(SIZE_CLASSES[c] + hs, 16) == SIZE_CLASSES[c] + hs
    ensures 0 < SIZE_CLASSES[c] && (SIZE_CLASSES[c] + hs) % 16 == 0
  {
    TableShape();
  }

  ghost predicate SizesAre(sizes: seq<nat>, hs: nat) {
    |sizes| <= |SIZE_CLASSES| && forall c :: 0 <= c < |sizes| ==> sizes[c] == SIZE_CLASSES[c] + hs
  }

  ghost predicate LimitsAre(limits: seq<nat>, sizes: seq<nat>) {
    && |limits| == |sizes| <= |SIZE_CLASSES|
    && forall c :: 0 <= c < |limits| ==> LimitOk(limits[c], sizes[c], Budget(SIZE_CLASSES[c]))
  }

  lemma TablesOk(sizes: seq<nat>, limits: seq<nat>, hs: nat)
    requires HeaderSize(hs) && |sizes| == NUM_SIZE_CLASSES && SizesAre(sizes, hs) && LimitsAre(limits, sizes)
    ensures |ITERATIONS| == NUM_SIZE_CLASSES && (forall c :: 0 <= c < NUM_SIZE_CLASSES ==> 1 <= ITERATIONS[c])
    ensures LayoutOk(Tables(sizes, ITERATIONS, limits))
  {
    TableShape();
    forall c | 0 <= c < NUM_SIZE_CLASSES
      ensures 0 < sizes[c] && sizes[c] % 16 == 0 && 1 <= limits[c]
    {
      Unrounded(c, hs);
    }
  }

  lemma OneMore(sizes: seq<nat>, limits: seq<nat>, size: nat, limit: nat, hs: nat)
    requires |sizes| < |SIZE_CLASSES| && SizesAre(sizes, hs) && LimitsAre(limits, sizes)
    requires size == SIZE_CLASSES[|sizes|] + hs && LimitOk(limit, size, Budget(SIZE_CLASSES[|sizes|]))
    ensures SizesAre(sizes + [size], hs) && LimitsAre(limits + [limit], sizes + [size])
  {
  }

  /** Compute the tables. */
  method BuildTables(hs: nat) returns (y: Layout)
    requires HeaderSize(hs)
    ensures LayoutOk(y) && SizesAre(y.sizes, hs) && y.counts == ITERATIONS && LimitsAre(y.limits, y.sizes)
  {
    var sizes: seq<nat>, limits: seq<nat> := [], [];
    assert |SIZE_CLASSES| == NUM_SIZE_CLASSES;
    for i := 0 to NUM_SIZE_CLASSES
      invariant |sizes| == i && SizesAre(sizes, hs) && LimitsAre(limits, sizes)
    {
      var payload := SIZE_CLASSES[i];
      Unrounded(i, hs);
      var size := AlignTo(payload + hs, 16);
      var limit := LimitFor(payload, size);
      OneMore(sizes, limits, size, limit, hs);
      sizes, limits := sizes + [size], limits + [limit];
    }
    TablesOk(sizes, limits, hs);
    y := Tables(sizes, ITERATIONS, limits);
  }
}
