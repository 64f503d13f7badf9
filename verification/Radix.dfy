/** The two-level table that maps a 4 GiB chunk number to the segment covering it. The second level is
    allocated on first use. */
module Radixes {
  import opened Wrappers

  const CHUNK_SIZE := 1024 * 1024 * 1024 * 4
  const L1_SIZE := 4096
  const L2_SIZE := 8192
  const RADIX_MAX_CHUNKS := L1_SIZE * L2_SIZE
  const USIZE_MAX := 0xFFFF_FFFF_FFFF_FFFF

  function SaturatingAdd(a: int, b: int): int {
    Min(a + b, USIZE_MAX)
  }

  function SaturatingSub(a: int, b: int): int {
    Max(a - b, 0)
  }

  function FirstChunk(start: int): int {
    start / CHUNK_SIZE
  }

  function LastChunk(start: int, size: int): int {
    SaturatingAdd(start, SaturatingSub(size, 1)) / CHUNK_SIZE
  }

  /** Chunk `c` overlaps the `size` bytes from `start` on. */
  ghost predicate Covers(start: int, size: int, c: int) {
    FirstChunk(start) <= c <= LastChunk(start, size)
  }

  ghost predicate InChunk(a: int, c: int) {
    a / CHUNK_SIZE == c
  }

  /** It does exactly if one of these bytes is in it; bytes beyond the address space do not count. */
  lemma CoversIff(start: int, size: int, c: int)
    requires 0 <= start <= USIZE_MAX && 0 < size
    ensures Covers(start, size, c) <==> exists a :: start <= a < start + size && a <= USIZE_MAX && InChunk(a, c)
  {
    var last := Min(start + size - 1, USIZE_MAX);
    if Covers(start, size, c) {
      var a := Max(start, c * CHUNK_SIZE);
      assert last / CHUNK_SIZE == LastChunk(start, size);
      assert start <= a <= last && InChunk(a, c);
    }
    if a :| start <= a < start + size && a <= USIZE_MAX && InChunk(a, c) {
      assert start / CHUNK_SIZE <= a / CHUNK_SIZE <= last / CHUNK_SIZE;
    }
  }

  lemma ChunkOrder(start: int, size: int)
    requires 0 <= start <= USIZE_MAX && 0 <= size
    ensures 0 <= FirstChunk(start) <= LastChunk(start, size)
  {
  }

  class Radix<T> {
    const l1: array<array?<Option<T>>>

    /** The chunks that are set and what they are set to. */
    ghost var view: map<int, T>
    ghost var Repr: set<object>

    ghost predicate Valid()
      reads this, Repr
    {
      && this in Repr && l1 in Repr && l1.Length == L1_SIZE
      && (forall i :: 0 <= i < L1_SIZE && l1[i] != null ==> l1[i] in Repr && l1[i].Length == L2_SIZE)
      && (forall i, j :: 0 <= i < j < L1_SIZE && l1[i] != null ==> l1[i] != l1[j])
      && (forall c :: c in view ==> 0 <= c < RADIX_MAX_CHUNKS)
      && (forall i, j :: 0 <= i < L1_SIZE && 0 <= j < L2_SIZE ==> EntryOk(i, j))
    }

    ghost predicate EntryOk(i: int, j: int)
      requires 0 <= i < L1_SIZE && 0 <= j < L2_SIZE && l1.Length == L1_SIZE
      requires l1[i] != null ==> l1[i].Length == L2_SIZE
      reads this, l1, l1[i]
    {
      var c := i * L2_SIZE + j;
      if l1[i] == null || l1[i][j].None? then c !in view
      else c in view && view[c] == l1[i][j].value
    }

    constructor ()
      ensures Valid() && fresh(Repr) && view == map[]
    {
      l1 := new array?<Option<T>>[L1_SIZE](_ => null);
      view := map[];
      new;
      Repr := {this, l1};
    }

    /** The second level for `i`, allocated zeroed if it is missing. */
    method Level2(i: int) returns (l2: array<Option<T>>)
      requires Valid() && 0 <= i < L1_SIZE
      modifies this`Repr, l1
      ensures Valid() && fresh(Repr - old(Repr)) && old(Repr) <= Repr && view == old(view)
      ensures l2 == l1[i]
    {
      var found := l1[i];
      if found != null {
        return found;
      }
      l2 := new Option<T>[L2_SIZE](_ => None);
      l1[i] := l2;
      Repr := Repr + {l2};
      forall i', j | 0 <= i' < L1_SIZE && 0 <= j < L2_SIZE
        ensures EntryOk(i', j)
      {
        assert old(EntryOk(i', j));
      }
    }

    /** Out-of-range chunks are dropped without a word. */
    method Set(chunk: int, value: T)
      requires Valid() && 0 <= chunk
      modifies Repr
      ensures Valid() && fresh(Repr - old(Repr)) && old(Repr) <= Repr
      ensures view == if chunk < RADIX_MAX_CHUNKS then old(view)[chunk := value] else old(view)
    {
      if chunk >= RADIX_MAX_CHUNKS {
        return;
      }
      var i, j := chunk / L2_SIZE, chunk % L2_SIZE;
      var l2 := Level2(i);
      label before:
      l2[j] := Some(value);
      view := view[chunk := value];
      assert chunk == i * L2_SIZE + j;
      forall i', j' | 0 <= i' < L1_SIZE && 0 <= j' < L2_SIZE
        ensures EntryOk(i', j')
      {
        assert old@before(EntryOk(i', j'));
        assert i' < i || i < i' || l1[i'] == l2;
      }
    }

    method Get(chunk: int) returns (r: Option<T>)
      requires Valid() && 0 <= chunk
      ensures r == if chunk in view then Some(view[chunk]) else None
    {
      if chunk >= RADIX_MAX_CHUNKS {
        return None;
      }
      var i, j := chunk / L2_SIZE, chunk % L2_SIZE;
      assert chunk == i * L2_SIZE + j && EntryOk(i, j);
      var l2 := l1[i];
      r := if l2 == null then None else l2[j];
    }

    method SetChunks(first: int, count: int, value: T)
      requires Valid() && 0 <= first && 0 <= count
      modifies Repr
      ensures Valid() && fresh(Repr - old(Repr)) && old(Repr) <= Repr
      ensures forall c :: first <= c < first + count && c < RADIX_MAX_CHUNKS ==> c in view && view[c] == value
      ensures forall c :: c in view && !(first <= c < first + count) ==> c in old(view) && view[c] == old(view)[c]
      ensures forall c :: c in old(view) ==> c in view
    {
      for i := 0 to count
        invariant Valid() && fresh(Repr - old(Repr)) && old(Repr) <= Repr
        invariant forall c :: first <= c < first + i && c < RADIX_MAX_CHUNKS ==> c in view && view[c] == value
        invariant forall c :: c in view && !(first <= c < first + i) ==> c in old(view) && view[c] == old(view)[c]
        invariant forall c :: c in old(view) ==> c in view
      {
        Set(first + i, value);
      }
    }

    method AnyChunk(first: int, last: int) returns (any: bool)
      requires Valid() && 0 <= first <= last
      ensures any <==> exists c :: first <= c <= last && c in view
    {
      for i := first to last + 1
        invariant forall c :: first <= c < i ==> c !in view
      {
        var entry := Get(i);
        if entry.Some? {
          return true;
        }
      }
      any := false;
    }

    method SetRange(start: int, size: int, value: T)
      requires Valid() && 0 <= start <= USIZE_MAX && 0 <= size
      modifies Repr
      ensures Valid() && fresh(Repr - old(Repr)) && old(Repr) <= Repr
      ensures forall c :: Covers(start, size, c) && c < RADIX_MAX_CHUNKS ==> c in view && view[c] == value
      ensures forall c :: c in view && !Covers(start, size, c) ==> c in old(view) && view[c] == old(view)[c]
      ensures forall c :: c in old(view) ==> c in view
    {
      var first, last := FirstChunk(start), LastChunk(start, size);
      ChunkOrder(start, size);
      SetChunks(first, SaturatingSub(last, first) + 1, value);
    }

    method CheckCollision(start: int, size: int) returns (collides: bool)
      requires Valid() && 0 <= start <= USIZE_MAX && 0 <= size
      ensures collides <==>
        LastChunk(start, size) >= RADIX_MAX_CHUNKS || exists c :: Covers(start, size, c) && c in view
    {
      var first, last := FirstChunk(start), LastChunk(start, size);
      ChunkOrder(start, size);
      if last >= RADIX_MAX_CHUNKS {
        return true;
      }
      collides := AnyChunk(first, last);
    }
  }
}
