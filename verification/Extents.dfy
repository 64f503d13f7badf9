/** What the users of the bitmap own: extents of pages. Whatever sequence of allocations, frees and in-place
    resizes they make, the pages marked as used are exactly the pages of the live extents. */
module Extents {
  import opened Words
  import opened Wrappers
  import opened Segments
  import opened Radixes
  import opened Reservations
  import opened VaBitmaps

  /** The extents by first page, with the number of their pages. */
  type Live = map<int, int>

  ghost predicate PageOf(live: Live, first: int, page: int) {
    first in live && first <= page < first + live[first]
  }

  /** The extents are disjoint, and the used pages are theirs. */
  ghost predicate Tiles(live: Live, used: set<int>) {
    && (forall p :: p in live ==> 0 < live[p])
    && (forall p, q :: p in live && q in live && p < q ==> p + live[p] <= q)
    && (forall x :: x in used <==> exists p :: PageOf(live, p, x))
  }

  ghost predicate Within(s: Segment, first: int, count: int) {
    PageIn(s, first) && PageIn(s, first + count - 1)
  }

  /** Every extent lies in one listed segment. */
  ghost predicate Housed(segs: seq<Segment>, live: Live) {
    forall p :: p in live ==> exists s :: s in segs && Within(s, p, live[p])
  }

  ghost predicate Owned(segs: seq<Segment>, used: set<int>, live: Live) {
    Tiles(live, used) && Housed(segs, live)
  }

  lemma IsUsed(live: Live, used: set<int>, p: int, x: int)
    requires Tiles(live, used)
    ensures PageOf(live, p, x) ==> x in used
  {
  }

  /** A new extent on free pages. */
  lemma TilesTake(live: Live, used: set<int>, p: int, n: int)
    requires Tiles(live, used) && 0 < n && AllFree(used, p, p + n)
    ensures p !in live && Tiles(live[p := n], used + Span(p, p + n))
  {
    var live' := live[p := n];
    var used' := used + Span(p, p + n);
    forall q | q in live
      ensures q != p && (q + live[q] <= p || p + n <= q)
    {
      IsUsed(live, used, q, q);
      IsUsed(live, used, q, p);
    }
    forall x
      ensures x in used' <==> exists q :: PageOf(live', q, x)
    {
      assert Between(p, x, p + n) ==> PageOf(live', p, x);
      assert forall q :: q != p ==> (PageOf(live', q, x) <==> PageOf(live, q, x));
    }
  }

  function Without(live: Live, p: int): Live {
    live - {p}
  }

  /** An extent is given back whole. */
  lemma TilesGive(live: Live, used: set<int>, p: int)
    requires Tiles(live, used) && p in live
    ensures Tiles(Without(live, p), used - Span(p, p + live[p]))
  {
    var live' := Without(live, p);
    var used' := used - Span(p, p + live[p]);
    forall x
      ensures x in used' <==> exists q :: PageOf(live', q, x)
    {
      assert Between(p, x, p + live[p]) <==> PageOf(live, p, x);
      assert forall q :: PageOf(live', q, x) <==> q != p && PageOf(live, q, x);
      assert forall q :: PageOf(live, p, x) && PageOf(live, q, x) ==> q == p;
    }
  }

  /** An extent with `n` pages in place of those it had; with no page it is gone. */
  function Changed(live: Live, p: int, n: int): Live {
    if n == 0 then Without(live, p) else live[p := n]
  }

  /** Resizing in place is giving back the whole extent and taking the new one. */
  lemma TilesResize(live: Live, used: set<int>, p: int, n: int)
    requires Tiles(live, used) && p in live && 0 <= n && (live[p] < n ==> AllFree(used, p + live[p], p + n))
    ensures Tiles(Changed(live, p, n), Resized(used, p, live[p], n))
  {
    var o := live[p];
    TilesGive(live, used, p);
    var rest := used - Span(p, p + o);
    forall x | p <= x < p + n
      ensures x !in rest
    {
      assert Between(p, x, p + o) || !Between(p, x, p + o);
    }
    forall x | x in Span(p, p + o)
      ensures x in used
    {
      IsUsed(live, used, p, x);
    }
    if n > 0 {
      TilesTake(Without(live, p), rest, p, n);
      assert Without(live, p)[p := n] == live[p := n];
      assert rest + Span(p, p + n) == Resized(used, p, o, n) by {
        SameAfterResize(used, p, o, n);
      }
    } else {
      assert rest == Resized(used, p, o, n);
    }
  }

  lemma SameAfterResize(used: set<int>, p: int, o: int, n: int)
    requires 0 < o && 0 < n && Span(p, p + o) <= used
    ensures used - Span(p, p + o) + Span(p, p + n) == Resized(used, p, o, n)
  {
    forall x
      ensures x in used - Span(p, p + o) + Span(p, p + n) <==> x in Resized(used, p, o, n)
    {
      assert Between(p, x, p + o) || !Between(p, x, p + o);
      assert Between(p, x, p + n) || !Between(p, x, p + n);
      assert Between(p + n, x, p + o) || !Between(p + n, x, p + o);
      assert Between(p + o, x, p + n) || !Between(p + o, x, p + n);
    }
  }

  // ------------------------------------------------------------------ the operations

  /** An extent of a listed segment: what the bitmap finds at its address. */
  lemma HouseOf(va: VaBitmap, live: Live, addr: int, s: Segment)
    requires va.Valid() && Housed(va.segs, live) && addr / BLOCK_SIZE in live && s in va.segs && s.Contains(addr)
    ensures addr / BLOCK_SIZE + live[addr / BLOCK_SIZE] <= VaBitmap.EndPage(s)
  {
    var p := addr / BLOCK_SIZE;
    var u :| u in va.segs && Within(u, p, live[p]);
    va.PageOf(s, addr);
    SameSegment(va, s, u, p);
  }

  lemma SameSegment(va: VaBitmap, s: Segment, u: Segment, page: int)
    requires va.Valid() && s in va.segs && u in va.segs && PageIn(s, page) && PageIn(u, page)
    ensures s == u
  {
    va.OnePage();
    var i :| 0 <= i < |va.segs| && va.segs[i] == s;
    var j :| 0 <= j < |va.segs| && va.segs[j] == u;
    OneHouse(va.segs, i, j, page);
  }

  lemma OneHouse(segs: seq<Segment>, i: nat, j: nat, page: int)
    requires PagesApart(segs) && i < |segs| && j < |segs| && PageIn(segs[i], page) && PageIn(segs[j], page)
    ensures i == j
  {
  }

  lemma AddressInside(va: VaBitmap, addr: int, s: Segment)
    requires va.Valid() && s in va.segs && PageIn(s, addr / BLOCK_SIZE)
    ensures s.Contains(addr) && va.Ours(addr)
  {
    var i :| 0 <= i < |va.segs| && va.segs[i] == s;
    assert SegmentOk(s);
    ChunkyPositive(s.vaEnd - s.vaStart);
  }

  lemma TakeClaims(segs: seq<Segment>, segs': seq<Segment>, used: set<int>, used': set<int>, live: Live, s: Segment,
                   addr: int, n: int)
    requires Owned(segs, used, live) && Keeps(segs, segs') && s in segs' && VaBitmap.RunIn(s, addr, n)
    requires AllFree(used, addr / BLOCK_SIZE, addr / BLOCK_SIZE + n)
    requires used' == used + Span(addr / BLOCK_SIZE, addr / BLOCK_SIZE + n)
    ensures addr / BLOCK_SIZE !in live && Owned(segs', used', live[addr / BLOCK_SIZE := n])
  {
    var p := addr / BLOCK_SIZE;
    var live' := live[p := n];
    TilesTake(live, used, p, n);
    forall q | q in live'
      ensures exists u :: u in segs' && Within(u, q, live'[q])
    {
      if q == p {
        assert Within(s, p, n);
      } else {
        var u :| u in segs && Within(u, q, live[q]);
        assert u in segs' && Within(u, q, live'[q]);
      }
    }
  }

  lemma KeepClaims(segs: seq<Segment>, segs': seq<Segment>, used: set<int>, live: Live)
    requires Owned(segs, used, live) && Keeps(segs, segs')
    ensures Owned(segs', used, live)
  {
    forall q | q in live
      ensures exists u :: u in segs' && Within(u, q, live[q])
    {
      var u :| u in segs && Within(u, q, live[q]);
      assert u in segs';
    }
  }

  lemma GiveClaims(segs: seq<Segment>, used: set<int>, live: Live, s: Segment, addr: int, size: int)
    requires Owned(segs, used, live) && 0 < size
    requires addr / BLOCK_SIZE in live && live[addr / BLOCK_SIZE] == BlocksFor(size)
    requires addr / BLOCK_SIZE + BlocksFor(size) <= VaBitmap.EndPage(s)
    ensures Owned(segs, VaBitmap.FreedBy(used, s, addr, size), Without(live, addr / BLOCK_SIZE))
  {
    TilesGive(live, used, addr / BLOCK_SIZE);
  }

  lemma ResizeClaims(segs: seq<Segment>, used: set<int>, live: Live, s: Segment, p: int, n: int)
    requires Owned(segs, used, live) && s in segs && p in live && Within(s, p, live[p]) && 0 <= n
    requires VaBitmap.CanResize(s, used, p, live[p], n)
    ensures Owned(segs, Resized(used, p, live[p], n), Changed(live, p, n))
  {
    TilesResize(live, used, p, n);
    assert n > 0 ==> Within(s, p, n);
  }

  /** Pages for `size` bytes become a new extent. */
  method Allocate(va: VaBitmap, size: int, rand: nat -> nat, first: KernelReply, kernel: nat -> KernelReply,
                  ghost live: Live)
    returns (r: Outcome)
    requires va.Valid() && 0 <= size && va.Honest(first) && va.HonestAll(kernel)
    requires Owned(va.segs, va.used, live)
    modifies va.Repr
    ensures va.Valid() && fresh(va.Repr - old(va.Repr))
    ensures r.Address? ==>
      r.addr / BLOCK_SIZE !in live && Owned(va.segs, va.used, live[r.addr / BLOCK_SIZE := BlocksFor(size)])
    ensures !r.Address? ==> Owned(va.segs, va.used, live)
  {
    ghost var used, segs := va.used, va.segs;
    r := va.Alloc(size, rand, first, kernel);
    if r.Address? {
      ghost var s :| s in va.segs && VaBitmap.RunIn(s, r.addr, BlocksFor(size));
      TakeClaims(segs, va.segs, used, va.used, live, s, r.addr, BlocksFor(size));
    } else {
      KeepClaims(segs, va.segs, used, live);
    }
  }

  /** An extent is given back whole. */
  method Free(va: VaBitmap, addr: int, size: int, ghost live: Live)
    requires va.Valid() && 0 < addr && 0 < size && Owned(va.segs, va.used, live)
    requires addr / BLOCK_SIZE in live && live[addr / BLOCK_SIZE] == BlocksFor(size)
    modifies va.Repr
    ensures va.Valid() && Owned(va.segs, va.used, Without(live, addr / BLOCK_SIZE))
  {
    ghost var used, p := va.used, addr / BLOCK_SIZE;
    ghost var s :| s in va.segs && Within(s, p, live[p]);
    AddressInside(va, addr, s);
    HouseOf(va, live, addr, s);
    GiveClaims(va.segs, used, live, s, addr, size);
    va.Free(addr, size);
  }

  /** An extent is resized in place, or nothing changes. */
  method Resize(va: VaBitmap, addr: int, oldSize: int, newSize: int, ghost live: Live) returns (r: Option<int>)
    requires va.Valid() && 0 < addr && 0 < oldSize && 0 <= newSize && Owned(va.segs, va.used, live)
    requires addr / BLOCK_SIZE in live && live[addr / BLOCK_SIZE] == BlocksFor(oldSize)
    modifies va.Repr
    ensures va.Valid()
    ensures r.None? ==> va.used == old(va.used) && Owned(va.segs, va.used, live)
    ensures r.Some? ==> Owned(va.segs, va.used, Changed(live, addr / BLOCK_SIZE, BlocksFor(newSize)))
  {
    ghost var used, p := va.used, addr / BLOCK_SIZE;
    ghost var s :| s in va.segs && Within(s, p, live[p]);
    AddressInside(va, addr, s);
    forall u | u in va.segs && u.Contains(addr)
      ensures p + BlocksFor(oldSize) <= VaBitmap.EndPage(u)
    {
      HouseOf(va, live, addr, u);
    }
    r := va.ReallocInplace(addr, oldSize, newSize);
    if r.Some? {
      ResizeClaims(va.segs, used, live, s, p, BlocksFor(newSize));
    }
  }
}
