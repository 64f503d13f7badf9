/** The list of segments, the radix index over it, and the allocation of page runs out of it. */
module VaBitmaps {
  import opened Words
  import opened Wrappers
  import opened Segments
  import opened Radixes
  import opened Reservations

  /** What the kernel answers while a segment is being added. */
  datatype KernelReply = KernelReply(probe: Answers, mapsOk: bool, seed: nat)

  datatype Outcome = Address(addr: int) | NoSpace | Abort

  /** What becomes of a request: it is granted, it is refused, or the process dies. */
  datatype Fate = Granted | Denied | Deadly

  function FateOf(r: Outcome): Fate {
    match r
    case Address(_) => Granted
    case NoSpace => Denied
    case Abort => Deadly
  }

  /** What comes of asking for one more segment: the process may die of it. */
  datatype Growth = Grown(segment: Segment) | Failed | Died

  /** An attempt to add a segment: the kernel refuses every size, or what it grants cannot be listed, or it
      can. */
  datatype Trial = Refusal | Unfit | Fit

  const CHUNK_BLOCKS := CHUNK_SIZE / BLOCK_SIZE

  /** The first page of a segment. */
  function Base(s: Segment): int {
    s.vaStart / BLOCK_SIZE
  }

  ghost predicate PageIn(s: Segment, page: int) {
    Base(s) <= page < Base(s) + s.MaxBits()
  }

  lemma ChunkCount(size: int)
    requires 0 <= size
    ensures size <= CHUNK_SIZE ==> BlocksFor(size) <= CHUNK_BLOCKS
    ensures 0 < size ==> 0 < BlocksFor(size)
  {
  }

  /** The pages `base..base + max` are used exactly as the blocks `0..max` of `blocks` are. */
  ghost predicate Mirrors(pages: set<int>, base: int, max: int, blocks: set<int>) {
    forall p :: base <= p < base + max ==> (p in pages <==> p - base in blocks)
  }

  ghost predicate SameOutside(pages: set<int>, pages': set<int>, base: int, max: int) {
    forall p :: !(base <= p < base + max) ==> (p in pages <==> p in pages')
  }

  /** Some `count` contiguous pages of `base..base + max` are free. */
  ghost predicate PageRun(pages: set<int>, base: int, max: int, count: int) {
    exists p :: base <= p && p + count <= base + max && FreeRun(pages, p, count)
  }

  lemma RunMirrors(pages: set<int>, base: int, max: int, blocks: set<int>, count: int)
    requires Mirrors(pages, base, max, blocks) && 0 <= count
    ensures HasRun(blocks, max, count) <==> PageRun(pages, base, max, count)
  {
    if b :| 0 <= b && b + count <= max && FreeRun(blocks, b, count) {
      MirrorAdd(pages, base, max, blocks, base + b, b, count);
      assert FreeRun(pages, base + b, count);
    }
    if p :| base <= p && p + count <= base + max && FreeRun(pages, p, count) {
      MirrorAdd(pages, base, max, blocks, p, p - base, count);
      assert FreeRun(blocks, p - base, count);
    }
  }

  lemma MirrorAdd(pages: set<int>, base: int, max: int, blocks: set<int>, p: int, b: int, count: int)
    requires Mirrors(pages, base, max, blocks) && 0 <= b && 0 <= count && b + count <= max && p == base + b
    ensures Mirrors(pages + Span(p, p + count), base, max, blocks + Span(b, b + count))
    ensures SameOutside(pages, pages + Span(p, p + count), base, max)
    ensures AllFree(pages, p, p + count) <==> AllFree(blocks, b, b + count)
  {
    if AllFree(pages, p, p + count) {
      forall i | b <= i < b + count ensures i !in blocks {
        assert base + i !in pages;
      }
    }
  }

  lemma MirrorRemove(pages: set<int>, base: int, max: int, blocks: set<int>, p: int, b: int, count: int)
    requires Mirrors(pages, base, max, blocks) && 0 <= b && 0 <= count && b + count <= max && p == base + b
    ensures Mirrors(pages - Span(p, p + count), base, max, blocks - Span(b, b + count))
    ensures SameOutside(pages, pages - Span(p, p + count), base, max)
  {
  }

  lemma MirrorResized(pages: set<int>, base: int, max: int, blocks: set<int>, p: int, b: int, o: int, n: int)
    requires Mirrors(pages, base, max, blocks) && p == base + b
    requires 0 <= b && 0 <= n && 0 <= o && b + o <= max && b + n <= max
    ensures Mirrors(Resized(pages, p, o, n), base, max, Resized(blocks, b, o, n))
    ensures SameOutside(pages, Resized(pages, p, o, n), base, max)
    ensures o <= n ==> (AllFree(pages, p + o, p + n) <==> AllFree(blocks, b + o, b + n))
  {
    if n <= o {
      MirrorRemove(pages, base, max, blocks, p + n, b + n, o - n);
    } else {
      MirrorAdd(pages, base, max, blocks, p + o, b + o, n - o);
    }
  }

  /** Listed segments stay listed. */
  ghost predicate Keeps(segs: seq<Segment>, segs': seq<Segment>) {
    forall s :: s in segs ==> s in segs'
  }

  ghost predicate PagesApart(segs: seq<Segment>) {
    forall i, j, page :: 0 <= i < j < |segs| ==> !(PageIn(segs[i], page) && PageIn(segs[j], page))
  }

  ghost predicate CoversSegment(s: Segment, chunk: int) {
    Covers(s.vaStart, s.vaEnd - s.vaStart, chunk)
  }

  /** The index maps exactly the chunks of each listed segment to it. */
  ghost predicate IndexOk(segs: seq<Segment>, view: map<int, Segment>) {
    && (forall c :: c in view ==> view[c] in segs && CoversSegment(view[c], c))
    && (forall i, c :: 0 <= i < |segs| && CoversSegment(segs[i], c) ==> c in view && view[c] == segs[i])
  }

  /** The `size` bytes at `base` share a chunk with a listed segment or lie beyond the reach of the index. */
  ghost predicate Collides(segs: seq<Segment>, base: int, size: int) {
    LastChunk(base, size) >= RADIX_MAX_CHUNKS
    || exists i, c :: 0 <= i < |segs| && Covers(base, size, c) && CoversSegment(segs[i], c)
  }

  lemma CollidesIff(segs: seq<Segment>, view: map<int, Segment>, base: int, size: int)
    requires IndexOk(segs, view)
    ensures Collides(segs, base, size) <==>
      LastChunk(base, size) >= RADIX_MAX_CHUNKS || exists c :: Covers(base, size, c) && c in view
  {
    forall c | c in view
      ensures exists i :: 0 <= i < |segs| && CoversSegment(segs[i], c)
    {
      var i :| 0 <= i < |segs| && segs[i] == view[c];
    }
  }

  // ------------------------------------------------------------------ attempts to grow

  ghost predicate KernelsOk(kernel: nat -> KernelReply) {
    forall i :: KernelOk(kernel(i).probe)
  }

  /** What an attempt will come to. */
  ghost function TrialOf(m: Memo, max: int, segs: seq<Segment>, reply: KernelReply): Trial
    requires Chunky(max) && MemoOk(m, max)
  {
    match Answer(m, max, reply.probe)
    case Reserved(base, _, size) => if Collides(segs, base, size) || !reply.mapsOk then Unfit else Fit
    case _ => Refusal
  }

  /** How often growing is attempted. */
  const ATTEMPTS := 10

  /** What the kernel answers from the `i`-th attempt to the last. */
  ghost function RepliesFrom(kernel: nat -> KernelReply, i: nat): (replies: seq<KernelReply>)
    requires i <= ATTEMPTS && KernelsOk(kernel)
    ensures RepliesOk(replies)
  {
    seq(ATTEMPTS - i, j requires 0 <= j < ATTEMPTS - i => kernel(i + j))
  }

  ghost predicate RepliesOk(replies: seq<KernelReply>) {
    forall j :: 0 <= j < |replies| ==> KernelOk(replies[j].probe)
  }

  lemma RepliesStep(kernel: nat -> KernelReply, i: nat)
    requires i < ATTEMPTS && KernelsOk(kernel)
    ensures RepliesFrom(kernel, i) == [kernel(i)] + RepliesFrom(kernel, i + 1)
  {
  }

  /** What is remembered after attempts, one for each reply. */
  ghost function MemoAfter(m: Memo, max: int, replies: seq<KernelReply>): (m': Memo)
    requires Chunky(max) && MemoOk(m, max) && RepliesOk(replies)
    ensures MemoOk(m', max)
    decreases |replies|
  {
    if replies == [] then m
    else
      ReservesLargest(m, max, replies[0].probe);
      MemoAfter(After(m, max, replies[0].probe), max, replies[1..])
  }

  /** What attempts would come to while `segs` are listed, were they all made. */
  ghost function Trials(m: Memo, max: int, segs: seq<Segment>, replies: seq<KernelReply>): seq<Trial>
    requires Chunky(max) && MemoOk(m, max) && RepliesOk(replies)
    decreases |replies|
  {
    if replies == [] then []
    else
      var reply := replies[0];
      ReservesLargest(m, max, reply.probe);
      [TrialOf(m, max, segs, reply)] + Trials(After(m, max, reply.probe), max, segs, replies[1..])
  }

  /** How attempts end: with a segment, without one, or with the death of the process. */
  datatype Ending = Finds | GivesUp | Dies

  /** Attempts are made one by one. A refusal makes the hint be given up; one more, before anything is granted,
      is fatal. */
  ghost function Conclusion(init: bool, trials: seq<Trial>): Ending
    decreases |trials|
  {
    if trials == [] then GivesUp
    else
      match trials[0]
      case Fit => Finds
      case Refusal => if init then Conclusion(false, trials[1..]) else Dies
      case Unfit => Conclusion(true, trials[1..])
  }

  /** Attempt `n` is a refusal, and so was the one before it, or there was none before and the hint had been
      given up. */
  ghost predicate Fatal(init: bool, trials: seq<Trial>, n: nat) {
    && n < |trials| && trials[n] == Refusal
    && if n == 0 then !init else trials[n - 1] == Refusal
  }

  /** None of the first `n` attempts is usable or fatal. */
  ghost predicate Unsettled(init: bool, trials: seq<Trial>, n: nat) {
    forall k: nat :: k < n && k < |trials| ==> trials[k] != Fit && !Fatal(init, trials, k)
  }

  lemma UnsettledStep(init: bool, trials: seq<Trial>, n: nat)
    requires trials != [] && 0 < n
    ensures Unsettled(init, trials, n) <==>
      && trials[0] != Fit && !Fatal(init, trials, 0)
      && Unsettled(trials[0] != Refusal, trials[1..], n - 1)
  {
    var rest := trials[1..];
    forall k: nat | 0 < k
      ensures Fatal(init, trials, k) <==> Fatal(trials[0] != Refusal, rest, k - 1)
    {
    }
    if Unsettled(init, trials, n) {
      forall k: nat | k < n - 1 && k < |rest|
        ensures rest[k] != Fit && !Fatal(trials[0] != Refusal, rest, k)
      {
        assert trials[k + 1] != Fit && !Fatal(init, trials, k + 1);
      }
    }
  }

  /** How attempts end, said without following them one by one: the first usable or fatal one decides, and
      without either all of them fail. So ten failures remain only if no two refusals come in a row. */
  lemma {:induction false} ConclusionIs(init: bool, trials: seq<Trial>)
    ensures Conclusion(init, trials) == GivesUp <==> Unsettled(init, trials, |trials|)
    ensures Conclusion(init, trials) == Dies <==> exists n: nat :: Fatal(init, trials, n) && Unsettled(init, trials, n)
    decreases |trials|
  {
    if trials != [] {
      var init', rest := trials[0] != Refusal, trials[1..];
      ConclusionIs(init', rest);
      UnsettledStep(init, trials, |trials|);
      forall n: nat | 0 < n
        ensures Fatal(init, trials, n) && Unsettled(init, trials, n) <==>
          && trials[0] != Fit && !Fatal(init, trials, 0)
          && Fatal(init', rest, n - 1) && Unsettled(init', rest, n - 1)
      {
        UnsettledStep(init, trials, n);
      }
      if Fatal(init, trials, 0) {
        assert Unsettled(init, trials, 0);
      } else if Conclusion(init', rest) == Dies {
        var n: nat :| Fatal(init', rest, n) && Unsettled(init', rest, n);
        assert Fatal(init, trials, n + 1) <==> Fatal(init', rest, n);
      }
    }
  }

  /** Entering a segment for chunks that were not taken leaves the other entries as they are. */
  lemma IndexExtended(segs: seq<Segment>, view: map<int, Segment>, s: Segment, view': map<int, Segment>)
    requires IndexOk(segs, view)
    requires forall c :: CoversSegment(s, c) ==> c !in view && c in view' && view'[c] == s
    requires forall c :: c in view' && !CoversSegment(s, c) ==> c in view && view'[c] == view[c]
    requires forall c :: c in view ==> c in view'
    ensures IndexOk([s] + segs, view')
  {
    var segs' := [s] + segs;
    assert forall i :: 1 <= i < |segs'| ==> segs'[i] == segs[i - 1];
    forall i, c | 0 <= i < |segs'| && CoversSegment(segs'[i], c)
      ensures c in view' && view'[c] == segs'[i]
    {
      if i > 0 {
        assert CoversSegment(segs[i - 1], c);
      }
    }
    forall c | c in view'
      ensures view'[c] in segs' && CoversSegment(view'[c], c)
    {
      if !CoversSegment(s, c) {
        assert view[c] in segs;
      }
    }
  }

  /** A segment between calls. */
  ghost predicate SegmentOk(s: Segment)
    reads s, s.bitmap, s.claims
  {
    && s.Valid() && s.Quiet()
    && s.vaStart % BLOCK_SIZE == 0 && s.vaStart <= USIZE_MAX && Chunky(s.vaEnd - s.vaStart)
    && LastChunk(s.vaStart, s.vaEnd - s.vaStart) < RADIX_MAX_CHUNKS
  }

  /** An address in a segment lies in a chunk the segment covers. */
  lemma AddressCovered(s: Segment, addr: int)
    requires SegmentOk(s) && s.Contains(addr)
    ensures CoversSegment(s, addr / CHUNK_SIZE) && 0 <= addr / CHUNK_SIZE < RADIX_MAX_CHUNKS
  {
    ChunkyPositive(s.vaEnd - s.vaStart);
  }

  /** Pages of a segment and addresses in it. */
  lemma PageAddress(s: Segment, page: int)
    requires SegmentOk(s)
    ensures PageIn(s, page) <==> s.Contains(page * BLOCK_SIZE)
    ensures s.BlockOf(page * BLOCK_SIZE) == page - Base(s)
  {
    ChunkyPositive(s.vaEnd - s.vaStart);
    assert s.vaStart == Base(s) * BLOCK_SIZE;
  }

  /** What becomes of a request for which there is no room while `segs` are listed. */
  ghost function GrowFate(m: Memo, max: int, segs: seq<Segment>, kernel: nat -> KernelReply): Fate
    requires Chunky(max) && MemoOk(m, max) && KernelsOk(kernel)
  {
    match Conclusion(m.init, Trials(m, max, segs, RepliesFrom(kernel, 0)))
    case Finds => Granted
    case GivesUp => Denied
    case Dies => Deadly
  }

  /** How many searches have failed in a segment, modulo 256, and whether it is passed over. */
  datatype Mark = Mark(misses: nat, full: bool)

  /** A search has failed in a segment: after four of them it is passed over, and then no more are counted. */
  ghost function Missed(m: Mark): Mark {
    if m.full then m else Mark((m.misses + 1) % 256, m.misses > 2)
  }

  /** A search has failed in the first `n` segments. */
  ghost function MissedBefore(marks: seq<Mark>, n: nat): seq<Mark> {
    seq(|marks|, i requires 0 <= i < |marks| => if i < n then Missed(marks[i]) else marks[i])
  }

  class VaBitmap {
    /** The segments, most recent first. */
    var segs: seq<Segment>
    var latest: Segment?
    var radix: Radix?<Segment>
    const reserver: Reserver

    /** The addresses that the kernel may hand out to this process. */
    ghost const arena: iset<int>

    /** The pages handed out, over all segments. */
    ghost var used: set<int>
    ghost var Repr: set<object>

    ghost predicate Frame()
      reads this, Repr
    {
      && this in Repr && reserver in Repr
      && (forall i :: 0 <= i < |segs| ==> segs[i].Repr() <= Repr && segs[i].Repr() !! {this, reserver})
      && (forall i, j :: 0 <= i < j < |segs| ==> segs[i].Repr() !! segs[j].Repr())
      && (radix != null ==> radix in Repr && radix.Repr <= Repr && radix.Repr !! {this, reserver})
      && (radix != null ==> forall i :: 0 <= i < |segs| ==> segs[i].Repr() !! radix.Repr)
    }

    ghost predicate SegmentsOk()
      requires Frame()
      reads this, Repr
    {
      && reserver.Valid()
      && (forall i :: 0 <= i < |segs| ==> SegmentOk(segs[i]) && InArena(arena, segs[i].vaStart, segs[i].vaEnd))
      && (latest != null ==> latest in segs)
    }

    ghost predicate RadixOk()
      requires Frame()
      reads this, Repr
    {
      && (radix == null ==> segs == [])
      && (radix != null ==> radix.Valid() && IndexOk(segs, radix.view))
    }

    /** `used` is what the bitmaps of the segments say. */
    ghost predicate UsedOk()
      requires Frame()
      reads this, Repr
    {
      && (forall i :: 0 <= i < |segs| ==> Mirrors(used, Base(segs[i]), segs[i].MaxBits(), segs[i].used))
      && (forall p :: p in used ==> exists i :: 0 <= i < |segs| && PageIn(segs[i], p))
    }

    ghost predicate Structure()
      reads this, Repr
    {
      Frame() && SegmentsOk() && RadixOk()
    }

    ghost predicate Valid()
      reads this, Repr
    {
      Structure() && UsedOk()
    }

    ghost predicate Ours(addr: int)
      reads this
    {
      exists i :: 0 <= i < |segs| && segs[i].Contains(addr)
    }

    /** What the kernel answers is an address in the arena. */
    ghost predicate Honest(reply: KernelReply) {
      KernelOk(reply.probe) && Within(reply.probe, reserver.maxReservation, arena)
    }

    ghost predicate HonestAll(kernel: nat -> KernelReply) {
      KernelsOk(kernel) && forall i :: Within(kernel(i).probe, reserver.maxReservation, arena)
    }

    constructor (max: int, ghost space: iset<int>)
      requires Chunky(max)
      ensures Valid() && fresh(Repr) && segs == [] && used == {}
      ensures arena == space && reserver.maxReservation == max
    {
      segs, latest, radix, used, arena := [], null, null, {}, space;
      reserver := new Reserver(max);
      new;
      Repr := {this, reserver};
    }

    // ---------------------------------------------------------------- lookup

    /** Two listed segments never share a chunk. */
    lemma ChunksApart(i: int, j: int, c: int)
      requires Structure() && 0 <= i < j < |segs|
      ensures !(CoversSegment(segs[i], c) && CoversSegment(segs[j], c))
    {
      assert segs[i] != segs[j] by {
        assert segs[i] in segs[i].Repr() && segs[j] in segs[j].Repr();
      }
      assert radix != null;
      assert CoversSegment(segs[i], c) ==> c in radix.view && radix.view[c] == segs[i];
      assert CoversSegment(segs[j], c) ==> c in radix.view && radix.view[c] == segs[j];
    }

    /** An address lies in at most one segment. */
    lemma OneSegment(i: int, j: int, addr: int)
      requires Structure() && 0 <= i < j < |segs|
      ensures !(segs[i].Contains(addr) && segs[j].Contains(addr))
    {
      ChunksApart(i, j, addr / CHUNK_SIZE);
      if segs[i].Contains(addr) {
        AddressCovered(segs[i], addr);
      }
      if segs[j].Contains(addr) {
        AddressCovered(segs[j], addr);
      }
    }

    /** A page lies in at most one segment. */
    lemma OnePage()
      requires Structure()
      ensures PagesApart(segs)
    {
      forall i, j, page | 0 <= i < j < |segs|
        ensures !(PageIn(segs[i], page) && PageIn(segs[j], page))
      {
        OneSegment(i, j, page * BLOCK_SIZE);
        PageAddress(segs[i], page);
        PageAddress(segs[j], page);
      }
    }

    /** The segment the index has for the chunk of `addr`. */
    method GetSegment(addr: int) returns (r: Option<Segment>)
      requires Valid() && 0 <= addr
      ensures r.Some? ==> r.value in segs
      ensures forall i :: 0 <= i < |segs| && segs[i].Contains(addr) ==> r == Some(segs[i])
    {
      if radix == null {
        return None;
      }
      r := radix.Get(addr / CHUNK_SIZE);
      forall i | 0 <= i < |segs| && segs[i].Contains(addr)
        ensures r == Some(segs[i])
      {
        AddressCovered(segs[i], addr);
      }
    }

    method IsOurs(addr: int) returns (r: bool)
      requires Valid() && 0 <= addr
      ensures r <==> Ours(addr)
    {
      var s := GetSegment(addr);
      if s.None? {
        return false;
      }
      r := s.value.vaStart <= addr < s.value.vaEnd;
    }

    /** The list walk that backs up the index. */
    method FindLinear(addr: int) returns (r: Option<Segment>)
      requires Valid()
      ensures r.None? <==> !Ours(addr)
      ensures r.Some? ==> r.value in segs && r.value.Contains(addr)
    {
      for i := 0 to |segs|
        invariant forall j :: 0 <= j < i ==> !segs[j].Contains(addr)
      {
        if segs[i].vaStart <= addr < segs[i].vaEnd {
          return Some(segs[i]);
        }
      }
      r := None;
    }

    /** The segment of `addr`, from the index or else from the list. */
    method FindSegment(addr: int) returns (r: Option<Segment>)
      requires Valid() && 0 <= addr
      ensures r.None? <==> !Ours(addr)
      ensures r.Some? ==> r.value in segs && r.value.Contains(addr)
    {
      r := GetSegment(addr);
      if r.Some? && r.value.vaStart <= addr < r.value.vaEnd {
        return;
      }
      r := FindLinear(addr);
    }

    // ---------------------------------------------------------------- allocation

    /** `count` pages from the page of `addr` on, all in the segment `s`. */
    static ghost predicate RunIn(s: Segment, addr: int, count: int) {
      && addr % BLOCK_SIZE == 0 && 0 < count
      && PageIn(s, addr / BLOCK_SIZE) && PageIn(s, addr / BLOCK_SIZE + count - 1)
    }

    /** The other segments are none of its business when one segment changes. */
    twostate lemma OthersOk(s: Segment)
      requires old(Structure()) && s in old(segs) && SegmentOk(s)
      requires segs == old(segs) && radix == old(radix) && latest == old(latest) && Repr == old(Repr)
      requires unchanged(reserver) && (radix != null ==> unchanged(old(radix.Repr)))
      requires forall j :: 0 <= j < |segs| && segs[j] != s ==> unchanged(segs[j].Repr())
      ensures Structure()
    {
    }

    static ghost function MarkOf(s: Segment): Mark
      reads s
    {
      Mark(s.failedTrys, s.full)
    }

    /** How many searches have failed in each segment, and whether it is passed over. */
    ghost predicate Marked(marks: seq<Mark>)
      reads this`segs, segs
    {
      |marks| == |segs| && forall i :: 0 <= i < |segs| ==> MarkOf(segs[i]) == marks[i]
    }

    /** The bitmaps and flags of the segments are as they were. */
    twostate predicate SameRooms()
      reads this, segs
    {
      segs == old(segs) &&
      forall j :: 0 <= j < |segs| ==> segs[j].used == old(segs[j].used) && segs[j].full == old(segs[j].full)
    }

    method TakeBlocks(s: Segment, count: int, rand: nat) returns (r: Option<int>)
      requires Structure() && s in segs && 0 < count
      modifies s.Repr()
      ensures Structure()
      ensures forall j :: 0 <= j < |segs| && segs[j] != s ==> segs[j].used == old(segs[j].used)
      ensures r.None? ==> SameRooms()
      ensures MarkOf(s) == old(MarkOf(s))
      ensures r.Some? ==> s.BlockAligned(r.value) && s.InBounds(s.BlockOf(r.value), count)
      ensures r.Some? ==> FreeRun(old(s.used), s.BlockOf(r.value), count)
      ensures r.Some? ==> s.used == old(s.used) + Span(s.BlockOf(r.value), s.BlockOf(r.value) + count)
      ensures r.Some? <==> HasRun(old(s.used), s.MaxBits(), count)
    {
      r := s.Take(count, rand);
      OthersOk(s);
    }

    method TakeFrom(s: Segment, count: int, rand: nat) returns (r: Option<int>)
      requires Valid() && s in segs && 0 < count
      modifies this`used, s.Repr()
      ensures Valid()
      ensures r.None? ==> used == old(used) && SameRooms()
      ensures MarkOf(s) == old(MarkOf(s))
      ensures r.Some? ==> 0 < r.value && RunIn(s, r.value, count)
      ensures r.Some? ==> var p := r.value / BLOCK_SIZE;
                AllFree(old(used), p, p + count) && used == old(used) + Span(p, p + count)
      ensures r.Some? <==> HasRun(old(s.used), s.MaxBits(), count)
    {
      r := TakeBlocks(s, count, rand);
      if r.Some? {
        var p := r.value / BLOCK_SIZE;
        TakeMirrors(s, used, old(s.used), r.value, count);
        used := used + Span(p, p + count);
      }
      UsedUpdated(s);
    }

    static lemma TakeMirrors(s: Segment, used: set<int>, blocks: set<int>, addr: int, count: int)
      requires s.vaStart % BLOCK_SIZE == 0 && Mirrors(used, Base(s), s.MaxBits(), blocks)
      requires s.BlockAligned(addr) && s.InBounds(s.BlockOf(addr), count) && 0 < count
      requires FreeRun(blocks, s.BlockOf(addr), count)
      ensures RunIn(s, addr, count)
      ensures var p, b := addr / BLOCK_SIZE, s.BlockOf(addr);
        && AllFree(used, p, p + count)
        && Mirrors(used + Span(p, p + count), Base(s), s.MaxBits(), blocks + Span(b, b + count))
        && SameOutside(used, used + Span(p, p + count), Base(s), s.MaxBits())
    {
      assert s.vaStart == Base(s) * BLOCK_SIZE;
      MirrorAdd(used, Base(s), s.MaxBits(), blocks, addr / BLOCK_SIZE, s.BlockOf(addr), count);
    }

    /** `used` is right again after a change of one segment that it follows. */
    twostate lemma UsedUpdated(s: Segment)
      requires old(Valid()) && Structure() && segs == old(segs) && s in segs
      requires forall j :: 0 <= j < |segs| && segs[j] != s ==> segs[j].used == old(segs[j].used)
      requires Mirrors(used, Base(s), s.MaxBits(), s.used)
      requires SameOutside(old(used), used, Base(s), s.MaxBits())
      ensures UsedOk()
    {
      OnePage();
      forall j | 0 <= j < |segs|
        ensures Mirrors(used, Base(segs[j]), segs[j].MaxBits(), segs[j].used)
      {
        if segs[j] != s {
          MirrorKept(segs, s, j, old(used), used, segs[j].used);
        }
      }
      forall p | p in used
        ensures exists j :: 0 <= j < |segs| && PageIn(segs[j], p)
      {
        assert PageIn(s, p) || p in old(used);
      }
    }

    static lemma MirrorKept(segs: seq<Segment>, s: Segment, j: int, was: set<int>, now: set<int>, blocks: set<int>)
      requires PagesApart(segs) && s in segs && 0 <= j < |segs| && segs[j] != s
      requires Mirrors(was, Base(segs[j]), segs[j].MaxBits(), blocks)
      requires SameOutside(was, now, Base(s), s.MaxBits())
      ensures Mirrors(now, Base(segs[j]), segs[j].MaxBits(), blocks)
    {
      var i :| 0 <= i < |segs| && segs[i] == s;
      forall p | Base(segs[j]) <= p < Base(segs[j]) + segs[j].MaxBits()
        ensures p in now <==> p - Base(segs[j]) in blocks
      {
        assert PageIn(segs[j], p) && (i < j || j < i);
        assert !PageIn(segs[i], p);
      }
    }

    // ---------------------------------------------------------------- giving back

    /** The end of the segment, in pages. */
    static function EndPage(s: Segment): int {
      Base(s) + s.MaxBits()
    }

    /** What is left after giving back the pages of `size` bytes from `addr` on, cut off at the end of the
        segment. */
    static ghost function FreedBy(used: set<int>, s: Segment, addr: int, size: int): set<int> {
      used - Span(addr / BLOCK_SIZE, Min(addr / BLOCK_SIZE + BlocksFor(size), EndPage(s)))
    }

    lemma PageOf(s: Segment, addr: int)
      requires SegmentOk(s) && s.Contains(addr)
      ensures addr / BLOCK_SIZE == Base(s) + s.BlockOf(addr) && PageIn(s, addr / BLOCK_SIZE)
    {
      ChunkyPositive(s.vaEnd - s.vaStart);
      assert s.vaStart == Base(s) * BLOCK_SIZE;
    }

    method FreeBlocks(s: Segment, addr: int, size: int)
      requires Structure() && s in segs && s.Contains(addr) && 0 <= size
      modifies s.Repr()
      ensures Structure()
      ensures forall j :: 0 <= j < |segs| && segs[j] != s ==> segs[j].used == old(segs[j].used)
      ensures s.used == old(s.used) - Span(s.BlockOf(addr), s.BlockOf(addr) + BlocksFor(size))
      ensures s.used <= Span(0, s.MaxBits())
    {
      s.Free(addr, size);
      OthersOk(s);
    }

    method FreeIn(s: Segment, addr: int, size: int)
      requires Valid() && s in segs && s.Contains(addr) && 0 <= size
      modifies this`used, s.Repr()
      ensures Valid()
      ensures used == FreedBy(old(used), s, addr, size)
    {
      PageOf(s, addr);
      FreeBlocks(s, addr, size);
      ghost var p := addr / BLOCK_SIZE;
      ghost var count := Min(p + BlocksFor(size), EndPage(s)) - p;
      MirrorRemove(used, Base(s), s.MaxBits(), old(s.used), p, s.BlockOf(addr), count);
      assert s.used == old(s.used) - Span(s.BlockOf(addr), s.BlockOf(addr) + count);
      used := used - Span(p, p + count);
      UsedUpdated(s);
    }

    /** Give back the pages of `size` bytes from `addr` on, up to the end of the segment. */
    method Free(addr: int, size: int)
      requires Valid() && 0 <= addr && 0 <= size
      modifies Repr
      ensures Valid() && Repr == old(Repr) && segs == old(segs) && latest == old(latest)
      ensures !Ours(addr) ==> used == old(used)
      ensures forall s :: s in segs && s.Contains(addr) ==> used == FreedBy(old(used), s, addr, size)
    {
      if addr == 0 || size == 0 {
        return;
      }
      var s := FindSegment(addr);
      if s.Some? {
        OneSegmentOnly(s.value, addr);
        FreeIn(s.value, addr, size);
      }
    }

    lemma OneSegmentOnly(s: Segment, addr: int)
      requires Valid() && s in segs && s.Contains(addr)
      ensures forall u :: u in segs && u.Contains(addr) ==> u == s
    {
      forall u | u in segs && u.Contains(addr)
        ensures u == s
      {
        var i :| 0 <= i < |segs| && segs[i] == s;
        var j :| 0 <= j < |segs| && segs[j] == u;
        if i < j {
          OneSegment(i, j, addr);
        } else if j < i {
          OneSegment(j, i, addr);
        }
      }
    }

    method ReallocBlocks(s: Segment, addr: int, oldSize: int, newSize: int) returns (r: Option<int>)
      requires Structure() && s in segs && s.Contains(addr) && 0 <= oldSize && 0 <= newSize
      requires s.InBounds(s.BlockOf(addr), BlocksFor(oldSize))
      modifies s.Repr()
      ensures Structure()
      ensures forall j :: 0 <= j < |segs| && segs[j] != s ==> segs[j].used == old(segs[j].used)
      ensures r.Some? ==> r.value == BlocksFor(newSize) * BLOCK_SIZE
      ensures var b, o, n := s.BlockOf(addr), BlocksFor(oldSize), BlocksFor(newSize);
        && (r.Some? <==> n <= o || (b + n <= s.MaxBits() && AllFree(old(s.used), b + o, b + n)))
        && s.used == if r.Some? then Resized(old(s.used), b, o, n) else old(s.used)
    {
      assert s.Taken() == s.used;
      r := s.ReallocInplace(addr, oldSize, newSize);
      OthersOk(s);
    }

    method ReallocIn(s: Segment, addr: int, oldSize: int, newSize: int) returns (r: Option<int>)
      requires Valid() && s in segs && s.Contains(addr) && 0 <= oldSize && 0 <= newSize
      requires addr / BLOCK_SIZE + BlocksFor(oldSize) <= EndPage(s)
      modifies this`used, s.Repr()
      ensures Valid()
      ensures r.Some? ==> r.value == BlocksFor(newSize) * BLOCK_SIZE
      ensures var p, o, n := addr / BLOCK_SIZE, BlocksFor(oldSize), BlocksFor(newSize);
        && (r.Some? <==> CanResize(s, old(used), p, o, n))
        && used == if r.Some? then Resized(old(used), p, o, n) else old(used)
    {
      PageOf(s, addr);
      ghost var p, o, n := addr / BLOCK_SIZE, BlocksFor(oldSize), BlocksFor(newSize);
      CanResizeBlocks(s, used, s.used, p, s.BlockOf(addr), o, n);
      r := ReallocBlocks(s, addr, oldSize, newSize);
      used := if r.Some? then Resized(used, p, o, n) else used;
      assert Mirrors(used, Base(s), s.MaxBits(), s.used) && SameOutside(old(used), used, Base(s), s.MaxBits());
      UsedUpdated(s);
    }

    /** There is room to resize the extent of `o` pages at `p` to `n` pages where it stands. */
    static ghost predicate CanResize(s: Segment, used: set<int>, p: int, o: int, n: int) {
      n <= o || (p + n <= EndPage(s) && AllFree(used, p + o, p + n))
    }

    static lemma CanResizeBlocks(s: Segment, used: set<int>, blocks: set<int>, p: int, b: int, o: int, n: int)
      requires Mirrors(used, Base(s), s.MaxBits(), blocks)
      requires PageIn(s, p) && p == Base(s) + b && 0 <= o && 0 <= n && p + o <= EndPage(s)
      ensures CanResize(s, used, p, o, n) <==>
        n <= o || (b + n <= s.MaxBits() && AllFree(blocks, b + o, b + n))
      ensures CanResize(s, used, p, o, n) ==>
        && Mirrors(Resized(used, p, o, n), Base(s), s.MaxBits(), Resized(blocks, b, o, n))
        && SameOutside(used, Resized(used, p, o, n), Base(s), s.MaxBits())
    {
      if p + n <= EndPage(s) {
        MirrorResized(used, Base(s), s.MaxBits(), blocks, p, b, o, n);
      }
    }

    /** Resize the extent at `addr` in place; the caller owns it, so it lies inside its segment. */
    method ReallocInplace(addr: int, oldSize: int, newSize: int) returns (r: Option<int>)
      requires Valid() && 0 <= addr && 0 <= oldSize && 0 <= newSize
      requires forall s :: s in segs && s.Contains(addr) ==>
                 addr / BLOCK_SIZE + BlocksFor(oldSize) <= EndPage(s)
      modifies Repr
      ensures Valid() && Repr == old(Repr) && segs == old(segs)
      ensures !Ours(addr) ==> r.None? && used == old(used)
      ensures r.None? ==> used == old(used)
      ensures r.Some? ==> r.value == BlocksFor(newSize) * BLOCK_SIZE
      ensures forall s :: s in segs && s.Contains(addr) ==>
        var p, o, n := addr / BLOCK_SIZE, BlocksFor(oldSize), BlocksFor(newSize);
        && (r.Some? <==> CanResize(s, old(used), p, o, n))
        && used == if r.Some? then Resized(old(used), p, o, n) else old(used)
    {
      var s := FindSegment(addr);
      if s.None? {
        return None;
      }
      OneSegmentOnly(s.value, addr);
      r := ReallocIn(s.value, addr, oldSize, newSize);
    }

    // ---------------------------------------------------------------- growing

    static method NewSegment(base: int, end: int, seed: nat) returns (s: Segment)
      requires 0 < base <= USIZE_MAX && base % BLOCK_SIZE == 0 && Chunky(end - base)
      requires LastChunk(base, end - base) < RADIX_MAX_CHUNKS
      ensures SegmentOk(s) && s.used == {} && fresh(s.Repr()) && s.vaStart == base && s.vaEnd == end
      ensures CHUNK_BLOCKS <= s.MaxBits() && !s.full
    {
      ChunkyPositive(end - base);
      s := new Segment(base, end, seed);
    }

    /** Enter a segment in the index for every chunk it touches; none of the writes is dropped. */
    static method Enter(radix: Radix<Segment>, ghost segs: seq<Segment>, s: Segment)
      requires radix.Valid() && IndexOk(segs, radix.view)
      requires 0 < s.vaStart <= USIZE_MAX && s.vaStart <= s.vaEnd
      requires LastChunk(s.vaStart, s.vaEnd - s.vaStart) < RADIX_MAX_CHUNKS
      requires forall c :: CoversSegment(s, c) ==> c !in radix.view
      modifies radix.Repr
      ensures radix.Valid() && IndexOk([s] + segs, radix.view)
      ensures fresh(radix.Repr - old(radix.Repr)) && old(radix.Repr) <= radix.Repr
    {
      radix.SetRange(s.vaStart, s.vaEnd - s.vaStart, s);
      IndexExtended(segs, old(radix.view), s, radix.view);
    }

    /** A reservation that collides with no listed segment becomes the new head of the list. */
    method LinkSegment(s: Segment)
      requires Structure() && radix != null && SegmentOk(s) && s.Repr() !! Repr && InArena(arena, s.vaStart, s.vaEnd)
      requires forall c :: CoversSegment(s, c) ==> c !in radix.view
      modifies radix.Repr, this`segs, this`Repr
      ensures Structure() && fresh(Repr - old(Repr) - s.Repr()) && old(Repr) + s.Repr() <= Repr
      ensures segs == [s] + old(segs) && radix == old(radix)
      ensures forall u :: u in segs ==> u.used == old(u.used)
    {
      Enter(radix, segs, s);
      Repr := Repr + s.Repr() + radix.Repr;
      segs := [s] + segs;
      Linked(s);
    }

    twostate lemma Linked(s: Segment)
      requires old(Structure()) && old(radix != null) && radix == old(radix) && latest == old(latest)
      requires segs == [s] + old(segs) && unchanged(reserver)
      requires SegmentOk(s) && InArena(arena, s.vaStart, s.vaEnd) && radix.Valid() && IndexOk(segs, radix.view)
      requires s.Repr() !! old(Repr) && fresh(radix.Repr - old(radix.Repr))
      requires Repr == old(Repr) + s.Repr() + radix.Repr
      requires forall i :: 0 <= i < |old(segs)| ==> unchanged(old(segs)[i].Repr())
      ensures Structure()
    {
      assert segs[0] == s && forall i :: 1 <= i < |segs| ==> segs[i] == old(segs)[i - 1];
    }

    /** The index exists from the first growth on. */
    method EnsureRadix()
      requires Valid()
      modifies this`radix, this`Repr
      ensures Valid() && radix != null && fresh(Repr - old(Repr)) && old(Repr) <= Repr
    {
      if radix == null {
        radix := new Radix<Segment>();
        Repr := Repr + radix.Repr;
      }
    }

    method ReserveVa(probe: Answers) returns (r: Reservation)
      requires Valid() && KernelOk(probe)
      modifies reserver
      ensures Valid()
      ensures r == Answer(old(reserver.Remembers()), reserver.maxReservation, probe)
      ensures reserver.Remembers() == After(old(reserver.Remembers()), reserver.maxReservation, probe)
    {
      r := reserver.Reserve(probe);
    }

    /** A new, empty segment at the head leaves `used` as it is. */
    twostate lemma UsedKept(s: Segment)
      requires old(Valid()) && Structure() && segs == [s] + old(segs) && s.used == {} && used == old(used)
      requires forall u :: u in old(segs) ==> u.used == old(u.used)
      ensures UsedOk()
    {
      OnePage();
      assert segs[0] == s && forall i :: 1 <= i < |segs| ==> segs[i] == old(segs)[i - 1];
      forall p | p in used
        ensures !PageIn(s, p) && exists i :: 0 <= i < |segs| && PageIn(segs[i], p)
      {
        var i :| 0 <= i < |old(segs)| && PageIn(old(segs)[i], p);
        assert PageIn(segs[i + 1], p);
      }
      assert Mirrors(used, Base(s), s.MaxBits(), s.used) by {
        forall p | Base(s) <= p < Base(s) + s.MaxBits() ensures p !in used {
          assert PageIn(s, p);
        }
      }
    }

    method AddSegment(s: Segment)
      requires Valid() && radix != null && SegmentOk(s) && s.Repr() !! Repr && s.used == {}
      requires InArena(arena, s.vaStart, s.vaEnd)
      requires !Collides(segs, s.vaStart, s.vaEnd - s.vaStart)
      modifies radix.Repr, this`segs, this`Repr
      ensures Valid() && fresh(Repr - old(Repr) - s.Repr()) && old(Repr) <= Repr
      ensures segs == [s] + old(segs) && s.used == {} && used == old(used) && latest == old(latest)
    {
      CollidesIff(segs, radix.view, s.vaStart, s.vaEnd - s.vaStart);
      LinkSegment(s);
      UsedKept(s);
    }

    /** What the next attempt to grow will come to. */
    ghost function Prospect(reply: KernelReply): Trial
      requires reserver.Valid()
      reads this, reserver
    {
      TrialOf(reserver.Remembers(), reserver.maxReservation, segs, reply)
    }

    /** Reserve address space and list it as a new segment, unless the kernel refuses or the space shares
        a chunk with a listed segment or lies beyond the reach of the index. A refusal when the hint has been
        given up kills the process. */
    method Grow(reply: KernelReply) returns (r: Growth)
      requires Valid() && Honest(reply)
      modifies Repr
      ensures Valid() && fresh(Repr - old(Repr)) && old(Repr) <= Repr
      ensures used == old(used) && latest == old(latest)
      ensures reserver.Remembers() == After(old(reserver.Remembers()), reserver.maxReservation, reply.probe)
      ensures r.Grown? <==> old(Prospect(reply)) == Fit
      ensures r.Died? <==> old(Prospect(reply)) == Refusal && !old(reserver.baseInit)
      ensures r.Grown? ==> segs == [r.segment] + old(segs) && r.segment.used == {}
      ensures r.Grown? ==> CHUNK_BLOCKS <= r.segment.MaxBits() && !r.segment.full
      ensures !r.Grown? ==> segs == old(segs) && SameRooms()
    {
      EnsureRadix();
      ReservesLargest(reserver.Remembers(), reserver.maxReservation, reply.probe);
      var va := ReserveVa(reply.probe);
      if !va.Reserved? {
        return if va.Aborted? then Died else Failed;
      }
      r := ListReservation(va.base, va.end, reply);
    }

    method Collision(base: int, size: int) returns (r: bool)
      requires Valid() && radix != null && 0 <= base <= USIZE_MAX && 0 <= size
      ensures r <==> Collides(segs, base, size)
    {
      r := radix.CheckCollision(base, size);
      CollidesIff(segs, radix.view, base, size);
    }

    /** List address space that collides with nothing as a new segment. */
    method ListSegment(base: int, end: int, seed: nat) returns (s: Segment)
      requires Valid() && radix != null && 0 < base <= USIZE_MAX && base % BLOCK_SIZE == 0 && Chunky(end - base)
      requires !Collides(segs, base, end - base) && InArena(arena, base, end)
      modifies radix.Repr, this`segs, this`Repr
      ensures Valid() && fresh(Repr - old(Repr)) && old(Repr) <= Repr
      ensures used == old(used) && latest == old(latest) && segs == [s] + old(segs)
      ensures s.used == {} && CHUNK_BLOCKS <= s.MaxBits() && !s.full
    {
      s := NewSegment(base, end, seed);
      AddSegment(s);
    }

    /** List reserved address space as a new segment, if that is possible. */
    method ListReservation(base: int, end: int, reply: KernelReply) returns (r: Growth)
      requires Valid() && radix != null && 0 < base <= USIZE_MAX && base % BLOCK_SIZE == 0 && Chunky(end - base)
      requires InArena(arena, base, end)
      modifies radix.Repr, this`segs, this`Repr
      ensures Valid() && fresh(Repr - old(Repr)) && old(Repr) <= Repr
      ensures used == old(used) && latest == old(latest)
      ensures r.Failed? <==> Collides(old(segs), base, end - base) || !reply.mapsOk
      ensures r.Failed? ==> segs == old(segs) && SameRooms()
      ensures !r.Failed? ==> r.Grown? && segs == [r.segment] + old(segs) && r.segment.used == {}
      ensures !r.Failed? ==> CHUNK_BLOCKS <= r.segment.MaxBits() && !r.segment.full
    {
      ChunkyPositive(end - base);
      var collides := Collision(base, end - base);
      if collides || !reply.mapsOk {
        return Failed;
      }
      var s := ListSegment(base, end, reply.seed);
      return Grown(s);
    }

    // ---------------------------------------------------------------- allocation

    /** `addr` is the start of `count` pages in one segment that were free in `was` and are now taken; that
        segment is where the next search begins. */
    ghost predicate Takes(was: set<int>, addr: int, count: int)
      reads this
    {
      && 0 < addr && addr % BLOCK_SIZE == 0
      && (exists s :: s in segs && RunIn(s, addr, count) && latest == s)
      && AllFree(was, addr / BLOCK_SIZE, addr / BLOCK_SIZE + count)
      && used == was + Span(addr / BLOCK_SIZE, addr / BLOCK_SIZE + count)
    }

    /** Count a failed search against a segment; after four of them the segment is passed over. */
    method NoteFailure(s: Segment)
      requires Valid() && s in segs && !s.full
      modifies s`failedTrys, s`full
      ensures Valid() && MarkOf(s) == Missed(old(MarkOf(s)))
    {
      var tries := s.failedTrys;
      s.failedTrys := (tries + 1) % 256;
      if tries > 2 {
        s.full := true;
      }
      OthersOk(s);
    }

    method SetLatest(s: Segment)
      requires Valid() && s in segs
      modifies this`latest
      ensures Valid() && latest == s
    {
      latest := s;
    }

    /** The segments that the list walk still has to look at have no room for `count` pages. */
    ghost predicate NoRoomFrom(i: nat, count: int)
      reads this, segs
    {
      forall j :: i <= j < |segs| ==> segs[j].full || !HasRun(segs[j].used, segs[j].MaxBits(), count)
    }

    ghost predicate NoRoom(count: int)
      reads this, segs
    {
      NoRoomFrom(0, count)
    }

    /** An empty segment has room for any request of at most one chunk. */
    lemma EmptyHasRoom(count: int)
      requires 0 < |segs| && segs[0].used == {} && !segs[0].full && CHUNK_BLOCKS <= segs[0].MaxBits()
      requires 0 < count <= CHUNK_BLOCKS
      ensures !NoRoom(count)
    {
      assert FreeRun(segs[0].used, 0, count);
    }

    /** Whether there is room depends on the used pages and the marks only. */
    ghost predicate NoPages(marks: seq<Mark>, pages: set<int>, count: int)
      reads this`segs
    {
      && |marks| == |segs|
      && forall j :: 0 <= j < |segs| ==> marks[j].full || !PageRun(pages, Base(segs[j]), segs[j].MaxBits(), count)
    }

    lemma NoRoomIs(marks: seq<Mark>, count: int)
      requires Valid() && Marked(marks) && 0 <= count
      ensures NoRoom(count) <==> NoPages(marks, used, count)
    {
      forall j | 0 <= j < |segs|
        ensures HasRun(segs[j].used, segs[j].MaxBits(), count) <==>
          PageRun(used, Base(segs[j]), segs[j].MaxBits(), count)
        ensures segs[j].full == marks[j].full
      {
        assert MarkOf(segs[j]) == marks[j];
        RunMirrors(used, Base(segs[j]), segs[j].MaxBits(), segs[j].used, count);
      }
    }

    lemma LatestIs(count: int)
      requires Valid() && 0 <= count
      ensures LatestFull(count) <==> latest == null || !PageRun(used, Base(latest), latest.MaxBits(), count)
    {
      if latest != null {
        var j :| 0 <= j < |segs| && segs[j] == latest;
        RunMirrors(used, Base(latest), latest.MaxBits(), latest.used, count);
      }
    }

    /** Free pages of a segment are a run in its bitmap. */
    lemma RunThere(s: Segment, addr: int, count: int)
      requires Valid() && s in segs && RunIn(s, addr, count)
      requires AllFree(used, addr / BLOCK_SIZE, addr / BLOCK_SIZE + count)
      ensures HasRun(s.used, s.MaxBits(), count)
    {
      var i :| 0 <= i < |segs| && segs[i] == s;
      var b := addr / BLOCK_SIZE - Base(s);
      MirrorAdd(used, Base(s), s.MaxBits(), s.used, addr / BLOCK_SIZE, b, count);
      assert FreeRun(s.used, b, count);
    }

    /** Look at one segment of the list. */
    method TryListed(s: Segment, ghost i: nat, count: int, rand: nat) returns (r: Option<int>)
      requires Valid() && 0 < count && i < |segs| && s == segs[i]
      modifies this`used, this`latest, s.Repr()
      ensures Valid() && (r.None? ==> used == old(used))
      ensures r.Some? ==> Takes(old(used), r.value, count) && !old(NoRoomFrom(i, count))
      ensures r.None? ==> (NoRoomFrom(i + 1, count) <==> old(NoRoomFrom(i, count)))
      ensures MarkOf(s) == if r.Some? then old(MarkOf(s)) else Missed(old(MarkOf(s)))
      ensures r.None? ==> latest == old(latest)
      ensures r.Some? ==> !old(s.full) && latest == s
    {
      if s.full {
        return None;
      }
      r := TakeFrom(s, count, rand);
      if r.Some? {
        SetLatest(s);
      } else {
        NoteFailure(s);
      }
    }

    /** Look at the next segment of the list; a search that fails is counted. */
    method TryNext(i: nat, count: int, rand: nat, ghost marks: seq<Mark>) returns (r: Option<int>)
      requires Valid() && 0 < count && i < |segs| && Marked(MissedBefore(marks, i))
      modifies Repr
      ensures Valid() && Repr == old(Repr) && segs == old(segs)
      ensures reserver.Remembers() == old(reserver.Remembers())
      ensures r.None? ==> used == old(used) && (NoRoomFrom(i + 1, count) <==> old(NoRoomFrom(i, count)))
      ensures r.Some? ==> Takes(old(used), r.value, count) && !old(NoRoomFrom(i, count)) && latest == segs[i]
      ensures Marked(MissedBefore(marks, if r.Some? then i else i + 1)) && (r.None? ==> latest == old(latest))
    {
      r := TryListed(segs[i], i, count, rand);
    }

    ghost function AllMarks(): (marks: seq<Mark>)
      reads this, segs
      ensures Marked(marks)
    {
      seq(|segs|, i requires 0 <= i < |segs| reads this, segs => MarkOf(segs[i]))
    }

    /** Walk the list for a segment with room. */
    method ScanSegments(count: int, rand: nat -> nat, ghost marks: seq<Mark>) returns (r: Option<int>, ghost k: nat)
      requires Valid() && 0 < count && Marked(marks)
      modifies Repr
      ensures Valid() && Repr == old(Repr) && segs == old(segs)
      ensures reserver.Remembers() == old(reserver.Remembers())
      ensures r.None? ==> used == old(used)
      ensures r.Some? ==> Takes(old(used), r.value, count)
      ensures r.None? <==> old(NoRoom(count))
      ensures k <= |segs| && (r.None? <==> k == |segs|) && (r.Some? ==> latest == segs[k])
      ensures Marked(MissedBefore(marks, k))
      ensures r.None? ==> NoRoom(count) && latest == old(latest) && (LatestFull(count) <==> old(LatestFull(count)))
    {
      NoRoomIs(marks, count);
      LatestIs(count);
      for i := 0 to |segs|
        invariant Valid() && Repr == old(Repr) && segs == old(segs) && used == old(used)
        invariant reserver.Remembers() == old(reserver.Remembers())
        invariant old(NoRoom(count)) <==> NoRoomFrom(i, count)
        invariant Marked(MissedBefore(marks, i)) && latest == old(latest)
      {
        r := TryNext(i, count, rand(i), marks);
        if r.Some? {
          return r, i;
        }
      }
      NoRoomIs(MissedBefore(marks, |segs|), count);
      LatestIs(count);
      return None, |segs|;
    }

    /** How the attempts to grow from the `i`-th on will end. */
    ghost function ForeseesFrom(kernel: nat -> KernelReply, i: nat): Ending
      requires reserver.Valid() && KernelsOk(kernel) && i <= ATTEMPTS
      reads this, reserver
    {
      Conclusion(reserver.baseInit,
                 Trials(reserver.Remembers(), reserver.maxReservation, segs, RepliesFrom(kernel, i)))
    }

    ghost function Foresees(kernel: nat -> KernelReply): Ending
      requires reserver.Valid() && KernelsOk(kernel)
      reads this, reserver
    {
      ForeseesFrom(kernel, 0)
    }

    /** `s` is a new, empty segment, and no other has gone. */
    ghost predicate Listed(was: seq<Segment>, s: Segment)
      reads this, s
    {
      s in segs && s.used == {} && CHUNK_BLOCKS <= s.MaxBits() && Keeps(was, segs)
    }

    /** What is remembered once all attempts from the `i`-th on have been made. */
    ghost function MemoFrom(kernel: nat -> KernelReply, i: nat): Memo
      requires reserver.Valid() && KernelsOk(kernel) && i <= ATTEMPTS
      reads this, reserver
    {
      MemoAfter(reserver.Remembers(), reserver.maxReservation, RepliesFrom(kernel, i))
    }

    /** One attempt to grow. */
    method TryGrow(kernel: nat -> KernelReply, i: nat) returns (r: Growth)
      requires Valid() && HonestAll(kernel) && i < ATTEMPTS
      modifies Repr
      ensures Valid() && fresh(Repr - old(Repr)) && old(Repr) <= Repr && used == old(used)
      ensures if r.Grown? then Listed(old(segs), r.segment) else segs == old(segs)
      ensures old(ForeseesFrom(kernel, i)) == if r.Failed? then ForeseesFrom(kernel, i + 1) else EndingOf(r)
      ensures !r.Grown? ==> SameRooms() && latest == old(latest) && MemoFrom(kernel, i + 1) == old(MemoFrom(kernel, i))
    {
      RepliesStep(kernel, i);
      r := Grow(kernel(i));
    }

    /** Ask for a new segment up to ten times. */
    method GrowRetry(kernel: nat -> KernelReply) returns (r: Growth)
      requires Valid() && HonestAll(kernel)
      modifies Repr
      ensures Valid() && fresh(Repr - old(Repr)) && used == old(used)
      ensures if r.Grown? then Listed(old(segs), r.segment) else segs == old(segs)
      ensures EndingOf(r) == old(Foresees(kernel))
      ensures !r.Grown? ==> SameRooms() && latest == old(latest)
      ensures r.Failed? ==> reserver.Remembers() == old(MemoFrom(kernel, 0))
    {
      r := Failed;
      var tried := 0;
      while tried != ATTEMPTS && r.Failed?
        invariant 0 <= tried <= ATTEMPTS && Valid() && fresh(Repr - old(Repr)) && used == old(used)
        invariant if r.Grown? then Listed(old(segs), r.segment) else segs == old(segs)
        invariant old(Foresees(kernel)) == if r.Failed? then ForeseesFrom(kernel, tried) else EndingOf(r)
        invariant !r.Grown? ==> SameRooms() && latest == old(latest)
        invariant !r.Grown? ==> MemoFrom(kernel, tried) == old(MemoFrom(kernel, 0))
        decreases ATTEMPTS - tried
      {
        r := TryGrow(kernel, tried);
        tried := tried + 1;
      }
    }

    static ghost function EndingOf(r: Growth): Ending {
      match r
      case Grown(_) => Finds
      case Failed => GivesUp
      case Died => Dies
    }

    /** Take pages from a new segment. */
    method TakeNew(s: Segment, count: int, rand: nat) returns (r: Outcome)
      requires Valid() && s in segs && s.used == {} && CHUNK_BLOCKS <= s.MaxBits() && 0 < count
      modifies this`used, this`latest, s.Repr()
      ensures Valid() && !r.Abort?
      ensures r.NoSpace? ==> used == old(used) && count > CHUNK_BLOCKS
      ensures r.Address? ==> Takes(old(used), r.addr, count)
    {
      assert count <= CHUNK_BLOCKS ==> FreeRun(s.used, 0, count);
      SetLatest(s);
      var a := TakeFrom(s, count, rand);
      r := if a.Some? then Address(a.value) else NoSpace;
    }

    /** The last resort: a new segment, which has room for any request of at most one chunk. */
    method AllocFresh(count: int, rand: nat, kernel: nat -> KernelReply) returns (r: Outcome)
      requires Valid() && 0 < count && HonestAll(kernel)
      modifies Repr
      ensures Valid() && fresh(Repr - old(Repr)) && Keeps(old(segs), segs)
      ensures !r.Address? ==> used == old(used)
      ensures r.Address? ==> Takes(old(used), r.addr, count)
      ensures r.Abort? <==> old(Foresees(kernel)) == Dies
      ensures count <= CHUNK_BLOCKS ==> (r.NoSpace? <==> old(Foresees(kernel)) == GivesUp)
      ensures count <= CHUNK_BLOCKS && r.NoSpace? ==>
        SameRooms() && latest == old(latest) && reserver.Remembers() == old(MemoFrom(kernel, 0))
    {
      ghost var end := Foresees(kernel);
      var s := GrowRetry(kernel);
      if !s.Grown? {
        return if s.Died? then Abort else NoSpace;
      }
      r := TakeNew(s.segment, count, rand);
    }

    ghost predicate LatestFull(count: int)
      reads this, latest
    {
      latest != null ==> !HasRun(latest.used, latest.MaxBits(), count)
    }

    method TryLatest(count: int, rand: nat) returns (r: Option<int>)
      requires Valid() && 0 < count
      modifies Repr
      ensures Valid() && Repr == old(Repr) && segs == old(segs)
      ensures reserver.Remembers() == old(reserver.Remembers())
      ensures r.None? ==> used == old(used) && (NoRoom(count) <==> old(NoRoom(count)))
      ensures r.None? <==> old(LatestFull(count))
      ensures r.None? ==> LatestFull(count)
      ensures r.Some? ==> Takes(old(used), r.value, count)
    {
      if latest == null {
        return None;
      }
      r := TakeFrom(latest, count, rand);
    }

    /** There is no room in the segments, which are `was`, and `m` is what is remembered of attempts to grow. */
    ghost predicate Baffled(count: int, was: seq<Segment>, m: Memo)
      reads this, reserver, segs
    {
      segs == was && NoRoom(count) && reserver.Remembers() == m
    }

    /** Look in the listed segments, then in a new one. */
    method AllocListed(count: int, rand: nat -> nat, kernel: nat -> KernelReply) returns (r: Outcome)
      requires Valid() && 0 < count && HonestAll(kernel)
      modifies Repr
      ensures Valid() && fresh(Repr - old(Repr)) && Keeps(old(segs), segs)
      ensures !r.Address? ==> used == old(used)
      ensures r.Address? ==> Takes(old(used), r.addr, count)
      ensures r.Abort? <==> old(NoRoom(count)) && old(Foresees(kernel)) == Dies
      ensures count <= CHUNK_BLOCKS ==> (r.NoSpace? <==> old(NoRoom(count)) && old(Foresees(kernel)) == GivesUp)
      ensures count <= CHUNK_BLOCKS && r.NoSpace? ==>
        Baffled(count, old(segs), old(MemoFrom(kernel, 0))) && (LatestFull(count) <==> old(LatestFull(count)))
    {
      ghost var full, end := NoRoom(count), Foresees(kernel);
      var a;
      ghost var k;
      a, k := ScanSegments(count, rand, AllMarks());
      if a.Some? {
        return Address(a.value);
      }
      r := AllocFresh(count, rand(0), kernel);
    }

    /** The very first segment; without it the process cannot go on. The only segment is new, so it has room
        for any request of at most one chunk. */
    method AllocFirst(count: int, rand: nat -> nat, first: KernelReply, kernel: nat -> KernelReply)
      returns (r: Outcome)
      requires Valid() && segs == [] && 0 < count && Honest(first) && HonestAll(kernel)
      modifies Repr
      ensures Valid() && fresh(Repr - old(Repr))
      ensures !r.Address? ==> used == old(used)
      ensures r.Address? ==> Takes(old(used), r.addr, count)
      ensures old(Prospect(first)) != Fit ==> r.Abort?
      ensures old(Prospect(first)) == Fit && count <= CHUNK_BLOCKS ==> r.Address?
    {
      ghost var trial := Prospect(first);
      var s := Grow(first);
      if !s.Grown? {
        return Abort;
      }
      if count <= CHUNK_BLOCKS {
        EmptyHasRoom(count);
      }
      r := AllocListed(count, rand, kernel);
    }

    /** Take `count` pages without looking in the latest segment first. */
    method AllocBeyond(count: int, rand: nat -> nat, first: KernelReply, kernel: nat -> KernelReply)
      returns (r: Outcome)
      requires Valid() && 0 < count && Honest(first) && HonestAll(kernel)
      modifies Repr
      ensures Valid() && fresh(Repr - old(Repr)) && Keeps(old(segs), segs)
      ensures !r.Address? ==> used == old(used)
      ensures r.Address? ==> Takes(old(used), r.addr, count)
      ensures count <= CHUNK_BLOCKS ==>
        (r.Abort? <==> if old(segs) == [] then old(Prospect(first)) != Fit
                       else old(NoRoom(count)) && old(Foresees(kernel)) == Dies)
      ensures count <= CHUNK_BLOCKS ==>
        (r.NoSpace? <==> old(segs) != [] && old(NoRoom(count)) && old(Foresees(kernel)) == GivesUp)
      ensures count <= CHUNK_BLOCKS && r.NoSpace? ==>
        Baffled(count, old(segs), old(MemoFrom(kernel, 0))) && (LatestFull(count) <==> old(LatestFull(count)))
    {
      if segs == [] {
        r := AllocFirst(count, rand, first, kernel);
      } else {
        r := AllocListed(count, rand, kernel);
      }
    }

    /** Take `count` pages: from the latest segment, else from any listed one, else from a new one. */
    method AllocPages(count: int, rand: nat -> nat, first: KernelReply, kernel: nat -> KernelReply)
      returns (r: Outcome)
      requires Valid() && 0 < count && Honest(first) && HonestAll(kernel)
      modifies Repr
      ensures Valid() && fresh(Repr - old(Repr)) && Keeps(old(segs), segs)
      ensures !r.Address? ==> used == old(used)
      ensures r.Address? ==> Takes(old(used), r.addr, count)
      ensures count <= CHUNK_BLOCKS ==> (r.Abort? <==> old(MustDie(count, first, kernel)))
      ensures count <= CHUNK_BLOCKS ==> (r.NoSpace? <==> old(MustFail(count, kernel)))
      ensures count <= CHUNK_BLOCKS && r.NoSpace? ==>
        Baffled(count, old(segs), old(MemoFrom(kernel, 0))) && LatestFull(count)
    {
      ghost var dies, fails := MustDie(count, first, kernel), MustFail(count, kernel);
      var a := TryLatest(count, rand(0));
      if a.Some? {
        return Address(a.value);
      }
      r := AllocBeyond(count, rand, first, kernel);
    }

    /** No room in the latest segment nor in any the list walk looks at. */
    ghost predicate Crowded(count: int)
      reads this, latest, segs
    {
      LatestFull(count) && NoRoom(count)
    }

    /** What an allocation kills the process for: there is no segment and the first cannot be had, or there is
        no room and the attempts to grow end in a fatal refusal. */
    ghost predicate MustDie(count: int, first: KernelReply, kernel: nat -> KernelReply)
      requires reserver.Valid() && KernelsOk(kernel)
      reads this, reserver, latest, segs
    {
      if segs == [] then Prospect(first) != Fit else Crowded(count) && Foresees(kernel) == Dies
    }

    /** What an allocation fails for: there are segments but no room, and ten attempts to grow fail. */
    ghost predicate MustFail(count: int, kernel: nat -> KernelReply)
      requires reserver.Valid() && KernelsOk(kernel)
      reads this, reserver, latest, segs
    {
      segs != [] && Crowded(count) && Foresees(kernel) == GivesUp
    }

    /** What becomes of a request for `count` pages. */
    ghost function AllocFate(count: int, first: KernelReply, kernel: nat -> KernelReply): Fate
      requires Valid() && KernelsOk(kernel)
      reads this, Repr
    {
      if MustDie(count, first, kernel) then Deadly else if MustFail(count, kernel) then Denied else Granted
    }

    /** A request for `count` pages has just been refused: there is no room in the segments, which are `was`, and `m` is
        what is remembered of attempts to grow. */
    ghost predicate Stuck(count: int, was: seq<Segment>, m: Memo)
      reads this, reserver, latest, segs
    {
      Baffled(count, was, m) && LatestFull(count) && was != []
    }

    /** What becomes of it if it is made again. */
    lemma StuckFate(count: int, was: seq<Segment>, m: Memo, first: KernelReply, again: nat -> KernelReply)
      requires Valid() && KernelsOk(again) && Stuck(count, was, m) && MemoOk(m, reserver.maxReservation)
      ensures AllocFate(count, first, again) == GrowFate(m, reserver.maxReservation, was, again)
    {
    }

    /** Take pages for `size` bytes. */
    method Alloc(size: int, rand: nat -> nat, first: KernelReply, kernel: nat -> KernelReply) returns (r: Outcome)
      requires Valid() && 0 <= size && Honest(first) && HonestAll(kernel)
      modifies Repr
      ensures Valid() && fresh(Repr - old(Repr)) && Keeps(old(segs), segs)
      ensures !r.Address? ==> used == old(used)
      ensures r.Address? ==> 0 < size && Takes(old(used), r.addr, BlocksFor(size))
      ensures size == 0 ==> r.NoSpace?
      ensures 0 < size <= CHUNK_SIZE ==> FateOf(r) == old(AllocFate(BlocksFor(size), first, kernel))
      ensures 0 < size <= CHUNK_SIZE && r.NoSpace? ==> Stuck(BlocksFor(size), old(segs), old(MemoFrom(kernel, 0)))
    {
      if size == 0 {
        return NoSpace;
      }
      var count := BlocksFor(size);
      ChunkCount(size);
      ghost var fate := AllocFate(count, first, kernel);
      r := AllocPages(count, rand, first, kernel);
    }
  }
}
