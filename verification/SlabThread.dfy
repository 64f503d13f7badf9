/** One thread at work on slab blocks: the code of `malloc` and `free` for small sizes, refilling, and
    thread exit, over the lists of the thread, the shared lists and the slabs. Each piece of code is shown
    to be a run of the transition system of SlabLife, so that what holds of all runs of any number of
    threads holds of it. */
module SlabThreads {
  import opened Wrappers
  import opened Words
  import opened Segments
  import opened Radixes
  import opened Reservations
  import opened VaBitmaps
  import opened Links
  import opened SizeClasses
  import opened Carving
  import opened SlabLife
  import opened SlabPages
  import opened ThreadLocal
  import opened InterConnect

  /** The lists in memory are those of the transition system. */
  ghost predicate Mirror(id: nat, at: map<Place, seq<nat>>, bins: seq<seq<nat>>, shards: map<Slot, seq<nat>>,
                         ncpu: nat)
  {
    && |bins| == NUM_SIZE_CLASSES
    && (forall c: Class :: bins[c] == At(at, Bin(id, c)))
    && (forall s :: InRange(ncpu, s) ==> s in shards && shards[s] == At(at, Shard(s.cpu, s.class_)))
  }

  /** Both codes can link every block of the slab: none is at an address that equals a key. */
  ghost predicate KeysApart(s: Slab, y: Layout, code: Code, code': Code) {
    forall i: nat :: i < Capacity(s.class_, y) ==> Readable(code, BlockOf(s, i, y)) && Readable(code', BlockOf(s, i, y))
  }

  /** With exclusive or this is all it says: no block of the slab is at an address that equals a key. */
  lemma KeysApartIff(s: Slab, y: Layout, key: nat, key': nat)
    requires LayoutOk(y) && SlabOk(s, y)
    ensures KeysApart(s, y, XorCode(key), XorCode(key')) <==>
      forall i: nat :: i < Capacity(s.class_, y) ==> BlockOf(s, i, y) != key && BlockOf(s, i, y) != key'
  {
    forall i: nat | i < Capacity(s.class_, y)
      ensures Readable(XorCode(key), BlockOf(s, i, y)) <==> BlockOf(s, i, y) != key
      ensures Readable(XorCode(key'), BlockOf(s, i, y)) <==> BlockOf(s, i, y) != key'
    {
      XorReadable(key, BlockOf(s, i, y));
      XorReadable(key', BlockOf(s, i, y));
    }
  }

  /** No address in `arena` that a block can have equals the key. */
  ghost predicate Keyless(code: Code, arena: iset<int>) {
    Via(code, 0) == 0 && forall p: nat :: 0 < p && p in arena && p % 16 == 0 ==> Readable(code, p)
  }

  /** For exclusive or this means that the key is no such address. */
  lemma XorKeyless(key: nat, arena: iset<int>)
    ensures Keyless(XorCode(key), arena) <==> key == 0 || key % 16 != 0 || key !in arena
  {
    forall p: nat | p != 0
      ensures Readable(XorCode(key), p) <==> p != key
    {
      XorReadable(key, p);
    }
    assert Via(XorCode(key), 0) == 0;
    assert 0 < key && key in arena && key % 16 == 0 ==> !Readable(XorCode(key), key);
  }

  lemma PlainKeyless(arena: iset<int>)
    ensures Keyless(PLAIN, arena)
  {
    forall p: nat
      ensures Readable(PLAIN, p) <==> p != 0
    {
      PlainReadable(p);
    }
  }

  lemma KeylessApart(s: Slab, y: Layout, code: Code, code': Code, arena: iset<int>)
    requires LayoutOk(y) && SlabOk(s, y) && InArena(arena, s.start, EndOf(s, y))
    requires Keyless(code, arena) && Keyless(code', arena)
    ensures KeysApart(s, y, code, code')
  {
    forall i: nat | i < Capacity(s.class_, y)
      ensures 0 < BlockOf(s, i, y) && BlockOf(s, i, y) in arena && BlockOf(s, i, y) % 16 == 0
    {
      BlockInArena(s, y, i, arena);
    }
  }

  lemma BlockInArena(s: Slab, y: Layout, i: nat, arena: iset<int>)
    requires LayoutOk(y) && SlabOk(s, y) && InArena(arena, s.start, EndOf(s, y)) && i < Capacity(s.class_, y)
    ensures 0 < BlockOf(s, i, y) && BlockOf(s, i, y) in arena && BlockOf(s, i, y) % 16 == 0
  {
    Spaced(s.start + s.head, Size(s.class_, y), i, Capacity(s.class_, y));
    NthAligned(s.start + s.head, Size(s.class_, y), i);
  }

  /** Every carved block has a header, and both codes can link it. */
  ghost predicate Known(slabs: seq<Slab>, y: Layout, next: map<nat, nat>, code: Code, code': Code) {
    && Via(code, 0) == 0 && Via(code', 0) == 0
    && (forall k :: 0 <= k < |slabs| ==> KeysApart(slabs[k], y, code, code'))
    && (forall b :: Carved(slabs, b, y) ==> b in next)
  }

  /** A thread remembers at most one slab per class that it has not used up. */
  ghost predicate PendingOk(id: nat, slabs: seq<Slab>, y: Layout, meta: map<nat, MetaData>, pending: seq<nat>,
                            index: seq<nat>)
  {
    && |pending| == |index| == NUM_SIZE_CLASSES
    && forall c: Class :: pending[c] != 0 ==> PendingAt(id, slabs, y, meta, pending[c], index[c], c)
  }

  ghost predicate PendingAt(id: nat, slabs: seq<Slab>, y: Layout, meta: map<nat, MetaData>, slab: nat, k: nat,
                            c: Class)
  {
    && k < |slabs| && slabs[k].start == slab && slabs[k].head == METADATA_SIZE
    && slabs[k].class_ == c && slabs[k].owner == id && slabs[k].carved <= Capacity(c, y)
    && slab in meta && meta[slab] == MetaFor(slab, Size(c, y), Capacity(c, y), slabs[k].carved)
  }

  /** A thread has track of its slabs: each one with blocks that are not carved yet is the pending one of its class. */
  ghost predicate Tracked(id: nat, slabs: seq<Slab>, y: Layout, pending: seq<nat>, index: seq<nat>) {
    && |pending| == |index| == NUM_SIZE_CLASSES
    && forall k :: 0 <= k < |slabs| && Unfinished(id, slabs[k], y) ==>
         pending[slabs[k].class_] == slabs[k].start && index[slabs[k].class_] == k
  }

  ghost predicate Unfinished(id: nat, s: Slab, y: Layout) {
    s.owner == id && s.carved < Capacity(s.class_, y)
  }

  /** Carving leaves no slab behind. */
  lemma TrackedCut(id: nat, slabs: seq<Slab>, k: nat, n: nat, y: Layout, pending: seq<nat>, index: seq<nat>)
    requires Tracked(id, slabs, y, pending, index) && k < |slabs|
    ensures Tracked(id, CutFrom(slabs, k, n), y, pending, index)
  {
    var slabs' := CutFrom(slabs, k, n);
    forall j | 0 <= j < |slabs'| && Unfinished(id, slabs'[j], y)
      ensures pending[slabs'[j].class_] == slabs'[j].start && index[slabs'[j].class_] == j
    {
      assert Unfinished(id, slabs[j], y);
    }
  }

  /** A pending slab that is used up can be forgotten. */
  lemma TrackedForget(id: nat, slabs: seq<Slab>, y: Layout, pending: seq<nat>, index: seq<nat>, c: Class)
    requires Tracked(id, slabs, y, pending, index)
    requires pending[c] != 0 ==> index[c] < |slabs| && !Unfinished(id, slabs[index[c]], y)
    ensures Tracked(id, slabs, y, pending[c := 0], index)
  {
  }

  /** A new slab is tracked if it is remembered while blocks are left, and nothing else was pending. */
  lemma TrackedNew(id: nat, slabs: seq<Slab>, s: Slab, y: Layout, pending: seq<nat>, index: seq<nat>,
                   pending': seq<nat>, index': seq<nat>)
    requires Tracked(id, slabs, y, pending, index) && SlabsOk(slabs, y) && pending[s.class_] == 0
    requires
      if Unfinished(id, s, y) then pending' == pending[s.class_ := s.start] && index' == index[s.class_ := |slabs|]
      else pending' == pending && index' == index
    ensures Tracked(id, slabs + [s], y, pending', index')
  {
    forall k | 0 <= k < |slabs| && Unfinished(id, slabs[k], y)
      ensures slabs[k].class_ != s.class_
    {
      assert SlabOk(slabs[k], y);
    }
  }

  /** What another thread does leaves a thread on the track of its slabs. */
  lemma TrackedStays(id: nat, slabs: seq<Slab>, slabs': seq<Slab>, y: Layout, pending: seq<nat>, index: seq<nat>,
                     other: nat)
    requires Tracked(id, slabs, y, pending, index) && SlabsKept(other, slabs, slabs') && id != other
    ensures Tracked(id, slabs', y, pending, index)
  {
    forall k | 0 <= k < |slabs'| && Unfinished(id, slabs'[k], y)
      ensures pending[slabs'[k].class_] == slabs'[k].start && index[slabs'[k].class_] == k
    {
      assert k < |slabs| && SameSpot(slabs[k], slabs'[k]) && slabs'[k] == slabs[k];
    }
  }

  /** After a step that moves blocks: the two lists concerned have changed, no other. */
  ghost predicate Moved(at: map<Place, seq<nat>>, at': map<Place, seq<nat>>, from: Place, rest: seq<nat>, to: Place,
                        chain: seq<nat>)
  {
    && At(at', from) == rest && At(at', to) == chain + At(at, to)
    && forall p :: p != from && p != to ==> At(at', p) == At(at, p)
  }

  lemma MovePrefix(at: map<Place, seq<nat>>, from: Place, to: Place, n: nat)
    requires OnePlace(at) && from != to && n <= |At(at, from)|
    ensures
      var chain := At(at, from)[..n];
      Movable(at, from, to, chain) && Moved(at, Move(at, from, to, chain), from, At(at, from)[n..], to, chain)
  {
    var all := At(at, from);
    var chain := all[..n];
    assert Distinct(all);
    forall b | b in chain
      ensures b in all
    {
    }
    forall b | b in all[n..]
      ensures b !in chain
    {
    }
    MoveAt(at, from, to, chain);
    WithoutPrefix(all, n, chain);
  }

  ghost predicate Holds(at: map<Place, seq<nat>>, p: Place, chain: seq<nat>) {
    forall b :: b in chain ==> b in At(at, p)
  }

  /** Blocks in any place can be linked under both codes. */
  lemma Linkable(l: Life, y: Layout, next: map<nat, nat>, code: Code, code': Code, p: Place, chain: seq<nat>)
    requires LayoutOk(y) && Inv(l, y) && Known(l.slabs, y, next, code, code') && Holds(l.at, p, chain)
    ensures Usable(code, chain) && Usable(code', chain) && Aligned(chain) && forall b :: b in chain ==> b in next
  {
    forall b | b in chain
      ensures Carved(l.slabs, b, y) && b != 0 && b % 16 == 0 && Readable(code, b) && Readable(code', b)
    {
      assert Placed(l.at, b);
      var c: Class :| HasClass(l.slabs, b, c, y);
      var k: nat, i: nat :| CarvedAt(l.slabs, k, i, b, c, y);
      BlockInside(l.slabs, k, i, b, c, y);
      assert KeysApart(l.slabs[k], y, code, code');
    }
  }

  lemma NotInBins(id: nat, at: map<Place, seq<nat>>, bins: seq<seq<nat>>, shards: map<Slot, seq<nat>>, ncpu: nat,
                  p: Place, chain: seq<nat>)
    requires Mirror(id, at, bins, shards, ncpu) && OnePlace(at) && Holds(at, p, chain)
    requires !(p.Bin? && p.owner == id)
    ensures ThreadLocal.Foreign(bins, chain)
  {
    forall c: Class
      ensures Apart(bins[c], chain)
    {
      assert Apart(At(at, p), At(at, Bin(id, c)));
    }
  }

  lemma NotInShards(id: nat, at: map<Place, seq<nat>>, bins: seq<seq<nat>>, shards: map<Slot, seq<nat>>, ncpu: nat,
                    p: Place, chain: seq<nat>)
    requires Mirror(id, at, bins, shards, ncpu) && OnePlace(at) && Holds(at, p, chain) && !p.Shard?
    ensures InterConnect.Foreign(ncpu, shards, chain)
  {
    forall s | InRange(ncpu, s)
      ensures Apart(shards[s], chain)
    {
      assert Apart(At(at, p), At(at, Shard(s.cpu, s.class_)));
    }
  }

  /** What a thread works with: its number, the size of headers, the number of CPUs and the two codes. */
  datatype Setup = Setup(id: nat, y: Layout, ncpu: nat, code: Code, code': Code)

  /** What a thread sees in memory. */
  datatype View = View(bins: seq<seq<nat>>, shards: map<Slot, seq<nat>>, next: map<nat, nat>, meta: map<nat, MetaData>,
                       pending: seq<nat>, index: seq<nat>)

  /** Memory is as the transition system has it. */
  ghost predicate Agrees(u: Setup, l: Life, v: View) {
    match v
    case View(bins, shards, next, meta, pending, index) =>
      && LayoutOk(u.y)
      && Mirror(u.id, l.at, bins, shards, u.ncpu)
      && Known(l.slabs, u.y, next, u.code, u.code')
      && PendingOk(u.id, l.slabs, u.y, meta, pending, index)
      && Inv(l, u.y)
  }

  // ------------------------------------------------------------------ runs of one thread

  /** The links in the headers of blocks and the metadata of slabs. */
  datatype Heap = Heap(next: map<nat, nat>, meta: map<nat, MetaData>)

  function HeapOf(v: View): Heap {
    Heap(v.next, v.meta)
  }

  /** A list of another thread, or what it has in hand. */
  predicate OfOther(p: Place, id: nat) {
    (p.Bin? && p.owner != id) || (p.Hand? && p.thread != id)
  }

  /** What other threads have in their lists and in hand are the same blocks with the same links, and their
      slabs are as they were. */
  ghost predicate OthersKept(id: nat, l: Life, l': Life, h: Heap, h': Heap) {
    && (forall p :: OfOther(p, id) ==> At(l'.at, p) == At(l.at, p) && SameLinks(h.next, h'.next, At(l.at, p)))
    && SlabsKept(id, l.slabs, l'.slabs) && MetaKept(id, l.slabs, h.meta, h'.meta)
  }

  ghost predicate SlabsKept(id: nat, slabs: seq<Slab>, slabs': seq<Slab>) {
    && SpotsKept(slabs, slabs') && (forall k :: 0 <= k < |slabs| && slabs[k].owner != id ==> slabs'[k] == slabs[k])
    && forall k :: |slabs| <= k < |slabs'| ==> slabs'[k].owner == id
  }

  /** The metadata of slabs of other threads is as it was. */
  ghost predicate MetaKept(id: nat, slabs: seq<Slab>, meta: map<nat, MetaData>, meta': map<nat, MetaData>) {
    forall k :: 0 <= k < |slabs| && slabs[k].owner != id ==> SameMeta(meta, meta', slabs[k].start)
  }

  ghost predicate SameMeta(meta: map<nat, MetaData>, meta': map<nat, MetaData>, slab: nat) {
    slab in meta ==> slab in meta' && meta'[slab] == meta[slab]
  }

  ghost predicate SameLinks(next: map<nat, nat>, next': map<nat, nat>, blocks: seq<nat>) {
    forall b :: b in blocks ==> b in next && b in next' && next'[b] == next[b]
  }

  /** A thread took `steps` and touched no list and no slab of another thread. */
  ghost predicate Acts(u: Setup, l: Life, h: Heap, steps: seq<Step>, l': Life, h': Heap) {
    match u
    case Setup(id, y, _, _, _) => LayoutOk(y) && Runs(l, steps, l', y) && OthersKept(id, l, l', h, h')
  }

  lemma {:induction false} RunsJoin(l: Life, steps: seq<Step>, l': Life, steps': seq<Step>, l'': Life, y: Layout)
    requires LayoutOk(y) && Runs(l, steps, l', y) && Runs(l', steps', l'', y)
    ensures Runs(l, steps + steps', l'', y)
    decreases |steps|
  {
    if steps == [] {
      assert steps + steps' == steps';
    } else {
      assert (steps + steps')[0] == steps[0] && (steps + steps')[1..] == steps[1..] + steps';
      RunsJoin(Apply(l, steps[0], y), steps[1..], l', steps', l'', y);
    }
  }

  lemma ActsJoin(u: Setup, l: Life, h: Heap, steps: seq<Step>, l': Life, h': Heap, steps': seq<Step>, l'': Life,
                 h'': Heap)
    requires Acts(u, l, h, steps, l', h') && Acts(u, l', h', steps', l'', h'')
    ensures Acts(u, l, h, steps + steps', l'', h'')
  {
    RunsJoin(l, steps, l', steps', l'', u.y);
    forall p | OfOther(p, u.id)
      ensures At(l''.at, p) == At(l.at, p) && SameLinks(h.next, h''.next, At(l.at, p))
    {
      assert SameLinks(h.next, h'.next, At(l.at, p)) && SameLinks(h'.next, h''.next, At(l'.at, p));
    }
    forall k | 0 <= k < |l.slabs| && l.slabs[k].owner != u.id
      ensures SameMeta(h.meta, h''.meta, l.slabs[k].start)
    {
      assert SameMeta(h.meta, h'.meta, l.slabs[k].start) && SameMeta(h'.meta, h''.meta, l'.slabs[k].start);
    }
    assert Acts(u, l, h, steps + steps', l'', h'');
  }

  /** Another thread has none of the blocks. */
  ghost predicate Clear(id: nat, at: map<Place, seq<nat>>, chain: seq<nat>) {
    forall p :: OfOther(p, id) ==> Apart(At(at, p), chain)
  }

  lemma OwnIsClear(id: nat, at: map<Place, seq<nat>>, p: Place, chain: seq<nat>)
    requires OnePlace(at) && Holds(at, p, chain) && !OfOther(p, id)
    ensures Clear(id, at, chain)
  {
    forall q | OfOther(q, id)
      ensures Apart(At(at, q), chain)
    {
      assert Apart(At(at, p), At(at, q));
    }
  }

  lemma StepLeavesOthers(l: Life, step: Step, p: Place, y: Layout)
    requires LayoutOk(y) && Enabled(l, step, y) && OfOther(p, step.t)
    ensures At(Apply(l, step, y).at, p) == At(l.at, p)
  {
  }

  lemma StepKeepsSlabs(l: Life, step: Step, y: Layout)
    requires LayoutOk(y) && Enabled(l, step, y)
    ensures SlabsKept(step.t, l.slabs, Apply(l, step, y).slabs)
  {
  }

  /** One step that changes no link in a list and no metadata of another thread. */
  lemma ActsOne(u: Setup, l: Life, v: View, step: Step, chain: seq<nat>, h': Heap)
    requires Agrees(u, l, v) && Enabled(l, step, u.y) && step.t == u.id && MetaKept(u.id, l.slabs, v.meta, h'.meta)
    requires Clear(u.id, l.at, chain) && SameExcept(v.next, h'.next, chain)
    ensures Acts(u, l, HeapOf(v), [step], Apply(l, step, u.y), h')
  {
    var l' := Apply(l, step, u.y);
    assert [step][1..] == [];
    forall p | OfOther(p, u.id)
      ensures At(l'.at, p) == At(l.at, p) && SameLinks(v.next, h'.next, At(l.at, p))
    {
      StepLeavesOthers(l, step, p, u.y);
      Linkable(l, u.y, v.next, u.code, u.code', p, At(l.at, p));
      assert Apart(At(l.at, p), chain);
    }
    StepKeepsSlabs(l, step, u.y);
    assert Acts(u, l, HeapOf(v), [step], l', h');
  }

  // ------------------------------------------------------------------ single steps

  /** Blocks went from one list to the front of another; nothing else has changed. */
  ghost predicate Carried(l: Life, l': Life, from: Place, rest: seq<nat>, to: Place, chain: seq<nat>) {
    match l'
    case Life(at', slabs') => slabs' == l.slabs && Moved(l.at, at', from, rest, to, chain)
  }

  lemma Advance(u: Setup, l: Life, v: View, step: Step, chain: seq<nat>, h': Heap) returns (l': Life)
    requires Agrees(u, l, v) && Enabled(l, step, u.y) && step.t == u.id
    requires Clear(u.id, l.at, chain) && SameExcept(v.next, h'.next, chain) && MetaKept(u.id, l.slabs, v.meta, h'.meta)
    ensures l' == Apply(l, step, u.y) && Inv(l', u.y) && Acts(u, l, HeapOf(v), [step], l', h')
  {
    l' := Apply(l, step, u.y);
    StepKeepsInv(l, step, u.y);
    ActsOne(u, l, v, step, chain, h');
  }

  lemma HitAgrees(u: Setup, l: Life, v: View, c: Class, v': View) returns (l': Life)
    requires Agrees(u, l, v) && v.bins[c] != [] && v' == v.(bins := v.bins[c := v.bins[c][1..]])
    ensures Agrees(u, l', v') && Acts(u, l, HeapOf(v), [Hit(u.id, c)], l', HeapOf(v))
    ensures v.bins[c] == At(l.at, Bin(u.id, c)) && v.bins[c][0] != 0 && HasClass(l.slabs, v.bins[c][0], c, u.y)
    ensures Carried(l, l', Bin(u.id, c), v.bins[c][1..], Out, v.bins[c][..1])
  {
    Linkable(l, u.y, v.next, u.code, u.code', Bin(u.id, c), v.bins[c]);
    MovePrefix(l.at, Bin(u.id, c), Out, 1);
    l' := Advance(u, l, v, Hit(u.id, c), [], HeapOf(v));
    assert Agrees(u, l', v');
  }

  /** Blocks that are in no list can be put in one. */
  lemma Loose(u: Setup, l: Life, v: View, p: Place, chain: seq<nat>)
    requires Agrees(u, l, v) && Holds(l.at, p, chain) && !p.Bin? && !p.Shard?
    ensures Usable(u.code, chain) && Usable(u.code', chain) && Aligned(chain) && forall b :: b in chain ==> b in v.next
    ensures ThreadLocal.Foreign(v.bins, chain) && InterConnect.Foreign(u.ncpu, v.shards, chain)
  {
    Linkable(l, u.y, v.next, u.code, u.code', p, chain);
    NotInBins(u.id, l.at, v.bins, v.shards, u.ncpu, p, chain);
    NotInShards(u.id, l.at, v.bins, v.shards, u.ncpu, p, chain);
  }

  lemma KeepAgrees(u: Setup, l: Life, v: View, c: Class, b: nat, v': View) returns (l': Life)
    requires Agrees(u, l, v) && b in At(l.at, Out) && HasClass(l.slabs, b, c, u.y)
    requires |v.bins[c]| < Limit(c, u.y)
    requires SameExcept(v.next, v'.next, [b]) && v' == v.(bins := v.bins[c := [b] + v.bins[c]], next := v'.next)
    ensures Agrees(u, l', v') && Acts(u, l, HeapOf(v), [Keep(u.id, c, b)], l', HeapOf(v'))
    ensures Carried(l, l', Out, Without(At(l.at, Out), [b]), Bin(u.id, c), [b])
  {
    OwnIsClear(u.id, l.at, Out, [b]);
    MoveAt(l.at, Out, Bin(u.id, c), [b]);
    l' := Advance(u, l, v, Keep(u.id, c, b), [b], HeapOf(v'));
    assert Agrees(u, l', v');
  }

  lemma GiveAgrees(u: Setup, l: Life, v: View, b: nat) returns (l': Life)
    requires Agrees(u, l, v) && b in At(l.at, Out)
    ensures Agrees(u, l', v) && Acts(u, l, HeapOf(v), [Give(u.id, b)], l', HeapOf(v))
    ensures Carried(l, l', Out, Without(At(l.at, Out), [b]), Hand(u.id), [b])
  {
    MoveAt(l.at, Out, Hand(u.id), [b]);
    l' := Advance(u, l, v, Give(u.id, b), [], HeapOf(v));
    assert Agrees(u, l', v);
  }

  lemma FillAgrees(u: Setup, l: Life, v: View, c: Class, chain: seq<nat>, v': View) returns (l': Life)
    requires Agrees(u, l, v) && chain == At(l.at, Hand(u.id)) && AllOfClass(l.slabs, chain, c, u.y)
    requires At(l.at, Bin(u.id, c)) == [] && |chain| <= MAX_INIT
    requires SameExcept(v.next, v'.next, chain) && v' == v.(bins := v.bins[c := chain + v.bins[c]], next := v'.next)
    ensures Agrees(u, l', v') && Acts(u, l, HeapOf(v), [Fill(u.id, c, chain)], l', HeapOf(v'))
    ensures Carried(l, l', Hand(u.id), [], Bin(u.id, c), chain)
  {
    OwnIsClear(u.id, l.at, Hand(u.id), chain);
    assert chain[..|chain|] == chain && chain[|chain|..] == [];
    MovePrefix(l.at, Hand(u.id), Bin(u.id, c), |chain|);
    l' := Advance(u, l, v, Fill(u.id, c, chain), chain, HeapOf(v'));
    assert Agrees(u, l', v');
  }

  /** Some of the blocks in hand go to a shard. */
  lemma PushAgrees(u: Setup, l: Life, v: View, p: nat, c: Class, chain: seq<nat>, v': View) returns (l': Life)
    requires Agrees(u, l, v) && Holds(l.at, Hand(u.id), chain) && Distinct(chain)
    requires AllOfClass(l.slabs, chain, c, u.y) && p < u.ncpu && SameExcept(v.next, v'.next, chain)
    requires v' == v.(shards := v.shards[Slot(p, c) := chain + v.shards[Slot(p, c)]], next := v'.next)
    ensures Agrees(u, l', v') && Acts(u, l, HeapOf(v), [Push(u.id, p, c, chain)], l', HeapOf(v'))
    ensures Carried(l, l', Hand(u.id), Without(At(l.at, Hand(u.id)), chain), Shard(p, c), chain)
  {
    OwnIsClear(u.id, l.at, Hand(u.id), chain);
    MoveAt(l.at, Hand(u.id), Shard(p, c), chain);
    l' := Advance(u, l, v, Push(u.id, p, c, chain), chain, HeapOf(v'));
    assert Agrees(u, l', v');
  }

  lemma WholeHand(u: Setup, l: Life, v: View)
    requires Agrees(u, l, v)
    ensures Distinct(At(l.at, Hand(u.id))) && Without(At(l.at, Hand(u.id)), At(l.at, Hand(u.id))) == []
  {
    var hand := At(l.at, Hand(u.id));
    assert hand[..|hand|] == hand && hand[|hand|..] == [];
    WithoutPrefix(hand, |hand|, hand);
  }

  lemma GrabMoves(u: Setup, l: Life, v: View, p: nat, c: Class, chain: seq<nat>, shards': map<Slot, seq<nat>>)
    requires Agrees(u, l, v) && p < u.ncpu && chain != [] && Detached(v.shards, shards', Slot(p, c), chain)
    ensures At(l.at, Shard(p, c)) == v.shards[Slot(p, c)] && chain == At(l.at, Shard(p, c))[..|chain|]
    ensures Clear(u.id, l.at, chain) && Distinct(chain) && Holds(l.at, Shard(p, c), chain)
    ensures AllOfClass(l.slabs, chain, c, u.y)
    ensures Moved(l.at, Move(l.at, Shard(p, c), Hand(u.id), chain), Shard(p, c),
                  At(l.at, Shard(p, c))[|chain|..], Hand(u.id), chain)
  {
    assert InRange(u.ncpu, Slot(p, c));
    MovePrefix(l.at, Shard(p, c), Hand(u.id), |chain|);
    OwnIsClear(u.id, l.at, Shard(p, c), chain);
  }

  lemma GrabAgrees(u: Setup, l: Life, v: View, p: nat, c: Class, chain: seq<nat>, v': View) returns (l': Life)
    requires Agrees(u, l, v) && p < u.ncpu && chain != [] && Detached(v.shards, v'.shards, Slot(p, c), chain)
    requires SameExcept(v.next, v'.next, chain) && v' == v.(shards := v'.shards, next := v'.next)
    ensures Agrees(u, l', v') && Acts(u, l, HeapOf(v), [Grab(u.id, p, c, |chain|)], l', HeapOf(v'))
    ensures |chain| <= |At(l.at, Shard(p, c))|
    ensures Carried(l, l', Shard(p, c), At(l.at, Shard(p, c))[|chain|..], Hand(u.id), chain)
    ensures AllOfClass(l.slabs, chain, c, u.y)
  {
    GrabMoves(u, l, v, p, c, chain, v'.shards);
    l' := Advance(u, l, v, Grab(u.id, p, c, |chain|), chain, HeapOf(v'));
    assert Agrees(u, l', v');
  }

  lemma UnloadAgrees(u: Setup, l: Life, v: View, c: Class, v': View) returns (l': Life)
    requires Agrees(u, l, v)
    requires SameExcept(v.next, v'.next, v.bins[c]) && v' == v.(bins := v.bins[c := []], next := v'.next)
    ensures Agrees(u, l', v') && Acts(u, l, HeapOf(v), [Unload(u.id, c)], l', HeapOf(v'))
    ensures Carried(l, l', Bin(u.id, c), [], Hand(u.id), v.bins[c]) && AllOfClass(l.slabs, v.bins[c], c, u.y)
  {
    var all := v.bins[c];
    assert all[..|all|] == all && all[|all|..] == [];
    OwnIsClear(u.id, l.at, Bin(u.id, c), all);
    MovePrefix(l.at, Bin(u.id, c), Hand(u.id), |all|);
    l' := Advance(u, l, v, Unload(u.id, c), all, HeapOf(v'));
    assert Agrees(u, l', v');
  }

  lemma CarveKnown(slabs: seq<Slab>, y: Layout, next: map<nat, nat>, code: Code, code': Code, k: nat, n: nat,
                   next': map<nat, nat>)
    requires Known(slabs, y, next, code, code') && k < |slabs| && SameExcept(next, next', NewBlocks(slabs[k], n, y))
    requires forall b :: b in NewBlocks(slabs[k], n, y) ==> b in next'
    ensures Known(CutFrom(slabs, k, n), y, next', code, code')
  {
    var slabs' := CutFrom(slabs, k, n);
    forall j | 0 <= j < |slabs'|
      ensures KeysApart(slabs'[j], y, code, code')
    {
      assert KeysApart(slabs[j], y, code, code');
      assert forall i: nat :: BlockOf(slabs'[j], i, y) == BlockOf(slabs[j], i, y);
    }
    CarveGrows(slabs, k, n, y);
    forall b | Carved(slabs', b, y)
      ensures b in next'
    {
      var d: Class :| HasClass(slabs', b, d, y);
      assert HasClass(slabs, b, d, y) ==> Carved(slabs, b, y);
    }
  }

  lemma CarvePending(id: nat, slabs: seq<Slab>, y: Layout, meta: map<nat, MetaData>, pending: seq<nat>, index: seq<nat>,
                     slab: nat, k: nat, c: Class, n: nat)
    requires PendingOk(id, slabs, y, meta, pending, index) && PendingAt(id, slabs, y, meta, slab, k, c)
    requires slabs[k].carved + n <= Capacity(c, y) && LayoutOk(y) && SlabsOk(slabs, y)
    ensures
      var meta' := Advanced(meta, slab, Size(c, y), Capacity(c, y), slabs[k].carved + n);
      && PendingAt(id, CutFrom(slabs, k, n), y, meta', slab, k, c)
      && PendingOk(id, CutFrom(slabs, k, n), y, meta', pending, index)
  {
    var meta' := Advanced(meta, slab, Size(c, y), Capacity(c, y), slabs[k].carved + n);
    forall d: Class | pending[d] != 0
      ensures PendingAt(id, CutFrom(slabs, k, n), y, meta', pending[d], index[d], d)
    {
      assert PendingAt(id, slabs, y, meta, pending[d], index[d], d);
      StartsDiffer(slabs, y, k, index[d]);
    }
  }

  lemma StartsDiffer(slabs: seq<Slab>, y: Layout, k: nat, l: nat)
    requires LayoutOk(y) && SlabsOk(slabs, y) && k < |slabs| && l < |slabs|
    ensures k != l ==> slabs[k].start != slabs[l].start
  {
    EndBehind(slabs[k], y);
    EndBehind(slabs[l], y);
    assert k < l ==> Disjoint(slabs[k], slabs[l], y);
    assert l < k ==> Disjoint(slabs[l], slabs[k], y);
  }

  /** The next `n` blocks of slab `k` have been put in front of a list; nothing else has changed. */
  ghost predicate Enlarged(l: Life, l': Life, k: nat, n: nat, to: Place, chain: seq<nat>) {
    match l'
    case Life(at', slabs') =>
      && k < |l.slabs| && slabs' == CutFrom(l.slabs, k, n)
      && At(at', to) == chain + At(l.at, to) && forall p :: p != to ==> At(at', p) == At(l.at, p)
  }

  /** Changing the metadata of one of its own slabs, a thread leaves that of others alone. */
  lemma OwnMeta(id: nat, slabs: seq<Slab>, y: Layout, meta: map<nat, MetaData>, meta': map<nat, MetaData>, k: nat)
    requires LayoutOk(y) && SlabsOk(slabs, y) && k < |slabs| && slabs[k].owner == id
    requires forall a :: a in meta && a != slabs[k].start ==> a in meta' && meta'[a] == meta[a]
    ensures MetaKept(id, slabs, meta, meta')
  {
    forall j | 0 <= j < |slabs| && slabs[j].owner != id
      ensures SameMeta(meta, meta', slabs[j].start)
    {
      StartsDiffer(slabs, y, k, j);
    }
  }

  lemma CarveAgrees(u: Setup, l: Life, v: View, slab: nat, k: nat, c: Class, n: nat, upto: nat, next': map<nat, nat>)
    returns (l': Life)
    requires Agrees(u, l, v) && PendingAt(u.id, l.slabs, u.y, v.meta, slab, k, c)
    requires upto == l.slabs[k].carved + n <= Capacity(c, u.y)
    requires SameExcept(v.next, next', NewBlocks(l.slabs[k], n, u.y))
    requires forall b :: b in NewBlocks(l.slabs[k], n, u.y) ==> b in next'
    ensures
      var meta' := Advanced(v.meta, slab, Size(c, u.y), Capacity(c, u.y), upto);
      && Agrees(u, l', v.(next := next', meta := meta'))
      && Acts(u, l, HeapOf(v), [Carve(u.id, k, n)], l', Heap(next', meta'))
      && PendingAt(u.id, l'.slabs, u.y, meta', slab, k, c)
    ensures Enlarged(l, l', k, n, Hand(u.id), NewBlocks(l.slabs[k], n, u.y))
    ensures AllOfClass(l'.slabs, NewBlocks(l.slabs[k], n, u.y), c, u.y)
  {
    CarveKnown(l.slabs, u.y, v.next, u.code, u.code', k, n, next');
    CarvePending(u.id, l.slabs, u.y, v.meta, v.pending, v.index, slab, k, c, n);
    FreshBlocks(l, k, n, u.y);
    var meta' := Advanced(v.meta, slab, Size(c, u.y), Capacity(c, u.y), upto);
    OwnMeta(u.id, l.slabs, u.y, v.meta, meta', k);
    l' := Advance(u, l, v, Carve(u.id, k, n), NewBlocks(l.slabs[k], n, u.y), Heap(next', meta'));
    forall b | b in NewBlocks(l.slabs[k], n, u.y)
      ensures HasClass(l'.slabs, b, c, u.y)
    {
      CarveAdds(l.slabs, k, n, b, c, u.y);
    }
  }

  lemma MapKnown(slabs: seq<Slab>, y: Layout, next: map<nat, nat>, code: Code, code': Code, s: Slab)
    requires Known(slabs, y, next, code, code') && s.carved == 0 && KeysApart(s, y, code, code')
    ensures Known(slabs + [s], y, next, code, code')
  {
    MapGrows(slabs, s, y);
    forall b | Carved(slabs + [s], b, y)
      ensures b in next
    {
      var d: Class :| HasClass(slabs + [s], b, d, y);
      assert HasClass(slabs, b, d, y) ==> Carved(slabs, b, y);
    }
  }

  lemma MapPending(id: nat, slabs: seq<Slab>, y: Layout, meta: map<nat, MetaData>, pending: seq<nat>, index: seq<nat>,
                   start: nat, c: Class)
    requires PendingOk(id, slabs, y, meta, pending, index)
    requires LayoutOk(y) && SlabsOk(slabs + [NewSlab(start, c, id)], y)
    ensures
      var meta' := Advanced(meta, start, Size(c, y), Capacity(c, y), 0);
      && PendingAt(id, slabs + [NewSlab(start, c, id)], y, meta', start, |slabs|, c)
      && PendingOk(id, slabs + [NewSlab(start, c, id)], y, meta', pending, index)
  {
    var slabs' := slabs + [NewSlab(start, c, id)];
    var meta' := Advanced(meta, start, Size(c, y), Capacity(c, y), 0);
    forall d: Class | pending[d] != 0
      ensures PendingAt(id, slabs', y, meta', pending[d], index[d], d)
    {
      assert PendingAt(id, slabs, y, meta, pending[d], index[d], d);
      StartsDiffer(slabs', y, |slabs|, index[d]);
    }
  }

  /** A new slab at `start` is possible: no slab is there, and no key equals the address of a block in it. */
  ghost predicate Mappable(u: Setup, slabs: seq<Slab>, c: Class, start: nat) {
    && Addable(slabs, NewSlab(start, c, u.id), u.y)
    && KeysApart(NewSlab(start, c, u.id), u.y, u.code, u.code')
  }

  lemma AddedOk(slabs: seq<Slab>, s: Slab, y: Layout)
    requires SlabsOk(slabs, y) && Addable(slabs, s, y)
    ensures SlabsOk(slabs + [s], y)
  {
  }

  lemma MapAgrees(u: Setup, l: Life, v: View, start: nat, c: Class) returns (l': Life)
    requires Agrees(u, l, v) && Mappable(u, l.slabs, c, start)
    ensures
      var meta' := Advanced(v.meta, start, Size(c, u.y), Capacity(c, u.y), 0);
      && Agrees(u, l', v.(meta := meta'))
      && Acts(u, l, HeapOf(v), [Map(u.id, c, start)], l', Heap(v.next, meta'))
      && PendingAt(u.id, l'.slabs, u.y, meta', start, |l.slabs|, c)
    ensures l' == l.(slabs := l.slabs + [NewSlab(start, c, u.id)])
  {
    var s := NewSlab(start, c, u.id);
    AddedOk(l.slabs, s, u.y);
    MapKnown(l.slabs, u.y, v.next, u.code, u.code', s);
    MapPending(u.id, l.slabs, u.y, v.meta, v.pending, v.index, start, c);
    forall k | 0 <= k < |l.slabs|
      ensures l.slabs[k].start != start
    {
      StartsDiffer(l.slabs + [s], u.y, k, |l.slabs|);
    }
    var meta' := Advanced(v.meta, start, Size(c, u.y), Capacity(c, u.y), 0);
    l' := Advance(u, l, v, Map(u.id, c, start), [], Heap(v.next, meta'));
  }

  /** A block that is about to come into being is nowhere. */
  lemma LoneIsFresh(l: Life, s: Slab, y: Layout)
    requires LayoutOk(y) && Inv(l, y) && Addable(l.slabs, s, y) && s.carved == 1 && Capacity(s.class_, y) == 1
    ensures forall p :: Apart(At(l.at, p), [s.start + s.head])
  {
    var m := l.(slabs := l.slabs + [s.(carved := 0)]);
    SlabKeepsInv(l, s.(carved := 0), y);
    FreshBlocks(m, |l.slabs|, 1, y);
    assert NewBlocks(m.slabs[|l.slabs|], 1, y) == [s.start + s.head];
    forall p
      ensures Apart(At(l.at, p), [s.start + s.head])
    {
      assert Apart([s.start + s.head], At(m.at, p));
    }
  }

  lemma LoneIsNowhere(u: Setup, l: Life, v: View, s: Slab)
    requires Agrees(u, l, v) && Addable(l.slabs, s, u.y)
    requires s.carved == 1 && s.head == 0 && Capacity(s.class_, u.y) == 1
    ensures ThreadLocal.Foreign(v.bins, [s.start]) && InterConnect.Foreign(u.ncpu, v.shards, [s.start])
  {
    LoneIsFresh(l, s, u.y);
    forall c: Class
      ensures Apart(v.bins[c], [s.start])
    {
      assert Apart(At(l.at, Bin(u.id, c)), [s.start]);
    }
    forall t | InRange(u.ncpu, t)
      ensures Apart(v.shards[t], [s.start])
    {
      assert Apart(At(l.at, Shard(t.cpu, t.class_)), [s.start]);
    }
  }

  lemma AdoptKnown(slabs: seq<Slab>, y: Layout, next: map<nat, nat>, code: Code, code': Code, s: Slab,
                   next': map<nat, nat>)
    requires Known(slabs, y, next, code, code') && s.carved == 1 && s.head == 0 && KeysApart(s, y, code, code')
    requires SameExcept(next, next', [s.start]) && s.start in next'
    ensures Known(slabs + [s], y, next', code, code')
  {
    forall b | Carved(slabs + [s], b, y)
      ensures b in next'
    {
      var d: Class :| HasClass(slabs + [s], b, d, y);
      var k: nat, i: nat :| CarvedAt(slabs + [s], k, i, b, d, y);
      if k < |slabs| {
        assert CarvedAt(slabs, k, i, b, d, y) && HasClass(slabs, b, d, y) && Carved(slabs, b, y);
      }
    }
  }

  /** A big block becomes a slab block in the hands of its user. */
  lemma AdoptAgrees(u: Setup, l: Life, v: View, start: nat, c: Class, v': View) returns (l': Life)
    requires Agrees(u, l, v) && Capacity(c, u.y) == 1
    requires Addable(l.slabs, LoneBlock(start, c, u.id), u.y)
    requires KeysApart(LoneBlock(start, c, u.id), u.y, u.code, u.code')
    requires v' == v.(next := v'.next) && SameExcept(v.next, v'.next, [start]) && start in v'.next
    ensures Agrees(u, l', v') && Acts(u, l, HeapOf(v), [Adopt(u.id, c, start)], l', HeapOf(v'))
    ensures l' == Life(l.at[Out := [start] + At(l.at, Out)], l.slabs + [LoneBlock(start, c, u.id)])
  {
    var s := LoneBlock(start, c, u.id);
    LoneIsFresh(l, s, u.y);
    AdoptKnown(l.slabs, u.y, v.next, u.code, u.code', s, v'.next);
    l' := Advance(u, l, v, Adopt(u.id, c, start), [start], HeapOf(v'));
    assert Agrees(u, l', v');
  }

  lemma TakenLeavesBins(u: Setup, l: Life, v: View, s: Slot, shards': map<Slot, seq<nat>>, chain: seq<nat>)
    requires Agrees(u, l, v) && InRange(u.ncpu, s) && (chain != [] ==> Detached(v.shards, shards', s, chain))
    ensures ThreadLocal.Foreign(v.bins, chain)
  {
    var p := Shard(s.cpu, s.class_);
    assert v.shards[s] == At(l.at, p);
    assert forall b :: b in chain ==> b in v.shards[s][..|chain|];
    NotInBins(u.id, l.at, v.bins, v.shards, u.ncpu, p, chain);
  }

  lemma EmptyIff(u: Setup, l: Life, v: View, c: Class)
    requires Agrees(u, l, v)
    ensures AllEmpty(v.shards, c, u.ncpu) <==> ShardsEmpty(l.at, c, u.ncpu)
  {
    forall p: nat | p < u.ncpu
      ensures EmptyAt(v.shards, Slot(p, c)) <==> At(l.at, Shard(p, c)) == []
    {
      assert InRange(u.ncpu, Slot(p, c));
    }
  }

  /** `chain` is the first blocks, `batch` of them or all there are, of the first shard that has some, going up from
      that of `cpu`. */
  ghost predicate Front(at: map<Place, seq<nat>>, c: Class, cpu: nat, p: nat, ncpu: nat, batch: nat, chain: seq<nat>) {
    var all := At(at, Shard(p, c));
    && p < ncpu && all != [] && chain == all[..Min(Max(batch, 1), |all|)]
    && forall q: nat :: q < ncpu && Ahead(cpu, q, ncpu) < Ahead(cpu, p, ncpu) ==> At(at, Shard(q, c)) == []
  }

  /** The blocks that a refill gets from the shards. */
  ghost function Yield(at: map<Place, seq<nat>>, c: Class, cpu: nat, ncpu: nat, batch: nat): seq<nat> {
    if exists p: nat, chain :: Front(at, c, cpu, p, ncpu, batch, chain) then
      var p: nat, chain :| Front(at, c, cpu, p, ncpu, batch, chain);
      chain
    else []
  }

  lemma FrontIsOne(at: map<Place, seq<nat>>, c: Class, cpu: nat, p: nat, q: nat, ncpu: nat, batch: nat, chain: seq<nat>,
                   other: seq<nat>)
    requires Front(at, c, cpu, p, ncpu, batch, chain) && Front(at, c, cpu, q, ncpu, batch, other) && cpu < ncpu
    ensures p == q && chain == other
  {
    assert Ahead(cpu, p, ncpu) != Ahead(cpu, q, ncpu) || p == q;
  }

  lemma YieldIs(at: map<Place, seq<nat>>, c: Class, cpu: nat, p: nat, ncpu: nat, batch: nat, chain: seq<nat>)
    requires Front(at, c, cpu, p, ncpu, batch, chain) && cpu < ncpu
    ensures Yield(at, c, cpu, ncpu, batch) == chain
  {
    var q: nat, other :| Front(at, c, cpu, q, ncpu, batch, other) && Yield(at, c, cpu, ncpu, batch) == other;
    FrontIsOne(at, c, cpu, p, q, ncpu, batch, chain, other);
  }

  lemma YieldNone(at: map<Place, seq<nat>>, c: Class, cpu: nat, ncpu: nat, batch: nat)
    requires ShardsEmpty(at, c, ncpu)
    ensures Yield(at, c, cpu, ncpu, batch) == []
  {
  }

  lemma FrontIs(u: Setup, l: Life, v: View, c: Class, cpu: nat, p: nat, batch: nat, chain: seq<nat>,
                shards': map<Slot, seq<nat>>)
    requires Agrees(u, l, v) && NextFull(v.shards, c, cpu, p, u.ncpu)
    requires Detached(v.shards, shards', Slot(p, c), chain)
    requires |chain| == Min(Max(batch, 1), |v.shards[Slot(p, c)]|)
    ensures Front(l.at, c, cpu, p, u.ncpu, batch, chain)
  {
    assert InRange(u.ncpu, Slot(p, c));
    forall q: nat | q < u.ncpu && Ahead(cpu, q, u.ncpu) < Ahead(cpu, p, u.ncpu)
      ensures At(l.at, Shard(q, c)) == []
    {
      assert InRange(u.ncpu, Slot(q, c)) && EmptyAt(v.shards, Slot(q, c));
    }
  }

  /** Changing links of blocks in hand is not a step. */
  lemma RelinkAgrees(u: Setup, l: Life, v: View, chain: seq<nat>, v': View)
    requires Agrees(u, l, v) && Holds(l.at, Hand(u.id), chain)
    requires v' == v.(next := v'.next) && SameExcept(v.next, v'.next, chain)
    ensures Agrees(u, l, v') && Acts(u, l, HeapOf(v), [], l, HeapOf(v'))
  {
    OwnIsClear(u.id, l.at, Hand(u.id), chain);
    forall p | OfOther(p, u.id)
      ensures SameLinks(v.next, v'.next, At(l.at, p))
    {
      Linkable(l, u.y, v.next, u.code, u.code', p, At(l.at, p));
      assert Apart(At(l.at, p), chain);
    }
    assert Acts(u, l, HeapOf(v), [], l, HeapOf(v'));
  }

  lemma StayAgrees(u: Setup, l: Life, v: View, v': View)
    requires Agrees(u, l, v) && v' == v.(next := v'.next) && SameExcept(v.next, v'.next, [])
    ensures Agrees(u, l, v') && Acts(u, l, HeapOf(v), [], l, HeapOf(v'))
  {
    RelinkAgrees(u, l, v, [], v');
  }

  ghost predicate ShardsEmpty(at: map<Place, seq<nat>>, c: Class, ncpu: nat) {
    forall p: nat :: p < ncpu ==> At(at, Shard(p, c)) == []
  }

  lemma BinLeavesShards(u: Setup, l: Life, v: View, c: Class)
    requires Agrees(u, l, v)
    ensures v.bins[c] == At(l.at, Bin(u.id, c))
    ensures InterConnect.Foreign(u.ncpu, v.shards, v.bins[c])
  {
    NotInShards(u.id, l.at, v.bins, v.shards, u.ncpu, Bin(u.id, c), v.bins[c]);
  }

  /** Blocks about to be carved are in no list. */
  lemma CutIsLoose(u: Setup, l: Life, v: View, k: nat, n: nat)
    requires Agrees(u, l, v) && k < |l.slabs| && l.slabs[k].carved + n <= Capacity(l.slabs[k].class_, u.y)
    ensures ThreadLocal.Foreign(v.bins, NewBlocks(l.slabs[k], n, u.y))
    ensures InterConnect.Foreign(u.ncpu, v.shards, NewBlocks(l.slabs[k], n, u.y))
  {
    var cut := NewBlocks(l.slabs[k], n, u.y);
    FreshBlocks(l, k, n, u.y);
    forall c: Class
      ensures Apart(v.bins[c], cut)
    {
      assert Apart(cut, At(l.at, Bin(u.id, c)));
    }
    forall s | InRange(u.ncpu, s)
      ensures Apart(v.shards[s], cut)
    {
      assert Apart(cut, At(l.at, Shard(s.cpu, s.class_)));
    }
  }

  lemma PendingChange(u: Setup, l: Life, v: View, c: Class, slab: nat, k: nat)
    requires Agrees(u, l, v) && (slab != 0 ==> PendingAt(u.id, l.slabs, u.y, v.meta, slab, k, c))
    ensures |v.pending| == |v.index| == NUM_SIZE_CLASSES
    ensures Agrees(u, l, v.(pending := v.pending[c := slab], index := v.index[c := k]))
  {
  }

  /** How many blocks a refill carves: what fits in 4 KiB, but at most 48 and at least one. */
  function MaxInit(c: Class, y: Layout): (r: nat)
    requires LayoutOk(y)
    ensures 1 <= r <= MAX_INIT
  {
    var per4k := 4096 / Size(c, y);
    if per4k >= MAX_INIT then MAX_INIT else Max(per4k, 1)
  }

  /** The blocks of a refill fit in 4 KiB unless there is only one, and one more would not unless there are 48. */
  lemma MaxInitIs(c: Class, y: Layout)
    requires LayoutOk(y)
    ensures
      var r, size := MaxInit(c, y), Size(c, y);
      (r == 1 || r * size <= 4096) && (r == MAX_INIT || 4096 < (r + 1) * size)
  {
    Quotient(4096, Size(c, y));
  }

  /** A new slab of which `n` blocks were carved is on the track of its thread. */
  lemma NewIsTracked(u: Setup, l: Life, c: Class, start: nat, n: nat, pending: seq<nat>, index: seq<nat>, v': View)
    requires Tracked(u.id, l.slabs, u.y, pending, index) && pending[c] == 0 && SlabsOk(l.slabs, u.y)
    requires
      if n < Capacity(c, u.y) then v'.pending == pending[c := start] && v'.index == index[c := |l.slabs|]
      else v'.pending == pending && v'.index == index
    ensures
      Tracked(u.id, CutFrom(l.slabs + [NewSlab(start, c, u.id)], |l.slabs|, n), u.y, v'.pending, v'.index)
  {
    var s := NewSlab(start, c, u.id).(carved := n);
    TrackedNew(u.id, l.slabs, s, u.y, pending, index, v'.pending, v'.index);
    assert CutFrom(l.slabs + [NewSlab(start, c, u.id)], |l.slabs|, n) == l.slabs + [s];
  }

  /** Carving with nothing in hand, and then filling an empty list with what was carved. */
  lemma FillEnlarges(l: Life, m: Life, k: nat, n: nat, t: nat, c: Class, chain: seq<nat>)
    requires Enlarged(l, m, k, n, Hand(t), chain) && At(l.at, Hand(t)) == []
    ensures At(m.at, Hand(t)) == chain && At(m.at, Bin(t, c)) == At(l.at, Bin(t, c))
    ensures m.slabs == CutFrom(l.slabs, k, n)
    ensures chain == [] ==> Enlarged(l, m, k, n, Bin(t, c), chain)
    ensures forall l' :: Carried(m, l', Hand(t), [], Bin(t, c), chain) ==> Enlarged(l, l', k, n, Bin(t, c), chain)
  {
    assert chain + [] == chain;
    assert [] + At(l.at, Bin(t, c)) == At(l.at, Bin(t, c));
  }

  /** The states differ in the slabs and in one list of the thread only. */
  ghost predicate Refilled(l: Life, l': Life, t: nat, c: Class) {
    forall p :: p != Bin(t, c) ==> At(l'.at, p) == At(l.at, p)
  }

  lemma EnlargedIs(l: Life, l': Life, k: nat, n: nat, t: nat, c: Class, chain: seq<nat>)
    requires Enlarged(l, l', k, n, Bin(t, c), chain) && At(l.at, Bin(t, c)) == []
    ensures Refilled(l, l', t, c) && At(l'.at, Bin(t, c)) == chain && k < |l.slabs|
    ensures n == 0 ==> l'.slabs == l.slabs
  {
    assert chain + [] == chain;
    assert CutFrom(l.slabs, k, 0) == l.slabs;
  }

  lemma PendingIs(u: Setup, l: Life, v: View, c: Class)
    requires Agrees(u, l, v)
    ensures |v.pending| == |v.index| == NUM_SIZE_CLASSES
    ensures v.pending[c] != 0 ==> PendingAt(u.id, l.slabs, u.y, v.meta, v.pending[c], v.index[c], c)
  {
  }

  /** What a thread holds that took `chain` from a shard with nothing in hand. */
  lemma InHand(u: Setup, l: Life, m: Life, v: View, p: nat, c: Class, chain: seq<nat>)
    requires Agrees(u, m, v) && At(l.at, Hand(u.id)) == [] && |chain| <= |At(l.at, Shard(p, c))|
    requires Carried(l, m, Shard(p, c), At(l.at, Shard(p, c))[|chain|..], Hand(u.id), chain)
    ensures At(m.at, Hand(u.id)) == chain && (forall b :: b in chain ==> b != 0) && m.slabs == l.slabs
    ensures At(m.at, Bin(u.id, c)) == At(l.at, Bin(u.id, c)) && At(m.at, Out) == At(l.at, Out)
  {
    assert chain + [] == chain;
    Linkable(m, u.y, v.next, u.code, u.code', Hand(u.id), chain);
  }

  lemma UsageIs(u: Setup, l: Life, v: View, c: Class)
    requires Agrees(u, l, v)
    ensures |v.bins| == NUM_SIZE_CLASSES && v.bins[c] == At(l.at, Bin(u.id, c))
  {
  }

  /** What follows from taking one freed block in hand. */
  lemma GiveIs(u: Setup, l: Life, m: Life, v: View, b: nat, c: Class)
    requires Agrees(u, m, v) && At(l.at, Hand(u.id)) == [] && HasClass(l.slabs, b, c, u.y)
    requires Carried(l, m, Out, Without(At(l.at, Out), [b]), Hand(u.id), [b])
    ensures At(m.at, Hand(u.id)) == [b] && m.slabs == l.slabs && AllOfClass(m.slabs, [b], c, u.y)
    ensures b in v.next && RawLinked(v.next, [b], v.next[b])
    ensures forall l', p :: p != Out && p != Hand(u.id) && Carried(m, l', Hand(u.id), [], p, [b]) ==>
              Carried(l, l', Out, Without(At(l.at, Out), [b]), p, [b])
  {
    assert [b] + [] == [b];
    Linkable(m, u.y, v.next, u.code, u.code', Hand(u.id), [b]);
  }

  /** What was left of slab `k` has been put in front of a list. */
  ghost predicate Drained(l: Life, l': Life, k: nat, c: Class, to: Place, y: Layout) {
    if k < |l.slabs| && l.slabs[k].carved <= Capacity(c, y)
    then Enlarged(l, l', k, Capacity(c, y) - l.slabs[k].carved, to,
                  NewBlocks(l.slabs[k], Capacity(c, y) - l.slabs[k].carved, y))
    else false
  }

  lemma DrainEnlarges(l: Life, m: Life, k: nat, n: nat, t: nat, p: nat, c: Class, chain: seq<nat>, y: Layout)
    requires Enlarged(l, m, k, n, Hand(t), chain) && At(l.at, Hand(t)) == [] && 0 < n
    requires n == Capacity(c, y) - l.slabs[k].carved && chain == NewBlocks(l.slabs[k], n, y)
    ensures At(m.at, Hand(t)) == chain && |chain| == n
    ensures forall l' :: Carried(m, l', Hand(t), [], Shard(p, c), chain) ==> Drained(l, l', k, c, Shard(p, c), y)
  {
    assert chain + [] == chain;
  }

  lemma NothingDrained(l: Life, k: nat, c: Class, to: Place, y: Layout)
    requires k < |l.slabs| && l.slabs[k].carved == Capacity(c, y)
    ensures Drained(l, l, k, c, to, y)
  {
    assert CutFrom(l.slabs, k, 0) == l.slabs;
    assert NewBlocks(l.slabs[k], 0, y) + At(l.at, to) == At(l.at, to);
  }

  lemma UnloadedIs(l: Life, m: Life, t: nat, p: nat, c: Class, chain: seq<nat>)
    requires Carried(l, m, Bin(t, c), [], Hand(t), chain) && At(l.at, Hand(t)) == []
    ensures At(m.at, Hand(t)) == chain && m.slabs == l.slabs
    ensures forall l' :: Carried(m, l', Hand(t), [], Shard(p, c), chain) ==>
              Carried(l, l', Bin(t, c), [], Shard(p, c), chain)
  {
    assert chain + [] == chain;
  }

  /** The blocks that thread `t` gives back of a class when it exits: its list and, in front of it, what is
      left of the pending slab `k`; but nothing if its list is empty. */
  ghost function GivenBack(l: Life, t: nat, c: Class, slab: nat, k: nat, y: Layout): seq<nat> {
    if At(l.at, Bin(t, c)) == [] then []
    else (if slab != 0 then Rest(l, c, k, y) else []) + At(l.at, Bin(t, c))
  }

  ghost function Rest(l: Life, c: Class, k: nat, y: Layout): seq<nat> {
    if k < |l.slabs| && l.slabs[k].carved <= Capacity(c, y)
    then NewBlocks(l.slabs[k], Capacity(c, y) - l.slabs[k].carved, y) else []
  }

  /** Thread `t` has given back its blocks of class `c`. */
  ghost predicate Gone(l: Life, l': Life, t: nat, p: nat, c: Class, slab: nat, k: nat, y: Layout) {
    match l'
    case Life(at', slabs') =>
      && At(at', Bin(t, c)) == [] && At(at', Shard(p, c)) == GivenBack(l, t, c, slab, k, y) + At(l.at, Shard(p, c))
      && (forall q :: q != Bin(t, c) && q != Shard(p, c) ==> At(at', q) == At(l.at, q))
      && (if At(l.at, Bin(t, c)) != [] && slab != 0
          then k < |l.slabs| && slabs' == CutFrom(l.slabs, k, |Rest(l, c, k, y)|) && slabs'[k].carved == Capacity(c, y)
          else slabs' == l.slabs)
  }

  lemma NothingGone(l: Life, t: nat, p: nat, c: Class, slab: nat, k: nat, y: Layout)
    ensures At(l.at, Bin(t, c)) == [] ==> Gone(l, l, t, p, c, slab, k, y)
  {
    assert [] + At(l.at, Shard(p, c)) == At(l.at, Shard(p, c));
  }

  /** Nothing was pending. */
  lemma ReturnIsAll(l: Life, m: Life, t: nat, p: nat, c: Class, k: nat, y: Layout)
    requires At(l.at, Bin(t, c)) != [] && Carried(l, m, Bin(t, c), [], Shard(p, c), At(l.at, Bin(t, c)))
    ensures Gone(l, m, t, p, c, 0, k, y)
  {
    assert [] + At(l.at, Bin(t, c)) == At(l.at, Bin(t, c));
  }

  /** What was pending goes after the list. */
  lemma ReturnThenDrain(l: Life, m: Life, l': Life, t: nat, p: nat, c: Class, slab: nat, k: nat, y: Layout)
    requires At(l.at, Bin(t, c)) != [] && Carried(l, m, Bin(t, c), [], Shard(p, c), At(l.at, Bin(t, c)))
    requires slab != 0 && Drained(m, l', k, c, Shard(p, c), y)
    ensures Gone(l, l', t, p, c, slab, k, y)
  {
    var bin, shard := At(l.at, Bin(t, c)), At(l.at, Shard(p, c));
    assert Rest(l, c, k, y) + (bin + shard) == Rest(l, c, k, y) + bin + shard;
  }

  /** Slab `k` is the pending one of its class, and the list of that class is not empty. */
  ghost predicate Drains(l: Life, t: nat, n: nat, pending: seq<nat>, index: seq<nat>, k: nat)
    requires k < |l.slabs| && |pending| == |index| == NUM_SIZE_CLASSES
  {
    var c := l.slabs[k].class_;
    c < n && At(l.at, Bin(t, c)) != [] && pending[c] != 0 && index[c] == k
  }

  /** The lists once thread `t` has given back its blocks of the first `n` classes. */
  ghost predicate PlacesAfter(l: Life, at': map<Place, seq<nat>>, t: nat, p: nat, n: nat, pending: seq<nat>,
                              index: seq<nat>, y: Layout)
    requires |pending| == |index| == NUM_SIZE_CLASSES
  {
    && (forall c: Class :: c < n ==> At(at', Bin(t, c)) == [])
    && (forall c: Class :: c < n ==>
          At(at', Shard(p, c)) == GivenBack(l, t, c, pending[c], index[c], y) + At(l.at, Shard(p, c)))
    && (forall c: Class :: n <= c ==>
          At(at', Bin(t, c)) == At(l.at, Bin(t, c)) && At(at', Shard(p, c)) == At(l.at, Shard(p, c)))
    && (forall q: Place :: !(q.Bin? && q.owner == t) && !(q.Shard? && q.cpu == p) ==> At(at', q) == At(l.at, q))
  }

  /** Thread `t` has given back its blocks of the first `n` classes. */
  ghost predicate Exited(l: Life, l': Life, t: nat, p: nat, n: nat, pending: seq<nat>, index: seq<nat>, y: Layout)
    requires |pending| == |index| == NUM_SIZE_CLASSES
  {
    match l'
    case Life(at', slabs') =>
      PlacesAfter(l, at', t, p, n, pending, index, y) && SlabsAfter(l, slabs', t, n, pending, index, y)
  }

  /** The slabs that were drained are fully carved, the others are as they were. */
  ghost predicate SlabsAfter(l: Life, slabs': seq<Slab>, t: nat, n: nat, pending: seq<nat>, index: seq<nat>, y: Layout)
    requires |pending| == |index| == NUM_SIZE_CLASSES
  {
    && |slabs'| == |l.slabs|
    && forall k: nat :: k < |l.slabs| ==>
         slabs'[k] == if Drains(l, t, n, pending, index, k) then l.slabs[k].(carved := Capacity(l.slabs[k].class_, y))
                      else l.slabs[k]
  }

  /** Pending slabs are of the class they are pending for. */
  ghost predicate PendingClasses(slabs: seq<Slab>, pending: seq<nat>, index: seq<nat>, y: Layout) {
    && |pending| == |index| == NUM_SIZE_CLASSES
    && forall c: Class :: pending[c] != 0 ==>
         index[c] < |slabs| && slabs[index[c]].class_ == c && slabs[index[c]].carved <= Capacity(c, y)
  }

  lemma AllPending(u: Setup, l: Life, v: View)
    requires Agrees(u, l, v)
    ensures PendingClasses(l.slabs, v.pending, v.index, u.y)
  {
    forall c: Class | v.pending[c] != 0
      ensures v.index[c] < |l.slabs| && l.slabs[v.index[c]].class_ == c
      ensures l.slabs[v.index[c]].carved <= Capacity(c, u.y)
    {
      PendingIs(u, l, v, c);
    }
  }

  lemma NoneExited(l: Life, t: nat, p: nat, pending: seq<nat>, index: seq<nat>, y: Layout)
    requires |pending| == |index| == NUM_SIZE_CLASSES
    ensures Exited(l, l, t, p, 0, pending, index, y)
  {
  }

  lemma HandKept(l: Life, m: Life, t: nat, p: nat, n: nat, pending: seq<nat>, index: seq<nat>, y: Layout)
    requires |pending| == |index| == NUM_SIZE_CLASSES && Exited(l, m, t, p, n, pending, index, y)
    ensures At(m.at, Hand(t)) == At(l.at, Hand(t))
    ensures n < NUM_SIZE_CLASSES ==> At(m.at, Bin(t, n)) == At(l.at, Bin(t, n))
  {
  }

  lemma ExitSlabs(l: Life, m: Life, slabs': seq<Slab>, t: nat, c: Class, pending: seq<nat>, index: seq<nat>, y: Layout)
    requires PendingClasses(l.slabs, pending, index, y) && SlabsAfter(l, m.slabs, t, c, pending, index, y)
    requires
      if At(l.at, Bin(t, c)) != [] && pending[c] != 0
      then index[c] < |m.slabs| && slabs' == CutFrom(m.slabs, index[c], Capacity(c, y) - l.slabs[index[c]].carved)
      else slabs' == m.slabs
    ensures SlabsAfter(l, slabs', t, c + 1, pending, index, y)
  {
  }

  /** What a thread gives back of a class does not depend on the classes before. */
  lemma SameBack(l: Life, m: Life, t: nat, p: nat, c: Class, pending: seq<nat>, index: seq<nat>, y: Layout)
    requires PendingClasses(l.slabs, pending, index, y) && Exited(l, m, t, p, c, pending, index, y)
    ensures GivenBack(m, t, c, pending[c], index[c], y) == GivenBack(l, t, c, pending[c], index[c], y)
    ensures pending[c] != 0 ==> |Rest(m, c, index[c], y)| == Capacity(c, y) - l.slabs[index[c]].carved
  {
    if pending[c] != 0 {
      assert !Drains(l, t, c, pending, index, index[c]);
      NewBlocksAt(l.slabs[index[c]], Capacity(c, y) - l.slabs[index[c]].carved, y);
    }
  }

  lemma ExitPlaces(l: Life, m: Life, l': Life, t: nat, p: nat, c: Class, pending: seq<nat>, index: seq<nat>, y: Layout)
    requires |pending| == |index| == NUM_SIZE_CLASSES && Exited(l, m, t, p, c, pending, index, y)
    requires Gone(m, l', t, p, c, pending[c], index[c], y)
    requires GivenBack(m, t, c, pending[c], index[c], y) == GivenBack(l, t, c, pending[c], index[c], y)
    requires SlabsAfter(l, l'.slabs, t, c + 1, pending, index, y)
    ensures Exited(l, l', t, p, c + 1, pending, index, y)
  {
    forall d: Class | d != c
      ensures At(l'.at, Bin(t, d)) == At(m.at, Bin(t, d)) && At(l'.at, Shard(p, d)) == At(m.at, Shard(p, d))
    {
    }
    assert PlacesAfter(l, l'.at, t, p, c + 1, pending, index, y);
  }

  lemma ExitStep(l: Life, m: Life, l': Life, t: nat, p: nat, c: Class, pending: seq<nat>, index: seq<nat>, y: Layout)
    requires PendingClasses(l.slabs, pending, index, y) && Exited(l, m, t, p, c, pending, index, y)
    requires Gone(m, l', t, p, c, pending[c], index[c], y)
    ensures Exited(l, l', t, p, c + 1, pending, index, y)
  {
    SameBack(l, m, t, p, c, pending, index, y);
    ExitSlabs(l, m, l'.slabs, t, c, pending, index, y);
    ExitPlaces(l, m, l', t, p, c, pending, index, y);
  }

  /** Of the first `n` classes, those whose list had blocks have no pending slab any more; the others have what they
      had. */
  ghost predicate PendingAfter(l: Life, t: nat, n: nat, pending: seq<nat>, was: seq<nat>) {
    && |pending| == |was| == NUM_SIZE_CLASSES
    && forall d: Class :: pending[d] == if d < n && At(l.at, Bin(t, d)) != [] then 0 else was[d]
  }

  lemma PendingNext(l: Life, t: nat, c: Class, pending: seq<nat>, was: seq<nat>)
    requires PendingAfter(l, t, c, pending, was)
    ensures pending[c] == was[c]
    ensures PendingAfter(l, t, c + 1, if At(l.at, Bin(t, c)) == [] then pending else pending[c := 0], was)
  {
  }

  const BATCH_MIN := 8
  const BATCH_MAX := 32

  function Clamp(hint: nat): nat {
    Min(Max(hint, BATCH_MIN), BATCH_MAX)
  }

  /** The next batch size: one more after a full batch, two fewer otherwise, always within the limits. */
  function Bump(hint: nat, up: bool): (r: nat)
    ensures BATCH_MIN <= r <= BATCH_MAX
  {
    if up then Min(Clamp(hint) + 1, BATCH_MAX) else Max(Clamp(hint) - 2, BATCH_MIN)
  }

  /** The batch size after `n` full batches, or `n` that were not. */
  ghost function Bumped(hint: nat, up: bool, n: nat): nat {
    if n == 0 then hint else Bump(Bumped(hint, up, n - 1), up)
  }

  /** It grows by one and shrinks by two, and never leaves the limits. */
  lemma {:induction false} BumpedIs(hint: nat, up: bool, n: nat)
    requires BATCH_MIN <= hint <= BATCH_MAX
    ensures Bumped(hint, up, n) == if up then Min(hint + n, BATCH_MAX) else Max(hint - 2 * n, BATCH_MIN)
  {
    if n > 0 {
      BumpedIs(hint, up, n - 1);
    }
  }

  /** A size outside the limits counts as the limit. */
  lemma BumpFromOutside(hint: nat, up: bool)
    ensures hint < BATCH_MIN ==> Bump(hint, up) == Bump(BATCH_MIN, up)
    ensures hint > BATCH_MAX ==> Bump(hint, up) == Bump(BATCH_MAX, up)
  {
  }

  /** The batch size after a refill: a batch of `got` blocks came from the shards, and if there were none, some may have
      come from a pending slab. */
  ghost function HintNext(hint: nat, got: nat, served: bool): nat {
    var next := Bump(hint, got == Clamp(hint));
    if got == 0 && served then Bump(next, true) else next
  }

  /** The batch size of one class has changed as a refill demands, that of no other. */
  ghost predicate Hinted(o: seq<nat>, n: seq<nat>, c: Class, at: map<Place, seq<nat>>, cpu: nat, ncpu: nat,
                         served: bool)
  {
    |o| == NUM_SIZE_CLASSES && n == o[c := HintNext(o[c], |Yield(at, c, cpu, ncpu, Clamp(o[c]))|, served)]
  }

  lemma HintedIs(o: seq<nat>, m: seq<nat>, n: seq<nat>, c: Class, at: map<Place, seq<nat>>, cpu: nat, ncpu: nat,
                 got: nat, served: bool)
    requires |o| == NUM_SIZE_CLASSES && got == |Yield(at, c, cpu, ncpu, Clamp(o[c]))|
    requires m == o[c := Bump(o[c], got == Clamp(o[c]))]
    requires n == if got == 0 && served then m[c := Bump(m[c], true)] else m
    ensures Hinted(o, n, c, at, cpu, ncpu, served)
  {
  }

  /** A request for a block is always served unless a new slab is needed; then it fails only if the system
      refuses memory three times, and is served only if it does not. */
  ghost predicate Served(r: Outcome, dry: bool, supplies: seq<Supply>)
    requires |supplies| == 3
  {
    match r
    case Address(_) => dry ==> !NoneMapped(supplies, 3)
    case NoSpace => dry && NoneMapped(supplies, 3)
    case Abort => dry
  }

  /** Wherever a slab of class `c` can be put now, none of its blocks is at an address that equals a key. */
  ghost predicate Spares(u: Setup, c: Class, used: set<int>, arena: iset<int>) {
    forall start: nat :: Spot(start, c, used, arena, u.y) ==> KeysApart(NewSlab(start, c, u.id), u.y, u.code, u.code')
  }

  /** So it is if no key is an address that the kernel may hand out. */
  lemma KeylessSpares(u: Setup, c: Class, used: set<int>, arena: iset<int>)
    requires LayoutOk(u.y) && Keyless(u.code, arena) && Keyless(u.code', arena)
    ensures Spares(u, c, used, arena)
  {
    forall start: nat | Spot(start, c, used, arena, u.y)
      ensures KeysApart(NewSlab(start, c, u.id), u.y, u.code, u.code')
    {
      PagesAligned(start);
      assert EndOf(NewSlab(start, c, u.id), u.y) == EndOf(NewSlab(start, c, 0), u.y);
      KeylessApart(NewSlab(start, c, u.id), u.y, u.code, u.code', arena);
    }
  }

  lemma LentIsMappable(u: Setup, l: Life, v: View, c: Class, start: nat, used: set<int>, used': set<int>,
                       arena: iset<int>)
    requires Agrees(u, l, v) && Backed(l.slabs, used, u.y) && Lent(NewSlab(start, c, u.id), used, used', u.y)
    requires Spares(u, c, used, arena) && Spot(start, c, used, arena, u.y)
    ensures Mappable(u, l.slabs, c, start)
  {
    LentIsAddable(l.slabs, NewSlab(start, c, u.id), used, used', u.y);
  }

  /** A thread took `steps` and made at most one slab, for which the used pages grew. */
  ghost predicate Travels(u: Setup, l: Life, h: Heap, used: set<int>, steps: seq<Step>, l': Life, h': Heap,
                          used': set<int>)
  {
    match u
    case Setup(_, y, _, _, _) => Acts(u, l, h, steps, l', h') && Lends(l.slabs, l'.slabs, used, used', y)
  }

  lemma SameSlabsTrip(u: Setup, l: Life, h: Heap, l': Life, h': Heap, used: set<int>, steps: seq<Step>)
    requires Acts(u, l, h, steps, l', h') && |l'.slabs| == |l.slabs|
    ensures Travels(u, l, h, used, steps, l', h', used)
  {
  }

  lemma TripIsWay(u: Setup, l: Life, h: Heap, used: set<int>, l': Life, h': Heap, used': set<int>, steps: seq<Step>)
    requires Travels(u, l, h, used, steps, l', h', used')
    ensures Acts(u, l, h, steps, l', h') && Lends(l.slabs, l'.slabs, used, used', u.y)
  {
  }

  /** A thread that made no slab leaves all slabs on their pages. */
  lemma StillBacked(u: Setup, l: Life, h: Heap, steps: seq<Step>, l': Life, h': Heap, used: set<int>)
    requires Acts(u, l, h, steps, l', h') && |l'.slabs| == |l.slabs| && Backed(l.slabs, used, u.y)
    ensures Backed(l'.slabs, used, u.y)
  {
    forall k | 0 <= k < |l'.slabs|
      ensures OnPages(l'.slabs[k], used, u.y)
    {
      assert OnPages(l.slabs[k], used, u.y) && SameSpot(l.slabs[k], l'.slabs[k]);
      assert EndOf(l'.slabs[k], u.y) == EndOf(l.slabs[k], u.y);
    }
  }

  lemma TravelsOn(u: Setup, l: Life, h: Heap, steps: seq<Step>, l': Life, h': Heap, steps': seq<Step>, l'': Life,
                  h'': Heap, used: set<int>, used': set<int>)
    requires Acts(u, l, h, steps, l', h') && |l'.slabs| == |l.slabs|
    requires Travels(u, l', h', used, steps', l'', h'', used')
    ensures Travels(u, l, h, used, steps + steps', l'', h'', used')
  {
    ActsJoin(u, l, h, steps, l', h', steps', l'', h'');
  }

  lemma NewSlabTrip(u: Setup, l: Life, h: Heap, l': Life, h': Heap, steps: seq<Step>, s: Slab, used: set<int>,
                    used': set<int>)
    requires Acts(u, l, h, steps, l', h') && |l'.slabs| == |l.slabs| + 1 && SameSpot(s, l'.slabs[|l.slabs|])
    requires Lent(s, used, used', u.y) && s.head == METADATA_SIZE
    ensures Travels(u, l, h, used, steps, l', h', used')
  {
    LendsAfter(l.slabs, l'.slabs, s, used, used', u.y);
  }

  /** The new slab is where it was put, whatever happened to it since. */
  lemma LastSpot(u: Setup, l: Life, m: Life, h: Heap, steps: seq<Step>, l': Life, h': Heap, s: Slab)
    requires m.slabs == l.slabs + [s] && Acts(u, m, h, steps, l', h')
    ensures |l.slabs| < |l'.slabs| && SameSpot(s, l'.slabs[|l.slabs|])
  {
    assert m.slabs[|l.slabs|] == s;
  }

  lemma LendsAfter(slabs: seq<Slab>, slabs': seq<Slab>, s: Slab, used: set<int>, used': set<int>, y: Layout)
    requires |slabs'| == |slabs| + 1 && SameSpot(s, slabs'[|slabs|])
    requires Lent(s, used, used', y) && s.head == METADATA_SIZE
    ensures Lends(slabs, slabs', used, used', y)
  {
    assert EndOf(slabs'[|slabs|], y) == EndOf(s, y);
  }

  /** A block of class `c` went out to a user, or none did; nothing is left in hand. */
  ghost predicate HandedOut(id: nat, l: Life, l': Life, r: Outcome, c: Class, y: Layout) {
    match r
    case Address(b) =>
      && 0 < b && HasClass(l'.slabs, b, c, y) && At(l'.at, Out) == [b] + At(l.at, Out) && At(l'.at, Hand(id)) == []
    case _ => At(l'.at, Out) == At(l.at, Out) && At(l'.at, Hand(id)) == []
  }

  /** A refill needs a new slab: every shard is empty and nothing is pending. */
  ghost predicate Dry(l: Life, c: Class, ncpu: nat, left: int) {
    ShardsEmpty(l.at, c, ncpu) && left <= 0
  }

  /** For each class, how many blocks to take from a shard at once. */
  class BatchHints {
    var hints: seq<nat>

    constructor ()
      ensures |hints| == NUM_SIZE_CLASSES && forall c :: 0 <= c < NUM_SIZE_CLASSES ==> hints[c] == BATCH_MAX
    {
      hints := seq(NUM_SIZE_CLASSES, _ => BATCH_MAX);
    }

    method Adjust(c: Class, up: bool)
      requires |hints| == NUM_SIZE_CLASSES
      modifies this
      ensures hints == old(hints)[c := Bump(old(hints)[c], up)]
    {
      hints := hints[c := Bump(hints[c], up)];
    }
  }

  class SlabThread {
    const id: nat
    const y: Layout
    const mem: Memory
    const slabs: SlabMemory
    const tls: ThreadLocalEngine
    const icc: InterConnectCache

    /** For each class, the address of a slab with blocks left, or null. */
    var pending: seq<nat>

    /** The batch sizes, which all threads share. */
    const batches: BatchHints

    ghost var index: seq<nat>

    /** A thread that starts when the system is in state `l`. */
    constructor (tid: nat, layout: Layout, engine: ThreadLocalEngine, cache: InterConnectCache, metadata: SlabMemory,
                 shared: BatchHints, ghost l: Life)
      requires LayoutOk(layout) && Inv(l, layout)
      requires engine.mem == cache.mem && engine.hardened == cache.hardened && (engine.hardened || engine.code == PLAIN)
      requires engine.Lists() == Some(engine.lists) && cache.Lists() == Some(cache.lists)
      requires Mirror(tid, l.at, engine.lists, cache.lists, cache.ncpu)
      requires Known(l.slabs, layout, engine.mem.next, engine.code, cache.code)
      ensures In(l).Some? && id == tid && y == layout && tls == engine && icc == cache && slabs == metadata
      ensures mem == engine.mem && batches == shared && |pending| == |index| == NUM_SIZE_CLASSES
      ensures forall c: Class :: pending[c] == 0
    {
      id, y, mem, slabs, tls, icc, batches := tid, layout, engine.mem, metadata, engine, cache, shared;
      pending := seq(NUM_SIZE_CLASSES, _ => 0);
      index := seq(NUM_SIZE_CLASSES, _ => 0);
    }

    ghost function Config(): Setup
    {
      Setup(id, y, icc.ncpu, tls.code, icc.code)
    }

    ghost function Now(): Heap
      reads mem`next, slabs`meta
    {
      Heap(mem.next, slabs.meta)
    }

    ghost function Memories(): View
      reads this`pending, this`index, tls`lists, icc`lists, mem`next, slabs`meta
    {
      View(tls.lists, icc.lists, mem.next, slabs.meta, pending, index)
    }

    /** The lists of the thread, with their heads and lengths. */
    ghost function Lists(): Bins
      reads tls`heads, tls`usage, tls`lists
    {
      Bins(tls.heads, tls.usage, tls.lists)
    }

    /** The parts of the thread belong together. */
    ghost predicate Wired() {
      tls.mem == mem && icc.mem == mem && tls.hardened == icc.hardened && (tls.hardened || tls.code == PLAIN)
    }

    ghost predicate Sound()
      reads tls, icc, tls.mem, icc.mem
    {
      && Wired() && tls.Lists() == Some(tls.lists) && icc.Lists() == Some(icc.lists)
    }

    /** `l`, if memory agrees with it. */
    ghost function In(l: Life): Option<Life>
      reads this`pending, this`index, tls, icc, mem, slabs, tls.mem, icc.mem
    {
      if Sound() && Agrees(Config(), l, Memories()) then Some(l) else None
    }

    /** The thread is at rest and memory agrees with `l`. */
    ghost predicate AtRest(l: Life)
      reads this`pending, this`index, tls, icc, mem, slabs, tls.mem, icc.mem, batches
    {
      && LayoutOk(y) && In(l).Some? && At(l.at, Hand(id)) == [] && Tracks(l)
      && |pending| == |index| == |batches.hints| == NUM_SIZE_CLASSES
    }

    /** Each slab of the thread with blocks that are not carved yet is the pending one of its class. */
    ghost predicate Tracks(l: Life)
      reads this`pending, this`index
    {
      Tracked(id, l.slabs, y, pending, index)
    }

    /** What the thread works on is not part of the bitmap. */
    ghost predicate Beside(va: VaBitmap)
      reads va
    {
      && this !in va.Repr && tls !in va.Repr && icc !in va.Repr && mem !in va.Repr && slabs !in va.Repr
      && batches !in va.Repr
    }

    /** The used pages, if the bitmap is in order. */
    ghost function Backing(va: VaBitmap): Option<set<int>>
      reads va, va.Repr
    {
      if va.Valid() && Beside(va) then Some(va.used) else None
    }

    /** Links of blocks in hand may be changed at will. Before, the thread saw `v`. */
    lemma Relinked(v: View, chain: seq<nat>, l: Life)
      requires tls.mem == mem && icc.mem == mem && tls.hardened == icc.hardened && (tls.hardened || tls.code == PLAIN)
      requires ThreadLocal.Checked(tls.code, v.next, Bins(tls.heads, tls.usage, tls.lists)).Some?
      requires InterConnect.Checked(icc.ncpu, icc.hardened, icc.code, v.next,
                                    Shards(icc.words, icc.usage, icc.lists)).Some?
      requires Agrees(Config(), l, v) && Memories() == v.(next := mem.next)
      requires Holds(l.at, Hand(id), chain) && SameExcept(v.next, mem.next, chain)
      ensures In(l).Some? && Acts(Config(), l, HeapOf(v), [], l, Now())
    {
      Loose(Config(), l, v, Hand(id), chain);
      tls.StillOk(v.next, chain);
      icc.StillOk(v.next, chain);
      RelinkAgrees(Config(), l, v, chain, Memories());
    }

    /** How many blocks are left in slab `k`, if it is a slab of the thread of class `c` at address `slab`. */
    ghost function Left(l: Life, slab: nat, k: nat, c: Class): Option<int>
      reads slabs
    {
      if PendingAt(id, l.slabs, y, slabs.meta, slab, k, c) then Some(Capacity(c, y) - l.slabs[k].carved) else None
    }

    /** Hand out the first block of one of the thread's lists. */
    method PopBin(c: Class, ghost l: Life) returns (b: nat, ghost l': Life, ghost steps: seq<Step>)
      requires In(l).Some?
      modifies tls
      ensures In(l').Some? && Acts(Config(), l, old(Now()), steps, l', Now())
      ensures At(l.at, Bin(id, c)) == [] ==> b == 0 && l' == l
      ensures At(l.at, Bin(id, c)) != [] ==> b == At(l.at, Bin(id, c))[0] && b != 0 && HasClass(l'.slabs, b, c, y)
      ensures At(l.at, Bin(id, c)) != [] ==> Carried(l, l', Bin(id, c), At(l.at, Bin(id, c))[1..], Out, [b])
    {
      ghost var v := Memories();
      b := tls.Pop(c);
      if v.bins[c] == [] {
        l', steps := l, [];
        StayAgrees(Config(), l, v, v);
      } else {
        assert v.bins[c][..1] == [b];
        l' := HitAgrees(Config(), l, v, c, Memories());
        steps := [Hit(id, c)];
      }
    }

    /** Put a freed block in front of one of the thread's lists. */
    method PushBin(c: Class, b: nat, ghost l: Life) returns (ghost l': Life, ghost steps: seq<Step>)
      requires In(l).Some? && b in At(l.at, Out) && HasClass(l.slabs, b, c, y) && |tls.lists[c]| < Limit(c, y)
      modifies tls, mem
      ensures In(l').Some? && Acts(Config(), l, old(Now()), steps, l', Now())
      ensures Carried(l, l', Out, Without(At(l.at, Out), [b]), Bin(id, c), [b])
    {
      ghost var v := Memories();
      Loose(Config(), l, v, Out, [b]);
      tls.Push(c, b);
      icc.StillOk(v.next, [b]);
      l' := KeepAgrees(Config(), l, v, c, b, Memories());
      steps := [Keep(id, c, b)];
    }

    method LinkToBin(c: Class, head: nat, tail: nat, count: nat, ghost chain: seq<nat>, ghost l: Life)
      requires In(l).Some? && chain == At(l.at, Hand(id)) && RawLinked(mem.next, chain, 0)
      requires chain != [] && head == chain[0] && tail == chain[|chain| - 1] && count == |chain|
      modifies tls, mem
      ensures Sound() && SameExcept(old(mem.next), mem.next, chain)
      ensures tls.lists == old(tls.lists)[c := chain + old(tls.lists)[c]]
    {
      ghost var next := mem.next;
      Loose(Config(), l, Memories(), Hand(id), chain);
      tls.PushTailed(c, head, tail, count, chain, 0);
      icc.StillOk(next, chain);
    }

    /** Move the raw chain in the thread's hand to one of its lists, which is empty. */
    method FillBin(c: Class, head: nat, tail: nat, count: nat, ghost chain: seq<nat>, ghost l: Life)
      returns (ghost l': Life, ghost steps: seq<Step>)
      requires In(l).Some? && chain == At(l.at, Hand(id)) && AllOfClass(l.slabs, chain, c, y)
      requires At(l.at, Bin(id, c)) == [] && RawLinked(mem.next, chain, 0)
      requires chain != [] && head == chain[0] && tail == chain[|chain| - 1] && count == |chain| <= MAX_INIT
      modifies tls, mem
      ensures In(l').Some? && Acts(Config(), l, old(Now()), steps, l', Now())
      ensures Carried(l, l', Hand(id), [], Bin(id, c), chain)
    {
      ghost var v := Memories();
      LinkToBin(c, head, tail, count, chain, l);
      l' := FillAgrees(Config(), l, v, c, chain, Memories());
      steps := [Fill(id, c, chain)];
    }

    method LinkToShard(c: Class, cpu: nat, head: nat, tail: nat, count: nat, ghost chain: seq<nat>, ghost end: nat,
                       ghost l: Life)
      requires In(l).Some? && Holds(l.at, Hand(id), chain) && Distinct(chain) && cpu < icc.ncpu
      requires chain != [] && head == chain[0] && tail == chain[|chain| - 1] && count == |chain|
      requires RawLinked(mem.next, chain, end)
      modifies icc, mem
      ensures Sound() && SameExcept(old(mem.next), mem.next, chain)
      ensures icc.lists == old(icc.lists)[Slot(cpu, c) := chain + old(icc.lists)[Slot(cpu, c)]]
    {
      ghost var next := mem.next;
      Loose(Config(), l, Memories(), Hand(id), chain);
      icc.PushToGlobal(c, cpu, head, tail, count, chain, end);
      tls.StillOk(next, chain);
    }

    /** Push a raw chain of blocks in the thread's hand on a shard. */
    method PushPart(c: Class, cpu: nat, head: nat, tail: nat, count: nat, ghost chain: seq<nat>, ghost end: nat,
                    ghost l: Life)
      returns (ghost l': Life, ghost steps: seq<Step>)
      requires In(l).Some? && Holds(l.at, Hand(id), chain) && Distinct(chain) && AllOfClass(l.slabs, chain, c, y)
      requires cpu < icc.ncpu && RawLinked(mem.next, chain, end)
      requires chain != [] && head == chain[0] && tail == chain[|chain| - 1] && count == |chain|
      modifies icc, mem
      ensures In(l').Some? && Acts(Config(), l, old(Now()), steps, l', Now())
      ensures SameExcept(old(mem.next), mem.next, chain)
      ensures Carried(l, l', Hand(id), Without(At(l.at, Hand(id)), chain), Shard(cpu, c), chain)
    {
      ghost var v := Memories();
      LinkToShard(c, cpu, head, tail, count, chain, end, l);
      l' := PushAgrees(Config(), l, v, cpu, c, chain, Memories());
      steps := [Push(id, cpu, c, chain)];
    }

    /** Push all that is in the thread's hand on a shard. */
    method PushShard(c: Class, cpu: nat, head: nat, tail: nat, count: nat, ghost chain: seq<nat>, ghost end: nat,
                     ghost l: Life)
      returns (ghost l': Life, ghost steps: seq<Step>)
      requires In(l).Some? && chain == At(l.at, Hand(id)) && AllOfClass(l.slabs, chain, c, y) && cpu < icc.ncpu
      requires chain != [] && head == chain[0] && tail == chain[|chain| - 1] && count == |chain|
      requires RawLinked(mem.next, chain, end)
      modifies icc, mem
      ensures In(l').Some? && Acts(Config(), l, old(Now()), steps, l', Now())
      ensures Carried(l, l', Hand(id), [], Shard(cpu, c), chain)
    {
      WholeHand(Config(), l, Memories());
      l', steps := PushPart(c, cpu, head, tail, count, chain, end, l);
    }

    /** Detach blocks from the first shard that has some, beginning with that of `cpu`. */
    method Fetch(c: Class, batch: nat, cpu: nat, ghost l: Life) returns (block: nat, ghost chain: seq<nat>,
                 ghost p: nat)
      requires In(l).Some? && cpu < icc.ncpu
      modifies icc, mem
      ensures Sound() && SameExcept(old(mem.next), mem.next, chain) && RawLinked(mem.next, chain, 0)
      ensures block == 0 <==> AllEmpty(old(icc.lists), c, icc.ncpu)
      ensures block == 0 ==> chain == [] && icc.lists == old(icc.lists)
      ensures block != 0 ==> p < icc.ncpu && chain != [] && block == chain[0] && |chain| <= Max(batch, 1)
      ensures block != 0 ==> Detached(old(icc.lists), icc.lists, Slot(p, c), chain)
      ensures block != 0 ==> NextFull(old(icc.lists), c, cpu, p, icc.ncpu)
      ensures block != 0 ==> |chain| == Min(Max(batch, 1), |old(icc.lists)[Slot(p, c)]|)
    {
      ghost var v := Memories();
      ghost var hops;
      block, chain, hops := icc.TryPop(c, batch, cpu);
      p := Victim(cpu, hops, icc.ncpu);
      TakenLeavesBins(Config(), l, v, Slot(p, c), icc.lists, chain);
      tls.StillOk(v.next, chain);
      assert chain != [] ==> chain[0] in chain;
    }

    /** Take blocks in hand from the first shard that has some, beginning with that of `cpu`. */
    method GrabShard(c: Class, batch: nat, cpu: nat, ghost l: Life)
      returns (block: nat, ghost chain: seq<nat>, ghost p: nat, ghost l': Life, ghost steps: seq<Step>)
      requires In(l).Some? && cpu < icc.ncpu
      modifies icc, mem
      ensures In(l').Some? && Acts(Config(), l, old(Now()), steps, l', Now())
      ensures block == 0 <==> ShardsEmpty(l.at, c, icc.ncpu)
      ensures block == 0 ==> l' == l && chain == []
      ensures SameExcept(old(mem.next), mem.next, chain)
      ensures block != 0 ==> chain != [] && block == chain[0] && |chain| <= Max(batch, 1)
      ensures block != 0 ==> RawLinked(mem.next, chain, 0)
      ensures block != 0 ==> p < icc.ncpu && AllOfClass(l.slabs, chain, c, y) && |chain| <= |At(l.at, Shard(p, c))|
      ensures block != 0 ==> Carried(l, l', Shard(p, c), At(l.at, Shard(p, c))[|chain|..], Hand(id), chain)
      ensures block != 0 ==> Front(l.at, c, cpu, p, icc.ncpu, batch, chain)
    {
      ghost var v := Memories();
      block, chain, p := Fetch(c, batch, cpu, l);
      EmptyIff(Config(), l, v, c);
      if block == 0 {
        l', steps := l, [];
        StayAgrees(Config(), l, v, Memories());
      } else {
        FrontIs(Config(), l, v, c, cpu, p, batch, chain, icc.lists);
        l' := GrabAgrees(Config(), l, v, p, c, chain, Memories());
        steps := [Grab(id, p, c, |chain|)];
      }
    }

    /** Read one of the thread's lists back into a raw chain. */
    method UnloadBin(c: Class, ghost l: Life)
      returns (head: nat, tail: nat, count: nat, ghost chain: seq<nat>, ghost l': Life, ghost steps: seq<Step>)
      requires In(l).Some? && At(l.at, Bin(id, c)) != []
      modifies tls, mem
      ensures In(l').Some? && Acts(Config(), l, old(Now()), steps, l', Now())
      ensures Carried(l, l', Bin(id, c), [], Hand(id), chain) && AllOfClass(l.slabs, chain, c, y)
      ensures chain == At(l.at, Bin(id, c)) && RawLinked(mem.next, chain, 0)
      ensures head == chain[0] && tail == chain[|chain| - 1] && count == |chain|
    {
      ghost var v := Memories();
      chain := tls.lists[c];
      BinLeavesShards(Config(), l, v, c);
      head, tail, count := tls.Unload(c);
      icc.StillOk(v.next, chain);
      l' := UnloadAgrees(Config(), l, v, c, Memories());
      steps := [Unload(id, c)];
    }

    /** Cut up to `max` further blocks off slab `k`; no list is affected. */
    method CutBlocks(c: Class, slab: nat, max: nat, ghost k: nat, ghost l: Life)
      returns (head: nat, tail: nat, count: nat, ghost chain: seq<nat>, ghost upto: nat)
      requires In(l).Some? && Left(l, slab, k, c).Some?
      modifies mem, slabs
      ensures Sound() && count == Min(old(Left(l, slab, k, c)).value, max) && upto == l.slabs[k].carved + count
      ensures slabs.meta == Advanced(old(slabs.meta), slab, Size(c, y), Capacity(c, y), upto)
      ensures SameExcept(old(mem.next), mem.next, chain) && RawLinked(mem.next, chain, 0)
      ensures chain == NewBlocks(l.slabs[k], count, y) && head == FirstOf(chain) && tail == LastOf(chain)
    {
      ghost var v := Memories();
      head, tail, count, chain, upto := slabs.InitBlocks(mem, slab, Size(c, y), max, Capacity(c, y), l.slabs[k].carved);
      CutIsLoose(Config(), l, v, k, count);
      tls.StillOk(v.next, chain);
      icc.StillOk(v.next, chain);
    }

    /** Take up to `max` further blocks of slab `k` in hand. */
    method CarveSlab(c: Class, slab: nat, max: nat, ghost k: nat, ghost l: Life)
      returns (head: nat, tail: nat, count: nat, ghost chain: seq<nat>, ghost l': Life, ghost steps: seq<Step>)
      requires In(l).Some? && Left(l, slab, k, c).Some?
      modifies mem, slabs
      ensures In(l').Some? && Acts(Config(), l, old(Now()), steps, l', Now())
      ensures count == Min(old(Left(l, slab, k, c)).value, max) && Left(l', slab, k, c).Some?
      ensures Enlarged(l, l', k, count, Hand(id), chain) && AllOfClass(l'.slabs, chain, c, y)
      ensures chain == NewBlocks(l.slabs[k], count, y) && RawLinked(mem.next, chain, 0)
      ensures head == FirstOf(chain) && tail == LastOf(chain)
    {
      ghost var v := Memories();
      ghost var upto;
      head, tail, count, chain, upto := CutBlocks(c, slab, max, k, l);
      l' := CarveAgrees(Config(), l, v, slab, k, c, count, upto, mem.next);
      steps := [Carve(id, k, count)];
    }

    /** Set up a new slab at an address where no slab is. */
    method MapSlab(c: Class, start: nat, ghost l: Life) returns (ghost l': Life, ghost steps: seq<Step>)
      requires In(l).Some? && Mappable(Config(), l.slabs, c, start)
      modifies slabs
      ensures In(l').Some? && Acts(Config(), l, old(Now()), steps, l', Now())
      ensures l' == l.(slabs := l.slabs + [NewSlab(start, c, id)])
      ensures Left(l', start, |l.slabs|, c) == Some(Capacity(c, y))
    {
      ghost var v := Memories();
      slabs.Create(start, Size(c, y), Capacity(c, y));
      l' := MapAgrees(Config(), l, v, start, c);
      steps := [Map(id, c, start)];
    }

    /** Take over a big block that was resized to a slab class. Its header was written, with a null link, when
        the block was made. */
    method AdoptBlock(c: Class, start: nat, ghost l: Life) returns (ghost l': Life, ghost steps: seq<Step>)
      requires In(l).Some? && Capacity(c, y) == 1 && Addable(l.slabs, LoneBlock(start, c, id), y)
      requires KeysApart(LoneBlock(start, c, id), y, tls.code, icc.code)
      modifies mem
      ensures In(l').Some? && Acts(Config(), l, old(Now()), steps, l', Now())
      ensures l' == Life(l.at[Out := [start] + At(l.at, Out)], l.slabs + [LoneBlock(start, c, id)])
    {
      ghost var v := Memories();
      LoneIsNowhere(Config(), l, v, LoneBlock(start, c, id));
      mem.next := mem.next[start := 0];
      tls.StillOk(v.next, [start]);
      icc.StillOk(v.next, [start]);
      l' := AdoptAgrees(Config(), l, v, start, c, Memories());
      steps := [Adopt(id, c, start)];
    }

    /** Forget the pending slab of a class. */
    method ForgetSlab(c: Class, ghost l: Life)
      requires In(l).Some?
      modifies this`pending
      ensures In(l).Some? && pending == old(pending)[c := 0]
    {
      PendingChange(Config(), l, Memories(), c, 0, index[c]);
      pending := pending[c := 0];
    }

    /** Make a slab the pending one of its class. */
    method RememberSlab(c: Class, slab: nat, ghost k: nat, ghost l: Life)
      requires In(l).Some? && Left(l, slab, k, c).Some?
      modifies this`pending, this`index
      ensures In(l).Some? && pending == old(pending)[c := slab] && index == old(index)[c := k]
    {
      PendingChange(Config(), l, Memories(), c, slab, k);
      pending := pending[c := slab];
      index := index[c := k];
    }

    /** Carve a few blocks and put them in the thread's list of the class, which is empty. */
    method CarveAndFill(c: Class, slab: nat, ghost k: nat, ghost l: Life)
      returns (count: nat, ghost l': Life, ghost steps: seq<Step>)
      requires In(l).Some? && Left(l, slab, k, c).Some?
      requires At(l.at, Hand(id)) == [] && At(l.at, Bin(id, c)) == [] && LayoutOk(y)
      modifies tls, mem, slabs
      ensures In(l').Some? && Acts(Config(), l, old(Now()), steps, l', Now())
      ensures count == Min(old(Left(l, slab, k, c)).value, MaxInit(c, y)) && Left(l', slab, k, c).Some?
      ensures Enlarged(l, l', k, count, Bin(id, c), NewBlocks(l.slabs[k], count, y))
    {
      var head, tail;
      ghost var chain;
      head, tail, count, chain, l', steps := CarveSlab(c, slab, MaxInit(c, y), k, l);
      FillEnlarges(l, l', k, count, id, c, chain);
      if count > 0 {
        ghost var m, n := l', Now();
        ghost var more;
        l', more := FillBin(c, head, tail, count, chain, m);
        ActsJoin(Config(), l, old(Now()), steps, m, n, more, l', Now());
        steps := steps + more;
      }
    }

    /** How many blocks of a class the pending slab has left. */
    ghost function PendingLeft(l: Life, c: Class): int
      reads this`pending, this`index, slabs
    {
      if |pending| == |index| == NUM_SIZE_CLASSES && pending[c] != 0 && Left(l, pending[c], index[c], c).Some?
      then Left(l, pending[c], index[c], c).value else 0
    }

    /** Refill an empty list from the pending slab. A slab that is used up is forgotten. */
    method FillFromPending(c: Class, ghost l: Life) returns (count: nat, ghost l': Life, ghost steps: seq<Step>)
      requires In(l).Some? && Tracks(l) && |pending| == NUM_SIZE_CLASSES && pending[c] != 0
      requires At(l.at, Hand(id)) == [] && At(l.at, Bin(id, c)) == [] && LayoutOk(y)
      modifies this`pending, tls, mem, slabs
      ensures In(l').Some? && Tracks(l') && Acts(Config(), l, old(Now()), steps, l', Now())
      ensures Refilled(l, l', id, c) && (count > 0 <==> old(PendingLeft(l, c)) > 0)
      ensures count == |At(l'.at, Bin(id, c))| && |l'.slabs| == |l.slabs| && (count == 0 ==> l'.slabs == l.slabs)
      ensures |pending| == |index| == NUM_SIZE_CLASSES && index[c] < |l'.slabs|
      ensures pending[c] == 0 <==> l'.slabs[index[c]].carved == Capacity(c, y)
    {
      ghost var k := index[c];
      var slab := pending[c];
      PendingIs(Config(), l, Memories(), c);
      count, l', steps := CarveAndFill(c, slab, k, l);
      EnlargedIs(l, l', k, count, id, c, NewBlocks(l.slabs[k], count, y));
      NewBlocksAt(l.slabs[k], count, y);
      TrackedCut(id, l.slabs, k, count, y, pending, index);
      var left := slabs.RemainingBlocks(slab, Size(c, y), Capacity(c, y), l'.slabs[k].carved);
      if count == 0 || left == 0 {
        TrackedForget(id, l'.slabs, y, pending, index, c);
        ForgetSlab(c, l');
      }
    }

    /** Refill an empty list from a slab, which becomes the pending one if blocks are left. */
    method FillAndRemember(c: Class, slab: nat, ghost k: nat, ghost l: Life)
      returns (count: nat, ghost l': Life, ghost steps: seq<Step>)
      requires In(l).Some? && Left(l, slab, k, c).Some?
      requires At(l.at, Hand(id)) == [] && At(l.at, Bin(id, c)) == [] && LayoutOk(y)
      modifies this`pending, this`index, tls, mem, slabs
      ensures In(l').Some? && Acts(Config(), l, old(Now()), steps, l', Now())
      ensures count == Min(old(Left(l, slab, k, c)).value, MaxInit(c, y))
      ensures Refilled(l, l', id, c) && |At(l'.at, Bin(id, c))| == count
      ensures k < |l.slabs| && l'.slabs == CutFrom(l.slabs, k, count)
      ensures |old(pending)| == |old(index)| == NUM_SIZE_CLASSES
      ensures
        if l'.slabs[k].carved < Capacity(c, y)
        then pending == old(pending)[c := slab] && index == old(index)[c := k]
        else pending == old(pending) && index == old(index)
    {
      count, l', steps := CarveAndFill(c, slab, k, l);
      EnlargedIs(l, l', k, count, id, c, NewBlocks(l.slabs[k], count, y));
      NewBlocksAt(l.slabs[k], count, y);
      var left := slabs.RemainingBlocks(slab, Size(c, y), Capacity(c, y), l'.slabs[k].carved);
      if left > 0 {
        RememberSlab(c, slab, k, l');
      }
    }

    /** Refill an empty list from a new slab. The list is empty and every limit is at least one, so the
        blocks never go to a shard instead. */
    method FillFromNew(c: Class, start: nat, ghost l: Life) returns (ghost l': Life, ghost steps: seq<Step>)
      requires In(l).Some? && Tracks(l) && pending[c] == 0 && Mappable(Config(), l.slabs, c, start)
      requires At(l.at, Hand(id)) == [] && At(l.at, Bin(id, c)) == [] && LayoutOk(y)
      modifies this`pending, this`index, tls, mem, slabs
      ensures In(l').Some? && Tracks(l') && Acts(Config(), l, old(Now()), steps, l', Now())
      ensures Refilled(l, l', id, c) && At(l'.at, Bin(id, c)) != []
      ensures |l'.slabs| == |l.slabs| + 1 && SameSpot(NewSlab(start, c, id), l'.slabs[|l.slabs|])
    {
      ghost var m, more;
      m, steps := MapSlab(c, start, l);
      ghost var n := Now();
      var count;
      count, l', more := FillAndRemember(c, start, |l.slabs|, m);
      assert count > 0;
      LastSpot(Config(), l, m, n, more, l', Now(), NewSlab(start, c, id));
      NewIsTracked(Config(), l, c, start, count, old(pending), old(index), Memories());
      ActsJoin(Config(), l, old(Now()), steps, m, n, more, l', Now());
      steps := steps + more;
    }

    /** Find the end of the chain in hand and move it to an empty list. */
    method FillFromHand(c: Class, block: nat, batch: nat, ghost chain: seq<nat>, ghost l: Life)
      returns (got: nat, ghost l': Life, ghost steps: seq<Step>)
      requires In(l).Some? && chain == At(l.at, Hand(id)) && AllOfClass(l.slabs, chain, c, y)
      requires At(l.at, Bin(id, c)) == [] && RawLinked(mem.next, chain, 0) && (forall b :: b in chain ==> b != 0)
      requires chain != [] && block == chain[0] && |chain| <= batch <= MAX_INIT
      modifies tls, mem
      ensures In(l').Some? && Acts(Config(), l, old(Now()), steps, l', Now())
      ensures got == |chain| && Carried(l, l', Hand(id), [], Bin(id, c), chain)
    {
      var tail;
      tail, got := mem.FindTail(block, batch, chain);
      mem.next := mem.next[tail := 0];
      l', steps := FillBin(c, block, tail, got, chain, l);
    }

    /** Refill an empty list from the shards. */
    method FillFromShards(c: Class, batch: nat, cpu: nat, ghost l: Life)
      returns (got: nat, ghost l': Life, ghost steps: seq<Step>)
      requires In(l).Some? && cpu < icc.ncpu && 1 <= batch <= MAX_INIT
      requires At(l.at, Hand(id)) == [] && At(l.at, Bin(id, c)) == []
      modifies tls, icc, mem
      ensures In(l').Some? && Acts(Config(), l, old(Now()), steps, l', Now())
      ensures got == 0 <==> ShardsEmpty(l.at, c, icc.ncpu)
      ensures got == 0 ==> l' == l
      ensures got == |At(l'.at, Bin(id, c))| <= batch && At(l'.at, Hand(id)) == [] && At(l'.at, Out) == At(l.at, Out)
      ensures l'.slabs == l.slabs && At(l'.at, Bin(id, c)) == Yield(l.at, c, cpu, icc.ncpu, batch)
    {
      var block;
      ghost var chain, p;
      block, chain, p, l', steps := GrabShard(c, batch, cpu, l);
      if block == 0 {
        YieldNone(l.at, c, cpu, icc.ncpu, batch);
        return 0, l', steps;
      }
      YieldIs(l.at, c, cpu, p, icc.ncpu, batch, chain);
      ghost var m, n, more := l', Now(), [];
      InHand(Config(), l, m, Memories(), p, c, chain);
      got, l', more := FillFromHand(c, block, batch, chain, m);
      assert At(l'.at, Bin(id, c)) == chain + [] == chain;
      ActsJoin(Config(), l, old(Now()), steps, m, n, more, l', Now());
      steps := steps + more;
    }

    /** Refill an empty list from the pending slab, if there is one. */
    method FillPending(c: Class, ghost l: Life) returns (ok: bool, ghost l': Life, ghost steps: seq<Step>)
      requires In(l).Some? && Tracks(l)
      requires At(l.at, Hand(id)) == [] && At(l.at, Bin(id, c)) == [] && LayoutOk(y)
      requires |pending| == |batches.hints| == NUM_SIZE_CLASSES
      modifies this`pending, batches, tls, mem, slabs
      ensures In(l').Some? && Tracks(l') && Acts(Config(), l, old(Now()), steps, l', Now())
      ensures Refilled(l, l', id, c) && |l'.slabs| == |l.slabs|
      ensures (ok <==> old(PendingLeft(l, c)) > 0) && (ok <==> At(l'.at, Bin(id, c)) != [])
      ensures |pending| == NUM_SIZE_CLASSES && (!ok ==> pending[c] == 0)
      ensures batches.hints ==
        if ok then old(batches.hints)[c := Bump(old(batches.hints)[c], true)] else old(batches.hints)
    {
      l', steps := l, [];
      StayAgrees(Config(), l, Memories(), Memories());
      ok := false;
      if pending[c] != 0 {
        var count;
        count, l', steps := FillFromPending(c, l);
        ok := count > 0;
      }
      if ok {
        batches.Adjust(c, true);
      }
    }

    /** Refill an empty list without a new slab: from a shard if any has blocks of the class, else from the
        pending slab. */
    method FillReady(c: Class, cpu: nat, ghost l: Life) returns (ok: bool, ghost l': Life, ghost steps: seq<Step>)
      requires In(l).Some? && Tracks(l) && cpu < icc.ncpu
      requires At(l.at, Hand(id)) == [] && At(l.at, Bin(id, c)) == [] && LayoutOk(y)
      requires |pending| == |batches.hints| == NUM_SIZE_CLASSES
      modifies this`pending, batches, tls, icc, mem, slabs
      ensures In(l').Some? && Tracks(l') && Acts(Config(), l, old(Now()), steps, l', Now())
      ensures (ok <==> !Dry(l, c, icc.ncpu, old(PendingLeft(l, c)))) && (ok <==> At(l'.at, Bin(id, c)) != [])
      ensures At(l'.at, Hand(id)) == [] && At(l'.at, Out) == At(l.at, Out) && |l'.slabs| == |l.slabs|
      ensures |pending| == NUM_SIZE_CLASSES && (!ok ==> pending[c] == 0 && ShardsEmpty(l'.at, c, icc.ncpu))
      ensures Hinted(old(batches.hints), batches.hints, c, l.at, cpu, icc.ncpu, ok)
    {
      ghost var hints := batches.hints;
      var batch := Clamp(batches.hints[c]);
      var got;
      got, l', steps := FillFromShards(c, batch, cpu, l);
      batches.Adjust(c, got == batch);
      ghost var hints' := batches.hints;
      if got > 0 {
        HintedIs(hints, hints', batches.hints, c, l.at, cpu, icc.ncpu, got, true);
        return true, l', steps;
      }
      ghost var n, more := Now(), [];
      ok, l', more := FillPending(c, l);
      HintedIs(hints, hints', batches.hints, c, l.at, cpu, icc.ncpu, got, ok);
      ActsJoin(Config(), l, old(Now()), steps, l, n, more, l', Now());
      steps := steps + more;
    }

    /** Refill an empty list without a new slab and hand out its first block. */
    method TryFill(c: Class, cpu: nat, ghost l: Life) returns (b: nat, ghost l': Life, ghost steps: seq<Step>)
      requires In(l).Some? && Tracks(l) && cpu < icc.ncpu
      requires At(l.at, Hand(id)) == [] && At(l.at, Bin(id, c)) == [] && LayoutOk(y)
      requires |pending| == |batches.hints| == NUM_SIZE_CLASSES
      modifies this`pending, batches, tls, icc, mem, slabs
      ensures In(l').Some? && Tracks(l') && Acts(Config(), l, old(Now()), steps, l', Now())
      ensures b == 0 <==> Dry(l, c, icc.ncpu, old(PendingLeft(l, c)))
      ensures HandedOut(id, l, l', if b == 0 then NoSpace else Address(b), c, y) && |l'.slabs| == |l.slabs|
      ensures |pending| == NUM_SIZE_CLASSES && (b == 0 ==> pending[c] == 0 && NeedsSlab(l', c))
      ensures Hinted(old(batches.hints), batches.hints, c, l.at, cpu, icc.ncpu, b != 0)
    {
      var ok;
      ok, l', steps := FillReady(c, cpu, l);
      b := 0;
      if ok {
        ghost var m, n, more := l', Now(), [];
        b, l', more := PopBin(c, m);
        ActsJoin(Config(), l, old(Now()), steps, m, n, more, l', Now());
        steps := steps + more;
      }
    }

    /** Hand out a block of a class without a new slab: the first of the thread's list, or one from a refill.
        The result is null exactly if there is no free block of the class that the thread can reach. */
    method Allocate(c: Class, cpu: nat, ghost l: Life) returns (b: nat, ghost l': Life, ghost steps: seq<Step>)
      requires In(l).Some? && Tracks(l) && At(l.at, Hand(id)) == [] && LayoutOk(y) && cpu < icc.ncpu
      requires |pending| == |batches.hints| == NUM_SIZE_CLASSES
      modifies this`pending, batches, tls, icc, mem, slabs
      ensures In(l').Some? && Tracks(l') && Acts(Config(), l, old(Now()), steps, l', Now())
      ensures b == 0 <==> At(l.at, Bin(id, c)) == [] && Dry(l, c, icc.ncpu, old(PendingLeft(l, c)))
      ensures HandedOut(id, l, l', if b == 0 then NoSpace else Address(b), c, y) && |l'.slabs| == |l.slabs|
      ensures |pending| == NUM_SIZE_CLASSES && (b == 0 ==> pending[c] == 0 && NeedsSlab(l', c))
      ensures
        if At(l.at, Bin(id, c)) == [] then Hinted(old(batches.hints), batches.hints, c, l.at, cpu, icc.ncpu, b != 0)
        else batches.hints == old(batches.hints)
    {
      b, l', steps := PopBin(c, l);
      if b == 0 {
        b, l', steps := TryFill(c, cpu, l);
      }
    }

    /** Ask the bitmap for the pages of a slab. Only the bitmap changes. */
    method AskPages(va: VaBitmap, c: Class, supplies: seq<Supply>, ghost l: Life) returns (r: Reply)
      requires In(l).Some? && Backing(va).Some? && Backed(l.slabs, va.used, y) && SuppliesOk(va, supplies)
      requires Spares(Config(), c, va.used, va.arena) && LayoutOk(y)
      modifies va.Repr
      ensures In(l).Some? && Backing(va).Some? && Now() == old(Now())
      ensures fresh(va.Repr - old(va.Repr)) && Keeps(old(va.segs), va.segs)
      ensures Acts(Config(), l, Now(), [], l, Now())
      ensures !r.Mapped? ==> va.used == old(va.used)
      ensures r.Mapped? ==>
        Mappable(Config(), l.slabs, c, r.start) && Lent(NewSlab(r.start, c, id), old(va.used), va.used, y)
      ensures Asked(r, supplies, 3) && (r.NotMapped? ==> !va.LatestFull(SlabCount(c, y)))
      ensures SlabBytes(c, y) <= CHUNK_SIZE ==> (r.Dead? <==> old(Starved(va, SlabCount(c, y), supplies[0])))
    {
      ghost var v := Memories();
      r := MapRetry(va, c, id, y, supplies);
      StayAgrees(Config(), l, v, v);
      if r.Mapped? {
        LentIsMappable(Config(), l, v, c, r.start, old(va.used), va.used, va.arena);
      }
    }

    /** Refill an empty list from a new slab and hand out its first block. */
    method TakeFromNew(c: Class, start: nat, ghost l: Life) returns (b: nat, ghost l': Life, ghost steps: seq<Step>)
      requires In(l).Some? && Tracks(l) && pending[c] == 0 && Mappable(Config(), l.slabs, c, start)
      requires At(l.at, Hand(id)) == [] && At(l.at, Bin(id, c)) == [] && LayoutOk(y)
      requires |batches.hints| == NUM_SIZE_CLASSES
      modifies this`pending, this`index, batches, tls, mem, slabs
      ensures In(l').Some? && Tracks(l') && Acts(Config(), l, old(Now()), steps, l', Now())
      ensures HandedOut(id, l, l', Address(b), c, y)
      ensures |l'.slabs| == |l.slabs| + 1 && SameSpot(NewSlab(start, c, id), l'.slabs[|l.slabs|])
      ensures batches.hints == old(batches.hints)[c := Bump(old(batches.hints)[c], true)]
    {
      l', steps := FillFromNew(c, start, l);
      ghost var m, n, more := l', Now(), [];
      b, l', more := PopBin(c, m);
      ActsJoin(Config(), l, old(Now()), steps, m, n, more, l', Now());
      steps := steps + more;
      batches.Adjust(c, true);
    }

    /** Hand out a block from a new slab when the list is empty and nothing is pending. A request for pages that
        the kernel then refuses to map is repeated twice. The process dies exactly if the bitmap has no pages at
        the first request; otherwise none is had exactly if all three mappings are refused. */
    method BulkFill(va: VaBitmap, c: Class, supplies: seq<Supply>, ghost l: Life)
      returns (r: Outcome, ghost l': Life, ghost steps: seq<Step>)
      requires In(l).Some? && Tracks(l) && pending[c] == 0
      requires Backing(va).Some? && Backed(l.slabs, va.used, y) && SuppliesOk(va, supplies)
      requires Spares(Config(), c, va.used, va.arena)
      requires At(l.at, Hand(id)) == [] && At(l.at, Bin(id, c)) == [] && LayoutOk(y)
      requires |batches.hints| == NUM_SIZE_CLASSES
      modifies this`pending, this`index, batches, tls, mem, slabs, va.Repr
      ensures In(l').Some? && Tracks(l') && Backing(va).Some?
      ensures fresh(va.Repr - old(va.Repr)) && Keeps(old(va.segs), va.segs)
      ensures Travels(Config(), l, old(Now()), old(va.used), steps, l', Now(), va.used)
      ensures Served(r, true, supplies) && HandedOut(id, l, l', r, c, y)
      ensures SlabBytes(c, y) <= CHUNK_SIZE ==> FateOf(r) == old(NewFate(va, SlabCount(c, y), supplies))
      ensures r.NoSpace? ==> !va.LatestFull(SlabCount(c, y)) && l' == l
      ensures r.NoSpace? ==> unchanged(this`pending, this`index, slabs)
      ensures batches.hints ==
        if r.Address? then old(batches.hints)[c := Bump(old(batches.hints)[c], true)] else old(batches.hints)
    {
      ghost var h := Now();
      var reply := AskPages(va, c, supplies, l);
      if reply.Mapped? {
        r, l', steps := TakeBeside(va, c, reply.start, l);
        NewSlabTrip(Config(), l, h, l', Now(), steps, NewSlab(reply.start, c, id), old(va.used), va.used);
      } else {
        l', steps := l, [];
        SameSlabsTrip(Config(), l, h, l, h, va.used, []);
        r := if reply.Dead? then Abort else NoSpace;
      }
    }

    /** Take the first block of a new slab. The bitmap is not concerned. */
    method TakeBeside(ghost va: VaBitmap, c: Class, start: nat, ghost l: Life)
      returns (r: Outcome, ghost l': Life, ghost steps: seq<Step>)
      requires In(l).Some? && Tracks(l) && pending[c] == 0
      requires Mappable(Config(), l.slabs, c, start) && Backing(va).Some?
      requires At(l.at, Hand(id)) == [] && At(l.at, Bin(id, c)) == [] && LayoutOk(y)
      requires |batches.hints| == NUM_SIZE_CLASSES
      modifies this`pending, this`index, batches, tls, mem, slabs
      ensures Backing(va) == old(Backing(va)) && va.segs == old(va.segs) && va.Repr == old(va.Repr)
      ensures In(l').Some? && Tracks(l') && Acts(Config(), l, old(Now()), steps, l', Now())
      ensures r.Address? && HandedOut(id, l, l', r, c, y)
      ensures |l'.slabs| == |l.slabs| + 1 && SameSpot(NewSlab(start, c, id), l'.slabs[|l.slabs|])
      ensures batches.hints == old(batches.hints)[c := Bump(old(batches.hints)[c], true)]
    {
      var b;
      b, l', steps := TakeFromNew(c, start, l);
      r := Address(b);
    }

    /** Hand out a block of a class without a new slab. The bitmap is not concerned. */
    method AllocateBeside(ghost va: VaBitmap, c: Class, cpu: nat, ghost l: Life)
      returns (b: nat, ghost l': Life, ghost steps: seq<Step>)
      requires In(l).Some? && Tracks(l) && At(l.at, Hand(id)) == [] && LayoutOk(y) && cpu < icc.ncpu && Beside(va)
      requires |pending| == |batches.hints| == NUM_SIZE_CLASSES
      modifies this`pending, batches, tls, icc, mem, slabs
      ensures unchanged(va, va.Repr)
      ensures In(l').Some? && Tracks(l') && Acts(Config(), l, old(Now()), steps, l', Now())
      ensures b == 0 <==> At(l.at, Bin(id, c)) == [] && Dry(l, c, icc.ncpu, old(PendingLeft(l, c)))
      ensures HandedOut(id, l, l', if b == 0 then NoSpace else Address(b), c, y) && |l'.slabs| == |l.slabs|
      ensures |pending| == |batches.hints| == NUM_SIZE_CLASSES
      ensures b == 0 ==> NeedsSlab(l', c) && pending[c] == 0
    {
      b, l', steps := Allocate(c, cpu, l);
    }

    /** There is no free block of the class that the thread can reach. */
    ghost predicate NeedsSlab(l: Life, c: Class)
      reads this`pending, this`index, slabs
    {
      At(l.at, Bin(id, c)) == [] && Dry(l, c, icc.ncpu, PendingLeft(l, c))
    }

    /** What becomes of a request for a block: it can only fail if a new slab is needed. */
    ghost function SlabFate(va: VaBitmap, l: Life, c: Class, supplies: seq<Supply>): Fate
      requires va.Valid() && SuppliesOk(va, supplies)
      reads this`pending, this`index, slabs, va, va.Repr
    {
      if NeedsSlab(l, c) then NewFate(va, SlabCount(c, y), supplies) else Granted
    }

    /** Hand out a block of a class: from the thread's list, from a shard, from a pending slab or from a new one. */
    method Serve(va: VaBitmap, c: Class, cpu: nat, supplies: seq<Supply>, ghost l: Life)
      returns (r: Outcome, ghost l': Life, ghost steps: seq<Step>)
      requires AtRest(l) && Backing(va).Some? && Backed(l.slabs, va.used, y) && SuppliesOk(va, supplies)
      requires cpu < icc.ncpu && (NeedsSlab(l, c) ==> Spares(Config(), c, va.used, va.arena))
      modifies this`pending, this`index, batches, tls, icc, mem, slabs, va.Repr
      ensures AtRest(l') && Backing(va).Some?
      ensures fresh(va.Repr - old(va.Repr)) && Keeps(old(va.segs), va.segs)
      ensures Travels(Config(), l, old(Now()), old(va.used), steps, l', Now(), va.used)
      ensures HandedOut(id, l, l', r, c, y)
      ensures SlabBytes(c, y) <= CHUNK_SIZE ==> FateOf(r) == old(SlabFate(va, l, c, supplies))
      ensures r.NoSpace? ==> !va.LatestFull(SlabCount(c, y)) && NeedsSlab(l', c)
    {
      var b;
      b, l', steps := Seek(va, c, cpu, supplies, l);
      if b != 0 {
        return Address(b), l', steps;
      }
      r, l', steps := ServeNew(va, c, supplies, l, old(Now()), l', steps);
    }

    /** Hand out a block without a new slab, if there is one. What becomes of a request for one does not change. */
    method Seek(ghost va: VaBitmap, c: Class, cpu: nat, ghost supplies: seq<Supply>, ghost l: Life)
      returns (b: nat, ghost l': Life, ghost steps: seq<Step>)
      requires AtRest(l) && Backing(va).Some? && SuppliesOk(va, supplies) && cpu < icc.ncpu
      modifies this`pending, batches, tls, icc, mem, slabs
      ensures AtRest(l') && Backing(va) == old(Backing(va)) && va.segs == old(va.segs) && va.Repr == old(va.Repr)
      ensures Keeps(old(va.segs), va.segs)
      ensures NewFate(va, SlabCount(c, y), supplies) == old(NewFate(va, SlabCount(c, y), supplies))
      ensures Travels(Config(), l, old(Now()), va.used, steps, l', Now(), va.used) && |l'.slabs| == |l.slabs|
      ensures HandedOut(id, l, l', if b == 0 then NoSpace else Address(b), c, y)
      ensures (b == 0 <==> old(NeedsSlab(l, c))) && (b == 0 ==> NeedsSlab(l', c) && pending[c] == 0)
    {
      b, l', steps := AllocateBeside(va, c, cpu, l);
      SameSlabsTrip(Config(), l, old(Now()), l', Now(), va.used, steps);
      PendingIs(Config(), l', Memories(), c);
    }

    /** Hand out a block of a new slab after `done`, which led to `m` and handed out none. */
    method ServeNew(va: VaBitmap, c: Class, supplies: seq<Supply>, ghost l: Life, ghost h: Heap, ghost m: Life,
                    ghost done: seq<Step>)
      returns (r: Outcome, ghost l': Life, ghost steps: seq<Step>)
      requires AtRest(m) && pending[c] == 0
      requires Backing(va).Some? && Backed(l.slabs, va.used, y) && SuppliesOk(va, supplies)
      requires Travels(Config(), l, h, va.used, done, m, Now(), va.used) && |m.slabs| == |l.slabs|
      requires NeedsSlab(m, c) && At(m.at, Out) == At(l.at, Out) && Spares(Config(), c, va.used, va.arena)
      modifies this`pending, this`index, batches, tls, mem, slabs, va.Repr
      ensures AtRest(l') && Backing(va).Some?
      ensures fresh(va.Repr - old(va.Repr)) && Keeps(old(va.segs), va.segs)
      ensures Travels(Config(), l, h, old(va.used), steps, l', Now(), va.used)
      ensures HandedOut(id, l, l', r, c, y)
      ensures SlabBytes(c, y) <= CHUNK_SIZE ==> FateOf(r) == old(NewFate(va, SlabCount(c, y), supplies))
      ensures r.NoSpace? ==> !va.LatestFull(SlabCount(c, y)) && NeedsSlab(l', c)
    {
      ghost var n, more := Now(), [];
      TripIsWay(Config(), l, h, va.used, m, n, va.used, done);
      StillBacked(Config(), l, h, done, m, n, va.used);
      r, l', more := BulkFill(va, c, supplies, m);
      TravelsOn(Config(), l, h, done, m, n, more, l', Now(), old(va.used), va.used);
      PendingIs(Config(), l', Memories(), c);
      steps := done + more;
    }

    /** Free a block: keep it, or pass it on to a shard if the thread has enough blocks of the class. */
    method Free(b: nat, c: Class, cpu: nat, ghost l: Life) returns (ghost l': Life, ghost steps: seq<Step>)
      requires In(l).Some? && b in At(l.at, Out) && HasClass(l.slabs, b, c, y) && cpu < icc.ncpu
      requires At(l.at, Hand(id)) == []
      modifies tls, icc, mem
      ensures In(l').Some? && Acts(Config(), l, old(Now()), steps, l', Now())
      ensures Carried(l, l', Out, Without(At(l.at, Out), [b]),
                      if |At(l.at, Bin(id, c))| >= Limit(c, y) then Shard(cpu, c) else Bin(id, c), [b])
    {
      ghost var v := Memories();
      UsageIs(Config(), l, v, c);
      if tls.usage[c] >= Limit(c, y) {
        ghost var m := GiveAgrees(Config(), l, v, b);
        steps := [Give(id, b)];
        ghost var more;
        GiveIs(Config(), l, m, v, b, c);
        l', more := PushShard(c, cpu, b, b, 1, [b], mem.next[b], m);
        ActsJoin(Config(), l, HeapOf(v), steps, m, HeapOf(v), more, l', Now());
        steps := steps + more;
      } else {
        l', steps := PushBin(c, b, l);
      }
    }

    /** Carve what is left of the pending slab of a class, pass it on to a shard and forget the slab. */
    method DrainPending(c: Class, cpu: nat, ghost l: Life) returns (ghost l': Life, ghost steps: seq<Step>)
      requires In(l).Some? && Tracks(l) && At(l.at, Hand(id)) == [] && cpu < icc.ncpu && |pending| == NUM_SIZE_CLASSES
      modifies this`pending, icc, mem, slabs
      ensures In(l').Some? && Tracks(l') && Acts(Config(), l, old(Now()), steps, l', Now())
      ensures |old(pending)| == |index| == NUM_SIZE_CLASSES
      ensures old(pending)[c] == 0 ==> l' == l && pending == old(pending)
      ensures old(pending)[c] != 0 ==> Drained(l, l', index[c], c, Shard(cpu, c), y)
      ensures old(pending)[c] != 0 ==> pending == old(pending)[c := 0]
    {
      ghost var k := index[c];
      var slab := pending[c];
      PendingIs(Config(), l, Memories(), c);
      l', steps := l, [];
      StayAgrees(Config(), l, Memories(), Memories());
      if slab != 0 {
        var left := slabs.RemainingBlocks(slab, Size(c, y), Capacity(c, y), l.slabs[k].carved);
        if left > 0 {
          l', steps := CarveToShard(c, slab, left, cpu, k, l);
        } else {
          NothingDrained(l, k, c, Shard(cpu, c), y);
        }
        TrackedCut(id, l.slabs, k, left, y, pending, index);
        TrackedForget(id, l'.slabs, y, pending, index, c);
        ForgetSlab(c, l');
      }
    }

    /** Carve all that is left of a slab and pass it on to a shard. */
    method CarveToShard(c: Class, slab: nat, left: nat, cpu: nat, ghost k: nat, ghost l: Life)
      returns (ghost l': Life, ghost steps: seq<Step>)
      requires In(l).Some? && At(l.at, Hand(id)) == [] && cpu < icc.ncpu && Left(l, slab, k, c) == Some(left)
      requires 0 < left
      modifies icc, mem, slabs
      ensures In(l').Some? && Acts(Config(), l, old(Now()), steps, l', Now())
      ensures Drained(l, l', k, c, Shard(cpu, c), y)
    {
      var head, tail, count;
      ghost var chain, m, n, more;
      head, tail, count, chain, m, steps := CarveSlab(c, slab, left, k, l);
      n := Now();
      DrainEnlarges(l, m, k, count, id, cpu, c, chain, y);
      l', more := PushShard(c, cpu, head, tail, count, chain, 0, m);
      ActsJoin(Config(), l, old(Now()), steps, m, n, more, l', Now());
      steps := steps + more;
    }

    /** Give the list of one class back to a shard. */
    method ReturnBin(c: Class, cpu: nat, ghost l: Life) returns (ghost l': Life, ghost steps: seq<Step>)
      requires In(l).Some? && At(l.at, Hand(id)) == [] && cpu < icc.ncpu && At(l.at, Bin(id, c)) != []
      modifies tls, icc, mem
      ensures In(l').Some? && Acts(Config(), l, old(Now()), steps, l', Now())
      ensures Carried(l, l', Bin(id, c), [], Shard(cpu, c), At(l.at, Bin(id, c)))
    {
      var head, tail, count;
      ghost var chain, m, n, more;
      head, tail, count, chain, m, steps := UnloadBin(c, l);
      n := Now();
      UnloadedIs(l, m, id, cpu, c, chain);
      l', more := PushShard(c, cpu, head, tail, count, chain, 0, m);
      ActsJoin(Config(), l, old(Now()), steps, m, n, more, l', Now());
      steps := steps + more;
    }

    /** Give back the list of one class and what is left of its pending slab. If the list is empty nothing
        is done, not even for a pending slab. */
    method ExitClass(c: Class, cpu: nat, ghost l: Life) returns (ghost l': Life, ghost steps: seq<Step>)
      requires In(l).Some? && Tracks(l) && At(l.at, Hand(id)) == [] && cpu < icc.ncpu
      modifies this`pending, tls, icc, mem, slabs
      ensures In(l').Some? && Tracks(l') && Acts(Config(), l, old(Now()), steps, l', Now())
      ensures |old(pending)| == |index| == NUM_SIZE_CLASSES
      ensures Gone(l, l', id, cpu, c, old(pending)[c], index[c], y)
      ensures pending == if At(l.at, Bin(id, c)) == [] then old(pending) else old(pending)[c := 0]
    {
      UsageIs(Config(), l, Memories(), c);
      l', steps := l, [];
      StayAgrees(Config(), l, Memories(), Memories());
      var any := tls.HasBlocks(c);
      NothingGone(l, id, cpu, c, pending[c], index[c], y);
      if any {
        l', steps := ReturnBin(c, cpu, l);
        ghost var m, n, more := l', Now(), [];
        ghost var slab := pending[c];
        l', more := DrainPending(c, cpu, m);
        if slab == 0 {
          ReturnIsAll(l, m, id, cpu, c, index[c], y);
        } else {
          ReturnThenDrain(l, m, l', id, cpu, c, slab, index[c], y);
        }
        ActsJoin(Config(), l, old(Now()), steps, m, n, more, l', Now());
        steps := steps + more;
      }
    }

    /** `m`, if it is a state that `steps` lead to from `l` and in which the thread has given back its blocks
        of the first `n` classes. */
    ghost function Leaving(n: nat, cpu: nat, l: Life, next: Heap, was: seq<nat>, m: Life,
                           steps: seq<Step>): Option<Life>
      reads this`pending, this`index, tls, icc, mem, slabs, tls.mem, icc.mem
    {
      if && In(m).Some? && Tracks(m) && Acts(Config(), l, next, steps, m, Now())
         && At(l.at, Hand(id)) == [] && cpu < icc.ncpu && |index| == NUM_SIZE_CLASSES
         && PendingClasses(l.slabs, was, index, y) && PendingAfter(l, id, n, pending, was)
         && Exited(l, m, id, cpu, n, was, index, y)
      then Some(m) else None
    }

    /** One more class on the way out. */
    method ExitNext(c: Class, cpu: nat, ghost l: Life, ghost next: Heap, ghost was: seq<nat>, ghost m: Life,
                    ghost done: seq<Step>)
      returns (ghost l': Life, ghost steps: seq<Step>)
      requires Leaving(c, cpu, l, next, was, m, done).Some?
      modifies this`pending, tls, icc, mem, slabs
      ensures Leaving(c + 1, cpu, l, next, was, l', steps).Some?
    {
      ghost var n, more := Now(), [];
      PendingNext(l, id, c, pending, was);
      HandKept(l, m, id, cpu, c, was, index, y);
      l', more := ExitClass(c, cpu, m);
      ExitStep(l, m, l', id, cpu, c, was, index, y);
      ActsJoin(Config(), l, next, done, m, n, more, l', Now());
      steps := done + more;
    }

    /** A thread gives everything back when it exits: all its lists and, for each class whose list is not
        empty, all blocks of the pending slab that were not carved yet. */
    method Exit(cpu: nat, ghost l: Life) returns (ghost l': Life, ghost steps: seq<Step>)
      requires In(l).Some? && Tracks(l) && At(l.at, Hand(id)) == [] && cpu < icc.ncpu
      modifies this`pending, tls, icc, mem, slabs
      ensures In(l').Some? && Tracks(l') && Acts(Config(), l, old(Now()), steps, l', Now())
      ensures |old(pending)| == |index| == NUM_SIZE_CLASSES
      ensures Exited(l, l', id, cpu, NUM_SIZE_CLASSES, old(pending), index, y)
      ensures PendingAfter(l, id, NUM_SIZE_CLASSES, pending, old(pending))
    {
      ghost var was := pending;
      AllPending(Config(), l, Memories());
      StayAgrees(Config(), l, Memories(), Memories());
      NoneExited(l, id, cpu, was, index, y);
      l', steps := l, [];
      var c := 0;
      while c != NUM_SIZE_CLASSES
        invariant 0 <= c <= NUM_SIZE_CLASSES && Leaving(c, cpu, l, old(Now()), was, l', steps).Some?
        decreases NUM_SIZE_CLASSES - c
      {
        l', steps := ExitNext(c, cpu, l, old(Now()), was, l', steps);
        c := c + 1;
      }
    }
  }

  /** How links are stored: under a key in the hardened build, as they are otherwise. */
  function CodeFor(hardened: bool, key: nat): Code {
    if hardened then XorCode(key) else PLAIN
  }

  /** Which keys can be used: all in the plain build, and otherwise those that are no aligned address in the arena. */
  lemma CodeKeyless(hardened: bool, key: nat, arena: iset<int>)
    ensures Keyless(CodeFor(hardened, key), arena) <==> !hardened || key == 0 || key % 16 != 0 || key !in arena
  {
    XorKeyless(key, arena);
    PlainKeyless(arena);
  }

  /** The first thread of a process: everything is new and empty, and the system is in its start state. */
  method Boot(y: Layout, hardened: bool, key: nat, numaKey: nat, ncpu: nat) returns (t: SlabThread)
    requires LayoutOk(y)
    ensures t.In(START).Some? && t.id == 0 && t.y == y && t.icc.ncpu == ncpu && t.tls.hardened == hardened
    ensures t.tls.code == CodeFor(hardened, key) && t.icc.code == CodeFor(hardened, numaKey)
    ensures |t.pending| == |t.index| == |t.batches.hints| == NUM_SIZE_CLASSES
    ensures fresh(t) && fresh(t.tls) && fresh(t.icc) && fresh(t.mem) && fresh(t.slabs) && fresh(t.batches)
  {
    var mem := new Memory();
    var metadata := new SlabMemory();
    var shared := new BatchHints();
    var engine := new ThreadLocalEngine(mem, CodeFor(hardened, key), hardened);
    var cache := new InterConnectCache(mem, CodeFor(hardened, numaKey), hardened, ncpu);
    StartInv(y);
    t := new SlabThread(0, y, engine, cache, metadata, shared, START);
  }

  // ------------------------------------------------------------------ several threads

  /** What another thread sees after one thread has acted. */
  function SeenAfter(v: View, shards: map<Slot, seq<nat>>, h: Heap): View {
    v.(shards := shards, next := h.next, meta := h.meta)
  }

  /** Two threads of one process. */
  ghost predicate Together(u: Setup, w: Setup) {
    u.id != w.id && u.y == w.y && u.ncpu == w.ncpu && u.code' == w.code'
  }

  lemma PendingStays(u: Setup, w: Setup, l: Life, l': Life, v: View, h: Heap, c: Class)
    requires Together(u, w) && PendingOk(w.id, l.slabs, w.y, v.meta, v.pending, v.index) && v.pending[c] != 0
    requires SlabsKept(u.id, l.slabs, l'.slabs) && MetaKept(u.id, l.slabs, v.meta, h.meta)
    ensures PendingAt(w.id, l'.slabs, w.y, h.meta, v.pending[c], v.index[c], c)
  {
    assert PendingAt(w.id, l.slabs, w.y, v.meta, v.pending[c], v.index[c], c);
    assert SameMeta(v.meta, h.meta, l.slabs[v.index[c]].start);
  }

  /** Whatever one thread does, memory still agrees with the transition system for every other thread. */
  lemma OthersAgree(u: Setup, v: View, w: Setup, v': View, l: Life, l': Life, steps: seq<Step>)
    requires Together(u, w) && Agrees(w, l, v) && Agrees(u, l', v')
    requires Acts(u, l, HeapOf(v), steps, l', HeapOf(v'))
    requires forall k :: 0 <= k < |l'.slabs| ==> KeysApart(l'.slabs[k], w.y, w.code, w.code')
    ensures Agrees(w, l', SeenAfter(v, v'.shards, HeapOf(v')))
  {
    var seen := SeenAfter(v, v'.shards, HeapOf(v'));
    forall c: Class | v.pending[c] != 0
      ensures PendingAt(w.id, l'.slabs, w.y, v'.meta, v.pending[c], v.index[c], c)
    {
      PendingStays(u, w, l, l', v, HeapOf(v'), c);
    }
    assert Mirror(w.id, l'.at, seen.bins, seen.shards, w.ncpu);
    assert Known(l'.slabs, w.y, seen.next, w.code, w.code');
    assert Agrees(w, l', seen);
  }

  /** The lists of another thread are still linked in memory. */
  lemma OthersLinked(code: Code, next: map<nat, nat>, next': map<nat, nat>, bins: Bins)
    requires ThreadLocal.Checked(code, next, bins) == Some(bins.lists)
    requires forall c :: 0 <= c < |bins.lists| ==> SameLinks(next, next', bins.lists[c])
    ensures ThreadLocal.Checked(code, next', bins) == Some(bins.lists)
  {
    forall c | 0 <= c < NUM_SIZE_CLASSES
      ensures BinOk(code, next', bins.heads[c], bins.usage[c], bins.lists[c])
    {
      assert BinOk(code, next, bins.heads[c], bins.usage[c], bins.lists[c]) && SameLinks(next, next', bins.lists[c]);
      assert forall i :: 0 <= i < |bins.lists[c]| ==> bins.lists[c][i] in bins.lists[c];
    }
    assert BinsOk(code, next', bins);
  }

  /** Thread `b`, which saw `v` when the links of its lists were last checked, has not acted since; the thread
      that did sees `v'`, and shares the memory and the shards with it. */
  ghost predicate Undisturbed(b: SlabThread, v: View, v': View)
    reads b`pending, b`index, b.tls, b.icc, b.mem, b.slabs, b.icc.mem
  {
    && b.tls.mem == b.mem && b.icc.mem == b.mem && b.tls.hardened == b.icc.hardened
    && (b.tls.hardened || b.tls.code == PLAIN)
    && v.bins == b.tls.lists && v.pending == b.pending && v.index == b.index
    && ThreadLocal.Checked(b.tls.code, v.next, Bins(b.tls.heads, b.tls.usage, b.tls.lists)) == Some(b.tls.lists)
    && v'.shards == b.icc.lists && v'.next == b.mem.next && v'.meta == b.slabs.meta
    && b.icc.Lists() == Some(b.icc.lists)
  }

  /** What is known of a thread at rest that saw `v` when its lists were `bins`. */
  ghost predicate Calm(u: Setup, l: Life, v: View, bins: Bins) {
    match v
    case View(lists, _, next, _, pending, index) =>
      && Agrees(u, l, v) && At(l.at, Hand(u.id)) == [] && lists == bins.lists
      && ThreadLocal.Checked(u.code, next, bins) == Some(bins.lists)
      && |pending| == |index| == NUM_SIZE_CLASSES && Tracked(u.id, l.slabs, u.y, pending, index)
  }

  lemma CalmNow(b: SlabThread, l: Life)
    requires b.AtRest(l)
    ensures b.Wired() && Calm(b.Config(), l, b.Memories(), b.Lists())
  {
  }

  /** Both threads belong to one process. */
  ghost predicate Share(a: SlabThread, b: SlabThread) {
    && a.mem == b.mem && a.icc == b.icc && a.slabs == b.slabs && a.batches == b.batches && a.y == b.y
    && a.id != b.id && a != b && a.tls != b.tls
  }

  /** A thread that was calm before another one acted still is at rest. */
  lemma StillAtRest(a: SlabThread, b: SlabThread, v: View, bins: Bins, l: Life, l': Life, steps: seq<Step>)
    requires a.AtRest(l') && Acts(a.Config(), l, HeapOf(v), steps, l', a.Now()) && Share(a, b) && b.Wired()
    requires Calm(b.Config(), l, v, bins) && b.Lists() == bins && v.pending == b.pending && v.index == b.index
    requires forall k :: 0 <= k < |l'.slabs| ==> KeysApart(l'.slabs[k], b.y, b.tls.code, b.icc.code)
    ensures b.AtRest(l')
  {
    Composed(a.Config(), a.Memories(), b, v, l, l', steps);
    assert OfOther(Hand(b.id), a.id);
    TrackedStays(b.id, l.slabs, l'.slabs, b.y, b.pending, b.index, a.id);
  }

  /** Slabs that were there keep their blocks out of the way of keys. */
  lemma KeysStay(u: Setup, l: Life, v: View, u': Setup, h: Heap, steps: seq<Step>, l': Life, h': Heap)
    requires Agrees(u, l, v) && Acts(u', l, h, steps, l', h') && |l'.slabs| == |l.slabs|
    ensures forall k :: 0 <= k < |l'.slabs| ==> KeysApart(l'.slabs[k], u.y, u.code, u.code')
  {
    forall k | 0 <= k < |l'.slabs|
      ensures KeysApart(l'.slabs[k], u.y, u.code, u.code')
    {
      assert SameSpot(l.slabs[k], l'.slabs[k]) && KeysApart(l.slabs[k], u.y, u.code, u.code');
      forall i: nat | i < Capacity(l'.slabs[k].class_, u.y)
        ensures BlockOf(l'.slabs[k], i, u.y) == BlockOf(l.slabs[k], i, u.y)
      {
      }
    }
  }

  /** Operations of several threads compose: after a thread has acted in any of the ways above, every other
      thread finds everything as the transition system has it. */
  lemma Composed(u: Setup, v': View, b: SlabThread, v: View, l: Life, l': Life, steps: seq<Step>)
    requires Together(u, b.Config()) && Undisturbed(b, v, v')
    requires Agrees(b.Config(), l, v) && Agrees(u, l', v')
    requires Acts(u, l, HeapOf(v), steps, l', HeapOf(v'))
    requires forall k :: 0 <= k < |l'.slabs| ==> KeysApart(l'.slabs[k], b.y, b.tls.code, b.icc.code)
    ensures b.In(l').Some?
  {
    OthersAgree(u, v, b.Config(), v', l, l', steps);
    forall c: Class
      ensures SameLinks(v.next, v'.next, v.bins[c])
    {
      assert OfOther(Bin(b.id, c), u.id);
    }
    OthersLinked(b.tls.code, v.next, b.mem.next, Bins(b.tls.heads, b.tls.usage, b.tls.lists));
  }

  /** A refill goes on where it was interrupted. While thread `b` has blocks from a shard in hand, other threads
      may act as often as they like: afterwards everything is as `FillBin` needs it, the same blocks, linked in
      the same order, with the list they are meant for still empty. */
  lemma Resumed(u: Setup, v': View, b: SlabThread, v: View, l: Life, l': Life, steps: seq<Step>, c: Class,
                chain: seq<nat>)
    requires Together(u, b.Config()) && Undisturbed(b, v, v')
    requires Agrees(b.Config(), l, v) && Agrees(u, l', v')
    requires Acts(u, l, HeapOf(v), steps, l', HeapOf(v'))
    requires forall k :: 0 <= k < |l'.slabs| ==> KeysApart(l'.slabs[k], b.y, b.tls.code, b.icc.code)
    requires chain == At(l.at, Hand(b.id)) && RawLinked(v.next, chain, 0)
    requires AllOfClass(l.slabs, chain, c, b.y) && At(l.at, Bin(b.id, c)) == []
    ensures b.In(l').Some? && chain == At(l'.at, Hand(b.id)) && RawLinked(b.mem.next, chain, 0)
    ensures AllOfClass(l'.slabs, chain, c, b.y) && At(l'.at, Bin(b.id, c)) == []
  {
    Composed(u, v', b, v, l, l', steps);
    assert OfOther(Hand(b.id), u.id) && OfOther(Bin(b.id, c), u.id);
    assert SameLinks(v.next, b.mem.next, chain);
    assert forall i :: 0 <= i < |chain| ==> chain[i] in chain;
    forall x | x in chain
      ensures HasClass(l'.slabs, x, c, b.y)
    {
      ClassKept(l.slabs, l'.slabs, x, c, b.y);
    }
  }
}
