/** Trimming: blocks that have been free for long are taken off the shards, their pages are returned to the
    system, and all blocks go back. The thread that trims has the blocks in hand meanwhile, so trimming is a run
    of the transition system like everything else a thread does. */
module GTrims {
  import opened Wrappers
  import opened Links
  import opened SizeClasses
  import opened Carving
  import opened SlabLife
  import opened ThreadLocal
  import opened InterConnect
  import opened SlabThreads
  import opened TrimPlans

  // ------------------------------------------------------------------ the blocks of a class

  ghost function Count(blocks: seq<nat>, b: nat): nat {
    multiset(blocks)[b]
  }

  /** How often `b` occurs in the lists of a class on the first `n` shards. */
  ghost function Copies(at: map<Place, seq<nat>>, c: Class, n: nat, b: nat): nat {
    if n == 0 then 0 else Copies(at, c, n - 1, b) + Count(At(at, Shard(n - 1, c)), b)
  }

  ghost predicate OnShard(at: map<Place, seq<nat>>, c: Class, n: nat, b: nat) {
    exists p: nat :: p < n && b in At(at, Shard(p, c))
  }

  /** A block in one place only is counted once. */
  lemma {:induction false} CopiesIs(at: map<Place, seq<nat>>, c: Class, n: nat, b: nat)
    requires OnePlace(at)
    ensures Copies(at, c, n, b) == if OnShard(at, c, n, b) then 1 else 0
  {
    if n > 0 {
      var last := At(at, Shard(n - 1, c));
      CopiesIs(at, c, n - 1, b);
      assert Distinct(last);
      DistinctCount(last, b);
      if OnShard(at, c, n - 1, b) {
        var p: nat :| p < n - 1 && b in At(at, Shard(p, c));
        assert Apart(At(at, Shard(p, c)), last);
      } else if b in last {
        assert OnShard(at, c, n, b);
      }
    }
  }

  lemma CountJoin(s: seq<nat>, t: seq<nat>, b: nat)
    ensures Count(s + t, b) == Count(s, b) + Count(t, b)
  {
  }

  lemma {:induction false} DistinctCount(s: seq<nat>, b: nat)
    requires Distinct(s)
    ensures Count(s, b) == if b in s then 1 else 0
  {
    if s != [] {
      DistinctCount(s[1..], b);
      assert s == [s[0]] + s[1..];
      CountJoin([s[0]], s[1..], b);
      assert forall i :: 0 <= i < |s[1..]| ==> s[1..][i] == s[i + 1];
    }
  }

  /** Between the two states only lists of the classes from `lo` to `hi` on the shards have changed, and what thread `t`
      has in hand. */
  ghost predicate Shuffled(l: Life, l': Life, t: nat, ncpu: nat, lo: nat, hi: nat) {
    && l'.slabs == l.slabs
    && forall p: Place ::
         !(p.Shard? && p.cpu < ncpu && lo <= p.kind < hi) && p != Hand(t) ==> At(l'.at, p) == At(l.at, p)
  }

  /** The lists of a class on the shards. */
  ghost function Lists(at: map<Place, seq<nat>>, c: Class, ncpu: nat): seq<seq<nat>> {
    seq(ncpu, p requires 0 <= p => At(at, Shard(p, c)))
  }

  /** A block has one class. */
  lemma OneClass(slabs: seq<Slab>, b: nat, c: Class, d: Class, y: Layout)
    requires LayoutOk(y) && SlabsOk(slabs, y) && HasClass(slabs, b, c, y) && HasClass(slabs, b, d, y)
    ensures c == d
  {
    var k: nat, i: nat :| CarvedAt(slabs, k, i, b, c, y);
    var m: nat, j: nat :| CarvedAt(slabs, m, j, b, d, y);
    OneOrigin(slabs, k, i, c, m, j, d, b, y);
  }

  /** Blocks on shards are still on shards, and of the same class. */
  lemma StaysOnShards(l: Life, l': Life, t: nat, ncpu: nat, y: Layout, c: Class, b: nat)
    requires LayoutOk(y) && Inv(l, y) && Inv(l', y) && At(l'.at, Hand(t)) == []
    requires Shuffled(l, l', t, ncpu, 0, NUM_SIZE_CLASSES)
    requires OnShard(l.at, c, ncpu, b)
    ensures OnShard(l'.at, c, ncpu, b)
  {
    var p: nat :| p < ncpu && b in At(l.at, Shard(p, c));
    assert AllOfClass(l.slabs, At(l.at, Shard(p, c)), c, y);
    assert HasClass(l.slabs, b, c, y) && Carved(l'.slabs, b, y) && Placed(l'.at, b);
    var q :| b in At(l'.at, q);
    assert q != Shard(p, c) ==> Apart(At(l.at, Shard(p, c)), At(l.at, q));
    assert q.Shard? && q.cpu < ncpu;
    assert AllOfClass(l'.slabs, At(l'.at, Shard(q.cpu, q.kind)), q.kind, y);
    OneClass(l.slabs, b, c, q.kind, y);
  }

  /** The shards have the same blocks of every class, in some order. */
  ghost predicate AllKept(at: map<Place, seq<nat>>, at': map<Place, seq<nat>>, ncpu: nat) {
    forall c: Class, b {:trigger Copies(at', c, ncpu, b)} :: Copies(at', c, ncpu, b) == Copies(at, c, ncpu, b)
  }

  /** Whatever was shuffled, no shard gains or loses a block. */
  lemma ShuffleKeeps(l: Life, l': Life, t: nat, ncpu: nat, y: Layout)
    requires LayoutOk(y) && Inv(l, y) && Inv(l', y) && Shuffled(l, l', t, ncpu, 0, NUM_SIZE_CLASSES)
    requires At(l.at, Hand(t)) == [] && At(l'.at, Hand(t)) == []
    ensures AllKept(l.at, l'.at, ncpu)
  {
    forall c: Class, b
      ensures Copies(l'.at, c, ncpu, b) == Copies(l.at, c, ncpu, b)
    {
      CopiesIs(l.at, c, ncpu, b);
      CopiesIs(l'.at, c, ncpu, b);
      if OnShard(l.at, c, ncpu, b) {
        StaysOnShards(l, l', t, ncpu, y, c, b);
      }
      if OnShard(l'.at, c, ncpu, b) {
        StaysOnShards(l', l, t, ncpu, y, c, b);
      }
    }
  }

  // ------------------------------------------------------------------ stacks of blocks

  /** A raw chain with a null tail, reached from `head`. */
  ghost predicate Stack(next: map<nat, nat>, head: nat, blocks: seq<nat>) {
    head == FirstOf(blocks) && RawLinked(next, blocks, 0)
  }

  /** A block comes to lie on a stack. */
  lemma StackPush(next: map<nat, nat>, head: nat, blocks: seq<nat>, b: nat)
    requires Stack(next, head, blocks) && b !in blocks
    ensures Stack(next[b := head], b, [b] + blocks)
  {
    var next' := next[b := head];
    var all := [b] + blocks;
    assert forall i :: 0 <= i < |blocks| ==> blocks[i] in blocks;
    forall i {:trigger next'[all[i]]} | 0 <= i < |all|
      ensures all[i] in next' && next'[all[i]] == RawLinkOf(all, i, 0)
    {
      if i > 0 {
        assert next[blocks[i - 1]] == RawLinkOf(blocks, i - 1, 0);
      }
    }
  }

  lemma StackKept(next: map<nat, nat>, next': map<nat, nat>, head: nat, blocks: seq<nat>, changed: seq<nat>)
    requires Stack(next, head, blocks) && SameExcept(next, next', changed) && Apart(blocks, changed)
    ensures Stack(next', head, blocks)
  {
    assert forall i :: 0 <= i < |blocks| ==> blocks[i] in blocks;
  }

  lemma StackPop(next: map<nat, nat>, head: nat, blocks: seq<nat>)
    requires Stack(next, head, blocks) && blocks != []
    ensures head == blocks[0] && head in next && Stack(next, next[head], blocks[1..])
  {
    var rest := blocks[1..];
    assert next[blocks[0]] == RawLinkOf(blocks, 0, 0);
    forall i {:trigger next[rest[i]]} | 0 <= i < |rest|
      ensures rest[i] in next && next[rest[i]] == RawLinkOf(rest, i, 0)
    {
      assert next[blocks[i + 1]] == RawLinkOf(blocks, i + 1, 0);
    }
  }

  // ------------------------------------------------------------------ giving back pages

  /** The pages in the payload of a block. */
  function PagesWithin(header: nat, hs: nat, size: nat): Option<(nat, nat)> {
    var userStart := header + hs;
    var userEnd := userStart + size;
    var start := AlignTo(userStart, 4096);
    var end := userEnd / 4096 * 4096;
    if start >= end then None else Some((start, end))
  }

  /** They are whole pages within the payload, and every whole page is among them. */
  lemma PagesInside(header: nat, hs: nat, size: nat, page: nat)
    ensures
      var r := PagesWithin(header, hs, size);
      && (r.Some? ==> header + hs <= r.value.0 < r.value.1 <= header + hs + size)
      && (r.Some? ==> r.value.0 % 4096 == 0 && r.value.1 % 4096 == 0)
      && ((r.Some? && r.value.0 <= 4096 * page && 4096 * page + 4096 <= r.value.1) <==>
          (header + hs <= 4096 * page && 4096 * page + 4096 <= header + hs + size))
  {
    var first, last := (header + hs + 4095) / 4096, (header + hs + size) / 4096;
    assert AlignTo(header + hs, 4096) == 4096 * first && (header + hs + size) / 4096 * 4096 == 4096 * last;
  }

  /** The pages of a block, or nothing. */
  function Returns(r: Option<(nat, nat)>): seq<(nat, nat)> {
    match r
    case None => []
    case Some(range) => [range]
  }

  /** The ranges that are returned to the system for some blocks. */
  ghost function Ranges(blocks: seq<nat>, hs: nat, size: nat): seq<(nat, nat)> {
    if blocks == [] then []
    else
      var n := |blocks| - 1;
      Ranges(blocks[..n], hs, size) + Returns(PagesWithin(blocks[n], hs, size))
  }

  lemma {:induction false} RangeOf(blocks: seq<nat>, hs: nat, size: nat, r: (nat, nat))
    requires r in Ranges(blocks, hs, size)
    ensures exists b :: b in blocks && PagesWithin(b, hs, size) == Some(r)
    decreases |blocks|
  {
    var n := |blocks| - 1;
    if PagesWithin(blocks[n], hs, size) != Some(r) {
      RangeOf(blocks[..n], hs, size, r);
      var b :| b in blocks[..n] && PagesWithin(b, hs, size) == Some(r);
      assert b in blocks;
    }
  }

  // ------------------------------------------------------------------ sorting blocks by age

  /** No block occurs twice in the two lists together. */
  ghost predicate Once(s: seq<nat>, t: seq<nat>) {
    forall b :: Count(s, b) + Count(t, b) <= 1
  }

  lemma OnceIsDistinct(s: seq<nat>, t: seq<nat>)
    requires Once(s, t)
    ensures Distinct(s) && Distinct(t) && Apart(s, t)
  {
    forall i, j | 0 <= i < j < |s|
      ensures s[i] != s[j]
    {
      TwiceIn(s, i, j);
      assert Count(s, s[i]) + Count(t, s[i]) <= 1;
    }
    forall i, j | 0 <= i < j < |t|
      ensures t[i] != t[j]
    {
      TwiceIn(t, i, j);
      assert Count(s, t[i]) + Count(t, t[i]) <= 1;
    }
    forall b | b in s
      ensures b !in t
    {
      assert Count(s, b) + Count(t, b) <= 1;
    }
  }

  lemma TwiceIn(s: seq<nat>, i: nat, j: nat)
    requires i < j < |s|
    ensures s[i] == s[j] ==> Count(s, s[i]) >= 2
  {
    assert s == s[..j] + s[j..];
    CountJoin(s[..j], s[j..], s[i]);
    assert s[..j][i] == s[i] && s[j..][0] == s[j];
  }

  /** The three lists together hold what two lists held. */
  ghost predicate Tally(trim: seq<nat>, push: seq<nat>, rest: seq<nat>, t: seq<nat>, chain: seq<nat>) {
    forall b :: Count(trim, b) + Count(push, b) + Count(rest, b) == Count(t, b) + Count(chain, b)
  }

  /** Every block of a chain is picked once. */
  lemma {:induction false} PickedCount(chain: seq<nat>, aged: set<nat>, b: nat)
    ensures Count(Picked(chain, aged, true), b) + Count(Picked(chain, aged, false), b) == Count(chain, b)
    decreases |chain|
  {
    if chain != [] {
      PickedCount(chain[1..], aged, b);
      assert chain == [chain[0]] + chain[1..];
      CountJoin([chain[0]], chain[1..], b);
      forall old_: bool
        ensures Count(Picked(chain, aged, old_), b) ==
          Count(Picked(chain[1..], aged, old_), b) + if (chain[0] in aged) == old_ then Count([chain[0]], b) else 0
      {
        CountJoin(Picked(chain[1..], aged, old_), if (chain[0] in aged) == old_ then [chain[0]] else [], b);
      }
    }
  }

  /** Sorting a chain by age neither loses a block nor makes one. */
  lemma SiftTally(chain: seq<nat>, aged: set<nat>, t: seq<nat>)
    ensures Tally(Picked(chain, aged, true) + t, Picked(chain, aged, false), [], t, chain)
    ensures forall b :: b in Picked(chain, aged, false) ==> b !in aged
    ensures forall b :: b in Picked(chain, aged, true) ==> b in aged
    ensures |Picked(chain, aged, false)| <= |chain|
  {
    forall b
      ensures Count(Picked(chain, aged, true) + t, b) + Count(Picked(chain, aged, false), b) + Count([], b) ==
        Count(t, b) + Count(chain, b)
      ensures b in Picked(chain, aged, false) ==> b !in aged
      ensures b in Picked(chain, aged, true) ==> b in aged
    {
      PickedCount(chain, aged, b);
      CountJoin(Picked(chain, aged, true), t, b);
      PickedIs(chain, aged, false, b);
      PickedIs(chain, aged, true, b);
    }
    PickedShort(chain, aged, false);
  }

  lemma {:induction false} PickedShort(chain: seq<nat>, aged: set<nat>, old_: bool)
    ensures |Picked(chain, aged, old_)| <= |chain|
    decreases |chain|
  {
    if chain != [] {
      PickedShort(chain[1..], aged, old_);
    }
  }

  /** The next block goes on one of two stacks. */
  lemma SiftStep(chain: seq<nat>, aged: set<nat>, i: nat, t: seq<nat>)
    requires i < |chain| && Distinct(chain) && Apart(t, chain)
    ensures chain[i] in chain && chain[i..][0] == chain[i] && chain[i..][1..] == chain[i + 1..]
    ensures
      var old_, young := Picked(chain[..i], aged, true) + t, Picked(chain[..i], aged, false);
      && Picked(chain[..i + 1], aged, true) + t == (if chain[i] in aged then [chain[i]] + old_ else old_)
      && Picked(chain[..i + 1], aged, false) == (if chain[i] in aged then young else [chain[i]] + young)
      && chain[i] !in old_ && chain[i] !in young && chain[i] !in chain[i + 1..]
  {
    assert chain[..i + 1] == chain[..i] + [chain[i]];
    PickedNext(chain[..i], aged, true, chain[i]);
    PickedNext(chain[..i], aged, false, chain[i]);
    PickedIs(chain[..i], aged, true, chain[i]);
    PickedIs(chain[..i], aged, false, chain[i]);
    assert chain[i] in chain;
  }

  /** The top block of one stack comes to lie on another; a third stays as it is. */
  lemma StackMove(next: map<nat, nat>, block: nat, rest: seq<nat>, to: nat, onto: seq<nat>, other: nat,
                  others: seq<nat>)
    requires Stack(next, block, rest) && rest != [] && Stack(next, to, onto) && Stack(next, other, others)
    requires rest[0] !in onto && rest[0] !in others && rest[0] !in rest[1..]
    ensures block == rest[0] && block in next
    ensures
      var next' := next[block := to];
      && Stack(next', block, [block] + onto) && Stack(next', other, others) && Stack(next', next[block], rest[1..])
      && SameExcept(next, next', [block])
  {
    var next' := next[block := to];
    StackPop(next, block, rest);
    StackPush(next, to, onto, block);
    assert SameExcept(next, next', [block]);
    StackKept(next, next', other, others, [block]);
    StackKept(next, next', next[block], rest[1..], [block]);
  }

  /** Take a raw chain apart: blocks that are too old go on one stack, on top of those already there, the
      others on another. */
  method Partition(mem: Memory, cache: nat, size: nat, aged: set<nat>, toTrim: nat, ghost chain: seq<nat>,
                   ghost t: seq<nat>)
    returns (trimHead: nat, pushHead: nat, ghost trim: seq<nat>, ghost push: seq<nat>)
    requires size == |chain| && Stack(mem.next, cache, chain) && Stack(mem.next, toTrim, t) && Once(t, chain)
    modifies mem
    ensures Stack(mem.next, trimHead, trim) && Stack(mem.next, pushHead, push)
    ensures Tally(trim, push, [], t, chain) && SameExcept(old(mem.next), mem.next, chain)
    ensures (forall b :: b in push ==> b !in aged) && (forall b :: b in trim ==> b in t || b in aged)
    ensures |push| <= |chain| && trim == Picked(chain, aged, true) + t && push == Picked(chain, aged, false)
  {
    var block := cache;
    OnceIsDistinct(t, chain);
    ghost var rest := chain;
    trimHead, pushHead, trim, push := toTrim, 0, t, [];
    assert [] + t == t;
    for i := 0 to size
      invariant rest == chain[i..] && Stack(mem.next, block, rest)
      invariant trim == Picked(chain[..i], aged, true) + t && Stack(mem.next, trimHead, trim)
      invariant push == Picked(chain[..i], aged, false) && Stack(mem.next, pushHead, push)
      invariant SameExcept(old(mem.next), mem.next, chain)
    {
      SiftStep(chain, aged, i, t);
      if block in aged {
        StackMove(mem.next, block, rest, trimHead, trim, pushHead, push);
        var next := mem.next[block];
        mem.next := mem.next[block := trimHead];
        trim := [block] + trim;
        trimHead, block := block, next;
      } else {
        StackMove(mem.next, block, rest, pushHead, push, trimHead, trim);
        var next := mem.next[block];
        mem.next := mem.next[block := pushHead];
        push := [block] + push;
        pushHead, block := block, next;
      }
      rest := rest[1..];
    }
    assert chain[..size] == chain;
    SiftTally(chain, aged, t);
  }

  // ------------------------------------------------------------------ blocks in hand

  /** The blocks in the thread's hand are those of `held`, all of one class. */
  ghost predicate InHand(l: Life, t: nat, c: Class, held: seq<nat>, y: Layout) {
    && Distinct(held) && AllOfClass(l.slabs, held, c, y)
    && forall b :: b in held <==> b in At(l.at, Hand(t))
  }

  lemma NothingInHand(l: Life, t: nat, c: Class, y: Layout)
    requires At(l.at, Hand(t)) == []
    ensures InHand(l, t, c, [], y)
  {
  }

  /** What the trimmer has after taking `chain` in hand: two stacks of different blocks. */
  ghost predicate Grabbed(l: Life, l': Life, t: nat, ncpu: nat, c: Class, chain: seq<nat>, held: seq<nat>, y: Layout) {
    && Once(held, chain) && AllOfClass(l.slabs, chain, c, y) && Shuffled(l, l', t, ncpu, c, c + 1)
    && forall b :: b in At(l'.at, Hand(t)) <==> b in chain || b in held
  }

  /** More blocks are taken in hand. */
  lemma GrabHolds(u: Setup, l: Life, v: View, m: Life, v': View, p: nat, c: Class, chain: seq<nat>, held: seq<nat>)
    requires Agrees(u, l, v) && Agrees(u, m, v') && InHand(l, u.id, c, held, u.y) && p < u.ncpu
    requires AllOfClass(l.slabs, chain, c, u.y) && |chain| <= |At(l.at, Shard(p, c))|
    requires Carried(l, m, Shard(p, c), At(l.at, Shard(p, c))[|chain|..], Hand(u.id), chain)
    ensures Grabbed(l, m, u.id, u.ncpu, c, chain, held, u.y) && Apart(held, chain)
    ensures forall b :: b in chain ==> b != 0
  {
    var t, y := u.id, u.y;
    var hand := At(m.at, Hand(t));
    assert hand == chain + At(l.at, Hand(t)) && Distinct(hand);
    assert chain == hand[..|chain|];
    forall b
      ensures Count(held, b) + Count(chain, b) <= 1
    {
      DistinctCount(hand, b);
      CountJoin(chain, At(l.at, Hand(t)), b);
      DistinctCount(held, b);
      assert b in held ==> Count(At(l.at, Hand(t)), b) >= 1;
    }
    forall b | b in chain
      ensures b != 0
    {
      var k: nat, i: nat :| CarvedAt(l.slabs, k, i, b, c, y);
      BlockInside(l.slabs, k, i, b, c, y);
    }
    OnceIsDistinct(held, chain);
  }

  /** Blocks in hand have been sorted into two stacks. */
  lemma Sorts(m: Life, t: nat, c: Class, trim: seq<nat>, push: seq<nat>, held: seq<nat>, chain: seq<nat>, y: Layout)
    requires Tally(trim, push, [], held, chain) && Once(held, chain)
    requires AllOfClass(m.slabs, held, c, y) && AllOfClass(m.slabs, chain, c, y)
    requires forall b :: b in At(m.at, Hand(t)) <==> b in chain || b in held
    ensures Distinct(trim) && Distinct(push) && Apart(push, trim)
    ensures AllOfClass(m.slabs, trim, c, y) && AllOfClass(m.slabs, push, c, y)
    ensures forall b :: b in At(m.at, Hand(t)) <==> b in push || b in trim
  {
    forall b
      ensures Count(push, b) + Count(trim, b) <= 1 && (b in trim || b in push <==> b in held || b in chain)
    {
      assert Count(trim, b) + Count(push, b) + Count([], b) == Count(held, b) + Count(chain, b) <= 1;
    }
    OnceIsDistinct(push, trim);
  }

  /** Some blocks go back to a shard, the others stay in hand. */
  lemma PushHolds(m: Life, l': Life, t: nat, ncpu: nat, p: nat, c: Class, push: seq<nat>, trim: seq<nat>, y: Layout)
    requires Distinct(trim) && Apart(push, trim) && AllOfClass(m.slabs, trim, c, y) && p < ncpu
    requires forall b :: b in At(m.at, Hand(t)) <==> b in push || b in trim
    requires Carried(m, l', Hand(t), Without(At(m.at, Hand(t)), push), Shard(p, c), push)
    ensures InHand(l', t, c, trim, y) && Shuffled(m, l', t, ncpu, c, c + 1)
    ensures Lists(l'.at, c, ncpu) == OnTop(Lists(m.at, c, ncpu), p, push)
  {
    WithoutIs(At(m.at, Hand(t)), push);
  }

  lemma HeadNull(blocks: seq<nat>)
    requires forall b :: b in blocks ==> b != 0
    ensures FirstOf(blocks) == 0 <==> blocks == []
  {
    assert forall i :: 0 <= i < |blocks| ==> blocks[i] in blocks;
  }

  /** What the trimmer holds between two batches: a stack of blocks in the hand of its thread. */
  ghost predicate Holding(t: SlabThread, l: Life, c: Class, head: nat, held: seq<nat>)
    reads t`pending, t`index, t.tls, t.icc, t.mem, t.slabs, t.tls.mem, t.icc.mem
  {
    t.In(l).Some? && InHand(l, t.id, c, held, t.y) && Stack(t.mem.next, head, held)
  }

  lemma HoldingIs(t: SlabThread, l: Life, c: Class, head: nat, held: seq<nat>)
    requires Holding(t, l, c, head, held)
    ensures LayoutOk(t.y) && Inv(l, t.y) && (head == 0 <==> held == [])
  {
    Linkable(l, t.y, t.mem.next, t.tls.code, t.icc.code, Hand(t.id), held);
    HeadNull(held);
  }

  // ------------------------------------------------------------------ trimming

  lemma NothingGrabbed(l: Life, t: nat, ncpu: nat, c: Class, held: seq<nat>, y: Layout)
    requires InHand(l, t, c, held, y)
    ensures Grabbed(l, l, t, ncpu, c, [], held, y)
  {
    OnceEmpty(held);
  }

  /** A batch was taken off the shards: nothing if they have none. */
  ghost predicate Popped(at: map<Place, seq<nat>>, at': map<Place, seq<nat>>, c: Class, cpu: nat, ncpu: nat,
                         chain: seq<nat>)
  {
    var lists := Lists(at, c, ncpu);
    match Source(lists, cpu)
    case None => chain == [] && Lists(at', c, ncpu) == lists
    case Some(p) => chain != [] && chain == Batch(lists, p) && Lists(at', c, ncpu) == lists[p := lists[p][|chain|..]]
  }

  lemma PoppedNone(at: map<Place, seq<nat>>, c: Class, cpu: nat, ncpu: nat)
    requires ShardsEmpty(at, c, ncpu)
    ensures Popped(at, at, c, cpu, ncpu, [])
  {
    assert forall p :: 0 <= p < ncpu ==> Lists(at, c, ncpu)[p] == At(at, Shard(p, c));
  }

  lemma PoppedSome(l: Life, l': Life, t: nat, c: Class, cpu: nat, ncpu: nat, p: nat, chain: seq<nat>)
    requires Front(l.at, c, cpu, p, ncpu, TRIM_BATCH, chain) && cpu < ncpu
    requires Carried(l, l', Shard(p, c), At(l.at, Shard(p, c))[|chain|..], Hand(t), chain)
    ensures Popped(l.at, l'.at, c, cpu, ncpu, chain)
  {
    var lists := Lists(l.at, c, ncpu);
    assert forall q :: 0 <= q < ncpu ==> lists[q] == At(l.at, Shard(q, c));
    assert TakesFrom(lists, cpu, p);
    SourceIs(lists, cpu, p);
  }

  /** Take a batch of blocks off the shards. */
  method PopBatch(t: SlabThread, c: Class, cpu: nat, toTrim: nat, ghost held: seq<nat>, ghost l: Life)
    returns (cache: nat, ghost chain: seq<nat>, ghost l': Life, ghost steps: seq<Step>)
    requires Holding(t, l, c, toTrim, held) && cpu < t.icc.ncpu
    modifies t.icc, t.mem
    ensures t.In(l').Some? && Acts(t.Config(), l, old(t.Now()), steps, l', t.Now())
    ensures Stack(t.mem.next, toTrim, held) && Stack(t.mem.next, cache, chain) && |chain| <= TRIM_BATCH
    ensures Grabbed(l, l', t.id, t.icc.ncpu, c, chain, held, t.y)
    ensures (cache == 0 <==> chain == []) && (cache == 0 ==> l' == l) && forall b :: b in chain ==> b != 0
    ensures Popped(l.at, l'.at, c, cpu, t.icc.ncpu, chain)
  {
    ghost var v, p := t.Memories(), 0;
    cache, chain, p, l', steps := t.GrabShard(c, TRIM_BATCH, cpu, l);
    if cache == 0 {
      NothingGrabbed(l, t.id, t.icc.ncpu, c, held, t.y);
      PoppedNone(l.at, c, cpu, t.icc.ncpu);
    } else {
      GrabHolds(t.Config(), l, v, l', t.Memories(), p, c, chain, held);
      PoppedSome(l, l', t.id, c, cpu, t.icc.ncpu, p, chain);
    }
    StackKept(v.next, t.mem.next, toTrim, held, chain);
  }

  lemma OnceEmpty(held: seq<nat>)
    requires Distinct(held)
    ensures Once(held, [])
  {
    forall b
      ensures Count(held, b) + Count([], b) <= 1
    {
      DistinctCount(held, b);
    }
  }

  lemma ShuffledTwice(l: Life, m: Life, l': Life, t: nat, ncpu: nat, lo: nat, c: nat)
    requires Shuffled(l, m, t, ncpu, lo, c) || Shuffled(l, m, t, ncpu, lo, c + 1)
    requires Shuffled(m, l', t, ncpu, c, c + 1) && lo <= c
    ensures Shuffled(l, l', t, ncpu, lo, c + 1)
  {
  }

  /** Lists of other classes stay as they are. */
  lemma OtherLists(l: Life, l': Life, t: nat, ncpu: nat, lo: nat, hi: nat, c: Class)
    requires Shuffled(l, l', t, ncpu, lo, hi) && !(lo <= c < hi)
    ensures Lists(l'.at, c, ncpu) == Lists(l.at, c, ncpu)
  {
  }

  /** Sort a batch in hand into two stacks. */
  method Sort(t: SlabThread, c: Class, cache: nat, ghost chain: seq<nat>, aged: set<nat>, toTrim: nat,
              ghost held: seq<nat>, ghost l: Life, ghost m: Life)
    returns (trimHead: nat, pushHead: nat, ghost trim: seq<nat>, ghost push: seq<nat>)
    requires t.In(m).Some? && Grabbed(l, m, t.id, t.icc.ncpu, c, chain, held, t.y) && AllOfClass(l.slabs, held, c, t.y)
    requires Stack(t.mem.next, cache, chain) && Stack(t.mem.next, toTrim, held)
    requires chain != [] && |chain| <= TRIM_BATCH && forall b :: b in chain ==> b != 0
    modifies t.mem
    ensures t.In(m).Some? && Acts(t.Config(), m, old(t.Now()), [], m, t.Now())
    ensures Stack(t.mem.next, trimHead, trim) && Stack(t.mem.next, pushHead, push) && |push| <= TRIM_BATCH
    ensures Distinct(trim) && Distinct(push) && Apart(push, trim)
    ensures AllOfClass(m.slabs, trim, c, t.y) && AllOfClass(m.slabs, push, c, t.y)
    ensures forall b :: b in At(m.at, Hand(t.id)) <==> b in push || b in trim
    ensures forall b :: b in trim ==> b in held || b in aged
    ensures forall b :: b in push ==> b !in aged
    ensures trim == Picked(chain, aged, true) + held && push == Picked(chain, aged, false)
  {
    ghost var v := t.Memories();
    var tail, size := t.mem.FindTail(cache, TRIM_BATCH, chain);
    trimHead, pushHead, trim, push := Partition(t.mem, cache, size, aged, toTrim, chain, held);
    Sorts(m, t.id, c, trim, push, held, chain, t.y);
    t.Relinked(v, chain, m);
  }

  /** Put a stack of blocks back on the shards. */
  method PushBack(t: SlabThread, c: Class, cpu: nat, pushHead: nat, ghost push: seq<nat>, trimHead: nat,
                  ghost trim: seq<nat>, ghost m: Life)
    returns (ghost l': Life, ghost steps: seq<Step>)
    requires t.In(m).Some? && cpu < t.icc.ncpu && |push| <= TRIM_BATCH
    requires Stack(t.mem.next, trimHead, trim) && Stack(t.mem.next, pushHead, push)
    requires Distinct(trim) && Distinct(push) && Apart(push, trim)
    requires AllOfClass(m.slabs, trim, c, t.y) && AllOfClass(m.slabs, push, c, t.y)
    requires forall b :: b in At(m.at, Hand(t.id)) <==> b in push || b in trim
    modifies t.icc, t.mem
    ensures Holding(t, l', c, trimHead, trim) && Acts(t.Config(), m, old(t.Now()), steps, l', t.Now())
    ensures Shuffled(m, l', t.id, t.icc.ncpu, c, c + 1)
    ensures Lists(l'.at, c, t.icc.ncpu) == OnTop(Lists(m.at, c, t.icc.ncpu), cpu, push)
  {
    ghost var v := t.Memories();
    Linkable(m, t.y, v.next, t.tls.code, t.icc.code, Hand(t.id), push);
    HeadNull(push);
    if pushHead == 0 {
      StayAgrees(t.Config(), m, v, v);
      assert [] + Lists(m.at, c, t.icc.ncpu)[cpu] == Lists(m.at, c, t.icc.ncpu)[cpu];
      return m, [];
    }
    var tail, got := t.mem.FindTail(pushHead, TRIM_BATCH, push);
    t.mem.next := t.mem.next[tail := 0];
    l', steps := t.PushPart(c, cpu, pushHead, tail, got, push, 0, m);
    PushHolds(m, l', t.id, t.icc.ncpu, cpu, c, push, trim, t.y);
    StackKept(v.next, t.mem.next, trimHead, trim, push);
  }

  /** One batch was taken, and its aged blocks are in hand. */
  ghost predicate Sifted(at: map<Place, seq<nat>>, at': map<Place, seq<nat>>, c: Class, cpu: nat, ncpu: nat,
                         aged: set<nat>, held: seq<nat>, trim: seq<nat>)
    requires cpu < ncpu
  {
    match Round(Lists(at, c, ncpu), cpu, aged)
    case (lists, more) => Lists(at', c, ncpu) == lists && trim == more + held
  }

  lemma SiftedIs(at: map<Place, seq<nat>>, at1: map<Place, seq<nat>>, at': map<Place, seq<nat>>, c: Class, cpu: nat,
                 ncpu: nat, aged: set<nat>, chain: seq<nat>, held: seq<nat>, trim: seq<nat>)
    requires cpu < ncpu && Popped(at, at1, c, cpu, ncpu, chain) && chain != []
    requires trim == Picked(chain, aged, true) + held
    requires Lists(at', c, ncpu) == OnTop(Lists(at1, c, ncpu), cpu, Picked(chain, aged, false))
    ensures Sifted(at, at', c, cpu, ncpu, aged, held, trim)
  {
  }

  /** One batch: blocks that are too old are kept in hand, the others go back. */
  method TrimBatch(t: SlabThread, c: Class, cpu: nat, aged: set<nat>, toTrim: nat, ghost held: seq<nat>, ghost l: Life)
    returns (any: bool, trimHead: nat, ghost trim: seq<nat>, ghost l': Life, ghost steps: seq<Step>)
    requires Holding(t, l, c, toTrim, held) && cpu < t.icc.ncpu
    modifies t.icc, t.mem
    ensures Holding(t, l', c, trimHead, trim) && Acts(t.Config(), l, old(t.Now()), steps, l', t.Now())
    ensures Shuffled(l, l', t.id, t.icc.ncpu, c, c + 1) && forall b :: b in trim ==> b in held || b in aged
    ensures any <==> Source(Lists(l.at, c, t.icc.ncpu), cpu).Some?
    ensures Sifted(l.at, l'.at, c, cpu, t.icc.ncpu, aged, held, trim)
  {
    var cache;
    ghost var chain, m;
    cache, chain, m, steps := PopBatch(t, c, cpu, toTrim, held, l);
    if cache == 0 {
      assert [] + held == held;
      return false, toTrim, held, m, steps;
    }
    any := true;
    ghost var n, more := t.Now(), [];
    trimHead, trim, l', more := SortAndPush(t, c, cpu, cache, chain, aged, toTrim, held, l, m);
    SiftedIs(l.at, m.at, l'.at, c, cpu, t.icc.ncpu, aged, chain, held, trim);
    ActsJoin(t.Config(), l, old(t.Now()), steps, m, n, more, l', t.Now());
    ShuffledTwice(l, m, l', t.id, t.icc.ncpu, c, c);
    steps := steps + more;
  }

  method SortAndPush(t: SlabThread, c: Class, cpu: nat, cache: nat, ghost chain: seq<nat>, aged: set<nat>, toTrim: nat,
                     ghost held: seq<nat>, ghost l: Life, ghost m: Life)
    returns (trimHead: nat, ghost trim: seq<nat>, ghost l': Life, ghost steps: seq<Step>)
    requires t.In(m).Some? && Grabbed(l, m, t.id, t.icc.ncpu, c, chain, held, t.y) && AllOfClass(l.slabs, held, c, t.y)
    requires Stack(t.mem.next, cache, chain) && Stack(t.mem.next, toTrim, held) && cpu < t.icc.ncpu
    requires chain != [] && |chain| <= TRIM_BATCH && forall b :: b in chain ==> b != 0
    modifies t.icc, t.mem
    ensures Holding(t, l', c, trimHead, trim) && Acts(t.Config(), m, old(t.Now()), steps, l', t.Now())
    ensures Shuffled(m, l', t.id, t.icc.ncpu, c, c + 1) && forall b :: b in trim ==> b in held || b in aged
    ensures trim == Picked(chain, aged, true) + held
    ensures Lists(l'.at, c, t.icc.ncpu) == OnTop(Lists(m.at, c, t.icc.ncpu), cpu, Picked(chain, aged, false))
  {
    var pushHead;
    ghost var push, more;
    trimHead, pushHead, trim, push := Sort(t, c, cache, chain, aged, toTrim, held, l, m);
    ghost var n := t.Now();
    l', more := PushBack(t, c, cpu, pushHead, push, trimHead, trim, m);
    ActsJoin(t.Config(), m, old(t.Now()), [], m, n, more, l', t.Now());
    steps := [] + more;
  }

  /** What a trimmer on `cpu` leaves on the shards of a class, and what it collects: as many batches as there are whole
      ones on all shards. */
  ghost function Harvested(at: map<Place, seq<nat>>, c: Class, cpu: nat, ncpu: nat, aged: set<nat>)
    : (seq<seq<nat>>, seq<nat>)
    requires cpu < ncpu
  {
    var lists := Lists(at, c, ncpu);
    Rounds(lists, cpu, aged, Total(lists) / TRIM_BATCH)
  }

  ghost function Harvest(at: map<Place, seq<nat>>, c: Class, cpu: nat, ncpu: nat, aged: set<nat>): seq<nat>
    requires cpu < ncpu
  {
    Harvested(at, c, cpu, ncpu, aged).1
  }

  /** `r` is what is on the shards and what is in hand. */
  ghost predicate Reaped(at: map<Place, seq<nat>>, c: Class, ncpu: nat, held: seq<nat>, r: (seq<seq<nat>>, seq<nat>)) {
    Lists(at, c, ncpu) == r.0 && held == r.1
  }

  lemma ReapedNext(lists: seq<seq<nat>>, at: map<Place, seq<nat>>, at': map<Place, seq<nat>>, c: Class, cpu: nat,
                   ncpu: nat, aged: set<nat>, held: seq<nat>, trim: seq<nat>, n: nat)
    requires cpu < ncpu == |lists| && Reaped(at, c, ncpu, held, Rounds(lists, cpu, aged, n))
    requires Sifted(at, at', c, cpu, ncpu, aged, held, trim)
    ensures Reaped(at', c, ncpu, trim, Rounds(lists, cpu, aged, n + 1))
  {
  }

  lemma ReapedAll(lists: seq<seq<nat>>, at: map<Place, seq<nat>>, at': map<Place, seq<nat>>, c: Class, cpu: nat,
                  ncpu: nat, aged: set<nat>, held: seq<nat>, trim: seq<nat>, n: nat, more: nat)
    requires cpu < ncpu == |lists| && Reaped(at, c, ncpu, held, Rounds(lists, cpu, aged, n)) && n < more
    requires Reaped(at', c, ncpu, trim, Rounds(lists, cpu, aged, n + 1))
    requires Source(Lists(at, c, ncpu), cpu).None?
    ensures Reaped(at', c, ncpu, trim, Rounds(lists, cpu, aged, more))
  {
    RoundsEnd(lists, cpu, aged, n, n + 1);
    RoundsEnd(lists, cpu, aged, n, more);
  }

  lemma {:induction false} TotalIs(u: Setup, l: Life, v: View, c: Class, n: nat)
    requires Agrees(u, l, v) && n <= u.ncpu
    ensures TotalBlocks(v.shards, c, n) == Total(Lists(l.at, c, n))
  {
    if n > 0 {
      TotalIs(u, l, v, c, n - 1);
      assert InRange(u.ncpu, Slot(n - 1, c));
      assert Lists(l.at, c, n)[..n - 1] == Lists(l.at, c, n - 1);
    }
  }

  /** Collect the old blocks of a class. */
  method Collect(t: SlabThread, c: Class, cpu: nat, aged: set<nat>, ghost l: Life)
    returns (toTrim: nat, ghost held: seq<nat>, ghost l': Life, ghost steps: seq<Step>)
    requires t.In(l).Some? && At(l.at, Hand(t.id)) == [] && cpu < t.icc.ncpu
    modifies t.icc, t.mem
    ensures Holding(t, l', c, toTrim, held) && Acts(t.Config(), l, old(t.Now()), steps, l', t.Now())
    ensures Shuffled(l, l', t.id, t.icc.ncpu, c, c + 1) && forall b :: b in held ==> b in aged
    ensures Reaped(l'.at, c, t.icc.ncpu, held, Harvested(l.at, c, cpu, t.icc.ncpu, aged))
  {
    var usage := t.icc.GetSize(c);
    TotalIs(t.Config(), l, t.Memories(), c, t.icc.ncpu);
    ghost var lists := Lists(l.at, c, t.icc.ncpu);
    toTrim, held, l', steps := 0, [], l, [];
    StayAgrees(t.Config(), l, t.Memories(), t.Memories());
    NothingInHand(l, t.id, c, t.y);
    for i := 0 to usage / TRIM_BATCH
      invariant Holding(t, l', c, toTrim, held) && Acts(t.Config(), l, old(t.Now()), steps, l', t.Now())
      invariant Shuffled(l, l', t.id, t.icc.ncpu, c, c + 1) && forall b :: b in held ==> b in aged
      invariant Reaped(l'.at, c, t.icc.ncpu, held, Rounds(lists, cpu, aged, i))
    {
      ghost var m, n, more := l', t.Now(), [];
      var any;
      ghost var before := held;
      any, toTrim, held, l', more := TrimBatch(t, c, cpu, aged, toTrim, held, m);
      ReapedNext(lists, m.at, l'.at, c, cpu, t.icc.ncpu, aged, before, held, i);
      ActsJoin(t.Config(), l, old(t.Now()), steps, m, n, more, l', t.Now());
      ShuffledTwice(l, m, l', t.id, t.icc.ncpu, c, c);
      steps := steps + more;
      if !any {
        ReapedAll(lists, m.at, l'.at, c, cpu, t.icc.ncpu, aged, before, held, i, usage / TRIM_BATCH);
        break;
      }
    }
  }

  /** Without pressure and with a goal, no more is freed than the goal and one block of class `last`. */
  ghost predicate WithinGoal(freed: nat, pad: nat, force: bool, last: nat) {
    last < NUM_SIZE_CLASSES && (!force && pad != 0 && freed != 0 ==> freed <= pad + ClassBytes(last))
  }

  lemma SplitHand(l: Life, t: nat, c: Class, held: seq<nat>, y: Layout)
    requires InHand(l, t, c, held, y) && held != []
    ensures Holds(l.at, Hand(t), [held[0]]) && AllOfClass(l.slabs, [held[0]], c, y)
    ensures Distinct(held[1..]) && Apart([held[0]], held[1..]) && AllOfClass(l.slabs, held[1..], c, y)
    ensures forall b :: b in At(l.at, Hand(t)) <==> b in [held[0]] || b in held[1..]
  {
    assert held == [held[0]] + held[1..];
    assert forall i :: 0 <= i < |held[1..]| ==> held[1..][i] == held[i + 1];
  }

  /** Put one block in hand back, alone. */
  method PushOne(t: SlabThread, c: Class, cpu: nat, head: nat, ghost held: seq<nat>, ghost l: Life)
    returns (next: nat, ghost l': Life, ghost steps: seq<Step>)
    requires Holding(t, l, c, head, held) && held != [] && cpu < t.icc.ncpu
    modifies t.icc, t.mem
    ensures Holding(t, l', c, next, held[1..]) && Acts(t.Config(), l, old(t.Now()), steps, l', t.Now())
    ensures Shuffled(l, l', t.id, t.icc.ncpu, c, c + 1)
    ensures Lists(l'.at, c, t.icc.ncpu) == OnTop(Lists(l.at, c, t.icc.ncpu), cpu, [held[0]])
  {
    ghost var n := t.mem.next;
    SplitHand(l, t.id, c, held, t.y);
    StackPop(n, head, held);
    next := t.mem.next[head];
    l', steps := t.PushPart(c, cpu, head, head, 1, [head], next, l);
    PushHolds(l, l', t.id, t.icc.ncpu, cpu, c, [head], held[1..], t.y);
    StackKept(n, t.mem.next, next, held[1..], [head]);
  }

  /** What is freed once one more block has been looked at. */
  ghost function FreedNext(freed: nat, size: nat, pad: nat, force: bool): nat {
    if freed <= pad || pad == 0 || force then freed + size else freed
  }

  lemma GoalStep(freed: nat, size: nat, pad: nat, force: bool, last: nat, c: nat)
    requires WithinGoal(freed, pad, force, last) && c < NUM_SIZE_CLASSES && size == ClassBytes(c)
    ensures freed <= FreedNext(freed, size, pad, force)
    ensures WithinGoal(FreedNext(freed, size, pad, force), pad, force,
                       if freed <= pad || pad == 0 || force then c else last)
  {
  }

  /** The first `r` of the blocks in hand have been released. */
  ghost predicate Taken(freed: nat, pages: seq<(nat, nat)>, freed0: nat, held: seq<nat>, r: nat, hs: nat, size: nat) {
    r <= |held| && freed == freed0 + size * r && pages == Ranges(held[..r], hs, size)
  }

  /** After `n` of the blocks, as many were released as the goal demands, and their pages returned. */
  ghost predicate SoFar(freed: nat, pages: seq<(nat, nat)>, freed0: nat, held: seq<nat>, n: nat, hs: nat, size: nat,
                        pad: nat, force: bool)
  {
    && 0 < size && n <= |held|
    && Taken(freed, pages, freed0, held, Released(freed0, n, size, pad, force), hs, size)
  }

  lemma SoFarNone(freed: nat, held: seq<nat>, hs: nat, c: nat, pad: nat, force: bool)
    requires c < NUM_SIZE_CLASSES
    ensures SoFar(freed, [], freed, held, 0, hs, ClassBytes(c), pad, force)
  {
    TableShape();
    if freed <= pad {
      Quotient(pad - freed, ClassBytes(c));
    }
  }

  lemma TakenNext(freed: nat, pages: seq<(nat, nat)>, freed0: nat, held: seq<nat>, r: nat, hs: nat, size: nat)
    requires Taken(freed, pages, freed0, held, r, hs, size) && r < |held|
    ensures Taken(freed + size, pages + Returns(PagesWithin(held[r], hs, size)), freed0, held, r + 1, hs, size)
  {
    assert held[..r + 1][..r] == held[..r];
    assert size * (r + 1) == size * r + size;
  }

  lemma SoFarStep(freed: nat, pages: seq<(nat, nat)>, freed0: nat, held: seq<nat>, n: nat, hs: nat, size: nat, pad: nat,
                  force: bool)
    requires SoFar(freed, pages, freed0, held, n, hs, size, pad, force) && n < |held|
    ensures
      var more := Returns(PagesWithin(held[n], hs, size));
      if freed <= pad || pad == 0 || force
      then SoFar(freed + size, pages + more, freed0, held, n + 1, hs, size, pad, force)
      else SoFar(freed, pages, freed0, held, n + 1, hs, size, pad, force)
  {
    ReleasedNext(freed0, n, size, pad, force);
    if freed <= pad || pad == 0 || force {
      TakenNext(freed, pages, freed0, held, n, hs, size);
    }
  }

  lemma SomeElement(s: seq<nat>)
    ensures s == [] || exists b :: b in s
  {
    if s != [] {
      assert s[0] in s;
    }
  }

  lemma EmptyHand(l: Life, t: nat, c: Class, y: Layout)
    requires InHand(l, t, c, [], y)
    ensures At(l.at, Hand(t)) == []
  {
    SomeElement(At(l.at, Hand(t)));
  }

  /** `n`, if this is the account after `n` of the blocks. */
  ghost function Progress(freed: nat, pages: seq<(nat, nat)>, last: nat, start: nat, held: seq<nat>, n: nat, hs: nat,
                          c: Class, pad: nat, force: bool): Option<nat>
  {
    if && start <= freed && WithinGoal(freed, pad, force, last)
       && SoFar(freed, pages, start, held, n, hs, ClassBytes(c), pad, force)
    then Some(n) else None
  }

  lemma ProgressStart(start: nat, last: nat, held: seq<nat>, hs: nat, c: Class, pad: nat, force: bool)
    requires WithinGoal(start, pad, force, last)
    ensures Progress(start, [], last, start, held, 0, hs, c, pad, force).Some?
  {
    SoFarNone(start, held, hs, c, pad, force);
  }

  /** Returning the pages of one block, unless the goal has been passed. */
  lemma ProgressNext(freed: nat, pages: seq<(nat, nat)>, last: nat, start: nat, held: seq<nat>, n: nat, hs: nat,
                     c: Class, pad: nat, force: bool)
    requires n < |held| && Progress(freed, pages, last, start, held, n, hs, c, pad, force).Some?
    ensures
      var more := Returns(PagesWithin(held[n], hs, ClassBytes(c)));
      if freed <= pad || pad == 0 || force
      then Progress(freed + ClassBytes(c), pages + more, c, start, held, n + 1, hs, c, pad, force).Some?
      else Progress(freed, pages, last, start, held, n + 1, hs, c, pad, force).Some?
  {
    SoFarStep(freed, pages, start, held, n, hs, ClassBytes(c), pad, force);
    GoalStep(freed, ClassBytes(c), pad, force, last, c);
  }

  /** `m`, if it is a state that `steps` lead to from `l` and in which the first `n` of the blocks in hand lie in front
      of the shard of `cpu`; the others are still in hand. */
  ghost function Returning(t: SlabThread, l: Life, next: Heap, steps: seq<Step>, m: Life, c: Class, cpu: nat,
                           held: seq<nat>, n: nat, head: nat): Option<Life>
    requires n <= |held|
    reads t`pending, t`index, t.tls, t.icc, t.mem, t.slabs, t.tls.mem, t.icc.mem
  {
    if && Holding(t, m, c, head, held[n..]) && (head == 0 <==> n == |held|) && cpu < t.icc.ncpu
       && Acts(t.Config(), l, next, steps, m, t.Now()) && Shuffled(l, m, t.id, t.icc.ncpu, c, c + 1)
       && Lists(m.at, c, t.icc.ncpu) == OnTop(Lists(l.at, c, t.icc.ncpu), cpu, Backwards(held[..n]))
    then Some(m) else None
  }

  lemma NoneReturned(t: SlabThread, l: Life, c: Class, cpu: nat, head: nat, held: seq<nat>)
    requires Holding(t, l, c, head, held) && cpu < t.icc.ncpu
    ensures Returning(t, l, t.Now(), [], l, c, cpu, held, 0, head).Some?
  {
    assert held[0..] == held;
    OnTopNone(Lists(l.at, c, t.icc.ncpu), cpu, held);
    StayAgrees(t.Config(), l, t.Memories(), t.Memories());
    HoldingIs(t, l, c, head, held);
  }

  lemma NextToReturn(t: SlabThread, l: Life, next: Heap, steps: seq<Step>, m: Life, c: Class, cpu: nat, held: seq<nat>,
                     n: nat, head: nat)
    requires n <= |held| && Returning(t, l, next, steps, m, c, cpu, held, n, head).Some? && head != 0
    ensures n < |held| && head == held[n]
  {
    StackTop(t.mem.next, head, held[n..]);
  }

  lemma AllReturned(t: SlabThread, l: Life, next: Heap, steps: seq<Step>, m: Life, c: Class, cpu: nat, held: seq<nat>,
                    n: nat)
    requires n <= |held| && Returning(t, l, next, steps, m, c, cpu, held, n, 0).Some?
    ensures n == |held| && t.In(m).Some? && Acts(t.Config(), l, next, steps, m, t.Now())
    ensures Shuffled(l, m, t.id, t.icc.ncpu, c, c + 1) && At(m.at, Hand(t.id)) == []
    ensures Lists(m.at, c, t.icc.ncpu) == OnTop(Lists(l.at, c, t.icc.ncpu), cpu, Backwards(held))
  {
    assert held[n..] == [] && held[..n] == held;
    EmptyHand(m, t.id, c, t.y);
  }

  /** Return the pages of blocks in hand until the goal is reached, and put all of them back. */
  method ReleaseAll(t: SlabThread, c: Class, cpu: nat, hs: nat, toTrim: nat, ghost held: seq<nat>, pad: nat,
                    force: bool, freed0: nat, ghost last0: nat, ghost l: Life)
    returns (freed: nat, pages: seq<(nat, nat)>, ghost last: nat, ghost l': Life, ghost steps: seq<Step>)
    requires Holding(t, l, c, toTrim, held) && cpu < t.icc.ncpu && WithinGoal(freed0, pad, force, last0)
    modifies t.icc, t.mem
    ensures t.In(l').Some? && Acts(t.Config(), l, old(t.Now()), steps, l', t.Now())
    ensures Shuffled(l, l', t.id, t.icc.ncpu, c, c + 1) && At(l'.at, Hand(t.id)) == []
    ensures freed0 <= freed && WithinGoal(freed, pad, force, last)
    ensures SoFar(freed, pages, freed0, held, |held|, hs, ClassBytes(c), pad, force)
    ensures Lists(l'.at, c, t.icc.ncpu) == OnTop(Lists(l.at, c, t.icc.ncpu), cpu, Backwards(held))
  {
    var size := ClassBytes(c);
    var head := toTrim;
    ghost var n := 0;
    freed, pages, last, l', steps := freed0, [], last0, l, [];
    NoneReturned(t, l, c, cpu, toTrim, held);
    ProgressStart(freed0, last0, held, hs, c, pad, force);
    while head != 0
      invariant n <= |held| && Returning(t, l, old(t.Now()), steps, l', c, cpu, held, n, head).Some?
      invariant Progress(freed, pages, last, freed0, held, n, hs, c, pad, force).Some?
      decreases |held| - n
    {
      NextToReturn(t, l, old(t.Now()), steps, l', c, cpu, held, n, head);
      ProgressNext(freed, pages, last, freed0, held, n, hs, c, pad, force);
      if freed <= pad || pad == 0 || force {
        freed, pages, last := freed + size, pages + Returns(PagesWithin(head, hs, size)), c;
      }
      head, l', steps := PushNext(t, c, cpu, head, held, n, l, l', old(t.Now()), steps);
      n := n + 1;
    }
    AllReturned(t, l, old(t.Now()), steps, l', c, cpu, held, n);
  }

  lemma StackTop(next: map<nat, nat>, head: nat, blocks: seq<nat>)
    requires Stack(next, head, blocks) && blocks != []
    ensures head == blocks[0]
  {
  }

  /** Put one more block back. */
  method PushNext(t: SlabThread, c: Class, cpu: nat, head: nat, ghost held: seq<nat>, ghost n: nat, ghost l: Life,
                  ghost m: Life, ghost next: Heap, ghost done: seq<Step>)
    returns (head': nat, ghost l': Life, ghost steps: seq<Step>)
    requires n < |held| && Returning(t, l, next, done, m, c, cpu, held, n, head).Some?
    modifies t.icc, t.mem
    ensures Returning(t, l, next, steps, l', c, cpu, held, n + 1, head').Some?
  {
    ghost var h, more := t.Now(), [];
    assert held[n..][1..] == held[n + 1..] && held[n..][0] == held[n];
    head', l', more := PushOne(t, c, cpu, head, held[n..], m);
    ActsJoin(t.Config(), l, next, done, m, h, more, l', t.Now());
    ShuffledTwice(l, m, l', t.id, t.icc.ncpu, c, c);
    OnTopNext(Lists(l.at, c, t.icc.ncpu), cpu, held, n);
    steps := done + more;
    HoldingIs(t, l', c, head', held[n + 1..]);
  }

  /** The lists once all that was collected is back, in front of the shard of `cpu`. */
  ghost function PutBack(r: (seq<seq<nat>>, seq<nat>), cpu: nat): seq<seq<nat>>
    requires cpu < |r.0|
  {
    OnTop(r.0, cpu, Backwards(r.1))
  }

  /** What trimming one class frees: the blocks that are collected, as far as the goal demands. */
  ghost predicate ClassFreed(freed: nat, pages: seq<(nat, nat)>, freed0: nat, at: map<Place, seq<nat>>, c: Class,
                             cpu: nat, ncpu: nat, aged: set<nat>, hs: nat, pad: nat, force: bool)
    requires cpu < ncpu
  {
    var held := Harvest(at, c, cpu, ncpu, aged);
    SoFar(freed, pages, freed0, held, |held|, hs, ClassBytes(c), pad, force)
  }

  /** Trim one class. */
  method TrimClass(t: SlabThread, c: Class, cpu: nat, hs: nat, aged: set<nat>, pad: nat, force: bool, freed0: nat,
                   ghost last0: nat, ghost l: Life)
    returns (freed: nat, pages: seq<(nat, nat)>, ghost last: nat, ghost l': Life, ghost steps: seq<Step>)
    requires t.In(l).Some? && At(l.at, Hand(t.id)) == [] && cpu < t.icc.ncpu && WithinGoal(freed0, pad, force, last0)
    modifies t.icc, t.mem
    ensures t.In(l').Some? && Acts(t.Config(), l, old(t.Now()), steps, l', t.Now())
    ensures Shuffled(l, l', t.id, t.icc.ncpu, c, c + 1) && At(l'.at, Hand(t.id)) == []
    ensures freed0 <= freed && WithinGoal(freed, pad, force, last)
    ensures ClassFreed(freed, pages, freed0, l.at, c, cpu, t.icc.ncpu, aged, hs, pad, force)
    ensures Lists(l'.at, c, t.icc.ncpu) == PutBack(Harvested(l.at, c, cpu, t.icc.ncpu, aged), cpu)
  {
    var toTrim;
    ghost var held, m, more;
    toTrim, held, m, steps := Collect(t, c, cpu, aged, l);
    ghost var n := t.Now();
    freed, pages, last, l', more := ReleaseAll(t, c, cpu, hs, toTrim, held, pad, force, freed0, last0, m);
    ActsJoin(t.Config(), l, old(t.Now()), steps, m, n, more, l', t.Now());
    ShuffledTwice(l, m, l', t.id, t.icc.ncpu, c, c);
    steps := steps + more;
  }

  lemma TrimKeeps(u: Setup, l: Life, v: View, l': Life, v': View, lo: nat, hi: nat)
    requires Agrees(u, l, v) && Agrees(u, l', v') && Shuffled(l, l', u.id, u.ncpu, lo, hi)
    requires At(l.at, Hand(u.id)) == [] && At(l'.at, Hand(u.id)) == []
    ensures AllKept(l.at, l'.at, u.ncpu)
  {
    ShuffleKeeps(l, l', u.id, u.ncpu, u.y);
  }

  /** The payload of each class. */
  ghost function Payloads(): (sizes: seq<nat>)
    ensures |sizes| == NUM_SIZE_CLASSES && forall i :: 0 <= i < |sizes| ==> 0 < sizes[i]
  {
    TableShape();
    seq(NUM_SIZE_CLASSES, i requires 0 <= i < NUM_SIZE_CLASSES => ClassBytes(i))
  }

  /** How many blocks of each class a trimmer on `cpu` collects. */
  ghost function Harvests(at: map<Place, seq<nat>>, cpu: nat, ncpu: nat, aged: set<nat>): (blocks: seq<nat>)
    requires cpu < ncpu
    ensures |blocks| == NUM_SIZE_CLASSES
  {
    seq(NUM_SIZE_CLASSES, c requires 0 <= c < NUM_SIZE_CLASSES => |Harvest(at, c, cpu, ncpu, aged)|)
  }

  /** What is freed from class `c` on. */
  ghost function Frees(at: map<Place, seq<nat>>, cpu: nat, ncpu: nat, aged: set<nat>, c: nat, freed: nat, pad: nat,
                       force: bool): nat
    requires cpu < ncpu && c <= NUM_SIZE_CLASSES
  {
    FreedFrom(Payloads(), Harvests(at, cpu, ncpu, aged), c, freed, pad, force)
  }

  /** The pages that are returned from class `c` on: those of the first blocks that are collected of each class, as many
      as are released. */
  ghost function ReturnedFrom(at: map<Place, seq<nat>>, cpu: nat, ncpu: nat, aged: set<nat>, c: nat, freed: nat,
                              pad: nat, force: bool, hs: nat): seq<(nat, nat)>
    requires cpu < ncpu && c <= NUM_SIZE_CLASSES
    decreases NUM_SIZE_CLASSES - c
  {
    if c == NUM_SIZE_CLASSES || (freed >= pad && pad != 0) then []
    else
      TableShape();
      var held := Harvest(at, c, cpu, ncpu, aged);
      var n := Released(freed, |held|, ClassBytes(c), pad, force);
      Ranges(held[..n], hs, ClassBytes(c)) +
        ReturnedFrom(at, cpu, ncpu, aged, c + 1, freed + ClassBytes(c) * n, pad, force, hs)
  }

  /** The pages that a trimmer returns. */
  ghost function Returned(at: map<Place, seq<nat>>, cpu: nat, ncpu: nat, aged: set<nat>, pad: nat, force: bool,
                          hs: nat): seq<(nat, nat)>
    requires cpu < ncpu
  {
    ReturnedFrom(at, cpu, ncpu, aged, PAGE_CLASS, 0, pad, force, hs)
  }

  /** `r` is the whole pages in the payload of a block that is on a shard. */
  ghost predicate FreePages(at: map<Place, seq<nat>>, ncpu: nat, hs: nat, r: (nat, nat)) {
    exists p: nat, c: Class, b :: p < ncpu && b in At(at, Shard(p, c)) && PagesWithin(b, hs, ClassBytes(c)) == Some(r)
  }

  lemma HarvestIsFree(at: map<Place, seq<nat>>, cpu: nat, ncpu: nat, aged: set<nat>, c: Class, n: nat, hs: nat,
                      r: (nat, nat))
    requires cpu < ncpu && n <= |Harvest(at, c, cpu, ncpu, aged)|
    requires r in Ranges(Harvest(at, c, cpu, ncpu, aged)[..n], hs, ClassBytes(c))
    ensures FreePages(at, ncpu, hs, r)
  {
    var held, lists := Harvest(at, c, cpu, ncpu, aged), Lists(at, c, ncpu);
    RangeOf(held[..n], hs, ClassBytes(c), r);
    var b :| b in held[..n] && PagesWithin(b, hs, ClassBytes(c)) == Some(r);
    assert b in held;
    FromShards(lists, cpu, aged, Total(lists) / TRIM_BATCH, b);
    var p: nat :| p < ncpu && b in lists[p];
    assert b in At(at, Shard(p, c));
  }

  /** The classes below `c` are trimmed, with `freed` bytes and `pages`, and what is freed and returned from `c` on
      makes up the whole. */
  ghost predicate Account(at: map<Place, seq<nat>>, cpu: nat, ncpu: nat, aged: set<nat>, lo: nat, c: nat, freed: nat,
                          pages: seq<(nat, nat)>, pad: nat, force: bool, hs: nat)
    requires cpu < ncpu && lo <= c <= NUM_SIZE_CLASSES
  {
    && Frees(at, cpu, ncpu, aged, lo, 0, pad, force) == Frees(at, cpu, ncpu, aged, c, freed, pad, force)
    && ReturnedFrom(at, cpu, ncpu, aged, lo, 0, pad, force, hs) ==
      pages + ReturnedFrom(at, cpu, ncpu, aged, c, freed, pad, force, hs)
    && (forall r :: r in pages ==> FreePages(at, ncpu, hs, r))
  }

  lemma AccountStart(at: map<Place, seq<nat>>, cpu: nat, ncpu: nat, aged: set<nat>, lo: nat, pad: nat, force: bool,
                     hs: nat)
    requires cpu < ncpu && lo <= NUM_SIZE_CLASSES
    ensures Account(at, cpu, ncpu, aged, lo, lo, 0, [], pad, force, hs)
  {
    var all := ReturnedFrom(at, cpu, ncpu, aged, lo, 0, pad, force, hs);
    assert [] + all == all;
  }

  lemma AccountNext(at: map<Place, seq<nat>>, cpu: nat, ncpu: nat, aged: set<nat>, lo: nat, c: Class, freed0: nat,
                    before: seq<(nat, nat)>, freed: nat, pages: seq<(nat, nat)>, pad: nat, force: bool, hs: nat)
    requires cpu < ncpu && lo <= c && Account(at, cpu, ncpu, aged, lo, c, freed0, before, pad, force, hs)
    requires Frees(at, cpu, ncpu, aged, c, freed0, pad, force) == Frees(at, cpu, ncpu, aged, c + 1, freed, pad, force)
    requires ReturnedFrom(at, cpu, ncpu, aged, c, freed0, pad, force, hs) ==
      pages + ReturnedFrom(at, cpu, ncpu, aged, c + 1, freed, pad, force, hs)
    requires forall r :: r in pages ==> FreePages(at, ncpu, hs, r)
    ensures Account(at, cpu, ncpu, aged, lo, c + 1, freed, before + pages, pad, force, hs)
  {
    var rest := ReturnedFrom(at, cpu, ncpu, aged, c + 1, freed, pad, force, hs);
    assert before + (pages + rest) == before + pages + rest;
  }

  /** What trimming class `c` adds: the same as if no other class had been trimmed before. */
  lemma ClassTrimmed(l: Life, m: Life, t: nat, ncpu: nat, cpu: nat, aged: set<nat>, lo: nat, c: Class, hs: nat,
                     freed: nat, pages: seq<(nat, nat)>, freed0: nat, pad: nat, force: bool)
    requires cpu < ncpu && lo <= c && Shuffled(l, m, t, ncpu, lo, c) && !(freed0 >= pad && pad != 0)
    requires ClassFreed(freed, pages, freed0, m.at, c, cpu, ncpu, aged, hs, pad, force)
    ensures
      Frees(l.at, cpu, ncpu, aged, c, freed0, pad, force) == Frees(l.at, cpu, ncpu, aged, c + 1, freed, pad, force)
    ensures ReturnedFrom(l.at, cpu, ncpu, aged, c, freed0, pad, force, hs) ==
      pages + ReturnedFrom(l.at, cpu, ncpu, aged, c + 1, freed, pad, force, hs)
    ensures forall r :: r in pages ==> FreePages(l.at, ncpu, hs, r)
  {
    OtherLists(l, m, t, ncpu, lo, c, c);
    assert Payloads()[c] == ClassBytes(c);
    var held := Harvest(l.at, c, cpu, ncpu, aged);
    assert Harvests(l.at, cpu, ncpu, aged)[c] == |held|;
    var n := Released(freed0, |held|, ClassBytes(c), pad, force);
    forall r | r in pages
      ensures FreePages(l.at, ncpu, hs, r)
    {
      HarvestIsFree(l.at, cpu, ncpu, aged, c, n, hs, r);
    }
  }

  /** Trim the next class. */
  method TrimNext(t: SlabThread, c: Class, cpu: nat, hs: nat, aged: set<nat>, pad: nat, force: bool, freed0: nat,
                  ghost before: seq<(nat, nat)>, ghost last0: nat, ghost l: Life, ghost m: Life, ghost h: Heap,
                  ghost done: seq<Step>)
    returns (freed: nat, pages: seq<(nat, nat)>, ghost last: nat, ghost l': Life, ghost steps: seq<Step>)
    requires t.In(m).Some? && At(m.at, Hand(t.id)) == [] && cpu < t.icc.ncpu && WithinGoal(freed0, pad, force, last0)
    requires PAGE_CLASS <= c && !(freed0 >= pad && pad != 0)
    requires Acts(t.Config(), l, h, done, m, t.Now()) && Shuffled(l, m, t.id, t.icc.ncpu, PAGE_CLASS, c)
    requires Account(l.at, cpu, t.icc.ncpu, aged, PAGE_CLASS, c, freed0, before, pad, force, hs)
    modifies t.icc, t.mem
    ensures t.In(l').Some? && Acts(t.Config(), l, h, steps, l', t.Now())
    ensures Shuffled(l, l', t.id, t.icc.ncpu, PAGE_CLASS, c + 1) && At(l'.at, Hand(t.id)) == []
    ensures WithinGoal(freed, pad, force, last)
    ensures Account(l.at, cpu, t.icc.ncpu, aged, PAGE_CLASS, c + 1, freed, before + pages, pad, force, hs)
  {
    ghost var n, more := t.Now(), [];
    freed, pages, last, l', more := TrimClass(t, c, cpu, hs, aged, pad, force, freed0, last0, m);
    ActsJoin(t.Config(), l, h, done, m, n, more, l', t.Now());
    ShuffledTwice(l, m, l', t.id, t.icc.ncpu, PAGE_CLASS, c);
    steps := done + more;
    ClassTrimmed(l, m, t.id, t.icc.ncpu, cpu, aged, PAGE_CLASS, c, hs, freed, pages, freed0, pad, force);
    AccountNext(l.at, cpu, t.icc.ncpu, aged, PAGE_CLASS, c, freed0, before, freed, pages, pad, force, hs);
  }

  /** What is freed: as much as the blocks that are collected allow and the goal demands. */
  ghost predicate Amounts(at: map<Place, seq<nat>>, cpu: nat, ncpu: nat, aged: set<nat>, freed: nat, pad: nat,
                          force: bool)
    requires cpu < ncpu
  {
    var all := Worth(Payloads(), Harvests(at, cpu, ncpu, aged), PAGE_CLASS);
    && freed == Frees(at, cpu, ncpu, aged, PAGE_CLASS, 0, pad, force)
    && freed <= all && (pad == 0 ==> freed == all) && (freed >= pad <==> all >= pad)
  }

  lemma AmountsIs(at: map<Place, seq<nat>>, cpu: nat, ncpu: nat, aged: set<nat>, c: nat, freed: nat,
                  pages: seq<(nat, nat)>, pad: nat, force: bool, hs: nat)
    requires cpu < ncpu && c <= NUM_SIZE_CLASSES && (c == NUM_SIZE_CLASSES || (freed >= pad && pad != 0))
    requires PAGE_CLASS <= c && Account(at, cpu, ncpu, aged, PAGE_CLASS, c, freed, pages, pad, force, hs)
    ensures Amounts(at, cpu, ncpu, aged, freed, pad, force)
    ensures pages == Returned(at, cpu, ncpu, aged, pad, force, hs)
  {
    FreedIs(Payloads(), Harvests(at, cpu, ncpu, aged), PAGE_CLASS, 0, pad, force);
  }

  /** Trim all classes of at least one page. This is a run of the transition system after which every class has
      the blocks it had on the shards, and nothing else has moved. Only pages of blocks on the shards are returned.
      Without a goal all that is collected is freed; with a goal and without memory pressure, at most the goal and
      one block. The result says whether the goal was reached, and it was if enough was collected. */
  method Trim(t: SlabThread, cpu: nat, hs: nat, aged: set<nat>, pad: nat, force: bool, ghost l: Life)
    returns (reached: bool, freed: nat, pages: seq<(nat, nat)>, ghost last: nat, ghost l': Life, ghost steps: seq<Step>)
    requires t.In(l).Some? && At(l.at, Hand(t.id)) == [] && cpu < t.icc.ncpu
    modifies t.icc, t.mem
    ensures t.In(l').Some? && Acts(t.Config(), l, old(t.Now()), steps, l', t.Now())
    ensures Shuffled(l, l', t.id, t.icc.ncpu, PAGE_CLASS, NUM_SIZE_CLASSES) && At(l'.at, Hand(t.id)) == []
    ensures AllKept(l.at, l'.at, t.icc.ncpu) && forall r :: r in pages ==> FreePages(l.at, t.icc.ncpu, hs, r)
    ensures WithinGoal(freed, pad, force, last) && (reached <==> freed >= pad)
    ensures Amounts(l.at, cpu, t.icc.ncpu, aged, freed, pad, force)
    ensures pages == Returned(l.at, cpu, t.icc.ncpu, aged, pad, force, hs)
  {
    ghost var v := t.Memories();
    var c := FirstFit(4096);
    PageClassIs(c);
    freed, pages, last, l', steps := 0, [], c, l, [];
    StayAgrees(t.Config(), l, v, v);
    AccountStart(l.at, cpu, t.icc.ncpu, aged, c, pad, force, hs);
    while c != NUM_SIZE_CLASSES && !(freed >= pad && pad != 0)
      invariant PAGE_CLASS <= c <= NUM_SIZE_CLASSES
      invariant t.In(l').Some? && Acts(t.Config(), l, old(t.Now()), steps, l', t.Now())
      invariant Shuffled(l, l', t.id, t.icc.ncpu, PAGE_CLASS, c) && At(l'.at, Hand(t.id)) == []
      invariant WithinGoal(freed, pad, force, last)
      invariant Account(l.at, cpu, t.icc.ncpu, aged, PAGE_CLASS, c, freed, pages, pad, force, hs)
      decreases NUM_SIZE_CLASSES - c
    {
      var more;
      freed, more, last, l', steps :=
        TrimNext(t, c, cpu, hs, aged, pad, force, freed, pages, last, l, l', old(t.Now()), steps);
      pages := pages + more;
      c := c + 1;
    }
    TrimKeeps(t.Config(), l, v, l', t.Memories(), PAGE_CLASS, c);
    AmountsIs(l.at, cpu, t.icc.ncpu, aged, c, freed, pages, pad, force, hs);
    reached := freed >= pad;
  }
}
