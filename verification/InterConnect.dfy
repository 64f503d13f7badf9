/** The exchange for free blocks: per CPU and size class, one list in memory. Without hardening, the word
    that holds the head of a list also carries a four-bit tag that changes with every push and pop.

    A push or a pop is one step here, the step at which its compare-and-swap goes through. */
module InterConnect {
  import opened Wrappers
  import opened Links
  import opened SizeClasses

  // ------------------------------------------------------------------ head words

  /** Bitwise or. */
  function Or(a: nat, b: nat): nat {
    if a == 0 && b == 0 then 0 else 2 * Or(a / 2, b / 2) + Max(a % 2, b % 2)
  }

  lemma {:induction false} OrZero(a: nat)
    ensures Or(a, 0) == a
  {
    if a > 0 {
      OrZero(a / 2);
    }
  }

  lemma OrUnfold(a: nat, b: nat)
    ensures Or(a, b) == 2 * Or(a / 2, b / 2) + Max(a % 2, b % 2)
  {
  }

  lemma OrLow2(a: nat, b: nat)
    requires a % 2 == 0 && b < 2
    ensures Or(a, b) == a + b
  {
    OrZero(a / 2);
    OrUnfold(a, b);
  }

  lemma OrLow4(a: nat, b: nat)
    requires a % 4 == 0 && b < 4
    ensures Or(a, b) == a + b
  {
    assert a / 2 == 2 * (a / 4) && a == 2 * (a / 2);
    OrLow2(a / 2, b / 2);
    OrUnfold(a, b);
  }

  lemma OrLow8(a: nat, b: nat)
    requires a % 8 == 0 && b < 8
    ensures Or(a, b) == a + b
  {
    assert a / 2 == 4 * (a / 8) && a == 2 * (a / 2);
    OrLow4(a / 2, b / 2);
    OrUnfold(a, b);
  }

  /** Or-ing bits into the zero bits at the low end of a number adds them. */
  lemma OrLow(a: nat, b: nat)
    requires a % 16 == 0 && b < 16
    ensures Or(a, b) == a + b
  {
    assert a / 2 == 8 * (a / 16) && a == 2 * (a / 2);
    OrLow8(a / 2, b / 2);
    OrUnfold(a, b);
  }

  function HeadPack(hardened: bool, ptr: nat, tag: nat): nat {
    if hardened then ptr else Or(ptr, tag % 16)
  }

  function HeadPtr(hardened: bool, word: nat): nat {
    if hardened then word else word - word % 16
  }

  function HeadTag(hardened: bool, word: nat): nat {
    if hardened then 0 else word % 16
  }

  lemma Split(a: nat, b: nat)
    requires b < 16
    ensures (16 * a + b) % 16 == b
  {
  }

  /** Packing a tag never corrupts a 16-aligned address. */
  lemma PackRoundTrip(hardened: bool, ptr: nat, tag: nat)
    requires hardened || ptr % 16 == 0
    ensures HeadPtr(hardened, HeadPack(hardened, ptr, tag)) == ptr
    ensures HeadTag(hardened, HeadPack(hardened, ptr, tag)) == if hardened then 0 else tag % 16
  {
    if !hardened {
      OrLow(ptr, tag % 16);
      Split(ptr / 16, tag % 16);
    }
  }

  // ------------------------------------------------------------------ the cache

  /** The head word, the count and the blocks of every list. */
  datatype Shards = Shards(words: map<Slot, nat>, usage: map<Slot, nat>, lists: map<Slot, seq<nat>>)

  datatype Slot = Slot(cpu: nat, class_: nat)

  ghost predicate Aligned(blocks: seq<nat>) {
    forall b :: b in blocks ==> b % 16 == 0
  }

  /** `taken` is the front of one list and has been taken off it; the other lists are as they were. */
  ghost predicate Detached(o: map<Slot, seq<nat>>, n: map<Slot, seq<nat>>, s: Slot, taken: seq<nat>) {
    && s in o && |taken| <= |o[s]| && taken == o[s][..|taken|]
    && n == if taken == [] then o else o[s := o[s][|taken|..]]
  }

  predicate InRange(ncpu: nat, s: Slot) {
    s.cpu < ncpu && s.class_ < NUM_SIZE_CLASSES
  }

  /** A head word and a count that stand for the list `blocks`. */
  ghost predicate ShardOk(hardened: bool, code: Code, next: map<nat, nat>, word: nat, used: nat, blocks: seq<nat>) {
    IsList(next, HeadPtr(hardened, word), blocks, code) && used == |blocks| && Aligned(blocks)
  }

  ghost predicate AllApart(ncpu: nat, lists: map<Slot, seq<nat>>) {
    && (forall s :: InRange(ncpu, s) ==> s in lists)
    && (forall s, t :: InRange(ncpu, s) && InRange(ncpu, t) && s != t ==> Apart(lists[s], lists[t]))
  }

  ghost predicate ShardsOk(ncpu: nat, hardened: bool, code: Code, next: map<nat, nat>, words: map<Slot, nat>,
                           usage: map<Slot, nat>, lists: map<Slot, seq<nat>>)
  {
    forall s :: InRange(ncpu, s) ==>
      s in words && s in usage && s in lists && ShardOk(hardened, code, next, words[s], usage[s], lists[s])
  }

  /** None of the blocks is in a list, except possibly in that of `but`. */
  ghost predicate ApartExcept(ncpu: nat, lists: map<Slot, seq<nat>>, blocks: seq<nat>, but: Slot) {
    forall s :: InRange(ncpu, s) && s != but ==> s in lists && Apart(lists[s], blocks)
  }

  /** Replacing one list, after changing links in blocks that no other list holds. */
  lemma ShardsChange(ncpu: nat, hardened: bool, code: Code, next: map<nat, nat>, next': map<nat, nat>,
                     words: map<Slot, nat>, usage: map<Slot, nat>, lists: map<Slot, seq<nat>>,
                     s: Slot, word: nat, used: nat, blocks: seq<nat>, changed: seq<nat>)
    requires ShardsOk(ncpu, hardened, code, next, words, usage, lists) && ApartExcept(ncpu, lists, changed, s)
    requires SameExcept(next, next', changed) && ShardOk(hardened, code, next', word, used, blocks)
    ensures ShardsOk(ncpu, hardened, code, next', words[s := word], usage[s := used], lists[s := blocks])
  {
    forall t | InRange(ncpu, t) && t != s
      ensures ShardOk(hardened, code, next', words[t], usage[t], lists[t])
    {
      ListKept(next, next', changed, HeadPtr(hardened, words[t]), lists[t], code);
    }
  }

  /** Replacing one list by blocks that no other list holds. */
  lemma ApartChange(ncpu: nat, lists: map<Slot, seq<nat>>, s: Slot, blocks: seq<nat>)
    requires AllApart(ncpu, lists) && ApartExcept(ncpu, lists, blocks, s)
    ensures AllApart(ncpu, lists[s := blocks])
  {
    var lists' := lists[s := blocks];
    forall t, u | InRange(ncpu, t) && InRange(ncpu, u) && t != u
      ensures Apart(lists'[t], lists'[u])
    {
      if t != s && u != s {
        assert Apart(lists[t], lists[u]);
      }
    }
  }

  /** What becomes of a shard when a stored chain is pushed on it. */
  lemma PushShard(hardened: bool, code: Code, next: map<nat, nat>, word: nat, used: nat, blocks: seq<nat>,
                  chain: seq<nat>, end: nat)
    requires ShardOk(hardened, code, next, word, used, blocks)
    requires chain != [] && Distinct(chain) && Usable(code, chain) && Aligned(chain) && Apart(blocks, chain)
    requires Linked(next, chain, code, end) && (hardened || code == PLAIN)
    ensures
      var next' := next[chain[|chain| - 1] := HeadPtr(hardened, word)];
      && SameExcept(next, next', chain)
      && ShardOk(hardened, code, next', HeadPack(hardened, Via(code, chain[0]), HeadTag(hardened, word) + 1),
                 used + |chain|, chain + blocks)
  {
    var head := HeadPtr(hardened, word);
    var next' := next[chain[|chain| - 1] := head];
    LastRelinked(next, chain, code, end, head);
    ListKept(next, next', chain, head, blocks, code);
    PrependList(next', head, blocks, chain, code);
    assert chain[0] in chain;
    PackRoundTrip(hardened, Via(code, chain[0]), HeadTag(hardened, word) + 1);
  }

  lemma PartAligned(blocks: seq<nat>, n: nat)
    requires Aligned(blocks) && n <= |blocks|
    ensures Aligned(blocks[..n]) && Aligned(blocks[n..])
  {
    forall b | b in blocks[..n] || b in blocks[n..]
      ensures b in blocks
    {
    }
  }

  /** What becomes of a shard when its first `n` blocks are cut off. */
  lemma PopShard(hardened: bool, code: Code, next: map<nat, nat>, word: nat, used: nat, blocks: seq<nat>, n: nat)
    requires ShardOk(hardened, code, next, word, used, blocks) && 0 < n <= |blocks| && (hardened || code == PLAIN)
    ensures Via(code, HeadPtr(hardened, word)) == blocks[0] && blocks[n - 1] in next
    ensures next[blocks[n - 1]] == First(code, blocks[n..])
    ensures Linked(next, blocks[..n], code, First(code, blocks[n..]))
    ensures Distinct(blocks[..n]) && Apart(blocks[n..], blocks[..n]) && Usable(code, blocks[..n])
    ensures Aligned(blocks[..n])
    ensures ShardOk(hardened, code, next, HeadPack(hardened, First(code, blocks[n..]), HeadTag(hardened, word) + 1),
                    used - n, blocks[n..])
  {
    var head := HeadPtr(hardened, word);
    ListHead(next, head, blocks, code);
    CutList(next, head, blocks, n, code);
    assert next[blocks[n - 1]] == LinkOf(code, blocks, n - 1, 0);
    assert n < |blocks| ==> blocks[n] in blocks;
    PartAligned(blocks, n);
    PackRoundTrip(hardened, First(code, blocks[n..]), HeadTag(hardened, word) + 1);
  }

  /** Every list is linked in memory and counted right, and no block is in two lists. */
  ghost predicate CacheOk(ncpu: nat, hardened: bool, code: Code, next: map<nat, nat>, shards: Shards) {
    match shards
    case Shards(words, usage, lists) =>
      && (hardened || code == PLAIN)
      && ShardsOk(ncpu, hardened, code, next, words, usage, lists)
      && AllApart(ncpu, lists)
  }

  ghost predicate Foreign(ncpu: nat, lists: map<Slot, seq<nat>>, blocks: seq<nat>) {
    forall s :: InRange(ncpu, s) ==> s in lists && Apart(lists[s], blocks)
  }

  /** The lists, if they are linked in memory and counted right and no block is in two of them. */
  ghost function Checked(ncpu: nat, hardened: bool, code: Code, next: map<nat, nat>,
                         shards: Shards): Option<map<Slot, seq<nat>>>
  {
    if CacheOk(ncpu, hardened, code, next, shards) then Some(shards.lists) else None
  }

  /** One head word has changed, and without hardening its tag has been counted up. */
  ghost predicate Retagged(o: map<Slot, nat>, n: map<Slot, nat>, s: Slot, hardened: bool) {
    && s in o && s in n && (!hardened ==> HeadTag(hardened, n[s]) == (HeadTag(hardened, o[s]) + 1) % 16)
    && (forall t :: t in o && t != s ==> t in n && n[t] == o[t])
  }

  lemma Retag(o: map<Slot, nat>, s: Slot, hardened: bool, ptr: nat, word: nat)
    requires s in o && (hardened || ptr % 16 == 0) && word == HeadPack(hardened, ptr, HeadTag(hardened, o[s]) + 1)
    ensures Retagged(o, o[s := word], s, hardened)
  {
    PackRoundTrip(hardened, ptr, HeadTag(hardened, o[s]) + 1);
  }

  /** A stored chain, ended by the old head, goes in front of the list of one shard. */
  lemma PushCache(ncpu: nat, hardened: bool, code: Code, next: map<nat, nat>, words: map<Slot, nat>,
                  usage: map<Slot, nat>, lists: map<Slot, seq<nat>>, s: Slot, chain: seq<nat>, end: nat, word: nat,
                  used: nat)
    requires Checked(ncpu, hardened, code, next, Shards(words, usage, lists)).Some? && InRange(ncpu, s)
    requires Foreign(ncpu, lists, chain) && Linked(next, chain, code, end)
    requires chain != [] && Distinct(chain) && Usable(code, chain) && Aligned(chain)
    requires word == HeadPack(hardened, Via(code, chain[0]), HeadTag(hardened, words[s]) + 1)
    requires used == usage[s] + |chain|
    ensures
      var next' := next[chain[|chain| - 1] := HeadPtr(hardened, words[s])];
      var lists' := lists[s := chain + lists[s]];
      SameExcept(next, next', chain)
      && Checked(ncpu, hardened, code, next', Shards(words[s := word], usage[s := used], lists')) == Some(lists')
    ensures Retagged(words, words[s := word], s, hardened)
  {
    assert chain[0] in chain;
    Retag(words, s, hardened, Via(code, chain[0]), word);
    var next' := next[chain[|chain| - 1] := HeadPtr(hardened, words[s])];
    PushShard(hardened, code, next, words[s], usage[s], lists[s], chain, end);
    ShardsChange(ncpu, hardened, code, next, next', words, usage, lists, s, word, used, chain + lists[s], chain);
    ApartChange(ncpu, lists, s, chain + lists[s]);
    assert CacheOk(ncpu, hardened, code, next',
                   Shards(words[s := word], usage[s := used], lists[s := chain + lists[s]]));
  }

  /** The first blocks leave the list of one shard. */
  lemma PopCache(ncpu: nat, hardened: bool, code: Code, next: map<nat, nat>, words: map<Slot, nat>,
                 usage: map<Slot, nat>, lists: map<Slot, seq<nat>>, s: Slot, count: nat, word: nat, used: nat)
    requires Checked(ncpu, hardened, code, next, Shards(words, usage, lists)).Some? && InRange(ncpu, s)
    requires 0 < count <= |lists[s]| && used == usage[s] - count
    requires word == HeadPack(hardened, First(code, lists[s][count..]), HeadTag(hardened, words[s]) + 1)
    ensures
      var lists' := lists[s := lists[s][count..]];
      Checked(ncpu, hardened, code, next, Shards(words[s := word], usage[s := used], lists')) == Some(lists')
      && Foreign(ncpu, lists', lists[s][..count])
    ensures Retagged(words, words[s := word], s, hardened)
  {
    var all := lists[s];
    assert count < |all| ==> all[count] in all;
    Retag(words, s, hardened, First(code, all[count..]), word);
    PopShard(hardened, code, next, words[s], usage[s], all, count);
    assert ApartExcept(ncpu, lists, all, s);
    PartApart(ncpu, lists, all, count, s);
    ShardsChange(ncpu, hardened, code, next, next, words, usage, lists, s, word, used, all[count..], all[..count]);
    ApartChange(ncpu, lists, s, all[count..]);
    assert CacheOk(ncpu, hardened, code, next, Shards(words[s := word], usage[s := used], lists[s := all[count..]]));
  }

  lemma PartApart(ncpu: nat, lists: map<Slot, seq<nat>>, blocks: seq<nat>, n: nat, s: Slot)
    requires ApartExcept(ncpu, lists, blocks, s) && n <= |blocks|
    ensures ApartExcept(ncpu, lists, blocks[..n], s) && ApartExcept(ncpu, lists, blocks[n..], s)
  {
    forall b | b in blocks[..n] || b in blocks[n..]
      ensures b in blocks
    {
    }
  }

  /** The shard looked at in the `i`-th place by a thread on `cpu`. */
  function Victim(cpu: nat, i: nat, ncpu: nat): (r: nat)
    requires cpu < ncpu
    ensures r < ncpu && (i == 0 ==> r == cpu)
  {
    (cpu + i) % ncpu
  }

  /** Every shard is looked at in exactly one place. */
  lemma VictimsCover(cpu: nat, p: nat, ncpu: nat)
    requires cpu < ncpu && p < ncpu
    ensures exists i: nat :: i < ncpu && Victim(cpu, i, ncpu) == p
    ensures forall i: nat, j: nat :: i < j < ncpu ==> Victim(cpu, i, ncpu) != Victim(cpu, j, ncpu)
  {
    forall i: nat | i < ncpu
      ensures Victim(cpu, i, ncpu) == if cpu + i < ncpu then cpu + i else cpu + i - ncpu
    {
      Rotated(cpu, i, ncpu);
    }
    var i := if cpu <= p then p - cpu else ncpu + p - cpu;
    assert Victim(cpu, i, ncpu) == p;
  }

  lemma Rotated(cpu: nat, i: nat, ncpu: nat)
    requires cpu < ncpu && i < ncpu
    ensures Victim(cpu, i, ncpu) == if cpu + i < ncpu then cpu + i else cpu + i - ncpu
  {
    if cpu + i >= ncpu {
      assert (cpu + i) % ncpu == (cpu + i - ncpu) % ncpu;
    }
  }

  ghost predicate EmptyAt(lists: map<Slot, seq<nat>>, s: Slot) {
    s in lists && lists[s] == []
  }

  /** The shards in the first `n` places have no block of the class. */
  ghost predicate EmptyBefore(lists: map<Slot, seq<nat>>, class_: nat, cpu: nat, n: nat, ncpu: nat)
    requires cpu < ncpu
  {
    forall i: nat :: i < n ==> EmptyAt(lists, Slot(Victim(cpu, i, ncpu), class_))
  }

  ghost predicate AllEmpty(lists: map<Slot, seq<nat>>, class_: nat, ncpu: nat) {
    forall p: nat :: p < ncpu ==> EmptyAt(lists, Slot(p, class_))
  }

  /** Shard `p` has blocks of the class, and none of those before it does, going up from that of `cpu`. */
  ghost predicate NextFull(lists: map<Slot, seq<nat>>, class_: nat, cpu: nat, p: nat, ncpu: nat) {
    && p < ncpu && Slot(p, class_) in lists && lists[Slot(p, class_)] != []
    && forall q: nat :: q < ncpu && Ahead(cpu, q, ncpu) < Ahead(cpu, p, ncpu) ==> EmptyAt(lists, Slot(q, class_))
  }

  lemma FirstIsNext(lists: map<Slot, seq<nat>>, class_: nat, cpu: nat, n: nat, ncpu: nat)
    requires cpu < ncpu && n < ncpu && EmptyBefore(lists, class_, cpu, n, ncpu)
    requires Slot(Victim(cpu, n, ncpu), class_) in lists && lists[Slot(Victim(cpu, n, ncpu), class_)] != []
    ensures NextFull(lists, class_, cpu, Victim(cpu, n, ncpu), ncpu)
  {
    Rotated(cpu, n, ncpu);
    forall q: nat | q < ncpu && Ahead(cpu, q, ncpu) < n
      ensures EmptyAt(lists, Slot(q, class_))
    {
      Rotated(cpu, Ahead(cpu, q, ncpu), ncpu);
      assert Victim(cpu, Ahead(cpu, q, ncpu), ncpu) == q;
    }
  }

  lemma EmptyStep(lists: map<Slot, seq<nat>>, class_: nat, cpu: nat, n: nat, ncpu: nat)
    requires cpu < ncpu && EmptyBefore(lists, class_, cpu, n, ncpu)
    requires EmptyAt(lists, Slot(Victim(cpu, n, ncpu), class_))
    ensures EmptyBefore(lists, class_, cpu, n + 1, ncpu)
  {
  }

  lemma AllVisited(lists: map<Slot, seq<nat>>, class_: nat, cpu: nat, ncpu: nat)
    requires cpu < ncpu && EmptyBefore(lists, class_, cpu, ncpu, ncpu)
    ensures AllEmpty(lists, class_, ncpu)
  {
    forall p: nat | p < ncpu
      ensures EmptyAt(lists, Slot(p, class_))
    {
      VictimsCover(cpu, p, ncpu);
    }
  }

  ghost function TotalBlocks(lists: map<Slot, seq<nat>>, class_: nat, n: nat): nat {
    if n == 0 then 0
    else
      var s := Slot(n - 1, class_);
      TotalBlocks(lists, class_, n - 1) + if s in lists then |lists[s]| else 0
  }

  class InterConnectCache {
    const mem: Memory
    const code: Code
    const hardened: bool
    const ncpu: nat
    var words: map<Slot, nat>
    var usage: map<Slot, nat>

    /** The blocks of each list, first one first. */
    ghost var lists: map<Slot, seq<nat>>

    constructor (m: Memory, linkCode: Code, hard: bool, cpus: nat)
      requires Via(linkCode, 0) == 0 && (hard || linkCode == PLAIN)
      ensures Lists().Some? && mem == m && code == linkCode && hardened == hard && ncpu == cpus
      ensures forall s :: InRange(ncpu, s) ==> lists[s] == []
    {
      mem, code, hardened, ncpu := m, linkCode, hard, cpus;
      words := map p, c | 0 <= p < cpus && 0 <= c < NUM_SIZE_CLASSES :: Slot(p, c) := 0;
      usage := map p, c | 0 <= p < cpus && 0 <= c < NUM_SIZE_CLASSES :: Slot(p, c) := 0;
      lists := map p, c | 0 <= p < cpus && 0 <= c < NUM_SIZE_CLASSES :: Slot(p, c) := [];
    }

    ghost function Lists(): Option<map<Slot, seq<nat>>>
      reads this, mem
    {
      Checked(ncpu, hardened, code, mem.next, Shards(words, usage, lists))
    }

    /** A stored chain goes in front of the list of one shard. */
    method TryPush(class_: nat, cpu: nat, head: nat, tail: nat, batch: nat, ghost blocks: seq<nat>, ghost end: nat)
      requires Lists().Some? && InRange(ncpu, Slot(cpu, class_))
      requires blocks != [] && head == blocks[0] && tail == blocks[|blocks| - 1] && batch == |blocks|
      requires Distinct(blocks) && Usable(code, blocks) && Aligned(blocks) && Foreign(ncpu, lists, blocks)
      requires Linked(mem.next, blocks, code, end)
      modifies this, mem
      ensures Lists() == Some(old(lists)[Slot(cpu, class_) := blocks + old(lists[Slot(cpu, class_)])])
      ensures SameExcept(old(mem.next), mem.next, blocks) && Retagged(old(words), words, Slot(cpu, class_), hardened)
    {
      var s := Slot(cpu, class_);
      var current := words[s];
      var word := HeadPack(hardened, Via(code, head), HeadTag(hardened, current) + 1);
      var used := usage[s] + batch;
      PushCache(ncpu, hardened, code, mem.next, words, usage, lists, s, blocks, end, word, used);
      mem.next := mem.next[tail := HeadPtr(hardened, current)];
      words := words[s := word];
      usage := usage[s := used];
      lists := lists[s := blocks + lists[s]];
    }

    /** The lists survive link changes in blocks they do not hold. */
    lemma StillOk(next: map<nat, nat>, changed: seq<nat>)
      requires Checked(ncpu, hardened, code, next, Shards(words, usage, lists)).Some? && Foreign(ncpu, lists, changed)
      requires SameExcept(next, mem.next, changed)
      ensures Lists() == Some(lists)
    {
      forall s | InRange(ncpu, s)
        ensures ShardOk(hardened, code, mem.next, words[s], usage[s], lists[s])
      {
        ListKept(next, mem.next, changed, HeadPtr(hardened, words[s]), lists[s], code);
      }
    }

    /** A raw chain is stored under the code of the shards and pushed. */
    method PushToGlobal(class_: nat, cpu: nat, head: nat, tail: nat, batch: nat, ghost blocks: seq<nat>, ghost end: nat)
      requires Lists().Some? && InRange(ncpu, Slot(cpu, class_))
      requires blocks != [] && head == blocks[0] && tail == blocks[|blocks| - 1] && batch == |blocks|
      requires Distinct(blocks) && Usable(code, blocks) && Aligned(blocks) && Foreign(ncpu, lists, blocks)
      requires RawLinked(mem.next, blocks, end)
      modifies this, mem
      ensures Lists() == Some(old(lists)[Slot(cpu, class_) := blocks + old(lists[Slot(cpu, class_)])])
      ensures SameExcept(old(mem.next), mem.next, blocks)
    {
      mem.Store(head, tail, code, hardened, blocks, end);
      StillOk(old(mem.next), blocks);
      TryPush(class_, cpu, head, tail, batch, blocks, end);
    }

    /** Walk at most `batch` blocks along a stored list. */
    method Walk(first: nat, batch: nat, ghost blocks: seq<nat>, ghost head: nat) returns (tail: nat, count: nat)
      requires blocks != [] && first == blocks[0] && IsList(mem.next, head, blocks, code)
      ensures count == Min(Max(batch, 1), |blocks|) && tail == blocks[count - 1]
    {
      tail, count := first, 1;
      while count < batch
        invariant 1 <= count <= |blocks| && tail == blocks[count - 1] && count <= Max(batch, 1)
      {
        assert mem.next[blocks[count - 1]] == LinkOf(code, blocks, count - 1, 0);
        assert count < |blocks| ==> blocks[count] in blocks;
        var next := mem.next[tail];
        if next == 0 {
          break;
        }
        tail, count := Via(code, next), count + 1;
      }
    }

    /** Take the first blocks of a shard that has some off its list, as many as `batch` allows. They are
        still linked as they were, up to the new head. */
    method Cut(s: Slot, batch: nat) returns (head: nat, tail: nat, newHead: nat, ghost taken: seq<nat>)
      requires Lists().Some? && InRange(ncpu, s) && lists[s] != []
      modifies this
      ensures Lists() == Some(lists) && Detached(old(lists), lists, s, taken)
      ensures Retagged(old(words), words, s, hardened)
      ensures |taken| == Min(Max(batch, 1), |old(lists[s])|)
      ensures head == taken[0] && tail == taken[|taken| - 1] && Linked(mem.next, taken, code, newHead)
      ensures Distinct(taken) && Usable(code, taken) && Aligned(taken) && Foreign(ncpu, lists, taken)
    {
      var current := words[s];
      ghost var all := lists[s];
      // The count is the length of the list, so the head is not null.
      PopShard(hardened, code, mem.next, current, usage[s], all, 1);
      head := Via(code, HeadPtr(hardened, current));
      var count;
      tail, count := Walk(head, batch, all, HeadPtr(hardened, current));
      PopShard(hardened, code, mem.next, current, usage[s], all, count);
      taken := all[..count];
      newHead := mem.next[tail];
      var word := HeadPack(hardened, newHead, HeadTag(hardened, current) + 1);
      var used := usage[s] - count;
      PopCache(ncpu, hardened, code, mem.next, words, usage, lists, s, count, word, used);
      words := words[s := word];
      usage := usage[s := used];
      lists := lists[s := all[count..]];
    }

    /** Detach the first blocks of one shard, as many as `batch` allows, as a raw chain that ends in null. */
    method Pop(class_: nat, batch: nat, cpu: nat) returns (r: Option<nat>, ghost taken: seq<nat>)
      requires Lists().Some? && InRange(ncpu, Slot(cpu, class_))
      modifies this, mem
      ensures Lists() == Some(lists) && SameExcept(old(mem.next), mem.next, taken)
      ensures Detached(old(lists), lists, Slot(cpu, class_), taken)
      ensures |taken| == Min(Max(batch, 1), |old(lists[Slot(cpu, class_)])|)
      ensures r == if taken == [] then None else Some(taken[0])
      ensures taken != [] ==> Retagged(old(words), words, Slot(cpu, class_), hardened)
      ensures RawLinked(mem.next, taken, 0) && Distinct(taken) && Usable(code, taken) && Aligned(taken)
      ensures Foreign(ncpu, lists, taken)
    {
      taken := [];
      if usage[Slot(cpu, class_)] == 0 {
        return None, [];
      }
      var head, tail, newHead;
      head, tail, newHead, taken := Cut(Slot(cpu, class_), batch);
      mem.Load(head, tail, code, hardened, taken, newHead);
      RawLastRelinked(mem.next, taken, newHead, 0);
      mem.next := mem.next[tail := 0];
      StillOk(old(mem.next), taken);
      r := Some(head);
    }

    /** Take blocks from the shard of `cpu` or, failing that, from the first shard after it that has some. */
    method TryPop(class_: nat, batch: nat, cpu: nat) returns (block: nat, ghost taken: seq<nat>, ghost hops: nat)
      requires Lists().Some? && InRange(ncpu, Slot(cpu, class_))
      modifies this, mem
      ensures Lists() == Some(lists) && SameExcept(old(mem.next), mem.next, taken) && hops <= ncpu
      ensures EmptyBefore(old(lists), class_, cpu, hops, ncpu)
      ensures hops < ncpu ==> taken != [] && block == taken[0]
      ensures hops < ncpu ==> NextFull(old(lists), class_, cpu, Victim(cpu, hops, ncpu), ncpu)
      ensures hops < ncpu ==> Detached(old(lists), lists, Slot(Victim(cpu, hops, ncpu), class_), taken)
      ensures hops < ncpu ==> |taken| == Min(Max(batch, 1), |old(lists)[Slot(Victim(cpu, hops, ncpu), class_)]|)
      ensures hops == ncpu ==> block == 0 && taken == [] && lists == old(lists)
      ensures hops == ncpu <==> AllEmpty(old(lists), class_, ncpu)
      ensures RawLinked(mem.next, taken, 0) && Distinct(taken) && Usable(code, taken) && Aligned(taken)
      ensures Foreign(ncpu, lists, taken)
    {
      var r;
      r, taken := Pop(class_, batch, cpu);
      if r.Some? {
        FirstIsNext(old(lists), class_, cpu, 0, ncpu);
        return r.value, taken, 0;
      }
      var i: nat := 1;
      EmptyStep(old(lists), class_, cpu, 0, ncpu);
      while i != ncpu
        invariant 1 <= i <= ncpu && Lists() == Some(old(lists)) && lists == old(lists)
        invariant SameExcept(old(mem.next), mem.next, [])
        invariant EmptyBefore(old(lists), class_, cpu, i, ncpu)
        decreases ncpu - i
      {
        r, taken := Pop(class_, batch, Victim(cpu, i, ncpu));
        if r.Some? {
          FirstIsNext(old(lists), class_, cpu, i, ncpu);
          return r.value, taken, i;
        }
        EmptyStep(old(lists), class_, cpu, i, ncpu);
        i := i + 1;
      }
      AllVisited(old(lists), class_, cpu, ncpu);
      return 0, [], ncpu;
    }

    /** The number of free blocks of a class, over all shards. */
    method GetSize(class_: nat) returns (total: nat)
      requires Lists().Some? && class_ < NUM_SIZE_CLASSES
      ensures total == TotalBlocks(lists, class_, ncpu)
    {
      total := 0;
      for i := 0 to ncpu
        invariant total == TotalBlocks(lists, class_, i)
      {
        assert InRange(ncpu, Slot(i, class_));
        total := total + usage[Slot(i, class_)];
      }
    }
  }
}
