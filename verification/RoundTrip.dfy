/** A chain of blocks on its way through all the forms its links take. */
module RoundTrips {
  import opened Wrappers
  import opened Links
  import opened SizeClasses
  import opened SlabLife
  import opened ThreadLocal
  import opened InterConnect

  /** A raw chain goes in front of a list of a thread, and the whole list is read back. */
  method ThroughThread(tls: ThreadLocalEngine, c: nat, head: nat, tail: nat, count: nat, ghost blocks: seq<nat>,
                       ghost end: nat)
    returns (first: nat, last: nat, n: nat, ghost chain: seq<nat>)
    requires tls.Lists() == Some(tls.lists) && (tls.hardened || tls.code == PLAIN)
    requires c < NUM_SIZE_CLASSES && |tls.lists| == NUM_SIZE_CLASSES
    requires blocks != [] && head == blocks[0] && tail == blocks[|blocks| - 1] && count == |blocks|
    requires Distinct(blocks) && Usable(tls.code, blocks) && ThreadLocal.Foreign(tls.lists, blocks)
    requires RawLinked(tls.mem.next, blocks, end)
    modifies tls, tls.mem
    ensures chain == blocks + old(tls.lists)[c] && RawLinked(tls.mem.next, chain, 0)
    ensures tls.Lists() == Some(old(tls.lists)[c := []])
    ensures first == chain[0] && last == chain[|chain| - 1] && n == |chain|
    ensures SameExcept(old(tls.mem.next), tls.mem.next, chain)
  {
    tls.PushTailed(c, head, tail, count, blocks, end);
    chain := blocks + old(tls.lists)[c];
    first, last, n := tls.Unload(c);
    assert tls.lists == old(tls.lists)[c := []];
  }

  /** A raw chain goes in front of the list of a shard, and the first blocks of that list are taken back. */
  method ThroughShard(icc: InterConnectCache, c: nat, cpu: nat, head: nat, tail: nat, count: nat, batch: nat,
                      ghost blocks: seq<nat>, ghost end: nat)
    returns (r: Option<nat>, ghost taken: seq<nat>)
    requires icc.Lists() == Some(icc.lists) && InRange(icc.ncpu, Slot(cpu, c)) && Slot(cpu, c) in icc.lists
    requires blocks != [] && head == blocks[0] && tail == blocks[|blocks| - 1] && count == |blocks|
    requires Distinct(blocks) && Aligned(blocks) && Usable(icc.code, blocks)
    requires InterConnect.Foreign(icc.ncpu, icc.lists, blocks) && RawLinked(icc.mem.next, blocks, end)
    modifies icc, icc.mem
    ensures icc.Lists() == Some(icc.lists) && Slot(cpu, c) in icc.lists
    ensures taken + icc.lists[Slot(cpu, c)] == blocks + old(icc.lists[Slot(cpu, c)])
    ensures |taken| == Min(Max(batch, 1), |blocks + old(icc.lists[Slot(cpu, c)])|)
    ensures r == Some(blocks[0]) && RawLinked(icc.mem.next, taken, 0)
  {
    icc.PushToGlobal(c, cpu, head, tail, count, blocks, end);
    ghost var lists := icc.lists;
    r, taken := icc.Pop(c, batch, cpu);
    TakenFromFront(lists, icc.lists, Slot(cpu, c), taken);
  }

  /** What was taken off a list and what is left of it are the list. */
  lemma TakenFromFront(o: map<Slot, seq<nat>>, n: map<Slot, seq<nat>>, s: Slot, taken: seq<nat>)
    requires Detached(o, n, s, taken)
    ensures s in o && s in n && taken + n[s] == o[s] && (taken != [] ==> taken[0] == o[s][0])
  {
  }

  /** The blocks that go to the shard: the chain and what the thread's list held before. */
  lemma ChainIsLoose(bins: seq<seq<nat>>, c: nat, blocks: seq<nat>, code: Code, ncpu: nat, shards: map<Slot, seq<nat>>)
    requires c < |bins| && Distinct(blocks) && Distinct(bins[c]) && Apart(bins[c], blocks)
    requires Aligned(blocks) && Aligned(bins[c]) && Usable(code, blocks) && Usable(code, bins[c])
    requires InterConnect.Foreign(ncpu, shards, blocks) && InterConnect.Foreign(ncpu, shards, bins[c])
    ensures Distinct(blocks + bins[c]) && Aligned(blocks + bins[c]) && Usable(code, blocks + bins[c])
    ensures InterConnect.Foreign(ncpu, shards, blocks + bins[c])
  {
    JoinDistinct(blocks, bins[c]);
  }

  /** Raw, stored under the key of a thread, raw, stored under the key of the shards, raw: the first blocks of
      the chain come back in their order with a null tail, followed by what was in the thread's list and then on
      the shard if the batch is large enough; all others stay on the shard. In the plain build nothing is
      encoded, and the result is the same. */
  method ThroughBoth(tls: ThreadLocalEngine, icc: InterConnectCache, c: nat, cpu: nat, head: nat, tail: nat, count: nat,
                     batch: nat, ghost blocks: seq<nat>, ghost end: nat)
    returns (r: Option<nat>, ghost taken: seq<nat>)
    requires tls.mem == icc.mem && tls.hardened == icc.hardened && (tls.hardened || tls.code == PLAIN)
    requires tls.Lists() == Some(tls.lists) && icc.Lists() == Some(icc.lists)
    requires c < NUM_SIZE_CLASSES && |tls.lists| == NUM_SIZE_CLASSES
    requires InRange(icc.ncpu, Slot(cpu, c)) && Slot(cpu, c) in icc.lists
    requires blocks != [] && head == blocks[0] && tail == blocks[|blocks| - 1] && count == |blocks|
    requires Distinct(blocks) && Aligned(blocks) && Usable(tls.code, blocks) && Usable(icc.code, blocks)
    requires ThreadLocal.Foreign(tls.lists, blocks) && InterConnect.Foreign(icc.ncpu, icc.lists, blocks)
    requires Aligned(tls.lists[c]) && Usable(icc.code, tls.lists[c])
    requires InterConnect.Foreign(icc.ncpu, icc.lists, tls.lists[c])
    requires RawLinked(tls.mem.next, blocks, end)
    modifies tls, icc, tls.mem
    ensures icc.Lists() == Some(icc.lists) && Slot(cpu, c) in icc.lists
    ensures taken + icc.lists[Slot(cpu, c)] == blocks + old(tls.lists)[c] + old(icc.lists[Slot(cpu, c)])
    ensures |taken| == Min(Max(batch, 1), |blocks + old(tls.lists)[c] + old(icc.lists[Slot(cpu, c)])|)
    ensures r == Some(blocks[0]) && RawLinked(icc.mem.next, taken, 0)
  {
    ghost var next, chain := tls.mem.next, [];
    ChainIsLoose(tls.lists, c, blocks, icc.code, icc.ncpu, icc.lists);
    var first, last, n;
    first, last, n, chain := ThroughThread(tls, c, head, tail, count, blocks, end);
    icc.StillOk(next, chain);
    r, taken := ThroughShard(icc, c, cpu, first, last, n, batch, chain, 0);
  }
}
