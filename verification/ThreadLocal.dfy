/** The lists of free blocks a thread keeps for itself, one per size class. */
module ThreadLocal {
  import opened Wrappers
  import opened Links
  import opened SizeClasses

  ghost predicate BinOk(code: Code, next: map<nat, nat>, head: nat, used: nat, blocks: seq<nat>) {
    IsList(next, head, blocks, code) && used == |blocks|
  }

  /** The head, the count and the blocks of every list. */
  datatype Bins = Bins(heads: seq<nat>, usage: seq<nat>, lists: seq<seq<nat>>)

  ghost predicate AllApart(lists: seq<seq<nat>>) {
    forall c, d :: 0 <= c < d < |lists| ==> Apart(lists[c], lists[d])
  }

  /** Every list is linked in memory and counted right, and no block is in two lists. */
  ghost predicate BinsOk(code: Code, next: map<nat, nat>, bins: Bins) {
    && |bins.heads| == |bins.usage| == |bins.lists| == NUM_SIZE_CLASSES
    && (forall c :: 0 <= c < NUM_SIZE_CLASSES ==> BinOk(code, next, bins.heads[c], bins.usage[c], bins.lists[c]))
    && AllApart(bins.lists)
  }

  /** None of the blocks is in a list, except possibly in that of `but`. */
  ghost predicate ApartExcept(lists: seq<seq<nat>>, blocks: seq<nat>, but: int) {
    forall c :: 0 <= c < |lists| && c != but ==> Apart(lists[c], blocks)
  }

  ghost predicate Foreign(lists: seq<seq<nat>>, blocks: seq<nat>) {
    ApartExcept(lists, blocks, -1)
  }

  function Replaced(bins: Bins, c: nat, head: nat, used: nat, blocks: seq<nat>): Bins
    requires c < |bins.heads| == |bins.usage| == |bins.lists|
  {
    Bins(bins.heads[c := head], bins.usage[c := used], bins.lists[c := blocks])
  }

  /** Replacing one list, after changing links in blocks that no other list holds. */
  lemma BinsChange(code: Code, next: map<nat, nat>, next': map<nat, nat>, bins: Bins, c: nat, head: nat, used: nat,
                   blocks: seq<nat>, changed: seq<nat>)
    requires BinsOk(code, next, bins) && c < NUM_SIZE_CLASSES && SameExcept(next, next', changed)
    requires ApartExcept(bins.lists, changed, c) && ApartExcept(bins.lists, blocks, c)
    requires BinOk(code, next', head, used, blocks)
    ensures BinsOk(code, next', Replaced(bins, c, head, used, blocks))
  {
    forall d | 0 <= d < NUM_SIZE_CLASSES && d != c
      ensures BinOk(code, next', bins.heads[d], bins.usage[d], bins.lists[d])
    {
      ListKept(next, next', changed, bins.heads[d], bins.lists[d], code);
    }
    ApartChange(bins.lists, c, blocks);
  }

  lemma ApartChange(lists: seq<seq<nat>>, c: nat, blocks: seq<nat>)
    requires AllApart(lists) && c < |lists| && ApartExcept(lists, blocks, c)
    ensures AllApart(lists[c := blocks])
  {
    var lists' := lists[c := blocks];
    forall d, e | 0 <= d < e < |lists|
      ensures Apart(lists'[d], lists'[e])
    {
      assert Apart(lists[d], lists[e]);
    }
  }

  lemma BinsKept(code: Code, next: map<nat, nat>, next': map<nat, nat>, bins: Bins, changed: seq<nat>)
    requires BinsOk(code, next, bins) && SameExcept(next, next', changed) && Foreign(bins.lists, changed)
    ensures BinsOk(code, next', bins)
  {
    forall d | 0 <= d < NUM_SIZE_CLASSES
      ensures BinOk(code, next', bins.heads[d], bins.usage[d], bins.lists[d])
    {
      ListKept(next, next', changed, bins.heads[d], bins.lists[d], code);
    }
  }

  /** A stored chain goes in front of a list. */
  lemma PushBins(code: Code, next: map<nat, nat>, bins: Bins, c: nat, chain: seq<nat>, end: nat)
    requires BinsOk(code, next, bins) && c < NUM_SIZE_CLASSES && Linked(next, chain, code, end)
    requires chain != [] && Distinct(chain) && Usable(code, chain) && Foreign(bins.lists, chain)
    ensures
      var next' := next[chain[|chain| - 1] := bins.heads[c]];
      && SameExcept(next, next', chain)
      && BinsOk(code, next', Replaced(bins, c, Via(code, chain[0]), bins.usage[c] + |chain|, chain + bins.lists[c]))
  {
    var next' := next[chain[|chain| - 1] := bins.heads[c]];
    LastRelinked(next, chain, code, end, bins.heads[c]);
    ListKept(next, next', chain, bins.heads[c], bins.lists[c], code);
    PrependList(next', bins.heads[c], bins.lists[c], chain, code);
    OthersApart(bins.lists, c, chain);
    BinsChange(code, next, next', bins, c, Via(code, chain[0]), bins.usage[c] + |chain|, chain + bins.lists[c], chain);
  }

  lemma OthersApart(lists: seq<seq<nat>>, c: nat, chain: seq<nat>)
    requires AllApart(lists) && c < |lists| && Foreign(lists, chain)
    ensures ApartExcept(lists, chain + lists[c], c)
  {
    forall d | 0 <= d < |lists| && d != c
      ensures Apart(lists[d], chain + lists[c])
    {
      assert if c < d then Apart(lists[c], lists[d]) else Apart(lists[d], lists[c]);
    }
  }

  /** The first blocks of a list leave it. */
  lemma CutBins(code: Code, next: map<nat, nat>, bins: Bins, c: nat, n: nat)
    requires BinsOk(code, next, bins) && c < NUM_SIZE_CLASSES && n <= |bins.lists[c]|
    ensures
      var rest := bins.lists[c][n..];
      BinsOk(code, next, Replaced(bins, c, First(code, rest), bins.usage[c] - n, rest))
      && Foreign(bins.lists[c := rest], bins.lists[c][..n])
  {
    var all := bins.lists[c];
    CutList(next, bins.heads[c], all, n, code);
    forall d | 0 <= d < NUM_SIZE_CLASSES && d != c
      ensures Apart(bins.lists[d], all[n..]) && Apart(bins.lists[d], all[..n])
    {
      assert if c < d then Apart(bins.lists[c], bins.lists[d]) else Apart(bins.lists[d], bins.lists[c]);
      assert forall b :: b in all[n..] || b in all[..n] ==> b in all;
    }
    BinsChange(code, next, next, bins, c, First(code, all[n..]), bins.usage[c] - n, all[n..], []);
  }

  /** The lists, if they are linked in memory and counted right and no block is in two of them. */
  ghost function Checked(code: Code, next: map<nat, nat>, bins: Bins): Option<seq<seq<nat>>> {
    if BinsOk(code, next, bins) then Some(bins.lists) else None
  }

  class ThreadLocalEngine {
    const mem: Memory
    const code: Code
    const hardened: bool
    var heads: seq<nat>
    var usage: seq<nat>

    /** The blocks of each list, first one first. */
    ghost var lists: seq<seq<nat>>

    constructor (m: Memory, linkCode: Code, hard: bool)
      requires Via(linkCode, 0) == 0
      ensures mem == m && code == linkCode && hardened == hard
      ensures Lists() == Some(lists) && forall c :: 0 <= c < NUM_SIZE_CLASSES ==> lists[c] == []
    {
      mem, code, hardened := m, linkCode, hard;
      heads := seq(NUM_SIZE_CLASSES, _ => 0);
      usage := seq(NUM_SIZE_CLASSES, _ => 0);
      lists := seq(NUM_SIZE_CLASSES, _ => []);
    }

    ghost function Lists(): Option<seq<seq<nat>>>
      reads this, mem
    {
      Checked(code, mem.next, Bins(heads, usage, lists))
    }

    /** A list has a head exactly when it has blocks. */
    method HasBlocks(c: nat) returns (r: bool)
      requires Lists().Some? && c < NUM_SIZE_CLASSES
      ensures |lists| == NUM_SIZE_CLASSES && (r <==> lists[c] != [])
    {
      ListHead(mem.next, heads[c], lists[c], code);
      r := Via(code, heads[c]) != 0;
      assert r ==> heads[c] != 0;
      assert lists[c] != [] ==> lists[c][0] in lists[c];
    }

    /** Take the first block of a list; null if there is none. */
    method Pop(c: nat) returns (header: nat)
      requires Lists().Some? && c < NUM_SIZE_CLASSES
      modifies this
      ensures |old(lists)| == NUM_SIZE_CLASSES
      ensures old(lists)[c] == [] ==> header == 0 && Lists() == Some(old(lists))
      ensures old(lists)[c] != [] ==>
        header == old(lists)[c][0] && Lists() == Some(old(lists)[c := old(lists)[c][1..]])
    {
      var current := heads[c];
      ListHead(mem.next, current, lists[c], code);
      if current == 0 {
        return 0;
      }
      header := Via(code, current);
      var next := mem.next[header];
      CutBins(code, mem.next, Bins(heads, usage, lists), c, 1);
      heads := heads[c := next];
      usage := usage[c := usage[c] - 1];
      lists := lists[c := lists[c][1..]];
    }

    /** Put one block in front of a list. */
    method Push(c: nat, header: nat)
      requires Lists().Some? && c < NUM_SIZE_CLASSES && header in mem.next
      requires Usable(code, [header]) && Foreign(lists, [header])
      modifies this, mem
      ensures Lists() == Some(old(lists)[c := [header] + old(lists)[c]])
      ensures SameExcept(old(mem.next), mem.next, [header])
    {
      PushBins(code, mem.next, Bins(heads, usage, lists), c, [header], mem.next[header]);
      mem.next := mem.next[header := heads[c]];
      heads := heads[c := Via(code, header)];
      usage := usage[c := usage[c] + 1];
      lists := lists[c := [header] + lists[c]];
    }

    /** The lists survive link changes in blocks they do not hold. */
    lemma StillOk(next: map<nat, nat>, changed: seq<nat>)
      requires Checked(code, next, Bins(heads, usage, lists)).Some? && Foreign(lists, changed)
      requires SameExcept(next, mem.next, changed)
      ensures Lists() == Some(lists)
    {
      BinsKept(code, next, mem.next, Bins(heads, usage, lists), changed);
    }

    /** Put a raw chain of `batch` blocks in front of a list. */
    method PushTailed(c: nat, head: nat, tail: nat, batch: nat, ghost blocks: seq<nat>, ghost end: nat)
      requires Lists().Some? && c < NUM_SIZE_CLASSES && (hardened || code == PLAIN)
      requires blocks != [] && head == blocks[0] && tail == blocks[|blocks| - 1] && batch == |blocks|
      requires Distinct(blocks) && Usable(code, blocks) && RawLinked(mem.next, blocks, end) && Foreign(lists, blocks)
      modifies this, mem
      ensures Lists() == Some(old(lists)[c := blocks + old(lists)[c]])
      ensures SameExcept(old(mem.next), mem.next, blocks)
    {
      mem.Store(head, tail, code, hardened, blocks, end);
      BinsKept(code, old(mem.next), mem.next, Bins(heads, usage, lists), blocks);
      PushBins(code, mem.next, Bins(heads, usage, lists), c, blocks, end);
      mem.next := mem.next[tail := heads[c]];
      heads := heads[c := Via(code, head)];
      usage := usage[c := usage[c] + batch];
      lists := lists[c := blocks + lists[c]];
    }

    /** Read a whole list back into a raw chain before it is handed on at thread exit. Nothing looks at the
        list afterwards; here it is left empty. */
    method Unload(c: nat) returns (head: nat, tail: nat, count: nat)
      requires Lists().Some? && c < NUM_SIZE_CLASSES && lists[c] != []
      modifies this, mem
      ensures head == old(lists)[c][0] && tail == old(lists)[c][|old(lists)[c]| - 1] && count == |old(lists)[c]|
      ensures Lists() == Some(old(lists)[c := []])
      ensures RawLinked(mem.next, old(lists)[c], 0) && SameExcept(old(mem.next), mem.next, old(lists)[c])
    {
      ghost var all := lists[c];
      head, tail, count := mem.LoadAll(heads[c], code, all);
      CutBins(code, old(mem.next), Bins(heads, usage, lists), c, |all|);
      assert all[|all|..] == [] && all[..|all|] == all;
      heads := heads[c := 0];
      usage := usage[c := 0];
      lists := lists[c := []];
      StillOk(old(mem.next), all);
    }
  }
}
