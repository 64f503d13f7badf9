/** Free blocks linked through their headers.

    Every link is stored encoded, with null kept as null. In the hardened build the code is exclusive-or
    with a key, and thread lists and per-CPU lists use different keys; without hardening links are stored
    as they are. Chains on their way from one list to another are always raw. */
module Links {

  // ------------------------------------------------------------------ codes

  /** How a link is stored; the same function reads it back. */
  type Code = nat -> nat

  /** Bitwise exclusive or. */
  function Xor(a: nat, b: nat): nat {
    if a == 0 && b == 0 then 0 else 2 * Xor(a / 2, b / 2) + (a + b) % 2
  }

  lemma XorUnfold(a: nat, b: nat)
    ensures Xor(a, b) / 2 == Xor(a / 2, b / 2) && Xor(a, b) % 2 == (a + b) % 2
  {
  }

  lemma {:induction false} XorTwice(a: nat, k: nat)
    ensures Xor(Xor(a, k), k) == a
    decreases a + k
  {
    if a + k > 0 {
      var x := Xor(a, k);
      XorUnfold(a, k);
      XorUnfold(x, k);
      XorTwice(a / 2, k / 2);
      SameHalves(a, k, x, Xor(x, k));
    }
  }

  /** A number is its half and its parity. */
  lemma SameHalves(a: nat, k: nat, x: nat, z: nat)
    requires x % 2 == (a + k) % 2 && z % 2 == (x + k) % 2 && z / 2 == a / 2
    ensures z == a
  {
  }

  lemma {:induction false} XorNull(a: nat, k: nat)
    ensures Xor(a, k) == 0 <==> a == k
    decreases a + k
  {
    if a + k > 0 {
      XorUnfold(a, k);
      XorNull(a / 2, k / 2);
    }
  }

  /** An address exclusive-or'ed with the key; null stays null. */
  function XorPtr(key: nat, p: nat): nat {
    if p == 0 then 0 else Xor(p, key)
  }

  function XorCode(key: nat): Code {
    p => XorPtr(key, p)
  }

  const PLAIN: Code := p => p

  /** `p` as it is stored, or what is stored as `p` read back. */
  function Via(code: Code, p: nat): nat {
    code(p)
  }

  /** Under `code`, the block at `p` can be linked: its link reads back as `p` and is not taken for null. */
  ghost predicate Readable(code: Code, p: nat) {
    Via(code, p) != 0 && Via(code, Via(code, p)) == p
  }

  /** Exclusive-or links work for every block except one at the address that equals the key. */
  lemma XorReadable(key: nat, p: nat)
    requires p != 0
    ensures Readable(XorCode(key), p) <==> p != key
  {
    XorTwice(p, key);
    XorNull(p, key);
  }

  lemma PlainReadable(p: nat)
    ensures Readable(PLAIN, p) <==> p != 0
  {
  }

  // ------------------------------------------------------------------ chains

  ghost predicate Distinct(s: seq<nat>) {
    forall i, j :: 0 <= i < j < |s| ==> s[i] != s[j]
  }

  ghost predicate Apart(s: seq<nat>, t: seq<nat>) {
    forall b :: b in s ==> b !in t
  }

  /** All blocks can be linked under `code`, and null is stored as null. */
  ghost predicate Usable(code: Code, blocks: seq<nat>) {
    Via(code, 0) == 0 && forall b :: b in blocks ==> b != 0 && Readable(code, b)
  }

  function First(code: Code, blocks: seq<nat>): nat {
    if blocks == [] then 0 else Via(code, blocks[0])
  }

  /** What the link of the `i`-th block of a chain is: the next block as stored, or `end`. */
  function LinkOf(code: Code, blocks: seq<nat>, i: nat, end: nat): nat {
    if i + 1 < |blocks| then Via(code, blocks[i + 1]) else end
  }

  function RawLinkOf(blocks: seq<nat>, i: nat, end: nat): nat {
    if i + 1 < |blocks| then blocks[i + 1] else end
  }

  /** The stored link of each block leads to the next one; the last link is `end`. */
  ghost predicate Linked(next: map<nat, nat>, blocks: seq<nat>, code: Code, end: nat) {
    && (forall i :: 0 <= i < |blocks| ==> blocks[i] in next)
    && (forall i {:trigger next[blocks[i]]} :: 0 <= i < |blocks| ==> next[blocks[i]] == LinkOf(code, blocks, i, end))
  }

  /** The same, with links stored as they are. */
  ghost predicate RawLinked(next: map<nat, nat>, blocks: seq<nat>, end: nat) {
    && (forall i :: 0 <= i < |blocks| ==> blocks[i] in next)
    && (forall i {:trigger next[blocks[i]]} :: 0 <= i < |blocks| ==> next[blocks[i]] == RawLinkOf(blocks, i, end))
  }

  /** `head` is the stored head of the list `blocks`. */
  ghost predicate IsList(next: map<nat, nat>, head: nat, blocks: seq<nat>, code: Code) {
    && head == First(code, blocks) && Linked(next, blocks, code, 0)
    && Distinct(blocks) && Usable(code, blocks)
  }

  /** The links of blocks outside `changed` are as they were. */
  ghost predicate SameExcept(next: map<nat, nat>, next': map<nat, nat>, changed: seq<nat>) {
    && (forall b :: b in next ==> b in next')
    && (forall b :: b in next && b !in changed ==> next'[b] == next[b])
  }


  /** A list none of whose blocks was touched is still the same list. */
  lemma ListKept(next: map<nat, nat>, next': map<nat, nat>, changed: seq<nat>, head: nat, blocks: seq<nat>, code: Code)
    requires IsList(next, head, blocks, code) && SameExcept(next, next', changed) && Apart(blocks, changed)
    ensures IsList(next', head, blocks, code)
  {
    assert forall i :: 0 <= i < |blocks| ==> blocks[i] in blocks;
  }

  /** Putting a linked chain in front of a list: the chain's last link becomes the old head. */
  lemma PrependList(next: map<nat, nat>, head: nat, blocks: seq<nat>, chain: seq<nat>, code: Code)
    requires chain != [] && Linked(next, chain, code, head) && IsList(next, head, blocks, code)
    requires Distinct(chain) && Apart(chain, blocks) && Usable(code, chain)
    ensures IsList(next, Via(code, chain[0]), chain + blocks, code)
  {
    var all := chain + blocks;
    forall i {:trigger next[all[i]]} | 0 <= i < |all|
      ensures all[i] in next && next[all[i]] == LinkOf(code, all, i, 0)
    {
      if i < |chain| {
        assert next[chain[i]] == LinkOf(code, chain, i, head);
      } else {
        assert next[blocks[i - |chain|]] == LinkOf(code, blocks, i - |chain|, 0);
      }
    }
    assert forall i :: 0 <= i < |chain| ==> chain[i] in chain;
    assert forall i :: 0 <= i < |blocks| ==> blocks[i] in blocks;
  }

  /** Cutting a list after `n` blocks leaves a list and a chain that ends in the new head. */
  lemma CutList(next: map<nat, nat>, head: nat, blocks: seq<nat>, n: nat, code: Code)
    requires IsList(next, head, blocks, code) && n <= |blocks|
    ensures IsList(next, First(code, blocks[n..]), blocks[n..], code)
    ensures Linked(next, blocks[..n], code, First(code, blocks[n..]))
    ensures Distinct(blocks[..n]) && Apart(blocks[..n], blocks[n..]) && Usable(code, blocks[..n])
  {
    var front, back := blocks[..n], blocks[n..];
    forall i {:trigger next[front[i]]} | 0 <= i < |front|
      ensures front[i] in next && next[front[i]] == LinkOf(code, front, i, First(code, back))
    {
      assert next[blocks[i]] == LinkOf(code, blocks, i, 0);
    }
    forall i {:trigger next[back[i]]} | 0 <= i < |back|
      ensures back[i] in next && next[back[i]] == LinkOf(code, back, i, 0)
    {
      assert next[blocks[n + i]] == LinkOf(code, blocks, n + i, 0);
    }
    forall b | b in front || b in back
      ensures b in blocks
    {
    }
  }

  /** A list is empty exactly when its head is null; otherwise the head leads to the first block, and its
      link is the head of the rest. */
  lemma ListHead(next: map<nat, nat>, head: nat, blocks: seq<nat>, code: Code)
    requires IsList(next, head, blocks, code)
    ensures head == 0 <==> blocks == []
    ensures blocks != [] ==> Via(code, head) == blocks[0] && blocks[0] in next
    ensures blocks != [] ==> next[blocks[0]] == First(code, blocks[1..])
    ensures blocks != [] ==> IsList(next, First(code, blocks[1..]), blocks[1..], code)
  {
    if blocks != [] {
      assert blocks[0] in blocks;
      CutList(next, head, blocks, 1, code);
      assert next[blocks[0]] == LinkOf(code, blocks, 0, 0);
    }
  }

  /** Without hardening, a stored chain is a raw chain. */
  lemma PlainIsRaw(next: map<nat, nat>, blocks: seq<nat>, end: nat)
    ensures Linked(next, blocks, PLAIN, end) <==> RawLinked(next, blocks, end)
  {
    assert forall i: nat :: i < |blocks| ==> LinkOf(PLAIN, blocks, i, end) == RawLinkOf(blocks, i, end);
  }

  /** Overwriting the last link of a chain. */
  lemma LastRelinked(next: map<nat, nat>, blocks: seq<nat>, code: Code, end: nat, end': nat)
    requires blocks != [] && Distinct(blocks) && Linked(next, blocks, code, end)
    ensures Linked(next[blocks[|blocks| - 1] := end'], blocks, code, end')
  {
  }

  lemma RawLastRelinked(next: map<nat, nat>, blocks: seq<nat>, end: nat, end': nat)
    requires blocks != [] && Distinct(blocks) && RawLinked(next, blocks, end)
    ensures RawLinked(next[blocks[|blocks| - 1] := end'], blocks, end')
  {
  }

  // ------------------------------------------------------------------ rewriting links

  /** The first `n` links have been encoded, the others are as they were. */
  ghost predicate Encoded(next: map<nat, nat>, next': map<nat, nat>, blocks: seq<nat>, code: Code, n: nat, end: nat) {
    && (forall j :: 0 <= j < |blocks| ==> blocks[j] in next && blocks[j] in next')
    && (forall j {:trigger next'[blocks[j]]} :: 0 <= j < |blocks| ==>
          next'[blocks[j]] == if j < n then LinkOf(code, blocks, j, end) else next[blocks[j]])
  }

  /** The first `n` links have been decoded, the others are as they were. */
  ghost predicate Decoded(next: map<nat, nat>, next': map<nat, nat>, blocks: seq<nat>, n: nat, end: nat) {
    && (forall j :: 0 <= j < |blocks| ==> blocks[j] in next && blocks[j] in next')
    && (forall j {:trigger next'[blocks[j]]} :: 0 <= j < |blocks| ==>
          next'[blocks[j]] == if j < n then RawLinkOf(blocks, j, end) else next[blocks[j]])
  }

  lemma EncodeStep(next: map<nat, nat>, next': map<nat, nat>, blocks: seq<nat>, code: Code, n: nat, end: nat)
    requires n + 1 < |blocks| && Distinct(blocks) && Encoded(next, next', blocks, code, n, end)
    requires RawLinked(next, blocks, end)
    ensures blocks[n] in next' && next'[blocks[n]] == blocks[n + 1]
    ensures Encoded(next, next'[blocks[n] := Via(code, blocks[n + 1])], blocks, code, n + 1, end)
  {
  }

  lemma DecodeStep(next: map<nat, nat>, next': map<nat, nat>, blocks: seq<nat>, code: Code, n: nat, end: nat)
    requires n + 1 < |blocks| && Distinct(blocks) && Decoded(next, next', blocks, n, end)
    requires Linked(next, blocks, code, end) && Usable(code, blocks)
    ensures blocks[n] in next' && Via(code, next'[blocks[n]]) == blocks[n + 1]
    ensures Decoded(next, next'[blocks[n] := blocks[n + 1]], blocks, n + 1, end)
  {
    assert blocks[n + 1] in blocks;
  }

  lemma LoadStep(next: map<nat, nat>, next': map<nat, nat>, blocks: seq<nat>, code: Code, n: nat)
    requires n < |blocks| && Distinct(blocks) && Decoded(next, next', blocks, n, 0)
    requires Linked(next, blocks, code, 0) && Usable(code, blocks)
    ensures blocks[n] in next' && Via(code, next'[blocks[n]]) == RawLinkOf(blocks, n, 0)
    ensures RawLinkOf(blocks, n, 0) == 0 <==> n + 1 == |blocks|
    ensures Decoded(next, next'[blocks[n] := RawLinkOf(blocks, n, 0)], blocks, n + 1, 0)
  {
    assert n + 1 < |blocks| ==> blocks[n + 1] in blocks;
  }

  lemma EncodeDone(next: map<nat, nat>, next': map<nat, nat>, blocks: seq<nat>, code: Code, end: nat)
    requires blocks != [] && Encoded(next, next', blocks, code, |blocks| - 1, end) && RawLinked(next, blocks, end)
    ensures Linked(next', blocks, code, end)
  {
  }

  lemma DecodeDone(next: map<nat, nat>, next': map<nat, nat>, blocks: seq<nat>, code: Code, end: nat)
    requires blocks != [] && Decoded(next, next', blocks, |blocks| - 1, end) && Linked(next, blocks, code, end)
    ensures RawLinked(next', blocks, end)
  {
  }

  class Memory {
    /** The link stored in the header of each carved block. */
    var next: map<nat, nat>

    constructor ()
      ensures next == map[]
    {
      next := map[];
    }

    /** Encode the links from `head` up to, but not including, that of `tail`. */
    method Encode(head: nat, tail: nat, code: Code, ghost blocks: seq<nat>, ghost end: nat)
      requires blocks != [] && head == blocks[0] && tail == blocks[|blocks| - 1]
      requires Distinct(blocks) && RawLinked(next, blocks, end)
      modifies this
      ensures Linked(next, blocks, code, end) && SameExcept(old(next), next, blocks)
    {
      var curr := head;
      ghost var i := 0;
      while curr != tail
        invariant 0 <= i < |blocks| && curr == blocks[i]
        invariant SameExcept(old(next), next, blocks) && Encoded(old(next), next, blocks, code, i, end)
        decreases |blocks| - i
      {
        EncodeStep(old(next), next, blocks, code, i, end);
        var raw := next[curr];
        next := next[curr := Via(code, raw)];
        curr := raw;
        i := i + 1;
      }
      assert i == |blocks| - 1;
      EncodeDone(old(next), next, blocks, code, end);
    }

    /** Decode the links from `head` up to, but not including, that of `tail`. */
    method Decode(head: nat, tail: nat, code: Code, ghost blocks: seq<nat>, ghost end: nat)
      requires blocks != [] && head == blocks[0] && tail == blocks[|blocks| - 1]
      requires Distinct(blocks) && Usable(code, blocks) && Linked(next, blocks, code, end)
      modifies this
      ensures RawLinked(next, blocks, end) && SameExcept(old(next), next, blocks)
    {
      var curr := head;
      ghost var i := 0;
      while curr != tail
        invariant 0 <= i < |blocks| && curr == blocks[i]
        invariant SameExcept(old(next), next, blocks) && Decoded(old(next), next, blocks, i, end)
        decreases |blocks| - i
      {
        DecodeStep(old(next), next, blocks, code, i, end);
        var raw := Via(code, next[curr]);
        next := next[curr := raw];
        curr := raw;
        i := i + 1;
      }
      assert i == |blocks| - 1;
      DecodeDone(old(next), next, blocks, code, end);
    }

    /** Store a raw chain under `code`; without hardening there is nothing to do. */
    method Store(head: nat, tail: nat, code: Code, hardened: bool, ghost blocks: seq<nat>, ghost end: nat)
      requires blocks != [] && head == blocks[0] && tail == blocks[|blocks| - 1] && (hardened || code == PLAIN)
      requires Distinct(blocks) && RawLinked(next, blocks, end)
      modifies this
      ensures Linked(next, blocks, code, end) && SameExcept(old(next), next, blocks)
    {
      if hardened {
        Encode(head, tail, code, blocks, end);
      } else {
        PlainIsRaw(next, blocks, end);
      }
    }

    /** Read a chain stored under `code` back. */
    method Load(head: nat, tail: nat, code: Code, hardened: bool, ghost blocks: seq<nat>, ghost end: nat)
      requires blocks != [] && head == blocks[0] && tail == blocks[|blocks| - 1] && (hardened || code == PLAIN)
      requires Distinct(blocks) && Usable(code, blocks) && Linked(next, blocks, code, end)
      modifies this
      ensures RawLinked(next, blocks, end) && SameExcept(old(next), next, blocks)
    {
      if hardened {
        Decode(head, tail, code, blocks, end);
      } else {
        PlainIsRaw(next, blocks, end);
      }
    }

    /** Read back a whole list that ends in null, as thread exit does: the last block is found on the way. */
    method LoadAll(head: nat, code: Code, ghost blocks: seq<nat>) returns (first: nat, tail: nat, count: nat)
      requires blocks != [] && IsList(next, head, blocks, code)
      modifies this
      ensures first == blocks[0] && tail == blocks[|blocks| - 1] && count == |blocks|
      ensures RawLinked(next, blocks, 0) && SameExcept(old(next), next, blocks)
    {
      ListHead(next, head, blocks, code);
      first := Via(code, head);
      tail, count := first, 1;
      ghost var i := 0;
      while true
        invariant 0 <= i < |blocks| && tail == blocks[i] && count == i + 1
        invariant SameExcept(old(next), next, blocks) && Decoded(old(next), next, blocks, i, 0)
        decreases |blocks| - i
      {
        LoadStep(old(next), next, blocks, code, i);
        var raw := Via(code, next[tail]);
        next := next[tail := raw];
        if raw == 0 {
          break;
        }
        tail, count, i := raw, count + 1, i + 1;
      }
    }

    /** Find the end of a raw chain of at most `batch` blocks, and how many there are. */
    method FindTail(head: nat, batch: nat, ghost chain: seq<nat>) returns (tail: nat, got: nat)
      requires chain != [] && head == chain[0] && |chain| <= batch && RawLinked(next, chain, 0)
      requires forall b :: b in chain ==> b != 0
      ensures got == |chain| && tail == chain[got - 1] && tail in next && next[tail := 0] == next
    {
      tail, got := head, 1;
      while got < batch && next[tail] != 0
        invariant 1 <= got <= |chain| && tail == chain[got - 1]
      {
        assert next[chain[got - 1]] == RawLinkOf(chain, got - 1, 0);
        tail, got := next[tail], got + 1;
      }
      assert next[chain[got - 1]] == RawLinkOf(chain, got - 1, 0);
      assert forall i :: 0 <= i < |chain| ==> chain[i] in chain;
    }
  }
}
