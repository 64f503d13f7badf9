/** What trimming takes and what it frees, on the lists of one class and on the numbers of blocks of all classes. */
module TrimPlans {
  import opened Wrappers

  const TRIM_BATCH := 16

  // ------------------------------------------------------------------ which shard

  /** Blocks are taken from shard `p`: it has some, and no shard before it does, going up from that of `cpu`. */
  ghost predicate TakesFrom(lists: seq<seq<nat>>, cpu: nat, p: nat) {
    && p < |lists| && lists[p] != []
    && forall q: nat :: q < |lists| && Ahead(cpu, q, |lists|) < Ahead(cpu, p, |lists|) ==> lists[q] == []
  }

  lemma TakesFromOne(lists: seq<seq<nat>>, cpu: nat, p: nat, q: nat)
    requires cpu < |lists| && TakesFrom(lists, cpu, p) && TakesFrom(lists, cpu, q)
    ensures p == q
  {
    assert Ahead(cpu, p, |lists|) != Ahead(cpu, q, |lists|) || p == q;
  }

  lemma {:induction false} SomeTakes(lists: seq<seq<nat>>, cpu: nat, q: nat)
    requires cpu < |lists| && q < |lists| && lists[q] != []
    ensures exists p: nat :: TakesFrom(lists, cpu, p)
    decreases Ahead(cpu, q, |lists|)
  {
    if !TakesFrom(lists, cpu, q) {
      var r: nat :| r < |lists| && Ahead(cpu, r, |lists|) < Ahead(cpu, q, |lists|) && lists[r] != [];
      SomeTakes(lists, cpu, r);
    }
  }

  /** The shard that blocks are taken from, if any has some. */
  ghost function Source(lists: seq<seq<nat>>, cpu: nat): Option<nat> {
    if exists p: nat :: TakesFrom(lists, cpu, p) then
      var p: nat :| TakesFrom(lists, cpu, p);
      Some(p)
    else None
  }

  lemma SourceIs(lists: seq<seq<nat>>, cpu: nat, p: nat)
    requires cpu < |lists| && TakesFrom(lists, cpu, p)
    ensures Source(lists, cpu) == Some(p)
  {
    TakesFromOne(lists, cpu, p, Source(lists, cpu).value);
  }

  // ------------------------------------------------------------------ one batch

  /** The blocks of a chain that are aged, or those that are not, the last one first. */
  ghost function Picked(chain: seq<nat>, aged: set<nat>, old_: bool): seq<nat> {
    if chain == [] then [] else Picked(chain[1..], aged, old_) + if (chain[0] in aged) == old_ then [chain[0]] else []
  }

  lemma {:induction false} PickedIs(chain: seq<nat>, aged: set<nat>, old_: bool, b: nat)
    ensures b in Picked(chain, aged, old_) <==> b in chain && (b in aged) == old_
    decreases |chain|
  {
    if chain != [] {
      PickedIs(chain[1..], aged, old_, b);
      assert chain == [chain[0]] + chain[1..];
    }
  }

  lemma {:induction false} PickedAll(chain: seq<nat>, aged: set<nat>, old_: bool)
    requires forall b :: b in chain ==> (b in aged) == old_
    ensures |Picked(chain, aged, old_)| == |chain| && Picked(chain, aged, !old_) == []
    decreases |chain|
  {
    if chain != [] {
      assert forall b :: b in chain[1..] ==> b in chain;
      PickedAll(chain[1..], aged, old_);
      assert chain[0] in chain;
    }
  }

  lemma {:induction false} PickedNext(chain: seq<nat>, aged: set<nat>, old_: bool, b: nat)
    ensures Picked(chain + [b], aged, old_) == (if (b in aged) == old_ then [b] else []) + Picked(chain, aged, old_)
    decreases |chain|
  {
    if chain == [] {
      assert chain + [b] == [b] && [b][1..] == [];
    } else {
      PickedNext(chain[1..], aged, old_, b);
      assert (chain + [b])[1..] == chain[1..] + [b];
    }
  }

  /** The blocks that are taken next. */
  ghost function Batch(lists: seq<seq<nat>>, p: nat): seq<nat>
    requires p < |lists|
  {
    lists[p][..Min(TRIM_BATCH, |lists[p]|)]
  }

  /** Blocks come to lie in front of those of a shard. */
  ghost function OnTop(lists: seq<seq<nat>>, cpu: nat, blocks: seq<nat>): seq<seq<nat>>
    requires cpu < |lists|
  {
    lists[cpu := blocks + lists[cpu]]
  }

  /** The same blocks, the last one first. */
  ghost function Backwards(blocks: seq<nat>): seq<nat> {
    if blocks == [] then [] else [blocks[|blocks| - 1]] + Backwards(blocks[..|blocks| - 1])
  }

  lemma OnTopNone(lists: seq<seq<nat>>, cpu: nat, blocks: seq<nat>)
    requires cpu < |lists|
    ensures OnTop(lists, cpu, Backwards(blocks[..0])) == lists
  {
    assert blocks[..0] == [] && [] + lists[cpu] == lists[cpu];
  }

  /** Blocks that are put on a shard one by one lie there the last one first. */
  lemma OnTopNext(lists: seq<seq<nat>>, cpu: nat, blocks: seq<nat>, n: nat)
    requires cpu < |lists| && n < |blocks|
    ensures OnTop(OnTop(lists, cpu, Backwards(blocks[..n])), cpu, [blocks[n]]) ==
      OnTop(lists, cpu, Backwards(blocks[..n + 1]))
  {
    assert blocks[..n + 1][..n] == blocks[..n];
    assert [blocks[n]] + (Backwards(blocks[..n]) + lists[cpu]) == [blocks[n]] + Backwards(blocks[..n]) + lists[cpu];
  }

  /** One batch: the lists afterwards and the blocks kept in hand. Those that are not aged go to the shard of `cpu`. */
  ghost function Round(lists: seq<seq<nat>>, cpu: nat, aged: set<nat>): (seq<seq<nat>>, seq<nat>)
    requires cpu < |lists|
  {
    match Source(lists, cpu)
    case None => (lists, [])
    case Some(p) => RoundFrom(lists, cpu, aged, p)
  }

  ghost function RoundFrom(lists: seq<seq<nat>>, cpu: nat, aged: set<nat>, p: nat): (seq<seq<nat>>, seq<nat>)
    requires cpu < |lists| && p < |lists|
  {
    var batch := Batch(lists, p);
    var left := lists[p := lists[p][|batch|..]];
    (OnTop(left, cpu, Picked(batch, aged, false)), Picked(batch, aged, true))
  }

  /** Batch after batch: the lists afterwards and all blocks kept in hand. */
  ghost function Rounds(lists: seq<seq<nat>>, cpu: nat, aged: set<nat>, n: nat): (r: (seq<seq<nat>>, seq<nat>))
    requires cpu < |lists|
    ensures |r.0| == |lists|
  {
    if n == 0 then (lists, [])
    else
      var (before, held) := Rounds(lists, cpu, aged, n - 1);
      var (after, more) := Round(before, cpu, aged);
      (after, more + held)
  }

  /** When the shards have nothing left, more batches change nothing. */
  lemma {:induction false} RoundsEnd(lists: seq<seq<nat>>, cpu: nat, aged: set<nat>, n: nat, more: nat)
    requires cpu < |lists| && n <= more && Source(Rounds(lists, cpu, aged, n).0, cpu).None?
    ensures Rounds(lists, cpu, aged, more) == Rounds(lists, cpu, aged, n)
    decreases more
  {
    if n < more {
      RoundsEnd(lists, cpu, aged, n, more - 1);
      var (after, held) := Rounds(lists, cpu, aged, n);
      assert [] + held == held;
    }
  }

  // ------------------------------------------------------------------ how much is collected

  ghost function Total(lists: seq<seq<nat>>): nat {
    if lists == [] then 0 else Total(lists[..|lists| - 1]) + |lists[|lists| - 1]|
  }

  ghost function Empties(lists: seq<seq<nat>>): nat {
    if lists == [] then 0 else Empties(lists[..|lists| - 1]) + if lists[|lists| - 1] == [] then 1 else 0
  }

  lemma {:induction false} Replaced(lists: seq<seq<nat>>, p: nat, s: seq<nat>)
    requires p < |lists|
    ensures Total(lists[p := s]) == Total(lists) - |lists[p]| + |s|
    ensures Empties(lists[p := s]) ==
      Empties(lists) - (if lists[p] == [] then 1 else 0) + (if s == [] then 1 else 0)
    decreases |lists|
  {
    var n := |lists| - 1;
    if p < n {
      Replaced(lists[..n], p, s);
      assert lists[p := s][..n] == lists[..n][p := s];
    } else {
      assert lists[p := s][..n] == lists[..n];
    }
  }

  lemma {:induction false} Measured(lists: seq<seq<nat>>)
    ensures Empties(lists) <= |lists|
    ensures Total(lists) == 0 <==> forall p :: 0 <= p < |lists| ==> lists[p] == []
    ensures Empties(lists) == |lists| ==> Total(lists) == 0
    decreases |lists|
  {
    if lists != [] {
      var n := |lists| - 1;
      Measured(lists[..n]);
      assert forall p :: 0 <= p < n ==> lists[..n][p] == lists[p];
    }
  }

  ghost predicate AllAged(lists: seq<seq<nat>>, aged: set<nat>) {
    forall p, b :: 0 <= p < |lists| && b in lists[p] ==> b in aged
  }

  /** A batch leaves a shard: it is a whole one, or all that the shard has. */
  lemma BatchLeaves(lists: seq<seq<nat>>, p: nat, aged: set<nat>)
    requires p < |lists| && lists[p] != [] && AllAged(lists, aged)
    ensures
      var batch := Batch(lists, p);
      var left := lists[p := lists[p][|batch|..]];
      && AllAged(left, aged) && (forall b :: b in batch ==> b in aged)
      && Total(left) + |batch| == Total(lists) && 0 < |batch| <= TRIM_BATCH
      && |batch| + 15 * (Empties(left) - Empties(lists)) >= TRIM_BATCH
  {
    var batch := Batch(lists, p);
    var rest := lists[p][|batch|..];
    Replaced(lists, p, rest);
    forall b | b in batch || b in rest
      ensures b in lists[p]
    {
    }
  }

  lemma HasSource(lists: seq<seq<nat>>, cpu: nat)
    requires cpu < |lists|
    ensures Source(lists, cpu).Some? <==> Total(lists) != 0
  {
    Measured(lists);
    if Total(lists) != 0 {
      var q :| 0 <= q < |lists| && lists[q] != [];
      SomeTakes(lists, cpu, q);
    }
  }

  /** A batch of aged blocks is kept as it is. */
  lemma AgedRoundFrom(lists: seq<seq<nat>>, cpu: nat, aged: set<nat>, p: nat)
    requires cpu < |lists| && p < |lists| && forall b :: b in Batch(lists, p) ==> b in aged
    ensures
      var batch := Batch(lists, p);
      var (after, more) := RoundFrom(lists, cpu, aged, p);
      after == lists[p := lists[p][|batch|..]] && |more| == |batch|
  {
    var batch := Batch(lists, p);
    PickedAll(batch, aged, true);
    var left := lists[p := lists[p][|batch|..]];
    assert [] + left[cpu] == left[cpu];
  }

  lemma AgedRound(lists: seq<seq<nat>>, cpu: nat, aged: set<nat>)
    requires cpu < |lists| && AllAged(lists, aged)
    ensures
      var (after, more) := Round(lists, cpu, aged);
      && AllAged(after, aged) && |after| == |lists| && Total(after) + |more| == Total(lists) && |more| <= TRIM_BATCH
      && (Total(lists) != 0 ==> |more| != 0 && |more| + 15 * (Empties(after) - Empties(lists)) >= TRIM_BATCH)
  {
    HasSource(lists, cpu);
    if Source(lists, cpu).Some? {
      var p := Source(lists, cpu).value;
      BatchLeaves(lists, p, aged);
      AgedRoundFrom(lists, cpu, aged, p);
    }
  }

  lemma {:induction false} AgedRounds(lists: seq<seq<nat>>, cpu: nat, aged: set<nat>, n: nat)
    requires cpu < |lists| && AllAged(lists, aged)
    ensures
      var (after, held) := Rounds(lists, cpu, aged, n);
      && AllAged(after, aged) && Total(after) + |held| == Total(lists) && |held| <= TRIM_BATCH * n
      && (Total(after) != 0 ==>
            |held| >= n && |held| + 15 * (Empties(after) - Empties(lists)) >= TRIM_BATCH * n)
  {
    if n > 0 {
      AgedRounds(lists, cpu, aged, n - 1);
      AgedRound(Rounds(lists, cpu, aged, n - 1).0, cpu, aged);
    }
  }

  /** If all blocks are aged, the batches are full but for the last one of each shard: with one shard, what is collected
      is all but an incomplete batch. */
  lemma CollectsAged(lists: seq<seq<nat>>, cpu: nat, aged: set<nat>)
    requires cpu < |lists| && AllAged(lists, aged)
    ensures
      var n := Total(lists) / TRIM_BATCH;
      var held := Rounds(lists, cpu, aged, n).1;
      n <= |held| <= TRIM_BATCH * n <= |held| + 15 * (|lists| - 1)
  {
    var n := Total(lists) / TRIM_BATCH;
    var (after, held) := Rounds(lists, cpu, aged, n);
    AgedRounds(lists, cpu, aged, n);
    Measured(after);
    Measured(lists);
  }

  ghost predicate OnSome(lists: seq<seq<nat>>, b: nat) {
    exists p: nat :: p < |lists| && b in lists[p]
  }

  /** What is in hand, or on a shard, was on a shard. */
  lemma {:induction false} FromShards(lists: seq<seq<nat>>, cpu: nat, aged: set<nat>, n: nat, b: nat)
    requires cpu < |lists|
    requires b in Rounds(lists, cpu, aged, n).1 || OnSome(Rounds(lists, cpu, aged, n).0, b)
    ensures OnSome(lists, b)
  {
    if n > 0 {
      var (before, held) := Rounds(lists, cpu, aged, n - 1);
      if b !in held {
        RoundKeeps(before, cpu, aged, b);
      }
      FromShards(lists, cpu, aged, n - 1, b);
    }
  }

  lemma RoundKeeps(lists: seq<seq<nat>>, cpu: nat, aged: set<nat>, b: nat)
    requires cpu < |lists|
    requires
      var (after, more) := Round(lists, cpu, aged);
      b in more || OnSome(after, b)
    ensures OnSome(lists, b)
  {
    if Source(lists, cpu).Some? {
      var p := Source(lists, cpu).value;
      var batch := Batch(lists, p);
      PickedIs(batch, aged, true, b);
      PickedIs(batch, aged, false, b);
      if b !in batch {
        var (after, more) := Round(lists, cpu, aged);
        var q: nat :| q < |after| && b in after[q];
        assert b in lists[q];
      }
    }
  }

  // ------------------------------------------------------------------ when nothing is collected

  ghost predicate Young(chain: seq<nat>, aged: set<nat>) {
    forall b :: b in chain ==> b !in aged
  }

  /** The blocks that will be taken are on the shard of `cpu`, and none is aged. */
  ghost predicate Stuck(lists: seq<seq<nat>>, cpu: nat, aged: set<nat>)
    requires cpu < |lists|
  {
    lists[cpu] != [] && Young(Batch(lists, cpu), aged)
  }

  /** A batch without aged blocks comes to lie where the next batch is taken from. */
  lemma YoungRound(lists: seq<seq<nat>>, cpu: nat, aged: set<nat>)
    requires cpu < |lists| && Source(lists, cpu).Some? && Young(Batch(lists, Source(lists, cpu).value), aged)
    ensures
      var (after, more) := Round(lists, cpu, aged);
      |after| == |lists| && more == [] && Stuck(after, cpu, aged)
  {
    var p := Source(lists, cpu).value;
    var batch := Batch(lists, p);
    var push := Picked(batch, aged, false);
    PickedAll(batch, aged, false);
    var after := Round(lists, cpu, aged).0;
    if p != cpu {
      assert Ahead(cpu, cpu, |lists|) < Ahead(cpu, p, |lists|);
      assert after[cpu] == push;
    } else {
      assert after[cpu] == push + lists[cpu][|batch|..];
    }
    assert Batch(after, cpu) == push;
    forall b | b in push
      ensures b !in aged
    {
      PickedIs(batch, aged, false, b);
    }
  }

  lemma {:induction false} StuckRounds(lists: seq<seq<nat>>, cpu: nat, aged: set<nat>, n: nat)
    requires cpu < |lists| && 0 < n
    requires Source(lists, cpu).Some? && Young(Batch(lists, Source(lists, cpu).value), aged)
    ensures
      var (after, held) := Rounds(lists, cpu, aged, n);
      held == [] && Stuck(after, cpu, aged)
  {
    if n == 1 {
      assert Rounds(lists, cpu, aged, 0) == (lists, []);
      YoungRound(lists, cpu, aged);
    } else {
      StuckRounds(lists, cpu, aged, n - 1);
      var before := Rounds(lists, cpu, aged, n - 1).0;
      assert TakesFrom(before, cpu, cpu);
      SourceIs(before, cpu, cpu);
      YoungRound(before, cpu, aged);
    }
  }

  lemma {:induction false} FirstRoundStays(lists: seq<seq<nat>>, cpu: nat, aged: set<nat>, n: nat)
    requires cpu < |lists| && 0 < n
    ensures |Round(lists, cpu, aged).1| <= |Rounds(lists, cpu, aged, n).1|
  {
    if n == 1 {
      assert Rounds(lists, cpu, aged, 0) == (lists, []);
    } else {
      FirstRoundStays(lists, cpu, aged, n - 1);
    }
  }

  /** However many batches are taken, nothing is collected exactly if the first has no aged block: its blocks go back to
      where the next batch is taken from. Aged blocks behind them are not reached. */
  lemma CollectsNothingIff(lists: seq<seq<nat>>, cpu: nat, aged: set<nat>, n: nat)
    requires cpu < |lists| && 0 < n
    ensures
      var held, from := Rounds(lists, cpu, aged, n).1, Source(lists, cpu);
      held == [] <==> from.None? || Young(Batch(lists, from.value), aged)
  {
    var from := Source(lists, cpu);
    if from.None? {
      RoundsEnd(lists, cpu, aged, 0, n);
    } else if Young(Batch(lists, from.value), aged) {
      StuckRounds(lists, cpu, aged, n);
    } else {
      var b :| b in Batch(lists, from.value) && b in aged;
      PickedIs(Batch(lists, from.value), aged, true, b);
      FirstRoundStays(lists, cpu, aged, n);
    }
  }

  /** 16 blocks that are not aged keep an aged one from being collected. */
  lemma AgedBehindYoung(n: nat)
    ensures
      var young := seq(16, i requires 0 <= i => i + 1);
      Rounds([young + [17]], 0, {17}, n).1 == []
  {
    var young := seq(16, i requires 0 <= i => i + 1);
    var lists := [young + [17]];
    assert TakesFrom(lists, 0, 0);
    SourceIs(lists, 0, 0);
    assert Batch(lists, 0) == young;
    if n > 0 {
      CollectsNothingIff(lists, 0, {17}, n);
    }
  }

  // ------------------------------------------------------------------ how much is freed

  /** How many of `n` blocks are released: all of them if there is no goal or memory is short, otherwise as many as it
      takes to pass the goal. */
  ghost function Released(freed: nat, n: nat, size: nat, pad: nat, force: bool): (r: nat)
    requires 0 < size
    ensures r <= n
  {
    if pad == 0 || force then n else if freed > pad then 0 else Min(n, (pad - freed) / size + 1)
  }

  /** The next block is released, and all before it were, exactly if the goal has not been passed. */
  lemma ReleasedNext(freed: nat, n: nat, size: nat, pad: nat, force: bool)
    requires 0 < size
    ensures
      var r := Released(freed, n, size, pad, force);
      var next := Released(freed, n + 1, size, pad, force);
      if freed + size * r <= pad || pad == 0 || force then r == n && next == n + 1 else next == r
  {
    if !(pad == 0 || force) && freed <= pad {
      var most := (pad - freed) / size;
      Quotient(pad - freed, size);
      if n <= most {
        assert size * n <= size * most;
      } else {
        assert size * (most + 1) == most * size + size;
      }
    }
  }

  /** What is freed from class `c` on, if `blocks` are collected of each class. */
  ghost function FreedFrom(sizes: seq<nat>, blocks: seq<nat>, c: nat, freed: nat, pad: nat, force: bool): nat
    requires c <= |blocks| <= |sizes| && forall i :: 0 <= i < |sizes| ==> 0 < sizes[i]
    decreases |blocks| - c
  {
    if c == |blocks| || (freed >= pad && pad != 0) then freed
    else
      FreedFrom(sizes, blocks, c + 1, freed + sizes[c] * Released(freed, blocks[c], sizes[c], pad, force), pad, force)
  }

  /** What the blocks collected from class `c` on amount to. */
  ghost function Worth(sizes: seq<nat>, blocks: seq<nat>, c: nat): nat
    requires c <= |blocks| <= |sizes|
    decreases |blocks| - c
  {
    if c == |blocks| then 0 else sizes[c] * blocks[c] + Worth(sizes, blocks, c + 1)
  }

  /** Of one class no more is freed than was collected: all of it if nothing forbids, and otherwise more than the
      goal. */
  lemma ReleasedBounds(freed: nat, n: nat, size: nat, pad: nat, force: bool)
    requires 0 < size
    ensures
      var r := Released(freed, n, size, pad, force);
      && size * r <= size * n && (pad == 0 || force ==> r == n)
      && (r == n || freed + size * r > pad)
  {
    var r := Released(freed, n, size, pad, force);
    if !(pad == 0 || force) && freed <= pad {
      Quotient(pad - freed, size);
      assert r <= n;
      assert size * r <= size * n;
      if r != n {
        assert size * r == (pad - freed) / size * size + size;
      }
    }
  }

  /** Without a goal everything that was collected is freed. With one, it is reached exactly if what was collected
      amounts to it. */
  lemma {:induction false} FreedIs(sizes: seq<nat>, blocks: seq<nat>, c: nat, freed: nat, pad: nat, force: bool)
    requires c <= |blocks| <= |sizes| && forall i :: 0 <= i < |sizes| ==> 0 < sizes[i]
    ensures
      var all, total := freed + Worth(sizes, blocks, c), FreedFrom(sizes, blocks, c, freed, pad, force);
      freed <= total <= all && (pad == 0 ==> total == all) && (total >= pad <==> all >= pad)
    decreases |blocks| - c
  {
    if c < |blocks| && !(freed >= pad && pad != 0) {
      var r := Released(freed, blocks[c], sizes[c], pad, force);
      ReleasedBounds(freed, blocks[c], sizes[c], pad, force);
      FreedIs(sizes, blocks, c + 1, freed + sizes[c] * r, pad, force);
    }
  }

  /** Short of memory, whole classes are freed until the goal is reached. */
  lemma {:induction false} FreedByForce(sizes: seq<nat>, blocks: seq<nat>, c: nat, freed: nat, pad: nat)
    returns (d: nat)
    requires c <= |blocks| <= |sizes| && forall i :: 0 <= i < |sizes| ==> 0 < sizes[i]
    ensures c <= d <= |blocks|
    ensures FreedFrom(sizes, blocks, c, freed, pad, true) == freed + Worth(sizes, blocks, c) - Worth(sizes, blocks, d)
    ensures d == |blocks| || (pad != 0 && FreedFrom(sizes, blocks, c, freed, pad, true) >= pad)
    decreases |blocks| - c
  {
    d := c;
    if c < |blocks| && !(freed >= pad && pad != 0) {
      d := FreedByForce(sizes, blocks, c + 1, freed + sizes[c] * blocks[c], pad);
    }
  }
}
