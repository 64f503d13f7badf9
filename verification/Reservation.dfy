/** How a new segment's address space is obtained: ask the kernel for the largest size, and halve the
    request every time the kernel refuses, down to one 4 GiB chunk. */
module Reservations {
  import opened Wrappers
  import opened Radixes

  const MIN_RESERVE := CHUNK_SIZE

  /** One chunk doubled some number of times. */
  ghost predicate Chunky(n: int) {
    n == CHUNK_SIZE || (CHUNK_SIZE < n && n % 2 == 0 && Chunky(n / 2))
  }

  lemma {:induction false} ChunkyPositive(n: int)
    requires Chunky(n)
    ensures CHUNK_SIZE <= n && n % 4096 == 0
  {
    if n != CHUNK_SIZE {
      ChunkyPositive(n / 2);
      assert n == n / 2 + n / 2;
    }
  }

  /** How often a size can be halved before it is one chunk. */
  ghost function Halvings(n: int): nat
    requires Chunky(n)
  {
    if n == CHUNK_SIZE then 0 else 1 + Halvings(n / 2)
  }

  /** A size halved `k` times. */
  ghost function Halved(n: int, k: nat): int
    requires Chunky(n) && k <= Halvings(n)
  {
    if k == 0 then n else Halved(n / 2, k - 1)
  }

  lemma {:induction false} HalvedStep(n: int, k: nat)
    requires Chunky(n) && k <= Halvings(n)
    ensures Chunky(Halved(n, k)) && Halvings(Halved(n, k)) == Halvings(n) - k
    ensures k < Halvings(n) ==> Halved(n, k + 1) == Halved(n, k) / 2
    ensures k < Halvings(n) <==> CHUNK_SIZE < Halved(n, k)
    decreases k
  {
    if k > 0 {
      HalvedStep(n / 2, k - 1);
    }
  }

  datatype Reservation =
    | Reserved(base: int, end: int, size: int)
    | Refused
    | Aborted

  /** The kernel's answers to successive requests: an address, or an error. */
  type Answers = nat -> Option<int>

  /** Every address the kernel returns is a page boundary other than null. */
  ghost predicate KernelOk(probe: Answers) {
    forall n :: probe(n).Some? ==> 0 < probe(n).value <= USIZE_MAX && probe(n).value % 4096 == 0
  }

  /** The addresses from `lo` to `hi` belong to `arena`. */
  ghost predicate InArena(arena: iset<int>, lo: int, hi: int) {
    forall a :: lo <= a < hi ==> a in arena
  }

  /** Whatever the kernel grants for requests of up to `max` bytes lies in `arena`. */
  ghost predicate Within(probe: Answers, max: int, arena: iset<int>) {
    forall n :: probe(n).Some? ==> InArena(arena, probe(n).value, probe(n).value + max)
  }

  lemma {:induction false} HalvedLe(n: int, k: nat)
    requires Chunky(n) && k <= Halvings(n)
    ensures Halved(n, k) <= n
    decreases k
  {
    if k > 0 {
      HalvedLe(n / 2, k - 1);
      ChunkyPositive(n);
    }
  }

  /** What is remembered from one reservation to the next: whether the hint can be trusted, the largest size
      that was granted so far, and how many reservations were tried, up to four. */
  datatype Memo = Memo(init: bool, latest: int, tries: nat)

  ghost predicate MemoOk(m: Memo, max: int) {
    (m.latest == 0 || Chunky(m.latest)) && m.latest <= max
  }

  /** The size of the first request. */
  function FirstSize(m: Memo, max: int): (size: int)
    requires Chunky(max) && MemoOk(m, max)
    ensures Chunky(size) && size <= max
  {
    ChunkyPositive(max);
    var most := if m.tries > 3 then m.latest else max;
    if most < MIN_RESERVE then MIN_RESERVE else most
  }

  /** From the `k`-th request on, the one that ends the search: the first that is granted, or the last. */
  ghost function LastAsked(probe: Answers, first: int, k: nat): (n: nat)
    requires Chunky(first) && k <= Halvings(first)
    ensures k <= n <= Halvings(first)
    decreases Halvings(first) - k
  {
    if probe(k).Some? || k == Halvings(first) then k else LastAsked(probe, first, k + 1)
  }

  /** What comes of a reservation. */
  ghost function Answer(m: Memo, max: int, probe: Answers): Reservation
    requires Chunky(max) && MemoOk(m, max)
  {
    var first := FirstSize(m, max);
    var n := LastAsked(probe, first, 0);
    if probe(n).Some? then Reserved(probe(n).value, probe(n).value + Halved(first, n), Halved(first, n))
    else if m.init then Refused else Aborted
  }

  /** What is remembered after it. */
  ghost function After(m: Memo, max: int, probe: Answers): Memo
    requires Chunky(max) && MemoOk(m, max)
  {
    var tries := if m.tries > 3 then m.tries else m.tries + 1;
    match Answer(m, max, probe)
    case Reserved(_, _, size) => Memo(true, Max(m.latest, size), tries)
    case _ => Memo(false, m.latest, tries)
  }

  lemma {:induction false} AskedInOrder(probe: Answers, first: int, k: nat)
    requires Chunky(first) && k <= Halvings(first)
    ensures forall j: nat :: k <= j < LastAsked(probe, first, k) ==> probe(j).None?
    ensures probe(LastAsked(probe, first, k)).None? ==> LastAsked(probe, first, k) == Halvings(first)
    decreases Halvings(first) - k
  {
    if probe(k).None? && k < Halvings(first) {
      AskedInOrder(probe, first, k + 1);
    }
  }

  /** A reservation fails only if every size is refused, from the first down to one chunk; otherwise it is the
      largest of these sizes that the kernel grants. */
  lemma ReservesLargest(m: Memo, max: int, probe: Answers)
    requires Chunky(max) && MemoOk(m, max) && KernelOk(probe)
    ensures MemoOk(After(m, max, probe), max)
    ensures
      var r, first := Answer(m, max, probe), FirstSize(m, max);
      && (r.Reserved? <==> exists k: nat :: k <= Halvings(first) && probe(k).Some?)
      && (r.Reserved? ==>
            && Chunky(r.size) && r.size <= max && r.end == r.base + r.size
            && 0 < r.base <= USIZE_MAX && r.base % 4096 == 0
            && exists k: nat ::
                 && k <= Halvings(first) && r.size == Halved(first, k)
                 && probe(k) == Some(r.base) && forall j: nat :: j < k ==> probe(j).None?)
  {
    var first := FirstSize(m, max);
    var n := LastAsked(probe, first, 0);
    AskedInOrder(probe, first, 0);
    HalvedStep(first, n);
    HalvedLe(first, n);
    var r := Answer(m, max, probe);
    if probe(n).Some? {
      assert n <= Halvings(first) && r.size == Halved(first, n) && probe(n) == Some(r.base);
    }
  }

  /** `r` comes of asking for `from`, half of it, and so on down to one chunk: it is the largest of these sizes
      that the kernel grants, and there is none exactly if the kernel refuses them all. */
  ghost predicate Descends(r: Reservation, from: int, probe: Answers)
    requires Chunky(from)
  {
    && (r.Reserved? <==> exists k: nat :: k <= Halvings(from) && probe(k).Some?)
    && (r.Reserved? ==>
          exists k: nat ::
            && k <= Halvings(from) && r.size == Halved(from, k)
            && probe(k) == Some(r.base) && forall j: nat :: j < k ==> probe(j).None?)
  }

  /** `r` is at most `best`, and `best` if the kernel grants that; it is looked for from `best` down. */
  ghost predicate Repeats(r: Reservation, best: int, probe: Answers) {
    && Chunky(best) && Descends(r, best, probe)
    && (r.Reserved? ==> r.size <= best && (probe(0).Some? ==> r.size == best))
  }

  /** One of the first four reservations asks for everything first; a later one for the largest size that was
      ever granted, and if the kernel grants that again, it is the size reserved. */
  lemma AsksFrom(m: Memo, max: int, probe: Answers)
    requires Chunky(max) && MemoOk(m, max) && KernelOk(probe)
    ensures m.tries <= 3 ==> Descends(Answer(m, max, probe), max, probe)
    ensures m.tries > 3 ==> Repeats(Answer(m, max, probe), Max(m.latest, CHUNK_SIZE), probe)
  {
    ReservesLargest(m, max, probe);
    ChunkyPositive(max);
    if m.tries > 3 && Answer(m, max, probe).Reserved? {
      var best, r := Max(m.latest, CHUNK_SIZE), Answer(m, max, probe);
      var k: nat :| && k <= Halvings(best) && r.size == Halved(best, k)
                    && probe(k) == Some(r.base) && forall j: nat :: j < k ==> probe(j).None?;
      HalvedLe(best, k);
    }
  }

  // ------------------------------------------------------------------ one reservation after the other

  /** What is remembered after the reservations `probes`, each with the kernel's answers to it. */
  ghost function AfterAll(max: int, probes: seq<Answers>): (m: Memo)
    requires Chunky(max)
    ensures MemoOk(m, max)
    decreases |probes|
  {
    ChunkyPositive(max);
    if probes == [] then Memo(false, 0, 0)
    else
      var m := AfterAll(max, probes[..|probes| - 1]);
      AfterOk(m, max, probes[|probes| - 1]);
      After(m, max, probes[|probes| - 1])
  }

  lemma AfterOk(m: Memo, max: int, probe: Answers)
    requires Chunky(max) && MemoOk(m, max)
    ensures MemoOk(After(m, max, probe), max)
  {
    var first := FirstSize(m, max);
    var n := LastAsked(probe, first, 0);
    HalvedStep(first, n);
    HalvedLe(first, n);
  }

  /** The `i`-th reservation. */
  ghost function AnswerTo(max: int, probes: seq<Answers>, i: nat): Reservation
    requires Chunky(max) && i < |probes|
  {
    Answer(AfterAll(max, probes[..i]), max, probes[i])
  }

  /** The sizes of the reservations, 0 for one that is not granted. */
  ghost function Sizes(max: int, probes: seq<Answers>): (sizes: seq<int>)
    requires Chunky(max)
    ensures |sizes| == |probes|
    decreases |probes|
  {
    if probes == [] then []
    else
      var r := AnswerTo(max, probes, |probes| - 1);
      Sizes(max, probes[..|probes| - 1]) + [if r.Reserved? then r.size else 0]
  }

  /** `best` is the largest of `sizes`, or 0. */
  ghost predicate Largest(best: int, sizes: seq<int>) {
    0 <= best && (forall i :: 0 <= i < |sizes| ==> sizes[i] <= best) && (best == 0 || best in sizes)
  }

  lemma LargestNext(best: int, sizes: seq<int>, size: int)
    requires Largest(best, sizes)
    ensures Largest(Max(best, size), sizes + [size])
  {
    assert (sizes + [size])[|sizes|] == size;
  }

  lemma LargestIsOne(best: int, other: int, sizes: seq<int>)
    requires Largest(best, sizes) && Largest(other, sizes)
    ensures best == other
  {
  }

  /** The size remembered is the largest that was granted, and the count stops at four. */
  lemma {:induction false} RemembersLargest(max: int, probes: seq<Answers>)
    requires Chunky(max)
    ensures Largest(AfterAll(max, probes).latest, Sizes(max, probes))
    ensures AfterAll(max, probes).tries == if |probes| <= 4 then |probes| else 4
    decreases |probes|
  {
    if probes != [] {
      var n := |probes| - 1;
      var r := AnswerTo(max, probes, n);
      RemembersLargest(max, probes[..n]);
      LargestNext(AfterAll(max, probes[..n]).latest, Sizes(max, probes[..n]), if r.Reserved? then r.size else 0);
    }
  }

  /** Every reservation of every sequence of them: each of the first four is the largest size the kernel grants
      of all there are; each later one is the largest it grants that was granted before, or one chunk. */
  lemma EveryReservation(max: int, probes: seq<Answers>, i: nat, best: int)
    requires Chunky(max) && i < |probes| && KernelOk(probes[i])
    requires Largest(best, Sizes(max, probes[..i]))
    ensures i < 4 ==> Descends(AnswerTo(max, probes, i), max, probes[i])
    ensures i >= 4 ==> Repeats(AnswerTo(max, probes, i), Max(best, CHUNK_SIZE), probes[i])
  {
    var m := AfterAll(max, probes[..i]);
    RemembersLargest(max, probes[..i]);
    LargestIsOne(best, m.latest, Sizes(max, probes[..i]));
    AsksFrom(m, max, probes[i]);
  }

  class Reserver {
    const maxReservation: int
    var baseHint: int
    var baseInit: bool
    var latestTried: int
    var reserve: nat

    ghost predicate Valid()
      reads this
    {
      Chunky(maxReservation) && MemoOk(Remembers(), maxReservation)
    }

    function Remembers(): Memo
      reads this
    {
      Memo(baseInit, latestTried, reserve)
    }

    constructor (max: int)
      requires Chunky(max)
      ensures Valid() && maxReservation == max && Remembers() == Memo(false, 0, 0) && baseHint == 0
    {
      maxReservation, baseHint, baseInit, latestTried, reserve := max, 0, false, 0, 0;
    }

    /** Ask for ever smaller sizes until one is granted. If all are refused, the hint is given up; if it had
        been given up before, the process is aborted. A hint that can be trusted moves past everything that
        was asked for; otherwise it becomes the address granted. */
    method Reserve(probe: Answers) returns (r: Reservation)
      requires Valid() && KernelOk(probe)
      modifies this
      ensures Valid()
      ensures r == Answer(old(Remembers()), maxReservation, probe)
      ensures Remembers() == After(old(Remembers()), maxReservation, probe)
      ensures
        var first := FirstSize(old(Remembers()), maxReservation);
        baseHint == if r.Reserved? then (if old(baseInit) then old(baseHint) + 2 * first - r.size else r.base)
                    else old(baseHint) + 2 * first - 2 * CHUNK_SIZE
    {
      var size := FirstSize(Remembers(), maxReservation);
      ghost var first := size;
      ReservesLargest(Remembers(), maxReservation, probe);
      if reserve <= 3 {
        reserve := reserve + 1;
      }
      var n := 0;
      while true
        invariant n <= Halvings(first) && size == Halved(first, n) && Chunky(first)
        invariant LastAsked(probe, first, 0) == LastAsked(probe, first, n)
        invariant baseHint == old(baseHint) + 2 * first - 2 * size
        invariant baseInit == old(baseInit) && latestTried == old(latestTried)
        invariant reserve == if old(reserve) > 3 then old(reserve) else old(reserve) + 1
        decreases Halvings(first) - n
      {
        HalvedStep(first, n);
        var answer := probe(n);
        if answer.Some? {
          if size > latestTried {
            latestTried := size;
          }
          if !baseInit {
            baseHint, baseInit := answer.value, true;
          } else {
            baseHint := baseHint + size;
          }
          return Reserved(answer.value, answer.value + size, size);
        }
        if size <= MIN_RESERVE {
          if !baseInit {
            return Aborted;
          }
          baseInit := false;
          return Refused;
        }
        baseHint := baseHint + size;
        size, n := size / 2, n + 1;
      }
    }
  }
}
