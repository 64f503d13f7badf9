/** One reserved stretch of address space and the two bitmaps that hand out its 4 KiB blocks.

    `bitmap` holds the published blocks, `claims` the blocks some call is still in the middle of taking.
    The code here is the sequential text of the allocator; how calls interleave is the subject of
    the module `ClaimProtocol`. */
module Segments {
  import opened Words
  import opened Wrappers

  const BLOCK_SIZE := 4096
  const MAX_RANDOM_BYTES := 256 * 1024 * 1024
  const MAX_RANDOM_BLOCKS := MAX_RANDOM_BYTES / BLOCK_SIZE

  function BlocksFor(size: int): int {
    (size + BLOCK_SIZE - 1) / BLOCK_SIZE
  }

  /** The extent of `o` blocks at `b` resized to `n` blocks: shrinking frees the tail, growing takes the
      blocks behind it. */
  ghost function Resized(used: set<int>, b: int, o: int, n: int): set<int> {
    if n <= o then used - Span(b + n, b + o) else used + Span(b + o, b + n)
  }

  // ------------------------------------------------------------------ free runs

  ghost predicate FreeRun(used: set<int>, start: int, count: int) {
    AllFree(used, start, start + count)
  }

  /** Some `count` contiguous blocks below `total` are free. */
  ghost predicate HasRun(used: set<int>, total: int, count: int) {
    exists s :: 0 <= s && s + count <= total && FreeRun(used, s, count)
  }

  /** No free run of `count` blocks lies inside `lo..hi`. */
  ghost predicate NoRun(used: set<int>, lo: int, hi: int, count: int) {
    forall s :: lo <= s && s + count <= hi ==> !FreeRun(used, s, count)
  }

  /** `b` is the first free run of `count` blocks from `lo` on. */
  ghost predicate FirstRun(used: set<int>, lo: int, b: int, count: int) {
    lo <= b && FreeRun(used, b, count) && forall s :: lo <= s < b ==> !FreeRun(used, s, count)
  }

  /** `b` is the first free run found going up from `start`, or else the first one of all that begins below `start`. */
  ghost predicate NextFit(used: set<int>, start: int, total: int, count: int, b: int) {
    if start <= b then FirstRun(used, start, b, count)
    else NoRun(used, start, total, count) && FirstRun(used, 0, b, count)
  }

  /** Where all blocks before it are taken, a free block is the first run of one block. */
  lemma OneIsFirst(taken: set<int>, lo: int, b: int)
    requires lo <= b && b !in taken && forall i :: lo <= i < b ==> i in taken
    ensures FirstRun(taken, lo, b, 1)
  {
    forall s | lo <= s < b
      ensures !FreeRun(taken, s, 1)
    {
      assert s in taken;
    }
  }

  lemma OneIsNext(taken: set<int>, start: int, total: int, b: int)
    requires 0 <= b && b !in taken
    requires start <= b ==> forall i :: start <= i < b ==> i in taken
    requires b < start ==> (forall i :: start <= i < total ==> i in taken) && forall i :: 0 <= i < b ==> i in taken
    ensures NextFit(taken, start, total, 1, b)
  {
    if start <= b {
      OneIsFirst(taken, start, b);
    } else {
      OneIsFirst(taken, 0, b);
      forall s | start <= s && s + 1 <= total
        ensures !FreeRun(taken, s, 1)
      {
        assert s in taken;
      }
    }
  }

  /** The run that the search of `lo..at` ends in is the first one, if it is long enough with what follows. */
  lemma EndIsFirst(used: set<int>, lo: int, at: int, run: int, count: int)
    requires 0 < count && NoRun(used, lo, at, count) && Tail(used, lo, at, run) && FreeRun(used, at - run, count)
    ensures FirstRun(used, lo, at - run, count)
  {
    forall s | lo <= s < at - run
      ensures !FreeRun(used, s, count)
    {
      if s + count > at {
        assert at - run - 1 in used;
      }
    }
  }

  /** `run` is the length of the longest free suffix of `lo..at`. */
  ghost predicate Tail(used: set<int>, lo: int, at: int, run: int) {
    && 0 <= run <= at - lo
    && AllFree(used, at - run, at)
    && (at - run == lo || at - run - 1 in used)
  }

  /** A used block ends every run. */
  lemma RunBroken(used: set<int>, lo: int, at: int, run: int, next: int, count: int)
    requires 0 < count && lo <= at < next
    requires NoRun(used, lo, at, count) && Tail(used, lo, at, run) && run < count
    requires Span(at, next) <= used
    ensures NoRun(used, lo, next, count) && Tail(used, lo, next, 0)
  {
    assert next - 1 in Span(at, next);
    forall s | lo <= s && s + count <= next
      ensures !FreeRun(used, s, count)
    {
      if s + count > at {
        var b := s + count - 1;
        assert b in Span(at, next);
      }
    }
  }

  /** Free blocks lengthen the current run. */
  lemma RunExtended(used: set<int>, lo: int, at: int, run: int, next: int, count: int)
    requires 0 < count && lo <= at <= next
    requires NoRun(used, lo, at, count) && Tail(used, lo, at, run)
    requires AllFree(used, at, next) && run + (next - at) < count
    ensures NoRun(used, lo, next, count) && Tail(used, lo, next, run + (next - at))
  {
    forall s | lo <= s && s + count <= next
      ensures !FreeRun(used, s, count)
    {
      if s + count > at {
        assert s <= at - run - 1 < s + count;
      }
    }
  }

  /** A search of `start..total`, then of `0..start`, then of the blocks right after `start` that
      continue the last run of the second search, misses no run at all. */
  lemma WrapSearchComplete(used: set<int>, start: int, total: int, count: int, run: int, extend: int)
    requires 0 < count && 0 <= start <= total
    requires NoRun(used, start, total, count) && NoRun(used, 0, start, count)
    requires Tail(used, 0, start, run) && 0 <= extend <= total - start
    requires run > 0 ==> start + extend == total || start + extend in used
    requires run + extend < count
    ensures !HasRun(used, total, count)
  {
    forall s | 0 <= s && s + count <= total
      ensures !FreeRun(used, s, count)
    {
      if s < start < s + count {
        assert if s < start - run then start - run - 1 in used else start + extend in used;
      }
    }
  }

  // ------------------------------------------------------------------ word loops

  /** How many of the `left` bits from `bit` on share its word. */
  function InThisWord(bit: int, left: int): (n: int)
    requires 0 <= bit && 0 < left
    ensures 0 < n <= left && bit % 64 + n <= 64
  {
    Min(64 - bit % 64, left)
  }

  method SetBits(words: array<Word>, ghost bits: set<int>, start: int, count: int)
    requires 0 <= start && 0 <= count && start + count <= 64 * words.Length
    requires Packs(words[..], bits)
    modifies words
    ensures Packs(words[..], bits + Span(start, start + count))
  {
    var processed := 0;
    while processed < count
      invariant 0 <= processed <= count
      invariant Packs(words[..], bits + Span(start, start + processed))
    {
      var bit := start + processed;
      var k, shift, n := bit / 64, bit % 64, InThisWord(bit, count - processed);
      OrWord(words[..], bits + Span(start, bit), k, shift, n);
      ghost var before := words[..];
      words[k] := words[k] + Span(shift, shift + n);
      assert words[..] == before[k := before[k] + Span(shift, shift + n)];
      assert bits + Span(start, bit) + Span(bit, bit + n) == bits + Span(start, bit + n);
      processed := processed + n;
    }
    assert Span(start, start + processed) == Span(start, start + count);
  }

  method ClearBits(words: array<Word>, ghost bits: set<int>, start: int, count: int)
    requires 0 <= start && 0 <= count && start + count <= 64 * words.Length
    requires Packs(words[..], bits)
    modifies words
    ensures Packs(words[..], bits - Span(start, start + count))
  {
    var processed := 0;
    assert bits - Span(start, start) == bits;
    while processed < count
      invariant 0 <= processed <= count
      invariant Packs(words[..], bits - Span(start, start + processed))
    {
      var bit := start + processed;
      var k, shift, n := bit / 64, bit % 64, InThisWord(bit, count - processed);
      ClearWord(words[..], bits - Span(start, bit), k, shift, n);
      ghost var before := words[..];
      words[k] := words[k] - Span(shift, shift + n);
      assert words[..] == before[k := before[k] - Span(shift, shift + n)];
      assert bits - Span(start, bit) - Span(bit, bit + n) == bits - Span(start, bit + n);
      processed := processed + n;
    }
  }

  /** The lowest zero bit of a word, `(!w).trailing_zeros()`, at or after `from`. */
  function LowestZero(w: Word, from: int): (bit: int)
    requires 0 <= from && !(Span(from, 64) <= w)
    ensures from <= bit < 64 && bit !in w && Span(from, bit) <= w
    decreases 64 - from
  {
    if from !in w then from else
    assert forall i :: from < i < 64 ==> i in Span(from, 64);
    LowestZero(w, from + 1)
  }

  // ------------------------------------------------------------------ the segment

  class Segment {
    const vaStart: int
    const vaEnd: int
    const bitmap: array<Word>
    const claims: array<Word>
    var hint: nat
    var full: bool
    var failedTrys: nat

    /** The blocks published in `bitmap` and the blocks claimed in `claims`. */
    ghost var used: set<int>
    ghost var claimed: set<int>

    ghost predicate Valid()
      reads this, bitmap, claims
    {
      && bitmap != claims
      && 0 < vaStart <= vaEnd
      && bitmap.Length == claims.Length == (MaxBits() + 63) / 64
      && Packs(bitmap[..], used) && Packs(claims[..], claimed)
      && used <= Span(0, MaxBits()) && claimed <= Span(0, MaxBits())
    }

    ghost function Repr(): set<object> {
      {this, bitmap, claims}
    }

    function MaxBits(): int {
      (vaEnd - vaStart) / BLOCK_SIZE
    }

    function BlockOf(addr: int): int {
      (addr - vaStart) / BLOCK_SIZE
    }

    ghost predicate BlockAligned(addr: int) {
      addr == vaStart + BlockOf(addr) * BLOCK_SIZE
    }

    ghost predicate Contains(addr: int) {
      vaStart <= addr < vaEnd
    }

    /** There is a block for the address. */
    ghost predicate Holds(addr: int) {
      Contains(addr) && BlockOf(addr) < MaxBits()
    }

    /** `start..start + count` lies in the segment. */
    ghost predicate InBounds(start: int, count: int) {
      0 <= start && 0 <= count && start + count <= MaxBits()
    }

    /** Fresh anonymous mappings are zeroed, so a new segment is entirely free. */
    constructor (start: int, end: int, seed: nat)
      requires 0 < start <= end && (end - start) / BLOCK_SIZE > 0
      ensures Valid() && fresh(Repr())
      ensures vaStart == start && vaEnd == end
      ensures used == {} && claimed == {} && !full && failedTrys == 0
      ensures 0 < bitmap.Length && hint == seed % bitmap.Length
    {
      var mapLen := ((end - start) / BLOCK_SIZE + 63) / 64;
      vaStart, vaEnd := start, end;
      bitmap := new Word[mapLen](_ => {});
      claims := new Word[mapLen](_ => {});
      hint := seed % mapLen;
      full, failedTrys := false, 0;
      used, claimed := {}, {};
    }

    // ---------------------------------------------------------------- claiming

    /** Check one word and claim the wanted bits in it, as the compare-and-swap loop does when no other
        call interferes. */
    method ClaimWord(bit: int, n: int) returns (ok: bool)
      requires Valid() && InBounds(bit, n) && 0 < n && bit % 64 + n <= 64
      modifies this`claimed, claims
      ensures Valid()
      ensures ok <==> AllFree(used, bit, bit + n) && AllFree(old(claimed), bit, bit + n)
      ensures claimed == if ok then old(claimed) + Span(bit, bit + n) else old(claimed)
    {
      var k, shift := bit / 64, bit % 64;
      MaskMisses(bitmap[..], used, k, shift, n);
      MaskMisses(claims[..], claimed, k, shift, n);
      if !((claims[k] + bitmap[k]) !! Span(shift, shift + n)) {
        return false;
      }
      OrWord(claims[..], claimed, k, shift, n);
      claims[k] := claims[k] + Span(shift, shift + n);
      assert claims[..] == old(claims[..])[k := old(claims[k]) + Span(shift, shift + n)];
      claimed := claimed + Span(bit, bit + n);
      ok := true;
    }

    method RollbackClaim(start: int, count: int)
      requires Valid() && InBounds(start, count)
      modifies this`claimed, claims
      ensures Valid()
      ensures claimed == old(claimed) - Span(start, start + count)
    {
      ClearBits(claims, claimed, start, count);
      claimed := claimed - Span(start, start + count);
    }

    /** The first phase of a claim: word by word, refuse if any wanted bit is claimed or published,
        and on refusal take back what was already claimed. */
    method ClaimBits(start: int, count: int) returns (ok: bool)
      requires Valid() && InBounds(start, count)
      modifies this`claimed, claims
      ensures Valid()
      ensures ok <==> FreeRun(used, start, count) && FreeRun(old(claimed), start, count)
      ensures claimed == if ok then old(claimed) + Span(start, start + count) else old(claimed)
    {
      var processed := 0;
      while processed < count
        invariant 0 <= processed <= count
        invariant Valid()
        invariant claimed == old(claimed) + Span(start, start + processed)
        invariant FreeRun(used, start, processed) && FreeRun(old(claimed), start, processed)
      {
        var bit := start + processed;
        var n := InThisWord(bit, count - processed);
        var claimedWord := ClaimWord(bit, n);
        if !claimedWord {
          RollbackClaim(start, processed);
          return false;
        }
        processed := processed + n;
      }
      ok := true;
    }

    /** Claim, publish, release. */
    method TryClaim(start: int, count: int) returns (ok: bool)
      requires Valid() && InBounds(start, count)
      modifies this`used, this`claimed, bitmap, claims
      ensures Valid()
      ensures ok <==> FreeRun(old(used), start, count) && FreeRun(old(claimed), start, count)
      ensures claimed == old(claimed)
      ensures used == if ok then old(used) + Span(start, start + count) else old(used)
    {
      ok := ClaimBits(start, count);
      if !ok {
        return;
      }
      SetBits(bitmap, used, start, count);
      used := used + Span(start, start + count);
      ClearBits(claims, claimed, start, count);
      claimed := claimed - Span(start, start + count);
    }

    // ---------------------------------------------------------------- one block

    /** Blocks that a search must skip: published, or claimed by a call in flight. */
    ghost function Taken(): set<int>
      reads this`used, this`claimed
    {
      used + claimed
    }

    /** Try every zero bit of one word, lowest first. `masked` is the word as loaded, with the bits
        past the end of the segment set. */
    method ScanWord(k: int, masked: Word) returns (r: Option<int>)
      requires Valid() && 0 <= k && masked <= MAX_WORD
      requires forall j :: j in masked ==> MaxBits() <= 64 * k + j || 64 * k + j in used
      modifies this`used, this`claimed, bitmap, claims
      ensures Valid() && claimed == old(claimed)
      ensures r.None? ==> used == old(used)
      ensures r.None? ==> forall b :: 64 * k <= b < 64 * k + 64 && b < MaxBits() ==> b in Taken()
      ensures r.Some? ==> 64 * k <= r.value < 64 * k + 64 && InBounds(r.value, 1)
      ensures r.Some? ==> r.value !in old(Taken()) && used == old(used) + {r.value}
      ensures r.Some? ==> forall b :: 64 * k <= b < r.value ==> b in old(Taken())
    {
      var chunk := masked;
      while chunk != MAX_WORD
        invariant chunk <= MAX_WORD
        invariant Valid() && claimed == old(claimed) && used == old(used)
        invariant forall j :: j in chunk ==> MaxBits() <= 64 * k + j || 64 * k + j in Taken()
        decreases MAX_WORD - chunk
      {
        var bit := LowestZero(chunk, 0);
        var idx := 64 * k + bit;
        if idx >= MaxBits() {
          break;
        }
        var ok := TryClaim(idx, 1);
        if ok {
          assert Span(idx, idx + 1) == {idx};
          forall b | 64 * k <= b < idx
            ensures b in old(Taken())
          {
            assert b - 64 * k in chunk;
          }
          return Some(idx);
        }
        chunk := chunk + {bit};
      }
      r := None;
      forall b | 64 * k <= b < 64 * k + 64 && b < MaxBits()
        ensures b in Taken()
      {
        assert b == 64 * k + (b - 64 * k);
        assert b - 64 * k in chunk;
      }
    }

    /** Scan the words `lo..hi` for one free block. */
    method ScanWords(lo: int, hi: int) returns (r: Option<int>)
      requires Valid() && 0 <= lo <= hi <= bitmap.Length
      modifies this`used, this`claimed, this`hint, bitmap, claims
      ensures Valid() && claimed == old(claimed)
      ensures hint == if r.Some? then r.value / 64 else old(hint)
      ensures r.None? ==> used == old(used)
      ensures r.None? ==> forall b :: 64 * lo <= b < 64 * hi && b < MaxBits() ==> b in Taken()
      ensures r.Some? ==> InBounds(r.value, 1) && r.value !in old(Taken()) && used == old(used) + {r.value}
      ensures r.Some? ==> 64 * lo <= r.value < 64 * hi && forall b :: 64 * lo <= b < r.value ==> b in old(Taken())
    {
      var lastValidBits := MaxBits() % 64;
      for i := lo to hi
        invariant Valid() && claimed == old(claimed) && used == old(used) && hint == old(hint)
        invariant forall b :: 64 * lo <= b < 64 * i && b < MaxBits() ==> b in Taken()
      {
        var chunk := bitmap[i];
        assert forall j :: j in chunk ==> 64 * i + j in used;
        if chunk == MAX_WORD {
          FullWord(bitmap[..], used, i);
          continue;
        }
        if i == bitmap.Length - 1 && lastValidBits != 0 {
          chunk := chunk + Span(lastValidBits, 64);
        }
        r := ScanWord(i, chunk);
        if r.Some? {
          hint := i;
          return;
        }
      }
      r := None;
    }

    /** Where a search for one block begins. */
    static ghost function StartWord(hint: nat, rand: nat, words: int): int {
      if words <= 0 then 0 else (hint * 64 + rand % MAX_RANDOM_BLOCKS) / 64 % words
    }

    /** Take any one block, searching from a random word and wrapping around. */
    method AllocSingle(rand: nat) returns (r: Option<int>)
      requires Valid()
      modifies this`used, this`claimed, this`hint, bitmap, claims
      ensures Valid() && claimed == old(claimed)
      ensures hint == if r.Some? then BlockOf(r.value) / 64 else old(hint)
      ensures r.None? <==> Span(0, MaxBits()) <= old(Taken())
      ensures r.None? ==> used == old(used)
      ensures r.Some? ==> BlockAligned(r.value) && InBounds(BlockOf(r.value), 1)
      ensures r.Some? ==> BlockOf(r.value) !in old(Taken()) && used == old(used) + {BlockOf(r.value)}
      ensures r.Some? ==>
        NextFit(old(Taken()), 64 * StartWord(old(hint), rand, bitmap.Length), MaxBits(), 1, BlockOf(r.value))
    {
      if MaxBits() == 0 {
        return None;
      }
      var chunks := bitmap.Length;
      var startChunk := (hint * 64 + rand % MAX_RANDOM_BLOCKS) / 64 % chunks;
      var b := ScanWords(startChunk, chunks);
      if b.None? {
        b := ScanWords(0, startChunk);
      }
      if b.None? {
        forall i | i in Span(0, MaxBits())
          ensures i in Taken()
        {
          assert 64 * startChunk <= i < 64 * chunks || 0 <= i < 64 * startChunk;
        }
        return None;
      }
      r := Some(vaStart + b.value * BLOCK_SIZE);
      assert b.value in Span(0, MaxBits());
      OneIsNext(old(Taken()), 64 * startChunk, MaxBits(), b.value);
    }

    // ---------------------------------------------------------------- several blocks

    /** Where a search for several blocks begins. */
    static ghost function StartBit(hint: nat, rand: nat, total: int): int {
      if total <= 0 then 0 else (hint * 64 + rand % MAX_RANDOM_BLOCKS) % total
    }

    /** No call is in the middle of a claim. */
    ghost predicate Quiet()
      reads this`claimed
    {
      claimed == {}
    }

    /** Claim a run the search has found. */
    method TryRun(start: int, count: int) returns (ok: bool)
      requires Valid() && InBounds(start, count)
      modifies this`used, this`claimed, this`hint, bitmap, claims
      ensures Valid() && claimed == old(claimed)
      ensures hint == if ok then start / 64 else old(hint)
      ensures ok <==> FreeRun(old(Taken()), start, count)
      ensures used == if ok then old(used) + Span(start, start + count) else old(used)
    {
      ok := TryClaim(start, count);
      if ok {
        hint := start / 64;
      }
    }

    /** Look at the blocks from `at` on: a whole free word, a whole used word, or a single block. */
    method Probe(at: int, hi: int) returns (free: bool, next: int)
      requires Valid() && 0 <= at < hi <= MaxBits()
      ensures at < next && (free ==> next <= hi)
      ensures if free then AllFree(used, at, next) else Span(at, next) <= used
    {
      var k := at / 64;
      var chunk := bitmap[k];
      if at % 64 == 0 && chunk == {} {
        next := at + Min(64, hi - at);
        MaskMisses(bitmap[..], used, k, 0, next - at);
        return true, next;
      }
      if chunk == MAX_WORD {
        FullWord(bitmap[..], used, k);
        return false, (k + 1) * 64;
      }
      BitAt(bitmap[..], used, at);
      return at % 64 !in chunk, at + 1;
    }

    /** Scan the blocks `lo..hi` for a free run. On failure `run` is the length of the run the scan
        ended in, and `runStart` its first block. */
    method ScanRange(lo: int, hi: int, count: int) returns (r: Option<int>, run: int, runStart: int)
      requires Valid() && 0 <= lo <= hi <= MaxBits() && 0 < count
      modifies this`used, this`claimed, this`hint, bitmap, claims
      ensures Valid() && claimed == old(claimed)
      ensures hint == if r.Some? then r.value / 64 else old(hint)
      ensures r.Some? ==> InBounds(r.value, count) && FreeRun(old(Taken()), r.value, count)
      ensures r.Some? ==> used == old(used) + Span(r.value, r.value + count)
      ensures r.None? ==> used == old(used) && 0 <= run < count && run <= hi - lo
      ensures r.None? ==> AllFree(used, hi - run, hi) && (run > 0 ==> runStart == hi - run)
      ensures r.None? && Quiet() ==> NoRun(used, lo, hi, count) && Tail(used, lo, hi, run)
      ensures r.Some? && Quiet() ==> FirstRun(old(used), lo, r.value, count)
    {
      run, runStart := 0, 0;
      var at := lo;
      while at < hi
        invariant lo <= at && 0 <= run < count && run <= at - lo
        invariant run > 0 ==> runStart == at - run
        invariant at > hi ==> run == 0 && hi - 1 in used
        invariant Valid() && claimed == old(claimed) && used == old(used) && hint == old(hint)
        invariant AllFree(used, at - run, at)
        invariant Quiet() ==> NoRun(used, lo, at, count) && Tail(used, lo, at, run)
        decreases hi - at
      {
        var free, next := Probe(at, hi);
        if !free {
          if Quiet() { RunBroken(used, lo, at, run, next, count); }
          run, at := 0, next;
          continue;
        }
        if run == 0 {
          runStart := at;
        }
        if run + (next - at) >= count {
          var ok := TryRun(runStart, count);
          if ok {
            if Quiet() { EndIsFirst(old(used), lo, at, run, count); }
            return Some(runStart), 0, 0;
          }
          run, at := 0, at + 1;
          continue;
        }
        if Quiet() { RunExtended(used, lo, at, run, next, count); }
        run, at := run + (next - at), next;
      }
      r := None;
    }

    /** How far the free blocks from `start` on reach, up to `need` of them. */
    method Extend(start: int, need: int) returns (extend: int)
      requires Valid() && 0 <= start <= MaxBits() && 0 <= need
      ensures 0 <= extend <= need && start + extend <= MaxBits() && AllFree(used, start, start + extend)
      ensures extend < need ==> start + extend == MaxBits() || start + extend in used
    {
      extend := 0;
      var b := start;
      while b < MaxBits() && extend < need
        invariant b == start + extend && 0 <= extend <= need && b <= MaxBits()
        invariant AllFree(used, start, b)
      {
        BitAt(bitmap[..], used, b);
        if b % 64 in bitmap[b / 64] {
          break;
        }
        extend, b := extend + 1, b + 1;
      }
    }

    /** Complete the run of `run` blocks that ends right before `startBit` with the blocks behind it. */
    method TakeCarry(startBit: int, run: int, runStart: int, count: int) returns (r: Option<int>)
      requires Valid() && 0 <= startBit <= MaxBits() && 0 < run < count
      requires 0 <= runStart == startBit - run && AllFree(used, runStart, startBit)
      requires Quiet() ==> NoRun(used, startBit, MaxBits(), count) && NoRun(used, 0, startBit, count)
      requires Quiet() ==> Tail(used, 0, startBit, run)
      modifies this`used, this`claimed, this`hint, bitmap, claims
      ensures Valid() && claimed == old(claimed)
      ensures hint == if r.Some? then r.value / 64 else old(hint)
      ensures r.None? ==> used == old(used)
      ensures r.Some? ==> InBounds(r.value, count) && FreeRun(old(Taken()), r.value, count)
      ensures r.Some? ==> used == old(used) + Span(r.value, r.value + count)
      ensures Quiet() && r.None? ==> !HasRun(old(used), MaxBits(), count)
      ensures Quiet() && r.Some? ==> r.value < startBit && FirstRun(old(used), 0, r.value, count)
    {
      var extend := Extend(startBit, count - run);
      if run + extend >= count {
        var ok := TryRun(runStart, count);
        if ok && Quiet() { EndIsFirst(old(used), 0, startBit, run, count); }
        return if ok then Some(runStart) else None;
      }
      if Quiet() {
        WrapSearchComplete(used, startBit, MaxBits(), count, run, extend);
      }
      r := None;
    }

    /** Search from `startBit` to the end, then from the beginning to `startBit`, then the runs that
        straddle it. */
    method FindRun(startBit: int, count: int) returns (r: Option<int>)
      requires Valid() && 0 <= startBit <= MaxBits() && 0 < count
      modifies this`used, this`claimed, this`hint, bitmap, claims
      ensures Valid() && claimed == old(claimed)
      ensures hint == if r.Some? then r.value / 64 else old(hint)
      ensures r.None? ==> used == old(used)
      ensures r.Some? ==> InBounds(r.value, count) && FreeRun(old(Taken()), r.value, count)
      ensures r.Some? ==> used == old(used) + Span(r.value, r.value + count)
      ensures Quiet() && r.None? ==> !HasRun(old(used), MaxBits(), count)
      ensures Quiet() && r.Some? ==> NextFit(old(used), startBit, MaxBits(), count, r.value)
    {
      var run, runStart;
      r, run, runStart := ScanRange(startBit, MaxBits(), count);
      if r.Some? {
        return;
      }
      r, run, runStart := ScanRange(0, startBit, count);
      if r.Some? {
        return;
      }
      if run > 0 {
        r := TakeCarry(startBit, run, runStart, count);
      } else if Quiet() {
        WrapSearchComplete(used, startBit, MaxBits(), count, 0, 0);
      }
    }

    /** Take `count` contiguous blocks, starting the search at a random block. Run alone, this finds a
        run whenever the segment holds one. */
    method AllocMulti(count: int, rand: nat) returns (r: Option<int>)
      requires Valid() && 0 < count
      modifies this`used, this`claimed, this`hint, bitmap, claims
      ensures Valid() && claimed == old(claimed)
      ensures hint == if r.Some? then BlockOf(r.value) / 64 else old(hint)
      ensures r.None? ==> used == old(used)
      ensures r.Some? ==> BlockAligned(r.value) && InBounds(BlockOf(r.value), count)
      ensures r.Some? ==> FreeRun(old(Taken()), BlockOf(r.value), count)
      ensures r.Some? ==> used == old(used) + Span(BlockOf(r.value), BlockOf(r.value) + count)
      ensures Quiet() ==> (r.Some? <==> HasRun(old(used), MaxBits(), count))
      ensures Quiet() && r.Some? ==>
        NextFit(old(used), StartBit(old(hint), rand, MaxBits()), MaxBits(), count, BlockOf(r.value))
    {
      var total := MaxBits();
      if total == 0 || count > total {
        return None;
      }
      var startBit := (hint * 64 + rand % MAX_RANDOM_BLOCKS) % total;
      var b := FindRun(startBit, count);
      if b.None? {
        return None;
      }
      assert FreeRun(old(used), b.value, count);
      r := Some(vaStart + b.value * BLOCK_SIZE);
    }

    /** One block or several, as the caller's count demands. */
    method Take(count: int, rand: nat) returns (r: Option<int>)
      requires Valid() && 0 < count
      modifies this`used, this`claimed, this`hint, bitmap, claims
      ensures Valid() && claimed == old(claimed)
      ensures hint == if r.Some? then BlockOf(r.value) / 64 else old(hint)
      ensures r.None? ==> used == old(used)
      ensures r.Some? ==> BlockAligned(r.value) && InBounds(BlockOf(r.value), count)
      ensures r.Some? ==> FreeRun(old(Taken()), BlockOf(r.value), count)
      ensures r.Some? ==> used == old(used) + Span(BlockOf(r.value), BlockOf(r.value) + count)
      ensures Quiet() ==> (r.Some? <==> HasRun(old(used), MaxBits(), count))
      ensures Quiet() && r.Some? ==>
        var start := if count == 1 then 64 * StartWord(old(hint), rand, bitmap.Length)
                     else StartBit(old(hint), rand, MaxBits());
        NextFit(old(used), start, MaxBits(), count, BlockOf(r.value))
    {
      if count != 1 {
        r := AllocMulti(count, rand);
        return;
      }
      r := AllocSingle(rand);
      assert Quiet() ==> old(Taken()) == old(used);
      if r.Some? {
        assert FreeRun(old(used), BlockOf(r.value), 1);
        assert Span(BlockOf(r.value), BlockOf(r.value) + 1) == {BlockOf(r.value)};
      } else {
        assert forall b :: FreeRun(old(used), b, 1) ==> b !in old(used);
      }
    }

    // ---------------------------------------------------------------- giving back

    /** Clear published blocks one at a time. */
    method Rollback(start: int, count: int)
      requires Valid() && InBounds(start, count)
      modifies this`used, bitmap
      ensures Valid()
      ensures used == old(used) - Span(start, start + count)
    {
      for i := 0 to count
        invariant Valid()
        invariant used == old(used) - Span(start, start + i)
      {
        var b := start + i;
        ClearBits(bitmap, used, b, 1);
        used := used - Span(b, b + 1);
      }
    }

    /** Give back `size` bytes from `addr` on, cut off at the end of the segment. Addresses outside the
        segment are ignored. */
    method Free(addr: int, size: int)
      requires Valid() && 0 <= size
      modifies this, bitmap
      ensures Valid() && claimed == old(claimed)
      ensures used == if Contains(addr)
                      then old(used) - Span(BlockOf(addr), BlockOf(addr) + BlocksFor(size))
                      else old(used)
      ensures hint == if Holds(addr) then Min(old(hint), BlockOf(addr) / 64) else old(hint)
      ensures full == (old(full) && !(Holds(addr) && size > MAX_RANDOM_BYTES))
      ensures failedTrys == if old(full) && !full then (old(failedTrys) + 255) % 256 else old(failedTrys)
    {
      if addr < vaStart || addr >= vaEnd {
        return;
      }
      var total := MaxBits();
      var start := BlockOf(addr);
      if total == 0 || start >= total {
        return;
      }
      var count := BlocksFor(size);
      if start + count > total {
        count := total - start;
      }
      Rollback(start, count);
      if start / 64 < hint {
        hint := start / 64;
      }
      if size > MAX_RANDOM_BYTES && full {
        failedTrys := (failedTrys + 255) % 256;
        full := false;
      }
    }

    /** Change the size of the extent at `addr` without moving it: shrinking gives back the tail, growing
        claims the blocks right behind it. The caller owns the extent it names. */
    method ReallocInplace(addr: int, oldSize: int, newSize: int) returns (r: Option<int>)
      requires Valid() && Contains(addr) && 0 <= oldSize && 0 <= newSize
      requires InBounds(BlockOf(addr), BlocksFor(oldSize))
      modifies this`used, this`claimed, bitmap, claims
      ensures Valid() && claimed == old(claimed)
      ensures r.Some? ==> r.value == BlocksFor(newSize) * BLOCK_SIZE
      ensures var b, o, n := BlockOf(addr), BlocksFor(oldSize), BlocksFor(newSize);
        && (r.Some? <==> n <= o || (b + n <= MaxBits() && AllFree(old(Taken()), b + o, b + n)))
        && used == if r.Some? then Resized(old(used), b, o, n) else old(used)
    {
      var oldBlocks, newBlocks := BlocksFor(oldSize), BlocksFor(newSize);
      if newBlocks == oldBlocks {
        return Some(oldBlocks * BLOCK_SIZE);
      }
      if newBlocks < oldBlocks {
        Rollback(BlockOf(addr) + newBlocks, oldBlocks - newBlocks);
        return Some(newBlocks * BLOCK_SIZE);
      }
      var growthStart, additional := BlockOf(addr) + oldBlocks, newBlocks - oldBlocks;
      if growthStart + additional > MaxBits() {
        return None;
      }
      var ok := TryClaim(growthStart, additional);
      r := if ok then Some(newBlocks * BLOCK_SIZE) else None;
    }
  }
}
