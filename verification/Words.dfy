/** 64-bit words seen as the set of their one-bits, and arrays of words seen as one long bitmap.

    Bitwise or is union, `w & !m` is difference, `w & m == 0` is disjointness, zero is the empty set
    and `u64::MAX` is `Span(0, 64)`. */
module Words {

  /** The word whose one-bits are the elements, all of them in `0..64`. */
  type Word = set<int>

  /** The contiguous bits `lo..hi`; as a word it is the mask `((1 << (hi - lo)) - 1) << lo`. */
  function Span(lo: int, hi: int): (s: set<int>) {
    set i {:trigger Between(lo, i, hi)} | lo <= i < hi
  }

  predicate Between(lo: int, i: int, hi: int) {
    lo <= i < hi
  }

  const MAX_WORD: Word := Span(0, 64)

  /** No bit of `lo..hi` is in `bits`. */
  ghost predicate AllFree(bits: set<int>, lo: int, hi: int) {
    forall b :: lo <= b < hi ==> b !in bits
  }

  /** `words` is the packed form of the bitmap `bits`: bit `64 * k + j` is bit `j` of word `k`. */
  ghost predicate Packs(words: seq<Word>, bits: set<int>) {
    && (forall k :: 0 <= k < |words| ==> words[k] <= MAX_WORD)
    && (forall b :: b in bits ==> 0 <= b < 64 * |words|)
    && (forall k, j :: 0 <= k < |words| && 0 <= j < 64 ==> (j in words[k] <==> 64 * k + j in bits))
  }

  /** The word and the position of a bit. */
  lemma BitAt(words: seq<Word>, bits: set<int>, b: int)
    requires Packs(words, bits) && 0 <= b < 64 * |words|
    ensures b % 64 in words[b / 64] <==> b in bits
  {
    assert b == 64 * (b / 64) + b % 64;
  }

  /** Setting a mask in one word sets exactly that stretch of the bitmap. */
  lemma OrWord(words: seq<Word>, bits: set<int>, k: int, shift: int, n: int)
    requires 0 <= k < |words| && 0 <= shift && 0 <= n && shift + n <= 64
    requires Packs(words, bits)
    ensures Packs(words[k := words[k] + Span(shift, shift + n)],
                  bits + Span(64 * k + shift, 64 * k + shift + n))
  {
    var words', bits' := words[k := words[k] + Span(shift, shift + n)],
                         bits + Span(64 * k + shift, 64 * k + shift + n);
    forall k', j | 0 <= k' < |words'| && 0 <= j < 64
      ensures j in words'[k'] <==> 64 * k' + j in bits'
    {
      assert j in words[k'] <==> 64 * k' + j in bits;
    }
  }

  /** Clearing a mask in one word clears exactly that stretch of the bitmap. */
  lemma ClearWord(words: seq<Word>, bits: set<int>, k: int, shift: int, n: int)
    requires 0 <= k < |words| && 0 <= shift && 0 <= n && shift + n <= 64
    requires Packs(words, bits)
    ensures Packs(words[k := words[k] - Span(shift, shift + n)],
                  bits - Span(64 * k + shift, 64 * k + shift + n))
  {
    var words', bits' := words[k := words[k] - Span(shift, shift + n)],
                         bits - Span(64 * k + shift, 64 * k + shift + n);
    forall k', j | 0 <= k' < |words'| && 0 <= j < 64
      ensures j in words'[k'] <==> 64 * k' + j in bits'
    {
      assert j in words[k'] <==> 64 * k' + j in bits;
    }
  }

  /** A mask misses a word exactly when that stretch of the bitmap is free. */
  lemma MaskMisses(words: seq<Word>, bits: set<int>, k: int, shift: int, n: int)
    requires 0 <= k < |words| && 0 <= shift && 0 <= n && shift + n <= 64
    requires Packs(words, bits)
    ensures words[k] !! Span(shift, shift + n)
       <==> AllFree(bits, 64 * k + shift, 64 * k + shift + n)
  {
    forall b | 64 * k <= b < 64 * k + 64
      ensures b in bits <==> b - 64 * k in words[k]
    {
      assert b == 64 * k + (b - 64 * k);
    }
    if !(words[k] !! Span(shift, shift + n)) {
      var j :| j in words[k] && j in Span(shift, shift + n);
      assert 64 * k + j in bits;
    }
  }

  /** A full word has no free bit. */
  lemma FullWord(words: seq<Word>, bits: set<int>, k: int)
    requires 0 <= k < |words| && Packs(words, bits) && words[k] == MAX_WORD
    ensures Span(64 * k, 64 * k + 64) <= bits
  {
    forall b | b in Span(64 * k, 64 * k + 64)
      ensures b in bits
    {
      assert b - 64 * k in words[k];
      assert b == 64 * k + (b - 64 * k);
    }
  }

  lemma SpanJoin(lo: int, mid: int, hi: int)
    requires lo <= mid <= hi
    ensures Span(lo, mid) + Span(mid, hi) == Span(lo, hi)
  {
  }
}
