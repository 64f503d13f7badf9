/** Aligned allocation: a larger block is taken from `malloc`, and the aligned address inside it is preceded
    by two words, a tag and the address of the block, from which `free`, `realloc` and
    `malloc_usable_size` find the block again. */
module Memaligns {
  import opened Wrappers
  import opened SizeClasses
  import opened Carving

  const USIZE_MAX := 0xFFFF_FFFF_FFFF_FFFF
  const OFFSET_SIZE := 8
  const TAG_SIZE := 16

  /** The eight bytes "OXIDALGN", least significant first. */
  const OX_ALIGN_TAG := 0x4E47_4C41_4449_584F

  predicate IsPowerOfTwo(n: nat) {
    n == 1 || (n > 0 && n % 2 == 0 && IsPowerOfTwo(n / 2))
  }

  ghost function Power(k: nat): nat {
    if k == 0 then 1 else 2 * Power(k - 1)
  }

  lemma {:induction false} PowerIff(n: nat)
    ensures IsPowerOfTwo(n) <==> exists k: nat :: n == Power(k)
  {
    if n == 1 {
      assert n == Power(0);
    } else if n > 0 && n % 2 == 0 {
      PowerIff(n / 2);
      assert IsPowerOfTwo(n) <==> IsPowerOfTwo(n / 2);
      if k: nat :| n / 2 == Power(k) {
        assert n == Power(k + 1);
      }
      if k: nat :| n == Power(k) {
        assert k > 0 && Power(k) == 2 * Power(k - 1);
        assert n / 2 == Power(k - 1);
      }
    } else if k: nat :| n == Power(k) {
      PowerShape(k);
    }
  }

  lemma {:induction false} PowerShape(k: nat)
    ensures 0 < Power(k) && (k > 0 ==> Power(k) % 2 == 0)
  {
    if k > 0 {
      PowerShape(k - 1);
      var half := Power(k - 1);
      assert Power(k) == 2 * half && 2 * half % 2 == 0;
    }
  }

  /** Rounding up goes to the next multiple. */
  lemma RoundsUp(x: nat, a: nat)
    requires 0 < a
    ensures x <= AlignTo(x, a) < x + a && AlignTo(x, a) % a == 0
  {
    Quotient(x + a - 1, a);
    var q := (x + a - 1) / a;
    MulDiv(q, a);
    assert q * a / a == q && q * a == q * a / a * a + q * a % a;
  }

  /** An alignment of at least a word is a multiple of a word. */
  lemma {:induction false} WordAligned(a: nat, x: nat)
    requires IsPowerOfTwo(a) && 8 <= a && x % a == 0
    ensures x % 8 == 0
  {
    var b := a / 8;
    assert a == 8 * b by {
      assert IsPowerOfTwo(a / 2) && IsPowerOfTwo(a / 2 / 2);
    }
    assert x == a * (x / a);
    assert x == 8 * (b * (x / a)) by {
      assert a * (x / a) == 8 * b * (x / a) == 8 * (b * (x / a));
    }
  }

  datatype Error = Einval | Nomem

  /** What `malloc` returned: null, or the address of a block and the bytes its user may use. */
  datatype Raw = Null | Block(addr: nat, usable: nat)

  /** `malloc` gives no less than what was asked for, inside the address space and 16-aligned. */
  ghost predicate Serves(r: Raw, total: nat) {
    r.Block? ==> 0 < r.addr && r.addr % 16 == 0 && total <= r.usable && r.addr + r.usable <= USIZE_MAX
  }

  datatype Result = Failed(error: Error) | Placed(ptr: nat)

  /** The aligned range lies in the block, behind the two words. */
  ghost predicate Fits(raw: Raw, ptr: nat, alignment: nat, size: nat) {
    && raw.Block? && 0 < alignment && ptr % alignment == 0
    && raw.addr + TAG_SIZE <= ptr && ptr + size <= raw.addr + raw.usable
  }

  lemma PlacementFits(raw: Raw, alignment: nat, size: nat)
    requires raw.Block? && 8 <= alignment && Serves(raw, size + alignment + TAG_SIZE)
    ensures Fits(raw, AlignTo(raw.addr + TAG_SIZE, alignment), alignment, size)
  {
    RoundsUp(raw.addr + TAG_SIZE, alignment);
  }

  /** Find the block an address belongs to: the one named in front of it if the tag is there and the name is
      one of ours, otherwise the one at the address itself. */
  ghost function Recover(word: map<nat, nat>, ptr: nat, ours: iset<int>): nat {
    if ptr >= TAG_SIZE && ptr - TAG_SIZE in word && word[ptr - TAG_SIZE] == OX_ALIGN_TAG
       && ptr - OFFSET_SIZE in word && word[ptr - OFFSET_SIZE] in ours
    then word[ptr - OFFSET_SIZE] else ptr
  }

  /** How many bytes may be used behind an address in a block with `usable` bytes. */
  ghost function UsableSize(word: map<nat, nat>, ptr: nat, ours: iset<int>, usable: nat): nat {
    Max(usable - (ptr - Recover(word, ptr, ours)), 0)
  }

  /** Memory once the two words in front of an aligned address are written. */
  function Tagged(word: map<nat, nat>, ptr: nat, raw: nat): map<nat, nat>
    requires TAG_SIZE <= ptr
  {
    word[ptr - TAG_SIZE := OX_ALIGN_TAG][ptr - OFFSET_SIZE := raw]
  }

  /** The block is found again, and behind the address there are at least as many bytes as were asked for. */
  lemma Recovers(word: map<nat, nat>, raw: Raw, ptr: nat, alignment: nat, size: nat, ours: iset<int>)
    requires Fits(raw, ptr, alignment, size) && raw.addr in ours
    ensures Recover(Tagged(word, ptr, raw.addr), ptr, ours) == raw.addr
    ensures size <= UsableSize(Tagged(word, ptr, raw.addr), ptr, ours, raw.usable)
  {
  }

  /** Writing the two words changes nothing for addresses in other blocks. */
  lemma OthersRecover(word: map<nat, nat>, raw: Raw, ptr: nat, alignment: nat, size: nat, ours: iset<int>,
                      other: Raw, ptr': nat, alignment': nat, size': nat)
    requires Fits(raw, ptr, alignment, size) && Fits(other, ptr', alignment', size')
    requires raw.addr + raw.usable <= other.addr || other.addr + other.usable <= raw.addr
    ensures Recover(Tagged(word, ptr, raw.addr), ptr', ours) == Recover(word, ptr', ours)
  {
  }

  /** An address is taken for that of a block of its own exactly unless the words in front of it are the tag and
      the address of another block of ours. */
  lemma RecoversItself(word: map<nat, nat>, ptr: nat, ours: iset<int>)
    ensures Recover(word, ptr, ours) == ptr <==>
      !(&& ptr >= TAG_SIZE && ptr - TAG_SIZE in word && word[ptr - TAG_SIZE] == OX_ALIGN_TAG
        && ptr - OFFSET_SIZE in word && word[ptr - OFFSET_SIZE] in ours && word[ptr - OFFSET_SIZE] != ptr)
  {
  }

  /** The word in front of an ordinary block that is looked at for the tag is part of its header: the link of the
      block, null or the address of a block, or in the hardened build a word whose lowest byte is the class. */
  ghost predicate HeaderWord(w: nat, hardened: bool) {
    if hardened then w % 256 < NUM_SIZE_CLASSES || w % 256 == 100 else w % 16 == 0
  }

  /** No header looks like the tag: addresses of blocks are even, and no class is numbered like the letter O. So
      the address of an ordinary block is never taken for an aligned one. */
  lemma OrdinaryRecovers(word: map<nat, nat>, ptr: nat, ours: iset<int>, usable: nat, hardened: bool)
    requires ptr >= TAG_SIZE && ptr - TAG_SIZE in word && HeaderWord(word[ptr - TAG_SIZE], hardened)
    ensures Recover(word, ptr, ours) == ptr && UsableSize(word, ptr, ours, usable) == usable
  {
    assert OX_ALIGN_TAG % 256 == 79 && OX_ALIGN_TAG % 16 == 15;
  }

  /** Aligned allocation in one block changes nothing for the address of another block: its header is outside. */
  lemma OrdinaryUnchanged(word: map<nat, nat>, raw: Raw, ptr: nat, alignment: nat, size: nat, ours: iset<int>,
                          other: nat)
    requires Fits(raw, ptr, alignment, size)
    requires raw.addr + raw.usable + TAG_SIZE <= other || other <= raw.addr
    ensures Recover(Tagged(word, ptr, raw.addr), other, ours) == Recover(word, other, ours)
  {
  }

  class Words {
    /** Memory, word by word. */
    var word: map<nat, nat>

    constructor ()
      ensures word == map[]
    {
      word := map[];
    }

    /** `first` and `second` are what `malloc` returns, the second time only if the first result is null. */
    method PosixMemalign(memptrNull: bool, alignment: nat, size: nat, first: Raw, second: Raw, ghost ours: iset<int>)
      returns (r: Result, ghost raw: Raw)
      requires alignment <= USIZE_MAX && size <= USIZE_MAX
      requires size + alignment + TAG_SIZE <= USIZE_MAX ==>
        Serves(first, size + alignment + TAG_SIZE) && Serves(second, size + alignment + TAG_SIZE)
      requires (first.Block? ==> first.addr in ours) && (second.Block? ==> second.addr in ours)
      modifies this
      ensures r == Failed(Einval) <==> memptrNull || alignment < 8 || !IsPowerOfTwo(alignment)
      ensures r == Failed(Nomem) <==>
        && !memptrNull && alignment >= 8 && IsPowerOfTwo(alignment)
        && (size + alignment + TAG_SIZE > USIZE_MAX || (first.Null? && second.Null?))
      ensures r.Failed? ==> word == old(word)
      ensures r.Placed? ==> raw == (if first.Block? then first else second) && Fits(raw, r.ptr, alignment, size)
      ensures r.Placed? ==> r.ptr % 8 == 0 && word == Tagged(old(word), r.ptr, raw.addr)
      ensures r.Placed? ==> Recover(word, r.ptr, ours) == raw.addr && size <= UsableSize(word, r.ptr, ours, raw.usable)
    {
      raw := Null;
      if memptrNull {
        return Failed(Einval), raw;
      }
      if alignment < 8 || !IsPowerOfTwo(alignment) {
        return Failed(Einval), raw;
      }
      var total := size + alignment + TAG_SIZE;
      if total > USIZE_MAX {
        return Failed(Nomem), raw;
      }
      var got := first;
      if got.Null? {
        got := second;
        if got.Null? {
          return Failed(Nomem), raw;
        }
      }
      raw := got;
      PlacementFits(got, alignment, size);
      var aligned := AlignTo(got.addr + TAG_SIZE, alignment);
      WordAligned(alignment, aligned);
      Recovers(word, raw, aligned, alignment, size, ours);
      word := word[aligned - TAG_SIZE := OX_ALIGN_TAG];
      word := word[aligned - OFFSET_SIZE := got.addr];
      r := Placed(aligned);
    }
  }
}
