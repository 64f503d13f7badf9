/** Values that may be absent, and small arithmetic. */
module Wrappers {
  datatype Option<+T> = None | Some(value: T)

  function Min(a: int, b: int): int {
    if a < b then a else b
  }

  function Max(a: int, b: int): int {
    if a < b then b else a
  }

  /** `size` rounded up to a multiple of `align`. */
  function AlignTo(size: int, align: int): int
    requires 0 < align
  {
    (size + align - 1) / align * align
  }

  /** How far `p` lies ahead of `from` on a ring of `n`, going up and around. */
  ghost function Ahead(from: nat, p: nat, n: nat): int {
    if from <= p then p - from else p + n - from
  }

  lemma Quotient(a: nat, b: nat)
    requires 0 < b
    ensures a / b * b <= a < (a / b + 1) * b
  {
  }
}
