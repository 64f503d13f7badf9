/** The size classes of the slab allocator and how a request finds its class. */
module SizeClasses {
  import opened Wrappers

  const NUM_SIZE_CLASSES := 34

  const SIZE_CLASSES: seq<int> := [
    16, 32, 48, 64, 80, 96, 128,
    160, 192, 256, 320, 384, 512,
    768, 1024, 1280, 1536, 1792, 2048, 2560, 3072,
    3840, 4096, 8192, 12288, 16384, 24576,
    32768, 65536, 131072, 262144, 524288, 1048576, 2097152]

  const ITERATIONS: seq<int> := [
    409, 341, 292, 255, 227, 153, 170,
    36, 31, 25, 21, 18, 14,
    9, 7, 6, 2, 4, 3, 1, 2,
    1, 1, 1, 1, 1, 1,
    1, 1, 1, 1, 1, 1, 1]

  const MAX_SLAB_SIZE := 2097152

  lemma TableShape()
    ensures |SIZE_CLASSES| == |ITERATIONS| == NUM_SIZE_CLASSES
    ensures forall i :: 0 <= i < NUM_SIZE_CLASSES ==>
              16 <= SIZE_CLASSES[i] <= MAX_SLAB_SIZE && SIZE_CLASSES[i] % 16 == 0
    ensures forall i :: 0 <= i < NUM_SIZE_CLASSES ==> 1 <= ITERATIONS[i]
    ensures forall i, j :: 0 <= i < j < NUM_SIZE_CLASSES ==> SIZE_CLASSES[i] < SIZE_CLASSES[j]
    ensures SIZE_CLASSES[NUM_SIZE_CLASSES - 1] == MAX_SLAB_SIZE
  {
    forall i, j | 0 <= i < j < NUM_SIZE_CLASSES
      ensures SIZE_CLASSES[i] < SIZE_CLASSES[j]
    {
      TableRises(i, j);
    }
  }

  lemma TableStep(i: nat)
    requires i + 1 < NUM_SIZE_CLASSES
    ensures |SIZE_CLASSES| == NUM_SIZE_CLASSES && SIZE_CLASSES[i] < SIZE_CLASSES[i + 1]
  {
  }

  lemma {:induction false} TableRises(i: nat, j: nat)
    requires i < j < NUM_SIZE_CLASSES
    ensures |SIZE_CLASSES| == NUM_SIZE_CLASSES && SIZE_CLASSES[i] < SIZE_CLASSES[j]
    decreases j
  {
    TableStep(j - 1);
    if i < j - 1 {
      TableRises(i, j - 1);
    }
  }

  /** Classes with one block to a slab are small ones or multiples of a page. */
  lemma OneBlockSizes(c: nat)
    requires c < NUM_SIZE_CLASSES
    ensures |SIZE_CLASSES| == |ITERATIONS| == NUM_SIZE_CLASSES
    ensures ITERATIONS[c] == 1 ==> SIZE_CLASSES[c] <= 3840 || SIZE_CLASSES[c] % 4096 == 0
  {
  }

  /** `c` is the smallest class that holds `size` bytes. */
  ghost predicate SmallestFit(size: int, c: int) {
    && 0 <= c < NUM_SIZE_CLASSES && |SIZE_CLASSES| == NUM_SIZE_CLASSES
    && size <= SIZE_CLASSES[c]
    && forall i :: 0 <= i < c ==> SIZE_CLASSES[i] < size
  }

  /** The class of a request; nothing and more than 2 MiB have none. */
  ghost predicate ClassOf(size: int, r: Option<int>) {
    if 0 < size <= MAX_SLAB_SIZE then r.Some? && SmallestFit(size, r.value) else r.None?
  }

  lemma ClassUnique(size: int, r: Option<int>, r': Option<int>)
    requires ClassOf(size, r) && ClassOf(size, r')
    ensures r == r'
  {
    if r.Some? {
      assert r.value < r'.value || r'.value < r.value || r == r';
    }
  }

  /** The class of one page. */
  const PAGE_CLASS := 22

  lemma PageClassIs(c: int)
    ensures SmallestFit(4096, c) <==> c == PAGE_CLASS
  {
    TableShape();
    assert SIZE_CLASSES[PAGE_CLASS] == 4096;
  }

  /** Search the classes in order, as the table builder and the slow path do. */
  method FirstFit(size: int) returns (c: int)
    requires size <= MAX_SLAB_SIZE
    ensures SmallestFit(size, c)
  {
    TableShape();
    c := 0;
    while c < NUM_SIZE_CLASSES && SIZE_CLASSES[c] < size
      invariant 0 <= c <= NUM_SIZE_CLASSES
      invariant forall i :: 0 <= i < c ==> SIZE_CLASSES[i] < size
    {
      c := c + 1;
    }
  }

  /** Entry `i` of the table is the class of the sizes `16 * i + 1 .. 16 * (i + 1)`. */
  ghost predicate LutOk(lut: seq<int>) {
    |lut| == 256 && forall i :: 0 <= i < 256 ==> SmallestFit((i + 1) * 16, lut[i])
  }

  method BuildLut() returns (lut: seq<int>)
    ensures LutOk(lut)
  {
    lut := [];
    for i := 0 to 256
      invariant |lut| == i
      invariant forall j :: 0 <= j < i ==> SmallestFit((j + 1) * 16, lut[j])
    {
      var c := FirstFit((i + 1) * 16);
      lut := lut + [c];
    }
  }

  /** Class sizes are multiples of 16, so rounding a size up to one does not change its class. */
  lemma RoundedFit(size: int, c: int)
    requires 0 < size && SmallestFit(((size - 1) / 16 + 1) * 16, c)
    ensures SmallestFit(size, c)
  {
    TableShape();
    forall i | 0 <= i < c
      ensures SIZE_CLASSES[i] < size
    {
      BelowRounded(size, SIZE_CLASSES[i]);
    }
  }

  lemma BelowRounded(size: int, s: int)
    requires 0 < size && s % 16 == 0
    ensures s < ((size - 1) / 16 + 1) * 16 <==> s < size
  {
    assert s == s / 16 * 16;
  }

  /** The smallest fitting class, found from the `i`-th on. */
  function FitFrom(size: nat, i: nat): (c: nat)
    requires 0 < size <= MAX_SLAB_SIZE && i < NUM_SIZE_CLASSES && |SIZE_CLASSES| == NUM_SIZE_CLASSES
    requires forall j :: 0 <= j < i ==> SIZE_CLASSES[j] < size
    ensures SmallestFit(size, c)
    decreases NUM_SIZE_CLASSES - i
  {
    if size <= SIZE_CLASSES[i] then i else FitFrom(size, i + 1)
  }

  /** The class of a request, as an expression. */
  function ClassFor(size: nat, lut: seq<int>): (r: Option<int>)
    requires LutOk(lut)
    ensures ClassOf(size, r)
  {
    if size == 0 || size > MAX_SLAB_SIZE then None
    else if size <= 4096 then RoundedFit(size, lut[(size - 1) / 16]); Some(lut[(size - 1) / 16])
    else TableShape(); Some(FitFrom(size, 0))
  }

  /** Look the class up, or search for it. */
  method MatchSizeClass(size: int, lut: seq<int>) returns (r: Option<int>)
    requires 0 <= size && LutOk(lut)
    ensures ClassOf(size, r) && r == ClassFor(size, lut)
  {
    if size == 0 || size > MAX_SLAB_SIZE {
      return None;
    }
    if size <= 4096 {
      RoundedFit(size, lut[(size - 1) / 16]);
      return Some(lut[(size - 1) / 16]);
    }
    var c := FirstFit(size);
    ClassUnique(size, Some(c), ClassFor(size, lut));
    r := Some(c);
  }
}
