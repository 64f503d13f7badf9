/** The life of slab blocks, seen as a transition system with any number of threads: blocks are carved out
    of slabs, and from then on move between the users of the allocator, the lists of the threads, the
    lists of the CPUs and the hands of threads that carry them from one list to another. A step is what one
    thread does at once: work on its own lists, or one push or pop on a shared list. */
module SlabLife {
  import opened Wrappers
  import opened Links
  import opened SizeClasses
  import opened Carving

  type Class = c: nat | c < NUM_SIZE_CLASSES

  datatype Place = Out | Hand(thread: nat) | Bin(owner: nat, class_: Class) | Shard(cpu: nat, kind: Class)

  /** A slab that `owner` mapped for blocks of one class; the first `carved` of them exist. Its metadata takes
      `head` bytes at its start. A big block that was resized to a slab class counts as a slab of its own, with
      one block and no metadata. */
  datatype Slab = Slab(start: nat, head: nat, class_: Class, owner: nat, carved: nat)

  function NewSlab(start: nat, c: Class, t: nat): Slab {
    Slab(start, METADATA_SIZE, c, t, 0)
  }

  function LoneBlock(start: nat, c: Class, t: nat): Slab {
    Slab(start, 0, c, t, 1)
  }

  datatype Life = Life(at: map<Place, seq<nat>>, slabs: seq<Slab>)

  // ------------------------------------------------------------------ blocks of slabs

  function ClassBytes(c: Class): nat {
    TableShape();
    SIZE_CLASSES[c]
  }

  function Size(c: Class, y: Layout): nat {
    y.sizes[c]
  }

  function Capacity(c: Class, y: Layout): nat {
    y.counts[c]
  }

  function BlockOf(s: Slab, i: nat, y: Layout): nat {
    Nth(s.start + s.head, Size(s.class_, y), i)
  }

  function EndOf(s: Slab, y: Layout): nat {
    BlockOf(s, Capacity(s.class_, y), y)
  }

  /** A slab is not empty. */
  lemma EndBehind(s: Slab, y: Layout)
    requires LayoutOk(y)
    ensures s.start < EndOf(s, y)
  {
    Spaced(s.start + s.head, Size(s.class_, y), 0, Capacity(s.class_, y));
  }

  ghost predicate CarvedAt(slabs: seq<Slab>, k: nat, i: nat, b: nat, c: Class, y: Layout) {
    k < |slabs| && i < slabs[k].carved && slabs[k].class_ == c && b == BlockOf(slabs[k], i, y)
  }

  /** `b` is a block that has been carved, of class `c`. */
  ghost predicate HasClass(slabs: seq<Slab>, b: nat, c: Class, y: Layout) {
    exists k: nat, i: nat :: CarvedAt(slabs, k, i, b, c, y)
  }

  ghost predicate Carved(slabs: seq<Slab>, b: nat, y: Layout) {
    exists c: Class :: HasClass(slabs, b, c, y)
  }

  ghost predicate SlabOk(s: Slab, y: Layout) {
    0 < s.start && s.start % 16 == 0 && s.head % 16 == 0 && s.carved <= Capacity(s.class_, y)
  }

  ghost predicate Disjoint(s: Slab, t: Slab, y: Layout) {
    EndOf(s, y) <= t.start || EndOf(t, y) <= s.start
  }

  ghost predicate SlabsOk(slabs: seq<Slab>, y: Layout) {
    && (forall k :: 0 <= k < |slabs| ==> SlabOk(slabs[k], y))
    && (forall k, l :: 0 <= k < l < |slabs| ==> Disjoint(slabs[k], slabs[l], y))
  }

  /** A block lies inside its slab, behind the metadata, and is 16-aligned. */
  lemma BlockInside(slabs: seq<Slab>, k: nat, i: nat, b: nat, c: Class, y: Layout)
    requires LayoutOk(y) && SlabsOk(slabs, y) && CarvedAt(slabs, k, i, b, c, y)
    ensures slabs[k].start + slabs[k].head <= b && b + Size(c, y) <= EndOf(slabs[k], y) && b % 16 == 0
  {
    var s := slabs[k];
    Spaced(s.start + s.head, Size(c, y), i, Capacity(c, y));
    NthAligned(s.start + s.head, Size(c, y), i);
  }

  /** Two blocks share no byte, and an address is that of one block only. */
  lemma BlocksApart(slabs: seq<Slab>, k: nat, i: nat, b: nat, c: Class, l: nat, j: nat, d: nat, e: Class, y: Layout)
    requires LayoutOk(y) && SlabsOk(slabs, y)
    requires CarvedAt(slabs, k, i, b, c, y) && CarvedAt(slabs, l, j, d, e, y)
    ensures if k == l && i == j then b == d && c == e else b + Size(c, y) <= d || d + Size(e, y) <= b
  {
    if k != l {
      BlockInside(slabs, k, i, b, c, y);
      BlockInside(slabs, l, j, d, e, y);
      assert k < l ==> Disjoint(slabs[k], slabs[l], y);
      assert l < k ==> Disjoint(slabs[l], slabs[k], y);
    } else if i < j {
      Spaced(slabs[k].start + slabs[k].head, Size(c, y), i, j);
    } else if j < i {
      Spaced(slabs[k].start + slabs[k].head, Size(c, y), j, i);
    }
  }

  // ------------------------------------------------------------------ lists without some blocks

  function Without(s: seq<nat>, chain: seq<nat>): seq<nat> {
    if s == [] then []
    else if s[0] in chain then Without(s[1..], chain)
    else [s[0]] + Without(s[1..], chain)
  }

  lemma {:induction false} WithoutIs(s: seq<nat>, chain: seq<nat>)
    ensures |Without(s, chain)| <= |s|
    ensures forall b :: b in Without(s, chain) <==> b in s && b !in chain
    ensures Distinct(s) ==> Distinct(Without(s, chain))
  {
    if s != [] {
      WithoutIs(s[1..], chain);
      assert s == [s[0]] + s[1..];
    }
  }

  lemma {:induction false} WithoutPrefix(s: seq<nat>, n: nat, chain: seq<nat>)
    requires Distinct(s) && n <= |s|
    requires forall b :: b in s[..n] ==> b in chain
    requires forall b :: b in s[n..] ==> b !in chain
    ensures Without(s, chain) == s[n..]
  {
    if s != [] {
      assert s[1..][Max(n - 1, 0)..] == if n == 0 then s[1..] else s[n..];
      assert n > 0 ==> s[0] == s[..n][0] && s[1..][..n - 1] == s[..n][1..];
      assert n == 0 ==> s[0] == s[n..][0];
      WithoutPrefix(s[1..], Max(n - 1, 0), chain);
    }
  }

  // ------------------------------------------------------------------ places

  function At(at: map<Place, seq<nat>>, p: Place): seq<nat> {
    if p in at then at[p] else []
  }

  /** No block is in two places, or twice in one. */
  ghost predicate OnePlace(at: map<Place, seq<nat>>) {
    && (forall p {:trigger Distinct(At(at, p))} :: Distinct(At(at, p)))
    && (forall p, q {:trigger Apart(At(at, p), At(at, q))} :: p != q ==> Apart(At(at, p), At(at, q)))
  }

  ghost predicate Placed(at: map<Place, seq<nat>>, b: nat) {
    exists p :: b in At(at, p)
  }

  /** Blocks move from somewhere in one list to the front of another. */
  function Move(at: map<Place, seq<nat>>, from: Place, to: Place, chain: seq<nat>): map<Place, seq<nat>> {
    at[from := Without(At(at, from), chain)][to := chain + At(at, to)]
  }

  ghost predicate Movable(at: map<Place, seq<nat>>, from: Place, to: Place, chain: seq<nat>) {
    from != to && Distinct(chain) && forall b :: b in chain ==> b in At(at, from)
  }

  lemma MoveAt(at: map<Place, seq<nat>>, from: Place, to: Place, chain: seq<nat>)
    requires Movable(at, from, to, chain)
    ensures At(Move(at, from, to, chain), from) == Without(At(at, from), chain)
    ensures At(Move(at, from, to, chain), to) == chain + At(at, to)
    ensures forall p :: p != from && p != to ==> At(Move(at, from, to, chain), p) == At(at, p)
  {
  }

  /** Moving blocks keeps every block in exactly the places it was in, one. */
  lemma MoveKeepsOnePlace(at: map<Place, seq<nat>>, from: Place, to: Place, chain: seq<nat>)
    requires OnePlace(at) && Movable(at, from, to, chain)
    ensures OnePlace(Move(at, from, to, chain))
  {
    var at' := Move(at, from, to, chain);
    MoveAt(at, from, to, chain);
    WithoutIs(At(at, from), chain);
    assert Apart(At(at, from), At(at, to));
    JoinDistinct(chain, At(at, to));
    forall p, q | p != q
      ensures Apart(At(at', p), At(at', q))
    {
      assert Apart(At(at, p), At(at, q));
      assert p != from ==> Apart(At(at, from), At(at, p));
      assert q != from ==> Apart(At(at, from), At(at, q));
    }
  }

  lemma JoinDistinct(s: seq<nat>, t: seq<nat>)
    requires Distinct(s) && Distinct(t) && Apart(s, t)
    ensures Distinct(s + t)
  {
    assert forall i :: 0 <= i < |s| ==> s[i] in s;
    assert forall i :: 0 <= i < |t| ==> t[i] in t;
  }

  lemma MoveKeepsPlaced(at: map<Place, seq<nat>>, from: Place, to: Place, chain: seq<nat>, b: nat)
    requires Movable(at, from, to, chain)
    ensures Placed(Move(at, from, to, chain), b) <==> Placed(at, b)
  {
    var at' := Move(at, from, to, chain);
    MoveAt(at, from, to, chain);
    WithoutIs(At(at, from), chain);
    if Placed(at', b) {
      var p :| b in At(at', p);
      assert b in At(at, if p == to && b in chain then from else p);
    }
    if Placed(at, b) {
      var p :| b in At(at, p);
      assert b in At(at', if p == from && b in chain then to else p);
    }
  }

  // ------------------------------------------------------------------ steps

  /** How many free blocks of a class a thread keeps before it passes them on. */
  function Limit(c: Class, y: Layout): nat {
    y.limits[c]
  }

  /** The most blocks that are carved at once. */
  const MAX_INIT := 48

  /** What thread `t` can do at once.
        Hit     hand the first block of one of its lists to the user
        Keep    put a freed block in front of one of its lists
        Give    take a freed block in hand
        Grab    take the first `n` blocks of a shard in hand
        Fill    move blocks from its hand to one of its lists that is empty
        Push    move blocks from its hand to the front of a shard
        Unload  take one of its lists in hand
        Map     make a new slab
        Carve   take the next `n` blocks of one of its slabs in hand
        Adopt   resize a big block, which a user has, to a slab class with one block to a slab */
  datatype Step =
    | Hit(t: nat, c: Class)
    | Keep(t: nat, c: Class, b: nat)
    | Give(t: nat, b: nat)
    | Grab(t: nat, p: nat, c: Class, n: nat)
    | Fill(t: nat, c: Class, chain: seq<nat>)
    | Push(t: nat, p: nat, c: Class, chain: seq<nat>)
    | Unload(t: nat, c: Class)
    | Map(t: nat, c: Class, start: nat)
    | Carve(t: nat, k: nat, n: nat)
    | Adopt(t: nat, c: Class, start: nat)

  /** The step only moves blocks. */
  predicate Moves(step: Step) {
    !step.Map? && !step.Carve? && !step.Adopt?
  }

  /** Where a step takes blocks from, where to, and which. */
  datatype Route = Route(from: Place, to: Place, chain: seq<nat>)

  function RouteOf(at: map<Place, seq<nat>>, step: Step): Route
    requires Moves(step) && Possible(at, step)
  {
    match step
    case Hit(t, c) => Route(Bin(t, c), Out, At(at, Bin(t, c))[..1])
    case Keep(t, c, b) => Route(Out, Bin(t, c), [b])
    case Give(t, b) => Route(Out, Hand(t), [b])
    case Grab(t, p, c, n) => Route(Shard(p, c), Hand(t), At(at, Shard(p, c))[..n])
    case Fill(t, c, chain) => Route(Hand(t), Bin(t, c), chain)
    case Push(t, p, c, chain) => Route(Hand(t), Shard(p, c), chain)
    case Unload(t, c) => Route(Bin(t, c), Hand(t), At(at, Bin(t, c)))
  }

  predicate Possible(at: map<Place, seq<nat>>, step: Step) {
    match step
    case Hit(t, c) => At(at, Bin(t, c)) != []
    case Grab(t, p, c, n) => n <= |At(at, Shard(p, c))|
    case _ => true
  }

  ghost predicate AllOfClass(slabs: seq<Slab>, chain: seq<nat>, c: Class, y: Layout) {
    forall b :: b in chain ==> HasClass(slabs, b, c, y)
  }

  /** There can be one more slab: it overlaps no other. */
  ghost predicate Addable(slabs: seq<Slab>, s: Slab, y: Layout) {
    SlabOk(s, y) && forall k :: 0 <= k < |slabs| ==> Disjoint(slabs[k], s, y)
  }

  ghost predicate Enabled(l: Life, step: Step, y: Layout)
    requires LayoutOk(y)
  {
    && (Moves(step) ==>
          Possible(l.at, step)
          && var r := RouteOf(l.at, step);
             Distinct(r.chain) && forall b :: b in r.chain ==> b in At(l.at, r.from))
    && match step
       case Keep(t, c, b) => HasClass(l.slabs, b, c, y) && |At(l.at, Bin(t, c))| < Limit(c, y)
       case Fill(t, c, chain) => AllOfClass(l.slabs, chain, c, y) && At(l.at, Bin(t, c)) == [] && |chain| <= MAX_INIT
       case Push(t, p, c, chain) => AllOfClass(l.slabs, chain, c, y)
       case Map(t, c, start) => Addable(l.slabs, NewSlab(start, c, t), y)
       case Adopt(t, c, start) => Capacity(c, y) == 1 && Addable(l.slabs, LoneBlock(start, c, t), y)
       case Carve(t, k, n) =>
         k < |l.slabs| && l.slabs[k].owner == t && l.slabs[k].carved + n <= Capacity(l.slabs[k].class_, y)
       case _ => true
  }

  function NewBlocks(s: Slab, n: nat, y: Layout): seq<nat> {
    Row(BlockOf(s, s.carved, y), Size(s.class_, y), n)
  }

  function Apply(l: Life, step: Step, y: Layout): Life
    requires LayoutOk(y) && Enabled(l, step, y)
  {
    match step
    case Map(t, c, start) => l.(slabs := l.slabs + [NewSlab(start, c, t)])
    case Adopt(t, c, start) => Life(l.at[Out := [start] + At(l.at, Out)], l.slabs + [LoneBlock(start, c, t)])
    case Carve(t, k, n) =>
      var s := l.slabs[k];
      Life(l.at[Hand(t) := NewBlocks(s, n, y) + At(l.at, Hand(t))], CutFrom(l.slabs, k, n))
    case _ =>
      var r := RouteOf(l.at, step);
      l.(at := Move(l.at, r.from, r.to, r.chain))
  }

  // ------------------------------------------------------------------ what every step keeps

  /** The blocks that exist are the blocks that are somewhere. */
  ghost predicate Exact(l: Life, y: Layout) {
    forall b :: Placed(l.at, b) <==> Carved(l.slabs, b, y)
  }

  /** Lists hold blocks of their own class only. */
  ghost predicate Sorted(l: Life, y: Layout) {
    && (forall t, c :: AllOfClass(l.slabs, At(l.at, Bin(t, c)), c, y))
    && (forall p, c :: AllOfClass(l.slabs, At(l.at, Shard(p, c)), c, y))
  }

  ghost predicate Bounded(at: map<Place, seq<nat>>, y: Layout)
    requires LayoutOk(y)
  {
    forall t, c :: |At(at, Bin(t, c))| <= Max(Limit(c, y), MAX_INIT)
  }

  ghost predicate Inv(l: Life, y: Layout)
    requires LayoutOk(y)
  {
    SlabsOk(l.slabs, y) && OnePlace(l.at) && Exact(l, y) && Sorted(l, y) && Bounded(l.at, y)
  }

  lemma RoutesDiffer(at: map<Place, seq<nat>>, step: Step)
    requires Moves(step) && Possible(at, step)
    ensures RouteOf(at, step).from != RouteOf(at, step).to
  {
  }

  lemma MovesKeepSorted(l: Life, step: Step, y: Layout)
    requires LayoutOk(y) && Inv(l, y) && Enabled(l, step, y) && Moves(step)
    ensures Sorted(Apply(l, step, y), y) && Bounded(Apply(l, step, y).at, y)
  {
    var r := RouteOf(l.at, step);
    RoutesDiffer(l.at, step);
    MoveAt(l.at, r.from, r.to, r.chain);
    WithoutIs(At(l.at, r.from), r.chain);
  }

  lemma MovesKeepInv(l: Life, step: Step, y: Layout)
    requires LayoutOk(y) && Inv(l, y) && Enabled(l, step, y) && Moves(step)
    ensures Inv(Apply(l, step, y), y)
  {
    var r := RouteOf(l.at, step);
    RoutesDiffer(l.at, step);
    MovesKeepSorted(l, step, y);
    MoveKeepsOnePlace(l.at, r.from, r.to, r.chain);
    forall b
      ensures Placed(Apply(l, step, y).at, b) <==> Carved(l.slabs, b, y)
    {
      MoveKeepsPlaced(l.at, r.from, r.to, r.chain, b);
    }
  }

  /** The blocks of `slabs'` are those of `slabs` and, in class `c`, those of `cut`. */
  ghost predicate Grown(slabs: seq<Slab>, slabs': seq<Slab>, cut: seq<nat>, c: Class, y: Layout) {
    forall b, d :: HasClass(slabs', b, d, y) <==> HasClass(slabs, b, d, y) || (d == c && b in cut)
  }

  lemma MapGrows(slabs: seq<Slab>, s: Slab, y: Layout)
    requires s.carved == 0
    ensures Grown(slabs, slabs + [s], [], s.class_, y)
  {
    forall b, d
      ensures HasClass(slabs + [s], b, d, y) <==> HasClass(slabs, b, d, y)
    {
      if HasClass(slabs, b, d, y) {
        var k: nat, i: nat :| CarvedAt(slabs, k, i, b, d, y);
        assert CarvedAt(slabs + [s], k, i, b, d, y);
      }
      if HasClass(slabs + [s], b, d, y) {
        var k: nat, i: nat :| CarvedAt(slabs + [s], k, i, b, d, y);
        assert CarvedAt(slabs, k, i, b, d, y);
      }
    }
  }

  /** The blocks that carving adds are the next ones of the slab. */
  lemma NewBlocksAt(s: Slab, n: nat, y: Layout)
    ensures |NewBlocks(s, n, y)| == n
    ensures forall i: nat :: i < n ==> NewBlocks(s, n, y)[i] == BlockOf(s, s.carved + i, y)
  {
    forall i: nat | i < n
      ensures NewBlocks(s, n, y)[i] == BlockOf(s, s.carved + i, y)
    {
      Shifted(s.start + s.head, Size(s.class_, y), s.carved, i);
    }
  }

  function CutFrom(slabs: seq<Slab>, k: nat, n: nat): seq<Slab>
    requires k < |slabs|
  {
    slabs[k := slabs[k].(carved := slabs[k].carved + n)]
  }

  lemma CarveAdds(slabs: seq<Slab>, k: nat, n: nat, b: nat, d: Class, y: Layout)
    requires k < |slabs| && (HasClass(slabs, b, d, y) || (d == slabs[k].class_ && b in NewBlocks(slabs[k], n, y)))
    ensures HasClass(CutFrom(slabs, k, n), b, d, y)
  {
    if HasClass(slabs, b, d, y) {
      var m: nat, i: nat :| CarvedAt(slabs, m, i, b, d, y);
      assert CarvedAt(CutFrom(slabs, k, n), m, i, b, d, y);
    } else {
      NewBlocksAt(slabs[k], n, y);
      var i: nat :| i < n && b == NewBlocks(slabs[k], n, y)[i];
      assert CarvedAt(CutFrom(slabs, k, n), k, slabs[k].carved + i, b, d, y);
    }
  }

  lemma CarveAddsOnly(slabs: seq<Slab>, k: nat, n: nat, b: nat, d: Class, y: Layout)
    requires k < |slabs| && HasClass(CutFrom(slabs, k, n), b, d, y)
    ensures HasClass(slabs, b, d, y) || (d == slabs[k].class_ && b in NewBlocks(slabs[k], n, y))
  {
    var m: nat, i: nat :| CarvedAt(CutFrom(slabs, k, n), m, i, b, d, y);
    if m == k && slabs[k].carved <= i {
      NewBlocksAt(slabs[k], n, y);
      assert b == NewBlocks(slabs[k], n, y)[i - slabs[k].carved];
    } else {
      assert CarvedAt(slabs, m, i, b, d, y);
    }
  }

  lemma CarveGrows(slabs: seq<Slab>, k: nat, n: nat, y: Layout)
    requires k < |slabs|
    ensures Grown(slabs, CutFrom(slabs, k, n), NewBlocks(slabs[k], n, y), slabs[k].class_, y)
  {
    forall b, d
      ensures HasClass(CutFrom(slabs, k, n), b, d, y) <==>
                HasClass(slabs, b, d, y) || (d == slabs[k].class_ && b in NewBlocks(slabs[k], n, y))
    {
      if HasClass(CutFrom(slabs, k, n), b, d, y) {
        CarveAddsOnly(slabs, k, n, b, d, y);
      } else if HasClass(slabs, b, d, y) || (d == slabs[k].class_ && b in NewBlocks(slabs[k], n, y)) {
        CarveAdds(slabs, k, n, b, d, y);
      }
    }
  }

  lemma OneOrigin(slabs: seq<Slab>, k: nat, i: nat, c: Class, l: nat, j: nat, e: Class, b: nat, y: Layout)
    requires LayoutOk(y) && SlabsOk(slabs, y)
    requires CarvedAt(slabs, k, i, b, c, y) && CarvedAt(slabs, l, j, b, e, y)
    ensures k == l && i == j && c == e
  {
    BlocksApart(slabs, k, i, b, c, l, j, b, e, y);
  }

  /** A block that is about to be carved does not exist yet. */
  lemma NotYetCarved(slabs: seq<Slab>, k: nat, j: nat, y: Layout)
    requires LayoutOk(y) && SlabsOk(slabs, y) && k < |slabs| && slabs[k].carved <= j < Capacity(slabs[k].class_, y)
    ensures !Carved(slabs, BlockOf(slabs[k], j, y), y)
  {
    var b := BlockOf(slabs[k], j, y);
    var slabs' := CutFrom(slabs, k, j + 1 - slabs[k].carved);
    CutKeepsSlabs(slabs, k, j + 1 - slabs[k].carved, y);
    forall c: Class, m: nat, i: nat
      ensures !CarvedAt(slabs, m, i, b, c, y)
    {
      if CarvedAt(slabs, m, i, b, c, y) {
        assert CarvedAt(slabs', m, i, b, c, y);
        OneOrigin(slabs', m, i, c, k, j, slabs[k].class_, b, y);
      }
    }
  }

  /** Blocks that are about to be carved are nowhere yet. */
  lemma FreshBlocks(l: Life, k: nat, n: nat, y: Layout)
    requires LayoutOk(y) && SlabsOk(l.slabs, y) && Exact(l, y)
    requires k < |l.slabs| && l.slabs[k].carved + n <= Capacity(l.slabs[k].class_, y)
    ensures Distinct(NewBlocks(l.slabs[k], n, y))
    ensures forall p :: Apart(NewBlocks(l.slabs[k], n, y), At(l.at, p))
  {
    var s := l.slabs[k];
    RowDistinct(BlockOf(s, s.carved, y), Size(s.class_, y), n);
    NewBlocksAt(s, n, y);
    forall p, b | b in NewBlocks(s, n, y)
      ensures b !in At(l.at, p)
    {
      var j: nat :| j < n && b == NewBlocks(s, n, y)[j];
      NotYetCarved(l.slabs, k, s.carved + j, y);
      assert b in At(l.at, p) ==> Placed(l.at, b);
    }
  }

  lemma SlabKeepsInv(l: Life, s: Slab, y: Layout)
    requires LayoutOk(y) && Inv(l, y) && Addable(l.slabs, s, y) && s.carved == 0
    ensures Inv(l.(slabs := l.slabs + [s]), y)
  {
    MapGrows(l.slabs, s, y);
  }

  lemma MapKeepsInv(l: Life, step: Step, y: Layout)
    requires LayoutOk(y) && Inv(l, y) && Enabled(l, step, y) && step.Map?
    ensures Inv(Apply(l, step, y), y)
  {
    SlabKeepsInv(l, NewSlab(step.start, step.c, step.t), y);
  }

  /** New blocks, put where no block was twice, are in one place. */
  lemma AddKeepsOnePlace(at: map<Place, seq<nat>>, to: Place, cut: seq<nat>)
    requires OnePlace(at) && Distinct(cut) && forall p :: Apart(cut, At(at, p))
    ensures OnePlace(at[to := cut + At(at, to)])
    ensures forall b :: Placed(at[to := cut + At(at, to)], b) <==> Placed(at, b) || b in cut
  {
    var at' := at[to := cut + At(at, to)];
    assert Apart(cut, At(at, to));
    JoinDistinct(cut, At(at, to));
    assert forall p :: At(at', p) == if p == to then cut + At(at, to) else At(at, p);
    forall p, q | p != q
      ensures Apart(At(at', p), At(at', q))
    {
      assert Apart(At(at, p), At(at, q)) && Apart(cut, At(at, p)) && Apart(cut, At(at, q));
    }
    forall b
      ensures Placed(at', b) <==> Placed(at, b) || b in cut
    {
      assert b in cut ==> b in At(at', to);
      assert forall p :: b in At(at, p) ==> b in At(at', p);
    }
  }

  /** Growing the set of blocks, and putting the new ones where they are in no list. */
  lemma GrowthKeepsInv(l: Life, l': Life, to: Place, cut: seq<nat>, c: Class, y: Layout)
    requires LayoutOk(y) && Inv(l, y) && SlabsOk(l'.slabs, y) && !to.Bin? && !to.Shard?
    requires Grown(l.slabs, l'.slabs, cut, c, y) && Distinct(cut) && forall p :: Apart(cut, At(l.at, p))
    requires l'.at == l.at[to := cut + At(l.at, to)]
    ensures Inv(l', y)
  {
    AddKeepsOnePlace(l.at, to, cut);
    forall b
      ensures Carved(l'.slabs, b, y) <==> Carved(l.slabs, b, y) || b in cut
    {
      assert HasClass(l'.slabs, b, c, y) <==> HasClass(l.slabs, b, c, y) || b in cut;
    }
  }

  lemma CarveKeepsInv(l: Life, step: Step, y: Layout)
    requires LayoutOk(y) && Inv(l, y) && Enabled(l, step, y) && step.Carve?
    ensures Inv(Apply(l, step, y), y)
  {
    var s := l.slabs[step.k];
    CarveGrows(l.slabs, step.k, step.n, y);
    FreshBlocks(l, step.k, step.n, y);
    CutKeepsSlabs(l.slabs, step.k, step.n, y);
    GrowthKeepsInv(l, Apply(l, step, y), Hand(step.t), NewBlocks(s, step.n, y), s.class_, y);
  }

  /** A lone block is a slab from which one block is carved at once. */
  lemma AdoptKeepsInv(l: Life, step: Step, y: Layout)
    requires LayoutOk(y) && Inv(l, y) && Enabled(l, step, y) && step.Adopt?
    ensures Inv(Apply(l, step, y), y)
  {
    var s := LoneBlock(step.start, step.c, step.t).(carved := 0);
    var k, m := |l.slabs|, l.(slabs := l.slabs + [s]);
    SlabKeepsInv(l, s, y);
    assert NewBlocks(s, 1, y) == [step.start];
    CarveGrows(m.slabs, k, 1, y);
    FreshBlocks(m, k, 1, y);
    CutKeepsSlabs(m.slabs, k, 1, y);
    assert CutFrom(m.slabs, k, 1) == l.slabs + [LoneBlock(step.start, step.c, step.t)];
    GrowthKeepsInv(m, Apply(l, step, y), Out, [step.start], step.c, y);
  }

  lemma CutKeepsSlabs(slabs: seq<Slab>, k: nat, n: nat, y: Layout)
    requires SlabsOk(slabs, y) && k < |slabs| && slabs[k].carved + n <= Capacity(slabs[k].class_, y)
    ensures SlabsOk(CutFrom(slabs, k, n), y)
  {
    var slabs' := CutFrom(slabs, k, n);
    forall m, m' | 0 <= m < m' < |slabs|
      ensures Disjoint(slabs'[m], slabs'[m'], y)
    {
      assert Disjoint(slabs[m], slabs[m'], y);
    }
  }

  lemma StepKeepsInv(l: Life, step: Step, y: Layout)
    requires LayoutOk(y) && Inv(l, y) && Enabled(l, step, y)
    ensures Inv(Apply(l, step, y), y)
  {
    if step.Map? {
      MapKeepsInv(l, step, y);
    } else if step.Carve? {
      CarveKeepsInv(l, step, y);
    } else if step.Adopt? {
      AdoptKeepsInv(l, step, y);
    } else {
      MovesKeepInv(l, step, y);
    }
  }

  // ------------------------------------------------------------------ runs

  /** `steps` lead from `l` to `l'`. */
  ghost predicate Runs(l: Life, steps: seq<Step>, l': Life, y: Layout)
    requires LayoutOk(y)
    decreases |steps|
  {
    if steps == [] then l == l'
    else Enabled(l, steps[0], y) && Runs(Apply(l, steps[0], y), steps[1..], l', y)
  }

  const START := Life(map[], [])

  lemma StartInv(y: Layout)
    requires LayoutOk(y)
    ensures Inv(START, y)
  {
  }

  lemma {:induction false} RunKeepsInv(l: Life, steps: seq<Step>, l': Life, y: Layout)
    requires LayoutOk(y) && Inv(l, y) && Runs(l, steps, l', y)
    ensures Inv(l', y)
    decreases |steps|
  {
    if steps != [] {
      StepKeepsInv(l, steps[0], y);
      RunKeepsInv(Apply(l, steps[0], y), steps[1..], l', y);
    }
  }

  /** After every run, whatever the threads did: each carved block is in exactly one place. */
  lemma EveryBlockOnce(steps: seq<Step>, l: Life, b: nat, y: Layout)
    requires LayoutOk(y) && Runs(START, steps, l, y) && Carved(l.slabs, b, y)
    ensures exists p :: b in At(l.at, p) && forall q :: b in At(l.at, q) ==> q == p
  {
    StartInv(y);
    RunKeepsInv(START, steps, l, y);
    assert Placed(l.at, b);
    var p :| b in At(l.at, p);
    forall q | b in At(l.at, q)
      ensures q == p
    {
      assert p != q ==> Apart(At(l.at, p), At(l.at, q));
    }
  }

  /** No metadata of a slab lies within a block. */
  lemma MetadataApart(slabs: seq<Slab>, b: nat, c: Class, n: nat, y: Layout)
    requires LayoutOk(y) && SlabsOk(slabs, y) && HasClass(slabs, b, c, y) && n < |slabs|
    ensures slabs[n].start + slabs[n].head <= b || b + Size(c, y) <= slabs[n].start
  {
    var k: nat, i: nat :| CarvedAt(slabs, k, i, b, c, y);
    BlockInside(slabs, k, i, b, c, y);
    assert n < k ==> Disjoint(slabs[n], slabs[k], y);
    assert k < n ==> Disjoint(slabs[k], slabs[n], y);
  }

  lemma PairApart(slabs: seq<Slab>, b: nat, c: Class, d: nat, e: Class, y: Layout)
    requires LayoutOk(y) && SlabsOk(slabs, y) && b != d
    requires HasClass(slabs, b, c, y) && HasClass(slabs, d, e, y)
    ensures b + Size(c, y) <= d || d + Size(e, y) <= b
  {
    var k: nat, i: nat :| CarvedAt(slabs, k, i, b, c, y);
    var m: nat, j: nat :| CarvedAt(slabs, m, j, d, e, y);
    BlocksApart(slabs, k, i, b, c, m, j, d, e, y);
  }
}
