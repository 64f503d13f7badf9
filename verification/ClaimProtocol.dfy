/** Any number of threads taking and giving back blocks of one segment at the same time.

    A thread that wants blocks claims them word by word, publishes them word by word in the bitmap, and
    then releases its claims word by word. Claiming a word takes three separate atomic steps: load the
    claim word, load the bitmap word and look at both, then compare-and-swap the claim word. Giving
    blocks back clears the bitmap one block at a time.

    The compare-and-swap does not look at the bitmap again. `SafeIffFresh` says exactly when that is
    harmless. */
module ClaimProtocol {
  import opened Words
  import opened Wrappers
  import opened Segments

  datatype Extent = Extent(start: int, count: int)

  /** A claim in flight; `held` is the extent it grows, if any. */
  datatype Request = Request(start: int, count: int, held: Option<Extent>)

  datatype Op =
    | Idle
    | LoadClaim(req: Request, done: int)
    | LoadMap(req: Request, done: int, seen: set<int>)
    | Swap(req: Request, done: int, seen: set<int>)
    | Publish(req: Request, done: int)
    | Release(req: Request, done: int)
    | Undo(req: Request, claimed: int, done: int)
    | Clear(start: int, count: int, done: int)

  datatype State = State(bitmap: set<int>, claims: set<int>, ops: seq<Op>, live: set<Extent>)

  /** One atomic step of thread `t`. A compare-and-swap may fail for no reason. */
  datatype Step =
    | BeginAlloc(t: int, start: int, count: int)
    | BeginGrow(t: int, e: Extent, more: int)
    | BeginFree(t: int, e: Extent)
    | BeginShrink(t: int, e: Extent, keep: int)
    | ReadClaim(t: int)
    | ReadMap(t: int)
    | SwapClaim(t: int)
    | SwapFails(t: int)
    | PublishWord(t: int)
    | ReleaseWord(t: int)
    | UndoWord(t: int)
    | ClearBlock(t: int)

  function Init(threads: nat): State {
    State({}, {}, seq(threads, _ => Idle), {})
  }

  // ------------------------------------------------------------------ steps

  /** The bits of `bits` in the word that holds block `b`. */
  function WordOf(bits: set<int>, b: int): set<int> {
    set i | i in bits && i / 64 == b / 64
  }

  /** The end of the part of `lo..hi` that shares the word of `lo`. */
  function WordEnd(lo: int, hi: int): (end: int)
    requires 0 <= lo < hi
    ensures lo < end <= hi && (end - 1) / 64 == lo / 64
  {
    lo + InThisWord(lo, hi - lo)
  }

  function Blocks(e: Option<Extent>): set<int> {
    if e.None? then {} else Span(e.value.start, e.value.start + e.value.count)
  }

  ghost predicate WellFormedRequest(r: Request) {
    && 0 <= r.start && 0 < r.count
    && (r.held.Some? ==> 0 <= r.held.value.start && 0 < r.held.value.count)
    && (r.held.Some? ==> r.held.value.start + r.held.value.count == r.start)
  }

  ghost predicate WellFormed(o: Op) {
    match o
    case Idle => true
    case LoadClaim(r, done) => WellFormedRequest(r) && 0 <= done < r.count
    case LoadMap(r, done, seen) => WellFormedRequest(r) && 0 <= done < r.count
    case Swap(r, done, seen) =>
      && WellFormedRequest(r) && 0 <= done < r.count
      && AllFree(seen, r.start + done, WordEnd(r.start + done, r.start + r.count))
    case Publish(r, done) => WellFormedRequest(r) && 0 <= done < r.count
    case Release(r, done) => WellFormedRequest(r) && 0 <= done < r.count
    case Undo(r, claimed, done) => WellFormedRequest(r) && 0 <= done <= claimed <= r.count
    case Clear(start, count, done) => 0 <= start && 0 <= done < count
  }

  ghost predicate Enabled(s: State, step: Step) {
    && 0 <= step.t < |s.ops|
    && var o := s.ops[step.t];
       match step
       case BeginAlloc(t, start, count) => o.Idle? && 0 <= start && 0 < count
       case BeginGrow(t, e, more) => o.Idle? && e in s.live && 0 < more
       case BeginFree(t, e) => o.Idle? && e in s.live
       case BeginShrink(t, e, keep) => o.Idle? && e in s.live && 0 < keep < e.count
       case ReadClaim(t) => o.LoadClaim?
       case ReadMap(t) => o.LoadMap?
       case SwapClaim(t) => o.Swap? && WordOf(s.claims, o.req.start + o.done) == o.seen
       case SwapFails(t) => o.Swap?
       case PublishWord(t) => o.Publish?
       case ReleaseWord(t) => o.Release?
       case UndoWord(t) => o.Undo?
       case ClearBlock(t) => o.Clear?
  }

  /** The extent a finished request leaves with its caller. */
  function Outcome(r: Request): Extent {
    if r.held.None? then Extent(r.start, r.count)
    else Extent(r.held.value.start, r.held.value.count + r.count)
  }

  function OptSet(e: Option<Extent>): set<Extent> {
    if e.None? then {} else {e.value}
  }

  ghost predicate AllWellFormed(s: State) {
    && (forall t :: 0 <= t < |s.ops| ==> WellFormed(s.ops[t]))
    && (forall e :: e in s.live ==> 0 <= e.start && 0 < e.count)
  }

  ghost function Apply(s: State, step: Step): State
    requires AllWellFormed(s) && Enabled(s, step)
  {
    var o := s.ops[step.t];
    match step
    case BeginAlloc(t, start, count) =>
      s.(ops := s.ops[t := LoadClaim(Request(start, count, None), 0)])
    case BeginGrow(t, e, more) =>
      s.(ops := s.ops[t := LoadClaim(Request(e.start + e.count, more, Some(e)), 0)], live := s.live - {e})
    case BeginFree(t, e) =>
      s.(ops := s.ops[t := Clear(e.start, e.count, 0)], live := s.live - {e})
    case BeginShrink(t, e, keep) =>
      s.(ops := s.ops[t := Clear(e.start + keep, e.count - keep, 0)], live := s.live - {e} + {Extent(e.start, keep)})
    case ReadClaim(t) =>
      s.(ops := s.ops[t := LoadMap(o.req, o.done, WordOf(s.claims, o.req.start + o.done))])
    case ReadMap(t) =>
      var lo := o.req.start + o.done;
      var mask := Span(lo, WordEnd(lo, o.req.start + o.req.count));
      s.(ops := s.ops[t := if (o.seen + s.bitmap) !! mask then Swap(o.req, o.done, o.seen)
                           else Undo(o.req, o.done, 0)])
    case SwapClaim(t) =>
      var lo := o.req.start + o.done;
      var end := WordEnd(lo, o.req.start + o.req.count);
      var done := end - o.req.start;
      s.(claims := s.claims + Span(lo, end),
         ops := s.ops[t := if done < o.req.count then LoadClaim(o.req, done) else Publish(o.req, 0)])
    case SwapFails(t) =>
      s.(ops := s.ops[t := LoadMap(o.req, o.done, WordOf(s.claims, o.req.start + o.done))])
    case PublishWord(t) =>
      var lo := o.req.start + o.done;
      var end := WordEnd(lo, o.req.start + o.req.count);
      var done := end - o.req.start;
      s.(bitmap := s.bitmap + Span(lo, end),
         ops := s.ops[t := if done < o.req.count then Publish(o.req, done) else Release(o.req, 0)])
    case ReleaseWord(t) =>
      var lo := o.req.start + o.done;
      var end := WordEnd(lo, o.req.start + o.req.count);
      var done := end - o.req.start;
      s.(claims := s.claims - Span(lo, end),
         ops := s.ops[t := if done < o.req.count then Release(o.req, done) else Idle],
         live := if done < o.req.count then s.live else s.live + {Outcome(o.req)})
    case UndoWord(t) =>
      if o.done == o.claimed then
        s.(ops := s.ops[t := Idle], live := s.live + OptSet(o.req.held))
      else
        var lo := o.req.start + o.done;
        var end := WordEnd(lo, o.req.start + o.claimed);
        s.(claims := s.claims - Span(lo, end),
           ops := s.ops[t := Undo(o.req, o.claimed, end - o.req.start)])
    case ClearBlock(t) =>
      s.(bitmap := s.bitmap - {o.start + o.done},
         ops := s.ops[t := if o.done + 1 < o.count then Clear(o.start, o.count, o.done + 1) else Idle])
  }

  /** A swap that goes through although a wanted block was published since the bitmap was read. */
  ghost predicate Stale(s: State, step: Step)
    requires AllWellFormed(s) && Enabled(s, step)
  {
    step.SwapClaim? &&
    var o := s.ops[step.t];
    !AllFree(s.bitmap, o.req.start + o.done, WordEnd(o.req.start + o.done, o.req.start + o.req.count))
  }

  // ------------------------------------------------------------------ who owns what

  /** The claim bits an operation has set and not yet cleared. */
  function ClaimsOf(o: Op): set<int> {
    match o
    case Idle => {}
    case LoadClaim(r, done) => Span(r.start, r.start + done)
    case LoadMap(r, done, seen) => Span(r.start, r.start + done)
    case Swap(r, done, seen) => Span(r.start, r.start + done)
    case Publish(r, done) => Span(r.start, r.start + r.count)
    case Release(r, done) => Span(r.start + done, r.start + r.count)
    case Undo(r, claimed, done) => Span(r.start + done, r.start + claimed)
    case Clear(start, count, done) => {}
  }

  /** The bitmap bits that are set on behalf of an operation. */
  function PublishedOf(o: Op): set<int> {
    match o
    case Idle => {}
    case LoadClaim(r, done) => Blocks(r.held)
    case LoadMap(r, done, seen) => Blocks(r.held)
    case Swap(r, done, seen) => Blocks(r.held)
    case Publish(r, done) => Blocks(r.held) + Span(r.start, r.start + done)
    case Release(r, done) => Blocks(r.held) + Span(r.start, r.start + r.count)
    case Undo(r, claimed, done) => Blocks(r.held)
    case Clear(start, count, done) => Span(start + done, start + count)
  }

  function Owned(o: Op): set<int> {
    ClaimsOf(o) + PublishedOf(o)
  }

  /** No block belongs to two operations, to an operation and a live extent, or to two live extents. */
  ghost predicate Exclusive(s: State) {
    && (forall t, u :: 0 <= t < u < |s.ops| ==> Owned(s.ops[t]) !! Owned(s.ops[u]))
    && (forall t, e :: 0 <= t < |s.ops| && e in s.live ==> Owned(s.ops[t]) !! Blocks(Some(e)))
    && (forall e, f :: e in s.live && f in s.live && e != f ==> Blocks(Some(e)) !! Blocks(Some(f)))
  }

  /** The claim bits are those of the operations in flight, and the bitmap holds exactly the live
      extents and what operations have published. */
  ghost predicate Exact(s: State) {
    && (forall t :: 0 <= t < |s.ops| ==> ClaimsOf(s.ops[t]) <= s.claims)
    && (forall b :: b in s.claims ==> exists t :: 0 <= t < |s.ops| && b in ClaimsOf(s.ops[t]))
    && (forall t :: 0 <= t < |s.ops| ==> PublishedOf(s.ops[t]) <= s.bitmap)
    && (forall e :: e in s.live ==> Blocks(Some(e)) <= s.bitmap)
    && (forall b :: b in s.bitmap ==>
          || (exists t :: 0 <= t < |s.ops| && b in PublishedOf(s.ops[t]))
          || (exists e :: e in s.live && b in Blocks(Some(e))))
  }

  ghost predicate Inv(s: State) {
    AllWellFormed(s) && Exclusive(s) && Exact(s)
  }

  /** Thread `t` turns `s` into `s'`, giving up the extent `gone` and producing the extent `come`. It
      keeps within what it and `gone` owned, except for blocks `more` that nobody had. */
  ghost predicate Local(s: State, s': State, t: int, gone: Option<Extent>, come: Option<Extent>, more: set<int>) {
    && 0 <= t < |s.ops| && |s'.ops| == |s.ops|
    && (forall u :: 0 <= u < |s.ops| && u != t ==> s'.ops[u] == s.ops[u])
    && WellFormed(s'.ops[t])
    && OptSet(gone) <= s.live && s'.live == s.live - OptSet(gone) + OptSet(come)
    && (come.Some? ==> 0 <= come.value.start && 0 < come.value.count)
    && more !! (s.claims + s.bitmap)
    && Owned(s'.ops[t]) !! Blocks(come)
    && Owned(s'.ops[t]) + Blocks(come) <= Owned(s.ops[t]) + Blocks(gone) + more
    && s'.claims == s.claims - ClaimsOf(s.ops[t]) + ClaimsOf(s'.ops[t])
    && s'.bitmap == s.bitmap - (PublishedOf(s.ops[t]) + Blocks(gone)) + (PublishedOf(s'.ops[t]) + Blocks(come))
  }

  /** What one thread owns beforehand is all it can hand on, so nobody else is disturbed. */
  lemma LocalKeepsExclusive(s: State, s': State, t: int, gone: Option<Extent>, come: Option<Extent>, more: set<int>)
    requires Inv(s) && Local(s, s', t, gone, come, more)
    ensures AllWellFormed(s') && Exclusive(s')
  {
    var mine := Owned(s.ops[t]) + Blocks(gone) + more;
    forall u | 0 <= u < |s.ops| && u != t
      ensures Owned(s.ops[u]) !! mine
    {
      assert Owned(s.ops[u]) <= s.claims + s.bitmap;
      if gone.Some? { assert gone.value in s.live; }
    }
    forall e | e in s.live && e !in OptSet(gone)
      ensures Blocks(Some(e)) !! mine
    {
      if gone.Some? { assert gone.value in s.live; }
    }
  }

  lemma LocalKeepsClaims(s: State, s': State, t: int, gone: Option<Extent>, come: Option<Extent>, more: set<int>)
    requires Inv(s) && Local(s, s', t, gone, come, more)
    ensures forall u :: 0 <= u < |s'.ops| ==> ClaimsOf(s'.ops[u]) <= s'.claims
    ensures forall b :: b in s'.claims ==> exists u :: 0 <= u < |s'.ops| && b in ClaimsOf(s'.ops[u])
  {
    forall u | 0 <= u < |s.ops| && u != t
      ensures ClaimsOf(s'.ops[u]) <= s'.claims
    {
      assert Owned(s.ops[u]) !! Owned(s.ops[t]);
    }
    forall b | b in s'.claims
      ensures exists u :: 0 <= u < |s'.ops| && b in ClaimsOf(s'.ops[u])
    {
      if b in ClaimsOf(s'.ops[t]) {
      } else {
        var u :| 0 <= u < |s.ops| && b in ClaimsOf(s.ops[u]);
        assert u != t && b in ClaimsOf(s'.ops[u]);
      }
    }
  }

  lemma LocalKeepsBitmap(s: State, s': State, t: int, gone: Option<Extent>, come: Option<Extent>, more: set<int>)
    requires Inv(s) && Local(s, s', t, gone, come, more)
    ensures forall u :: 0 <= u < |s'.ops| ==> PublishedOf(s'.ops[u]) <= s'.bitmap
    ensures forall e :: e in s'.live ==> Blocks(Some(e)) <= s'.bitmap
  {
    if gone.Some? { assert gone.value in s.live; }
    forall u | 0 <= u < |s.ops| && u != t
      ensures PublishedOf(s'.ops[u]) <= s'.bitmap
    {
      assert Owned(s.ops[u]) !! Owned(s.ops[t]);
    }
    forall e | e in s'.live
      ensures Blocks(Some(e)) <= s'.bitmap
    {
      if come != Some(e) {
        assert e in s.live && Some(e) != gone;
      }
    }
  }

  lemma LocalKeepsBitmapOwned(s: State, s': State, t: int, gone: Option<Extent>, come: Option<Extent>,
                              more: set<int>, b: int)
    requires Inv(s) && Local(s, s', t, gone, come, more) && b in s'.bitmap
    ensures || (exists u :: 0 <= u < |s'.ops| && b in PublishedOf(s'.ops[u]))
            || (exists e :: e in s'.live && b in Blocks(Some(e)))
  {
    if b in PublishedOf(s'.ops[t]) {
    } else if b in Blocks(come) {
      assert come.value in s'.live;
    } else if exists u :: 0 <= u < |s.ops| && b in PublishedOf(s.ops[u]) {
      var u :| 0 <= u < |s.ops| && b in PublishedOf(s.ops[u]);
      assert u != t && b in PublishedOf(s'.ops[u]);
    } else {
      var e :| e in s.live && b in Blocks(Some(e));
      assert Some(e) != gone && e in s'.live;
    }
  }

  lemma LocalKeepsInv(s: State, s': State, t: int, gone: Option<Extent>, come: Option<Extent>, more: set<int>)
    requires Inv(s) && Local(s, s', t, gone, come, more)
    ensures Inv(s')
  {
    LocalKeepsExclusive(s, s', t, gone, come, more);
    LocalKeepsClaims(s, s', t, gone, come, more);
    LocalKeepsBitmap(s, s', t, gone, come, more);
    forall b | b in s'.bitmap
      ensures || (exists u :: 0 <= u < |s'.ops| && b in PublishedOf(s'.ops[u]))
              || (exists e :: e in s'.live && b in Blocks(Some(e)))
    {
      LocalKeepsBitmapOwned(s, s', t, gone, come, more, b);
    }
  }

  // ------------------------------------------------------------------ every step

  /** What thread `t` has set is really set. */
  ghost predicate Backed(s: State, t: int)
    requires 0 <= t < |s.ops|
  {
    ClaimsOf(s.ops[t]) <= s.claims && PublishedOf(s.ops[t]) <= s.bitmap
  }

  lemma BeginIsLocal(s: State, step: Step) returns (gone: Option<Extent>, come: Option<Extent>)
    requires AllWellFormed(s) && Enabled(s, step) && Backed(s, step.t)
    requires step.BeginAlloc? || step.BeginGrow? || step.BeginFree? || step.BeginShrink?
    requires forall e :: e in s.live ==> Blocks(Some(e)) <= s.bitmap
    ensures Local(s, Apply(s, step), step.t, gone, come, {})
  {
    gone := if step.BeginAlloc? then None else Some(step.e);
    come := if step.BeginShrink? then Some(Extent(step.e.start, step.keep)) else None;
  }

  lemma ReadIsLocal(s: State, step: Step)
    requires AllWellFormed(s) && Enabled(s, step) && Backed(s, step.t)
    requires step.ReadClaim? || step.ReadMap? || step.SwapFails?
    ensures Local(s, Apply(s, step), step.t, None, None, {})
  {
  }

  /** A swap that goes through adds blocks nobody had, unless it is stale. */
  lemma SwapIsLocal(s: State, step: Step) returns (more: set<int>)
    requires AllWellFormed(s) && Enabled(s, step) && Backed(s, step.t)
    requires step.SwapClaim? && !Stale(s, step)
    ensures Local(s, Apply(s, step), step.t, None, None, more)
  {
    var o := s.ops[step.t];
    var lo := o.req.start + o.done;
    var end := WordEnd(lo, o.req.start + o.req.count);
    more := Span(lo, end);
    assert AllFree(s.claims, lo, end) by {
      forall b | lo <= b < end ensures b !in s.claims {
        assert b !in WordOf(s.claims, lo);
      }
    }
  }

  lemma PublishIsLocal(s: State, step: Step)
    requires AllWellFormed(s) && Enabled(s, step) && Backed(s, step.t) && step.PublishWord?
    ensures Local(s, Apply(s, step), step.t, None, None, {})
  {
    var o := s.ops[step.t];
    var lo := o.req.start + o.done;
    SpanJoin(o.req.start, lo, WordEnd(lo, o.req.start + o.req.count));
  }

  lemma ReleaseIsLocal(s: State, step: Step) returns (come: Option<Extent>)
    requires AllWellFormed(s) && Enabled(s, step) && Backed(s, step.t) && step.ReleaseWord?
    ensures Local(s, Apply(s, step), step.t, None, come, {})
  {
    var o := s.ops[step.t];
    var lo, hi := o.req.start + o.done, o.req.start + o.req.count;
    SpanJoin(lo, WordEnd(lo, hi), hi);
    come := if WordEnd(lo, hi) < hi then None else Some(Outcome(o.req));
    assert Blocks(Some(Outcome(o.req))) == Blocks(o.req.held) + Span(o.req.start, hi);
  }

  lemma UndoIsLocal(s: State, step: Step) returns (come: Option<Extent>)
    requires AllWellFormed(s) && Enabled(s, step) && Backed(s, step.t) && step.UndoWord?
    ensures Local(s, Apply(s, step), step.t, None, come, {})
  {
    var o := s.ops[step.t];
    if o.done == o.claimed {
      come := o.req.held;
    } else {
      come := None;
      var lo, hi := o.req.start + o.done, o.req.start + o.claimed;
      SpanJoin(lo, WordEnd(lo, hi), hi);
    }
  }

  lemma ClearIsLocal(s: State, step: Step)
    requires AllWellFormed(s) && Enabled(s, step) && Backed(s, step.t) && step.ClearBlock?
    ensures Local(s, Apply(s, step), step.t, None, None, {})
  {
  }

  /** Every step but a stale swap keeps the blocks apart. */
  lemma StepKeepsInv(s: State, step: Step)
    requires Inv(s) && Enabled(s, step) && !Stale(s, step)
    ensures Inv(Apply(s, step))
  {
    var gone: Option<Extent>, come: Option<Extent>, more: set<int> := None, None, {};
    match step {
      case BeginAlloc(_, _, _) => gone, come := BeginIsLocal(s, step);
      case BeginGrow(_, _, _) => gone, come := BeginIsLocal(s, step);
      case BeginFree(_, _) => gone, come := BeginIsLocal(s, step);
      case BeginShrink(_, _, _) => gone, come := BeginIsLocal(s, step);
      case ReadClaim(_) => ReadIsLocal(s, step);
      case ReadMap(_) => ReadIsLocal(s, step);
      case SwapFails(_) => ReadIsLocal(s, step);
      case SwapClaim(_) => more := SwapIsLocal(s, step);
      case PublishWord(_) => PublishIsLocal(s, step);
      case ReleaseWord(_) => come := ReleaseIsLocal(s, step);
      case UndoWord(_) => come := UndoIsLocal(s, step);
      case ClearBlock(_) => ClearIsLocal(s, step);
    }
    LocalKeepsInv(s, Apply(s, step), step.t, gone, come, more);
  }

  lemma StaleTakes(s: State, step: Step) returns (b: int)
    requires AllWellFormed(s) && Enabled(s, step) && Stale(s, step)
    ensures b in s.bitmap && b !in PublishedOf(s.ops[step.t])
    ensures var s' := Apply(s, step);
      && s'.live == s.live && |s'.ops| == |s.ops|
      && (forall u :: 0 <= u < |s.ops| && u != step.t ==> s'.ops[u] == s.ops[u])
      && b in Owned(s'.ops[step.t])
  {
    var o := s.ops[step.t];
    var lo := o.req.start + o.done;
    b :| lo <= b < WordEnd(lo, o.req.start + o.req.count) && b in s.bitmap;
  }

  /** A stale swap takes a block that already belongs to somebody else. */
  lemma StaleBreaks(s: State, step: Step)
    requires Inv(s) && Enabled(s, step) && Stale(s, step)
    ensures !Exclusive(Apply(s, step))
  {
    var b := StaleTakes(s, step);
    SharedBlock(s, Apply(s, step), step.t, b);
  }

  lemma SharedBlock(s: State, s': State, t: int, b: int)
    requires Exact(s) && 0 <= t < |s.ops| == |s'.ops| && s'.live == s.live
    requires forall u :: 0 <= u < |s.ops| && u != t ==> s'.ops[u] == s.ops[u]
    requires b in s.bitmap && b !in PublishedOf(s.ops[t]) && b in Owned(s'.ops[t])
    ensures !Exclusive(s')
  {
    if u :| 0 <= u < |s.ops| && b in PublishedOf(s.ops[u]) {
      assert b in Owned(s'.ops[u]);
    } else {
      var e :| e in s.live && b in Blocks(Some(e));
      assert e in s'.live;
    }
  }

  // ------------------------------------------------------------------ whole runs

  /** Every step of the run is enabled when it is taken. */
  ghost predicate Legal(s: State, steps: seq<Step>)
    decreases |steps|
  {
    AllWellFormed(s) && (steps == [] || (Enabled(s, steps[0]) && Legal(Apply(s, steps[0]), steps[1..])))
  }

  /** The blocks are kept apart in every state of the run. */
  ghost predicate AlwaysExclusive(s: State, steps: seq<Step>)
    requires Legal(s, steps)
    decreases |steps|
  {
    Exclusive(s) && (steps == [] || AlwaysExclusive(Apply(s, steps[0]), steps[1..]))
  }

  /** In every state of the run the whole invariant holds. */
  ghost predicate AlwaysInv(s: State, steps: seq<Step>)
    requires Legal(s, steps)
    decreases |steps|
  {
    Inv(s) && (steps == [] || AlwaysInv(Apply(s, steps[0]), steps[1..]))
  }

  ghost predicate NeverStale(s: State, steps: seq<Step>)
    requires Legal(s, steps)
    decreases |steps|
  {
    steps == [] || (!Stale(s, steps[0]) && NeverStale(Apply(s, steps[0]), steps[1..]))
  }

  lemma StepKeepsWellFormed(s: State, step: Step)
    requires AllWellFormed(s) && Enabled(s, step)
    ensures AllWellFormed(Apply(s, step))
  {
  }

  lemma InitInv(threads: nat)
    ensures Inv(Init(threads))
  {
  }

  lemma {:induction false} FreshIsSafe(s: State, steps: seq<Step>)
    requires Inv(s) && Legal(s, steps) && NeverStale(s, steps)
    ensures AlwaysInv(s, steps) && AlwaysExclusive(s, steps)
    decreases |steps|
  {
    if steps != [] {
      StepKeepsInv(s, steps[0]);
      FreshIsSafe(Apply(s, steps[0]), steps[1..]);
    }
  }

  lemma {:induction false} SafeIsFresh(s: State, steps: seq<Step>)
    requires Inv(s) && Legal(s, steps) && AlwaysExclusive(s, steps)
    ensures NeverStale(s, steps)
    decreases |steps|
  {
    if steps != [] {
      if Stale(s, steps[0]) {
        StaleBreaks(s, steps[0]);
      }
      StepKeepsInv(s, steps[0]);
      SafeIsFresh(Apply(s, steps[0]), steps[1..]);
    }
  }

  /** Over every run of any number of threads, no block is ever in two hands exactly when no swap is
      stale. */
  lemma SafeIffFresh(threads: nat, steps: seq<Step>)
    requires Legal(Init(threads), steps)
    ensures AlwaysExclusive(Init(threads), steps) <==> NeverStale(Init(threads), steps)
    ensures NeverStale(Init(threads), steps) ==> AlwaysInv(Init(threads), steps)
  {
    InitInv(threads);
    if NeverStale(Init(threads), steps) {
      FreshIsSafe(Init(threads), steps);
    }
    if AlwaysExclusive(Init(threads), steps) {
      SafeIsFresh(Init(threads), steps);
    }
  }

  /** Every swap that goes through comes right after the same thread's look at the bitmap: check and
      claim of one word are a single atomic step. */
  ghost predicate AtomicCheck(steps: seq<Step>) {
    forall i :: 0 <= i < |steps| && steps[i].SwapClaim? ==> 0 < i && steps[i - 1] == ReadMap(steps[i].t)
  }

  lemma CheckedIsFresh(s: State, t: int)
    requires AllWellFormed(s) && Enabled(s, ReadMap(t))
    ensures AllWellFormed(Apply(s, ReadMap(t)))
    ensures Enabled(Apply(s, ReadMap(t)), SwapClaim(t)) ==> !Stale(Apply(s, ReadMap(t)), SwapClaim(t))
  {
    StepKeepsWellFormed(s, ReadMap(t));
  }

  lemma {:induction false} AtomicIsFresh(s: State, steps: seq<Step>)
    requires Legal(s, steps)
    requires steps != [] ==> !Stale(s, steps[0])
    requires forall i :: 0 < i < |steps| && steps[i].SwapClaim? ==> steps[i - 1] == ReadMap(steps[i].t)
    ensures NeverStale(s, steps)
    decreases |steps|
  {
    if |steps| > 1 {
      if steps[1].SwapClaim? {
        CheckedIsFresh(s, steps[1].t);
      }
      AtomicIsFresh(Apply(s, steps[0]), steps[1..]);
    }
  }

  /** With check and claim of a word atomic, every run keeps all blocks apart and all bits accounted
      for. */
  lemma AtomicCheckIsSafe(threads: nat, steps: seq<Step>)
    requires Legal(Init(threads), steps) && AtomicCheck(steps)
    ensures AlwaysExclusive(Init(threads), steps) && AlwaysInv(Init(threads), steps)
  {
    AtomicIsFresh(Init(threads), steps);
    SafeIffFresh(threads, steps);
  }

  /** Every set claim bit belongs to exactly one operation in flight. */
  lemma ClaimHasOneOwner(s: State, b: int) returns (t: int)
    requires Inv(s) && b in s.claims
    ensures 0 <= t < |s.ops| && b in ClaimsOf(s.ops[t])
    ensures forall u :: 0 <= u < |s.ops| && u != t ==> b !in Owned(s.ops[u])
    ensures forall e :: e in s.live ==> b !in Blocks(Some(e))
  {
    t :| 0 <= t < |s.ops| && b in ClaimsOf(s.ops[t]);
    forall u | 0 <= u < |s.ops| && u != t
      ensures b !in Owned(s.ops[u])
    {
      assert b in Owned(s.ops[t]);
    }
  }

  /** When no operation is in flight, no claim is left behind and the bitmap is exactly the disjoint
      union of the live extents. */
  lemma NothingLeftBehind(s: State)
    requires Inv(s) && forall t :: 0 <= t < |s.ops| ==> s.ops[t].Idle?
    ensures s.claims == {}
    ensures forall b :: b in s.bitmap <==> exists e :: e in s.live && b in Blocks(Some(e))
    ensures forall e, f :: e in s.live && f in s.live && e != f ==> Blocks(Some(e)) !! Blocks(Some(f))
  {
    assert forall t :: 0 <= t < |s.ops| ==> ClaimsOf(s.ops[t]) == {} && PublishedOf(s.ops[t]) == {};
    assert forall b :: b !in s.claims;
  }

  // ------------------------------------------------------------------ the race

  lemma Prepend(s: State, step: Step, rest: seq<Step>)
    requires AllWellFormed(s) && Enabled(s, step)
    requires Legal(Apply(s, step), rest) && !AlwaysExclusive(Apply(s, step), rest)
    ensures Legal(s, [step] + rest) && !AlwaysExclusive(s, [step] + rest)
  {
    assert ([step] + rest)[1..] == rest;
  }

  /** Thread `t` asks for block 0 alone and is about to swap. */
  lemma Approach(s: State, t: int, rest: seq<Step>) returns (steps: seq<Step>)
    requires AllWellFormed(s) && 0 <= t < |s.ops| && s.ops[t].Idle? && s.claims == {} && s.bitmap == {}
    requires var s' := s.(ops := s.ops[t := Swap(Request(0, 1, None), 0, {})]);
      Legal(s', rest) && !AlwaysExclusive(s', rest)
    ensures Legal(s, steps) && !AlwaysExclusive(s, steps)
  {
    var s1 := Apply(s, BeginAlloc(t, 0, 1));
    StepKeepsWellFormed(s, BeginAlloc(t, 0, 1));
    var s2 := Apply(s1, ReadClaim(t));
    StepKeepsWellFormed(s1, ReadClaim(t));
    assert s2.ops[t] == LoadMap(Request(0, 1, None), 0, {});
    assert Apply(s2, ReadMap(t)) == s.(ops := s.ops[t := Swap(Request(0, 1, None), 0, {})]);
    Prepend(s2, ReadMap(t), rest);
    Prepend(s1, ReadClaim(t), [ReadMap(t)] + rest);
    steps := [BeginAlloc(t, 0, 1)] + ([ReadClaim(t)] + ([ReadMap(t)] + rest));
    Prepend(s, BeginAlloc(t, 0, 1), [ReadClaim(t)] + ([ReadMap(t)] + rest));
  }

  /** Thread `t` swaps, publishes and releases block 0. */
  lemma TakeBlock(s: State, t: int, rest: seq<Step>) returns (steps: seq<Step>)
    requires AllWellFormed(s) && 0 <= t < |s.ops| && s.ops[t] == Swap(Request(0, 1, None), 0, {})
    requires s.claims == {} && s.bitmap == {}
    requires var s' := s.(ops := s.ops[t := Idle], bitmap := {0}, live := s.live + {Extent(0, 1)});
      Legal(s', rest) && !AlwaysExclusive(s', rest)
    ensures Legal(s, steps) && !AlwaysExclusive(s, steps)
  {
    assert WordOf({}, 0) == {} && Span(0, 1) == {0} && WordEnd(0, 1) == 1;
    var s1 := Apply(s, SwapClaim(t));
    StepKeepsWellFormed(s, SwapClaim(t));
    var s2 := Apply(s1, PublishWord(t));
    StepKeepsWellFormed(s1, PublishWord(t));
    assert Apply(s2, ReleaseWord(t)) == s.(ops := s.ops[t := Idle], bitmap := {0}, live := s.live + {Extent(0, 1)});
    Prepend(s2, ReleaseWord(t), rest);
    Prepend(s1, PublishWord(t), [ReleaseWord(t)] + rest);
    steps := [SwapClaim(t)] + ([PublishWord(t)] + ([ReleaseWord(t)] + rest));
    Prepend(s, SwapClaim(t), [PublishWord(t)] + ([ReleaseWord(t)] + rest));
  }

  lemma LateSwap(s: State) returns (steps: seq<Step>)
    requires s == State({0}, {}, [Swap(Request(0, 1, None), 0, {}), Idle], {Extent(0, 1)})
    ensures Legal(s, steps) && !AlwaysExclusive(s, steps)
  {
    assert WordOf({}, 0) == {} && WordEnd(0, 1) == 1;
    var s' := Apply(s, SwapClaim(0));
    StepKeepsWellFormed(s, SwapClaim(0));
    assert 0 in Owned(s'.ops[0]) && Extent(0, 1) in s'.live && 0 in Blocks(Some(Extent(0, 1)));
    steps := [SwapClaim(0)];
    assert steps[1..] == [];
  }

  /** While thread 0 is about to swap, thread 1, about to swap too, goes first. */
  lemma Overtaken() returns (steps: seq<Step>)
    ensures var r := Swap(Request(0, 1, None), 0, {});
      Legal(State({}, {}, [r, r], {}), steps) && !AlwaysExclusive(State({}, {}, [r, r], {}), steps)
  {
    var r := Swap(Request(0, 1, None), 0, {});
    var s := State({}, {}, [r, r], {});
    var late := LateSwap(State({0}, {}, [r, Idle], {Extent(0, 1)}));
    assert s.(ops := s.ops[1 := Idle], bitmap := {0}, live := s.live + {Extent(0, 1)})
        == State({0}, {}, [r, Idle], {Extent(0, 1)});
    steps := TakeBlock(s, 1, late);
  }

  /** Thread 0 looks at block 0, thread 1 takes it completely, and the swap of thread 0 still succeeds
      because the claim word is back to what thread 0 saw. */
  lemma Race() returns (steps: seq<Step>)
    ensures Legal(Init(2), steps) && !AlwaysExclusive(Init(2), steps)
  {
    var r := Swap(Request(0, 1, None), 0, {});
    var taken := Overtaken();
    var s := State({}, {}, [r, Idle], {});
    assert s.(ops := s.ops[1 := r]) == State({}, {}, [r, r], {});
    var both := Approach(s, 1, taken);
    assert Init(2).(ops := Init(2).ops[0 := r]) == s;
    steps := Approach(Init(2), 0, both);
  }
}
