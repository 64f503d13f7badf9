/** What a thread in the middle of taking or giving back blocks comes to if it is let run: it always comes to an end,
    and what it does is what one call does on its own. It gets all the blocks it asked for exactly if nobody has one of
    them, and otherwise leaves no trace. */
module ClaimAlone {
  import opened Words
  import opened Wrappers
  import opened ClaimProtocol

  /** The operation will get what it asked for, or has it already. */
  ghost predicate Succeeds(s: State, o: Op)
    requires WellFormed(o)
  {
    match o
    case LoadClaim(r, done) => AllFree(s.claims + s.bitmap, r.start + done, r.start + r.count)
    case LoadMap(r, done, seen) =>
      && AllFree(seen, r.start + done, WordEnd(r.start + done, r.start + r.count))
      && AllFree(s.claims + s.bitmap, r.start + done, r.start + r.count)
    case Swap(r, done, _) => AllFree(s.claims + s.bitmap, r.start + done, r.start + r.count)
    case Publish(_, _) => true
    case Release(_, _) => true
    case _ => false
  }

  /** The state when thread `t` has finished what it is doing. */
  ghost function Finished(s: State, t: int): State
    requires AllWellFormed(s) && 0 <= t < |s.ops|
  {
    var o := s.ops[t];
    if o.Idle? then s
    else if o.Clear? then
      s.(bitmap := s.bitmap - Span(o.start + o.done, o.start + o.count), ops := s.ops[t := Idle])
    else if Succeeds(s, o) then
      s.(bitmap := s.bitmap + Span(o.req.start, o.req.start + o.req.count), claims := s.claims - ClaimsOf(o),
         ops := s.ops[t := Idle], live := s.live + {Outcome(o.req)})
    else
      s.(claims := s.claims - ClaimsOf(o), ops := s.ops[t := Idle], live := s.live + OptSet(o.req.held))
  }

  /** The swap can go through, and nothing it wants has been published. */
  ghost predicate Ready(s: State, o: Op)
    requires WellFormed(o) && o.Swap?
  {
    var lo := o.req.start + o.done;
    WordOf(s.claims, lo) == o.seen && AllFree(s.bitmap, lo, WordEnd(lo, o.req.start + o.req.count))
  }

  /** The next step of thread `t`. */
  ghost function NextStep(s: State, t: int): Step
    requires AllWellFormed(s) && 0 <= t < |s.ops| && !s.ops[t].Idle?
  {
    match s.ops[t]
    case LoadClaim(_, _) => ReadClaim(t)
    case LoadMap(_, _, _) => ReadMap(t)
    case Swap(_, _, _) => if Ready(s, s.ops[t]) then SwapClaim(t) else SwapFails(t)
    case Publish(_, _) => PublishWord(t)
    case Release(_, _) => ReleaseWord(t)
    case Undo(_, _, _) => UndoWord(t)
    case Clear(_, _, _) => ClearBlock(t)
  }

  ghost function Stage(o: Op): nat {
    match o
    case Idle => 0
    case Publish(_, _) => 2
    case Release(_, _) => 1
    case Undo(_, _, _) => 1
    case Clear(_, _, _) => 1
    case _ => 3
  }

  ghost function Remaining(o: Op): int {
    match o
    case Idle => 0
    case Undo(_, claimed, done) => claimed - done + 1
    case Clear(_, count, done) => count - done
    case _ => o.req.count - o.done
  }

  /** How far the thread is from claiming the current word. */
  ghost function Within(s: State, o: Op): nat
    requires WellFormed(o)
  {
    match o
    case LoadClaim(_, _) => 3
    case LoadMap(r, done, seen) => if seen == WordOf(s.claims, r.start + done) then 2 else 5
    case Swap(_, _, _) => if Ready(s, o) then 1 else 4
    case _ => 0
  }

  // ------------------------------------------------------------------ one step

  /** The step leads towards the end. */
  ghost predicate Closer(s: State, s': State, t: int)
    requires AllWellFormed(s) && 0 <= t < |s.ops|
  {
    && AllWellFormed(s') && |s'.ops| == |s.ops| && Backed(s', t) && Finished(s', t) == Finished(s, t)
    && var o, o' := s.ops[t], s'.ops[t];
       || Stage(o') < Stage(o)
       || (Stage(o') == Stage(o) &&
           (Remaining(o') < Remaining(o) || (Remaining(o') == Remaining(o) && Within(s', o') < Within(s, o))))
  }

  lemma ReadClaimCloser(s: State, t: int)
    requires AllWellFormed(s) && 0 <= t < |s.ops| && Backed(s, t) && s.ops[t].LoadClaim?
    ensures Enabled(s, NextStep(s, t)) && Closer(s, Apply(s, NextStep(s, t)), t)
  {
    var o := s.ops[t];
    StepKeepsWellFormed(s, NextStep(s, t));
    WordFree(s.claims, s.bitmap, o.req.start + o.done, o.req.start + o.req.count);
  }

  /** The look at the bitmap does not change what becomes of the operation. */
  lemma ReadMapFinishes(s: State, t: int, o': Op)
    requires AllWellFormed(s) && 0 <= t < |s.ops| && s.ops[t].LoadMap? && WellFormed(o')
    requires
      var o := s.ops[t];
      var lo, hi := o.req.start + o.done, o.req.start + o.req.count;
      o' == if (o.seen + s.bitmap) !! Span(lo, WordEnd(lo, hi)) then Swap(o.req, o.done, o.seen)
            else Undo(o.req, o.done, 0)
    ensures Finished(s.(ops := s.ops[t := o']), t) == Finished(s, t)
  {
    var o := s.ops[t];
    var lo, hi := o.req.start + o.done, o.req.start + o.req.count;
    if o'.Undo? {
      TakenInWord(s, o.seen, lo, WordEnd(lo, hi), hi);
    } else {
      FreeInWord(s, o.seen, lo, WordEnd(lo, hi));
    }
  }

  lemma ReadMapCloser(s: State, t: int)
    requires AllWellFormed(s) && 0 <= t < |s.ops| && Backed(s, t) && s.ops[t].LoadMap?
    ensures Enabled(s, NextStep(s, t)) && Closer(s, Apply(s, NextStep(s, t)), t)
  {
    var o := s.ops[t];
    var lo, hi := o.req.start + o.done, o.req.start + o.req.count;
    var s' := Apply(s, NextStep(s, t));
    StepKeepsWellFormed(s, NextStep(s, t));
    ReadMapFinishes(s, t, s'.ops[t]);
    if s'.ops[t].Swap? {
      FreeInWord(s, o.seen, lo, WordEnd(lo, hi));
    }
  }

  lemma TakenInWord(s: State, seen: set<int>, lo: int, end: int, hi: int)
    requires !((seen + s.bitmap) !! Span(lo, end)) && end <= hi
    ensures !(AllFree(seen, lo, end) && AllFree(s.claims + s.bitmap, lo, hi))
  {
    var b :| b in (seen + s.bitmap) && b in Span(lo, end);
    assert b in s.bitmap ==> b in s.claims + s.bitmap;
  }

  lemma FreeInWord(s: State, seen: set<int>, lo: int, end: int)
    requires (seen + s.bitmap) !! Span(lo, end)
    ensures AllFree(seen, lo, end) && AllFree(s.bitmap, lo, end)
  {
    forall b | lo <= b < end
      ensures b !in seen && b !in s.bitmap
    {
      assert b in Span(lo, end);
    }
  }

  /** What a look at a word shows of the blocks wanted from it. */
  lemma WordFree(bits: set<int>, more: set<int>, lo: int, hi: int)
    requires 0 <= lo < hi
    ensures AllFree(WordOf(bits, lo), lo, WordEnd(lo, hi)) <==> AllFree(bits, lo, WordEnd(lo, hi))
    ensures AllFree(bits + more, lo, hi) ==> AllFree(WordOf(bits, lo), lo, WordEnd(lo, hi))
  {
    forall b | lo <= b < WordEnd(lo, hi)
      ensures b in WordOf(bits, lo) <==> b in bits
    {
    }
  }

  lemma SwapFailsCloser(s: State, t: int)
    requires AllWellFormed(s) && 0 <= t < |s.ops| && Backed(s, t) && s.ops[t].Swap? && !Ready(s, s.ops[t])
    ensures Enabled(s, NextStep(s, t)) && Closer(s, Apply(s, NextStep(s, t)), t)
  {
    var o := s.ops[t];
    StepKeepsWellFormed(s, NextStep(s, t));
    WordFree(s.claims, s.bitmap, o.req.start + o.done, o.req.start + o.req.count);
  }

  /** Claiming a word changes nothing about the rest of the request. */
  lemma ClaimedWord(s: State, lo: int, end: int, hi: int)
    requires lo <= end <= hi && AllFree(s.claims + s.bitmap, lo, end)
    ensures AllFree(s.claims + Span(lo, end) + s.bitmap, end, hi) <==> AllFree(s.claims + s.bitmap, lo, hi)
  {
  }

  /** A swap that goes through does not change what becomes of the operation. */
  lemma SwapFinishes(s: State, t: int, o': Op)
    requires AllWellFormed(s) && 0 <= t < |s.ops| && s.ops[t].Swap? && Ready(s, s.ops[t]) && WellFormed(o')
    requires
      var o := s.ops[t];
      var lo, hi := o.req.start + o.done, o.req.start + o.req.count;
      var done := WordEnd(lo, hi) - o.req.start;
      o' == if done < o.req.count then LoadClaim(o.req, done) else Publish(o.req, 0)
    ensures
      var o := s.ops[t];
      var lo, hi := o.req.start + o.done, o.req.start + o.req.count;
      Finished(s.(claims := s.claims + Span(lo, WordEnd(lo, hi)), ops := s.ops[t := o']), t) == Finished(s, t)
  {
    var o := s.ops[t];
    var lo, hi := o.req.start + o.done, o.req.start + o.req.count;
    var end := WordEnd(lo, hi);
    WordFree(s.claims, s.bitmap, lo, hi);
    ClaimedWord(s, lo, end, hi);
    SpanJoin(o.req.start, lo, end);
    assert AllFree(s.claims, lo, end);
    assert s.claims + Span(lo, end) - Span(o.req.start, end) == s.claims - Span(o.req.start, lo);
  }

  lemma SwapCloser(s: State, t: int)
    requires AllWellFormed(s) && 0 <= t < |s.ops| && Backed(s, t) && s.ops[t].Swap? && Ready(s, s.ops[t])
    ensures Enabled(s, NextStep(s, t)) && Closer(s, Apply(s, NextStep(s, t)), t)
  {
    var o := s.ops[t];
    var lo, hi := o.req.start + o.done, o.req.start + o.req.count;
    var s' := Apply(s, NextStep(s, t));
    StepKeepsWellFormed(s, NextStep(s, t));
    SwapFinishes(s, t, s'.ops[t]);
    SpanJoin(o.req.start, lo, WordEnd(lo, hi));
  }

  lemma PublishCloser(s: State, t: int)
    requires AllWellFormed(s) && 0 <= t < |s.ops| && Backed(s, t) && (s.ops[t].Publish? || s.ops[t].Release?)
    ensures Enabled(s, NextStep(s, t)) && Closer(s, Apply(s, NextStep(s, t)), t)
  {
    var o := s.ops[t];
    var lo, hi := o.req.start + o.done, o.req.start + o.req.count;
    var s' := Apply(s, NextStep(s, t));
    var end := WordEnd(lo, hi);
    StepKeepsWellFormed(s, NextStep(s, t));
    SpanJoin(o.req.start, lo, end);
    SpanJoin(o.req.start, end, hi);
    SpanJoin(lo, end, hi);
  }

  lemma UndoCloser(s: State, t: int)
    requires AllWellFormed(s) && 0 <= t < |s.ops| && Backed(s, t) && (s.ops[t].Undo? || s.ops[t].Clear?)
    ensures Enabled(s, NextStep(s, t)) && Closer(s, Apply(s, NextStep(s, t)), t)
  {
    var o := s.ops[t];
    var s' := Apply(s, NextStep(s, t));
    StepKeepsWellFormed(s, NextStep(s, t));
    if o.Undo? && o.done < o.claimed {
      var lo, hi := o.req.start + o.done, o.req.start + o.claimed;
      SpanJoin(lo, WordEnd(lo, hi), hi);
    }
    if o.Clear? {
      SpanJoin(o.start + o.done, o.start + o.done + 1, o.start + o.count);
    }
  }

  lemma StepCloser(s: State, t: int)
    requires AllWellFormed(s) && 0 <= t < |s.ops| && Backed(s, t) && !s.ops[t].Idle?
    ensures Enabled(s, NextStep(s, t)) && Closer(s, Apply(s, NextStep(s, t)), t) && NextStep(s, t).t == t
  {
    match s.ops[t] {
      case LoadClaim(_, _) => ReadClaimCloser(s, t);
      case LoadMap(_, _, _) => ReadMapCloser(s, t);
      case Swap(_, _, _) =>
        if Ready(s, s.ops[t]) {
          SwapCloser(s, t);
        } else {
          SwapFailsCloser(s, t);
        }
      case Publish(_, _) => PublishCloser(s, t);
      case Release(_, _) => PublishCloser(s, t);
      case Undo(_, _, _) => UndoCloser(s, t);
      case Clear(_, _, _) => UndoCloser(s, t);
    }
  }

  // ------------------------------------------------------------------ to the end

  /** The state that a run leads to. */
  ghost function Final(s: State, steps: seq<Step>): State
    requires Legal(s, steps)
    decreases |steps|
  {
    if steps == [] then s else Final(Apply(s, steps[0]), steps[1..])
  }

  /** A run of thread `t` alone from `s` to `s'`. */
  ghost predicate Alone(s: State, t: int, steps: seq<Step>, s': State) {
    Legal(s, steps) && (forall i :: 0 <= i < |steps| ==> steps[i].t == t) && Final(s, steps) == s'
  }

  lemma AloneFirst(s: State, t: int, step: Step, rest: seq<Step>, s': State)
    requires AllWellFormed(s) && Enabled(s, step) && step.t == t && Alone(Apply(s, step), t, rest, s')
    ensures Alone(s, t, [step] + rest, s')
  {
    assert ([step] + rest)[1..] == rest;
  }

  /** Wherever a thread is in an operation, it comes to its end if the others let it: it gets all it asked for if nobody
      has a block of that, and otherwise gives back every claim it has set. */
  lemma {:induction false} RunsAlone(s: State, t: int) returns (steps: seq<Step>)
    requires AllWellFormed(s) && 0 <= t < |s.ops| && Backed(s, t)
    ensures Alone(s, t, steps, Finished(s, t)) && Finished(s, t).ops[t].Idle?
    decreases Stage(s.ops[t]), Remaining(s.ops[t]), Within(s, s.ops[t])
  {
    steps := [];
    if !s.ops[t].Idle? {
      var step := NextStep(s, t);
      StepCloser(s, t);
      var rest := RunsAlone(Apply(s, step), t);
      AloneFirst(s, t, step, rest, Finished(s, t));
      steps := [step] + rest;
    }
  }

  /** Whatever run led to `s`, as long as no swap was stale: from there every thread can finish alone. */
  lemma EveryoneCanFinish(threads: nat, run: seq<Step>, t: int) returns (steps: seq<Step>)
    requires Legal(Init(threads), run) && NeverStale(Init(threads), run) && 0 <= t < threads
    ensures
      var s := Final(Init(threads), run);
      Inv(s) && |s.ops| == threads && Alone(s, t, steps, Finished(s, t)) && Finished(s, t).ops[t].Idle?
  {
    SafeIffFresh(threads, run);
    FinalInv(Init(threads), run);
    steps := RunsAlone(Final(Init(threads), run), t);
  }

  lemma {:induction false} FinalInv(s: State, run: seq<Step>)
    requires Legal(s, run) && AlwaysInv(s, run)
    ensures Inv(Final(s, run)) && |Final(s, run).ops| == |s.ops|
    decreases |run|
  {
    if run != [] {
      FinalInv(Apply(s, run[0]), run[1..]);
    }
  }

  // ------------------------------------------------------------------ whole calls

  /** A call that takes blocks, alone: it gets them exactly if nobody has one of them, and changes nothing otherwise. */
  lemma AllocAlone(s: State, t: int, start: int, count: int) returns (steps: seq<Step>)
    requires Inv(s) && 0 <= t < |s.ops| && s.ops[t].Idle? && 0 <= start && 0 < count
    ensures
      Alone(s, t, [BeginAlloc(t, start, count)] + steps,
            if AllFree(s.claims + s.bitmap, start, start + count)
            then s.(bitmap := s.bitmap + Span(start, start + count), live := s.live + {Extent(start, count)}) else s)
  {
    var step := BeginAlloc(t, start, count);
    var s' := Apply(s, step);
    StepKeepsWellFormed(s, step);
    steps := RunsAlone(s', t);
    assert s.ops[t := LoadClaim(Request(start, count, None), 0)][t := Idle] == s.ops;
    assert Span(start, start) == {} && s.claims - {} == s.claims;
    AloneFirst(s, t, step, steps, Finished(s', t));
  }

  /** A call that gives blocks back, alone. */
  lemma FreeAlone(s: State, t: int, e: Extent) returns (steps: seq<Step>)
    requires Inv(s) && 0 <= t < |s.ops| && s.ops[t].Idle? && e in s.live
    ensures Alone(s, t, [BeginFree(t, e)] + steps, s.(bitmap := s.bitmap - Blocks(Some(e)), live := s.live - {e}))
  {
    var step := BeginFree(t, e);
    var s' := Apply(s, step);
    StepKeepsWellFormed(s, step);
    steps := RunsAlone(s', t);
    assert s.ops[t := Clear(e.start, e.count, 0)][t := Idle] == s.ops;
    AloneFirst(s, t, step, steps, Finished(s', t));
  }

  /** What growing an extent in place comes to: it gets the blocks behind it exactly if nobody has one of them, and
      keeps what it had otherwise. */
  ghost function Grown(s: State, e: Extent, more: int): State {
    var end := e.start + e.count;
    if AllFree(s.claims + s.bitmap, end, end + more)
    then s.(bitmap := s.bitmap + Span(end, end + more), live := s.live - {e} + {Extent(e.start, e.count + more)})
    else s
  }

  lemma GrowEnds(s: State, t: int, e: Extent, more: int)
    requires AllWellFormed(s) && Enabled(s, BeginGrow(t, e, more)) && AllWellFormed(Apply(s, BeginGrow(t, e, more)))
    ensures Finished(Apply(s, BeginGrow(t, e, more)), t) == Grown(s, e, more)
  {
    assert s.ops[t := LoadClaim(Request(e.start + e.count, more, Some(e)), 0)][t := Idle] == s.ops;
    assert Span(e.start + e.count, e.start + e.count) == {} && s.claims - {} == s.claims;
    assert s.live - {e} + {e} == s.live;
  }

  lemma GrowAlone(s: State, t: int, e: Extent, more: int) returns (steps: seq<Step>)
    requires Inv(s) && 0 <= t < |s.ops| && s.ops[t].Idle? && e in s.live && 0 < more
    ensures Alone(s, t, [BeginGrow(t, e, more)] + steps, Grown(s, e, more))
  {
    var step := BeginGrow(t, e, more);
    StepKeepsWellFormed(s, step);
    assert Blocks(Some(e)) <= s.bitmap;
    steps := RunsAlone(Apply(s, step), t);
    GrowEnds(s, t, e, more);
    AloneFirst(s, t, step, steps, Grown(s, e, more));
  }

  /** A call that shrinks an extent in place, alone. */
  lemma ShrinkAlone(s: State, t: int, e: Extent, keep: int) returns (steps: seq<Step>)
    requires Inv(s) && 0 <= t < |s.ops| && s.ops[t].Idle? && e in s.live && 0 < keep < e.count
    ensures
      Alone(s, t, [BeginShrink(t, e, keep)] + steps,
            s.(bitmap := s.bitmap - Span(e.start + keep, e.start + e.count),
               live := s.live - {e} + {Extent(e.start, keep)}))
  {
    var step := BeginShrink(t, e, keep);
    var s' := Apply(s, step);
    StepKeepsWellFormed(s, step);
    assert Blocks(Some(e)) <= s.bitmap;
    steps := RunsAlone(s', t);
    assert s.ops[t := Clear(e.start + keep, e.count - keep, 0)][t := Idle] == s.ops;
    AloneFirst(s, t, step, steps, Finished(s', t));
  }
}
