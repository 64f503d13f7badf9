/** One-time initialisation by any number of threads, with forks. A state word goes from 0 (not started) over
    1 (running) to 2 (done). After a fork only the forking thread exists; the child then sets a state of 1
    back to 0. */
module Onces {

  /** Where a caller of `call_once` is. */
  datatype Place = Outside | Entered | Running | Storing | Waiting | Returned

  /** The word, the callers, and what has happened: how often the closure was started, how often it came to
      its end, and how often a fork set the word back. */
  datatype State = State(word: nat, at: map<nat, Place>, started: nat, completed: nat, resets: nat)

  function At(s: State, t: nat): Place {
    if t in s.at then s.at[t] else Outside
  }

  /** Load   the first look at the word
      Swap   the attempt to go from 0 to 1
      Finish the closure comes to its end
      Store  the word becomes 2
      Poll   one look at the word while waiting
      Again  a thread that has returned may call again
      Fork   the process forks; the run goes on in the child */
  datatype Step =
    | Load(t: nat) | Swap(t: nat) | Finish(t: nat) | Store(t: nat) | Poll(t: nat) | Again(t: nat) | Fork(t: nat)

  predicate Enabled(s: State, step: Step) {
    match step
    case Load(t) => At(s, t) == Outside
    case Swap(t) => At(s, t) == Entered
    case Finish(t) => At(s, t) == Running
    case Store(t) => At(s, t) == Storing
    case Poll(t) => At(s, t) == Waiting
    case Again(t) => At(s, t) == Returned
    case Fork(t) => At(s, t) == Outside || At(s, t) == Returned
  }

  function Apply(s: State, step: Step): State
    requires Enabled(s, step)
  {
    match step
    case Load(t) => s.(at := s.at[t := if s.word == 2 then Returned else Entered])
    case Swap(t) =>
      if s.word == 0 then s.(word := 1, at := s.at[t := Running], started := s.started + 1)
      else s.(at := s.at[t := Waiting])
    case Finish(t) => s.(at := s.at[t := Storing], completed := s.completed + 1)
    case Store(t) => s.(word := 2, at := s.at[t := Waiting])
    case Poll(t) => s.(at := s.at[t := if s.word == 2 then Returned else Waiting])
    case Again(t) => s.(at := s.at[t := Outside])
    case Fork(t) =>
      s.(word := if s.word == 1 then 0 else s.word, at := map[t := At(s, t)],
         resets := s.resets + if s.word == 1 then 1 else 0)
  }

  const START := State(0, map[], 0, 0, 0)

  ghost predicate Busy(s: State, t: nat) {
    At(s, t) == Running || At(s, t) == Storing
  }

  /** The word tells who is at work and what is done:
        while it is 1, exactly one thread runs the closure or is about to store 2; otherwise none is;
        nobody waits while it is 0, nobody has returned before it is 2, and it is not 2 before the closure
        came to its end; the closure does not come to its end more often than it was started. */
  ghost predicate Inv(s: State) {
    && s.word <= 2
    && (s.word == 1 <==> exists t :: Busy(s, t))
    && (forall t, u :: Busy(s, t) && Busy(s, u) ==> t == u)
    && (forall t :: At(s, t) == Storing ==> s.completed > 0)
    && (forall t :: At(s, t) == Returned ==> s.word == 2)
    && (s.word == 2 ==> s.completed > 0)
    && (forall t :: At(s, t) == Waiting ==> s.word != 0)
    && s.started == s.resets + (if s.word == 0 then 0 else 1)
    && s.completed <= s.started && (forall t :: At(s, t) == Running ==> s.completed < s.started)
  }

  lemma StepKeepsInv(s: State, step: Step)
    requires Inv(s) && Enabled(s, step)
    ensures Inv(Apply(s, step))
  {
    var s' := Apply(s, step);
    forall t | t != step.t && !step.Fork?
      ensures At(s', t) == At(s, t)
    {
    }
    match step
    case Swap(t) =>
      if s.word == 0 {
        assert Busy(s', t);
        forall u | Busy(s', u)
          ensures u == t
        {
          assert u != t ==> Busy(s, u);
        }
      } else {
        Others(s, s', t);
      }
    case Finish(t) =>
      assert Busy(s, t) && Busy(s', t);
      forall u | Busy(s', u)
        ensures u == t && At(s', u) != Running
      {
        assert Busy(s, u);
      }
      assert forall u :: At(s', u) == Running ==> Busy(s', u);
    case Store(t) =>
      assert Busy(s, t);
      forall u
        ensures !Busy(s', u)
      {
        assert Busy(s', u) ==> Busy(s, u);
      }
    case Fork(t) =>
      forall u
        ensures !Busy(s', u)
      {
      }
    case _ =>
      Others(s, s', step.t);
  }

  /** A step by a thread that is not at work, before and after. */
  lemma Others(s: State, s': State, t: nat)
    requires (forall u :: u != t ==> At(s', u) == At(s, u)) && !Busy(s, t) && !Busy(s', t)
    ensures (exists u :: Busy(s, u)) <==> (exists u :: Busy(s', u))
    ensures forall u :: Busy(s', u) <==> Busy(s, u)
  {
    forall u
      ensures Busy(s', u) <==> Busy(s, u)
    {
    }
  }

  // ------------------------------------------------------------------ runs

  ghost predicate Runs(s: State, steps: seq<Step>, s': State)
    decreases |steps|
  {
    if steps == [] then s == s' else Enabled(s, steps[0]) && Runs(Apply(s, steps[0]), steps[1..], s')
  }

  lemma {:induction false} RunKeepsInv(s: State, steps: seq<Step>, s': State)
    requires Inv(s) && Runs(s, steps, s')
    ensures Inv(s')
    decreases |steps|
  {
    if steps != [] {
      StepKeepsInv(s, steps[0]);
      RunKeepsInv(Apply(s, steps[0]), steps[1..], s');
    }
  }

  ghost predicate NoFork(steps: seq<Step>) {
    forall i :: 0 <= i < |steps| ==> !steps[i].Fork?
  }

  lemma {:induction false} NoForkNoReset(s: State, steps: seq<Step>, s': State)
    requires Runs(s, steps, s') && NoFork(steps)
    ensures s'.resets == s.resets
    decreases |steps|
  {
    if steps != [] {
      assert !steps[0].Fork?;
      assert forall i :: 0 <= i < |steps[1..]| ==> steps[1..][i] == steps[i + 1];
      NoForkNoReset(Apply(s, steps[0]), steps[1..], s');
    }
  }

  /** In every run: the closure is started at most once without a fork, and with forks exactly once more for
      each fork that came while it was running. A caller has returned only if the closure has come to its
      end. A caller that waits will not wait in vain: the closure is done, or some thread is at it. */
  lemma OnceInEveryRun(steps: seq<Step>, s: State, t: nat)
    requires Runs(START, steps, s)
    ensures s.resets <= s.started <= s.resets + 1 && s.completed <= s.started
    ensures NoFork(steps) ==> s.started <= 1 && (At(s, t) == Returned ==> s.completed == 1)
    ensures At(s, t) == Returned ==> s.completed > 0
    ensures At(s, t) == Waiting ==> s.word == 2 || exists u :: Busy(s, u)
  {
    assert forall u :: !Busy(START, u);
    RunKeepsInv(START, steps, s);
    if NoFork(steps) {
      NoForkNoReset(START, steps, s);
    }
  }

  /** Right after a fork the word is 0 or 2, and nobody is inside. */
  lemma ForkIsClean(steps: seq<Step>, s: State, t: nat, u: nat)
    requires Runs(START, steps, s) && Enabled(s, Fork(t))
    ensures
      var s' := Apply(s, Fork(t));
      && (s'.word == 0 || s'.word == 2) && (At(s', u) == Outside || At(s', u) == Returned)
      && (s.word == 2 <==> s'.word == 2)
  {
    assert forall v :: !Busy(START, v);
    RunKeepsInv(START, steps, s);
  }

  /** Once the word is 2 it stays 2, and the closure is not started again. */
  lemma {:induction false} DoneIsForever(s: State, steps: seq<Step>, s': State)
    requires Inv(s) && s.word == 2 && Runs(s, steps, s')
    ensures s'.word == 2 && s'.started == s.started
    decreases |steps|
  {
    if steps != [] {
      StepKeepsInv(s, steps[0]);
      DoneIsForever(Apply(s, steps[0]), steps[1..], s');
    }
  }

  // ------------------------------------------------------------------ every call can return

  lemma {:induction false} Extend(s: State, steps: seq<Step>, s': State, step: Step)
    requires Runs(s, steps, s') && Enabled(s', step)
    ensures Runs(s, steps + [step], Apply(s', step))
    decreases |steps|
  {
    if steps == [] {
      assert steps + [step] == [step];
    } else {
      Extend(Apply(s, steps[0]), steps[1..], s', step);
      assert (steps + [step])[1..] == steps[1..] + [step];
    }
  }

  /** While the word is 1, at most two steps of the thread at work make it 2, whoever else waits. */
  lemma Completes(s: State) returns (steps: seq<Step>, s': State)
    requires Inv(s) && s.word == 1
    ensures |steps| <= 2 && NoFork(steps) && Runs(s, steps, s') && s'.word == 2
    ensures forall t :: At(s, t) == Waiting || Busy(s, t) ==> At(s', t) == Waiting
  {
    var u :| Busy(s, u);
    steps, s' := [], s;
    if At(s', u) == Running {
      Extend(s, steps, s', Finish(u));
      steps, s' := steps + [Finish(u)], Apply(s', Finish(u));
    }
    Extend(s, steps, s', Store(u));
    steps, s' := steps + [Store(u)], Apply(s', Store(u));
  }

  /** At most two steps of a caller, and it has returned, waits, or runs the closure itself. */
  lemma GetsIn(s: State, t: nat) returns (steps: seq<Step>, s': State)
    requires Inv(s)
    ensures |steps| <= 2 && NoFork(steps) && Runs(s, steps, s') && Inv(s')
    ensures At(s', t) == Returned || At(s', t) == Waiting || Busy(s', t)
  {
    steps, s' := [], s;
    if At(s', t) == Outside {
      Extend(s, steps, s', Load(t));
      StepKeepsInv(s', Load(t));
      steps, s' := steps + [Load(t)], Apply(s', Load(t));
    }
    if At(s', t) == Entered {
      Extend(s, steps, s', Swap(t));
      StepKeepsInv(s', Swap(t));
      steps, s' := steps + [Swap(t)], Apply(s', Swap(t));
    }
  }

  /** From every state that a run can reach, and for every caller wherever it is, at most five steps, none of
      them a fork, lead to the caller's return. */
  lemma EveryCallCanReturn(run: seq<Step>, s: State, t: nat) returns (steps: seq<Step>, s': State)
    requires Runs(START, run, s)
    ensures |steps| <= 5 && NoFork(steps) && Runs(s, steps, s') && At(s', t) == Returned
  {
    assert forall u :: !Busy(START, u);
    RunKeepsInv(START, run, s);
    steps, s' := GetsIn(s, t);
    if s'.word == 1 && At(s', t) != Returned {
      var more, done := Completes(s');
      Join(s, steps, s', more, done);
      steps, s' := steps + more, done;
    }
    if At(s', t) != Returned {
      assert Enabled(s', Poll(t));
      Extend(s, steps, s', Poll(t));
      steps, s' := steps + [Poll(t)], Apply(s', Poll(t));
    }
  }

  lemma {:induction false} Join(s: State, steps: seq<Step>, s': State, more: seq<Step>, s2: State)
    requires Runs(s, steps, s') && Runs(s', more, s2)
    ensures Runs(s, steps + more, s2)
    decreases |steps|
  {
    if steps == [] {
      assert steps + more == more;
    } else {
      Join(Apply(s, steps[0]), steps[1..], s', more, s2);
      assert (steps + more)[1..] == steps[1..] + more;
    }
  }

  /** A look at the word, by a caller that comes in or by one that waits. */
  ghost predicate Looks(step: Step) {
    step.Load? || step.Poll?
  }

  /** In every run: whoever looks at the word after it was stored returns at that look. */
  lemma {:induction false} ReturnsAfterStore(s: State, steps: seq<Step>, s': State, i: nat)
    requires Inv(s) && Runs(s, steps, s') && i < |steps| - 1
    requires steps[i].Store? && Looks(steps[|steps| - 1])
    ensures At(s', steps[|steps| - 1].t) == Returned
    decreases |steps|
  {
    StepKeepsInv(s, steps[0]);
    if i == 0 {
      ReturnsWhenDone(Apply(s, steps[0]), steps[1..], s');
    } else {
      ReturnsAfterStore(Apply(s, steps[0]), steps[1..], s', i - 1);
    }
  }

  lemma {:induction false} ReturnsWhenDone(s: State, steps: seq<Step>, s': State)
    requires Inv(s) && s.word == 2 && Runs(s, steps, s') && steps != [] && Looks(steps[|steps| - 1])
    ensures At(s', steps[|steps| - 1].t) == Returned
    decreases |steps|
  {
    StepKeepsInv(s, steps[0]);
    if |steps| == 1 {
      assert steps[1..] == [];
    } else {
      DoneIsForever(s, [steps[0]], Apply(s, steps[0]));
      ReturnsWhenDone(Apply(s, steps[0]), steps[1..], s');
    }
  }

  /** After every run, a thread that is not in a call can fork, and its child can call and return, wherever the other
      threads were. */
  lemma ChildCanReturn(run: seq<Step>, s: State, t: nat) returns (steps: seq<Step>, s': State)
    requires Runs(START, run, s) && (At(s, t) == Outside || At(s, t) == Returned)
    ensures Enabled(s, Fork(t)) && NoFork(steps) && Runs(Apply(s, Fork(t)), steps, s') && At(s', t) == Returned
  {
    Extend(START, run, s, Fork(t));
    steps, s' := EveryCallCanReturn(run + [Fork(t)], Apply(s, Fork(t)), t);
  }

  /** In every run: a caller that has returned and calls again returns at its first look, and the closure is
      not started for it. */
  lemma LaterCallsReturnAtOnce(run: seq<Step>, s: State, t: nat)
    requires Runs(START, run, s) && At(s, t) == Returned
    ensures Enabled(s, Again(t)) && Enabled(Apply(s, Again(t)), Load(t))
    ensures
      var s' := Apply(Apply(s, Again(t)), Load(t));
      At(s', t) == Returned && s'.started == s.started
  {
    assert forall u :: !Busy(START, u);
    RunKeepsInv(START, run, s);
  }
}
