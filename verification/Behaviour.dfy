/** What the world sees of a run, and what it means for two lists to behave alike. */
module Behaviour {
  import opened Instructions
  import opened Semantics

  datatype Outcome = Outcome(status: Status, globals: Store, memory: Memory)

  /** The calls made so far and, once the run has ended, its result. */
  datatype Observation = Observation(trace: seq<Event>, ended: Option<Outcome>)

  function Observe(m: Machine, size: nat, s: State): Observation {
    Observation(s.trace,
                if s.status != Running
                  || s.pc >= size then Some(Outcome(s.status, Contents(m, s.globals), s.memory)) else None)
  }

  ghost predicate Shows(m: Machine, code: Code, s: State, o: Observation) {
    exists n: nat :: Observe(m, |code|, Run(m, code, s, n)) == o
  }

  /**
   * The runs from the start of the function show the same: the same calls in the same
   * order with the same arguments, globals and memory, and the same result or none.
   */
  ghost predicate SameBehaviour(m: Machine, code: Code, code': Code, entry: nat) {
    |code'| == |code| && forall s: State, o: Observation :: s.pc <= entry ==>
      (Shows(m, code, s, o) <==> Shows(m, code', s, o))
  }

  lemma SameBehaviourTransitive(m: Machine, code1: Code, code2: Code, code3: Code, entry: nat)
    requires SameBehaviour(m, code1, code2, entry) && SameBehaviour(m, code2, code3, entry)
    ensures SameBehaviour(m, code1, code3, entry)
  {
    forall s: State, o: Observation | s.pc <= entry ensures Shows(m, code1, s, o) <==> Shows(m, code3, s, o) {
      assert Shows(m, code1, s, o) <==> Shows(m, code2, s, o);
      assert Shows(m, code2, s, o) <==> Shows(m, code3, s, o);
    }
  }

  /** Lists whose runs show the same after every number of steps behave alike. */
  lemma LockstepBehaviour(m: Machine, code: Code, code': Code, entry: nat)
    requires |code'| == |code|
    requires forall s: State, n: nat :: s.pc <= entry ==>
               Observe(m, |code|, Run(m, code, s, n)) == Observe(m, |code|, Run(m, code', s, n))
    ensures SameBehaviour(m, code, code', entry)
  {
    forall s: State, o: Observation | s.pc <= entry ensures Shows(m, code, s, o) <==> Shows(m, code', s, o) {
      if Shows(m, code, s, o) {
        var n: nat :| Observe(m, |code|, Run(m, code, s, n)) == o;
        assert Observe(m, |code|, Run(m, code', s, n)) == o;
      }
      if Shows(m, code', s, o) {
        var n: nat :| Observe(m, |code|, Run(m, code', s, n)) == o;
        assert Observe(m, |code|, Run(m, code, s, n)) == o;
      }
    }
  }

  lemma SameMeaningBehaves(m: Machine, code: Code, code': Code, entry: nat)
    requires |code'| == |code| && SameMeaning(m, code, code')
    ensures SameBehaviour(m, code, code', entry)
  {
    forall s: State, n: nat | s.pc <= entry
      ensures Observe(m, |code|, Run(m, code, s, n)) == Observe(m, |code|, Run(m, code', s, n))
    {
      assert SameEffects(Run(m, code, s, n), Run(m, code', s, n));
    }
    LockstepBehaviour(m, code, code', entry);
  }

  /** An observation that a run ends with is the only one of that kind. */
  lemma EndsOnce(m: Machine, code: Code, s: State, o1: Observation, o2: Observation)
    requires Shows(m, code, s, o1) && Shows(m, code, s, o2) && o1.ended.Some? && o2.ended.Some?
    ensures o1 == o2
  {
    var n1: nat :| Observe(m, |code|, Run(m, code, s, n1)) == o1;
    var n2: nat :| Observe(m, |code|, Run(m, code, s, n2)) == o2;
    hide Run, Shows;
    if n1 <= n2 {
      EndedLater(m, code, s, n1, n2);
    } else {
      EndedLater(m, code, s, n2, n1);
    }
  }

  lemma EndedLater(m: Machine, code: Code, s: State, n: nat, k: nat)
    requires n <= k && Observe(m, |code|, Run(m, code, s, n)).ended.Some?
    ensures Run(m, code, s, k) == Run(m, code, s, n)
  {
    hide Run;
    StaysEnded(m, code, Run(m, code, s, n), k - n);
    RunAppends(m, code, s, n, k - n);
  }

  lemma {:induction false} StaysEnded(m: Machine, code: Code, s: State, n: nat)
    requires s.status != Running || s.pc >= |code|
    ensures Run(m, code, s, n) == s
  {
    if n > 0 {
      StaysEnded(m, code, s, n - 1);
    }
  }
}
