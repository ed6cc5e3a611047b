/**
 * Where the rules of peephole optimization are right, exactly, and where the pass goes wrong without
 * its conditions.
 */
module PeepholeLimits {
  import opened Instructions
  import opened Semantics
  import opened Behaviour
  import opened Examples
  import opened Alike
  import opened PeepholeRules
  import opened TemporaryBypass
  import opened Peephole

  /** Whether `j` after `i` does what `j` alone does, on all machines and from all states. */
  ghost predicate FirstIsUseless(i: Instruction, j: Instruction) {
    forall m: Machine, s: State :: m.Valid() ==>
      AlikeBut(m, Execute(m, Execute(m, s, i), j), Execute(m, s.(pc := s.pc + 1), j), iset{})
  }

  /** The rule for repeated assignments is right exactly when the second instruction overwrites the first. */
  lemma RepeatIsExact(i: Instruction, j: Instruction)
    requires WellFormed(i) && WellFormed(j) && i.op == Assign && i.dest == j.dest && i.src1 == j.src1
    ensures FirstIsUseless(i, j) <==> IsNullAssignment(i) || Overwrites(i, j)
  {
    if IsNullAssignment(i) || Overwrites(i, j) {
      forall m: Machine, s: State | m.Valid()
        ensures AlikeBut(m, Execute(m, Execute(m, s, i), j), Execute(m, s.(pc := s.pc + 1), j), iset{})
      {
        OverwritingWins(m, s, i, j);
      }
    } else {
      RepeatMatters(i, j);
    }
  }

  lemma RepeatMatters(i: Instruction, j: Instruction)
    requires WellFormed(i) && WellFormed(j) && i.op == Assign && i.dest == j.dest && i.src1 == j.src1
    requires !IsNullAssignment(i) && !Overwrites(i, j)
    ensures !FirstIsUseless(i, j)
  {
    var d, x := i.dest.value, i.src1.value;
    var m := Machine(ID, (k: Kind, a: int, b: int) => b, (v: int) => v, Callee);
    assert m.Valid();
    var s0 := StartState(map[]);
    var s := Write(m, s0, d, Read(m, s0, x) + 1);
    ReadAfterWrite(m, s0, d, Read(m, s0, x) + 1, x);
    ReadAfterWrite(m, s0, d, Read(m, s0, x) + 1, d);
    var a, b := Execute(m, Execute(m, s, i), j), Execute(m, s.(pc := s.pc + 1), j);
    if d.typ == AddrType {
      assert j.op == IndexArray;
      assert Read(m, s, d) in Execute(m, s, i).memory && Read(m, s, d) in a.memory;
      assert b.memory == s.memory == map[];
    } else {
      assert Read(m, a, d) != Read(m, b, d);
    }
    assert !AlikeBut(m, a, b, iset{});
  }

  /** The rule for temporaries is right on all machines exactly when the copy to `d` loses nothing that `x` keeps. */
  ghost predicate CopyIsTransparent(x: Symbol, d: Symbol) {
    forall m: Machine, s: State, v: int :: m.Valid() && m.IntIsWidest() ==>
      var s' := Write(m, s, x, v); AlikeBut(m, Write(m, s', d, Read(m, s', x)), Write(m, s, d, v), iset{x})
  }

  lemma BypassTypesAreExact(x: Symbol, d: Symbol)
    requires x.scope == Local && !x.isConstant && !d.isConstant && x.typ != AddrType && x != d
    ensures CopyIsTransparent(x, d) <==> x.typ == d.typ || x.typ == IntType
  {
    if x.typ == d.typ || x.typ == IntType {
      forall m: Machine, s: State, v: int | m.Valid() && m.IntIsWidest()
        ensures var s' := Write(m, s, x, v); AlikeBut(m, Write(m, s', d, Read(m, s', x)), Write(m, s, d, v), iset{x})
      {
        BypassWrites(m, s, s, iset{}, iset{x}, x, d, v);
      }
    } else {
      var m := Machine((t: Type, v: int) => if t == x.typ then 0 else v, (k: Kind, a: int, b: int) => b, (v: int) => v,
        Callee);
      assert m.Valid() && m.IntIsWidest();
      var s := StartState(map[]);
      var s' := Write(m, s, x, 1);
      ReadAfterWrite(m, s, d, 1, d);
      ReadAfterWrite(m, s, x, 1, x);
      ReadAfterWrite(m, s', d, Read(m, s', x), d);
      assert !AlikeBut(m, Write(m, s', d, Read(m, s', x)), Write(m, s, d, 1), iset{x});
    }
  }

  /** A function that copies five through two temporaries, or returns the temporary itself. */
  function Chain(): Code {
    var x, t, u := LocalInt(1, false), LocalInt(2, true), LocalInt(3, true);
    [Instruction(Enter, Plus, None, Some(FunctionName()), None, 0, false),
     Copy(t, Five()), Copy(u, t), Copy(x, u), Instruction(Return, Plus, None, Some(x), None, 0, false)]
  }

  function Reused(): Code {
    var x, t := LocalInt(1, false), LocalInt(2, true);
    [Instruction(Enter, Plus, None, Some(FunctionName()), None, 0, false),
     Copy(t, Five()), Copy(x, t), Copy(x, x), Instruction(Return, Plus, None, Some(t), None, 0, false)]
  }

  ghost predicate ReadOnlyAt(code: Code, p: nat, x: Symbol) {
    forall q :: 0 <= q < |code| && q != p ==> !Reads(code[q], x)
  }

  /** All that is left of the two functions: one assignment, of a variable that is not returned. */
  ghost predicate Useless(code: Code) {
    && |code| == 5 && code[0].op == Enter && code[0].dest.None?
    && code[1].op == Assign && WellFormed(code[1]) && code[1].dest.value.typ == IntType
    && code[2].dead && code[3].dead
    && code[4].op == Return && !code[4].dead && code[4].dest.None? && code[4].src1.Some?
    && code[4].src1.value.scope == Local && !code[4].src1.value.isConstant && code[1].dest != code[4].src1
  }

  lemma ChainIsUseless()
    ensures Useless(UpTo(Chain(), 5)) && Useless(UpTo(Reused(), 5))
  {
    PassOverChain();
    PassOverReused();
  }

  lemma PassOverChain()
    ensures Useless(UpTo(Chain(), 5))
  {
    var c := Chain();
    assert Bypasses(c, 2) && Bypasses(c, 3);
    assert forall p :: 0 <= p < 5 ==> UpTo(c, 5)[p] == Peepholed(c, 5, p);
  }

  lemma PassOverReused()
    ensures Useless(UpTo(Reused(), 5))
  {
    var r := Reused();
    assert Bypasses(r, 2) && IsNullAssignment(r[3]);
    assert forall p :: 0 <= p < 5 ==> UpTo(r, 5)[p] == Peepholed(r, 5, p);
  }

  ghost predicate ReturnsZero(x: Symbol, s: State) {
    (s.status == Running || s.status == Returned(Some(0))) && Lookup(PLAIN, s.locals, x) == 0
  }

  lemma UselessStep(code: Code, s: State)
    requires Useless(code) && ReturnsZero(code[4].src1.value, s)
    ensures ReturnsZero(code[4].src1.value, Step(PLAIN, code, s))
  {
    var x := code[4].src1.value;
    if s.status == Running && s.pc == 1 && !code[1].dead {
      var d, v := code[1].dest.value, Read(PLAIN, s, code[1].src1.value);
      CopyWritten(PLAIN, s, code[1]);
      LookupAfterUpdate(PLAIN, s.locals, d, v, x);
      hide Execute, Lookup, Updated;
    } else if s.status == Running && s.pc == 4 {
      hide WellFormed;
    } else {
      hide WellFormed, Lookup;
    }
  }

  lemma {:induction false} UselessReturnsZero(code: Code, k: nat)
    requires Useless(code)
    ensures ReturnsZero(code[4].src1.value, Run(PLAIN, code, StartState(map[]), k))
  {
    if k > 0 {
      UselessReturnsZero(code, k - 1);
      hide *;
      RunIsSteps(PLAIN, code, StartState(map[]), k - 1);
      UselessShape(code);
      UselessStep(code, Run(PLAIN, code, StartState(map[]), k - 1));
    }
  }

  lemma UselessShape(code: Code)
    requires Useless(code)
    ensures |code| == 5 && code[4].src1.Some?
  {
  }

  lemma ResultsDiffer(code: Code)
    requires code == Chain() || code == Reused()
    ensures !SameBehaviour(PLAIN, code, UpTo(code, 5), 0)
  {
    hide Run, Chain, Reused, UpTo;
    var s0, code' := StartState(map[]), UpTo(code, 5);
    ChainIsUseless();
    FiveReturned(code);
    var o := Observe(PLAIN, |code|, Run(PLAIN, code, s0, 5));
    assert Shows(PLAIN, code, s0, o);
    forall k: nat ensures Observe(PLAIN, |code'|, Run(PLAIN, code', s0, k)) != o {
      UselessReturnsZero(code', k);
    }
    assert !Shows(PLAIN, code', s0, o);
  }

  /**
   * The other two conditions are needed as well. The pass makes these functions return zero instead
   * of five: one takes its temporary from an assignment that is dead already, the other one reads its
   * temporary again. Neither breaks any other condition.
   */
  lemma PassCanBreak(code: Code)
    requires code == Chain() || code == Reused()
    ensures WellFormedCode(code, 0) && PLAIN.Valid() && PLAIN.IntIsWidest()
    ensures forall p :: 0 <= p < 5 && Repeats(code, p) ==> Overwrites(code[p], code[p + 1])
    ensures forall p :: 0 <= p < 5 && Bypasses(code, p) ==>
              (code == Chain() ==> ReadOnlyAt(code, p, code[p].src1.value)) && (code == Reused() ==> !Dies(code, p - 1))
    ensures !SameBehaviour(PLAIN, code, UpTo(code, 5), 0)
  {
    BreaksNoOtherCondition(code);
    ResultsDiffer(code);
    hide *;
  }

  lemma BreaksNoOtherCondition(code: Code)
    requires code == Chain() || code == Reused()
    ensures WellFormedCode(code, 0) && PLAIN.Valid() && PLAIN.IntIsWidest()
    ensures forall p :: 0 <= p < 5 && Repeats(code, p) ==> Overwrites(code[p], code[p + 1])
    ensures forall p :: 0 <= p < 5 && Bypasses(code, p) ==>
              (code == Chain() ==> ReadOnlyAt(code, p, code[p].src1.value)) && (code == Reused() ==> !Dies(code, p - 1))
  {
    BreakersAreWellFormed(code);
    NothingRepeats(code);
    hide WellFormed, WellFormedCode, Repeats, Machine.Valid, Machine.IntIsWidest, PLAIN;
  }

  lemma BreakersAreWellFormed(code: Code)
    requires code == Chain() || code == Reused()
    ensures WellFormedCode(code, 0) && PLAIN.Valid() && PLAIN.IntIsWidest()
  {
    hide WellFormed;
    forall p | 0 <= p < 5 ensures WellFormed(code[p]) {
      BreakerIsWellFormed(code, p);
    }
  }

  lemma BreakerIsWellFormed(code: Code, p: nat)
    requires (code == Chain() || code == Reused()) && p < 5
    ensures WellFormed(code[p])
  {
  }

  lemma NothingRepeats(code: Code)
    requires code == Chain() || code == Reused()
    ensures forall p :: 0 <= p < 5 ==> !Repeats(code, p)
  {
  }

  lemma FiveReturned(code: Code)
    requires code == Chain() || code == Reused()
    ensures Run(PLAIN, code, StartState(map[]), 5).status == Returned(Some(5))
  {
    hide Run, WellFormed;
    var s0 := StartState(map[]);
    RunIsSteps(PLAIN, code, s0, 0);
    RunIsSteps(PLAIN, code, s0, 1);
    RunIsSteps(PLAIN, code, s0, 2);
    RunIsSteps(PLAIN, code, s0, 3);
    RunIsSteps(PLAIN, code, s0, 4);
  }
}
