/**
 * The rules of peephole optimization, and what each of them preserves (run_peephole_optimization,
 * code_optimization.c).
 */
module PeepholeRules {
  import opened Instructions
  import opened Semantics
  import opened Behaviour
  import opened Alike

  // ---------------------------------------------------------------- the rules

  /** A jump to the next instruction. */
  predicate JumpsToNext(code: Code, p: nat)
    requires p < |code|
  {
    code[p].op == Goto && p + 1 < |code| && code[p].jumpTo == p + 1
  }

  /** A conditional jump over a jump. */
  predicate JumpsOverJump(code: Code, p: nat)
    requires p < |code|
  {
    code[p].op == If && p + 2 < |code| && code[p + 1].op == Goto && code[p].jumpTo == p + 2
  }

  /** An assignment followed by an instruction with the same destination and first operand. */
  predicate Repeats(code: Code, p: nat)
    requires p < |code|
  {
    code[p].op == Assign && p + 1 < |code| && code[p].dest == code[p + 1].dest && code[p].src1 == code[p + 1].src1
  }

  /** An assignment of the temporary that the previous instruction computes. */
  predicate Bypasses(code: Code, p: nat)
    requires p < |code|
  {
    && code[p].op == Assign && 0 < p && code[p].dest.Some? && code[p].dest.value.typ != AddrType
    && code[p].src1.Some? && code[p].src1 == code[p - 1].dest && code[p].src1.value.isTemporary
  }

  /** The assignment that the pass marks dead. */
  predicate Dies(code: Code, p: nat)
    requires p < |code|
  {
    IsNullAssignment(code[p]) || Repeats(code, p) || Bypasses(code, p)
  }

  /** A repeated assignment may go if the instruction after it overwrites the destination without reading it. */
  predicate Overwrites(i: Instruction, j: Instruction) {
    j.op == Assign || (i.dest.Some? && i.dest.value.typ != AddrType && j.src2 != i.dest)
  }

  // ---------------------------------------------------------------- the rules one by one

  /** Marking an instruction dead that does nothing but go on to the next one. */
  lemma {:induction false} IdleRun(m: Machine, code: Code, code': Code, p: nat, s: State, n: nat)
    requires p < |code| && code' == code[p := code[p].(dead := true)]
    requires forall s: State :: s.pc == p ==> Execute(m, s, code[p]) == s.(pc := p + 1)
    ensures Run(m, code', s, n) == Run(m, code, s, n)
  {
    if n > 0 {
      hide Execute;
      IdleRun(m, code, code', p, s, n - 1);
    }
  }

  lemma IdleDies(m: Machine, code: Code, entry: nat, p: nat)
    requires m.Valid() && WellFormedCode(code, entry) && p < |code|
    requires JumpsToNext(code, p) || IsNullAssignment(code[p])
    ensures SameBehaviour(m, code, code[p := code[p].(dead := true)], entry)
  {
    var code' := code[p := code[p].(dead := true)];
    forall s: State | s.pc == p ensures Execute(m, s, code[p]) == s.(pc := p + 1) {
      if IsNullAssignment(code[p]) {
        NullWrite(m, s.(pc := p + 1), code[p].dest.value, Read(m, s, code[p].dest.value));
      }
    }
    forall s: State, n: nat { IdleRun(m, code, code', p, s, n); }
    LockstepBehaviour(m, code, code', entry);
  }

  // ---------------------------------------------------------------- replacing two neighbouring instructions

  /** The two instructions from `p` on do the same in both lists. */
  ghost predicate PairAgrees(m: Machine, code: Code, code': Code, p: nat) {
    forall s: State, t: State :: s.pc == p && s.status == Running && AlikeBut(m, s, t, iset{}) ==>
      AlikeBut(m, Step(m, code, Step(m, code, s)), Step(m, code', Step(m, code', t)), iset{})
  }

  /** The lists differ only in the instructions at `p` and `p + 1`, which compute values. */
  ghost predicate PairReplaced(code: Code, code': Code, p: nat) {
    && p + 1 < |code| == |code'|
    && (forall q :: 0 <= q < |code| && q != p && q != p + 1 ==>
          code'[q] == code[q])
    && (forall q :: p <= q <= p + 1 ==>
          WellFormed(code[q]) && WellFormed(code'[q]) && code[q].dest.Some? && code'[q].dest.Some?)
    && (forall q :: 0 <= q < |code| && IsJump(code[q]) ==> code[q].jumpTo != p + 1)
  }

  ghost predicate PairRelated(m: Machine, code: Code, code': Code, p: nat, s: State, t: State) {
    if s.pc == p + 1 && s.status == Running then
      && t.pc == p + 1 && t.status == Running && t.trace == s.trace
      && AlikeBut(m, Step(m, code, s), Step(m, code', t), iset{})
    else AlikeBut(m, s, t, iset{})
  }

  lemma PairStep(m: Machine, code: Code, code': Code, p: nat, s: State, t: State)
    requires m.Valid() && PairReplaced(code, code', p) && PairAgrees(m, code, code', p)
    requires PairRelated(m, code, code', p, s, t)
    ensures PairRelated(m, code, code', p, Step(m, code, s), Step(m, code', t))
  {
    hide Execute, WellFormed, AlikeBut;
    var s', t' := Step(m, code, s), Step(m, code', t);
    if s.pc == p + 1 && s.status == Running {
      ValueStep(m, code, s);
    } else {
      AlikePc(m, s, t, iset{});
      if s.status == Running && s.pc < |code| {
        if s.pc == p {
          ValueStep(m, code, s);
          ValueStep(m, code', t);
        } else {
          ExecutedPc(m, s, code[s.pc]);
          OtherStep(m, code[s.pc], s, t);
        }
      }
    }
  }

  lemma OtherStep(m: Machine, i: Instruction, s: State, t: State)
    requires m.Valid() && AlikeBut(m, s, t, iset{})
    ensures AlikeBut(m, Execute(m, s, i), Execute(m, t, i), iset{})
    ensures AlikeBut(m, s.(pc := s.pc + 1), t.(pc := t.pc + 1), iset{})
  {
    ExecutesAlike(m, s, t, iset{}, i);
  }

  lemma PairStart(m: Machine, code: Code, code': Code, p: nat, s: State)
    requires s.pc <= p
    ensures PairRelated(m, code, code', p, Run(m, code, s, 0), Run(m, code', s, 0))
  {
  }

  lemma {:induction false} PairRun(m: Machine, code: Code, code': Code, p: nat, s: State, n: nat)
    requires m.Valid() && PairReplaced(code, code', p) && PairAgrees(m, code, code', p)
    requires s.pc <= p
    ensures PairRelated(m, code, code', p, Run(m, code, s, n), Run(m, code', s, n))
  {
    hide *;
    if n == 0 {
      PairStart(m, code, code', p, s);
    } else {
      PairRun(m, code, code', p, s, n - 1);
      PairStep(m, code, code', p, Run(m, code, s, n - 1), Run(m, code', s, n - 1));
      RunIsSteps(m, code, s, n - 1);
      RunIsSteps(m, code', s, n - 1);
    }
  }

  lemma PairObserved(m: Machine, code: Code, code': Code, p: nat, s: State, t: State)
    requires p + 1 < |code| && PairRelated(m, code, code', p, s, t)
    ensures Observe(m, |code|, s) == Observe(m, |code|, t)
  {
    if !(s.pc == p + 1 && s.status == Running) {
      ContentsAlike(m, s, t, iset{});
    }
  }

  lemma PairBehaves(m: Machine, code: Code, code': Code, entry: nat, p: nat)
    requires m.Valid() && PairReplaced(code, code', p) && PairAgrees(m, code, code', p)
    requires entry <= p
    ensures SameBehaviour(m, code, code', entry)
  {
    forall s: State, n: nat | s.pc <= entry
      ensures Observe(m, |code|, Run(m, code, s, n)) == Observe(m, |code|, Run(m, code', s, n))
    {
      PairRun(m, code, code', p, s, n);
      PairObserved(m, code, code', p, Run(m, code, s, n), Run(m, code', s, n));
    }
    LockstepBehaviour(m, code, code', entry);
  }

  // A repeated assignment

  /** Overwriting what the first assignment wrote. */
  lemma OverwritingWins(m: Machine, s: State, i: Instruction, j: Instruction)
    requires m.Valid() && WellFormed(i) && WellFormed(j) && i.op == Assign && i.dest == j.dest && i.src1 == j.src1
    requires IsNullAssignment(i) || Overwrites(i, j)
    ensures AlikeBut(m, Execute(m, Execute(m, s, i), j), Execute(m, s.(pc := s.pc + 1), j), iset{})
  {
    if IsNullAssignment(i) {
      OverwritingNull(m, s, i, j);
    } else if i.dest.value.typ == AddrType {
      OverwritingElement(m, s, i, j);
    } else {
      OverwritingVariable(m, s, i, j);
    }
  }

  lemma OverwritingNull(m: Machine, s: State, i: Instruction, j: Instruction)
    requires m.Valid() && WellFormed(i) && WellFormed(j) && i.op == Assign && i.dest == j.dest && IsNullAssignment(i)
    ensures AlikeBut(m, Execute(m, Execute(m, s, i), j), Execute(m, s.(pc := s.pc + 1), j), iset{})
  {
    var s1, s2 := s.(pc := s.pc + 1), Execute(m, s, i);
    NullWrite(m, s1, i.dest.value, Read(m, s, i.dest.value));
    assert AlikeBut(m, s2, s1, iset{});
    hide *;
    ExecutesAlike(m, s2, s1, iset{}, j);
  }

  lemma OverwritingElement(m: Machine, s: State, i: Instruction, j: Instruction)
    requires m.Valid() && WellFormed(i) && WellFormed(j) && i.op == Assign && i.dest == j.dest && i.src1 == j.src1
    requires i.dest.value.typ == AddrType && Overwrites(i, j)
    ensures AlikeBut(m, Execute(m, Execute(m, s, i), j), Execute(m, s.(pc := s.pc + 1), j), iset{})
  {
    assert Read(m, Execute(m, s, i), i.dest.value) == Read(m, s, i.dest.value);
  }

  lemma OverwritingVariable(m: Machine, s: State, i: Instruction, j: Instruction)
    requires m.Valid() && WellFormed(i) && WellFormed(j) && i.op == Assign && i.dest == j.dest && i.src1 == j.src1
    requires i.dest.value.typ != AddrType && i.src1 != i.dest && j.src2 != i.dest
    ensures AlikeBut(m, Execute(m, Execute(m, s, i), j), Execute(m, s.(pc := s.pc + 1), j), iset{})
  {
    var d, x := i.dest.value, i.src1.value;
    var s1 := s.(pc := s.pc + 1);
    var v := Read(m, s, x);
    var w := Result(m, s1, j, ReadOperand(m, s1, j.src1), ReadOperand(m, s1, j.src2));
    assert Execute(m, s, i) == Write(m, s1, d, v);
    ReadAfterWrite(m, s1, d, v, x);
    if j.src2.Some? {
      ReadAfterWrite(m, s1, d, v, j.src2.value);
    }
    OverwriteTwice(m, s1.(pc := s1.pc + 1), d, v, w);
    hide Read, AlikeBut, Updated, Lookup;
    assert Execute(m, s1, j) == Write(m, s1.(pc := s1.pc + 1), d, w);
    assert Execute(m, Write(m, s1, d, v), j) == Write(m, Write(m, s1.(pc := s1.pc + 1), d, v), d, w);
  }

  lemma OverwriteTwice(m: Machine, s: State, d: Symbol, v: int, w: int)
    requires m.Valid()
    ensures AlikeBut(m, Write(m, Write(m, s, d, v), d, w), Write(m, s, d, w), iset{})
  {
  }

  /** The assignment `i` may go because the instruction `j` follows. */
  ghost predicate IsOverwritten(i: Instruction, j: Instruction) {
    && WellFormed(i) && WellFormed(j) && i.op == Assign && i.dest == j.dest && i.src1 == j.src1
    && (IsNullAssignment(i) || Overwrites(i, j))
  }

  lemma RepeatAgrees(m: Machine, code: Code, code': Code, p: nat)
    requires m.Valid() && p + 1 < |code| && IsOverwritten(code[p], code[p + 1])
    requires !code[p].dead && !code[p + 1].dead && code' == code[p := code[p].(dead := true)]
    ensures PairAgrees(m, code, code', p)
  {
    hide Step, AlikeBut, IsOverwritten;
    forall s: State, t: State | s.pc == p && s.status == Running && AlikeBut(m, s, t, iset{})
      ensures AlikeBut(m, Step(m, code, Step(m, code, s)), Step(m, code', Step(m, code', t)), iset{})
    {
      AlikePc(m, s, t, iset{});
      RepeatSteps(m, code, s);
      DeadSteps(m, code', t);
      OverwrittenAlike(m, s, t, code[p], code[p + 1]);
    }
  }

  lemma RepeatSteps(m: Machine, code: Code, s: State)
    requires s.status == Running && s.pc + 1 < |code| && IsOverwritten(code[s.pc], code[s.pc + 1])
    requires !code[s.pc].dead && !code[s.pc + 1].dead
    ensures Step(m, code, Step(m, code, s)) == Execute(m, Execute(m, s, code[s.pc]), code[s.pc + 1])
  {
    ValueStep(m, code, s);
    hide Execute, IsOverwritten;
  }

  lemma DeadSteps(m: Machine, code: Code, t: State)
    requires t.status == Running && t.pc + 1 < |code| && code[t.pc].dead && !code[t.pc + 1].dead
    ensures Step(m, code, Step(m, code, t)) == Execute(m, t.(pc := t.pc + 1), code[t.pc + 1])
  {
    hide Execute;
  }

  lemma OverwrittenAlike(m: Machine, s: State, t: State, i: Instruction, j: Instruction)
    requires m.Valid() && IsOverwritten(i, j) && AlikeBut(m, s, t, iset{})
    ensures AlikeBut(m, Execute(m, Execute(m, s, i), j), Execute(m, t.(pc := t.pc + 1), j), iset{})
  {
    hide Execute, AlikeBut, WellFormed, Overwrites;
    var s1, t1 := s.(pc := s.pc + 1), t.(pc := t.pc + 1);
    OverwritingWins(m, s, i, j);
    OtherStep(m, i, s, t);
    ExecutesAlike(m, s1, t1, iset{}, j);
    AlikeTransitive(m, Execute(m, Execute(m, s, i), j), Execute(m, s1, j), Execute(m, t1, j), iset{});
  }

  lemma RepeatDies(m: Machine, code: Code, entry: nat, p: nat)
    requires m.Valid() && WellFormedCode(code, entry) && p + 1 < |code| && !code[p].dead && !code[p + 1].dead
    requires Repeats(code, p) && (IsNullAssignment(code[p]) || Overwrites(code[p], code[p + 1]))
    ensures SameBehaviour(m, code, code[p := code[p].(dead := true)], entry)
  {
    var code' := code[p := code[p].(dead := true)];
    assert WellFormed(code[p]) && WellFormed(code[p + 1]);
    RepeatAgrees(m, code, code', p);
    assert PairReplaced(code, code', p);
    PairBehaves(m, code, code', entry, p);
  }

  // A jump over a jump

  lemma InvertedCompares(k: Kind, a: int, b: int)
    requires IsRelational(k)
    ensures Compare(InvertedKind(k), a, b) == !Compare(k, a, b)
  {
  }

  function Inverted(code: Code, p: nat): Code
    requires p + 1 < |code|
  {
    code[p := code[p].(kind := InvertedKind(code[p].kind), jumpTo := code[p + 1].jumpTo)]
        [p + 1 := code[p + 1].(dead := true)]
  }

  /** A conditional jump over a jump that is not dead, neither of them a jump target of the list. */
  ghost predicate Invertible(code: Code, p: nat) {
    && p < |code| && JumpsOverJump(code, p) && !code[p].dead && !code[p + 1].dead
    && WellFormed(code[p]) && WellFormed(code[p + 1])
    && (forall q :: 0 <= q < |code| && IsJump(code[q]) ==> code[q].jumpTo != p + 1 && code[q].jumpTo < |code|)
  }

  /** The inverted list has passed over the jump already, or the original is at it. */
  ghost predicate Ahead(code: Code, p: nat, s: State, t: State)
    requires p + 1 < |code|
  {
    t == if s.pc == p + 1 && s.status == Running then s.(pc := code[p + 1].jumpTo) else s
  }

  /** The inverted list is at the dead jump, or where the original is. */
  ghost predicate Behind(p: nat, s: State, t: State) {
    s == if t.pc == p + 1 && t.status == Running then t.(pc := p + 2) else t
  }

  lemma TestStep(m: Machine, code: Code, p: nat, s: State)
    requires Invertible(code, p) && s.pc == p && s.status == Running
    ensures var c := Compare(code[p].kind, ReadOperand(m, s, code[p].src1), ReadOperand(m, s, code[p].src2));
      && Step(m, code, s) == s.(pc := if c then p + 2 else p + 1)
      && Step(m, Inverted(code, p), s) == s.(pc := if c then p + 1 else code[p + 1].jumpTo)
  {
    InvertedCompares(code[p].kind, ReadOperand(m, s, code[p].src1), ReadOperand(m, s, code[p].src2));
  }

  lemma JumpStep(m: Machine, code: Code, p: nat, s: State)
    requires Invertible(code, p) && s.pc == p + 1 && s.status == Running
    ensures Step(m, code, s) == s.(pc := code[p + 1].jumpTo) && Step(m, Inverted(code, p), s) == s.(pc := p + 2)
  {
  }

  lemma ElsewhereStep(m: Machine, code: Code, p: nat, s: State)
    requires Invertible(code, p) && (s.status == Running ==> s.pc != p && s.pc != p + 1)
    ensures Step(m, Inverted(code, p), s) == Step(m, code, s)
    ensures var s' := Step(m, code, s); s'.status == Running ==> s'.pc != p + 1
  {
    if s.status == Running && s.pc < |code| {
      ExecutedPc(m, s, code[s.pc]);
    }
  }

  lemma AheadStep(m: Machine, code: Code, p: nat, s: State, t: State) returns (k: nat)
    requires p + 1 < |code| && Invertible(code, p) && Ahead(code, p, s, t)
    ensures Ahead(code, p, Step(m, code, s), Run(m, Inverted(code, p), t, k))
  {
    hide Step, Run, Invertible, Inverted;
    TwoSteps(m, Inverted(code, p), t);
    if s.pc == p + 1 && s.status == Running {
      JumpStep(m, code, p, s);
      TargetElsewhere(code, p);
      k := 0;
    } else if s.pc == p && s.status == Running {
      TestStep(m, code, p, s);
      JumpStep(m, code, p, s.(pc := p + 1));
      k := if Step(m, code, s).pc == p + 2 then 2 else 1;
    } else {
      ElsewhereStep(m, code, p, s);
      k := 1;
    }
  }

  lemma TargetElsewhere(code: Code, p: nat)
    requires p + 1 < |code| && Invertible(code, p)
    ensures code[p + 1].jumpTo != p + 1
  {
  }

  lemma BehindStep(m: Machine, code: Code, p: nat, s: State, t: State) returns (k: nat)
    requires p + 1 < |code| && Invertible(code, p) && Behind(p, s, t)
    ensures Behind(p, Run(m, code, s, k), Step(m, Inverted(code, p), t))
  {
    hide Step, Run, Invertible, Inverted;
    TwoSteps(m, code, s);
    if t.pc == p + 1 && t.status == Running {
      JumpStep(m, code, p, t);
      k := 0;
    } else if t.pc == p && t.status == Running {
      TestStep(m, code, p, t);
      JumpStep(m, code, p, t.(pc := p + 1));
      TargetElsewhere(code, p);
      k := if Step(m, code, t).pc == p + 2 then 1 else 2;
    } else {
      ElsewhereStep(m, code, p, t);
      k := 1;
    }
  }

  lemma StartsAhead(code: Code, p: nat, s: State)
    requires p + 1 < |code| && s.pc <= p
    ensures Ahead(code, p, s, s) && Behind(p, s, s)
  {
  }

  /** The run of the inverted list that shows what `n` steps of the original show. */
  lemma {:induction false} InvertedFollows(m: Machine, code: Code, p: nat, s: State, n: nat) returns (k: nat)
    requires p + 1 < |code| && Invertible(code, p) && s.pc <= p
    ensures Ahead(code, p, Run(m, code, s, n), Run(m, Inverted(code, p), s, k))
  {
    hide *;
    var code' := Inverted(code, p);
    RunIsSteps(m, code, s, 0);
    RunIsSteps(m, code', s, 0);
    if n == 0 {
      k := 0;
      StartsAhead(code, p, s);
    } else {
      k := InvertedFollows(m, code, p, s, n - 1);
      var d := AheadStep(m, code, p, Run(m, code, s, n - 1), Run(m, code', s, k));
      RunIsSteps(m, code, s, n - 1);
      RunAppends(m, code', s, k, d);
      k := k + d;
    }
  }

  /** The run of the original that shows what `n` steps of the inverted list show. */
  lemma {:induction false} InvertedIsFollowed(m: Machine, code: Code, p: nat, s: State, n: nat) returns (k: nat)
    requires p + 1 < |code| && Invertible(code, p) && s.pc <= p
    ensures Behind(p, Run(m, code, s, k), Run(m, Inverted(code, p), s, n))
  {
    hide *;
    var code' := Inverted(code, p);
    RunIsSteps(m, code, s, 0);
    RunIsSteps(m, code', s, 0);
    if n == 0 {
      k := 0;
      StartsAhead(code, p, s);
    } else {
      k := InvertedIsFollowed(m, code, p, s, n - 1);
      var d := BehindStep(m, code, p, Run(m, code, s, k), Run(m, code', s, n - 1));
      RunIsSteps(m, code', s, n - 1);
      RunAppends(m, code, s, k, d);
      k := k + d;
    }
  }

  lemma InversionBehaves(m: Machine, code: Code, entry: nat, p: nat)
    requires Invertible(code, p) && entry <= p
    ensures SameBehaviour(m, code, Inverted(code, p), entry)
  {
    var code' := Inverted(code, p);
    forall s: State, o: Observation | s.pc <= entry ensures Shows(m, code, s, o) <==> Shows(m, code', s, o) {
      if Shows(m, code, s, o) {
        var n: nat :| Observe(m, |code|, Run(m, code, s, n)) == o;
        var k := InvertedFollows(m, code, p, s, n);
        assert Observe(m, |code'|, Run(m, code', s, k)) == o;
      }
      if Shows(m, code', s, o) {
        var n: nat :| Observe(m, |code'|, Run(m, code', s, n)) == o;
        var k := InvertedIsFollowed(m, code, p, s, n);
        assert Observe(m, |code|, Run(m, code, s, k)) == o;
      }
    }
  }
}
