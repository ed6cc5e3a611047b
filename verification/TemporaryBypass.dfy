/**
 * Computing straight into the variable that a temporary is copied to (run_peephole_optimization,
 * code_optimization.c).
 */
module TemporaryBypass {
  import opened Instructions
  import opened Semantics
  import opened Behaviour
  import opened ControlFlow
  import opened ReadPaths
  import opened Alike
  import opened PeepholeRules

  /** The temporary that the previous instruction computes is copied to another variable. */
  predicate PassesOn(code: Code, p: nat)
    requires p < |code|
  {
    Bypasses(code, p) && !IsNullAssignment(code[p])
  }

  /** The list in which all such temporaries are bypassed. */
  function Bypassed(code: Code): (r: Code)
    ensures |r| == |code|
    ensures forall p :: 0 <= p < |code| ==> r[p] == BypassedAt(code, p)
  {
    seq(|code|, p requires 0 <= p < |code| => BypassedAt(code, p))
  }

  function BypassedAt(code: Code, p: nat): Instruction
    requires p < |code|
  {
    code[p].(dest := if p + 1 < |code| && PassesOn(code, p + 1) then code[p + 1].dest else code[p].dest,
             dead := code[p].dead || PassesOn(code, p))
  }

  /** The copy of what `i` computes from `x` to `d` loses nothing that `x` keeps. */
  predicate TypesFit(i: Instruction, x: Symbol, d: Symbol) {
    x.typ == d.typ || x.typ == IntType || (i.op == Assign && i.src1.Some? && i.src1.value.typ == x.typ)
  }

  /** The temporary is computed just before, is local, fits and is not read again before it is computed again. */
  ghost predicate CanPassOn(code: Code, p: nat)
    requires p < |code| && PassesOn(code, p)
  {
    var x, d := code[p].src1.value, code[p].dest.value;
    && !code[p].dead && !code[p - 1].dead && x.scope == Local && TypesFit(code[p - 1], x, d)
    && !ReadLater(code, p + 1, x) && !PassesOn(code, p - 1)
  }

  ghost predicate Bypassable(code: Code, entry: nat) {
    && WellFormedCode(code, entry)
    && (forall p :: 0 <= p < |code| && IsNullAssignment(code[p]) ==> code[p].dead)
    && (forall p :: 0 <= p < |code| && PassesOn(code, p) ==> CanPassOn(code, p))
  }

  ghost predicate IsPassedOn(code: Code, x: Symbol) {
    exists p :: 0 <= p < |code| && PassesOn(code, p) && code[p].src1 == Some(x)
  }

  /** The temporaries whose values may differ at `q`. */
  ghost function Stale(code: Code, q: nat): iset<Symbol> {
    iset x: Symbol | IsPassedOn(code, x) && !ReadLater(code, q, x)
  }

  lemma StaleIsLocal(code: Code, entry: nat, q: nat, x: Symbol)
    requires Bypassable(code, entry) && x in Stale(code, q)
    ensures x.scope == Local && x.typ != AddrType
  {
    var p :| 0 <= p < |code| && PassesOn(code, p) && code[p].src1 == Some(x);
    assert CanPassOn(code, p) && WellFormed(code[p]);
  }

  /**
   * Between the two instructions of a pair the next step levels the states; elsewhere only stale
   * temporaries differ.
   */
  ghost predicate BypassRelated(m: Machine, code: Code, s: State, t: State) {
    if s.status == Running && s.pc < |code| && PassesOn(code, s.pc) then
      && t.pc == s.pc && t.status == Running && t.trace == s.trace
      && AlikeBut(m, Step(m, code, s), Step(m, Bypassed(code), t), Stale(code, s.pc + 1))
    else AlikeBut(m, s, t, Stale(code, s.pc))
  }

  // ---------------------------------------------------------------- one pair

  /** Computing into `d` instead of the temporary `x`, which is then copied to `d`. */
  lemma BypassWrites(
      m: Machine, s: State, t: State, but: iset<Symbol>, but': iset<Symbol>, x: Symbol, d: Symbol, v: int)
    requires m.Valid() && AlikeBut(m, s, t, but) && !x.isConstant && !d.isConstant && x.scope == Local
    requires m.fit(d.typ, m.fit(x.typ, v)) == m.fit(d.typ, v)
    requires x in but' && forall y :: y in but' ==> y.scope == Local && y.typ != AddrType
    requires forall y :: y in but ==> y in but' || y == d
    ensures var s' := Write(m, s, x, v); AlikeBut(m, Write(m, s', d, Read(m, s', x)), Write(m, t, d, v), but')
  {
    var s' := Write(m, s, x, v);
    assert Read(m, s', x) == m.fit(x.typ, v);
    var s'', t'' := Write(m, s', d, Read(m, s', x)), Write(m, t, d, v);
    assert s'' == Write(m, s', d, v);
    forall y: Symbol
      ensures Lookup(m, s''.globals, y) == Lookup(m, t''.globals, y)
      ensures y !in but' ==> Lookup(m, s''.locals, y) == Lookup(m, t''.locals, y)
    {
      LookupAfterUpdate(m, s.locals, x, v, y);
      LookupAfterUpdate(m, s'.locals, d, v, y);
      LookupAfterUpdate(m, t.locals, d, v, y);
      LookupAfterUpdate(m, s.globals, d, v, y);
      LookupAfterUpdate(m, t.globals, d, v, y);
    }
  }

  lemma TypesFitValue(m: Machine, s: State, i: Instruction, x: Symbol, d: Symbol)
    requires m.Valid() && m.IntIsWidest() && WellFormed(i) && i.dest == Some(x) && TypesFit(i, x, d)
    ensures var v := Result(m, s, i, ReadOperand(m, s, i.src1), ReadOperand(m, s, i.src2));
            m.fit(d.typ, m.fit(x.typ, v)) == m.fit(d.typ, v)
  {
  }

  /** The value that an instruction writes to `x`, and its other form to `d`. */
  lemma ValueWritten(m: Machine, s: State, t: State, but: iset<Symbol>, i: Instruction, x: Symbol, d: Symbol)
    requires WellFormed(i) && i.dest == Some(x) && x.typ != AddrType && d.typ != AddrType
    requires AlikeBut(m, s, t, but) && forall y :: Reads(i, y) ==> y !in but
    ensures var v := Result(m, s, i, ReadOperand(m, s, i.src1), ReadOperand(m, s, i.src2));
      && Execute(m, s, i) == Write(m, s.(pc := s.pc + 1), x, v)
      && Execute(m, t, i.(dest := Some(d))) == Write(m, t.(pc := t.pc + 1), d, v)
  {
    var j := i.(dest := Some(d));
    ComputesValue(i);
    hide WellFormed, Execute, Write, Read, ReadOperand, Result;
    Computed(m, s, i, x);
    Computed(m, t, j, d);
    ReadsAlike(m, s, t, but, i.src1);
    ReadsAlike(m, s, t, but, i.src2);
    ResultAlike(m, s, t, but, i, j, ReadOperand(m, s, i.src1), ReadOperand(m, s, i.src2));
  }

  predicate IsControl(i: Instruction) {
    i.op == If || i.op == Goto || i.op == Param || i.op == Call || i.op == Return
  }

  lemma ComputesValue(i: Instruction)
    requires WellFormed(i) && i.dest.Some?
    ensures !IsControl(i)
  {
  }

  lemma Computed(m: Machine, s: State, i: Instruction, x: Symbol)
    requires i.dest == Some(x) && x.typ != AddrType && !IsControl(i)
    ensures Execute(m, s, i) ==
            Write(m, s.(pc := s.pc + 1), x, Result(m, s, i, ReadOperand(m, s, i.src1), ReadOperand(m, s, i.src2)))
  {
    hide Write, ReadOperand, Result;
  }

  lemma ResultAlike(
      m: Machine, s: State, t: State, but: iset<Symbol>, i: Instruction, j: Instruction, v1: int, v2: int)
    requires AlikeBut(m, s, t, but) && j == i.(dest := j.dest)
    ensures Result(m, t, j, v1, v2) == Result(m, s, i, v1, v2)
  {
  }

  lemma CopyWritten(m: Machine, s: State, j: Instruction)
    requires WellFormed(j) && j.op == Assign && j.dest.value.typ != AddrType
    ensures Execute(m, s, j) == Write(m, s.(pc := s.pc + 1), j.dest.value, Read(m, s, j.src1.value))
  {
  }

  /** Both instructions of a pair on one side, and the changed one and a dead one on the other side. */
  lemma PairAlike(
      m: Machine, s: State, t: State, but: iset<Symbol>, but': iset<Symbol>, i: Instruction, j: Instruction)
    requires m.Valid() && m.IntIsWidest() && WellFormed(i) && WellFormed(j) && j.op == Assign && i.dest == j.src1
    requires var x, d := j.src1.value, j.dest.value;
      && d.typ != AddrType && x.scope == Local && TypesFit(i, x, d)
      && x in but' && (forall y :: y in but ==> y in but' || y == d)
    requires forall y :: y in but' ==> y.scope == Local && y.typ != AddrType
    requires AlikeBut(m, s, t, but) && forall y :: Reads(i, y) ==> y !in but
    ensures AlikeBut(m, Execute(m, Execute(m, s, i), j),
                     Execute(m, t, i.(dest := j.dest)).(pc := t.pc + 2), but')
  {
    var x, d := j.src1.value, j.dest.value;
    var v := Result(m, s, i, ReadOperand(m, s, i.src1), ReadOperand(m, s, i.src2));
    assert i.dest == Some(x) && !x.isConstant && !d.isConstant && x.typ != AddrType;
    TypesFitValue(m, s, i, x, d);
    ValueWritten(m, s, t, but, i, x, d);
    CopyWritten(m, Write(m, s.(pc := s.pc + 1), x, v), j);
    var s2, t2 := s.(pc := s.pc + 2), t.(pc := t.pc + 2);
    hide AlikeBut, Lookup, Updated, WellFormed, Read, Execute, Result, TypesFit;
    AlikePc(m, s, t, but);
    MovedAlike(m, s, t, s.pc + 2, but);
    BypassWrites(m, s2, t2, but, but', x, d, v);
  }

  // ---------------------------------------------------------------- all pairs

  lemma StaleFlows(code: Code, p: nat, q: nat, x: Symbol)
    requires p < |code| && Leads(code, p, q) && x in Stale(code, p)
    ensures x in Stale(code, q) || ChangesVariable(code[p], x)
    ensures !ReadsVariable(code[p], x)
  {
    if ReadsVariable(code[p], x) {
      ReadHere(code, p, x);
    }
    if ReadLater(code, q, x) && !ChangesVariable(code[p], x) {
      ReadThere(code, p, q, x);
    }
  }

  lemma StaleNotRead(code: Code, p: nat, x: Symbol)
    requires p < |code| && x in Stale(code, p)
    ensures !ReadsVariable(code[p], x)
  {
    if ReadsVariable(code[p], x) {
      ReadHere(code, p, x);
    }
  }

  lemma AwakeReads(code: Code, entry: nat, p: nat, x: Symbol)
    requires Bypassable(code, entry) && p < |code| && !code[p].dead && !ReadsVariable(code[p], x)
    ensures !Reads(code[p], x)
  {
  }

  lemma BothStep(m: Machine, code: Code, entry: nat, s: State, t: State)
    requires Bypassable(code, entry) && s.status == t.status == Running && s.pc == t.pc < |code|
    requires !PassesOn(code, s.pc) && (s.pc + 1 < |code| ==> !PassesOn(code, s.pc + 1))
    ensures WellFormed(code[s.pc])
    ensures Step(m, code, s) == if code[s.pc].dead then s.(pc := s.pc + 1) else Execute(m, s, code[s.pc])
    ensures Step(m, Bypassed(code), t) == if code[s.pc].dead then t.(pc := t.pc + 1) else Execute(m, t, code[s.pc])
  {
    assert BypassedAt(code, s.pc) == code[s.pc];
    hide Execute, WellFormed;
  }

  lemma StoppedPc(m: Machine, code: Code, s: State)
    requires s.status == Running && s.pc < |code|
    ensures Step(m, code, s).status != Running ==> Step(m, code, s).pc == s.pc && !code[s.pc].dead
  {
    hide Contents, Result, ReadOperand, Updated;
  }

  /** An instruction outside of the pairs. */
  lemma OrdinaryStep(m: Machine, code: Code, entry: nat, s: State, t: State)
    requires m.Valid() && Bypassable(code, entry) && s.status == Running && s.pc < |code|
    requires !PassesOn(code, s.pc) && (s.pc + 1 < |code| ==> !PassesOn(code, s.pc + 1))
    requires AlikeBut(m, s, t, Stale(code, s.pc))
    ensures var s' := Step(m, code, s); AlikeBut(m, s', Step(m, Bypassed(code), t), Stale(code, s'.pc))
  {
    hide Execute, AlikeBut, Stale, WellFormed, Bypassed, Step, PassesOn, Bypassable, Leads;
    var p, i, s' := s.pc, code[s.pc], Step(m, code, s);
    AlikePc(m, s, t, Stale(code, p));
    BothStep(m, code, entry, s, t);
    StoppedPc(m, code, s);
    forall x | x in Stale(code, s'.pc) ensures x.scope == Local && x.typ != AddrType {
      StaleIsLocal(code, entry, s'.pc, x);
    }
    if s'.status == Running {
      StepLeads(m, code, s);
      forall x | x in Stale(code, p)
        ensures x in Stale(code, s'.pc) || ChangesVariable(i, x)
        ensures !ReadsVariable(i, x)
      {
        StaleFlows(code, p, s'.pc, x);
      }
    } else {
      forall x | x in Stale(code, p) ensures !ReadsVariable(i, x) {
        StaleNotRead(code, p, x);
      }
    }
    if i.dead {
      MovedAlike(m, s, t, p + 1, Stale(code, p));
      SmallerDifference(m, s', t.(pc := p + 1), Stale(code, p), Stale(code, p + 1));
    } else {
      forall x | x in Stale(code, p) ensures !Reads(i, x) {
        AwakeReads(code, entry, p, x);
      }
      ExecutesCloser(m, s, t, Stale(code, p), Stale(code, s'.pc), i);
    }
  }

  /** The first instruction of a pair. */
  lemma PairBegins(m: Machine, code: Code, entry: nat, s: State, t: State)
    requires m.Valid() && m.IntIsWidest() && Bypassable(code, entry) && s.status == Running && s.pc + 1 < |code|
    requires PassesOn(code, s.pc + 1) && AlikeBut(m, s, t, Stale(code, s.pc))
    ensures var s', t' := Step(m, code, s), Step(m, Bypassed(code), t);
      && s'.pc == t'.pc == s.pc + 1 && s'.status == t'.status == Running && t'.trace == s'.trace
      && AlikeBut(m, Step(m, code, s'), Step(m, Bypassed(code), t'), Stale(code, s.pc + 2))
  {
    var p := s.pc;
    var i, j, c' := code[p], code[p + 1], Bypassed(code);
    var x := j.src1.value;
    assert CanPassOn(code, p + 1) && WellFormed(i) && WellFormed(j);
    assert c'[p] == i.(dest := j.dest) && c'[p + 1] == j.(dead := true);
    AlikePc(m, s, t, Stale(code, p));
    ValueStep(m, code, s);
    assert WellFormed(c'[p]);
    ValueStep(m, c', t);
    assert x in Stale(code, p + 2);
    PairDifference(code, entry, p);
    hide Execute, AlikeBut, Stale, WellFormed, TypesFit;
    PairAlike(m, s, t, Stale(code, p), Stale(code, p + 2), i, j);
  }

  lemma PairDifference(code: Code, entry: nat, p: nat)
    requires Bypassable(code, entry) && p + 1 < |code| && PassesOn(code, p + 1)
    ensures forall y :: y in Stale(code, p) ==> y in Stale(code, p + 2) || Some(y) == code[p + 1].dest
    ensures forall y :: y in Stale(code, p + 2) ==> y.scope == Local && y.typ != AddrType
    ensures forall y :: Reads(code[p], y) ==> y !in Stale(code, p)
  {
    var i, j := code[p], code[p + 1];
    assert CanPassOn(code, p + 1) && WellFormed(i) && WellFormed(j);
    forall y | y in Stale(code, p)
      ensures y in Stale(code, p + 2) || Some(y) == j.dest
      ensures !Reads(i, y)
    {
      StaleFlows(code, p, p + 1, y);
      if y in Stale(code, p + 1) {
        StaleFlows(code, p + 1, p + 2, y);
      }
    }
    forall y | y in Stale(code, p + 2) ensures y.scope == Local && y.typ != AddrType {
      StaleIsLocal(code, entry, p + 2, y);
    }
  }

  lemma BypassStep(m: Machine, code: Code, entry: nat, s: State, t: State)
    requires m.Valid() && m.IntIsWidest() && Bypassable(code, entry) && BypassRelated(m, code, s, t)
    ensures BypassRelated(m, code, Step(m, code, s), Step(m, Bypassed(code), t))
  {
    hide *;
    var p := s.pc;
    RelatedMeans(m, code, s, t);
    RelatedMeans(m, code, Step(m, code, s), Step(m, Bypassed(code), t));
    if s.status != Running || p >= |code| {
      StuckAlike(m, code, s, t);
    } else if PassesOn(code, p) {
      PairEnds(m, code, entry, s);
    } else if p + 1 < |code| && PassesOn(code, p + 1) {
      PairBegins(m, code, entry, s, t);
    } else {
      OrdinaryStep(m, code, entry, s, t);
      NoPairEntered(m, code, entry, s);
    }
  }

  lemma RelatedMeans(m: Machine, code: Code, s: State, t: State)
    ensures BypassRelated(m, code, s, t) <==>
      if s.status == Running && s.pc < |code| && PassesOn(code, s.pc) then
        && t.pc == s.pc && t.status == Running && t.trace == s.trace
        && AlikeBut(m, Step(m, code, s), Step(m, Bypassed(code), t), Stale(code, s.pc + 1))
      else AlikeBut(m, s, t, Stale(code, s.pc))
  {
  }

  /** Behind a pair no second instruction of a pair follows. */
  lemma PairEnds(m: Machine, code: Code, entry: nat, s: State)
    requires Bypassable(code, entry) && s.status == Running && s.pc < |code| && PassesOn(code, s.pc)
    ensures Step(m, code, s).pc == s.pc + 1 && (s.pc + 1 < |code| ==> !PassesOn(code, s.pc + 1))
  {
    assert CanPassOn(code, s.pc) && WellFormed(code[s.pc]);
    ValueStep(m, code, s);
    assert s.pc + 1 < |code| && PassesOn(code, s.pc + 1) ==> CanPassOn(code, s.pc + 1);
  }

  lemma StuckAlike(m: Machine, code: Code, s: State, t: State)
    requires (s.status != Running || s.pc >= |code|) && BypassRelated(m, code, s, t)
    ensures Step(m, code, s) == s && Step(m, Bypassed(code), t) == t
  {
  }

  lemma NoPairEntered(m: Machine, code: Code, entry: nat, s: State)
    requires Bypassable(code, entry) && s.status == Running && s.pc < |code|
    requires !PassesOn(code, s.pc) && (s.pc + 1 < |code| ==> !PassesOn(code, s.pc + 1))
    ensures var s' := Step(m, code, s); s'.status == Running && s'.pc < |code| ==> !PassesOn(code, s'.pc)
  {
    StepPasses(m, code, s);
    hide Execute;
  }

  lemma {:induction false} BypassRun(m: Machine, code: Code, entry: nat, s: State, n: nat)
    requires m.Valid() && m.IntIsWidest() && Bypassable(code, entry) && s.pc <= entry
    ensures BypassRelated(m, code, Run(m, code, s, n), Run(m, Bypassed(code), s, n))
  {
    hide *;
    if n == 0 {
      RunIsSteps(m, code, s, 0);
      RunIsSteps(m, Bypassed(code), s, 0);
      StartsRelated(m, code, entry, s);
    } else {
      BypassRun(m, code, entry, s, n - 1);
      BypassStep(m, code, entry, Run(m, code, s, n - 1), Run(m, Bypassed(code), s, n - 1));
      RunIsSteps(m, code, s, n - 1);
      RunIsSteps(m, Bypassed(code), s, n - 1);
    }
  }

  lemma StartsRelated(m: Machine, code: Code, entry: nat, s: State)
    requires Bypassable(code, entry) && s.pc <= entry
    ensures BypassRelated(m, code, s, s)
  {
    assert WellFormed(code[s.pc]);
    forall x | x in Stale(code, s.pc) ensures x.scope == Local && x.typ != AddrType {
      StaleIsLocal(code, entry, s.pc, x);
    }
  }

  lemma BypassObserved(m: Machine, code: Code, s: State, t: State)
    requires BypassRelated(m, code, s, t)
    ensures Observe(m, |code|, s) == Observe(m, |code|, t)
  {
    if !(s.status == Running && s.pc < |code| && PassesOn(code, s.pc)) {
      ContentsAlike(m, s, t, Stale(code, s.pc));
    }
  }

  /** Bypassing temporaries changes nothing that a run of the function shows. */
  lemma BypassBehaves(m: Machine, code: Code, entry: nat)
    requires m.Valid() && m.IntIsWidest() && Bypassable(code, entry)
    ensures SameBehaviour(m, code, Bypassed(code), entry)
  {
    forall s: State, n: nat | s.pc <= entry
      ensures Observe(m, |code|, Run(m, code, s, n)) == Observe(m, |code|, Run(m, Bypassed(code), s, n))
    {
      BypassRun(m, code, entry, s, n);
      BypassObserved(m, code, Run(m, code, s, n), Run(m, Bypassed(code), s, n));
    }
    LockstepBehaviour(m, code, Bypassed(code), entry);
  }
}
