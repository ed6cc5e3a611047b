/** States that agree on everything but some local variables. */
module Alike {
  import opened Instructions
  import opened Semantics

  predicate Reads(i: Instruction, x: Symbol) {
    i.src1 == Some(x) || i.src2 == Some(x)
  }

  /** The states agree on everything that can be read, but for some local variables. */
  ghost predicate AlikeBut(m: Machine, s: State, t: State, but: iset<Symbol>) {
    && t == s.(globals := t.globals, locals := t.locals)
    && (forall x :: x in but ==> x.scope == Local && x.typ != AddrType)
    && (forall x: Symbol :: Lookup(m, s.globals, x) == Lookup(m, t.globals, x))
    && (forall x: Symbol :: x !in but ==> Lookup(m, s.locals, x) == Lookup(m, t.locals, x))
  }

  lemma AlikeTransitive(m: Machine, s: State, t: State, u: State, but: iset<Symbol>)
    requires AlikeBut(m, s, t, iset{}) && AlikeBut(m, t, u, but)
    ensures AlikeBut(m, s, u, but)
  {
  }

  lemma ReadsAlike(m: Machine, s: State, t: State, but: iset<Symbol>, x: Option<Symbol>)
    requires AlikeBut(m, s, t, but) && (x.None? || x.value !in but)
    ensures ReadOperand(m, s, x) == ReadOperand(m, t, x)
  {
  }

  lemma UpdatesAlike(m: Machine, a: Store, b: Store, but: iset<Symbol>, d: Symbol, v: int)
    requires m.Valid() && forall x: Symbol :: x !in but ==> Lookup(m, a, x) == Lookup(m, b, x)
    ensures forall x: Symbol :: x !in but ==> Lookup(m, Updated(m, a, d, v), x) == Lookup(m, Updated(m, b, d, v), x)
  {
    forall x: Symbol | x !in but ensures Lookup(m, Updated(m, a, d, v), x) == Lookup(m, Updated(m, b, d, v), x) {
      LookupAfterUpdate(m, a, d, v, x);
      LookupAfterUpdate(m, b, d, v, x);
    }
  }

  lemma WritesAlike(m: Machine, s: State, t: State, but: iset<Symbol>, d: Symbol, v: int)
    requires m.Valid() && AlikeBut(m, s, t, but)
    ensures AlikeBut(m, Write(m, s, d, v), Write(m, t, d, v), but)
  {
    UpdatesAlike(m, s.globals, t.globals, iset{}, d, v);
    UpdatesAlike(m, s.locals, t.locals, but, d, v);
    hide Updated, Lookup;
  }

  lemma ContentsAlike(m: Machine, s: State, t: State, but: iset<Symbol>)
    requires AlikeBut(m, s, t, but)
    ensures Contents(m, s.globals) == Contents(m, t.globals)
  {
    forall x: Symbol ensures Lookup(m, s.globals, x) == Lookup(m, t.globals, x) {
    }
  }

  lemma ControlsAlike(m: Machine, s: State, t: State, but: iset<Symbol>, i: Instruction, v1: int, v2: int)
    requires AlikeBut(m, s, t, but)
    ensures AlikeBut(m, Control(m, s, i, v1, v2), Control(m, t, i, v1, v2), but)
  {
    ContentsAlike(m, s, t, but);
    hide Lookup, Contents, Compare;
    if i.op == Call && i.src1.Some? {
      CallsAlike(m, s, t, but, i, v1, v2);
    } else {
      ControlFields(m, s, i, v1, v2);
      ControlFields(m, t, i, v1, v2);
      hide Control;
    }
  }

  lemma ControlFields(m: Machine, s: State, i: Instruction, v1: int, v2: int)
    requires i.op != Call || i.src1.None?
    ensures Control(m, s, i, v1, v2) == s.(
              pc := if i.op == Return then s.pc
                    else if i.op == Goto || (i.op == If && Compare(i.kind, v1, v2)) then i.jumpTo else s.pc + 1,
              arguments := if i.op == Param then s.arguments + [v1] else s.arguments,
              status := if i.op == Return then Returned(if i.src1.Some? then Some(v1) else None) else s.status)
  {
  }

  lemma CallsAlike(m: Machine, s: State, t: State, but: iset<Symbol>, i: Instruction, v1: int, v2: int)
    requires AlikeBut(m, s, t, but) && i.op == Call && i.src1.Some?
    requires Contents(m, s.globals) == Contents(m, t.globals)
    ensures AlikeBut(m, Control(m, s, i, v1, v2), Control(m, t, i, v1, v2), but)
  {
    hide Lookup, Contents;
    var r := m.call(i.src1.value, s.arguments, Contents(m, s.globals), s.memory);
    assert Control(m, t, i, v1, v2) == Control(m, s, i, v1, v2).(locals := t.locals);
  }

  lemma ExecutesAlike(m: Machine, s: State, t: State, but: iset<Symbol>, i: Instruction)
    requires m.Valid() && AlikeBut(m, s, t, but) && forall x :: Reads(i, x) ==> x !in but
    ensures AlikeBut(m, Execute(m, s, i), Execute(m, t, i), but)
  {
    ReadsAlike(m, s, t, but, i.src1);
    ReadsAlike(m, s, t, but, i.src2);
    var v1, v2 := ReadOperand(m, s, i.src1), ReadOperand(m, s, i.src2);
    ControlsAlike(m, s, t, but, i, v1, v2);
    assert Result(m, s, i, v1, v2) == Result(m, t, i, v1, v2);
    if i.dest.Some? {
      if i.dest.value.typ == AddrType && i.op != IndexArray {
        ReadsAlike(m, s, t, but, i.dest);
      } else {
        WritesAlike(m, Control(m, s, i, v1, v2), Control(m, t, i, v1, v2), but, i.dest.value, Result(m, s, i, v1, v2));
      }
    }
  }

  lemma AlikePc(m: Machine, s: State, t: State, but: iset<Symbol>)
    requires AlikeBut(m, s, t, but)
    ensures t.pc == s.pc && t.status == s.status && t.trace == s.trace
  {
  }

  lemma MovedAlike(m: Machine, s: State, t: State, pc: nat, but: iset<Symbol>)
    requires AlikeBut(m, s, t, but)
    ensures AlikeBut(m, s.(pc := pc), t.(pc := pc), but)
  {
  }

  /** An instruction that computes a value goes on to the next one. */
  lemma ValueStep(m: Machine, code: Code, s: State)
    requires s.status == Running && s.pc < |code| && WellFormed(code[s.pc]) && code[s.pc].dest.Some?
    ensures var s' := Step(m, code, s); s'.pc == s.pc + 1 && s'.status == Running && s'.trace == s.trace
  {
  }

  /** A smaller difference after an instruction that overwrites some of the variables. */
  lemma ExecutesCloser(m: Machine, s: State, t: State, but: iset<Symbol>, but': iset<Symbol>, i: Instruction)
    requires m.Valid() && WellFormed(i) && AlikeBut(m, s, t, but) && forall x :: Reads(i, x) ==> x !in but
    requires forall x :: x in but ==> x in but' || (RedefinesVariable(i) && i.dest == Some(x))
    requires forall x :: x in but' ==> x.scope == Local && x.typ != AddrType
    ensures AlikeBut(m, Execute(m, s, i), Execute(m, t, i), but')
  {
    ExecutesAlike(m, s, t, but, i);
    var s', t' := Execute(m, s, i), Execute(m, t, i);
    forall x: Symbol | x !in but' ensures Lookup(m, s'.locals, x) == Lookup(m, t'.locals, x) {
      if x in but {
        DestinationWritten(m, s, t, but, i);
      }
    }
  }

  /** The destination has the same value on both sides, whatever it had before. */
  lemma DestinationWritten(m: Machine, s: State, t: State, but: iset<Symbol>, i: Instruction)
    requires m.Valid() && WellFormed(i) && AlikeBut(m, s, t, but) && forall x :: Reads(i, x) ==> x !in but
    requires RedefinesVariable(i) && i.dest.value.scope == Local
    ensures var d := i.dest.value; Lookup(m, Execute(m, s, i).locals, d) == Lookup(m, Execute(m, t, i).locals, d)
  {
    ReadsAlike(m, s, t, but, i.src1);
    ReadsAlike(m, s, t, but, i.src2);
    var d, v := i.dest.value, Result(m, s, i, ReadOperand(m, s, i.src1), ReadOperand(m, s, i.src2));
    assert Execute(m, s, i) == Write(m, s.(pc := s.pc + 1), d, v);
    assert Execute(m, t, i) == Write(m, t.(pc := t.pc + 1), d, v);
    LookupAfterUpdate(m, s.locals, d, v, d);
    LookupAfterUpdate(m, t.locals, d, v, d);
  }

  lemma SmallerDifference(m: Machine, s: State, t: State, but: iset<Symbol>, but': iset<Symbol>)
    requires AlikeBut(m, s, t, but) && but <= but' && forall x :: x in but' ==> x.scope == Local && x.typ != AddrType
    ensures AlikeBut(m, s, t, but')
  {
  }
}
