/**
 * Running code whose variables have been given registers, and why that computes the
 * same as before (the allocation made by optimize_register_allocation, code_optimization.c).
 */
module RegisterMachine {
  import opened Instructions
  import opened Semantics
  import opened ControlFlow
  import opened Liveness
  import opened ReadPaths

  /** Registers from this one on belong to the caller: a function that uses them restores them when it leaves. */
  const FIRST_SAVED: nat := 8

  /** Local variables other than arrays, addresses and formals compete for registers. */
  predicate IsCandidate(x: Symbol) {
    x.scope == Local && !x.isConstant && x.typ != ArrayType && x.typ != AddrType && !x.isFormal
  }

  /**
   * The local entries of the symbol table, the register of each id (-1 for none), and
   * for each position the ids recorded as live at a call there.
   */
  datatype Allocation = Allocation(table: seq<Symbol>, reg: seq<int>, liveAtCall: seq<set<nat>>) {
    function RegisterOf(x: Symbol): int {
      if x in table && IsCandidate(x) && x.id < |reg| then reg[x.id] else -1
    }

    /** The registers of the caller that the function uses. */
    ghost function SavedRegisters(): set<int> {
      set x | x in table && RegisterOf(x) >= FIRST_SAVED :: RegisterOf(x)
    }

    /** The registers of the variables that are live after the call at `p`. */
    ghost function KeptAt(p: nat): set<int> {
      set x | x in table && p < |liveAtCall| && x.id in liveAtCall[p] :: RegisterOf(x)
    }
  }

  /** Every local entry that is no formal has an id of its own, and the list holds only local entries. */
  ghost predicate TableOk(table: seq<Symbol>) {
    && (forall x :: x in table ==> x.scope == Local && !x.isConstant)
    && (forall x, y :: x in table && y in table && !x.isFormal && !y.isFormal && x.id == y.id ==> x == y)
  }

  type Registers = map<int, int>

  datatype RegState = RegState(state: State, registers: Registers)

  /**
   * What there is outside of the function: what calls leave in the registers, what the caller had in them, and
   * what stands where local variables are looked for after the frame pointer has been moved.
   */
  datatype Junk = Junk(calls: seq<Event> -> Registers, callers: Registers, frame: Store)

  function InRegister(registers: Registers, r: int): int {
    if r in registers then registers[r] else 0
  }

  function ReadFrom(m: Machine, a: Allocation, t: RegState, x: Symbol): int {
    if a.RegisterOf(x) >= 0 then InRegister(t.registers, a.RegisterOf(x)) else Read(m, t.state, x)
  }

  function ReadOperandFrom(m: Machine, a: Allocation, t: RegState, x: Option<Symbol>): int {
    if x.Some? then ReadFrom(m, a, t, x.value) else 0
  }

  /** A value is fitted to the type of the variable also when that is in a register. */
  function WriteTo(m: Machine, a: Allocation, t: RegState, x: Symbol, v: int): RegState {
    if a.RegisterOf(x) >= 0
    then t.(registers := t.registers[a.RegisterOf(x) := m.fit(x.typ, v)])
    else t.(state := Write(m, t.state, x, v))
  }

  /** What a call leaves in the registers: some content, except where registers are saved around it. */
  ghost function AfterCall(registers: Registers, kept: set<int>, junk: Registers): Registers {
    junk + (map r | r in kept :: InRegister(registers, r))
  }

  /** The registers of the caller have been restored. */
  ghost function AfterLeave(registers: Registers, saved: set<int>, callers: Registers): Registers {
    registers + (map r | r in saved :: InRegister(callers, r))
  }

  /** Leave restores what has been saved, and if there is anything, it moves the frame pointer over that. */
  ghost function LeaveWith(a: Allocation, junk: Junk, t: RegState): RegState {
    if a.SavedRegisters() == {} then t
    else RegState(t.state.(locals := junk.frame), AfterLeave(t.registers, a.SavedRegisters(), junk.callers))
  }

  ghost function ExecuteWith(
      m: Machine, a: Allocation, junk: Junk, t: RegState, i: Instruction): RegState
  {
    var v1 := ReadOperandFrom(m, a, t, i.src1);
    var v2 := ReadOperandFrom(m, a, t, i.src2);
    var s' := Control(m, t.state, i, v1, v2);
    var registers :=
      if i.op == Call then AfterCall(t.registers, a.KeptAt(t.state.pc), junk.calls(s'.trace)) else t.registers;
    if i.op == Leave then LeaveWith(a, junk, RegState(s', registers))
    else if i.dest.None? then RegState(s', registers)
    else if i.dest.value.typ == AddrType && i.op != IndexArray then
      RegState(s'.(memory := s'.memory[ReadFrom(m, a, t, i.dest.value) := m.fit(i.dest.value.elementType, v1)]),
        registers)
    else WriteTo(m, a, RegState(s', registers), i.dest.value, Result(m, t.state, i, v1, v2))
  }

  ghost function StepWith(m: Machine, a: Allocation, junk: Junk, code: Code, t: RegState): RegState {
    var s := t.state;
    if s.status != Running || s.pc >= |code| then t
    else if code[s.pc].dead then t.(state := s.(pc := s.pc + 1))
    else ExecuteWith(m, a, junk, t, code[s.pc])
  }

  ghost function RunWith(
      m: Machine, a: Allocation, junk: Junk, code: Code, t: RegState, n: nat): RegState
  {
    if n == 0 then t else StepWith(m, a, junk, code, RunWith(m, a, junk, code, t, n - 1))
  }

  // ---------------------------------------------------------------- what an allocation has to respect

  /** A definition does not overwrite the register of another variable that is live after it. */
  ghost predicate RespectsDefinition(code: Code, entry: nat, g: Cfg, outs: seq<set<nat>>, a: Allocation, p: nat)
    requires Placed(code, entry, g) && |outs| == |g.first| && entry <= p < |code|
  {
    !code[p].dead && code[p].dest.Some? && a.RegisterOf(code[p].dest.value) >= 0 ==>
      forall x :: x in a.table && x != code[p].dest.value && x.id in LiveAfter(code, entry, g, outs, p) ==>
        a.RegisterOf(x) != a.RegisterOf(code[p].dest.value)
  }

  /** A call records the variables with registers that are live after it. */
  ghost predicate RespectsCall(code: Code, entry: nat, g: Cfg, outs: seq<set<nat>>, a: Allocation, p: nat)
    requires Placed(code, entry, g) && |outs| == |g.first| && entry <= p < |code|
  {
    !code[p].dead && code[p].op == Call ==>
      forall x :: x in a.table && a.RegisterOf(x) >= 0 && x.id in LiveAfter(code, entry, g, outs, p) ==>
        p < |a.liveAtCall| && x.id in a.liveAtCall[p]
  }

  /** A variable that the code assigns does not share its id with another one that has a register. */
  ghost predicate OwnIds(code: Code, a: Allocation) {
    forall p, x ::
      (0 <= p < |code| && RedefinesVariable(code[p]) && IsLocal(code[p].dest) && x in a.table
        && a.RegisterOf(x) >= 0) ==>
        code[p].dest.value.typ == AddrType || IdsApart(x, code[p].dest.value)
  }

  /** Behind a Leave that restores registers, only variables are read that are in other registers. */
  ghost predicate LeavesSafely(code: Code, a: Allocation) {
    a.SavedRegisters() == {} ||
    forall p, x ::
      (0 <= p < |code| && code[p].op == Leave && !code[p].dead && IsLocal(Some(x)) && ReadLater(code, p + 1, x)) ==>
        0 <= a.RegisterOf(x) < FIRST_SAVED
  }

  ghost predicate SafeAllocation(code: Code, entry: nat, g: Cfg, outs: seq<set<nat>>, a: Allocation)
    requires Placed(code, entry, g) && |outs| == |g.first|
  {
    && TableOk(a.table)
    && (forall p :: entry <= p < |code| ==> RespectsDefinition(code, entry, g, outs, a, p))
    && (forall p :: entry <= p < |code| ==> RespectsCall(code, entry, g, outs, a, p))
    && OwnIds(code, a)
  }

  // ---------------------------------------------------------------- simulation

  /** A variable that is live holds what the original holds, in its register or in memory. */
  ghost predicate AgreesOn(m: Machine, a: Allocation, live: iset<Symbol>, s: State, t: RegState, x: Symbol) {
    x in live ==>
      Lookup(m, s.locals, x) ==
        if a.RegisterOf(x) >= 0 then InRegister(t.registers, a.RegisterOf(x)) else Lookup(m, t.state.locals, x)
  }

  ghost predicate Matches(m: Machine, a: Allocation, live: iset<Symbol>, s: State, t: RegState) {
    && SameEffects(s, t.state)
    && forall x: Symbol :: IsLocal(Some(x)) ==> AgreesOn(m, a, live, s, t, x)
  }

  /** What is live before the instruction covers what it reads and what is live after it. */
  ghost predicate Flows(i: Instruction, live: iset<Symbol>, after: iset<Symbol>) {
    forall x: Symbol :: IsLocal(Some(x)) ==>
      (ReadsVariable(i, x) || (x in after && !ChangesVariable(i, x)) ==> x in live)
  }

  /** The registers of other live variables are not those of the destination, and calls keep those of live variables. */
  ghost predicate Respects(a: Allocation, p: nat, i: Instruction, after: iset<Symbol>) {
    && (i.dest.Some? && a.RegisterOf(i.dest.value) >= 0 ==>
          forall x :: x in a.table && x != i.dest.value && x in after ==> a.RegisterOf(x) != a.RegisterOf(i.dest.value))
    && (i.op == Call ==>
          forall x :: x in a.table && a.RegisterOf(x) >= 0 && x in after ==> a.RegisterOf(x) in a.KeptAt(p))
    && (i.op == Leave && a.SavedRegisters() != {} ==>
          forall x :: IsLocal(Some(x)) && x in after ==> 0 <= a.RegisterOf(x) < FIRST_SAVED)
  }

  lemma OperandMatches(m: Machine, a: Allocation, live: iset<Symbol>, s: State, t: RegState, x: Option<Symbol>)
    requires TableOk(a.table) && Matches(m, a, live, s, t)
    requires IsLocal(x) ==> x.value in live
    ensures ReadOperandFrom(m, a, t, x) == ReadOperand(m, s, x)
  {
    if x.Some? && IsLocal(x) {
      assert AgreesOn(m, a, live, s, t, x.value);
    }
  }

  /** Writing the same value keeps the match for what is live after the definition. */
  lemma WriteMatches(
      m: Machine, a: Allocation, d: Symbol, live: iset<Symbol>, after: iset<Symbol>, s: State, t: RegState, v: int,
      x: Symbol)
    requires m.Valid() && !d.isConstant && TableOk(a.table) && IsLocal(Some(x)) && AgreesOn(m, a, live, s, t, x)
    requires x in after && x != d ==> x in live
    requires a.RegisterOf(d) >= 0 && a.RegisterOf(x) >= 0 && x != d && x in after ==> a.RegisterOf(x) != a.RegisterOf(d)
    ensures AgreesOn(m, a, after, Write(m, s, d, v), WriteTo(m, a, t, d, v), x)
  {
  }

  /** The operands are the same on both sides. */
  ghost predicate SameOperands(m: Machine, a: Allocation, s: State, t: RegState, i: Instruction) {
    && ReadOperandFrom(m, a, t, i.src1) == ReadOperand(m, s, i.src1)
    && ReadOperandFrom(m, a, t, i.src2) == ReadOperand(m, s, i.src2)
  }

  /** Executing an instruction that changes a variable. */
  lemma RedefiningMatches(
      m: Machine, a: Allocation, junk: Junk, live: iset<Symbol>, after: iset<Symbol>,
      i: Instruction, s: State, t: RegState)
    requires m.Valid() && WellFormed(i) && TableOk(a.table) && !IsSkipped(i) && RedefinesVariable(i)
    requires Flows(i, live, after) && Respects(a, s.pc, i, after) && SameOperands(m, a, s, t, i)
    requires Matches(m, a, live, s, t)
    ensures Matches(m, a, after, Execute(m, s, i), ExecuteWith(m, a, junk, t, i))
  {
    var d := i.dest.value;
    var v1, v2 := ReadOperand(m, s, i.src1), ReadOperand(m, s, i.src2);
    var s', t' := s.(pc := s.pc + 1), t.(state := t.state.(pc := t.state.pc + 1));
    var v := Result(m, s, i, v1, v2);
    assert Execute(m, s, i) == Write(m, s', d, v);
    assert ExecuteWith(m, a, junk, t, i) == WriteTo(m, a, t', d, v);
    assert !d.isConstant;
    hide Execute, ExecuteWith, WellFormed, Result;
    forall x: Symbol | IsLocal(Some(x)) ensures AgreesOn(m, a, after, Write(m, s', d, v), WriteTo(m, a, t', d, v), x) {
      assert AgreesOn(m, a, live, s, t, x);
      assert a.RegisterOf(x) >= 0 ==> x in a.table;
      WriteMatches(m, a, d, live, after, s', t', v, x);
    }
    assert SameEffects(Write(m, s', d, v), WriteTo(m, a, t', d, v).state);
  }

  /** Executing an instruction that changes no variable. */
  lemma OtherMatches(
      m: Machine, a: Allocation, junk: Junk, live: iset<Symbol>, after: iset<Symbol>,
      i: Instruction, s: State, t: RegState)
    requires m.Valid() && WellFormed(i) && TableOk(a.table) && !RedefinesVariable(i)
    requires Flows(i, live, after) && Respects(a, s.pc, i, after) && SameOperands(m, a, s, t, i)
    requires ReadOperandFrom(m, a, t, i.dest) == ReadOperand(m, s, i.dest)
    requires Matches(m, a, live, s, t)
    ensures Matches(m, a, after, Execute(m, s, i), ExecuteWith(m, a, junk, t, i))
  {
    var s', t' := Execute(m, s, i), ExecuteWith(m, a, junk, t, i);
    OtherEffects(m, a, junk, i, s, t);
    hide Execute, ExecuteWith, WellFormed, Allocation.KeptAt, SameOperands, ReadOperand, ReadOperandFrom;
    forall x: Symbol | IsLocal(Some(x)) ensures AgreesOn(m, a, after, s', t', x) {
      assert AgreesOn(m, a, live, s, t, x);
      assert a.RegisterOf(x) >= 0 ==> x in a.table;
    }
  }

  lemma OtherEffects(m: Machine, a: Allocation, junk: Junk, i: Instruction, s: State, t: RegState)
    requires m.Valid() && WellFormed(i) && !RedefinesVariable(i) && SameOperands(m, a, s, t, i)
    requires ReadOperandFrom(m, a, t, i.dest) == ReadOperand(m, s, i.dest) && SameEffects(s, t.state)
    ensures var s', t' := Execute(m, s, i), ExecuteWith(m, a, junk, t, i);
      && SameEffects(s', t'.state) && s'.locals == s.locals
      && (i.op != Leave || a.SavedRegisters() == {} ==> t'.state.locals == t.state.locals)
      && t'.registers ==
           if i.op == Call then AfterCall(t.registers, a.KeptAt(s.pc), junk.calls(s'.trace))
           else if i.op == Leave && a.SavedRegisters() != {}
           then AfterLeave(t.registers, a.SavedRegisters(), junk.callers) else t.registers
  {
    hide Allocation.SavedRegisters, Allocation.KeptAt;
  }

  /** Executing an instruction on both sides. */
  lemma ExecuteMatches(
      m: Machine, a: Allocation, junk: Junk, live: iset<Symbol>, after: iset<Symbol>,
      i: Instruction, s: State, t: RegState)
    requires m.Valid() && WellFormed(i) && TableOk(a.table) && !IsSkipped(i)
    requires Flows(i, live, after) && Respects(a, s.pc, i, after) && Matches(m, a, live, s, t)
    ensures Matches(m, a, after, Execute(m, s, i), ExecuteWith(m, a, junk, t, i))
  {
    hide Execute, ExecuteWith, Matches, ReadOperand, ReadOperandFrom, Respects;
    assert forall x: Symbol :: IsLocal(Some(x)) && (i.src1 == Some(x) || i.src2 == Some(x)) ==> x in live;
    OperandMatches(m, a, live, s, t, i.src1);
    OperandMatches(m, a, live, s, t, i.src2);
    if RedefinesVariable(i) {
      RedefiningMatches(m, a, junk, live, after, i, s, t);
    } else {
      OperandMatches(m, a, live, s, t, i.dest);
      OtherMatches(m, a, junk, live, after, i, s, t);
    }
  }

  /** An assignment of a variable to itself that has been left in the code. */
  lemma NullAssignmentMatches(
      m: Machine, a: Allocation, junk: Junk, live: iset<Symbol>, i: Instruction, s: State,
      t: RegState)
    requires m.Valid() && WellFormed(i) && TableOk(a.table)
    requires IsNullAssignment(i) && Respects(a, s.pc, i, live) && Matches(m, a, live, s, t)
    ensures Matches(m, a, live, Execute(m, s, i), ExecuteWith(m, a, junk, t, i))
  {
    var d := i.dest.value;
    NullWrite(m, s.(pc := s.pc + 1), d, Read(m, s, d));
    assert Execute(m, s, i) == s.(pc := s.pc + 1);
    var t' := ExecuteWith(m, a, junk, t, i);
    if a.RegisterOf(d) < 0 {
      NullWrite(m, t.state.(pc := t.state.pc + 1), d, Read(m, t.state, d));
      assert t' == t.(state := t.state.(pc := t.state.pc + 1));
    }
    forall x: Symbol | IsLocal(Some(x)) ensures AgreesOn(m, a, live, s.(pc := s.pc + 1), t', x) {
      assert AgreesOn(m, a, live, s, t, x);
      assert a.RegisterOf(x) >= 0 ==> x in a.table;
    }
  }

  lemma SkipMatches(m: Machine, a: Allocation, live: iset<Symbol>, s: State, t: RegState)
    requires Matches(m, a, live, s, t)
    ensures Matches(m, a, live, s.(pc := s.pc + 1), t.(state := t.state.(pc := t.state.pc + 1)))
  {
    forall x: Symbol | IsLocal(Some(x))
      ensures AgreesOn(m, a, live, s.(pc := s.pc + 1), t.(state := t.state.(pc := t.state.pc + 1)), x)
    {
      assert AgreesOn(m, a, live, s, t, x);
    }
  }

  lemma FewerMatch(m: Machine, a: Allocation, live: iset<Symbol>, fewer: iset<Symbol>, s: State, t: RegState)
    requires Matches(m, a, live, s, t) && forall x: Symbol :: IsLocal(Some(x)) && x in fewer ==> x in live
    ensures Matches(m, a, fewer, s, t)
  {
    forall x: Symbol | IsLocal(Some(x)) ensures AgreesOn(m, a, fewer, s, t, x) {
      assert AgreesOn(m, a, live, s, t, x);
    }
  }

  /** The instruction at the pc on both sides. */
  lemma InstructionMatches(
      m: Machine, a: Allocation, junk: Junk, code: Code, live: iset<Symbol>, after: iset<Symbol>,
      s: State, t: RegState)
    requires m.Valid() && s.status == Running && s.pc < |code| && WellFormed(code[s.pc]) && TableOk(a.table)
    requires Flows(code[s.pc], live, after) && (!code[s.pc].dead ==> Respects(a, s.pc, code[s.pc], after))
    requires Matches(m, a, live, s, t)
    ensures Matches(m, a, after, Step(m, code, s), StepWith(m, a, junk, code, t))
  {
    var i := code[s.pc];
    EffectsMatch(m, a, live, s, t);
    hide Execute, ExecuteWith, WellFormed, Matches, Respects;
    if IsSkipped(i) {
      FewerMatch(m, a, live, after, s, t);
      if i.dead {
        SkipMatches(m, a, after, s, t);
      } else {
        NullAssignmentMatches(m, a, junk, after, i, s, t);
      }
    } else {
      ExecuteMatches(m, a, junk, live, after, i, s, t);
    }
  }

  lemma EffectsMatch(m: Machine, a: Allocation, live: iset<Symbol>, s: State, t: RegState)
    requires Matches(m, a, live, s, t)
    ensures SameEffects(s, t.state)
  {
  }

  // ---------------------------------------------------------------- the variables that are live in a run

  /** Really read later, and live by the analysis if in a register. */
  ghost function Needed(
      code: Code, entry: nat, g: Cfg, outs: seq<set<nat>>, a: Allocation, s: State): iset<Symbol>
    requires Placed(code, entry, g) && |outs| == |g.first|
  {
    iset x: Symbol | s.status == Running && ReadLater(code, s.pc, x)
      && (a.RegisterOf(x) >= 0 ==> x.id in LiveIn(code, entry, g, outs, s.pc))
  }

  /** What is needed after a step is covered by what is needed before it, and respected by the allocation. */
  lemma NeededFlows(
      m: Machine, code: Code, entry: nat, g: Cfg, ins: seq<set<nat>>, outs: seq<set<nat>>, a: Allocation, s: State)
    requires WellFormedCode(code, entry) && Placed(code, entry, g) && Covers(code, entry, g)
    requires LivenessSolution(code, g, ins, outs) && |outs| == |g.first| && SafeAllocation(code, entry, g, outs, a)
    requires LeavesSafely(code, a) && s.status == Running && s.pc < |code|
    ensures var i, after := code[s.pc], Needed(code, entry, g, outs, a, Step(m, code, s));
      && Flows(i, Needed(code, entry, g, outs, a, s), after) && (!i.dead ==> Respects(a, s.pc, i, after))
  {
    var p, i, s' := s.pc, code[s.pc], Step(m, code, s);
    var live := if p < entry then LiveIn(code, entry, g, outs, p) else LiveAfter(code, entry, g, outs, p);
    StepIsCovered(m, code, entry, g, ins, outs, s, live);
    assert WellFormed(i);
    if s'.status == Running {
      StepLeads(m, code, s);
    }
    forall x: Symbol | IsLocal(Some(x))
      && (ReadsVariable(i, x) || (x in Needed(code, entry, g, outs, a, s') && !ChangesVariable(i, x)))
      ensures x in Needed(code, entry, g, outs, a, s)
    {
      NeededBefore(m, code, entry, g, outs, a, s, live, x);
    }
    if !i.dead {
      NeededRespected(m, code, entry, g, outs, a, s, live);
    }
  }

  /** The allocation respects what is needed after the instruction. */
  lemma NeededRespected(
      m: Machine, code: Code, entry: nat, g: Cfg, outs: seq<set<nat>>, a: Allocation, s: State, live: set<nat>)
    requires WellFormedCode(code, entry) && Placed(code, entry, g) && |outs| == |g.first|
    requires SafeAllocation(code, entry, g, outs, a) && LeavesSafely(code, a)
    requires s.status == Running && s.pc < |code| && !code[s.pc].dead
    requires live == if s.pc < entry then LiveIn(code, entry, g, outs, s.pc) else LiveAfter(code, entry, g, outs, s.pc)
    requires var s' := Step(m, code, s); s'.status == Running ==> LiveIn(code, entry, g, outs, s'.pc) <= live
    ensures Respects(a, s.pc, code[s.pc], Needed(code, entry, g, outs, a, Step(m, code, s)))
  {
    var p, i, s' := s.pc, code[s.pc], Step(m, code, s);
    hide LiveAt, Step, Covers, ReadLater;
    assert WellFormed(i);
    if entry <= p {
      assert RespectsDefinition(code, entry, g, outs, a, p) && RespectsCall(code, entry, g, outs, a, p);
      if i.op == Call {
        KeptRegisters(code, entry, g, outs, a, p);
      }
    }
    if i.op == Leave {
      LeavesToNext(m, code, s);
    }
  }

  lemma LeavesToNext(m: Machine, code: Code, s: State)
    requires s.status == Running && s.pc < |code| && code[s.pc].op == Leave && !code[s.pc].dead
    requires WellFormed(code[s.pc])
    ensures Step(m, code, s).pc == s.pc + 1
  {
  }

  lemma NeededBefore(
      m: Machine, code: Code, entry: nat, g: Cfg, outs: seq<set<nat>>, a: Allocation, s: State, live: set<nat>,
      x: Symbol)
    requires WellFormedCode(code, entry) && Placed(code, entry, g)
    requires |outs| == |g.first| && TableOk(a.table) && OwnIds(code, a) && s.status == Running && s.pc < |code|
    requires live == if s.pc < entry then LiveIn(code, entry, g, outs, s.pc) else LiveAfter(code, entry, g, outs, s.pc)
    requires var s' := Step(m, code, s);
      && (s'.status == Running ==> LiveIn(code, entry, g, outs, s'.pc) <= live)
      && (s'.status == Running ==> Leads(code, s.pc, s'.pc))
      && (ReadsVariable(code[s.pc], x) || (x in Needed(code, entry, g, outs, a, s') && !ChangesVariable(code[s.pc], x)))
    ensures x in Needed(code, entry, g, outs, a, s)
  {
    var p, i, s' := s.pc, code[s.pc], Step(m, code, s);
    assert WellFormed(i);
    if ReadsVariable(i, x) {
      ReadHere(code, p, x);
    } else {
      ReadThere(code, p, s'.pc, x);
    }
    if entry <= p {
      assert LiveIn(code, entry, g, outs, p) == LiveBefore(i, live);
    }
  }

  lemma KeptRegisters(code: Code, entry: nat, g: Cfg, outs: seq<set<nat>>, a: Allocation, p: nat)
    requires Placed(code, entry, g) && |outs| == |g.first| && entry <= p < |code|
    requires RespectsCall(code, entry, g, outs, a, p) && !code[p].dead && code[p].op == Call
    ensures forall x :: x in a.table && a.RegisterOf(x) >= 0 && x.id in LiveAfter(code, entry, g, outs, p) ==>
              a.RegisterOf(x) in a.KeptAt(p)
  {
  }

  /** One step of the code and of its allocated form, side by side. */
  lemma AllocatedStep(
      m: Machine, code: Code, entry: nat, g: Cfg, ins: seq<set<nat>>, outs: seq<set<nat>>,
      a: Allocation, junk: Junk, s: State, t: RegState)
    requires m.Valid() && WellFormedCode(code, entry) && Placed(code, entry, g) && Covers(code, entry, g)
    requires LivenessSolution(code, g, ins, outs)
    requires |outs| == |g.first| && SafeAllocation(code, entry, g, outs, a) && LeavesSafely(code, a)
    requires Matches(m, a, Needed(code, entry, g, outs, a, s), s, t)
    ensures var s', t' := Step(m, code, s), StepWith(m, a, junk, code, t);
            Matches(m, a, Needed(code, entry, g, outs, a, s'), s', t')
  {
    EffectsMatch(m, a, Needed(code, entry, g, outs, a, s), s, t);
    if s.status == Running && s.pc < |code| {
      assert WellFormed(code[s.pc]);
      hide Matches, WellFormedCode, Placed, Covers, LivenessSolution, Needed, RespectsDefinition, RespectsCall,
        WellFormed, LeavesSafely;
      hide Step, StepWith;
      NeededFlows(m, code, entry, g, ins, outs, a, s);
      InstructionMatches(m, a, junk, code, Needed(code, entry, g, outs, a, s),
        Needed(code, entry, g, outs, a, Step(m, code, s)), s, t);
    } else {
      hide Matches, WellFormedCode, Placed, Covers, LivenessSolution, Needed, SafeAllocation, LeavesSafely;
    }
  }

  /** No variable that has a register is read before it is assigned. */
  ghost predicate AssignedFirst(code: Code, entry: nat, a: Allocation) {
    forall x: Symbol :: a.RegisterOf(x) >= 0 ==> !ReadLater(code, entry, x)
  }

  lemma {:induction false} NothingNeededAtStart(code: Code, entry: nat, a: Allocation, p: nat, x: Symbol)
    requires WellFormedCode(code, entry) && TableOk(a.table) && AssignedFirst(code, entry, a) && p <= entry
    requires a.RegisterOf(x) >= 0
    ensures !ReadLater(code, p, x)
    decreases entry - p
  {
    if p < entry && ReadLater(code, p, x) {
      var path :| LeadsToRead(code, p, x, path);
      assert code[p].op == GlobalDeclaration && WellFormed(code[p]);
      if |path| > 1 {
        assert LeadsToRead(code, p + 1, x, path[1..]);
        NothingNeededAtStart(code, entry, a, p + 1, x);
      }
    }
  }

  lemma StartMatches(
      m: Machine, code: Code, entry: nat, g: Cfg, outs: seq<set<nat>>, a: Allocation, s: State, registers: Registers)
    requires WellFormedCode(code, entry) && Placed(code, entry, g) && |outs| == |g.first|
    requires TableOk(a.table) && AssignedFirst(code, entry, a) && s.pc <= entry
    ensures Matches(m, a, Needed(code, entry, g, outs, a, s), s, RegState(s, registers))
  {
    forall x: Symbol | a.RegisterOf(x) >= 0 ensures x !in Needed(code, entry, g, outs, a, s) {
      NothingNeededAtStart(code, entry, a, s.pc, x);
    }
  }

  /**
   * Register allocation preserves meaning: from the start of the function, whatever the
   * registers hold then and whatever calls leave in the registers that are not saved, the
   * code has the same effects after every number of steps.
   */
  lemma {:induction false} AllocationPreservesMeaning(
      m: Machine, code: Code, entry: nat, g: Cfg, ins: seq<set<nat>>, outs: seq<set<nat>>,
      a: Allocation, junk: Junk, s: State, registers: Registers, n: nat)
    requires m.Valid() && WellFormedCode(code, entry) && Placed(code, entry, g) && Covers(code, entry, g)
    requires LivenessSolution(code, g, ins, outs)
    requires |outs| == |g.first| && SafeAllocation(code, entry, g, outs, a)
    requires s.pc <= entry && AssignedFirst(code, entry, a) && LeavesSafely(code, a)
    ensures var s', t' := Run(m, code, s, n), RunWith(m, a, junk, code, RegState(s, registers), n);
            SameEffects(s', t'.state) && Matches(m, a, Needed(code, entry, g, outs, a, s'), s', t')
  {
    var t := RegState(s, registers);
    if n == 0 {
      StartMatches(m, code, entry, g, outs, a, s, registers);
    } else {
      hide Matches, WellFormedCode, Placed, Covers, LivenessSolution, SafeAllocation;
      hide Step, StepWith, Needed, AssignedFirst, LeavesSafely;
      AllocationPreservesMeaning(m, code, entry, g, ins, outs, a, junk, s, registers, n - 1);
      var s', t' := Run(m, code, s, n - 1), RunWith(m, a, junk, code, t, n - 1);
      AllocatedStep(m, code, entry, g, ins, outs, a, junk, s', t');
      EffectsMatch(m, a, Needed(code, entry, g, outs, a, Step(m, code, s')), Step(m, code, s'),
        StepWith(m, a, junk, code, t'));
    }
  }
}
