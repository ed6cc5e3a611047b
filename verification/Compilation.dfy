/** Functions from the syntax tree to optimized code: the code generator's output meets what the optimizer needs. */
module Compilation {
  import opened Instructions
  import opened Semantics
  import opened Behaviour
  import opened ReadPaths
  import opened ControlFlow
  import opened Peephole
  import opened Coloring
  import opened RegisterMachine
  import opened Interference
  import opened RegisterAllocation
  import opened CodeOptimization
  import opened SyntaxTrees
  import opened CodeGeneration
  import opened GeneratedRuns
  import opened GeneratedIds
  import opened Divergence
  import opened GeneratedFunctions
  import opened GeneratedAllowed
  import opened LeavingCode

  /** The generated code is what the optimizer takes. */
  lemma FunctionOptimizable(f: Function, table: seq<Symbol>, total: nat)
    requires FunctionOk(f) && TableFits(table, total) && KnownOperands(Linked(FunctionCode(f)), table)
    ensures Optimizable(Linked(FunctionCode(f)), EntryOf(f), table, total)
  {
    FunctionWellFormed(f);
    FunctionIsAlive(f);
    hide FunctionCode, WellFormedCode, NothingDead;
  }

  /**
   * The run returns, with its effects, if the body of the function ends, and else does not end and makes the calls
   * of the body.
   */
  ghost predicate ComputesFrom(m: Machine, f: Function, code: Code, s: State) {
    && (forall fuel: nat :: Exec(m, s, f.body, fuel).Some? ==>
          Shows(m, code, s, Returning(m, Exec(m, s, f.body, fuel).value)))
    && (Diverges(m, s, f.body) ==> NeverEnds(m, code, s) && MakesCalls(m, code, s, f.body))
  }

  ghost predicate Computes(f: Function, code: Code) {
    forall m: Machine, s: State ::
      m.Valid() && m.IntIsWidest() && s.pc <= EntryOf(f) && s.status == Running ==> ComputesFrom(m, f, code, s)
  }

  /** So does the run with registers. */
  ghost predicate AllocatedFrom(
      m: Machine, f: Function, code: Code, s: State, a: Allocation, junk: Junk, t: RegState)
  {
    && (forall fuel: nat :: Exec(m, s, f.body, fuel).Some? ==>
          AllocatedShows(m, a, junk, code, t, Returning(m, Exec(m, s, f.body, fuel).value)))
    && (Diverges(m, s, f.body) ==>
          && (forall fuel: nat :: AllocatedShows(m, a, junk, code, t, Observation(TraceOf(m, s, f.body, fuel), None)))
          && (forall o: Observation :: AllocatedShows(m, a, junk, code, t, o) ==>
                o.ended.None? && exists fuel: nat :: o.trace <= TraceOf(m, s, f.body, fuel)))
  }

  /** That is so whatever registers hold at the start and after calls. */
  ghost predicate ComputesInRegisters(f: Function, code: Code, a: Allocation) {
    forall m: Machine, junk: Junk, s: State, registers: Registers ::
      m.Valid() && m.IntIsWidest() && s.pc <= EntryOf(f) && s.status == Running ==>
        AllocatedFrom(m, f, code, s, a, junk, RegState(s, registers))
  }

  lemma GeneratedComputes(m: Machine, f: Function, s: State)
    requires FunctionOk(f) && m.Valid() && s.pc <= EntryOf(f) && s.status == Running
    ensures ComputesFrom(m, f, Linked(FunctionCode(f)), s)
  {
    hide *;
    forall fuel: nat | Exec(m, s, f.body, fuel).Some?
      ensures Shows(m, Linked(FunctionCode(f)), s, Returning(m, Exec(m, s, f.body, fuel).value))
    {
      FunctionRuns(m, f, s, fuel);
    }
    if Diverges(m, s, f.body) {
      FunctionDiverges(m, f, s);
    }
    BothCompute(m, f, Linked(FunctionCode(f)), s);
  }

  lemma BothCompute(m: Machine, f: Function, code: Code, s: State)
    requires forall fuel: nat :: Exec(m, s, f.body, fuel).Some? ==>
               Shows(m, code, s, Returning(m, Exec(m, s, f.body, fuel).value))
    requires Diverges(m, s, f.body) ==> NeverEnds(m, code, s) && MakesCalls(m, code, s, f.body)
    ensures ComputesFrom(m, f, code, s)
  {
    hide Exec, Shows, Diverges, NeverEnds, MakesCalls;
  }

  lemma OptimizedComputes(f: Function, code: Code)
    requires FunctionOk(f) && KeepsBehaviour(Linked(FunctionCode(f)), code, EntryOf(f))
    ensures Computes(f, code)
  {
    var c := Linked(FunctionCode(f));
    hide FunctionOk, FunctionCode, Linked, ComputesFrom, SameBehaviour;
    forall m: Machine, s: State | m.Valid() && m.IntIsWidest() && s.pc <= EntryOf(f) && s.status == Running
      ensures ComputesFrom(m, f, code, s)
    {
      assert SameBehaviour(m, c, code, EntryOf(f));
      GeneratedComputes(m, f, s);
      SameComputes(m, f, c, code, s);
    }
  }

  lemma SameComputes(m: Machine, f: Function, c: Code, code: Code, s: State)
    requires ComputesFrom(m, f, c, s) && SameBehaviour(m, c, code, EntryOf(f)) && s.pc <= EntryOf(f)
    ensures ComputesFrom(m, f, code, s)
  {
    hide Exec, Diverges, Shows, TraceOf;
    assert forall o: Observation :: Shows(m, c, s, o) <==> Shows(m, code, s, o);
  }

  lemma AllocatedComputes(f: Function, code: Code, a: Allocation)
    requires FunctionOk(f) && AllocatedBehaves(Linked(FunctionCode(f)), code, EntryOf(f), a)
    ensures ComputesInRegisters(f, code, a)
  {
    var c := Linked(FunctionCode(f));
    hide FunctionOk, FunctionCode, Linked, AllocatedFrom, ComputesFrom, Shows, AllocatedShows;
    forall m: Machine, junk: Junk, s: State, registers: Registers
      | m.Valid() && m.IntIsWidest() && s.pc <= EntryOf(f) && s.status == Running
      ensures AllocatedFrom(m, f, code, s, a, junk, RegState(s, registers))
    {
      GeneratedComputes(m, f, s);
      assert forall o: Observation :: Shows(m, c, s, o) <==>
        AllocatedShows(m, a, junk, code, RegState(s, registers), o);
      SameAllocated(m, f, c, code, s, a, junk, RegState(s, registers));
    }
  }

  lemma SameAllocated(
      m: Machine, f: Function, c: Code, code: Code, s: State, a: Allocation, junk: Junk, t: RegState)
    requires ComputesFrom(m, f, c, s)
    requires forall o: Observation :: Shows(m, c, s, o) <==> AllocatedShows(m, a, junk, code, t, o)
    ensures AllocatedFrom(m, f, code, s, a, junk, t)
  {
    hide Exec, Diverges, Shows, AllocatedShows, TraceOf;
  }

  /** No variable of the program or temporary that could get a register is read before it is assigned. */
  lemma TableEarly(f: Function, locals: seq<Symbol>, made: seq<Symbol>)
    requires FunctionOk(f) && AssignedEarly(Linked(FunctionCode(f)), EntryOf(f), locals)
    requires forall x :: x in made ==> x.isTemporary
    ensures AssignedEarly(Linked(FunctionCode(f)), EntryOf(f), locals + made)
  {
    hide FunctionOk, FunctionCode, Linked, ReadLater;
    forall x | HasNode(locals + made, x) ensures !ReadLater(Linked(FunctionCode(f)), EntryOf(f), x) {
      if x in made {
        TemporariesEarly(f, x);
      } else {
        assert HasNode(locals, x);
      }
    }
  }

  lemma MadeAreTemporaries(f: Function, locals: seq<Symbol>)
    requires FunctionOk(f) && ProgramFits(f.body, locals, f.pool.nextId)
    requires f.pool.chars == [] && f.pool.ints == [] && f.pool.addrs == [] && f.pool.made == []
    ensures forall x :: x in BodyOf(f).pool.made ==> x.isTemporary
  {
    FunctionMade(f, locals);
    var made := BodyOf(f).pool.made;
    hide BodyOf, FunctionCode, Registered, FunctionOk, ProgramFits;
    forall x | x in made ensures x.isTemporary {
      var i :| 0 <= i < |made| && made[i] == x;
      assert IsMade(made[i], f.pool.nextId + i);
    }
  }

  /**
   * Generates the code of a function and optimizes it. `locals` are its entries in the symbol table, with
   * the ids below the next one; `costs` gives the cost of the variable with an id.
   */
  method CompileFunction(
      declarations: seq<Symbol>, header: Symbol, body: Stmt, generator: CodeGenerator,
      locals: seq<Symbol>, costs: nat -> int, entered: map<Symbol, set<nat>>,
      localEnabled: bool, globalEnabled: bool, registerAllocationEnabled: bool, drop: bool)
    returns (
      code: array<Instruction>, a: Allocation, stale: bool, ghost f: Function,
      ghost g: Cfg, ghost peepholed: Code, ghost propagated: Code, ghost problem: Problem, ghost used: set<nat>)
    requires FunctionOk(Function(declarations, header, body, generator.ThePool()))
    requires ProgramFits(body, locals, generator.nextId)
    requires generator.chars == [] && generator.ints == [] && generator.addrs == [] && generator.made == []
    modifies generator
    ensures fresh(code) && f == old(Function(declarations, header, body, generator.ThePool()))
    ensures Optimized(Linked(FunctionCode(f)), peepholed, propagated, code[..], |declarations|, g, generator.nextId,
                      localEnabled, globalEnabled)
    ensures registerAllocationEnabled && !stale ==>
              RegistersAssigned(code[..], |declarations|, g, locals + generator.made, generator.nextId,
                                seq(generator.nextId, costs), header, entered, a, problem, used)
    ensures a.table == locals + generator.made
    ensures (localEnabled ==> StmtFits(body)) && (globalEnabled ==> TargetsApart(body, locals, f.pool.nextId)) ==>
              Computes(f, code[..])
    ensures registerAllocationEnabled && !stale
              && (localEnabled ==> StmtFits(body)) && TargetsApart(body, locals, f.pool.nextId)
              && AssignedEarly(Linked(FunctionCode(f)), |declarations|, locals)
              && (NoValues(body) || LeavesSafely(code[..], a)) ==>
              ComputesInRegisters(f, code[..], a)
    ensures drop ==> !stale
  {
    f := Function(declarations, header, body, generator.ThePool());
    FunctionEntered(f, locals);
    FunctionAllowed(f);
    hide *;
    var bodyCode := generator.GenerateStatement(WithReturn(body, header));
    var table, total := locals + generator.made, generator.nextId;
    MadeTable(generator, f, bodyCode, locals);
    FunctionOptimizable(f, table, total);
    var whole := Linked(Declarations(declarations) + [Named(Enter, header)] + bodyCode);
    CodeOfFunction(f, bodyCode);
    code := new Instruction[|whole|](i requires 0 <= i < |whole| => whole[i]);
    assert code[..] == whole;
    ghost var outs;
    a, stale, g, outs, peepholed, propagated, problem, used := OptimizeInstructions(
      code, |declarations|, table, total, seq(total, costs), header, entered,
      localEnabled, globalEnabled, registerAllocationEnabled, drop);
    AllComputes(f, locals, code[..], a, localEnabled, globalEnabled, registerAllocationEnabled && !stale);
  }

  /** What the optimizer promises of the code of a function, in terms of its body. */
  lemma AllComputes(
      f: Function, locals: seq<Symbol>, code: Code, a: Allocation, localEnabled: bool, globalEnabled: bool,
      inRegisters: bool)
    requires FunctionOk(f) && ProgramFits(f.body, locals, f.pool.nextId)
    requires f.pool.chars == [] && f.pool.ints == [] && f.pool.addrs == [] && f.pool.made == []
    requires Behaving(Linked(FunctionCode(f)), EntryOf(f), BodyOf(f).pool.nextId, localEnabled, globalEnabled) ==>
               KeepsBehaviour(Linked(FunctionCode(f)), code, EntryOf(f))
    requires inRegisters && OwnTableIds(Linked(FunctionCode(f)), locals + BodyOf(f).pool.made)
               && Behaving(Linked(FunctionCode(f)), EntryOf(f), BodyOf(f).pool.nextId, localEnabled, globalEnabled)
               && AssignedEarly(Linked(FunctionCode(f)), EntryOf(f), locals + BodyOf(f).pool.made)
               && LeavesSafely(code, a) ==>
               AllocatedBehaves(Linked(FunctionCode(f)), code, EntryOf(f), a)
    requires ReturnsNothing(Linked(FunctionCode(f))) ==> LeavesSafely(code, a)
    ensures (localEnabled ==> StmtFits(f.body)) && (globalEnabled ==> TargetsApart(f.body, locals, f.pool.nextId)) ==>
              Computes(f, code)
    ensures inRegisters && (localEnabled ==> StmtFits(f.body)) && TargetsApart(f.body, locals, f.pool.nextId)
              && AssignedEarly(Linked(FunctionCode(f)), EntryOf(f), locals)
              && (NoValues(f.body) || LeavesSafely(code, a)) ==>
              ComputesInRegisters(f, code, a)
  {
    hide *;
    FunctionBehaves(f, locals, localEnabled, globalEnabled);
    if (localEnabled ==> StmtFits(f.body)) && (globalEnabled ==> TargetsApart(f.body, locals, f.pool.nextId)) {
      OptimizedComputes(f, code);
    }
    if inRegisters && (localEnabled ==> StmtFits(f.body)) && TargetsApart(f.body, locals, f.pool.nextId)
      && AssignedEarly(Linked(FunctionCode(f)), EntryOf(f), locals) && (NoValues(f.body) || LeavesSafely(code, a)) {
      MadeAreTemporaries(f, locals);
      TableEarly(f, locals, BodyOf(f).pool.made);
      if NoValues(f.body) {
        FunctionReturnsNothing(f);
      }
      AllocatedComputes(f, code, a);
    }
  }

  /** The conditions on the body give the conditions on its code. */
  lemma FunctionBehaves(
      f: Function, locals: seq<Symbol>, localEnabled: bool, globalEnabled: bool)
    requires FunctionOk(f) && ProgramFits(f.body, locals, f.pool.nextId)
    requires f.pool.chars == [] && f.pool.ints == [] && f.pool.addrs == [] && f.pool.made == []
    ensures (localEnabled ==> StmtFits(f.body)) && (globalEnabled ==> TargetsApart(f.body, locals, f.pool.nextId)) ==>
              Behaving(Linked(FunctionCode(f)), EntryOf(f), BodyOf(f).pool.nextId, localEnabled, globalEnabled)
    ensures TargetsApart(f.body, locals, f.pool.nextId) ==>
              OwnTableIds(Linked(FunctionCode(f)), locals + BodyOf(f).pool.made)
  {
    FunctionAllowed(f);
    if TargetsApart(f.body, locals, f.pool.nextId) {
      FunctionNumbered(f, locals);
    }
    hide Allowed, FunctionCode, BodyOf, StmtFits, OwnTableIds;
  }

  /** The table and the number of local variables after the code of the body has been generated. */
  lemma MadeTable(generator: CodeGenerator, f: Function, bodyCode: Code, locals: seq<Symbol>)
    requires GeneratedCode(bodyCode, generator.ThePool()) == GenStmt(WithReturn(f.body, f.header), f.pool)
    ensures generator.made == BodyOf(f).pool.made && generator.nextId == BodyOf(f).pool.nextId
  {
    hide GenStmt, WithReturn;
  }

  lemma CodeOfFunction(f: Function, bodyCode: Code)
    requires exists pool :: GeneratedCode(bodyCode, pool) == GenStmt(WithReturn(f.body, f.header), f.pool)
    ensures FunctionCode(f) == Declarations(f.declarations) + [Named(Enter, f.header)] + bodyCode
    ensures EntryOf(f) == |f.declarations|
  {
  }
}
