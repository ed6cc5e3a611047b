/** All optimizations of a function, one after the other (optimize_instructions, code_optimization.c). */
module CodeOptimization {
  import opened Instructions
  import opened Semantics
  import opened Behaviour
  import opened ControlFlow
  import opened Liveness
  import opened BitSets
  import opened ReadPaths
  import opened FirstReads
  import opened Peephole
  import opened CopyPropagation
  import opened DeadCode
  import opened LiveWays
  import opened Coloring
  import opened RegisterMachine
  import opened Interference
  import opened RegisterAllocation

  /** What the passes take for granted of the generated code and of the symbol table. */
  ghost predicate Optimizable(code: Code, entry: nat, table: seq<Symbol>, total: nat) {
    WellFormedCode(code, entry) && NothingDead(code) && TableFits(table, total) && KnownOperands(code, table)
  }

  /** What each pass leaves for the next one. */
  ghost predicate Prepared(code: Code, entry: nat, g: Cfg, table: seq<Symbol>, total: nat) {
    Allocatable(code, entry, g, table, total) && Propagatable(code, entry, g) && Traces(code, g)
  }

  /** A pass leaves the facts about ids and about what leaves the function as they are. */
  ghost predicate Carries(code: Code, code': Code, table: seq<Symbol>, total: nat) {
    && (IdsAreRight(code, total) ==> IdsAreRight(code', total))
    && (OwnTableIds(code, table) ==> OwnTableIds(code', table))
    && (ReturnsNothing(code) ==> ReturnsNothing(code'))
  }

  lemma CarriesTransitive(code1: Code, code2: Code, code3: Code, table: seq<Symbol>, total: nat)
    requires Carries(code1, code2, table, total) && Carries(code2, code3, table, total)
    ensures Carries(code1, code3, table, total)
  {
    hide IdsAreRight, OwnTableIds, ReturnsNothing;
  }

  /** Behind each Leave the function returns at once, without a value. */
  ghost predicate ReturnsNothing(code: Code) {
    forall p :: 0 <= p < |code| && code[p].op == Leave ==>
      && p + 1 < |code| && code[p + 1].op == Return && !code[p + 1].dead
      && code[p + 1].dest.None? && code[p + 1].src1.None? && code[p + 1].src2.None?
  }

  /** Then no variable is read behind a Leave. */
  lemma NothingIsRead(code: Code, a: Allocation)
    requires ReturnsNothing(code)
    ensures LeavesSafely(code, a)
  {
    forall p: nat, x | p < |code| && code[p].op == Leave && IsLocal(Some(x)) ensures !ReadLater(code, p + 1, x) {
      NotReadAt(code, p, x);
    }
  }

  lemma NotReadAt(code: Code, p: nat, x: Symbol)
    requires ReturnsNothing(code) && p < |code| && code[p].op == Leave
    ensures !ReadLater(code, p + 1, x)
  {
    if ReadLater(code, p + 1, x) {
      var q := ReadNext(code, p + 1, x);
    }
  }

  /** No variable that could get a register is read before it is assigned. */
  ghost predicate AssignedEarly(code: Code, entry: nat, table: seq<Symbol>) {
    forall x :: HasNode(table, x) ==> !ReadLater(code, entry, x)
  }

  lemma EarlyIsFirst(code: Code, code': Code, entry: nat, a: Allocation)
    requires AssignedEarly(code, entry, a.table) && NoNewReads(code, code', entry)
    ensures AssignedFirst(code', entry, a)
  {
    hide ReadLater;
    forall x | a.RegisterOf(x) >= 0 ensures !ReadLater(code', entry, x) {
      assert HasNode(a.table, x);
    }
  }

  lemma GraphPrepares(code: Code, entry: nat, g: Cfg, table: seq<Symbol>, total: nat)
    requires Optimizable(code, entry, table, total) && GraphOf(code, entry, g)
    ensures Prepared(code, entry, g, table, total)
  {
    GraphCovers(code, entry, g);
    GraphTraces(code, entry, g);
    hide Traces, WellFormed;
    forall p | 0 <= p < |code| && code[p].op == Call ensures IsFirst(g.blockOf, g.first, p) {
      assert p in LeadersMadeBy(code, p);
      assert IsLeader(code, |code|, p);
    }
  }

  // ---------------------------------------------------------------- after peephole optimization

  lemma PeepholePrepares(code: Code, entry: nat, g: Cfg, table: seq<Symbol>, total: nat)
    requires Prepared(code, entry, g, table, total) && NothingDead(code)
    ensures Prepared(UpTo(code, |code|), entry, g, table, total)
  {
    var code' := UpTo(code, |code|);
    UpToWellFormed(code, entry, |code|);
    PeepholeKeepsCovers(code, entry, g);
    PeepholeKeepsKnown(code, entry, table);
    PassAppliesRules(code);
    PeepholeKeepsTraces(code, code', entry, g);
    hide Covers, WellFormedCode, KnownOperands, TableFits, Traces, RulesApplied;
    assert forall p :: 0 <= p < |code| ==> code'[p].op == code[p].op;
  }

  /** An inverted test leaves an edge to where it jumped before, and its Goto one to where that did. */
  lemma PeepholeKeepsTraces(code: Code, code': Code, entry: nat, g: Cfg)
    requires WellFormedCode(code, entry) && NothingDead(code) && Traces(code, g) && RulesApplied(code, code')
    ensures Traces(code', g)
  {
    hide WellFormedCode, GraphLeads, RulesApplied;
    forall p: nat, q: nat | GraphLeads(g, p, q) ensures TracesStep(code', p, q) {
      assert TracesStep(code, p, q);
      StepStillTraced(code, code', entry, p, q);
    }
  }

  lemma StepStillTraced(code: Code, code': Code, entry: nat, p: nat, q: nat)
    requires WellFormedCode(code, entry) && NothingDead(code) && TracesStep(code, p, q) && RulesApplied(code, code')
    ensures TracesStep(code', p, q)
  {
    hide *;
    TracedIsCode(code, p, q);
    SameOperation(code, code', p);
    SameOperation(code, code', q);
    if q != p + 1 {
      if code[p].op == If {
        TestAfter(code, code', p);
      } else {
        GotoAfter(code, code', p);
      }
    }
    StillTraced(code, code', p, q);
  }

  /** Where nothing is dead the graph has the steps of the code. */
  lemma TracedIsCode(code: Code, p: nat, q: nat)
    requires NothingDead(code) && TracesStep(code, p, q)
    ensures p < |code| && q < |code| && !code[p].dead
    ensures q == p + 1 || (code[q].op == Label && (code[p].op == If || code[p].op == Goto) && q == code[p].jumpTo)
  {
  }

  lemma SameOperation(code: Code, code': Code, p: nat)
    requires RulesApplied(code, code') && p < |code|
    ensures |code'| == |code| && code'[p].op == code[p].op
  {
    hide DiesByRule, TakesTemporary, TestsAroundGoto;
    assert RulesAppliedAt(code, code', p);
  }

  lemma TestAfter(code: Code, code': Code, p: nat)
    requires RulesApplied(code, code') && p < |code| && code[p].op == If && !code[p].dead
    ensures |code'| == |code| && !code'[p].dead
    ensures if TestsAroundGoto(code, p) then code'[p + 1].dead && code'[p].jumpTo == code[p + 1].jumpTo
            else code'[p].jumpTo == code[p].jumpTo
  {
    assert RulesAppliedAt(code, code', p);
    assert p + 1 < |code| ==> RulesAppliedAt(code, code', p + 1);
  }

  lemma GotoAfter(code: Code, code': Code, p: nat)
    requires RulesApplied(code, code') && p < |code| && code[p].op == Goto && NothingDead(code)
    ensures |code'| == |code| && code'[p].jumpTo == code[p].jumpTo
    ensures code'[p].dead && code[p].jumpTo != p + 1 ==> 0 < p && TestsAroundGoto(code, p - 1)
    ensures 0 < p && TestsAroundGoto(code, p - 1) ==>
              code'[p - 1].op == If && !code'[p - 1].dead && code'[p - 1].jumpTo == code[p].jumpTo
  {
    assert RulesAppliedAt(code, code', p);
    if 0 < p && TestsAroundGoto(code, p - 1) {
      TestAfter(code, code', p - 1);
      SameOperation(code, code', p - 1);
    }
  }

  lemma StillTraced(code: Code, code': Code, p: nat, q: nat)
    requires p < |code| && q < |code| == |code'| && code'[p].op == code[p].op && code'[q].op == code[q].op
    requires q == p + 1 || (code[q].op == Label && (code[p].op == If || code[p].op == Goto) && q == code[p].jumpTo)
    requires q != p + 1 && code[p].op == If ==>
               && !code'[p].dead
               && if TestsAroundGoto(code, p) then code'[p + 1].dead && code'[p].jumpTo == code[p + 1].jumpTo
                  else code'[p].jumpTo == code[p].jumpTo
    requires q != p + 1 && code[p].op == Goto ==>
               && code'[p].jumpTo == code[p].jumpTo
               && (code'[p].dead ==> 0 < p && TestsAroundGoto(code, p - 1))
               && (0 < p && TestsAroundGoto(code, p - 1) ==>
                     code'[p - 1].op == If && !code'[p - 1].dead && code'[p - 1].jumpTo == code[p].jumpTo)
    ensures TracesStep(code', p, q)
  {
  }

  lemma PeepholeCarries(code: Code, entry: nat, table: seq<Symbol>, total: nat)
    requires WellFormedCode(code, entry)
    ensures Carries(code, UpTo(code, |code|), table, total)
  {
    hide DistinctAssignedIds, AssignedFit, OwnTableIds, ReturnsNothing;
    if DistinctAssignedIds(code) {
      PeepholeKeepsIds(code, entry);
    }
    if AssignedFit(code, total) {
      PeepholeKeepsFit(code, entry, total);
    }
    if OwnTableIds(code, table) {
      PeepholeKeepsTableIds(code, entry, table);
    }
    if ReturnsNothing(code) {
      PeepholeKeepsReturns(code, entry);
    }
  }

  lemma PeepholeKeepsFit(code: Code, entry: nat, total: nat)
    requires WellFormedCode(code, entry) && AssignedFit(code, total)
    ensures AssignedFit(UpTo(code, |code|), total)
  {
    hide Places;
    var code' := UpTo(code, |code|);
    forall p | 0 <= p < |code| && RedefinesVariable(code'[p]) && code'[p].dest.value.scope == Local
      ensures code'[p].dest.value.id < Places(total)
    {
      var q := PeepholedDestination(code, entry, p);
    }
  }

  lemma PeepholeKeepsReturns(code: Code, entry: nat)
    requires WellFormedCode(code, entry) && ReturnsNothing(code)
    ensures ReturnsNothing(UpTo(code, |code|))
  {
    var code' := UpTo(code, |code|);
    forall p | 0 <= p < |code| && code'[p].op == Leave
      ensures p + 1 < |code| && code'[p + 1] == code[p + 1]
    {
      assert code'[p] == Peepholed(code, |code|, p) && code'[p + 1] == Peepholed(code, |code|, p + 1);
      assert p + 2 < |code| ==> WellFormed(code[p + 2]);
    }
  }

  lemma PeepholeKeepsKnown(code: Code, entry: nat, table: seq<Symbol>)
    requires WellFormedCode(code, entry) && KnownOperands(code, table)
    ensures KnownOperands(UpTo(code, |code|), table)
  {
    var code' := UpTo(code, |code|);
    forall p | 0 <= p < |code'|
      ensures Known(table, code'[p].dest) && Known(table, code'[p].src1) && Known(table, code'[p].src2)
    {
      assert Known(table, code[p].dest);
      assert p + 1 < |code| ==> Known(table, code[p + 1].dest);
    }
  }

  lemma PeepholeKeepsTableIds(code: Code, entry: nat, table: seq<Symbol>)
    requires WellFormedCode(code, entry) && OwnTableIds(code, table)
    ensures OwnTableIds(UpTo(code, |code|), table)
  {
    var code' := UpTo(code, |code|);
    forall p, x | 0 <= p < |code| && RedefinesVariable(code'[p]) && IsLocal(code'[p].dest) && HasNode(table, x)
      ensures code'[p].dest.value.typ == AddrType || IdsApart(x, code'[p].dest.value)
    {
      var q := PeepholedDestination(code, entry, p);
    }
  }

  // ---------------------------------------------------------------- after copy propagation

  /** Some instruction reads `r`. */
  ghost predicate IsCopied(code: Code, r: Symbol) {
    exists q :: 0 <= q < |code| && code[q].src1 == Some(r)
  }

  ghost predicate LinksFit(code: Code, links: Links) {
    forall x :: x in links ==> IsScalar(x.typ) && links[x].typ == x.typ && IsCopied(code, links[x])
  }

  lemma LinksAfterFit(code: Code, links: Links, q: nat)
    requires q < |code| && WellFormed(code[q]) && LinksFit(code, links)
    ensures LinksFit(code, LinksAfter(links, code[q]))
  {
    var i := code[q];
    if !i.dead && !IsRedundant(links, i) && i.op == Assign && i.dest.value.typ == i.src1.value.typ {
      assert IsCopied(code, i.src1.value);
    }
  }

  lemma {:induction false} LinksAtFit(code: Code, start: nat, p: nat)
    requires p <= |code| && forall q :: 0 <= q < |code| ==> WellFormed(code[q])
    ensures LinksFit(code, LinksAt(code, start, p))
  {
    if p > start {
      LinksAtFit(code, start, p - 1);
      LinksAfterFit(code, LinksAt(code, start, p - 1), p - 1);
    }
  }

  /** An operand after the pass: as before, or one of the same type that an assignment reads. */
  ghost predicate OperandKept(code: Code, x: Option<Symbol>, x': Option<Symbol>) {
    x' == x || (x.Some? && x'.Some? && IsScalar(x.value.typ) && x'.value.typ == x.value.typ && IsCopied(code, x'.value))
  }

  lemma RewritingKeeps(code: Code, links: Links, q: nat)
    requires q < |code| && WellFormed(code[q]) && LinksFit(code, links)
    ensures var i, i' := code[q], Rewritten(links, code[q]);
      && i' == i.(src1 := i'.src1, src2 := i'.src2, dead := i'.dead) && (i.dead ==> i'.dead)
      && OperandKept(code, i.src1, i'.src1) && OperandKept(code, i.src2, i'.src2)
      && WellFormed(i')
  {
    LinksAfterFit(code, links, q);
  }

  lemma PropagationKeeps(code: Code, entry: nat, g: Cfg, code': Code, q: nat)
    requires Placed(code, entry, g) && PropagatedCode(code, entry, g, code') && q < |code|
    requires forall p :: 0 <= p < |code| ==> WellFormed(code[p])
    ensures var i, i' := code[q], code'[q];
      && i' == i.(src1 := i'.src1, src2 := i'.src2, dead := i'.dead) && (i.dead ==> i'.dead)
      && OperandKept(code, i.src1, i'.src1) && OperandKept(code, i.src2, i'.src2)
      && WellFormed(i')
  {
    if entry <= q {
      LinksAtFit(code, g.first[g.blockOf[q].value], q);
      RewritingKeeps(code, LinksBefore(code, entry, g, q), q);
    }
  }

  lemma PropagationKeepsCode(code: Code, entry: nat, g: Cfg, code': Code)
    requires Propagatable(code, entry, g) && PropagatedCode(code, entry, g, code')
    ensures Propagatable(code', entry, g)
    ensures forall table, total :: Carries(code, code', table, total)
  {
    forall q | 0 <= q < |code|
      ensures WellFormed(code'[q]) && (code[q].dead ==> code'[q].dead)
      ensures code'[q].op == code[q].op && code'[q].dest == code[q].dest && code'[q].jumpTo == code[q].jumpTo
    {
      PropagationKeeps(code, entry, g, code', q);
    }
    hide WellFormed, PropagatedCode, StepsOnGraph;
    forall p | entry <= p < |code'| ensures CoversFall(code', g, p) && CoversJump(code', g, p) {
      assert CoversFall(code, g, p) && CoversJump(code, g, p);
    }
    assert Placed(code', entry, g);
    forall table, total ensures Carries(code, code', table, total) {
      SameDestinationsCarry(code, code', table, total);
    }
  }

  /** Lists with the same destinations, whose Return instructions are the same. */
  lemma SameDestinationsCarry(code: Code, code': Code, table: seq<Symbol>, total: nat)
    requires |code'| == |code|
    requires forall p :: 0 <= p < |code| ==> code'[p].op == code[p].op && code'[p].dest == code[p].dest
    requires forall p :: 0 <= p < |code| && code[p].op == Return && code[p].src1.None? && code[p].src2.None? ==>
               code'[p] == code[p]
    ensures Carries(code, code', table, total)
  {
    assert forall p :: 0 <= p < |code| ==> (RedefinesVariable(code'[p]) <==> RedefinesVariable(code[p]));
    hide Places, RedefinesVariable, IdsApart, HasNode, TableFits;
  }

  lemma PropagationKeepsOperands(code: Code, entry: nat, g: Cfg, code': Code, table: seq<Symbol>)
    requires Propagatable(code, entry, g) && PropagatedCode(code, entry, g, code')
    requires KnownOperands(code, table)
    ensures KnownOperands(code', table)
  {
    forall x | IsCopied(code, x) ensures Known(table, Some(x)) {
      var q :| 0 <= q < |code| && code[q].src1 == Some(x);
      assert Known(table, code[q].src1);
    }
    forall q | 0 <= q < |code|
      ensures Known(table, code'[q].dest) && Known(table, code'[q].src1) && Known(table, code'[q].src2)
    {
      PropagationKeeps(code, entry, g, code', q);
      assert Known(table, code[q].dest) && Known(table, code[q].src1) && Known(table, code[q].src2);
    }
  }

  lemma PropagationPrepares(code: Code, entry: nat, g: Cfg, code': Code, table: seq<Symbol>, total: nat)
    requires Prepared(code, entry, g, table, total) && PropagatedCode(code, entry, g, code')
    ensures Prepared(code', entry, g, table, total)
  {
    PropagationKeepsCode(code, entry, g, code');
    PropagationKeepsOperands(code, entry, g, code', table);
    PropagationKeepsTraces(code, entry, g, code');
    hide Covers, WellFormedCode, KnownOperands, TableFits, PropagatedCode, Carries, Traces;
  }

  lemma PropagationKeepsTraces(code: Code, entry: nat, g: Cfg, code': Code)
    requires Propagatable(code, entry, g) && PropagatedCode(code, entry, g, code') && Traces(code, g)
    ensures Traces(code', g)
  {
    forall p | 0 <= p < |code|
      ensures code'[p].op == code[p].op && code'[p].jumpTo == code[p].jumpTo && (code[p].dead ==> code'[p].dead)
      ensures code'[p].dead && !code[p].dead ==> code[p].op == Assign
    {
      PropagationKeeps(code, entry, g, code', p);
      assert code'[p] == if entry <= p then Rewritten(LinksBefore(code, entry, g, p), code[p]) else code[p];
    }
    hide PropagatedCode, Traces, WellFormedCode, Covers, Placed;
    JumpsKeepTraces(code, code', entry, g);
  }

  /** The runs of the function show the same after copy propagation. */
  lemma PropagationBehaves(m: Machine, code: Code, entry: nat, g: Cfg, code': Code)
    requires m.Valid() && Propagatable(code, entry, g) && PropagatedCode(code, entry, g, code')
    ensures SameBehaviour(m, code, code', entry)
  {
    forall s: State, n: nat | s.pc <= entry
      ensures Observe(m, |code|, Run(m, code, s, n)) == Observe(m, |code|, Run(m, code', s, n))
    {
      PropagationRun(m, code, code', entry, g, s, n);
    }
    LockstepBehaviour(m, code, code', entry);
  }

  // ---------------------------------------------------------------- after dead code elimination

  lemma EliminationPrepares(code: Code, entry: nat, g: Cfg, code': Code, table: seq<Symbol>, total: nat)
    requires Prepared(code, entry, g, table, total) && OnlyMoreDead(code, code') && Eliminable(code', entry, g)
    requires |code'| == |code| && OnlyDefinitionsDie(code, code')
    ensures Prepared(code', entry, g, table, total)
  {
    MarkingKeepsTraces(code, code', entry, g);
    forall q | 0 <= q < |code|
      ensures Known(table, code'[q].dest) && Known(table, code'[q].src1) && Known(table, code'[q].src2)
    {
      assert Known(table, code[q].dest) && Known(table, code[q].src1) && Known(table, code[q].src2);
    }
    hide Covers, WellFormedCode, Known, TableFits, Placed, Traces;
  }

  lemma EliminationCarries(code: Code, entry: nat, code': Code, table: seq<Symbol>, total: nat)
    requires OnlyMoreDead(code, code') && |code'| == |code| && OnlyDefinitionsDie(code, code')
    requires WellFormedCode(code, entry)
    ensures Carries(code, code', table, total)
  {
    forall p | 0 <= p < |code| && code[p].op == Return ensures code'[p] == code[p] {
      assert WellFormed(code[p]);
    }
    hide Carries, WellFormed;
    SameDestinationsCarry(code, code', table, total);
  }

  // ---------------------------------------------------------------- all passes

  ghost predicate KeepsBehaviour(code: Code, code': Code, entry: nat) {
    forall m: Machine :: m.Valid() && m.IntIsWidest() ==> SameBehaviour(m, code, code', entry)
  }

  lemma KeepsBehaviourTransitive(code1: Code, code2: Code, code3: Code, entry: nat)
    requires KeepsBehaviour(code1, code2, entry) && KeepsBehaviour(code2, code3, entry)
    ensures KeepsBehaviour(code1, code3, entry)
  {
    forall m: Machine | m.Valid() && m.IntIsWidest() ensures SameBehaviour(m, code1, code3, entry) {
      SameBehaviourTransitive(m, code1, code2, code3, entry);
    }
  }

  ghost predicate AllocatedShows(
      m: Machine, a: Allocation, junk: Junk, code: Code, t: RegState, o: Observation)
  {
    exists n: nat :: Observe(m, |code|, RunWith(m, a, junk, code, t, n).state) == o
  }

  /** The allocated code shows what the function as it was generated shows. */
  ghost predicate AllocatedBehaves(code: Code, code': Code, entry: nat, a: Allocation) {
    forall m: Machine, junk: Junk, s: State, registers: Registers, o: Observation ::
      m.Valid() && m.IntIsWidest() && s.pc <= entry ==>
        (Shows(m, code, s, o) <==> AllocatedShows(m, a, junk, code', RegState(s, registers), o))
  }

  lemma AllocationBehaves(code: Code, code': Code, entry: nat, a: Allocation)
    requires KeepsBehaviour(code, code', entry) && RunsAlike(code', entry, a)
    ensures AllocatedBehaves(code, code', entry, a)
  {
    forall m: Machine, junk: Junk, s: State, registers: Registers, o: Observation
      | m.Valid() && m.IntIsWidest() && s.pc <= entry
      ensures Shows(m, code, s, o) <==> AllocatedShows(m, a, junk, code', RegState(s, registers), o)
    {
      assert SameBehaviour(m, code, code', entry);
      assert Shows(m, code, s, o) <==> Shows(m, code', s, o);
      SameObserved(m, code', entry, a, junk, s, registers, o);
    }
  }

  lemma SameObserved(
      m: Machine, code: Code, entry: nat, a: Allocation, junk: Junk, s: State, registers: Registers,
      o: Observation)
    requires m.Valid() && s.pc <= entry && RunsAlike(code, entry, a)
    ensures Shows(m, code, s, o) <==> AllocatedShows(m, a, junk, code, RegState(s, registers), o)
  {
    var t := RegState(s, registers);
    forall n: nat
      ensures Observe(m, |code|, Run(m, code, s, n)) == Observe(m, |code|, RunWith(m, a, junk, code, t, n).state)
    {
      assert SameEffects(Run(m, code, s, n), RunWith(m, a, junk, code, t, n).state);
    }
    hide Observe, Run, RunWith;
  }

  /** Every peephole rule has been applied, and then every copy in force been used. */
  ghost predicate LocallyOptimized(start: Code, peepholed: Code, code: Code, entry: nat, g: Cfg) {
    && RulesApplied(start, peepholed)
    && Placed(peepholed, entry, g) && CopiesUsed(peepholed, entry, g, code)
    && Placed(code, entry, g) && NoCopyIsRead(code, entry, g)
  }

  /** Peephole optimization and copy propagation, if they are enabled. */
  method OptimizeLocally(
      code: array<Instruction>, g: Cfg, ghost entry: nat, ghost table: seq<Symbol>, ghost total: nat,
      localEnabled: bool)
    returns (ghost middle: Code)
    requires Prepared(code[..], entry, g, table, total) && NothingDead(code[..])
    modifies code
    ensures if localEnabled then LocallyOptimized(old(code[..]), middle, code[..], entry, g)
            else code[..] == old(code[..])
    ensures Prepared(code[..], entry, g, table, total) && Carries(old(code[..]), code[..], table, total)
    ensures (localEnabled ==> old(Allowed(code[..], entry))) ==>
              KeepsBehaviour(old(code[..]), code[..], entry) && NoNewReads(old(code[..]), code[..], entry)
  {
    ghost var start := code[..];
    PreparedShape(start, entry, g, table, total);
    CodeCarriesItself(start, entry, table, total);
    hide *;
    middle := start;
    if !localEnabled {
      return;
    }
    RunPeepholeOptimization(code, entry);
    middle := code[..];
    PeepholePrepares(start, entry, g, table, total);
    PeepholeCarries(start, entry, table, total);
    PreparedShape(middle, entry, g, table, total);
    DoCopyPropagation(code, entry, g);
    IsLocallyOptimized(start, middle, code[..], entry, g);
    PropagationPrepares(middle, entry, g, code[..], table, total);
    PropagationKeepsCode(middle, entry, g, code[..]);
    CarriesTransitive(start, middle, code[..], table, total);
    if Allowed(start, entry) {
      PeepholeReads(start, entry);
      PropagationReads(middle, entry, g, code[..]);
      NoNewReadsTransitive(start, middle, code[..], entry);
      forall m: Machine | m.Valid() && m.IntIsWidest() ensures SameBehaviour(m, start, code[..], entry) {
        PeepholeBehaves(m, start, entry);
        PropagationBehaves(m, middle, entry, g, code[..]);
        SameBehaviourTransitive(m, start, middle, code[..], entry);
      }
      AllKeepBehaviour(start, code[..], entry);
    }
  }

  lemma IsLocallyOptimized(start: Code, peepholed: Code, code: Code, entry: nat, g: Cfg)
    requires RulesApplied(start, peepholed) && Placed(peepholed, entry, g) && CopiesUsed(peepholed, entry, g, code)
    requires Placed(code, entry, g) && NoCopyIsRead(code, entry, g)
    ensures LocallyOptimized(start, peepholed, code, entry, g)
  {
  }

  lemma AllKeepBehaviour(code: Code, code': Code, entry: nat)
    requires forall m: Machine :: m.Valid() && m.IntIsWidest() ==> SameBehaviour(m, code, code', entry)
    ensures KeepsBehaviour(code, code', entry)
  {
  }

  lemma PreparedShape(code: Code, entry: nat, g: Cfg, table: seq<Symbol>, total: nat)
    requires Prepared(code, entry, g, table, total)
    ensures WellFormedCode(code, entry) && Propagatable(code, entry, g) && Placed(code, entry, g)
    ensures Eliminable(code, entry, g) && Allocatable(code, entry, g, table, total) && Traces(code, g)
  {
  }

  /** Dead code elimination, if it is enabled. */
  method OptimizeGlobally(
      code: array<Instruction>, g: Cfg, ghost entry: nat, ghost table: seq<Symbol>, total: nat, globalEnabled: bool)
    requires Prepared(code[..], entry, g, table, total)
    modifies code
    ensures if globalEnabled then ExactlyUseful(old(code[..]), entry, total, code[..]) else code[..] == old(code[..])
    ensures Prepared(code[..], entry, g, table, total) && Carries(old(code[..]), code[..], table, total)
    ensures (globalEnabled ==> old(IdsAreRight(code[..], total))) ==>
              KeepsBehaviour(old(code[..]), code[..], entry) && NoNewReads(old(code[..]), code[..], entry)
  {
    ghost var start := code[..];
    PreparedShape(start, entry, g, table, total);
    CodeCarriesItself(start, entry, table, total);
    hide *;
    if !globalEnabled {
      return;
    }
    DoDeadCodeElimination(code, entry, g, total);
    EliminationPrepares(start, entry, g, code[..], table, total);
    EliminationCarries(start, entry, code[..], table, total);
    if IdsAreRight(start, total) {
      forall m: Machine | m.Valid() && m.IntIsWidest() ensures SameBehaviour(m, start, code[..], entry) {
        assert SameMeaning(m, start, code[..]);
        SameMeaningBehaves(m, start, code[..], entry);
      }
      AllKeepBehaviour(start, code[..], entry);
    }
  }

  /** The conditions under which the enabled optimizations keep the behaviour of the code. */
  ghost predicate Behaving(code: Code, entry: nat, total: nat, localEnabled: bool, globalEnabled: bool) {
    (localEnabled ==> Allowed(code, entry)) && (globalEnabled ==> IdsAreRight(code, total))
  }

  /**
   * The registers colour the interference graph of the code, with few enough neighbours every variable that competes
   * has one, and in a function without local variables other than formals none has.
   */
  ghost predicate RegistersAssigned(
      code: Code, entry: nat, g: Cfg, table: seq<Symbol>, total: nat, cost: seq<int>, header: Symbol,
      entered: map<Symbol, set<nat>>, a: Allocation, problem: Problem, used: set<nat>)
  {
    if total == 0 then a.reg == []
    else
      && Placed(code, entry, g) && |FullOuts(code, g)| == |g.first|
      && Poses(code, entry, g, FullOuts(code, g), table, cost, header, entered[header := {}], problem)
      && ColoringOf(problem, a.reg, used) && LowDegreesColored(table, problem, a.reg)
  }

  /** What the enabled passes have done: the lists after each of them. */
  ghost predicate Optimized(
      start: Code, peepholed: Code, propagated: Code, code: Code, entry: nat, g: Cfg, total: nat, localEnabled: bool,
      globalEnabled: bool)
  {
    && GraphOf(start, entry, g)
    && (if localEnabled then LocallyOptimized(start, peepholed, propagated, entry, g) else propagated == start)
    && (if globalEnabled then ExactlyUseful(propagated, entry, total, code) else code == propagated)
  }

  /** What the rules call for is dead at the end. */
  lemma RulesStay(
      start: Code, peepholed: Code, propagated: Code, code: Code, entry: nat, g: Cfg, total: nat,
      globalEnabled: bool, p: nat)
    requires Optimized(start, peepholed, propagated, code, entry, g, total, true, globalEnabled)
    requires p < |start| && (start[p].dead || DiesByRule(start, p))
    ensures p < |code| && code[p].dead
  {
    hide DiesByRule, GraphOf, CopiesUsedAt, NoCopyIsRead;
    assert RulesAppliedAt(start, peepholed, p);
    assert entry <= p ==> CopiesUsedAt(peepholed, propagated, g.first[g.blockOf[p].value], p);
    hide Placed, IsUseful, TakesTemporary, TestsAroundGoto;
    DeadStaysDead(peepholed, propagated, if entry <= p then g.first[g.blockOf[p].value] else 0, entry, p);
  }

  lemma DeadStaysDead(code: Code, code': Code, start: nat, entry: nat, p: nat)
    requires p < |code| == |code'| && code[p].dead
    requires if entry <= p then CopiesUsedAt(code, code', start, p) else code'[p] == code[p]
    ensures code'[p].dead
  {
  }

  /** After dead code elimination the value of a live definition is used along a way of the code. */
  lemma DefinitionsAreUsed(
      start: Code, peepholed: Code, propagated: Code, code: Code, entry: nat, g: Cfg, total: nat, localEnabled: bool,
      p: nat, x: Symbol)
    requires Optimized(start, peepholed, propagated, code, entry, g, total, localEnabled, true)
    requires entry <= p < |code| && !code[p].dead && code[p].dest == Some(x) && x.scope == Local
    requires x.typ != AddrType || code[p].op == IndexArray
    ensures UsedAlong(code, p + 1, x.id)
    ensures OwnId(code, x) && x.typ != AddrType && !x.isConstant ==> ReadAlong(code, p + 1, x)
  {
    hide LocallyOptimized, GraphOf, UsedAlong, OwnId, ReadAlong, Places;
    if OwnId(code, x) && x.typ != AddrType && !x.isConstant {
      OwnIdIsRead(code, p + 1, x);
    }
  }

  /** Register allocation, if it is enabled, of the code that the other passes have made of `start`. */
  method AllocateRegisters(
      ghost start: Code, code: Code, ghost entry: nat, g: Cfg, table: seq<Symbol>, total: nat, cost: seq<int>,
      header: Symbol, entered: map<Symbol, set<nat>>, registerAllocationEnabled: bool, drop: bool,
      ghost behaving: bool)
    returns (a: Allocation, stale: bool, ghost outs: seq<set<nat>>, ghost problem: Problem, ghost used: set<nat>)
    requires Prepared(code, entry, g, table, total) && |cost| == total
    requires behaving ==> KeepsBehaviour(start, code, entry) && NoNewReads(start, code, entry)
    requires OwnTableIds(start, table) ==> OwnTableIds(code, table)
    requires ReturnsNothing(start) ==> ReturnsNothing(code)
    ensures |outs| == |g.first| && a.table == table && (drop ==> !stale)
    ensures registerAllocationEnabled ==> Placed(code, entry, g) && outs == FullOuts(code, g)
    ensures registerAllocationEnabled && !stale ==>
              RegistersAssigned(code, entry, g, table, total, cost, header, entered, a, problem, used)
    ensures registerAllocationEnabled && !stale && OwnTableIds(start, table) ==>
              SafeAllocation(code, entry, g, outs, a)
    ensures registerAllocationEnabled && !stale && OwnTableIds(start, table)
              && AssignedFirst(code, entry, a) && LeavesSafely(code, a) ==>
              AllocatedBehaves(code, code, entry, a)
    ensures registerAllocationEnabled && !stale && OwnTableIds(start, table) && behaving
              && AssignedEarly(start, entry, table) && LeavesSafely(code, a) ==>
              AllocatedBehaves(start, code, entry, a)
    ensures ReturnsNothing(start) ==> LeavesSafely(code, a)
  {
    PreparedShape(code, entry, g, table, total);
    hide *;
    a, stale, outs := Allocation(table, [], []), false, EmptySets(|g.first|);
    problem, used := Problem({}, [], [], [], 0), {};
    if registerAllocationEnabled {
      var registersUsed; ghost var ins;
      a, registersUsed, stale, ins, outs, problem :=
        OptimizeRegisterAllocation(code, entry, g, table, total, cost, header, entered, drop);
      used := registersUsed;
      ExactOuts(code, entry, g, table, total, ins, outs);
      if !stale {
        AreAssigned(code, entry, g, table, total, cost, header, entered, a, problem, used);
      }
      AllocationKeeps(start, code, entry, a, behaving);
    }
    if ReturnsNothing(start) {
      NothingIsRead(code, a);
    }
  }

  /** The optimizations that are enabled, in their order, on the graph of the generated code. */
  method OptimizeInstructions(
      code: array<Instruction>, ghost entry: nat, table: seq<Symbol>, total: nat, cost: seq<int>,
      header: Symbol, entered: map<Symbol, set<nat>>,
      localEnabled: bool, globalEnabled: bool, registerAllocationEnabled: bool, drop: bool)
    returns (
      a: Allocation, stale: bool, ghost g: Cfg, ghost outs: seq<set<nat>>,
      ghost peepholed: Code, ghost propagated: Code, ghost problem: Problem, ghost used: set<nat>)
    requires Optimizable(code[..], entry, table, total) && |cost| == total
    modifies code
    ensures Optimized(old(code[..]), peepholed, propagated, code[..], entry, g, total, localEnabled, globalEnabled)
    ensures registerAllocationEnabled ==> Placed(code[..], entry, g) && outs == FullOuts(code[..], g)
    ensures registerAllocationEnabled && !stale ==>
              RegistersAssigned(code[..], entry, g, table, total, cost, header, entered, a, problem, used)
    ensures Prepared(code[..], entry, g, table, total) && |outs| == |g.first| && a.table == table
    ensures old(Behaving(code[..], entry, total, localEnabled, globalEnabled)) ==>
              KeepsBehaviour(old(code[..]), code[..], entry)
    ensures drop ==> !stale
    ensures registerAllocationEnabled && !stale && old(OwnTableIds(code[..], table)) ==>
              SafeAllocation(code[..], entry, g, outs, a)
    ensures registerAllocationEnabled && !stale && old(OwnTableIds(code[..], table))
              && AssignedFirst(code[..], entry, a) && LeavesSafely(code[..], a) ==>
              AllocatedBehaves(code[..], code[..], entry, a)
    ensures registerAllocationEnabled && !stale && old(OwnTableIds(code[..], table))
              && old(Behaving(code[..], entry, total, localEnabled, globalEnabled))
              && old(AssignedEarly(code[..], entry, table)) && LeavesSafely(code[..], a) ==>
              AllocatedBehaves(old(code[..]), code[..], entry, a)
    ensures old(ReturnsNothing(code[..])) ==> LeavesSafely(code[..], a)
  {
    ghost var start := code[..];
    OptimizableShape(start, entry, table, total);
    hide *;
    var graph := BuildControlFlowGraph(code[..], entry);
    g := graph;
    GraphPrepares(start, entry, g, table, total);
    peepholed := OptimizeLocally(code, graph, entry, table, total, localEnabled);
    propagated := code[..];
    OptimizeGlobally(code, graph, entry, table, total, globalEnabled);
    IsOptimized(start, peepholed, propagated, code[..], entry, g, total, localEnabled, globalEnabled);
    PassesKeep(start, propagated, code[..], entry, table, total, localEnabled, globalEnabled);
    PreparedShape(code[..], entry, g, table, total);
    a, stale, outs, problem, used := AllocateRegisters(
      start, code[..], entry, graph, table, total, cost, header, entered, registerAllocationEnabled, drop,
      Behaving(start, entry, total, localEnabled, globalEnabled));
  }

  lemma IsOptimized(
      start: Code, peepholed: Code, propagated: Code, code: Code, entry: nat, g: Cfg, total: nat, localEnabled: bool,
      globalEnabled: bool)
    requires GraphOf(start, entry, g)
    requires if localEnabled then LocallyOptimized(start, peepholed, propagated, entry, g) else propagated == start
    requires if globalEnabled then ExactlyUseful(propagated, entry, total, code) else code == propagated
    ensures Optimized(start, peepholed, propagated, code, entry, g, total, localEnabled, globalEnabled)
  {
  }

  lemma ExactOuts(
      code: Code, entry: nat, g: Cfg, table: seq<Symbol>, total: nat, ins: seq<set<nat>>, outs: seq<set<nat>>)
    requires Allocatable(code, entry, g, table, total) && ExactLiveness(code, g, ins, outs)
    ensures Placed(code, entry, g) && outs == FullOuts(code, g) && |outs| == |g.first|
  {
    ExactIsFull(code, g, ins, outs);
  }

  lemma AreAssigned(
      code: Code, entry: nat, g: Cfg, table: seq<Symbol>, total: nat, cost: seq<int>, header: Symbol,
      entered: map<Symbol, set<nat>>, a: Allocation, problem: Problem, used: set<nat>)
    requires Placed(code, entry, g) && |FullOuts(code, g)| == |g.first|
    requires 0 == total ==> a.reg == []
    requires 0 < total ==>
               && Poses(code, entry, g, FullOuts(code, g), table, cost, header, entered[header := {}], problem)
               && ColoringOf(problem, a.reg, used) && LowDegreesColored(table, problem, a.reg)
    ensures RegistersAssigned(code, entry, g, table, total, cost, header, entered, a, problem, used)
  {
  }

  /** What both enabled passes leave behind. */
  lemma PassesKeep(
      start: Code, middle: Code, code: Code, entry: nat, table: seq<Symbol>, total: nat, localEnabled: bool,
      globalEnabled: bool)
    requires Carries(start, middle, table, total) && Carries(middle, code, table, total)
    requires (localEnabled ==> Allowed(start, entry)) ==>
               KeepsBehaviour(start, middle, entry) && NoNewReads(start, middle, entry)
    requires (globalEnabled ==> IdsAreRight(middle, total)) ==>
               KeepsBehaviour(middle, code, entry) && NoNewReads(middle, code, entry)
    ensures Behaving(start, entry, total, localEnabled, globalEnabled) ==>
              KeepsBehaviour(start, code, entry) && NoNewReads(start, code, entry)
    ensures OwnTableIds(start, table) ==> OwnTableIds(code, table)
    ensures ReturnsNothing(start) ==> ReturnsNothing(code)
  {
    hide Allowed, IdsAreRight, OwnTableIds, ReturnsNothing, KeepsBehaviour, NoNewReads;
    if Behaving(start, entry, total, localEnabled, globalEnabled) {
      KeepsBehaviourTransitive(start, middle, code, entry);
      NoNewReadsTransitive(start, middle, code, entry);
    }
  }

  /** What the allocator needs for the code as it was generated. */
  lemma AllocationKeeps(start: Code, code: Code, entry: nat, a: Allocation, behaving: bool)
    requires behaving ==> KeepsBehaviour(start, code, entry) && NoNewReads(start, code, entry)
    ensures RunsAlike(code, entry, a) ==> AllocatedBehaves(code, code, entry, a)
    ensures RunsAlike(code, entry, a) && behaving ==> AllocatedBehaves(start, code, entry, a)
    ensures AssignedEarly(start, entry, a.table) && behaving ==> AssignedFirst(code, entry, a)
  {
    hide KeepsBehaviour, NoNewReads, RunsAlike, AllocatedBehaves, AssignedEarly, AssignedFirst;
    KeepsItself(code, entry);
    if RunsAlike(code, entry, a) {
      AllocationBehaves(code, code, entry, a);
      if behaving {
        AllocationBehaves(start, code, entry, a);
      }
    }
    if AssignedEarly(start, entry, a.table) && behaving {
      EarlyIsFirst(start, code, entry, a);
    }
  }

  lemma CodeCarriesItself(code: Code, entry: nat, table: seq<Symbol>, total: nat)
    ensures KeepsBehaviour(code, code, entry) && NoNewReads(code, code, entry) && Carries(code, code, table, total)
  {
    KeepsItself(code, entry);
  }

  lemma OptimizableShape(code: Code, entry: nat, table: seq<Symbol>, total: nat)
    requires Optimizable(code, entry, table, total)
    ensures WellFormedCode(code, entry) && NothingDead(code)
  {
  }

  lemma KeepsItself(code: Code, entry: nat)
    ensures KeepsBehaviour(code, code, entry)
  {
  }
}
