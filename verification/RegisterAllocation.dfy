/** Register allocation of a function (optimize_register_allocation, code_optimization.c). */
module RegisterAllocation {
  import opened Instructions
  import opened Semantics
  import opened ControlFlow
  import opened Liveness
  import opened BitSets
  import opened Graphs
  import opened Coloring
  import opened StaleNodes
  import opened RegisterColoring
  import opened RegisterMachine
  import opened Interference

  /** A local variable is in the symbol table; an address is held by a temporary. */
  ghost predicate Known(table: seq<Symbol>, x: Option<Symbol>) {
    x.Some? ==>
      && (IsLocal(x) ==> x.value in table)
      && (x.value.typ == AddrType ==> IsLocal(x) && !x.value.isFormal)
  }

  ghost predicate KnownOperands(code: Code, table: seq<Symbol>) {
    forall p :: 0 <= p < |code| ==>
      Known(table, code[p].dest) && Known(table, code[p].src1) && Known(table, code[p].src2)
  }

  /** A variable that the code assigns does not share its id with another one that could get a register. */
  ghost predicate OwnTableIds(code: Code, table: seq<Symbol>) {
    forall p, x ::
      (0 <= p < |code| && RedefinesVariable(code[p]) && IsLocal(code[p].dest) && HasNode(table, x)) ==>
        code[p].dest.value.typ == AddrType || IdsApart(x, code[p].dest.value)
  }

  /** What the allocator takes for granted. */
  ghost predicate Allocatable(code: Code, entry: nat, g: Cfg, table: seq<Symbol>, total: nat) {
    && WellFormedCode(code, entry) && Placed(code, entry, g) && Covers(code, entry, g)
    && TableFits(table, total) && KnownOperands(code, table)
  }

  /** If there are local variables other than formals, all ids have a place in the sets. */
  lemma KnownIdsFit(code: Code, entry: nat, table: seq<Symbol>, total: nat)
    requires WellFormedCode(code, entry) && TableFits(table, total) && KnownOperands(code, table) && 0 < total
    ensures IdsFit(code, total)
  {
    forall p, v | 0 <= p < |code| && (v in UsedIds(code[p]) || v in DefinedIds(code[p])) ensures v < Places(total) {
      assert WellFormed(code[p]);
      assert Known(table, code[p].dest) && Known(table, code[p].src1) && Known(table, code[p].src2);
    }
  }

  /** A candidate that is live is in live_now too. */
  lemma CandidateIsNow(
      code: Code, entry: nat, g: Cfg, outs: seq<set<nat>>, table: seq<Symbol>, p: nat, x: Symbol)
    requires WellFormedCode(code, entry) && Placed(code, entry, g) && |outs| == |g.first|
    requires TableOk(table) && KnownOperands(code, table) && HasNode(table, x) && entry <= p < |code|
    requires x.id in LiveAfter(code, entry, g, outs, p)
    ensures x.id in NowAfter(code, entry, g, outs, p)
  {
    forall q | 0 <= q < |code| ensures NoAddress(code[q], x.id) {
      assert Known(table, code[q].dest) && Known(table, code[q].src1) && Known(table, code[q].src2);
    }
    LiveIsNow(code, p + 1, End(g, g.blockOf[p].value), outs[g.blockOf[p].value], x.id);
  }

  lemma ColoringRespectsDefinition(
      code: Code, entry: nat, g: Cfg, outs: seq<set<nat>>, total: nat, a: Allocation, problem: Problem, used: set<nat>,
      p: nat)
    requires Allocatable(code, entry, g, a.table, total) && |outs| == |g.first| && entry <= p < |code|
    requires ExactEdges(code, entry, g, outs, a.table, Positions(entry, |code| - 1), problem.adjacent)
    requires problem.Valid() && ColoringOf(problem, a.reg, used)
    ensures RespectsDefinition(code, entry, g, outs, a, p)
  {
    if !code[p].dead && code[p].dest.Some? && a.RegisterOf(code[p].dest.value) >= 0 {
      var d := code[p].dest.value;
      forall x | x in a.table && x != d && x.id in LiveAfter(code, entry, g, outs, p)
        ensures a.RegisterOf(x) != a.RegisterOf(d)
      {
        if a.RegisterOf(x) >= 0 {
          CandidateIsNow(code, entry, g, outs, a.table, p, x);
          assert Interfere(code, entry, g, outs, a.table, p, d.id, x.id);
          assert InterfereSomewhere(code, entry, g, outs, a.table, Positions(entry, |code| - 1), d.id, x.id);
          assert x.id in problem.adjacent[d.id];
        }
      }
    }
  }

  /** A proper colouring of the interference graph is a safe allocation. */
  lemma ColoringIsSafe(
      code: Code, entry: nat, g: Cfg, outs: seq<set<nat>>, total: nat, a: Allocation, problem: Problem, used: set<nat>)
    requires Allocatable(code, entry, g, a.table, total) && OwnTableIds(code, a.table) && |outs| == |g.first|
    requires ExactEdges(code, entry, g, outs, a.table, Positions(entry, |code| - 1), problem.adjacent)
    requires RecordsCalls(code, entry, g, outs, Positions(entry, |code| - 1), a.liveAtCall)
    requires problem.Valid() && ColoringOf(problem, a.reg, used)
    ensures SafeAllocation(code, entry, g, outs, a)
  {
    forall p | entry <= p < |code|
      ensures RespectsDefinition(code, entry, g, outs, a, p) && RespectsCall(code, entry, g, outs, a, p)
    {
      ColoringRespectsDefinition(code, entry, g, outs, total, a, problem, used, p);
      forall x | x in a.table && a.RegisterOf(x) >= 0 && x.id in LiveAfter(code, entry, g, outs, p)
        ensures x.id in NowAfter(code, entry, g, outs, p)
      {
        CandidateIsNow(code, entry, g, outs, a.table, p, x);
      }
    }
    forall p, x
      | 0 <= p < |code| && RedefinesVariable(code[p]) && IsLocal(code[p].dest) && x in a.table && a.RegisterOf(x) >= 0
      ensures code[p].dest.value.typ == AddrType || IdsApart(x, code[p].dest.value)
    {
      assert HasNode(a.table, x);
    }
  }

  /** From the start of the function, code and allocated code have the same effects after every number of steps. */
  ghost predicate RunsAlike(code: Code, entry: nat, a: Allocation) {
    forall m: Machine, junk: Junk, s: State, registers: Registers, n: nat ::
      m.Valid() && s.pc <= entry ==>
        SameEffects(Run(m, code, s, n), RunWith(m, a, junk, code, RegState(s, registers), n).state)
  }

  lemma SafeRunsAlike(code: Code, entry: nat, g: Cfg, ins: seq<set<nat>>, outs: seq<set<nat>>, a: Allocation)
    requires WellFormedCode(code, entry) && Placed(code, entry, g) && Covers(code, entry, g)
    requires LivenessSolution(code, g, ins, outs)
    requires |outs| == |g.first| && SafeAllocation(code, entry, g, outs, a)
    ensures AssignedFirst(code, entry, a) && LeavesSafely(code, a) ==> RunsAlike(code, entry, a)
  {
    forall m: Machine, junk: Junk, s: State, registers: Registers, n: nat
      | m.Valid() && s.pc <= entry && AssignedFirst(code, entry, a) && LeavesSafely(code, a)
      ensures SameEffects(Run(m, code, s, n), RunWith(m, a, junk, code, RegState(s, registers), n).state)
    {
      AllocationPreservesMeaning(m, code, entry, g, ins, outs, a, junk, s, registers, n);
    }
  }

  /** The graph that is built poses the problem. */
  lemma ProblemIsPosed(
      code: Code, entry: nat, g: Cfg, outs: seq<set<nat>>, start: map<Symbol, set<nat>>, builder: InterferenceBuilder,
      cost: seq<int>, problem: Problem)
    requires Placed(code, entry, g) && |outs| == |g.first| && |cost| == builder.total
    requires builder.Connected(code, entry, g, outs, start, Positions(entry, |code| - 1))
    requires problem
             == Problem(
                  builder.graph.Remaining(), builder.graph.neighborSet, cost, builder.preferred, NUM_REGISTERS)
    ensures Poses(code, entry, g, outs, builder.table, cost, builder.header, start, problem)
    ensures ExactEdges(code, entry, g, outs, builder.table, Positions(entry, |code| - 1), problem.adjacent)
    ensures problem.Valid()
  {
    hide ExactEdges, ExactPreference, builder.Connected;
    ProblemIsValid(code, entry, g, outs, start, builder, cost);
  }

  /** The interference graph and what is known of its nodes pose a colouring problem. */
  lemma ProblemIsValid(
      code: Code, entry: nat, g: Cfg, outs: seq<set<nat>>, start: map<Symbol, set<nat>>, builder: InterferenceBuilder,
      cost: seq<int>)
    requires Placed(code, entry, g) && |outs| == |g.first| && |cost| == builder.total
    requires builder.Connected(code, entry, g, outs, start, Positions(entry, |code| - 1))
    ensures builder.Valid()
    ensures ExactEdges(code, entry, g, outs, builder.table, Positions(entry, |code| - 1), builder.graph.neighborSet)
    ensures RecordsCalls(code, entry, g, outs, Positions(entry, |code| - 1), builder.liveAtCall)
    ensures ExactPreference(
              code, entry, g, outs, builder.table, builder.header, start, Positions(entry, |code| - 1),
                builder.preferred)
    ensures |builder.graph.neighborSet| == builder.total
    ensures Problem(builder.graph.Remaining(), builder.graph.neighborSet, cost, builder.preferred,
              NUM_REGISTERS).Valid()
    ensures forall u :: u in builder.graph.Remaining() <==> IsNode(builder.table, u)
    ensures NodesByType(builder.table, builder.graph.Remaining())
  {
    NodesHaveTypes(builder.table, builder.graph.Remaining());
    var ns := builder.graph.neighborSet;
    forall u: nat, v: nat | u < |ns| && v in ns[u] ensures v in builder.graph.Remaining() {
      assert InterfereSomewhere(code, entry, g, outs, builder.table, Positions(entry, |code| - 1), u, v);
    }
  }

  lemma NoRegistersSafe(
      code: Code, entry: nat, g: Cfg, outs: seq<set<nat>>, table: seq<Symbol>, total: nat, a: Allocation)
    requires Allocatable(code, entry, g, table, total) && |outs| == |g.first| && a.table == table && a.reg == []
    ensures SafeAllocation(code, entry, g, outs, a)
  {
  }

  lemma AllocatableShape(code: Code, entry: nat, g: Cfg, table: seq<Symbol>, total: nat)
    requires Allocatable(code, entry, g, table, total)
    ensures Placed(code, entry, g) && GraphShape(code, g)
  {
  }

  /**
   * The interference graph as a colouring problem: its nodes are the variables that compete, its edges are exactly the
   * interferences, and it prefers registers that callees leave alone.
   */
  ghost predicate Poses(
      code: Code, entry: nat, g: Cfg, outs: seq<set<nat>>, table: seq<Symbol>, cost: seq<int>, header: Symbol,
      entered: map<Symbol, set<nat>>, problem: Problem)
    requires Placed(code, entry, g) && |outs| == |g.first|
  {
    && problem.Valid() && problem.registers == NUM_REGISTERS && problem.cost == cost
    && (forall u :: u in problem.members <==> IsNode(table, u)) && NodesByType(table, problem.members)
    && ExactEdges(code, entry, g, outs, table, Positions(entry, |code| - 1), problem.adjacent)
    && ExactPreference(code, entry, g, outs, table, header, entered, Positions(entry, |code| - 1), problem.preferred)
  }

  /** Every variable that competes with fewer others than there are registers has a register. */
  ghost predicate LowDegreesColored(table: seq<Symbol>, problem: Problem, reg: seq<int>) {
    forall x :: x in table && Competes(x) && x.id < |problem.adjacent| && |problem.adjacent[x.id]| < NUM_REGISTERS ==>
      x.id < |reg| && 0 <= reg[x.id] < NUM_REGISTERS
  }

  lemma PosedAndColored(
      code: Code, entry: nat, g: Cfg, outs: seq<set<nat>>, table: seq<Symbol>, cost: seq<int>, header: Symbol,
      entered: map<Symbol, set<nat>>, problem: Problem, reg: seq<int>, used: set<nat>)
    requires Placed(code, entry, g) && |outs| == |g.first|
    requires Poses(code, entry, g, outs, table, cost, header, entered, problem) && ColoringOf(problem, reg, used)
    ensures LowDegreesColored(table, problem, reg)
  {
    hide ExactEdges, ExactPreference, Placed, IsNode, HeldByNeighbor, SimpleGraph;
  }

  /** A variable that competes with none gets the first register, if the function makes no call. */
  lemma LoneIsFirst(
      code: Code, entry: nat, g: Cfg, outs: seq<set<nat>>, table: seq<Symbol>, cost: seq<int>, header: Symbol,
      entered: map<Symbol, set<nat>>, problem: Problem, reg: seq<int>, used: set<nat>, x: Symbol)
    requires Placed(code, entry, g) && |outs| == |g.first|
    requires Poses(code, entry, g, outs, table, cost, header, entered, problem) && ColoringOf(problem, reg, used)
    requires x in table && Competes(x)
    requires forall y :: y in table && y != x ==> y.isFormal || y.typ == ArrayType || y.typ == AddrType
    requires forall p :: entry <= p < |code| ==> code[p].dead || code[p].op != Call
    ensures x.id < |reg| && reg[x.id] == 0
  {
    var u := x.id;
    NoNeighbors(problem, table, x);
    EveryRegisterPreferred(code, entry, g, outs, table, header, entered, problem, x);
    hide *;
    LeastOfAll(problem, reg, used, u);
  }

  lemma NoNeighbors(problem: Problem, table: seq<Symbol>, x: Symbol)
    requires problem.Valid() && NodesByType(table, problem.members) && x in table && Competes(x)
    requires forall y :: y in table && y != x ==> y.isFormal || y.typ == ArrayType || y.typ == AddrType
    ensures x.id in problem.members && x.id < |problem.adjacent| && problem.adjacent[x.id] == {}
  {
    var u := x.id;
    assert forall v :: v in problem.members ==> v == u;
    assert SimpleEdge(problem.adjacent, u, u);
    assert forall v :: v in problem.adjacent[u] ==> v in problem.members;
  }

  lemma EveryRegisterPreferred(
      code: Code, entry: nat, g: Cfg, outs: seq<set<nat>>, table: seq<Symbol>, header: Symbol,
      entered: map<Symbol, set<nat>>, problem: Problem, x: Symbol)
    requires Placed(code, entry, g) && |outs| == |g.first| && problem.Valid()
    requires ExactPreference(code, entry, g, outs, table, header, entered, Positions(entry, |code| - 1),
                             problem.preferred)
    requires x in table && Competes(x) && x.id in problem.members
    requires forall p :: entry <= p < |code| ==> code[p].dead || code[p].op != Call
    ensures forall r: nat :: r < NUM_REGISTERS ==> r in problem.preferred[x.id]
  {
    hide NowAfter, SimpleGraph;
    assert HasNode(table, x) && IsNode(table, x.id);
    forall r: nat | r < NUM_REGISTERS ensures r in problem.preferred[x.id] {
      assert !UsedAcross(code, entry, g, outs, entered, Positions(entry, |code| - 1), x.id, r);
    }
  }

  lemma LeastOfAll(p: Problem, reg: seq<int>, used: set<nat>, u: nat)
    requires p.Valid() && ColoringOf(p, reg, used) && u in p.members && u < |p.adjacent| && p.adjacent[u] == {}
    requires 0 < p.registers && u < |p.preferred| && forall r: nat :: r < p.registers ==> r in p.preferred[u]
    ensures u < |reg| && reg[u] == 0
  {
    FreeNodeIsLeast(p, reg, used, u);
    hide ColoringOf;
    assert 0 in p.preferred[u];
  }

  lemma AnalysisIsExact(
      code: Code, entry: nat, g: Cfg, table: seq<Symbol>, total: nat, ins: seq<set<nat>>, outs: seq<set<nat>>)
    requires Allocatable(code, entry, g, table, total) && 0 < total
    requires GraphShape(code, g) && HeldLiveness(code, g, total, ins, outs)
    ensures ExactLiveness(code, g, ins, outs) && LivenessSolution(code, g, ins, outs) && |outs| == |g.first|
  {
    KnownIdsFit(code, entry, table, total);
    FittingIsExact(code, g, total, ins, outs);
  }

  lemma FullIsSolution(code: Code, g: Cfg)
    requires GraphShape(code, g)
    ensures ExactLiveness(code, g, FullIns(code, g), FullOuts(code, g))
    ensures LivenessSolution(code, g, FullIns(code, g), FullOuts(code, g))
  {
    FullIsExact(code, g);
  }

  method OptimizeRegisterAllocation(
      code: Code, ghost entry: nat, g: Cfg, table: seq<Symbol>, total: nat, cost: seq<int>,
      header: Symbol, entered: map<Symbol, set<nat>>, drop: bool)
    returns (
      a: Allocation, registersUsed: set<nat>, stale: bool,
      ghost ins: seq<set<nat>>, ghost outs: seq<set<nat>>, ghost problem: Problem)
    requires Allocatable(code, entry, g, table, total) && |cost| == total
    ensures ExactLiveness(code, g, ins, outs) && |outs| == |g.first|
    ensures drop ==> !stale
    ensures a.table == table
    ensures 0 < total ==> Poses(code, entry, g, outs, table, cost, header, entered[header := {}], problem)
    ensures !stale && 0 < total ==> ColoringOf(problem, a.reg, registersUsed)
    ensures !stale && 0 < total ==> LowDegreesColored(table, problem, a.reg)
    ensures !stale && !drop && 0 < total ==> Empties(problem)
    ensures 0 == total ==> a.reg == []
    ensures !stale && OwnTableIds(code, table) ==> SafeAllocation(code, entry, g, outs, a)
    ensures !stale && OwnTableIds(code, table) && AssignedFirst(code, entry, a) && LeavesSafely(code, a) ==>
              RunsAlike(code, entry, a)
  {
    hide WellFormedCode, Covers, KnownOperands, OwnTableIds, SafeAllocation, LeavesSafely, HeldLiveness, IdsFit;
    hide GraphShape, ExactLiveness, LivenessSolution, Empties, HasLayers, Poses, Problem.Valid, TableOk, HasNode;
    hide LowDegreesColored;
    hide AssignedFirst, RunsAlike, ExactEdges, ExactPreference, RecordsCalls, ColoringOf, TableFits;
    hide InterferenceBuilder.Valid, InterferenceGraph.Valid, SimpleGraph;
    AllocatableShape(code, entry, g, table, total);
    problem := Problem({}, [], [], [], NUM_REGISTERS);
    if total > 0 {
      var analysis := new LivenessAnalysis(total);
      analysis.FindInAndOutLivenessSets(code, g);
      ins, outs := analysis.ins, analysis.outs;
      AnalysisIsExact(code, entry, g, table, total, ins, outs);
      var builder := new InterferenceBuilder(table, total, header, entered, |code|);
      builder.CreateInterferenceGraph();
      ghost var start := builder.entered;
      builder.CreateConnections(code, g, analysis.outs, entry);
      ProblemIsValid(code, entry, g, outs, start, builder, cost);
      var pass := new ColoringPass(builder.graph, cost, builder.preferred);
      problem := pass.TheProblem();
      ProblemIsPosed(code, entry, g, outs, start, builder, cost, problem);
      stale := pass.ColorGraph(drop);
      a, registersUsed := Allocation(table, pass.reg, builder.liveAtCall), pass.registersUsed;
      if !stale {
        PosedAndColored(
          code, entry, g, outs, table, cost, header, entered[header := {}], problem, a.reg, registersUsed);
      }
      if !stale && OwnTableIds(code, table) {
        ColoringIsSafe(code, entry, g, outs, total, a, problem, registersUsed);
      }
    } else {
      a, registersUsed, stale := Allocation(table, [], []), {}, false;
      ins, outs := FullIns(code, g), FullOuts(code, g);
      FullIsSolution(code, g);
      NoRegistersSafe(code, entry, g, outs, table, total, a);
    }
    if !stale && OwnTableIds(code, table) {
      SafeRunsAlike(code, entry, g, ins, outs, a);
    }
  }
}
