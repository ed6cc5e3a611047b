/**
 * The interference graph in terms of the code: two variables compete where one of them is assigned while the value of
 * the other one is used along a way (create_interference_graph_connections, code_optimization.c).
 */
module InterferenceWays {
  import opened Instructions
  import opened ControlFlow
  import opened Liveness
  import opened LiveWays
  import opened Interference
  import opened RegisterAllocation
  import opened RegisterMachine
  import opened Coloring
  import opened Peephole
  import opened CopyPropagation
  import opened DeadCode
  import opened CodeOptimization

  /** A live assignment of a variable with the id `v` to itself, with nothing in front of it that sets the id. */
  ghost predicate NullReadAt(code: Code, p: nat, q: nat, v: nat) {
    && p <= q < |code| && !code[q].dead && IsNullAssignment(code[q]) && v in DefinedIds(code[q])
    && forall r :: p <= r < q ==> code[r].dead || v !in DefinedIds(code[r])
  }

  ghost predicate NullRead(code: Code, p: nat, end: nat, v: nat) {
    exists q: nat :: q <= end && NullReadAt(code, p, q, v)
  }

  lemma NowBeforeIsLive(i: Instruction, now: set<nat>, live: set<nat>, v: nat)
    requires WellFormed(i) && NoAddress(i, v) && !i.dead && !IsNullAssignment(i)
    ensures v in NowBefore(i, now) <==> v in ReadIds(i) || (v in now && v !in DefinedIds(i))
    ensures v in LiveBefore(i, live) <==> v in ReadIds(i) || (v in live && v !in DefinedIds(i))
  {
  }

  lemma NowBeforeNull(i: Instruction, now: set<nat>, live: set<nat>, v: nat)
    requires WellFormed(i) && NoAddress(i, v) && (i.dead || IsNullAssignment(i))
    ensures v in NowBefore(i, now) <==> v in now || (!i.dead && v in DefinedIds(i))
    ensures LiveBefore(i, live) == live
  {
    if !i.dead && i.src1.Some? && i.dest == i.src1 && i.dest.value.typ != AddrType && i.dest.value.scope == Local {
      assert IsLocal(i.src1);
    }
  }

  /** live_now holds what is live, and what a live assignment of a variable to itself reads further on in the block. */
  lemma {:induction false} NowExactly(code: Code, p: nat, end: nat, out: set<nat>, v: nat)
    requires end < |code| && forall q :: p <= q <= end ==> NoAddress(code[q], v) && WellFormed(code[q])
    ensures v in NowAt(code, p, end, out) <==>
            v in LiveAt(code, p, end, out) || NullRead(code, p, end, v)
    decreases end + 1 - p
  {
    hide *;
    if p <= end {
      WellFormedHere(code, p, end, v);
      NowExactly(code, p + 1, end, out, v);
      NullReadStep(code, p, end, v);
      NowUnfolds(code, p, end, out);
      if code[p].dead || IsNullAssignment(code[p]) {
        NowBeforeNull(code[p], NowAt(code, p + 1, end, out), LiveAt(code, p + 1, end, out), v);
      } else {
        NowBeforeIsLive(code[p], NowAt(code, p + 1, end, out), LiveAt(code, p + 1, end, out), v);
      }
    } else {
      NowEnds(code, p, end, out, v);
    }
  }

  lemma WellFormedHere(code: Code, p: nat, end: nat, v: nat)
    requires p <= end < |code| && forall q :: p <= q <= end ==> NoAddress(code[q], v) && WellFormed(code[q])
    ensures NoAddress(code[p], v) && WellFormed(code[p])
    ensures forall q :: p + 1 <= q <= end ==> NoAddress(code[q], v) && WellFormed(code[q])
  {
    hide NoAddress, WellFormed;
  }

  lemma NowUnfolds(code: Code, p: nat, end: nat, out: set<nat>)
    requires p <= end < |code|
    ensures NowAt(code, p, end, out) == NowBefore(code[p], NowAt(code, p + 1, end, out))
    ensures LiveAt(code, p, end, out) == LiveBefore(code[p], LiveAt(code, p + 1, end, out))
  {
    hide NowBefore, LiveBefore;
  }

  lemma NowEnds(code: Code, p: nat, end: nat, out: set<nat>, v: nat)
    requires end < p && end < |code|
    ensures NowAt(code, p, end, out) == out == LiveAt(code, p, end, out)
    ensures !NullRead(code, p, end, v)
  {
  }


  lemma NullReadStep(code: Code, p: nat, end: nat, v: nat)
    requires p <= end < |code|
    ensures NullRead(code, p, end, v) <==>
            || (!code[p].dead && IsNullAssignment(code[p]) && v in DefinedIds(code[p]))
            || ((code[p].dead || v !in DefinedIds(code[p])) && NullRead(code, p + 1, end, v))
  {
    hide IsNullAssignment, DefinedIds;
    var n := p + 1;
    if q: nat :| q <= end && NullReadAt(code, p, q, v) && q != p {
      assert NullReadAt(code, n, q, v);
    }
    if !code[p].dead && IsNullAssignment(code[p]) && v in DefinedIds(code[p]) {
      assert NullReadAt(code, p, p, v);
    }
    if q: nat :| q <= end && NullReadAt(code, n, q, v) && (code[p].dead || v !in DefinedIds(code[p])) {
      assert NullReadAt(code, p, q, v);
    }
  }

  // ---------------------------------------------------------------- the graph

  /** Nothing assigns a variable to itself any more: peephole optimization and dead code elimination see to that. */
  ghost predicate NoNullAssignments(code: Code) {
    forall p :: 0 <= p < |code| ==> code[p].dead || !IsNullAssignment(code[p])
  }

  lemma NowIsUsed(code: Code, entry: nat, g: Cfg, table: seq<Symbol>, total: nat, p: nat, v: nat)
    requires Allocatable(code, entry, g, table, total) && Traces(code, g) && NoNullAssignments(code)
    requires |FullOuts(code, g)| == |g.first| && IsNode(table, v) && entry <= p < |code| && !IsJump(code[p])
    ensures v in NowAfter(code, entry, g, FullOuts(code, g), p) <==> UsedAlong(code, p + 1, v)
  {
    hide *;
    NodesHoldNoAddress(code, entry, g, table, total, v);
    BlockOf(code, entry, g, table, total, p);
    var b := g.blockOf[p].value;
    NowExactly(code, p + 1, End(g, b), FullOuts(code, g)[b], v);
    NoneIsRead(code, p + 1, End(g, b), v);
    LiveExactly(code, entry, g, p, v);
    BehindInBlock(code, entry, g, FullOuts(code, g), p);
  }

  lemma NodesHoldNoAddress(code: Code, entry: nat, g: Cfg, table: seq<Symbol>, total: nat, v: nat)
    requires Allocatable(code, entry, g, table, total) && IsNode(table, v)
    ensures forall q :: 0 <= q < |code| ==> NoAddress(code[q], v) && WellFormed(code[q])
    ensures WellFormedCode(code, entry) && Placed(code, entry, g) && Covers(code, entry, g)
  {
    var x :| HasNode(table, x) && x.id == v;
    hide WellFormed, Placed, Covers;
    forall q | 0 <= q < |code| ensures NoAddress(code[q], v) && WellFormed(code[q]) {
      assert Known(table, code[q].dest) && Known(table, code[q].src1) && Known(table, code[q].src2);
    }
  }

  lemma BlockOf(code: Code, entry: nat, g: Cfg, table: seq<Symbol>, total: nat, p: nat)
    requires Allocatable(code, entry, g, table, total) && entry <= p < |code|
    ensures |g.blockOf| == |code| && g.blockOf[p].Some? && g.blockOf[p].value < |g.first| == |g.last|
    ensures End(g, g.blockOf[p].value) < |code| && GraphShape(code, g)
  {
    hide WellFormedCode, Covers, TableFits, KnownOperands;
  }

  lemma NoneIsRead(code: Code, p: nat, end: nat, v: nat)
    requires NoNullAssignments(code)
    ensures !NullRead(code, p, end, v)
  {
  }

  lemma BehindInBlock(code: Code, entry: nat, g: Cfg, outs: seq<set<nat>>, p: nat)
    requires Placed(code, entry, g) && |outs| == |g.first| && entry <= p < |code|
    ensures var b := g.blockOf[p].value;
      && NowAfter(code, entry, g, outs, p) == NowAt(code, p + 1, End(g, b), outs[b])
      && LiveAfter(code, entry, g, outs, p) == LiveAt(code, p + 1, End(g, b), outs[b])
  {
  }

  /** Is the variable with the id `u` assigned where the value of the one with the id `v` is used further on? */
  ghost predicate AssignedWhileUsed(code: Code, entry: nat, table: seq<Symbol>, u: nat, v: nat) {
    exists p :: AssignsWhileUsed(code, entry, table, p, u, v)
  }

  ghost predicate AssignsWhileUsed(code: Code, entry: nat, table: seq<Symbol>, p: nat, u: nat, v: nat) {
    && entry <= p < |code| && !code[p].dead && code[p].dest.Some? && code[p].dest.value in table
    && !code[p].dest.value.isFormal && code[p].dest.value.id == u && UsedAlong(code, p + 1, v)
  }

  /** Two nodes interfere exactly if one variable is assigned where the value of the other one is used further on. */
  lemma InterferenceIsUse(code: Code, entry: nat, g: Cfg, table: seq<Symbol>, total: nat, u: nat, v: nat)
    requires Allocatable(code, entry, g, table, total) && Traces(code, g) && NoNullAssignments(code)
    requires Placed(code, entry, g) && |FullOuts(code, g)| == |g.first| && IsNode(table, u) && IsNode(table, v)
    ensures InterfereSomewhere(code, entry, g, FullOuts(code, g), table, Positions(entry, |code| - 1), u, v) <==>
            u != v && (AssignedWhileUsed(code, entry, table, u, v) || AssignedWhileUsed(code, entry, table, v, u))
  {
    var outs, done := FullOuts(code, g), Positions(entry, |code| - 1);
    hide Allocatable, Traces, FullOuts, Placed, Interfere, AssignsWhileUsed, IsNode;
    forall p: nat
      ensures Interfere(code, entry, g, outs, table, p, u, v) <==>
              u != v && (AssignsWhileUsed(code, entry, table, p, u, v) || AssignsWhileUsed(code, entry, table, p, v, u))
    {
      InterferesHere(code, entry, g, table, total, p, u, v);
    }
    if InterfereSomewhere(code, entry, g, outs, table, done, u, v) {
      var p :| p in done && Interfere(code, entry, g, outs, table, p, u, v);
    }
    forall p: nat | Interfere(code, entry, g, outs, table, p, u, v) ensures p in done {
      InCode(code, entry, g, outs, table, p, u, v);
    }
  }

  lemma InCode(code: Code, entry: nat, g: Cfg, outs: seq<set<nat>>, table: seq<Symbol>, p: nat, u: nat, v: nat)
    requires Placed(code, entry, g) && |outs| == |g.first| && Interfere(code, entry, g, outs, table, p, u, v)
    ensures entry <= p < |code|
  {
  }

  lemma InterferesHere(
      code: Code, entry: nat, g: Cfg, table: seq<Symbol>, total: nat, p: nat, u: nat, v: nat)
    requires Allocatable(code, entry, g, table, total) && Traces(code, g) && NoNullAssignments(code)
    requires Placed(code, entry, g) && |FullOuts(code, g)| == |g.first| && IsNode(table, u) && IsNode(table, v)
    ensures Interfere(code, entry, g, FullOuts(code, g), table, p, u, v) <==>
            u != v && (AssignsWhileUsed(code, entry, table, p, u, v) || AssignsWhileUsed(code, entry, table, p, v, u))
  {
    if entry <= p < |code| && !code[p].dead && code[p].dest.Some? {
      DestinationIsNode(code, entry, g, table, total, p, u);
      DestinationIsNode(code, entry, g, table, total, p, v);
      NowIsUsed(code, entry, g, table, total, p, u);
      NowIsUsed(code, entry, g, table, total, p, v);
    }
    hide Allocatable, Traces, FullOuts, Placed, NowAfter, UsedAlong, IsNode, HasNode;
  }

  /** A destination with the id of a node is its variable. */
  lemma DestinationIsNode(code: Code, entry: nat, g: Cfg, table: seq<Symbol>, total: nat, p: nat, u: nat)
    requires Allocatable(code, entry, g, table, total) && IsNode(table, u)
    requires entry <= p < |code| && code[p].dest.Some?
    ensures !IsJump(code[p])
    ensures HasNode(table, code[p].dest.value) && code[p].dest.value.id == u <==>
            code[p].dest.value in table && !code[p].dest.value.isFormal && code[p].dest.value.id == u
  {
    var x :| HasNode(table, x) && x.id == u;
    assert WellFormed(code[p]);
    hide Placed, Covers, KnownOperands, WellFormedCode;
  }

  // ---------------------------------------------------------------- after the other passes

  /** Copy propagation leaves no live assignment of a variable to itself. */
  lemma CopiesLeaveNoNull(code: Code, code': Code, start: nat, q: nat)
    requires q < |code| == |code'| && start <= q && CopiesUsedAt(code, code', start, q) && WellFormed(code[q])
    ensures code'[q].dead || !IsNullAssignment(code'[q])
  {
    var i, i' := code[q], code'[q];
    if !i'.dead && IsNullAssignment(i') {
      var x, y := i.dest.value, i.src1.value;
      assert OperandReplaced(code', start, q + 1, i.src1, i'.src1);
      if HoldsCopy(code', start, q + 1, y, x) {
        HeldBefore(code', start, q, y, x);
      }
    }
  }

  /** A copy in force behind an assignment of its original was not made before it. */
  lemma HeldBefore(code: Code, start: nat, q: nat, y: Symbol, x: Symbol)
    requires start <= q < |code| && HoldsCopy(code, start, q + 1, y, x) && !code[q].dead && code[q].dest == Some(x)
    ensures code[q].src1 == Some(x) && y == x
  {
    var n := q + 1;
    var p :| start <= p && CopiedAt(code, p, n, y, x);
    assert p == q;
  }

  lemma PassesLeaveNoNull(
      start: Code, peepholed: Code, propagated: Code, code: Code, entry: nat, g: Cfg, total: nat, localEnabled: bool,
      globalEnabled: bool)
    requires Optimized(start, peepholed, propagated, code, entry, g, total, localEnabled, globalEnabled)
    requires WellFormedCode(start, entry) && (localEnabled || globalEnabled)
    ensures NoNullAssignments(code)
  {
    forall p | 0 <= p < |code| ensures code[p].dead || !IsNullAssignment(code[p]) {
      OneLeavesNoNull(start, peepholed, propagated, code, entry, g, total, localEnabled, globalEnabled, p);
    }
  }

  lemma OneLeavesNoNull(
      start: Code, peepholed: Code, propagated: Code, code: Code, entry: nat, g: Cfg, total: nat, localEnabled: bool,
      globalEnabled: bool, p: nat)
    requires Optimized(start, peepholed, propagated, code, entry, g, total, localEnabled, globalEnabled)
    requires WellFormedCode(start, entry) && (localEnabled || globalEnabled)
    requires p < |code|
    ensures code[p].dead || !IsNullAssignment(code[p])
  {
    hide WellFormed, GraphOf, IsUseful, CopiesUsedAt, NoCopyIsRead, RulesAppliedAt;
    if localEnabled {
      SameOperation(start, peepholed, p);
    }
    if localEnabled && entry <= p {
      BlockStarts(peepholed, entry, g, p);
      RulesKeepWellFormed(start, peepholed, entry, p);
      CopiesLeaveNoNull(peepholed, propagated, g.first[g.blockOf[p].value], p);
    }
  }

  lemma BlockStarts(code: Code, entry: nat, g: Cfg, p: nat)
    requires Placed(code, entry, g) && entry <= p < |code|
    ensures g.blockOf[p].Some? && g.blockOf[p].value < |g.first| && g.first[g.blockOf[p].value] <= p
  {
    hide WellFormed;
  }

  lemma RulesKeepWellFormed(code: Code, code': Code, entry: nat, p: nat)
    requires WellFormedCode(code, entry) && RulesApplied(code, code') && p < |code|
    ensures WellFormed(code'[p])
  {
    assert RulesAppliedAt(code, code', p) && WellFormed(code[p]);
    assert p + 1 < |code| ==> WellFormed(code[p + 1]);
    hide RulesApplied, WellFormedCode, DiesByRule;
  }

  /**
   * The interference graph that the optimizer colours: two of its nodes are adjacent exactly if in the final code
   * one variable is assigned where the value of the other one is used further on.
   */
  lemma AdjacentIsUse(
      start: Code, peepholed: Code, propagated: Code, code: Code, entry: nat, g: Cfg, table: seq<Symbol>, total: nat,
      cost: seq<int>, header: Symbol, entered: map<Symbol, set<nat>>, localEnabled: bool, globalEnabled: bool,
      a: Allocation, problem: Problem, used: set<nat>, u: nat, v: nat)
    requires Optimized(start, peepholed, propagated, code, entry, g, total, localEnabled, globalEnabled)
    requires WellFormedCode(start, entry) && (localEnabled || globalEnabled)
    requires Prepared(code, entry, g, table, total) && 0 < total
    requires RegistersAssigned(code, entry, g, table, total, cost, header, entered, a, problem, used)
    requires u in problem.members && v in problem.members
    ensures u < |problem.adjacent|
    ensures v in problem.adjacent[u] <==>
            u != v && (AssignedWhileUsed(code, entry, table, u, v) || AssignedWhileUsed(code, entry, table, v, u))
  {
    hide *;
    PassesLeaveNoNull(start, peepholed, propagated, code, entry, g, total, localEnabled, globalEnabled);
    PreparedShape(code, entry, g, table, total);
    MembersAreNodes(code, entry, g, table, total, cost, header, entered, a, problem, used, u, v);
    InterferenceIsUse(code, entry, g, table, total, u, v);
  }

  lemma MembersAreNodes(
      code: Code, entry: nat, g: Cfg, table: seq<Symbol>, total: nat, cost: seq<int>, header: Symbol,
      entered: map<Symbol, set<nat>>, a: Allocation, problem: Problem, used: set<nat>, u: nat, v: nat)
    requires 0 < total && RegistersAssigned(code, entry, g, table, total, cost, header, entered, a, problem, used)
    requires u in problem.members && v in problem.members
    ensures Placed(code, entry, g) && |FullOuts(code, g)| == |g.first| && u < |problem.adjacent|
    ensures IsNode(table, u) && IsNode(table, v)
    ensures v in problem.adjacent[u] <==>
            InterfereSomewhere(code, entry, g, FullOuts(code, g), table, Positions(entry, |code| - 1), u, v)
  {
    hide Placed, ExactPreference, InterfereSomewhere, FullOuts, IsNode, ColoringOf, LowDegreesColored, Positions;
  }
}
