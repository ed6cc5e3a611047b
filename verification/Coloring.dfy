/**
 * The stages of color_graph (code_optimization.c), as values: which nodes are left
 * in the graph, which ones wait to be coloured or spilled, and what has been assigned.
 */
module Coloring {
  import opened Graphs

  const NUM_REGISTERS: nat := 16

  /** What the colouring is given: the graph's edges, and each node's cost and preferred registers. */
  datatype Problem = Problem(
    members: set<nat>,
    adjacent: seq<set<nat>>,
    cost: seq<int>,
    preferred: seq<set<nat>>,
    registers: nat)
  {
    ghost predicate Valid() {
      && SimpleGraph(adjacent) && |cost| == |preferred| == |adjacent|
      && (forall u :: u in members ==> u < |adjacent|)
      && (forall u :: 0 <= u < |adjacent| ==> adjacent[u] <= members)
    }
  }

  datatype Stage = Stage(
    graph: set<nat>,      // nodes still in the graph
    toSpill: set<nat>,    // nodes_to_spill
    toColor: set<nat>,    // the nodes in the heap of nodes to colour
    spillHeap: set<nat>,  // the nodes in the heap of nodes to spill
    reg: seq<int>,        // -1 where no register is assigned
    avoid: seq<set<nat>>, // regs_to_avoid
    used: set<nat>,       // registers_used of the function
    spilled: set<nat>,    // nodes removed without a register
    ordered: bool)        // is the heap of nodes to colour in heap order?

  function Registers(k: nat): (s: set<nat>)
    ensures |s| == k && forall r :: r in s <==> 0 <= r < k
  {
    if k == 0 then {} else Registers(k - 1) + {k - 1}
  }

  /** The registers to choose from: the preferred ones, if one of them is free. */
  function Choices(k: nat, avoid: set<nat>, preferred: set<nat>): set<nat> {
    var free := Registers(k) - avoid;
    if free * preferred != {} then free * preferred else free
  }

  /** The least register of `s` from `r` on, or -1. */
  function LeastFrom(k: nat, s: set<nat>, r: nat): (least: int)
    ensures least == -1 || (r <= least < k && least in s)
    ensures forall q :: r <= q < k && q in s ==> 0 <= least <= q
    decreases k - r
  {
    if r >= k then -1 else if r in s then r else LeastFrom(k, s, r + 1)
  }

  function PickRegister(k: nat, avoid: set<nat>, preferred: set<nat>): int {
    LeastFrom(k, Choices(k, avoid, preferred), 0)
  }

  /** Every smaller register is to be avoided, or is not preferred while `r` is. */
  ghost predicate IsLeast(avoid: set<nat>, preferred: set<nat>, r: int) {
    forall q: nat :: q < r ==> q in avoid || (r in preferred && q !in preferred)
  }

  /**
   * A register is picked whenever one is free, a preferred one whenever a preferred one is free, and the least
   * of those.
   */
  lemma PickMeaning(k: nat, avoid: set<nat>, preferred: set<nat>)
    ensures var r := PickRegister(k, avoid, preferred);
      && (r == -1 <==> Registers(k) <= avoid)
      && (r != -1 ==> 0 <= r < k && r !in avoid)
      && (!(Registers(k) * preferred <= avoid) ==> r in preferred)
      && IsLeast(avoid, preferred, r)
  {
    var free := Registers(k) - avoid;
    if free != {} {
      var q :| q in Choices(k, avoid, preferred);
      assert q < k;
    }
    if !(Registers(k) * preferred <= avoid) {
      assert free * preferred != {};
    }
  }

  ghost function Degree(p: Problem, st: Stage, u: nat): nat
    requires u < |p.adjacent|
  {
    |p.adjacent[u] * st.graph|
  }

  /** The neighbours in the graph that have as many neighbours as there are registers: losing one promotes them. */
  ghost function Promoted(p: Problem, st: Stage, u: nat): set<nat>
    requires p.Valid() && u < |p.adjacent|
  {
    set v | v in p.adjacent[u] && v in st.graph && Degree(p, st, v) == p.registers
  }

  ghost function Start(p: Problem): Stage
    requires p.Valid()
  {
    var few := set u | u in p.members && |p.adjacent[u]| < p.registers;
    Stage(p.members, p.members - few, few, p.members - few,
          seq(|p.adjacent|, _ => -1), seq(|p.adjacent|, _ => {}), {}, {}, true)
  }

  ghost function AvoidWith(avoid: seq<set<nat>>, nodes: set<nat>, r: int): (avoid': seq<set<nat>>)
    ensures |avoid'| == |avoid|
  {
    seq(|avoid|, v requires 0 <= v < |avoid| => if r >= 0 && v in nodes then avoid[v] + {r} else avoid[v])
  }

  /** Colours `u` and takes it out of the graph. */
  ghost function Colored(p: Problem, st: Stage, u: nat): Stage
    requires p.Valid() && u < |p.adjacent| == |st.reg| == |st.avoid|
  {
    var r := PickRegister(p.registers, st.avoid[u], p.preferred[u]);
    st.(graph := st.graph - {u},
        toSpill := st.toSpill - Promoted(p, st, u),
        toColor := st.toColor - {u} + Promoted(p, st, u),
        reg := st.reg[u := r],
        avoid := AvoidWith(st.avoid, p.adjacent[u] * st.graph, r),
        used := if r >= 0 then st.used + {r} else st.used,
        ordered := true)
  }

  /**
   * Takes `u` out of the graph without a register. The heap of nodes to colour is not
   * put in order again. `drop` says whether promoted nodes leave nodes_to_spill, as they
   * do when a node is coloured; the code does not do that.
   */
  ghost function Spilled(p: Problem, st: Stage, u: nat, drop: bool): Stage
    requires p.Valid() && u < |p.adjacent|
  {
    st.(graph := st.graph - {u},
        toSpill := if drop then st.toSpill - Promoted(p, st, u) else st.toSpill,
        toColor := st.toColor + Promoted(p, st, u),
        spillHeap := st.spillHeap - {u},
        spilled := st.spilled + {u},
        ordered := false)
  }

  // ---------------------------------------------------------------- what every stage keeps

  /** The sets of nodes are where they belong. */
  ghost predicate WellPlaced(p: Problem, st: Stage)
    requires p.Valid()
  {
    && st.graph <= p.members && st.toColor <= st.graph && st.spillHeap <= p.members
    && st.spilled <= p.members - st.graph && st.spillHeap !! st.spilled
    && |st.reg| == |st.avoid| == |p.adjacent|
  }

  /** A node in the graph waits in one place: to be coloured if its degree is low, else to be spilled. */
  ghost predicate Waits(p: Problem, st: Stage, u: nat)
    requires p.Valid() && u < |p.adjacent|
  {
    && (u in st.graph ==> (u in st.toColor <==> Degree(p, st, u) < p.registers))
    && (u in st.graph && Degree(p, st, u) >= p.registers ==> u in st.toSpill && u in st.spillHeap)
    && (u in st.spillHeap || u in st.spilled ==> |p.adjacent[u]| >= p.registers)
  }

  /** A node that may be picked for spilling has high degree in the graph, or lost a neighbour to spilling. */
  ghost predicate Spillable(p: Problem, st: Stage, u: nat, drop: bool)
    requires p.Valid() && u < |p.adjacent|
  {
    u in st.toSpill && u in st.spillHeap ==>
      || (u in st.graph && Degree(p, st, u) >= p.registers)
      || (!drop && p.adjacent[u] * st.spilled != {})
  }

  /**
   * Registers to avoid are at most as many as neighbours have left the graph, and include those of
   * coloured neighbours.
   */
  ghost predicate Avoids(p: Problem, st: Stage, v: nat)
    requires p.Valid() && v < |p.adjacent| == |st.avoid| == |st.reg|
  {
    v in st.graph ==>
      && st.avoid[v] <= Registers(p.registers)
      && |st.avoid[v]| + Degree(p, st, v) <= |p.adjacent[v]|
      && (forall u :: u in p.adjacent[v] && u !in st.graph && st.reg[u] >= 0 ==> st.reg[u] in st.avoid[v])
  }

  /** Only registers of neighbours are avoided. */
  ghost predicate AvoidsOnly(p: Problem, st: Stage, v: nat, r: nat)
    requires p.Valid() && v < |p.adjacent| == |st.avoid| == |st.reg|
  {
    r in st.avoid[v] ==> HeldByNeighbor(p, st.reg, v, r)
  }

  ghost predicate HeldByNeighbor(p: Problem, reg: seq<int>, v: nat, r: nat)
    requires v < |p.adjacent|
  {
    exists w :: w in p.adjacent[v] && w < |reg| && reg[w] == r
  }

  /** A node has a register only after it was coloured, and then the one that was to be picked. */
  ghost predicate AssignedRight(p: Problem, st: Stage, u: nat)
    requires p.Valid() && u < |p.adjacent| == |st.avoid| == |st.reg|
  {
    if u in p.members && u !in st.graph && u !in st.spilled then
      && st.reg[u] == PickRegister(p.registers, st.avoid[u], p.preferred[u])
      && (|p.adjacent[u]| < p.registers ==> st.reg[u] >= 0)
    else st.reg[u] == -1
  }

  /** Neighbours that have both left the graph do not share a register. */
  ghost predicate Proper(p: Problem, st: Stage, u: nat, v: nat)
    requires p.Valid() && u < |p.adjacent| == |st.reg|
  {
    v in p.adjacent[u] && u !in st.graph && v !in st.graph && st.reg[u] >= 0 ==> st.reg[u] != st.reg[v]
  }

  ghost predicate UsedExactly(st: Stage) {
    forall r: nat :: r in st.used <==> exists u :: 0 <= u < |st.reg| && st.reg[u] == r
  }

  ghost predicate Invariant(p: Problem, st: Stage, drop: bool)
    requires p.Valid()
  {
    && WellPlaced(p, st)
    && (forall u :: 0 <= u < |p.adjacent| ==> Waits(p, st, u))
    && (forall u :: 0 <= u < |p.adjacent| ==> Spillable(p, st, u, drop))
    && (forall u :: 0 <= u < |p.adjacent| ==> Avoids(p, st, u))
    && (forall u :: 0 <= u < |p.adjacent| ==> AssignedRight(p, st, u))
    && (forall u: nat, r: nat :: u < |p.adjacent| ==> AvoidsOnly(p, st, u, r))
    && (forall u: nat, v: nat :: u < |p.adjacent| ==> Proper(p, st, u, v))
    && UsedExactly(st)
  }

  lemma InvariantIsPlaced(p: Problem, st: Stage, drop: bool)
    requires p.Valid() && Invariant(p, st, drop)
    ensures WellPlaced(p, st)
  {
  }

  lemma StartInvariant(p: Problem, drop: bool)
    requires p.Valid()
    ensures Invariant(p, Start(p), drop)
  {
    var st := Start(p);
    forall u | 0 <= u < |p.adjacent|
      ensures Waits(p, st, u) && Spillable(p, st, u, drop) && Avoids(p, st, u) && AssignedRight(p, st, u)
    {
      assert p.adjacent[u] * p.members == p.adjacent[u];
    }
    assert UsedExactly(st);
  }

  /** Removing `u` lowers the degree of its neighbours by one and of no other node. */
  lemma DegreeAfter(p: Problem, st: Stage, st': Stage, u: nat, v: nat)
    requires p.Valid() && u in st.graph && v < |p.adjacent| && u < |p.adjacent| && st'.graph == st.graph - {u}
    ensures Degree(p, st', v) == if v in p.adjacent[u] then Degree(p, st, v) - 1 else Degree(p, st, v)
    ensures v in p.adjacent[u] <==> u in p.adjacent[v]
  {
    assert SimpleEdge(p.adjacent, u, v) && SimpleEdge(p.adjacent, v, u);
    if v in p.adjacent[u] {
      assert p.adjacent[v] * st'.graph == p.adjacent[v] * st.graph - {u};
    } else {
      assert p.adjacent[v] * st'.graph == p.adjacent[v] * st.graph;
    }
  }

  // ---------------------------------------------------------------- colouring a node

  /** So it is with the register of a node that is coloured. */
  lemma LeastIsTaken(p: Problem, st: Stage, u: nat)
    requires p.Valid() && WellPlaced(p, st) && u in st.toColor
    ensures u < |p.adjacent| && u < |Colored(p, st, u).reg|
    ensures IsLeast(st.avoid[u], p.preferred[u], Colored(p, st, u).reg[u])
  {
    PickMeaning(p.registers, st.avoid[u], p.preferred[u]);
    hide Promoted;
  }

  lemma ColoredWaits(p: Problem, st: Stage, u: nat, v: nat)
    requires p.Valid() && WellPlaced(p, st) && u in st.toColor && u < |p.adjacent| && v < |p.adjacent|
    requires Waits(p, st, v)
    ensures Waits(p, Colored(p, st, u), v)
  {
    DegreeAfter(p, st, Colored(p, st, u), u, v);
  }

  lemma ColoredSpillable(p: Problem, st: Stage, u: nat, v: nat, drop: bool)
    requires p.Valid() && WellPlaced(p, st) && u in st.toColor && u < |p.adjacent| && v < |p.adjacent|
    requires Waits(p, st, u) && Spillable(p, st, v, drop)
    ensures Spillable(p, Colored(p, st, u), v, drop)
  {
    DegreeAfter(p, st, Colored(p, st, u), u, v);
  }

  lemma ColoredAvoids(p: Problem, st: Stage, u: nat, v: nat)
    requires p.Valid() && WellPlaced(p, st) && u in st.toColor && u < |p.adjacent| && v < |p.adjacent|
    requires Avoids(p, st, v)
    ensures Avoids(p, Colored(p, st, u), v)
  {
    var st' := Colored(p, st, u);
    PickMeaning(p.registers, st.avoid[u], p.preferred[u]);
    DegreeAfter(p, st, st', u, v);
  }

  /** A node of low original degree finds a free register. */
  lemma LowDegreeIsColored(p: Problem, st: Stage, u: nat)
    requires p.Valid() && WellPlaced(p, st) && u in st.graph && u < |p.adjacent| && Avoids(p, st, u)
    requires |p.adjacent[u]| < p.registers
    ensures PickRegister(p.registers, st.avoid[u], p.preferred[u]) >= 0
  {
    PickMeaning(p.registers, st.avoid[u], p.preferred[u]);
    assert st.avoid[u] != Registers(p.registers);
  }

  lemma ColoredAssigned(p: Problem, st: Stage, u: nat, v: nat)
    requires p.Valid() && WellPlaced(p, st) && u in st.toColor && u < |p.adjacent| && v < |p.adjacent|
    requires Avoids(p, st, u) && AssignedRight(p, st, v)
    ensures AssignedRight(p, Colored(p, st, u), v)
  {
    if |p.adjacent[u]| < p.registers {
      LowDegreeIsColored(p, st, u);
    }
    assert SimpleEdge(p.adjacent, u, u);
  }

  lemma ColoredProper(p: Problem, st: Stage, u: nat, v: nat, w: nat)
    requires p.Valid() && WellPlaced(p, st) && u in st.toColor && u < |p.adjacent| && v < |p.adjacent|
    requires Avoids(p, st, u) && Proper(p, st, v, w)
    ensures Proper(p, Colored(p, st, u), v, w)
  {
    PickMeaning(p.registers, st.avoid[u], p.preferred[u]);
    assert SimpleEdge(p.adjacent, v, w);
  }

  lemma ColoredAvoidsOnly(p: Problem, st: Stage, u: nat, v: nat, r: nat)
    requires p.Valid() && WellPlaced(p, st) && u in st.toColor && u < |p.adjacent| && v < |p.adjacent|
    requires st.reg[u] == -1 && AvoidsOnly(p, st, v, r)
    ensures AvoidsOnly(p, Colored(p, st, u), v, r)
  {
    var st' := Colored(p, st, u);
    assert SimpleEdge(p.adjacent, u, v);
    if r in st.avoid[v] {
      var w :| w in p.adjacent[v] && w < |st.reg| && st.reg[w] == r;
      assert st'.reg[w] == r;
    } else if r in st'.avoid[v] {
      assert st'.reg[u] == r && u in p.adjacent[v];
    }
  }

  lemma ColoredUsed(p: Problem, st: Stage, u: nat)
    requires p.Valid() && WellPlaced(p, st) && u in st.toColor && u < |p.adjacent|
    requires UsedExactly(st) && st.reg[u] == -1
    ensures UsedExactly(Colored(p, st, u))
  {
    var st' := Colored(p, st, u);
    forall r: nat ensures r in st'.used <==> exists v :: 0 <= v < |st'.reg| && st'.reg[v] == r {
      if r in st.used {
        var v :| 0 <= v < |st.reg| && st.reg[v] == r;
        assert st'.reg[v] == r;
      }
      if r == st'.reg[u] {
        assert st'.reg[u] == r;
      }
    }
  }

  lemma ColoredInvariant(p: Problem, st: Stage, u: nat, drop: bool)
    requires p.Valid() && Invariant(p, st, drop) && u in st.toColor
    ensures u < |p.adjacent| && Invariant(p, Colored(p, st, u), drop)
  {
    var st' := Colored(p, st, u);
    assert Waits(p, st, u) && Avoids(p, st, u) && AssignedRight(p, st, u);
    forall v | 0 <= v < |p.adjacent|
      ensures Waits(p, st', v) && Spillable(p, st', v, drop) && Avoids(p, st', v) && AssignedRight(p, st', v)
    {
      ColoredWaits(p, st, u, v);
      ColoredSpillable(p, st, u, v, drop);
      ColoredAvoids(p, st, u, v);
      ColoredAssigned(p, st, u, v);
    }
    forall v: nat, w: nat | v < |p.adjacent| ensures Proper(p, st', v, w) && AvoidsOnly(p, st', v, w) {
      ColoredProper(p, st, u, v, w);
      ColoredAvoidsOnly(p, st, u, v, w);
    }
    ColoredUsed(p, st, u);
  }

  // ---------------------------------------------------------------- spilling a node

  lemma SpilledWaits(p: Problem, st: Stage, u: nat, v: nat, drop: bool)
    requires p.Valid() && WellPlaced(p, st) && u in st.graph && u < |p.adjacent| && v < |p.adjacent|
    requires Waits(p, st, u) && Waits(p, st, v) && u !in st.toColor
    ensures Waits(p, Spilled(p, st, u, drop), v)
  {
    DegreeAfter(p, st, Spilled(p, st, u, drop), u, v);
  }

  lemma SpilledSpillable(p: Problem, st: Stage, u: nat, v: nat, drop: bool)
    requires p.Valid() && WellPlaced(p, st) && u in st.graph && u < |p.adjacent| && v < |p.adjacent|
    requires Spillable(p, st, v, drop)
    ensures Spillable(p, Spilled(p, st, u, drop), v, drop)
  {
    var st' := Spilled(p, st, u, drop);
    DegreeAfter(p, st, st', u, v);
    if u in p.adjacent[v] {
      assert u in p.adjacent[v] * st'.spilled;
    }
    assert p.adjacent[v] * st.spilled <= p.adjacent[v] * st'.spilled;
  }

  lemma SpilledRest(p: Problem, st: Stage, u: nat, v: nat, w: nat, drop: bool)
    requires p.Valid() && WellPlaced(p, st) && u in st.graph && u < |p.adjacent| && v < |p.adjacent|
    requires Avoids(p, st, v) && AssignedRight(p, st, v) && AssignedRight(p, st, u)
    requires Proper(p, st, v, w)
    ensures var st' := Spilled(p, st, u, drop);
            Avoids(p, st', v) && AssignedRight(p, st', v) && Proper(p, st', v, w)
  {
    DegreeAfter(p, st, Spilled(p, st, u, drop), u, v);
    assert SimpleEdge(p.adjacent, v, w);
  }

  lemma SpilledInvariant(p: Problem, st: Stage, u: nat, drop: bool)
    requires p.Valid() && Invariant(p, st, drop) && u in st.graph && u !in st.toColor
    ensures u < |p.adjacent| && Invariant(p, Spilled(p, st, u, drop), drop)
  {
    var st' := Spilled(p, st, u, drop);
    assert Waits(p, st, u) && AssignedRight(p, st, u) && SimpleEdge(p.adjacent, u, u);
    forall v | 0 <= v < |p.adjacent| ensures Waits(p, st', v) && Spillable(p, st', v, drop) {
      SpilledWaits(p, st, u, v, drop);
      SpilledSpillable(p, st, u, v, drop);
    }
    forall v: nat, w: nat | v < |p.adjacent|
      ensures Avoids(p, st', v) && AssignedRight(p, st', v) && Proper(p, st', v, w) && AvoidsOnly(p, st', v, w)
    {
      SpilledRest(p, st, u, v, w, drop);
      assert AvoidsOnly(p, st, v, w);
    }
    forall v: nat | v < |p.adjacent| ensures Avoids(p, st', v) && AssignedRight(p, st', v) {
      SpilledRest(p, st, u, v, 0, drop);
    }
    assert UsedExactly(st');
  }

  lemma DiscardedInvariant(p: Problem, st: Stage, u: nat, drop: bool)
    requires p.Valid() && Invariant(p, st, drop) && u in st.spillHeap && u !in st.toSpill
    ensures Invariant(p, st.(spillHeap := st.spillHeap - {u}), drop)
  {
    var st' := st.(spillHeap := st.spillHeap - {u});
    forall v | 0 <= v < |p.adjacent|
      ensures Waits(p, st', v) && Spillable(p, st', v, drop) && Avoids(p, st', v) && AssignedRight(p, st', v)
    {
      assert Waits(p, st, v) && Spillable(p, st, v, drop) && Avoids(p, st, v) && AssignedRight(p, st, v);
    }
    forall v: nat, w: nat | v < |p.adjacent| ensures Proper(p, st', v, w) && AvoidsOnly(p, st', v, w) {
      assert Proper(p, st, v, w) && AvoidsOnly(p, st, v, w);
    }
    assert UsedExactly(st');
  }

  // ---------------------------------------------------------------- runs

  ghost predicate HighestCost(p: Problem, nodes: set<nat>, u: nat) {
    u in nodes && forall v :: v in nodes && u < |p.cost| && v < |p.cost| ==> p.cost[v] <= p.cost[u]
  }

  ghost predicate LowestCost(p: Problem, nodes: set<nat>, u: nat) {
    u in nodes && forall v :: v in nodes && u < |p.cost| && v < |p.cost| ==> p.cost[u] <= p.cost[v]
  }

  /** A node to colour is taken: one of highest cost, if the heap is in order. */
  ghost predicate ColorsNext(p: Problem, st: Stage, u: nat) {
    && u in st.toColor && u < |p.adjacent| == |st.reg| == |st.avoid|
    && (st.ordered ==> HighestCost(p, st.toColor, u))
  }

  /** A node is taken from the heap of nodes to spill: one of lowest cost, when nothing is left to colour. */
  ghost predicate PopsNext(p: Problem, st: Stage, u: nat) {
    st.graph != {} && st.toColor == {} && LowestCost(p, st.spillHeap, u) && u < |p.adjacent|
  }

  /** The node taken for spilling left the graph before: the code would use its list entry after freeing it. */
  ghost predicate Stale(p: Problem, st: Stage, u: nat) {
    PopsNext(p, st, u) && u in st.toSpill && u !in st.graph
  }

  /** One step from `st` to `st'` that takes `u`. */
  ghost predicate Takes(p: Problem, st: Stage, u: nat, st': Stage, drop: bool)
    requires p.Valid()
  {
    || (ColorsNext(p, st, u) && st' == Colored(p, st, u))
    || (PopsNext(p, st, u) && u !in st.toSpill && st' == st.(spillHeap := st.spillHeap - {u}))
    || (PopsNext(p, st, u) && u in st.toSpill && u in st.graph && st' == Spilled(p, st, u, drop))
  }

  ghost predicate Follows(p: Problem, st: Stage, st': Stage, drop: bool)
    requires p.Valid()
  {
    exists u :: Takes(p, st, u, st', drop)
  }

  /** Can the stage be reached from the start? */
  ghost predicate IsRun(p: Problem, run: seq<Stage>, drop: bool)
    requires p.Valid()
  {
    && 0 < |run| && run[0] == Start(p)
    && forall i :: 0 <= i < |run| - 1 ==> Follows(p, run[i], run[i + 1], drop)
  }

  ghost predicate Reachable(p: Problem, st: Stage, drop: bool)
    requires p.Valid()
  {
    exists run :: IsRun(p, run, drop) && run[|run| - 1] == st
  }

  lemma ReachesStart(p: Problem, drop: bool)
    requires p.Valid()
    ensures Reachable(p, Start(p), drop)
  {
    var run := [Start(p)];
    assert IsRun(p, run, drop) && run[|run| - 1] == Start(p);
  }

  lemma ReachesNext(p: Problem, st: Stage, u: nat, st': Stage, drop: bool)
    requires p.Valid() && Reachable(p, st, drop) && Takes(p, st, u, st', drop)
    ensures Reachable(p, st', drop)
  {
    var run :| IsRun(p, run, drop) && run[|run| - 1] == st;
    var run' := run + [st'];
    assert Follows(p, st, st', drop);
    assert IsRun(p, run', drop) && run'[|run'| - 1] == st';
  }

  lemma TakesInvariant(p: Problem, st: Stage, u: nat, st': Stage, drop: bool)
    requires p.Valid() && Invariant(p, st, drop) && Takes(p, st, u, st', drop)
    ensures Invariant(p, st', drop)
  {
    hide Invariant, Colored, Spilled;
    if ColorsNext(p, st, u) && st' == Colored(p, st, u) {
      ColoredInvariant(p, st, u, drop);
    } else if u !in st.toSpill {
      DiscardedInvariant(p, st, u, drop);
    } else {
      SpilledInvariant(p, st, u, drop);
    }
  }

  /** The last step of a run. */
  lemma LastStep(p: Problem, run: seq<Stage>, drop: bool) returns (x: nat)
    requires p.Valid() && IsRun(p, run, drop) && |run| > 1
    ensures var n := |run| - 1; IsRun(p, run[..n], drop) && Takes(p, run[n - 1], x, run[n], drop)
  {
    var n := |run| - 1;
    assert Follows(p, run[n - 1], run[n], drop);
    hide Takes;
    x :| Takes(p, run[n - 1], x, run[n], drop);
  }

  lemma OneStage(p: Problem, run: seq<Stage>, drop: bool)
    requires p.Valid() && IsRun(p, run, drop) && |run| == 1
    ensures run[0] == Start(p)
  {
  }

  lemma RunTo(p: Problem, st: Stage, drop: bool) returns (run: seq<Stage>)
    requires p.Valid() && Reachable(p, st, drop)
    ensures IsRun(p, run, drop) && 0 < |run| && run[|run| - 1] == st
  {
    run :| IsRun(p, run, drop) && run[|run| - 1] == st;
  }

  lemma {:induction false} RunInvariant(p: Problem, run: seq<Stage>, drop: bool)
    requires p.Valid() && 0 < |run| && IsRun(p, run, drop)
    ensures Invariant(p, run[|run| - 1], drop)
    decreases |run|
  {
    hide *;
    var n := |run| - 1;
    if n == 0 {
      OneStage(p, run, drop);
      StartInvariant(p, drop);
    } else {
      var x := LastStep(p, run, drop);
      RunInvariant(p, run[..n], drop);
      TakesInvariant(p, run[n - 1], x, run[n], drop);
    }
  }

  /** Every reachable stage keeps the invariant. */
  lemma ReachableInvariant(p: Problem, st: Stage, drop: bool)
    requires p.Valid() && Reachable(p, st, drop)
    ensures Invariant(p, st, drop)
  {
    var run := RunTo(p, st, drop);
    RunInvariant(p, run, drop);
  }

  /** While the graph is not empty a node can be taken, and whatever is taken, graph and heap only shrink. */
  lemma Progress(p: Problem, st: Stage, drop: bool)
    requires p.Valid() && Reachable(p, st, drop) && st.graph != {}
    ensures st.toColor != {} || st.spillHeap != {}
    ensures forall u, st' :: Takes(p, st, u, st', drop) ==>
              st'.graph < st.graph || (st'.graph == st.graph && st'.spillHeap < st.spillHeap)
  {
    ReachableInvariant(p, st, drop);
    var u :| u in st.graph;
    assert Waits(p, st, u);
  }

  /** When promoted nodes are dropped from nodes_to_spill, no stale node is ever taken. */
  lemma DroppingPreventsStale(p: Problem, st: Stage, u: nat)
    requires p.Valid() && Reachable(p, st, true)
    ensures !Stale(p, st, u)
  {
    ReachableInvariant(p, st, true);
    if u < |p.adjacent| {
      assert Spillable(p, st, u, true);
    }
  }

  /** A node that is spilled has the least cost of all nodes that are left in the graph. */
  lemma SpilledHasLowestCost(p: Problem, st: Stage, u: nat, drop: bool)
    requires p.Valid() && Reachable(p, st, drop) && PopsNext(p, st, u) && u in st.graph
    ensures LowestCost(p, st.graph, u)
  {
    ReachableInvariant(p, st, drop);
    forall v | v in st.graph ensures v in st.spillHeap {
      assert Waits(p, st, v);
    }
  }

  /** What the colouring achieves once the graph is empty. */
  ghost predicate ColoringOf(p: Problem, reg: seq<int>, used: set<nat>)
    requires p.Valid()
  {
    && |reg| == |p.adjacent|
    // registers in range, none where there is no node
    && (forall u :: 0 <= u < |reg| ==> -1 <= reg[u] < p.registers && (u !in p.members ==> reg[u] == -1))
    // adjacent nodes do not share a register
    && (forall u, v :: 0 <= u < |reg| && v in p.adjacent[u] && reg[u] >= 0 ==> v < |reg| && reg[u] != reg[v])
    // a node with fewer neighbours than there are registers gets one
    && (forall u :: u in p.members && |p.adjacent[u]| < p.registers ==> reg[u] >= 0)
    // a register is a preferred one if the neighbours leave a preferred one free
    && (forall u: nat, r: nat :: u < |reg| && reg[u] >= 0 && r < p.registers && r in p.preferred[u] ==>
          reg[u] in p.preferred[u] || HeldByNeighbor(p, reg, u, r))
    // it is the least one: the neighbours hold the smaller ones, or these are not preferred and it is
    && (forall u: nat, r: nat :: u < |reg| && r < reg[u] ==>
          HeldByNeighbor(p, reg, u, r) || (reg[u] in p.preferred[u] && r !in p.preferred[u]))
    // the registers of the function are the ones assigned
    && (forall r: nat :: r in used <==> exists u :: 0 <= u < |reg| && reg[u] == r)
  }

  /** A node without neighbours gets the least of its preferred registers, or register 0 if it prefers none. */
  lemma FreeNodeIsLeast(p: Problem, reg: seq<int>, used: set<nat>, u: nat)
    requires p.Valid() && ColoringOf(p, reg, used) && u in p.members && p.adjacent[u] == {} && 0 < p.registers
    ensures u < |reg| && 0 <= reg[u] < p.registers
    ensures (forall r: nat :: r < p.registers ==> r !in p.preferred[u]) ==> reg[u] == 0
    ensures (exists r: nat :: r < p.registers && r in p.preferred[u]) ==>
              reg[u] in p.preferred[u] && forall r: nat :: r in p.preferred[u] ==> reg[u] <= r
  {
    assert |p.adjacent[u]| < p.registers;
    forall r: nat | r < reg[u] ensures reg[u] in p.preferred[u] && r !in p.preferred[u] {
      assert !HeldByNeighbor(p, reg, u, r);
    }
    forall r: nat | r < p.registers && r in p.preferred[u] ensures reg[u] in p.preferred[u] {
      assert !HeldByNeighbor(p, reg, u, r);
    }
    assert reg[u] > 0 ==> 0 !in p.preferred[u];
  }

  lemma EmptyGraphIsColored(p: Problem, st: Stage, drop: bool)
    requires p.Valid() && Reachable(p, st, drop) && st.graph == {}
    ensures ColoringOf(p, st.reg, st.used)
  {
    ReachableInvariant(p, st, drop);
    forall u | 0 <= u < |st.reg|
      ensures -1 <= st.reg[u] < p.registers && (u !in p.members ==> st.reg[u] == -1)
      ensures u in p.members && |p.adjacent[u]| < p.registers ==> st.reg[u] >= 0
    {
      assert AssignedRight(p, st, u) && Waits(p, st, u);
      PickMeaning(p.registers, st.avoid[u], p.preferred[u]);
    }
    forall u: nat, r: nat | u < |st.reg| && st.reg[u] >= 0 && r < p.registers && r in p.preferred[u]
      ensures st.reg[u] in p.preferred[u] || HeldByNeighbor(p, st.reg, u, r)
    {
      assert AssignedRight(p, st, u) && AvoidsOnly(p, st, u, r);
      PickMeaning(p.registers, st.avoid[u], p.preferred[u]);
    }
    forall u: nat, r: nat | u < |st.reg| && r < st.reg[u]
      ensures HeldByNeighbor(p, st.reg, u, r) || (st.reg[u] in p.preferred[u] && r !in p.preferred[u])
    {
      assert AssignedRight(p, st, u) && AvoidsOnly(p, st, u, r);
      PickMeaning(p.registers, st.avoid[u], p.preferred[u]);
    }
    forall u, v | 0 <= u < |st.reg| && v in p.adjacent[u] && st.reg[u] >= 0
      ensures v < |st.reg| && st.reg[u] != st.reg[v] {
      assert Proper(p, st, u, v) && SimpleEdge(p.adjacent, u, v);
    }
  }
}
