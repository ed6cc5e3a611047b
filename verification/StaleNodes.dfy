/**
 * When a node is taken for spilling that has left the graph. Where a node is spilled, the neighbours
 * that this promotes stay in nodes_to_spill (color_graph, code_optimization.c).
 */
module StaleNodes {
  import opened Graphs
  import opened Coloring

  // ---------------------------------------------------------------- conditions on the graph

  /** Nodes that all have as many neighbours among each other as there are registers. */
  ghost predicate Core(p: Problem, s: set<nat>)
    requires p.Valid()
  {
    && s != {} && s <= p.members
    && forall v :: v in s ==> v < |p.adjacent| && |p.adjacent[v] * s| >= p.registers
  }

  /**
   * Spilling `u` from the core `c` promotes its neighbour `w`, and another core is left to spill from.
   */
  ghost predicate Layers(p: Problem, c: set<nat>, d: set<nat>, u: nat, w: nat)
    requires p.Valid()
  {
    && Core(p, c) && Core(p, d) && u in c && d <= c - {u}
    && w in c && w in p.adjacent[u] && |p.adjacent[w] * c| == p.registers
  }

  ghost predicate HasLayers(p: Problem)
    requires p.Valid()
  {
    exists c, d, u, w :: Layers(p, c, d, u, w)
  }

  // ---------------------------------------------------------------- what a stale node needs

  /** When nothing is left to colour, the graph is a core. */
  lemma GraphIsCore(p: Problem, st: Stage, drop: bool)
    requires p.Valid() && Invariant(p, st, drop) && st.toColor == {} && st.graph != {}
    ensures Core(p, st.graph)
  {
    forall v | v in st.graph ensures v < |p.adjacent| && |p.adjacent[v] * st.graph| >= p.registers {
      assert Waits(p, st, v);
    }
  }

  /** The node `w` was promoted when `u` was spilled from the core `c`. */
  ghost predicate PromotedFrom(p: Problem, st: Stage, w: nat, c: set<nat>, u: nat)
    requires p.Valid()
  {
    && Core(p, c) && u in c && st.graph <= c - {u}
    && w in c && w in p.adjacent[u] && |p.adjacent[w] * c| == p.registers
  }

  /** The node waits to be spilled although it is not in the graph with high degree any more. */
  ghost predicate LeftBehind(p: Problem, st: Stage, w: nat)
    requires p.Valid()
  {
    w < |p.adjacent| && w in st.toSpill && w in st.spillHeap && !(w in st.graph && Degree(p, st, w) >= p.registers)
  }

  ghost predicate Explained(p: Problem, st: Stage)
    requires p.Valid()
  {
    forall w: nat :: LeftBehind(p, st, w) ==> exists c, u :: PromotedFrom(p, st, w, c, u)
  }

  lemma StartExplained(p: Problem)
    requires p.Valid()
    ensures Explained(p, Start(p))
  {
    forall w: nat ensures !LeftBehind(p, Start(p), w) {
      if w in p.members {
        assert p.adjacent[w] * p.members == p.adjacent[w];
      }
    }
  }

  lemma FewerPromotedFrom(p: Problem, st: Stage, st': Stage, w: nat)
    requires p.Valid() && st'.graph <= st.graph && exists c, u :: PromotedFrom(p, st, w, c, u)
    ensures exists c, u :: PromotedFrom(p, st', w, c, u)
  {
    var c, u :| PromotedFrom(p, st, w, c, u);
    assert PromotedFrom(p, st', w, c, u);
  }

  lemma ColoredExplained(p: Problem, st: Stage, x: nat)
    requires p.Valid() && Invariant(p, st, false) && Explained(p, st) && x in st.toColor && x < |p.adjacent|
    ensures Explained(p, Colored(p, st, x))
  {
    var st' := Colored(p, st, x);
    forall w: nat | LeftBehind(p, st', w) ensures exists c, u :: PromotedFrom(p, st', w, c, u) {
      DegreeAfter(p, st, st', x, w);
      assert Waits(p, st, x);
      assert LeftBehind(p, st, w);
      FewerPromotedFrom(p, st, st', w);
    }
  }

  lemma SpilledExplained(p: Problem, st: Stage, x: nat)
    requires p.Valid() && Invariant(p, st, false) && Explained(p, st) && PopsNext(p, st, x) && x in st.graph
    ensures Explained(p, Spilled(p, st, x, false))
  {
    var st' := Spilled(p, st, x, false);
    GraphIsCore(p, st, false);
    forall w: nat | LeftBehind(p, st', w) ensures exists c, u :: PromotedFrom(p, st', w, c, u) {
      DegreeAfter(p, st, st', x, w);
      if LeftBehind(p, st, w) {
        FewerPromotedFrom(p, st, st', w);
      } else {
        assert PromotedFrom(p, st', w, st.graph, x);
      }
    }
  }

  lemma TakesExplained(p: Problem, st: Stage, x: nat, st': Stage)
    requires p.Valid() && Invariant(p, st, false) && Explained(p, st) && Takes(p, st, x, st', false)
    ensures Explained(p, st')
  {
    if ColorsNext(p, st, x) && st' == Colored(p, st, x) {
      ColoredExplained(p, st, x);
    } else if x !in st.toSpill {
      forall w: nat | LeftBehind(p, st', w) ensures exists c, u :: PromotedFrom(p, st', w, c, u) {
        assert LeftBehind(p, st, w);
        FewerPromotedFrom(p, st, st', w);
      }
    } else {
      SpilledExplained(p, st, x);
    }
  }

  lemma {:induction false} RunExplained(p: Problem, run: seq<Stage>)
    requires p.Valid() && 0 < |run| && IsRun(p, run, false)
    ensures Explained(p, run[|run| - 1])
    decreases |run|
  {
    hide *;
    var n := |run| - 1;
    if n == 0 {
      OneStage(p, run, false);
      StartExplained(p);
    } else {
      var x := LastStep(p, run, false);
      RunExplained(p, run[..n]);
      RunInvariant(p, run[..n], false);
      TakesExplained(p, run[n - 1], x, run[n]);
    }
  }

  /** A stale node was promoted from a core by spilling, and what is left in the graph is a core. */
  lemma StaleHasLayers(p: Problem, st: Stage, w: nat)
    requires p.Valid() && Reachable(p, st, false) && Stale(p, st, w)
    ensures HasLayers(p)
  {
    var run := RunTo(p, st, false);
    RunExplained(p, run);
    RunInvariant(p, run, false);
    assert LeftBehind(p, st, w);
    var c, u :| PromotedFrom(p, st, w, c, u);
    GraphIsCore(p, st, false);
    assert Layers(p, c, st.graph, u, w);
  }

  // ---------------------------------------------------------------- where a stale node cannot be avoided

  /** What is outside the core is cheapest, then come `u` and `w`, then the rest of the core. */
  ghost predicate CostsTrap(p: Problem, c: set<nat>, u: nat, w: nat)
    requires p.Valid()
  {
    && u < |p.cost| && w < |p.cost| && p.cost[u] < p.cost[w]
    && (forall v :: v in p.members && v !in c ==> p.cost[v] < p.cost[u])
    && (forall v :: v in c && v != u && v != w && v < |p.cost| ==> p.cost[w] < p.cost[v])
  }

  /** A trap: layers in the graph, and costs that lead into them. */
  ghost predicate IsTrap(p: Problem, c: set<nat>, d: set<nat>, u: nat, w: nat)
    requires p.Valid()
  {
    Layers(p, c, d, u, w) && CostsTrap(p, c, u, w)
  }

  /** The node `w` has been left behind, and all that is left besides is a core and the rest of `c`. */
  ghost predicate Left(p: Problem, st: Stage, c: set<nat>, d: set<nat>, u: nat, w: nat)
    requires p.Valid()
  {
    d <= st.graph <= c - {u} && st.spillHeap <= c - {u} && LeftBehind(p, st, w)
  }

  /** The core is still in the graph, or `w` has been left behind. */
  ghost predicate Trapped(p: Problem, st: Stage, c: set<nat>, d: set<nat>, u: nat, w: nat)
    requires p.Valid()
  {
    c <= st.graph || Left(p, st, c, d, u, w)
  }

  /** A core is not coloured. */
  lemma CoreStays(p: Problem, st: Stage, s: set<nat>, x: nat)
    requires p.Valid() && Invariant(p, st, false) && Core(p, s) && s <= st.graph && x in st.toColor
    ensures x !in s
  {
    if x in s {
      assert Waits(p, st, x);
      CoreDegree(p, st, s, x);
      assert false;
    }
  }

  lemma CoreDegree(p: Problem, st: Stage, s: set<nat>, x: nat)
    requires p.Valid() && Core(p, s) && s <= st.graph && x in s
    ensures x < |p.adjacent| && Degree(p, st, x) >= p.registers
  {
    SubsetSize(p.adjacent[x] * s, p.adjacent[x] * st.graph);
  }

  lemma SubsetSize(a: set<nat>, b: set<nat>)
    requires a <= b
    ensures |a| <= |b|
  {
    assert |b - a| + |a| == |b| by {
      assert b - a + a == b;
    }
  }

  lemma ColoredLeft(p: Problem, st: Stage, c: set<nat>, d: set<nat>, u: nat, w: nat, x: nat)
    requires p.Valid() && Left(p, st, c, d, u, w) && WellPlaced(p, st)
    requires x in st.toColor && x < |p.adjacent| && x !in d
    ensures Left(p, Colored(p, st, x), c, d, u, w)
  {
    DegreeAfter(p, st, Colored(p, st, x), x, w);
  }

  lemma ColoredTrapped(p: Problem, st: Stage, c: set<nat>, d: set<nat>, u: nat, w: nat, x: nat)
    requires p.Valid() && Core(p, c) && Core(p, d) && Invariant(p, st, false) && Trapped(p, st, c, d, u, w)
    requires x in st.toColor && x < |p.adjacent|
    ensures |p.adjacent| == |st.reg| == |st.avoid| && Trapped(p, Colored(p, st, x), c, d, u, w)
  {
    hide *;
    StagePlaced(p, st);
    if c <= st.graph {
      CoreStays(p, st, c, x);
      StillWhole(p, st, Colored(p, st, x), c, d, u, w, x);
    } else {
      LeftStays(p, st, c, d, u, w);
      CoreStays(p, st, d, x);
      ColoredLeft(p, st, c, d, u, w, x);
      LeftIsTrapped(p, Colored(p, st, x), c, d, u, w);
    }
  }

  lemma StagePlaced(p: Problem, st: Stage)
    requires p.Valid() && Invariant(p, st, false)
    ensures WellPlaced(p, st) && |p.adjacent| == |st.reg| == |st.avoid|
    ensures forall x: nat :: x < |p.adjacent| ==> Colored(p, st, x).graph == st.graph - {x}
    ensures forall x: nat :: x < |p.adjacent| ==> Spilled(p, st, x, false).graph == st.graph - {x}
  {
  }

  lemma StillWhole(p: Problem, st: Stage, st': Stage, c: set<nat>, d: set<nat>, u: nat, w: nat, x: nat)
    requires p.Valid() && c <= st.graph && x !in c && st'.graph == st.graph - {x}
    ensures Trapped(p, st', c, d, u, w)
  {
  }

  lemma LeftIsTrapped(p: Problem, st: Stage, c: set<nat>, d: set<nat>, u: nat, w: nat)
    requires p.Valid() && Left(p, st, c, d, u, w)
    ensures Trapped(p, st, c, d, u, w)
  {
  }

  lemma LeftStays(p: Problem, st: Stage, c: set<nat>, d: set<nat>, u: nat, w: nat)
    requires p.Valid() && Trapped(p, st, c, d, u, w) && !(c <= st.graph)
    ensures Left(p, st, c, d, u, w) && d <= st.graph
  {
  }

  /** The first node of the core to be spilled is `u`. */
  lemma FirstOfCore(p: Problem, st: Stage, c: set<nat>, u: nat, w: nat, x: nat)
    requires p.Valid() && Core(p, c) && u in c && CostsTrap(p, c, u, w) && Invariant(p, st, false) && c <= st.graph
    requires PopsNext(p, st, x) && x in c
    ensures x == u && st.graph == c && st.spillHeap <= c
  {
    assert Waits(p, st, u);
    assert p.cost[x] <= p.cost[u];
    forall v | v in st.spillHeap ensures v in c {
      assert p.cost[x] <= p.cost[v];
    }
    forall v | v in st.graph ensures v in c {
      assert Waits(p, st, v);
    }
  }

  /** Spilling `u` leaves `w` behind. */
  lemma SpillingLeaves(p: Problem, st: Stage, c: set<nat>, d: set<nat>, u: nat, w: nat)
    requires p.Valid() && Layers(p, c, d, u, w) && WellPlaced(p, st) && Waits(p, st, w)
    requires st.graph == c && st.spillHeap <= c
    ensures Left(p, Spilled(p, st, u, false), c, d, u, w)
  {
    DegreeAfter(p, st, Spilled(p, st, u, false), u, w);
    assert SimpleEdge(p.adjacent, u, w);
  }

  /** Once `w` has been left behind, no other node is spilled before it is taken. */
  lemma NoneSpilled(p: Problem, st: Stage, c: set<nat>, d: set<nat>, u: nat, w: nat, x: nat)
    requires p.Valid() && Left(p, st, c, d, u, w) && CostsTrap(p, c, u, w) && Invariant(p, st, false)
    requires c <= p.members && PopsNext(p, st, x)
    ensures x !in st.graph
  {
    assert Waits(p, st, w);
    assert p.cost[x] <= p.cost[w];
  }

  lemma SpilledTrapped(p: Problem, st: Stage, c: set<nat>, d: set<nat>, u: nat, w: nat, x: nat)
    requires p.Valid() && Layers(p, c, d, u, w) && CostsTrap(p, c, u, w) && Invariant(p, st, false)
    requires Trapped(p, st, c, d, u, w) && PopsNext(p, st, x) && x in st.graph
    ensures x < |p.adjacent| && Trapped(p, Spilled(p, st, x, false), c, d, u, w)
  {
    hide *;
    StagePlaced(p, st);
    LayersParts(p, st, c, d, u, w, x);
    if c <= st.graph {
      if x in c {
        FirstOfCore(p, st, c, u, w, x);
        NodeWaits(p, st, w);
        SpillingLeaves(p, st, c, d, u, w);
        LeftIsTrapped(p, Spilled(p, st, x, false), c, d, u, w);
      } else {
        StillWhole(p, st, Spilled(p, st, x, false), c, d, u, w, x);
      }
    } else {
      LeftStays(p, st, c, d, u, w);
      NoneSpilled(p, st, c, d, u, w, x);
    }
  }

  lemma LayersParts(p: Problem, st: Stage, c: set<nat>, d: set<nat>, u: nat, w: nat, x: nat)
    requires p.Valid() && Layers(p, c, d, u, w) && PopsNext(p, st, x)
    ensures Core(p, c) && Core(p, d) && u in c && w in c && c <= p.members && w < |p.adjacent| && x < |p.adjacent|
    ensures c != {} && d != {}
  {
  }

  lemma NodeWaits(p: Problem, st: Stage, w: nat)
    requires p.Valid() && Invariant(p, st, false) && w < |p.adjacent|
    ensures Waits(p, st, w)
  {
  }

  lemma DiscardedTrapped(p: Problem, st: Stage, c: set<nat>, d: set<nat>, u: nat, w: nat, x: nat)
    requires p.Valid() && Trapped(p, st, c, d, u, w) && x !in st.toSpill
    ensures Trapped(p, st.(spillHeap := st.spillHeap - {x}), c, d, u, w)
  {
  }

  lemma TakesTrapped(p: Problem, st: Stage, c: set<nat>, d: set<nat>, u: nat, w: nat, x: nat, st': Stage)
    requires p.Valid() && IsTrap(p, c, d, u, w) && Invariant(p, st, false)
    requires Trapped(p, st, c, d, u, w) && Takes(p, st, x, st', false)
    ensures Trapped(p, st', c, d, u, w)
  {
    hide Invariant, Colored, Spilled, CostsTrap, Core, Trapped;
    if ColorsNext(p, st, x) && st' == Colored(p, st, x) {
      ColoredTrapped(p, st, c, d, u, w, x);
    } else if x in st.toSpill {
      SpilledTrapped(p, st, c, d, u, w, x);
    } else {
      DiscardedTrapped(p, st, c, d, u, w, x);
    }
  }

  lemma StartTrapped(p: Problem, c: set<nat>, d: set<nat>, u: nat, w: nat)
    requires p.Valid() && IsTrap(p, c, d, u, w)
    ensures Trapped(p, Start(p), c, d, u, w)
  {
  }

  lemma {:induction false} RunTrapped(p: Problem, run: seq<Stage>, c: set<nat>, d: set<nat>, u: nat, w: nat)
    requires p.Valid() && IsTrap(p, c, d, u, w) && 0 < |run| && IsRun(p, run, false)
    ensures Trapped(p, run[|run| - 1], c, d, u, w)
    decreases |run|
  {
    hide *;
    var n := |run| - 1;
    if n == 0 {
      OneStage(p, run, false);
      StartTrapped(p, c, d, u, w);
    } else {
      var x := LastStep(p, run, false);
      RunTrapped(p, run[..n], c, d, u, w);
      RunInvariant(p, run[..n], false);
      TakesTrapped(p, run[n - 1], c, d, u, w, x, run[n]);
    }
  }

  lemma LayersCore(p: Problem, c: set<nat>, d: set<nat>, u: nat, w: nat)
    requires p.Valid() && IsTrap(p, c, d, u, w)
    ensures Core(p, c) && c != {} && d != {}
  {
  }

  /** The graph can be emptied, as colouring has to do. */
  ghost predicate Empties(p: Problem)
    requires p.Valid()
  {
    exists st :: Reachable(p, st, false) && st.graph == {}
  }

  /** With such costs no run empties the graph. */
  lemma TrapIsKept(p: Problem, c: set<nat>, d: set<nat>, u: nat, w: nat)
    requires p.Valid() && IsTrap(p, c, d, u, w)
    ensures !Empties(p)
  {
    forall st | Reachable(p, st, false) ensures st.graph != {} {
      StaysTrapped(p, st, c, d, u, w);
    }
    hide Reachable;
  }

  lemma StaysTrapped(p: Problem, st: Stage, c: set<nat>, d: set<nat>, u: nat, w: nat)
    requires p.Valid() && IsTrap(p, c, d, u, w) && Reachable(p, st, false)
    ensures st.graph != {}
  {
    hide *;
    var run := RunTo(p, st, false);
    LayersCore(p, c, d, u, w);
    RunTrapped(p, run, c, d, u, w);
    TrappedIsSome(p, st, c, d, u, w);
  }

  lemma TrappedIsSome(p: Problem, st: Stage, c: set<nat>, d: set<nat>, u: nat, w: nat)
    requires p.Valid() && Trapped(p, st, c, d, u, w) && c != {} && d != {}
    ensures st.graph != {}
  {
  }

  // ---------------------------------------------------------------- exactly which graphs

  lemma {:induction false} ExtremeOf(p: Problem, nodes: set<nat>) returns (low: nat, high: nat)
    requires nodes != {} && forall u :: u in nodes ==> u < |p.cost|
    ensures LowestCost(p, nodes, low) && HighestCost(p, nodes, high)
    decreases nodes
  {
    low :| low in nodes;
    high := low;
    if nodes != {low} {
      var l, h := ExtremeOf(p, nodes - {low});
      high := if p.cost[low] < p.cost[h] then h else low;
      low := if p.cost[l] < p.cost[low] then l else low;
    }
  }

  /** Some run takes a stale node. */
  ghost predicate CanGoStale(p: Problem)
    requires p.Valid()
  {
    exists st, w :: Reachable(p, st, false) && Stale(p, st, w)
  }

  /** The run goes on until the graph is empty or a stale node is taken. */
  lemma {:induction false} GoesOn(p: Problem, st: Stage)
    requires p.Valid() && Reachable(p, st, false)
    ensures Empties(p) || CanGoStale(p)
    decreases |st.graph|, |st.spillHeap|
  {
    ReachableInvariant(p, st, false);
    if st.graph != {} {
      Progress(p, st, false);
      if st.toColor != {} {
        var low, high := ExtremeOf(p, st.toColor);
        var st' := Colored(p, st, high);
        assert Takes(p, st, high, st', false);
        ReachesNext(p, st, high, st', false);
        Smaller(st.graph, high);
        GoesOn(p, st');
      } else {
        var low, high := ExtremeOf(p, st.spillHeap);
        PopGoesOn(p, st, low);
        if low !in st.toSpill {
          Smaller(st.spillHeap, low);
          GoesOn(p, st.(spillHeap := st.spillHeap - {low}));
        } else if low in st.graph {
          Smaller(st.graph, low);
          GoesOn(p, Spilled(p, st, low, false));
        }
      }
    }
  }

  lemma PopGoesOn(p: Problem, st: Stage, x: nat)
    requires p.Valid() && Reachable(p, st, false) && PopsNext(p, st, x)
    ensures x !in st.toSpill ==> Reachable(p, st.(spillHeap := st.spillHeap - {x}), false)
    ensures x in st.toSpill && x in st.graph ==> Reachable(p, Spilled(p, st, x, false), false)
    ensures x in st.toSpill && x !in st.graph ==> CanGoStale(p)
  {
    if x !in st.toSpill {
      ReachesNext(p, st, x, st.(spillHeap := st.spillHeap - {x}), false);
    } else if x in st.graph {
      ReachesNext(p, st, x, Spilled(p, st, x, false), false);
    } else {
      assert Stale(p, st, x);
    }
  }

  lemma Smaller(s: set<nat>, x: nat)
    requires x in s
    ensures |s - {x}| < |s|
  {
  }

  /**
   * There are costs with which the code has to take a stale node, and also costs with which it can,
   * exactly if the graph has a core in which spilling a node promotes another one and leaves a core.
   */
  lemma StaleIsExact(p: Problem)
    requires p.Valid()
    ensures forall cost: seq<int> :: |cost| == |p.cost| ==> p.(cost := cost).Valid()
    ensures HasLayers(p) <==> exists cost: seq<int> :: |cost| == |p.cost| && !Empties(p.(cost := cost))
    ensures HasLayers(p) <==> exists cost: seq<int> :: |cost| == |p.cost| && CanGoStale(p.(cost := cost))
  {
    hide *;
    forall cost: seq<int> | |cost| == |p.cost| ensures p.(cost := cost).Valid() {
      OtherCosts(p, cost);
    }
    if HasLayers(p) {
      var cost := LayersGoStale(p);
    }
    forall cost: seq<int> | |cost| == |p.cost| && CanGoStale(p.(cost := cost)) ensures HasLayers(p) {
      LayersOfCosts(p, cost);
    }
    forall cost: seq<int> | |cost| == |p.cost| && !Empties(p.(cost := cost)) ensures HasLayers(p) {
      EmptiesOrStale(p.(cost := cost));
      LayersOfCosts(p, cost);
    }
  }

  lemma OtherCosts(p: Problem, cost: seq<int>)
    requires p.Valid() && |cost| == |p.cost|
    ensures p.(cost := cost).Valid()
  {
  }

  lemma EmptiesOrStale(p: Problem)
    requires p.Valid()
    ensures Empties(p) || CanGoStale(p)
  {
    ReachesStart(p, false);
    GoesOn(p, Start(p));
  }

  lemma LayersGoStale(p: Problem) returns (cost: seq<int>)
    requires p.Valid() && HasLayers(p)
    ensures |cost| == |p.cost| && p.(cost := cost).Valid() && !Empties(p.(cost := cost)) && CanGoStale(p.(cost := cost))
  {
    hide *;
    var c, d, u, w := LayersOf(p);
    cost := TrapOf(p, c, d, u, w);
    OtherCosts(p, cost);
    TrapIsKept(p.(cost := cost), c, d, u, w);
    EmptiesOrStale(p.(cost := cost));
  }

  lemma LayersOf(p: Problem) returns (c: set<nat>, d: set<nat>, u: nat, w: nat)
    requires p.Valid() && HasLayers(p)
    ensures Layers(p, c, d, u, w)
  {
    hide Layers;
    c, d, u, w :| Layers(p, c, d, u, w);
  }

  lemma LayersOfCosts(p: Problem, cost: seq<int>)
    requires p.Valid() && |cost| == |p.cost| && CanGoStale(p.(cost := cost))
    ensures HasLayers(p)
  {
    var q := p.(cost := cost);
    var st, w :| Reachable(q, st, false) && Stale(q, st, w);
    StaleHasLayers(q, st, w);
    var c, d, u, w' :| Layers(q, c, d, u, w');
    assert Layers(p, c, d, u, w');
  }

  lemma TrapOf(p: Problem, c: set<nat>, d: set<nat>, u: nat, w: nat) returns (cost: seq<int>)
    requires p.Valid() && Layers(p, c, d, u, w)
    ensures |cost| == |p.cost| && p.(cost := cost).Valid() && IsTrap(p.(cost := cost), c, d, u, w)
  {
    EndsOfEdge(p, c, d, u, w);
    cost := seq(|p.cost|, v => if v == u then 1 else if v == w then 2 else if v in c then 3 else 0);
    OtherCosts(p, cost);
    SameLayers(p, cost, c, d, u, w);
    CostsLead(p.(cost := cost), c, u, w);
    hide *;
    BothMakeTrap(p.(cost := cost), c, d, u, w);
  }

  lemma CostsLead(p: Problem, c: set<nat>, u: nat, w: nat)
    requires p.Valid() && u < |p.cost| && w < |p.cost| && u != w && u in c && w in c && forall v :: v in p.members ==>
              v < |p.cost|
    requires forall v :: 0 <= v < |p.cost| ==>
              p.cost[v] == if v == u then 1 else if v == w then 2 else if v in c then 3 else 0
    ensures CostsTrap(p, c, u, w)
  {
  }

  lemma BothMakeTrap(p: Problem, c: set<nat>, d: set<nat>, u: nat, w: nat)
    requires p.Valid() && Layers(p, c, d, u, w) && CostsTrap(p, c, u, w)
    ensures IsTrap(p, c, d, u, w)
  {
    hide Layers, CostsTrap;
  }

  lemma EndsOfEdge(p: Problem, c: set<nat>, d: set<nat>, u: nat, w: nat)
    requires p.Valid() && Layers(p, c, d, u, w)
    ensures u < |p.cost| && w < |p.cost| && u != w && u in c && w in c && forall v :: v in p.members ==> v < |p.cost|
  {
    hide Core;
    assert Core(p, c) ==> c <= p.members by {
      CoreMembers(p, c);
    }
    assert SimpleEdge(p.adjacent, u, w);
  }

  lemma CoreMembers(p: Problem, c: set<nat>)
    requires p.Valid()
    ensures Core(p, c) ==> c <= p.members
  {
  }

  lemma SameLayers(p: Problem, cost: seq<int>, c: set<nat>, d: set<nat>, u: nat, w: nat)
    requires p.Valid() && |cost| == |p.cost| && p.(cost := cost).Valid()
    ensures Layers(p, c, d, u, w) <==> Layers(p.(cost := cost), c, d, u, w)
  {
    assert Core(p, c) <==> Core(p.(cost := cost), c);
    assert Core(p, d) <==> Core(p.(cost := cost), d);
    hide Core;
  }

  // ---------------------------------------------------------------- when a node is left behind

  ghost predicate SomeLeft(p: Problem, st: Stage)
    requires p.Valid()
  {
    exists w: nat :: LeftBehind(p, st, w)
  }

  ghost predicate HoldsCore(p: Problem, graph: set<nat>)
    requires p.Valid()
  {
    exists s :: Core(p, s) && s <= graph
  }

  /** Spilling a node of a core either leaves a neighbour behind or leaves a core. */
  lemma SpillingCore(p: Problem, st: Stage, x: nat)
    requires p.Valid() && 0 < p.registers && Invariant(p, st, false) && PopsNext(p, st, x) && x in st.graph
    ensures var st' := Spilled(p, st, x, false); SomeLeft(p, st') || HoldsCore(p, st'.graph)
  {
    var st' := Spilled(p, st, x, false);
    if w :| w in Promoted(p, st, x) {
      assert Waits(p, st, w) && SimpleEdge(p.adjacent, x, w);
      DegreeAfter(p, st, st', x, w);
      assert LeftBehind(p, st', w);
    } else {
      SomeNeighbor(p, st, x);
      forall v | v in st'.graph ensures v < |p.adjacent| && |p.adjacent[v] * st'.graph| >= p.registers {
        assert Waits(p, st, v);
        DegreeAfter(p, st, st', x, v);
        assert Degree(p, st', v) >= p.registers;
      }
      assert Core(p, st'.graph);
    }
  }

  lemma SomeNeighbor(p: Problem, st: Stage, x: nat)
    requires p.Valid() && 0 < p.registers && Invariant(p, st, false) && st.toColor == {} && x in st.graph
    ensures st.graph - {x} != {}
  {
    assert Waits(p, st, x);
    var v :| v in p.adjacent[x] * st.graph;
    assert SimpleEdge(p.adjacent, x, v);
    assert v in st.graph - {x};
  }

  lemma ColoredHolds(p: Problem, st: Stage, x: nat)
    requires p.Valid() && Invariant(p, st, false) && HoldsCore(p, st.graph) && x in st.toColor && x < |p.adjacent|
    ensures |p.adjacent| == |st.reg| == |st.avoid| && HoldsCore(p, Colored(p, st, x).graph)
  {
    var s :| Core(p, s) && s <= st.graph;
    CoreStays(p, st, s, x);
    StagePlaced(p, st);
    hide Invariant, Core, Colored;
    assert s <= Colored(p, st, x).graph;
  }

  lemma TakesHolds(p: Problem, st: Stage, x: nat, st': Stage)
    requires p.Valid() && 0 < p.registers && Invariant(p, st, false) && HoldsCore(p, st.graph)
              && Takes(p, st, x, st', false)
    ensures SomeLeft(p, st') || HoldsCore(p, st'.graph)
  {
    hide Invariant, HoldsCore, SomeLeft, Colored, Spilled;
    if ColorsNext(p, st, x) && st' == Colored(p, st, x) {
      ColoredHolds(p, st, x);
    } else if x in st.toSpill {
      SpillingCore(p, st, x);
    }
  }

  /** Some stage of the run leaves a node behind. */
  ghost predicate LeavesBehind(p: Problem, run: seq<Stage>)
    requires p.Valid()
  {
    exists i :: 0 <= i < |run| && SomeLeft(p, run[i])
  }

  lemma {:induction false} RunHolds(p: Problem, run: seq<Stage>)
    requires p.Valid() && 0 < p.registers && 0 < |run| && IsRun(p, run, false) && HoldsCore(p, Start(p).graph)
    ensures LeavesBehind(p, run) || HoldsCore(p, run[|run| - 1].graph)
    decreases |run|
  {
    hide *;
    var n := |run| - 1;
    if n == 0 {
      OneStage(p, run, false);
    } else {
      var x := LastStep(p, run, false);
      RunHolds(p, run[..n]);
      RunInvariant(p, run[..n], false);
      if HoldsCore(p, run[n - 1].graph) {
        TakesHolds(p, run[n - 1], x, run[n]);
      }
      LeavesInPart(p, run);
    }
  }

  lemma LeavesInPart(p: Problem, run: seq<Stage>)
    requires p.Valid() && 0 < |run|
    ensures LeavesBehind(p, run[..|run| - 1]) ==> LeavesBehind(p, run)
    ensures SomeLeft(p, run[|run| - 1]) ==> LeavesBehind(p, run)
  {
    hide SomeLeft;
    if LeavesBehind(p, run[..|run| - 1]) {
      var i :| 0 <= i < |run| - 1 && SomeLeft(p, run[..|run| - 1][i]);
      assert SomeLeft(p, run[i]);
    }
  }

  lemma LeftHasCore(p: Problem, run: seq<Stage>, i: nat)
    requires p.Valid() && IsRun(p, run, false) && i < |run| && SomeLeft(p, run[i])
    ensures exists s :: Core(p, s)
  {
    var w: nat :| LeftBehind(p, run[i], w);
    RunExplained(p, run[..i + 1]);
    var c, u :| PromotedFrom(p, run[i], w, c, u);
  }

  /** A run that empties the graph leaves a node behind in nodes_to_spill exactly if the graph has a core. */
  lemma LeavingBehindIsExact(p: Problem, run: seq<Stage>)
    requires p.Valid() && 0 < p.registers && 0 < |run| && IsRun(p, run, false) && run[|run| - 1].graph == {}
    ensures LeavesBehind(p, run) <==> exists s :: Core(p, s)
  {
    if LeavesBehind(p, run) {
      var i :| 0 <= i < |run| && SomeLeft(p, run[i]);
      LeftHasCore(p, run, i);
    }
    if s :| Core(p, s) {
      assert HoldsCore(p, Start(p).graph);
      RunHolds(p, run);
      assert !HoldsCore(p, {});
    }
  }

  // ---------------------------------------------------------------- an example

  /** The nodes from 0 to `k`, or as many more from there. */
  function Clique(k: nat, first: bool): (s: set<nat>)
    ensures |s| == k + 1 && forall v: nat :: v in s <==> if first then v <= k else k < v < 2 * k + 2
  {
    var low, all := Registers(k + 1), Registers(2 * k + 2);
    assert all - low + low == all;
    if first then low else all - low
  }

  function Neighbors(k: nat, v: nat): set<nat> {
    Clique(k, v <= k) - {v}
  }

  /** `k` registers, two cliques of one node more, and costs in the order of the nodes. */
  function TwoCliques(k: nat): (p: Problem)
    ensures p.members == Registers(2 * k + 2) && p.registers == k
    ensures |p.adjacent| == |p.cost| == |p.preferred| == 2 * k + 2
    ensures forall v :: 0 <= v < 2 * k + 2 ==> p.adjacent[v] == Neighbors(k, v) && p.cost[v] == v
  {
    var n := 2 * k + 2;
    Problem(Registers(n), seq(n, v requires 0 <= v => Neighbors(k, v)), seq(n, v => v), seq(n, _ => {}), k)
  }

  /** Two cliques, whatever registers are preferred; node 0 is cheapest, then comes node 1. */
  ghost predicate IsTwoCliques(p: Problem, k: nat) {
    && p.members == Registers(2 * k + 2) && p.registers == k && |p.adjacent| == |p.cost| == |p.preferred| == 2 * k + 2
    && (forall v :: 0 <= v < 2 * k + 2 ==> p.adjacent[v] == Neighbors(k, v))
    && p.cost[0] < p.cost[1] && forall v :: 2 <= v < 2 * k + 2 ==> p.cost[1] < p.cost[v]
  }

  lemma TwoCliquesValid(p: Problem, k: nat)
    requires IsTwoCliques(p, k)
    ensures p.Valid()
  {
    hide Registers, Clique;
    forall u: nat, v: nat | u < 2 * k + 2 ensures SimpleEdge(p.adjacent, u, v) {
    }
  }

  lemma CliqueSizes(p: Problem, k: nat)
    requires IsTwoCliques(p, k)
    ensures |p.adjacent| == |p.cost| == 2 * k + 2 && p.registers == k && p.members == Registers(2 * k + 2)
  {
  }

  lemma CliqueNode(p: Problem, k: nat, v: nat)
    requires IsTwoCliques(p, k) && v < 2 * k + 2
    ensures v < |p.adjacent| && p.adjacent[v] == Clique(k, v <= k) - {v}
  {
    hide Clique, Registers;
  }

  lemma IsCore(p: Problem, s: set<nat>)
    requires p.Valid() && s != {} && s <= p.members
    requires forall v :: v in s ==> v < |p.adjacent| && |p.adjacent[v] * s| >= p.registers
    ensures Core(p, s)
  {
    hide Problem.Valid;
  }

  lemma InClique(k: nat, first: bool, v: nat)
    requires v in Clique(k, first)
    ensures v < 2 * k + 2 && |(Clique(k, v <= k) - {v}) * Clique(k, first)| == k
  {
    hide Registers, Clique;
    assert first == (v <= k);
    assert (Clique(k, v <= k) - {v}) * Clique(k, first) == Clique(k, first) - {v};
  }

  lemma CliqueIsCore(p: Problem, k: nat, first: bool)
    requires IsTwoCliques(p, k)
    ensures p.Valid() && Core(p, Clique(k, first))
  {
    hide *;
    TwoCliquesValid(p, k);
    CliqueSizes(p, k);
    var s := Clique(k, first);
    CliqueInside(k, first);
    forall v | v in s ensures v < |p.adjacent| && |p.adjacent[v] * s| >= p.registers {
      InClique(k, first, v);
      CliqueNode(p, k, v);
    }
    IsCore(p, s);
  }

  lemma CliqueInside(k: nat, first: bool)
    ensures Clique(k, first) <= Registers(2 * k + 2) && Clique(k, first) != {}
  {
    hide Clique;
    assert (if first then 0 else k + 1) in Clique(k, first);
  }

  lemma BothCliquesAreCore(p: Problem, k: nat)
    requires IsTwoCliques(p, k)
    ensures p.Valid() && Core(p, Registers(2 * k + 2))
  {
    hide *;
    TwoCliquesValid(p, k);
    CliqueSizes(p, k);
    var s := Registers(2 * k + 2);
    CliqueInside(k, true);
    forall v | v in s ensures v < |p.adjacent| && |p.adjacent[v] * s| >= p.registers {
      InBoth(k, v);
      CliqueNode(p, k, v);
    }
    IsCore(p, s);
  }

  lemma InBoth(k: nat, v: nat)
    requires v in Registers(2 * k + 2)
    ensures v < 2 * k + 2 && |(Clique(k, v <= k) - {v}) * Registers(2 * k + 2)| == k
  {
    hide Clique;
    CliqueInside(k, v <= k);
    assert (Clique(k, v <= k) - {v}) * Registers(2 * k + 2) == Clique(k, v <= k) - {v};
  }

  /** Spilling node 0 promotes node 1, and the second clique is left. */
  lemma CliquesAreLayers(p: Problem, k: nat)
    requires 0 < k && IsTwoCliques(p, k)
    ensures p.Valid() && Layers(p, Registers(2 * k + 2), Clique(k, false), 0, 1)
  {
    hide *;
    BothCliquesAreCore(p, k);
    CliqueIsCore(p, k, false);
    CliqueNode(p, k, 0);
    CliqueNode(p, k, 1);
    FirstNodes(k);
    InBoth(k, 1);
    CliqueInside(k, false);
    CliqueSizes(p, k);
    FirstTwoLayers(p, Registers(2 * k + 2), Clique(k, false), Clique(k, true));
  }

  lemma FirstNodes(k: nat)
    requires 0 < k
    ensures 0 in Registers(2 * k + 2) && 1 in Registers(2 * k + 2)
    ensures 0 !in Clique(k, false) && 1 in Clique(k, true)
  {
    hide Clique;
  }

  lemma FirstTwoLayers(p: Problem, c: set<nat>, d: set<nat>, first: set<nat>)
    requires p.Valid() && Core(p, c) && Core(p, d) && 0 in c && 1 in c && d <= c && 0 !in d && 1 in first
    requires 1 < |p.adjacent| && p.adjacent[0] == first - {0} && p.adjacent[1] == first - {1}
    requires |(first - {1}) * c| == p.registers
    ensures Layers(p, c, d, 0, 1)
  {
    hide Problem.Valid, Core;
  }

  lemma CliquesCost(p: Problem, k: nat)
    requires 0 < k && IsTwoCliques(p, k) && p.Valid()
    ensures CostsTrap(p, Registers(2 * k + 2), 0, 1)
  {
    hide Clique, Problem.Valid;
  }

  /**
   * The code cannot empty this graph without taking a stale node: it spills node 0, which promotes the
   * rest of the first clique, colours that, and takes node 1 again before it comes to the other clique.
   */
  lemma CliquesGoStale(p: Problem, k: nat)
    requires 0 < k && IsTwoCliques(p, k)
    ensures p.Valid() && HasLayers(p) && !Empties(p) && CanGoStale(p)
  {
    hide *;
    var c, d := Registers(2 * k + 2), Clique(k, false);
    CliquesAreLayers(p, k);
    CliquesCost(p, k);
    TrappedByLayers(p, c, d, 0, 1);
    TrapIsKept(p, c, d, 0, 1);
    EmptiesOrStale(p);
  }

  lemma TrappedByLayers(p: Problem, c: set<nat>, d: set<nat>, u: nat, w: nat)
    requires p.Valid() && Layers(p, c, d, u, w) && CostsTrap(p, c, u, w)
    ensures IsTrap(p, c, d, u, w) && HasLayers(p)
  {
    hide Problem.Valid, Layers;
  }

  /** So it is for every number of registers. */
  lemma TwoCliquesGoStale(k: nat)
    requires 0 < k
    ensures var p := TwoCliques(k); p.Valid() && HasLayers(p) && !Empties(p) && CanGoStale(p)
  {
    hide TwoCliques, Registers, Clique, HasLayers, Empties, CanGoStale, Problem.Valid;
    CliquesGoStale(TwoCliques(k), k);
  }

  /** So it is with the registers that the code has. */
  lemma SixteenRegistersGoStale()
    ensures var p := TwoCliques(NUM_REGISTERS);
      p.Valid() && |p.members| == 34 && p.registers == 16 && !Empties(p) && CanGoStale(p)
  {
    TwoCliquesGoStale(NUM_REGISTERS);
    hide *;
  }
}
