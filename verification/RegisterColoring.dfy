/** color_graph (code_optimization.c): assigns registers to the nodes of the interference graph. */
module RegisterColoring {
  import opened Lists
  import opened Graphs
  import opened Heaps
  import opened Coloring
  import opened StaleNodes

  // ---------------------------------------------------------------- a heap holds a set of nodes

  ghost function EntriesOf(cost: seq<int>, nodes: set<nat>): set<Entry> {
    set u | u in nodes && u < |cost| :: Entry(u, cost[u])
  }

  /** The heap has one entry, with its cost, for each of the nodes. */
  ghost predicate HeapHolds(cost: seq<int>, entries: seq<Entry>, nodes: set<nat>) {
    && (forall u :: u in nodes ==> u < |cost|)
    && multiset(entries) == multiset(EntriesOf(cost, nodes))
  }

  lemma {:induction false} EntriesCount(cost: seq<int>, nodes: set<nat>)
    requires forall u :: u in nodes ==> u < |cost|
    ensures |EntriesOf(cost, nodes)| == |nodes|
  {
    if nodes == {} {
      assert EntriesOf(cost, nodes) == {};
    } else {
      var u :| u in nodes;
      EntriesCount(cost, nodes - {u});
      assert EntriesOf(cost, nodes) == EntriesOf(cost, nodes - {u}) + {Entry(u, cost[u])};
    }
  }

  lemma HeapSize(cost: seq<int>, entries: seq<Entry>, nodes: set<nat>)
    requires HeapHolds(cost, entries, nodes)
    ensures |entries| == |nodes|
  {
    EntriesCount(cost, nodes);
    assert |entries| == |multiset(entries)|;
  }

  lemma EntryAdded(cost: seq<int>, entries: seq<Entry>, nodes: set<nat>, u: nat)
    requires HeapHolds(cost, entries, nodes) && u !in nodes && u < |cost|
    ensures HeapHolds(cost, entries + [Entry(u, cost[u])], nodes + {u})
  {
    assert EntriesOf(cost, nodes + {u}) == EntriesOf(cost, nodes) + {Entry(u, cost[u])};
    assert Entry(u, cost[u]) !in EntriesOf(cost, nodes);
  }

  lemma EntryTaken(cost: seq<int>, entries: seq<Entry>, nodes: set<nat>, e: Entry, entries': seq<Entry>)
    requires HeapHolds(cost, entries, nodes) && e in entries
    requires multiset(entries') == multiset(entries) - multiset{e}
    ensures e.node in nodes && e.cost == cost[e.node] && HeapHolds(cost, entries', nodes - {e.node})
  {
    assert e in multiset(entries);
    assert e in EntriesOf(cost, nodes);
    assert EntriesOf(cost, nodes - {e.node}) == EntriesOf(cost, nodes) - {e};
  }

  /** The root of a heap in order has an extreme cost among the nodes of the heap. */
  lemma RootIsExtreme(p: Problem, min: bool, entries: seq<Entry>, nodes: set<nat>, e: Entry)
    requires HeapHolds(p.cost, entries, nodes) && e in entries
    requires forall f :: f in entries ==> Better(min, e, f)
    ensures if min then LowestCost(p, nodes, e.node) else HighestCost(p, nodes, e.node)
  {
    assert e in multiset(entries) && e in EntriesOf(p.cost, nodes);
    forall v | v in nodes ensures Better(min, e, Entry(v, p.cost[v])) {
      assert Entry(v, p.cost[v]) in EntriesOf(p.cost, nodes);
      assert Entry(v, p.cost[v]) in multiset(entries);
    }
  }

  lemma {:induction false} BoundedSize(n: nat, s: set<nat>)
    requires forall u :: u in s ==> u < n
    ensures |s| <= n
    decreases n
  {
    if n > 0 {
      BoundedSize(n - 1, s - {n - 1});
    } else {
      assert s == {};
    }
  }

  // ---------------------------------------------------------------- the pass

  ghost function NodesIn(list: seq<nat>): set<nat> {
    set u | u in list
  }

  /** The nodes of the list with as many neighbours as there are registers. */
  ghost function Full(list: seq<nat>, numNeighbors: seq<int>): set<nat> {
    set v | v in list && v < |numNeighbors| && numNeighbors[v] == NUM_REGISTERS
  }

  ghost function OneIfFull(numNeighbors: seq<int>, v: nat): set<nat>
    requires v < |numNeighbors|
  {
    if numNeighbors[v] == NUM_REGISTERS then {v} else {}
  }

  class ColoringPass {
    const graph: InterferenceGraph
    const cost: seq<int>
    const preferred: seq<set<nat>>
    var reg: seq<int>
    var regsToAvoid: seq<set<nat>>
    var registersUsed: set<nat>
    var nodesToSpill: set<nat>

    constructor (graph: InterferenceGraph, cost: seq<int>, preferred: seq<set<nat>>)
      requires |cost| == |preferred| == |graph.neighborSet|
      ensures this.graph == graph && this.cost == cost && this.preferred == preferred
      ensures reg == seq(|cost|, _ => -1) && regsToAvoid == seq(|cost|, _ => {})
      ensures registersUsed == {} && nodesToSpill == {}
    {
      this.graph, this.cost, this.preferred := graph, cost, preferred;
      reg, regsToAvoid := seq(|cost|, _ => -1), seq(|cost|, _ => {});
      registersUsed, nodesToSpill := {}, {};
    }

    /** Chooses the register of a node: a preferred one if one is free, and the least such one. */
    method ChooseRegister(u: nat) returns (r: int)
      requires u < |regsToAvoid| == |preferred|
      ensures r == PickRegister(NUM_REGISTERS, regsToAvoid[u], preferred[u])
      ensures IsLeast(regsToAvoid[u], preferred[u], r)
    {
      PickMeaning(NUM_REGISTERS, regsToAvoid[u], preferred[u]);
      var available := Registers(NUM_REGISTERS);
      available := available - regsToAvoid[u];
      if preferred[u] != {} {
        var tmp := available * preferred[u];
        if tmp != {} {
          available := tmp;
        }
      }
      assert available == Choices(NUM_REGISTERS, regsToAvoid[u], preferred[u]);
      r := LeastRegister(available);
    }

    /** Searches the registers from 0 upwards. */
    method LeastRegister(available: set<nat>) returns (r: int)
      ensures r == LeastFrom(NUM_REGISTERS, available, 0)
    {
      for q := 0 to NUM_REGISTERS
        invariant LeastFrom(NUM_REGISTERS, available, 0) == LeastFrom(NUM_REGISTERS, available, q)
      {
        if q in available {
          return q;
        }
      }
      return -1;
    }

    /**
     * One neighbour avoids `r`, if that is a register, and moves to the heap of nodes to
     * colour if it is full; `drop` says whether it leaves nodes_to_spill then.
     */
    method AdvanceNeighbor(v: nat, r: int, drop: bool, colorHeap: Heap, ghost nodes: set<nat>)
      requires v < |regsToAvoid| == |cost| == |graph.numNeighbors| && r >= -1
      requires colorHeap.Valid() && colorHeap.items.Length == |cost|
      requires HeapHolds(cost, colorHeap.Entries(), nodes) && nodes !! OneIfFull(graph.numNeighbors, v)
      modifies this`regsToAvoid, this`nodesToSpill, colorHeap`size, colorHeap.items
      ensures regsToAvoid == if r >= 0 then old(regsToAvoid)[v := old(regsToAvoid)[v] + {r}] else old(regsToAvoid)
      ensures nodesToSpill == if drop then old(nodesToSpill) - OneIfFull(graph.numNeighbors, v) else old(nodesToSpill)
      ensures colorHeap.Valid()
      ensures HeapHolds(cost, colorHeap.Entries(), nodes + OneIfFull(graph.numNeighbors, v))
    {
      hide HeapHolds;
      if r >= 0 {
        regsToAvoid := regsToAvoid[v := regsToAvoid[v] + {r}];
      }
      if graph.numNeighbors[v] == NUM_REGISTERS {
        if drop {
          nodesToSpill := nodesToSpill - {v};
        }
        RoomForOne(cost, colorHeap.Entries(), nodes, v);
        EntryAdded(cost, colorHeap.Entries(), nodes, v);
        colorHeap.Add(Entry(v, cost[v]));
      } else {
        assert nodes + OneIfFull(graph.numNeighbors, v) == nodes;
      }
    }

    /** Neighbours of a coloured node avoid its register; full ones are moved to the heap of nodes to colour. */
    method AdvanceNeighbors(list: seq<nat>, r: int, drop: bool, colorHeap: Heap, ghost nodes: set<nat>)
      requires forall k :: 0 <= k < |list| ==> list[k] < |regsToAvoid| == |cost| == |graph.numNeighbors|
      requires Enumerates(list, NodesIn(list))
      requires r >= -1 && colorHeap.Valid() && HeapHolds(cost, colorHeap.Entries(), nodes)
      requires colorHeap.items.Length == |cost| && nodes !! Full(list, graph.numNeighbors)
      modifies this`regsToAvoid, this`nodesToSpill, colorHeap`size, colorHeap.items
      ensures regsToAvoid == AvoidWith(old(regsToAvoid), NodesIn(list), r)
      ensures nodesToSpill == if drop then old(nodesToSpill) - Full(list, graph.numNeighbors) else old(nodesToSpill)
      ensures colorHeap.Valid()
      ensures HeapHolds(cost, colorHeap.Entries(), nodes + Full(list, graph.numNeighbors))
    {
      for k := 0 to |list|
        invariant |regsToAvoid| == |old(regsToAvoid)| && colorHeap.Valid()
        invariant regsToAvoid == AvoidWith(old(regsToAvoid), NodesIn(list[..k]), r)
        invariant nodesToSpill ==
                    if drop then old(nodesToSpill) - Full(list[..k], graph.numNeighbors) else old(nodesToSpill)
        invariant HeapHolds(cost, colorHeap.Entries(), nodes + Full(list[..k], graph.numNeighbors))
      {
        hide HeapHolds, Full, NodesIn, AvoidWith, EntriesOf;
        PrefixStep(list, k, graph.numNeighbors, old(regsToAvoid), r);
        AdvanceNeighbor(list[k], r, drop, colorHeap, nodes + Full(list[..k], graph.numNeighbors));
        assert nodes + Full(list[..k], graph.numNeighbors) + OneIfFull(graph.numNeighbors, list[k])
            == nodes + Full(list[..k + 1], graph.numNeighbors);
      }
      assert list[..|list|] == list;
    }

    /** The fields are those of the stage. */
    ghost predicate FieldsMatch(p: Problem, st: Stage)
      reads this, graph
    {
      && p.Valid() && p.registers == NUM_REGISTERS && p.cost == cost && p.preferred == preferred
      && graph.Valid() && graph.neighborSet == p.adjacent
      && SameFields(st, graph.Remaining(), reg, regsToAvoid, registersUsed, nodesToSpill)
    }

    /** Takes the root of the heap of nodes to colour. */
    method TakeNodeToColor(colorHeap: Heap, ghost p: Problem, ghost st: Stage) returns (u: nat)
      requires ColorHeapMatches(p, st, colorHeap) && st.toColor != {}
      modifies colorHeap`size, colorHeap.items
      ensures colorHeap.Valid() && HeapHolds(p.cost, colorHeap.Entries(), st.toColor - {u})
      ensures u in st.toColor && (st.ordered ==> HighestCost(p, st.toColor, u))
    {
      ghost var before := colorHeap.Entries();
      HeapSize(p.cost, before, st.toColor);
      hide HeapHolds;
      var root := colorHeap.ExtractRoot();
      EntryTaken(p.cost, before, st.toColor, root.value, colorHeap.Entries());
      if st.ordered {
        RootIsExtreme(p, false, before, st.toColor, root.value);
      }
      u := root.value.node;
    }

    /** Chooses a register for `u` and notes that the function uses it. */
    method RecordRegister(u: nat) returns (r: int)
      requires u < |regsToAvoid| == |preferred| == |reg|
      modifies this`reg, this`registersUsed
      ensures r == PickRegister(NUM_REGISTERS, regsToAvoid[u], preferred[u])
      ensures reg == old(reg)[u := r]
      ensures registersUsed == if r >= 0 then old(registersUsed) + {r} else old(registersUsed)
    {
      hide PickRegister;
      r := ChooseRegister(u);
      reg := reg[u := r];
      if r >= 0 {
        registersUsed := registersUsed + {r};
      }
    }

    /** Goes through the neighbours of `u` before it leaves the graph, to colour it (`r` >= 0 or not) or to spill it. */
    method LeaveNeighbors(
        u: nat, r: int, drop: bool, colorHeap: Heap, ghost waiting: set<nat>, ghost p: Problem, ghost st: Stage)
      requires p.Valid() && p.registers == NUM_REGISTERS && u in st.graph
      requires graph.Valid() && graph.Remaining() == st.graph && graph.neighborSet == p.adjacent
      requires |regsToAvoid| == |cost| == |p.adjacent| && r >= -1
      requires colorHeap.Valid() && colorHeap.items.Length == |cost|
      requires HeapHolds(cost, colorHeap.Entries(), waiting) && waiting !! Promoted(p, st, u)
      modifies this`regsToAvoid, this`nodesToSpill, graph, colorHeap`size, colorHeap.items
      ensures u < |p.adjacent| && graph.Valid() && graph.Remaining() == st.graph - {u}
      ensures graph.neighborSet == p.adjacent
      ensures regsToAvoid == AvoidWith(old(regsToAvoid), p.adjacent[u] * st.graph, r)
      ensures nodesToSpill == if drop then old(nodesToSpill) - Promoted(p, st, u) else old(nodesToSpill)
      ensures colorHeap.Valid() && HeapHolds(cost, colorHeap.Entries(), waiting + Promoted(p, st, u))
    {
      NeighborsOfStage(p, st, graph.nodes, graph.neighbors, graph.numNeighbors, u);
      hide *;
      AdvanceNeighbors(graph.neighbors[u], r, drop, colorHeap, waiting);
      graph.RemoveNode(u);
    }

    lemma FieldsOf(p: Problem, st: Stage, drop: bool)
      requires FieldsMatch(p, st) && Invariant(p, st, drop)
      ensures |reg| == |regsToAvoid| == |p.adjacent| == |cost| == |preferred| && p.cost == cost
                && p.preferred == preferred
      ensures graph.Remaining() == st.graph && reg == st.reg && regsToAvoid == st.avoid
      ensures registersUsed == st.used && nodesToSpill == st.toSpill
    {
      ProblemSizes(p, st, drop, graph.Remaining(), reg, regsToAvoid, registersUsed, nodesToSpill);
    }

    /** Gives `u` its register and takes it out of the graph. */
    method AssignRegister(u: nat, colorHeap: Heap, ghost p: Problem, ghost st: Stage, ghost drop: bool)
      requires FieldsMatch(p, st) && u in st.toColor && Invariant(p, st, drop)
      requires colorHeap.Valid() && colorHeap.items.Length == |cost|
      requires HeapHolds(p.cost, colorHeap.Entries(), st.toColor - {u})
      modifies this, graph, colorHeap`size, colorHeap.items
      ensures FieldsMatch(p, Colored(p, st, u)) && colorHeap.Valid()
      ensures HeapHolds(p.cost, colorHeap.Entries(), Colored(p, st, u).toColor)
    {
      FieldsOf(p, st, drop);
      NodeToColorFacts(p, st, u, drop);
      hide HeapHolds, Promoted, Invariant, AvoidWith, Colored, PickRegister, SameFields;
      hide Problem.Valid, InterferenceGraph.Valid, InterferenceGraph.Remaining;
      var r := RecordRegister(u);
      LeaveNeighbors(u, r, true, colorHeap, st.toColor - {u}, p, st);
      ColoredFields(p, st, u, graph.Remaining(), reg, regsToAvoid, registersUsed, nodesToSpill);
    }

    /** Colours one node and puts the heap of nodes to colour in order. */
    method ColorNext(colorHeap: Heap, ghost p: Problem, ghost st: Stage, ghost drop: bool) returns (u: nat)
      requires FieldsMatch(p, st) && ColorHeapMatches(p, st, colorHeap) && Invariant(p, st, drop) && st.toColor != {}
      modifies this, graph, colorHeap`size, colorHeap.items
      ensures ColorsNext(p, st, u) && FieldsMatch(p, Colored(p, st, u))
                && ColorHeapMatches(p, Colored(p, st, u), colorHeap)
      ensures u < |reg| && IsLeast(st.avoid[u], p.preferred[u], reg[u])
    {
      hide Colored, IsLeast, HeapHolds, Invariant, Promoted, Waits, Avoids;
      u := TakeNodeToColor(colorHeap, p, st);
      InvariantIsPlaced(p, st, drop);
      LeastIsTaken(p, st, u);
      AssignRegister(u, colorHeap, p, st, drop);
      ghost var entries := colorHeap.Entries();
      colorHeap.BuildHeap();
      HeapReordered(p.cost, entries, colorHeap.Entries(), Colored(p, st, u).toColor);
    }

    /** Colours nodes until none is left to colour. */
    method ColorAll(colorHeap: Heap, spillHeap: Heap, ghost p: Problem, ghost st: Stage, ghost drop: bool)
      returns (ghost st': Stage)
      requires FieldsMatch(p, st) && Reachable(p, st, drop)
      requires ColorHeapMatches(p, st, colorHeap) && SpillHeapMatches(p, st.spillHeap, spillHeap)
      requires colorHeap != spillHeap && colorHeap.items != spillHeap.items
      modifies this, graph, colorHeap`size, colorHeap.items
      ensures FieldsMatch(p, st') && Reachable(p, st', drop) && st'.graph <= st.graph && st'.toColor == {}
      ensures ColorHeapMatches(p, st', colorHeap) && SpillHeapMatches(p, st'.spillHeap, spillHeap)
    {
      st' := st;
      while colorHeap.size > 0
        invariant Reachable(p, st', drop) && FieldsMatch(p, st') && st'.graph <= st.graph
        invariant ColorHeapMatches(p, st', colorHeap) && SpillHeapMatches(p, st'.spillHeap, spillHeap)
        decreases st'.graph
      {
        hide *;
        WaitingToColor(p, st', drop, colorHeap, this);
        var u := ColorNext(colorHeap, p, st', drop);
        ColorIsNext(p, st', u, drop);
        st' := Colored(p, st', u);
      }
      assert HeapHolds(p.cost, [], st'.toColor);
      HeapSize(p.cost, [], st'.toColor);
    }

    /** Takes the root of the heap of nodes to spill. */
    method TakeNodeToSpill(spillHeap: Heap, ghost p: Problem, ghost nodes: set<nat>) returns (u: nat)
      requires SpillHeapMatches(p, nodes, spillHeap) && nodes != {}
      modifies spillHeap`size, spillHeap.items
      ensures LowestCost(p, nodes, u) && SpillHeapMatches(p, nodes - {u}, spillHeap)
    {
      ghost var before := spillHeap.Entries();
      HeapSize(p.cost, before, nodes);
      hide HeapHolds;
      var root := spillHeap.ExtractRoot();
      EntryTaken(p.cost, before, nodes, root.value, spillHeap.Entries());
      RootIsExtreme(p, true, before, nodes, root.value);
      u := root.value.node;
    }

    /** Takes nodes to spill until one is found that has not left nodes_to_spill. */
    method FindNodeToSpill(spillHeap: Heap, ghost p: Problem, ghost st: Stage, ghost drop: bool)
      returns (node: nat, ghost st': Stage)
      requires p.Valid() && Reachable(p, st, drop) && st.graph != {} && st.toColor == {} && nodesToSpill == st.toSpill
      requires SpillHeapMatches(p, st.spillHeap, spillHeap)
      modifies spillHeap`size, spillHeap.items
      ensures Reachable(p, st', drop) && st' == st.(spillHeap := st'.spillHeap)
      ensures PopsNext(p, st', node) && node in nodesToSpill && SpillHeapMatches(p, st'.spillHeap - {node}, spillHeap)
    {
      hide Reachable, SpillHeapMatches;
      st' := st;
      SpillHeapNotEmpty(p, st', drop);
      node := TakeNodeToSpill(spillHeap, p, st'.spillHeap);
      PopIsNext(p, st', node, drop);
      while node !in nodesToSpill
        invariant Reachable(p, st', drop) && st' == st.(spillHeap := st'.spillHeap)
        invariant PopsNext(p, st', node) && SpillHeapMatches(p, st'.spillHeap - {node}, spillHeap)
        decreases st'.spillHeap
      {
        ghost var next := st'.(spillHeap := st'.spillHeap - {node});
        assert Takes(p, st', node, next, drop);
        ReachesNext(p, st', node, next, drop);
        st' := next;
        SpillHeapNotEmpty(p, st', drop);
        node := TakeNodeToSpill(spillHeap, p, st'.spillHeap);
        PopIsNext(p, st', node, drop);
      }
    }

    /** Takes `u` out of the graph without a register. */
    method SpillNode(u: nat, drop: bool, colorHeap: Heap, ghost p: Problem, ghost st: Stage)
      requires FieldsMatch(p, st) && Invariant(p, st, drop) && u in st.graph && st.toColor == {}
      requires ColorHeapMatches(p, st, colorHeap)
      modifies this`regsToAvoid, this`nodesToSpill, graph, colorHeap`size, colorHeap.items
      ensures u < |p.adjacent| && FieldsMatch(p, Spilled(p, st, u, drop))
      ensures ColorHeapMatches(p, Spilled(p, st, u, drop), colorHeap)
    {
      ProblemSizes(p, st, drop, graph.Remaining(), reg, regsToAvoid, registersUsed, nodesToSpill);
      hide HeapHolds, Promoted, Invariant, AvoidWith, Spilled, SameFields;
      hide Problem.Valid, InterferenceGraph.Valid, InterferenceGraph.Remaining;
      LeaveNeighbors(u, -1, drop, colorHeap, {}, p, st);
      SpilledFields(p, st, u, drop, graph.Remaining(), reg, regsToAvoid, registersUsed, nodesToSpill);
    }

    /** Puts a node into one of the heaps, by its number of neighbours. */
    method FillWith(u: nat, colorHeap: Heap, spillHeap: Heap, ghost few: set<nat>, ghost many: set<nat>)
      requires u < |cost| == |graph.numNeighbors| && u !in few && u !in many
      requires colorHeap.Valid() && spillHeap.Valid() && colorHeap.items.Length == spillHeap.items.Length == |cost|
      requires colorHeap != spillHeap && colorHeap.items != spillHeap.items
      requires HeapHolds(cost, colorHeap.Entries(), few) && HeapHolds(cost, spillHeap.Entries(), many)
      modifies this`nodesToSpill, colorHeap`size, colorHeap.items, spillHeap`size, spillHeap.items
      ensures colorHeap.Valid() && spillHeap.Valid()
      ensures var low := graph.numNeighbors[u] < NUM_REGISTERS;
        && HeapHolds(cost, colorHeap.Entries(), few + (if low then {u} else {}))
        && HeapHolds(cost, spillHeap.Entries(), many + (if low then {} else {u}))
        && nodesToSpill == old(nodesToSpill) + (if low then {} else {u})
    {
      hide HeapHolds;
      assert few + {} == few && many + {} == many;
      if graph.numNeighbors[u] < NUM_REGISTERS {
        RoomForOne(cost, colorHeap.Entries(), few, u);
        EntryAdded(cost, colorHeap.Entries(), few, u);
        colorHeap.Add(Entry(u, cost[u]));
      } else {
        RoomForOne(cost, spillHeap.Entries(), many, u);
        EntryAdded(cost, spillHeap.Entries(), many, u);
        spillHeap.Add(Entry(u, cost[u]));
        nodesToSpill := nodesToSpill + {u};
      }
    }

    /** Puts every node of the graph into one of the heaps. */
    method FillHeaps(colorHeap: Heap, spillHeap: Heap)
      requires graph.Valid() && |graph.neighborSet| == |cost| && nodesToSpill == {}
      requires colorHeap.Valid() && spillHeap.Valid() && colorHeap.size == spillHeap.size == 0
      requires colorHeap.items.Length == spillHeap.items.Length == |cost|
      requires colorHeap != spillHeap && colorHeap.items != spillHeap.items
      modifies this`nodesToSpill, colorHeap`size, colorHeap.items, spillHeap`size, spillHeap.items
      ensures colorHeap.Valid() && spillHeap.Valid()
      ensures HeapHolds(cost, colorHeap.Entries(), Few(graph.nodes, graph.numNeighbors))
      ensures HeapHolds(cost, spillHeap.Entries(), Many(graph.nodes, graph.numNeighbors))
      ensures nodesToSpill == Many(graph.nodes, graph.numNeighbors)
    {
      ListedNodes(graph.Remaining(), graph.nodes, graph.neighbors, graph.numNeighbors, graph.neighborSet);
      NoNodes(cost, graph.nodes, graph.numNeighbors);
      hide InterferenceGraph.Valid, InterferenceGraph.Remaining, HeapHolds, Few, Many, NodesIn;
      for k := 0 to |graph.nodes|
        invariant colorHeap.Valid() && spillHeap.Valid()
        invariant HeapHolds(cost, colorHeap.Entries(), Few(graph.nodes[..k], graph.numNeighbors))
        invariant HeapHolds(cost, spillHeap.Entries(), Many(graph.nodes[..k], graph.numNeighbors))
        invariant nodesToSpill == Many(graph.nodes[..k], graph.numNeighbors)
      {
        OneMoreListed(graph.nodes, k, graph.numNeighbors);
        FillWith(graph.nodes[k], colorHeap, spillHeap,
                 Few(graph.nodes[..k], graph.numNeighbors), Many(graph.nodes[..k], graph.numNeighbors));
      }
      assert graph.nodes[..|graph.nodes|] == graph.nodes;
    }

    /** Sets up the heaps and the set of nodes to spill. */
    method PrepareHeaps(colorHeap: Heap, spillHeap: Heap, ghost p: Problem)
      requires p.Valid() && FieldsMatch(p, Start(p).(toSpill := {})) && |cost| == |graph.neighborSet|
      requires colorHeap.Valid() && spillHeap.Valid() && colorHeap.size == spillHeap.size == 0
      requires colorHeap.items.Length == spillHeap.items.Length == |cost| && !colorHeap.min && spillHeap.min
      requires colorHeap != spillHeap && colorHeap.items != spillHeap.items
      modifies this`nodesToSpill, colorHeap`size, colorHeap.items, spillHeap`size, spillHeap.items
      ensures FieldsMatch(p, Start(p))
      ensures ColorHeapMatches(p, Start(p), colorHeap) && SpillHeapMatches(p, Start(p).spillHeap, spillHeap)
    {
      FillHeaps(colorHeap, spillHeap);
      StartMatches(p, graph.nodes, graph.neighbors, graph.numNeighbors);
      hide HeapHolds, InterferenceGraph.Valid, InterferenceGraph.Remaining, Few, Many, HeapFrom, Problem.Valid;
      ghost var colorEntries, spillEntries := colorHeap.Entries(), spillHeap.Entries();
      colorHeap.BuildHeap();
      spillHeap.BuildHeap();
      HeapReordered(cost, colorEntries, colorHeap.Entries(), Few(graph.nodes, graph.numNeighbors));
      HeapReordered(cost, spillEntries, spillHeap.Entries(), Many(graph.nodes, graph.numNeighbors));
    }

    /** The colouring problem that the fields pose. */
    ghost function TheProblem(): Problem
      reads this, graph
    {
      Problem(graph.Remaining(), graph.neighborSet, cost, preferred, NUM_REGISTERS)
    }

    /**
     * Colours the graph. `drop` says whether a node that is promoted because a neighbour
     * was spilled leaves nodes_to_spill; the code as it is leaves it there. The result
     * says whether a node was taken for spilling that had left the graph already: the
     * code would go on with a list entry that it has freed.
     */
    method ColorGraph(drop: bool) returns (stale: bool)
      requires graph.Valid() && TheProblem().Valid()
      requires |reg| == |regsToAvoid| == |cost| && forall u :: 0 <= u < |cost| ==> reg[u] == -1 && regsToAvoid[u] == {}
      modifies this, graph
      ensures old(TheProblem()).Valid()
      ensures !stale ==> ColoringOf(old(TheProblem()), reg, registersUsed)
      ensures drop ==> !stale
      ensures stale ==> HasLayers(old(TheProblem()))
      ensures !drop && !stale ==> Empties(old(TheProblem()))
    {
      ghost var p := TheProblem();
      registersUsed, nodesToSpill := {}, {};
      StartFields(p, graph.Remaining(), reg, regsToAvoid);
      var spillHeap := new Heap(|cost|, true);
      var colorHeap := new Heap(|cost|, false);
      PrepareHeaps(colorHeap, spillHeap, p);
      stale := ColorAndSpill(colorHeap, spillHeap, drop, p);
    }

    /** Colours all nodes that can be coloured, spills one, and so on until the graph is empty. */
    method ColorAndSpill(colorHeap: Heap, spillHeap: Heap, drop: bool, ghost p: Problem) returns (stale: bool)
      requires p.Valid() && FieldsMatch(p, Start(p))
      requires ColorHeapMatches(p, Start(p), colorHeap) && SpillHeapMatches(p, Start(p).spillHeap, spillHeap)
      requires colorHeap != spillHeap && colorHeap.items != spillHeap.items
      modifies this, graph, colorHeap`size, colorHeap.items, spillHeap`size, spillHeap.items
      ensures !stale ==> ColoringOf(p, reg, registersUsed)
      ensures drop ==> !stale
      ensures stale ==> HasLayers(p)
      ensures !drop && !stale ==> Empties(p)
    {
      hide *;
      ghost var st := Start(p);
      ReachesStart(p, drop);
      while graph.nodes != []
        invariant FieldsMatch(p, st) && Reachable(p, st, drop)
        invariant ColorHeapMatches(p, st, colorHeap) && SpillHeapMatches(p, st.spillHeap, spillHeap)
        decreases st.graph
      {
        NodesOfStage(p, st, this);
        st := ColorAll(colorHeap, spillHeap, p, st, drop);
        NodesOfStage(p, st, this);
        if graph.nodes != [] {
          var node;
          ghost var st';
          node, st' := FindNodeToSpill(spillHeap, p, st, drop);
          if node !in graph.nodes {
            StaleTaken(p, st', node, drop);
            return true;
          }
          SameButSpillHeap(p, st, st', drop, colorHeap, this);
          SpillNode(node, drop, colorHeap, p, st');
          SpillIsNext(p, st', node, drop);
          st := Spilled(p, st', node, drop);
        }
      }
      NodesOfStage(p, st, this);
      EmptyGraphIsColored(p, st, drop);
      GraphEmptied(p, st, drop);
      stale := false;
    }
  }

  lemma NodesOfStage(p: Problem, st: Stage, pass: ColoringPass)
    requires pass.FieldsMatch(p, st)
    ensures p.Valid() && (st.graph == {} <==> pass.graph.nodes == [])
    ensures forall u: nat :: u in pass.graph.nodes <==> u in st.graph
    ensures pass.nodesToSpill == st.toSpill && pass.reg == st.reg && pass.registersUsed == st.used
  {
    assert forall u: nat :: u in pass.graph.nodes <==> u in pass.graph.Remaining();
    assert pass.graph.nodes != [] ==> pass.graph.nodes[0] in pass.graph.nodes;
  }

  lemma StaleTaken(p: Problem, st: Stage, u: nat, drop: bool)
    requires p.Valid() && Reachable(p, st, drop) && PopsNext(p, st, u) && u in st.toSpill && u !in st.graph
    ensures !drop && HasLayers(p)
  {
    if drop {
      DroppingPreventsStale(p, st, u);
    } else {
      StaleHasLayers(p, st, u);
    }
  }

  lemma GraphEmptied(p: Problem, st: Stage, drop: bool)
    requires p.Valid() && Reachable(p, st, drop) && st.graph == {}
    ensures !drop ==> Empties(p)
  {
  }

  lemma SameButSpillHeap(p: Problem, st: Stage, st': Stage, drop: bool, heap: Heap, pass: ColoringPass)
    requires pass.FieldsMatch(p, st) && ColorHeapMatches(p, st, heap) && st' == st.(spillHeap := st'.spillHeap)
    requires p.Valid() && Reachable(p, st', drop)
    ensures pass.FieldsMatch(p, st') && ColorHeapMatches(p, st', heap) && Invariant(p, st', drop)
  {
    ReachableInvariant(p, st', drop);
  }

  lemma SpillIsNext(p: Problem, st: Stage, u: nat, drop: bool)
    requires p.Valid() && Reachable(p, st, drop) && PopsNext(p, st, u) && u in st.toSpill && u in st.graph
    ensures Reachable(p, Spilled(p, st, u, drop), drop) && Spilled(p, st, u, drop).graph < st.graph
    ensures Spilled(p, st, u, drop).spillHeap == st.spillHeap - {u}
  {
    assert Takes(p, st, u, Spilled(p, st, u, drop), drop);
    ReachesNext(p, st, u, Spilled(p, st, u, drop), drop);
  }

  lemma StartFields(p: Problem, graph: set<nat>, reg: seq<int>, avoid: seq<set<nat>>)
    requires p.Valid() && graph == p.members
    requires |reg| == |avoid| == |p.cost| && forall u :: 0 <= u < |reg| ==> reg[u] == -1 && avoid[u] == {}
    ensures SameFields(Start(p).(toSpill := {}), graph, reg, avoid, {}, {})
  {
  }

  lemma NoNodes(cost: seq<int>, nodes: seq<nat>, numNeighbors: seq<int>)
    ensures HeapHolds(cost, [], Few(nodes[..0], numNeighbors)) && HeapHolds(cost, [], Many(nodes[..0], numNeighbors))
    ensures Many(nodes[..0], numNeighbors) == {}
  {
    assert Few(nodes[..0], numNeighbors) == {} && Many(nodes[..0], numNeighbors) == {};
    assert EntriesOf(cost, {}) == {};
  }

  ghost function Few(list: seq<nat>, numNeighbors: seq<int>): set<nat> {
    set u | u in list && u < |numNeighbors| && numNeighbors[u] < NUM_REGISTERS
  }

  ghost function Many(list: seq<nat>, numNeighbors: seq<int>): set<nat> {
    set u | u in list && u < |numNeighbors| && numNeighbors[u] >= NUM_REGISTERS
  }

  lemma ListedNodes(
      r: set<nat>, nodes: seq<nat>, neighbors: seq<seq<nat>>, numNeighbors: seq<int>, neighborSet: seq<set<nat>>)
    requires Consistent(r, nodes, neighbors, numNeighbors, neighborSet)
    ensures |numNeighbors| == |neighborSet|
    ensures Enumerates(nodes, NodesIn(nodes))
    ensures forall k :: 0 <= k < |nodes| ==> nodes[k] < |numNeighbors|
  {
    forall u: nat ensures u in nodes <==> u in r {
      EnumeratedElements(nodes, r, u);
    }
    assert NodesIn(nodes) == r;
    forall k | 0 <= k < |nodes| ensures nodes[k] < |numNeighbors| {
      assert nodes[k] in nodes;
    }
  }

  lemma OneMoreListed(list: seq<nat>, k: nat, numNeighbors: seq<int>)
    requires k < |list| && list[k] < |numNeighbors| && Enumerates(list, NodesIn(list))
    ensures list[k] !in Few(list[..k], numNeighbors) && list[k] !in Many(list[..k], numNeighbors)
    ensures Few(list[..k + 1], numNeighbors) ==
            Few(list[..k], numNeighbors) + (if numNeighbors[list[k]] < NUM_REGISTERS then {list[k]} else {})
    ensures Many(list[..k + 1], numNeighbors) ==
            Many(list[..k], numNeighbors) + (if numNeighbors[list[k]] < NUM_REGISTERS then {} else {list[k]})
  {
    assert list[..k + 1] == list[..k] + [list[k]];
    OnceInList(list, k, NodesIn(list));
  }

  /** At the start the numbers of neighbours are the degrees of the problem. */
  lemma StartMatches(p: Problem, nodes: seq<nat>, neighbors: seq<seq<nat>>, numNeighbors: seq<int>)
    requires p.Valid() && p.registers == NUM_REGISTERS
    requires Consistent(p.members, nodes, neighbors, numNeighbors, p.adjacent)
    ensures Few(nodes, numNeighbors) == Start(p).toColor && Many(nodes, numNeighbors) == Start(p).spillHeap
  {
    forall u: nat ensures u in nodes <==> u in p.members {
      EnumeratedElements(nodes, p.members, u);
    }
    forall u | u in p.members ensures numNeighbors[u] == |p.adjacent[u]| {
      assert ListsNeighbors(p.members, p.adjacent[u], neighbors[u], numNeighbors[u]);
      assert p.adjacent[u] * p.members == p.adjacent[u];
      EnumeratedSize(neighbors[u], p.adjacent[u]);
    }
  }

  ghost predicate SpillHeapMatches(p: Problem, nodes: set<nat>, heap: Heap)
    reads heap, heap.items
  {
    && heap.Valid() && heap.min && heap.items.Length == |p.cost|
    && HeapHolds(p.cost, heap.Entries(), nodes) && HeapFrom(true, heap.Entries(), 0)
  }

  lemma SpillHeapNotEmpty(p: Problem, st: Stage, drop: bool)
    requires p.Valid() && Reachable(p, st, drop) && st.graph != {} && st.toColor == {}
    ensures st.spillHeap != {}
  {
    Progress(p, st, drop);
  }

  lemma PopIsNext(p: Problem, st: Stage, u: nat, drop: bool)
    requires p.Valid() && Reachable(p, st, drop) && st.graph != {} && st.toColor == {} && LowestCost(p, st.spillHeap, u)
    ensures PopsNext(p, st, u)
  {
    ReachableInvariant(p, st, drop);
  }

  lemma SpilledFields(
      p: Problem, st: Stage, u: nat, drop: bool,
      graph: set<nat>, reg: seq<int>, avoid: seq<set<nat>>, used: set<nat>, toSpill: set<nat>)
    requires p.Valid() && u < |p.adjacent|
    requires graph == st.graph - {u} && reg == st.reg && used == st.used
    requires avoid == AvoidWith(st.avoid, p.adjacent[u] * st.graph, -1)
    requires toSpill == if drop then st.toSpill - Promoted(p, st, u) else st.toSpill
    ensures SameFields(Spilled(p, st, u, drop), graph, reg, avoid, used, toSpill)
    ensures Spilled(p, st, u, drop).toColor == st.toColor + Promoted(p, st, u) && !Spilled(p, st, u, drop).ordered
  {
    assert AvoidWith(st.avoid, p.adjacent[u] * st.graph, -1) == st.avoid;
  }

  /** The heap of nodes to colour is that of the stage. */
  ghost predicate ColorHeapMatches(p: Problem, st: Stage, heap: Heap)
    reads heap, heap.items
  {
    && heap.Valid() && !heap.min && heap.items.Length == |p.cost|
    && HeapHolds(p.cost, heap.Entries(), st.toColor)
    && (st.ordered ==> HeapFrom(false, heap.Entries(), 0))
  }

  lemma HeapReordered(cost: seq<int>, entries: seq<Entry>, entries': seq<Entry>, nodes: set<nat>)
    requires HeapHolds(cost, entries, nodes) && multiset(entries') == multiset(entries)
    ensures HeapHolds(cost, entries', nodes)
  {
  }

  ghost predicate SameFields(
      st: Stage, graph: set<nat>, reg: seq<int>, avoid: seq<set<nat>>, used: set<nat>, toSpill: set<nat>)
  {
    st.graph == graph && st.reg == reg && st.avoid == avoid && st.used == used && st.toSpill == toSpill
  }

  lemma ProblemSizes(
      p: Problem, st: Stage, drop: bool,
      graph: set<nat>, reg: seq<int>, avoid: seq<set<nat>>, used: set<nat>, toSpill: set<nat>)
    requires p.Valid() && Invariant(p, st, drop) && SameFields(st, graph, reg, avoid, used, toSpill)
    ensures |reg| == |avoid| == |p.adjacent| == |p.cost| == |p.preferred|
    ensures graph == st.graph && avoid == st.avoid && reg == st.reg && used == st.used && toSpill == st.toSpill
  {
  }

  lemma ColoredFields(
      p: Problem, st: Stage, u: nat, graph: set<nat>, reg: seq<int>, avoid: seq<set<nat>>, used: set<nat>,
      toSpill: set<nat>)
    requires p.Valid() && u < |p.adjacent| == |st.reg| == |st.avoid|
    requires var r := PickRegister(p.registers, st.avoid[u], p.preferred[u]);
      && graph == st.graph - {u} && reg == st.reg[u := r]
      && avoid == AvoidWith(st.avoid, p.adjacent[u] * st.graph, r)
      && used == (if r >= 0 then st.used + {r} else st.used)
      && toSpill == st.toSpill - Promoted(p, st, u)
    ensures SameFields(Colored(p, st, u), graph, reg, avoid, used, toSpill)
    ensures Colored(p, st, u).toColor == st.toColor - {u} + Promoted(p, st, u)
  {
  }

  lemma NodeToColorFacts(p: Problem, st: Stage, u: nat, drop: bool)
    requires p.Valid() && Invariant(p, st, drop) && u in st.toColor
    ensures u in st.graph && u < |p.adjacent| && st.toColor !! Promoted(p, st, u)
  {
    forall v | v in st.toColor ensures v !in Promoted(p, st, u) {
      assert Waits(p, st, v);
    }
  }

  /** A heap with a slot for every id has room for a node that it does not hold. */
  lemma RoomForOne(cost: seq<int>, entries: seq<Entry>, nodes: set<nat>, v: nat)
    requires HeapHolds(cost, entries, nodes) && v !in nodes && v < |cost|
    ensures |entries| < |cost|
  {
    HeapSize(cost, entries, nodes);
    BoundedSize(|cost|, nodes + {v});
  }

  lemma PrefixStep(list: seq<nat>, k: nat, numNeighbors: seq<int>, avoid: seq<set<nat>>, r: int)
    requires k < |list| && list[k] < |avoid| && Enumerates(list, NodesIn(list)) && list[k] < |numNeighbors|
    ensures list[k] !in Full(list[..k], numNeighbors)
    ensures numNeighbors[list[k]] == NUM_REGISTERS ==> list[k] in Full(list, numNeighbors)
    ensures |AvoidWith(avoid, NodesIn(list[..k]), r)| == |avoid|
    ensures NodesIn(list[..k + 1]) == NodesIn(list[..k]) + {list[k]}
    ensures Full(list[..k + 1], numNeighbors) ==
            Full(list[..k], numNeighbors) + OneIfFull(numNeighbors, list[k])
    ensures AvoidWith(avoid, NodesIn(list[..k + 1]), r) ==
            if r >= 0 then AvoidWith(avoid, NodesIn(list[..k]),
              r)[list[k] := AvoidWith(avoid, NodesIn(list[..k]), r)[list[k]] + {r}]
            else AvoidWith(avoid, NodesIn(list[..k]), r)
  {
    assert list[..k + 1] == list[..k] + [list[k]];
    OnceInList(list, k, NodesIn(list));
  }

  /** The lists of the graph show the neighbours in the graph and which of them are full. */
  lemma NeighborsOfStage(
      p: Problem, st: Stage, nodes: seq<nat>, neighbors: seq<seq<nat>>, numNeighbors: seq<int>, u: nat)
    requires p.Valid() && p.registers == NUM_REGISTERS
              && Consistent(st.graph, nodes, neighbors, numNeighbors, p.adjacent)
    requires u in st.graph
    ensures u < |neighbors| == |numNeighbors| == |p.adjacent|
    ensures NodesIn(neighbors[u]) == p.adjacent[u] * st.graph && Enumerates(neighbors[u], NodesIn(neighbors[u]))
    ensures Full(neighbors[u], numNeighbors) == Promoted(p, st, u)
    ensures forall k :: 0 <= k < |neighbors[u]| ==> neighbors[u][k] < |p.adjacent|
  {
    assert ListsNeighbors(st.graph, p.adjacent[u], neighbors[u], numNeighbors[u]);
    forall v: nat ensures v in neighbors[u] <==> v in p.adjacent[u] * st.graph {
      EnumeratedElements(neighbors[u], p.adjacent[u] * st.graph, v);
    }
    assert NodesIn(neighbors[u]) == p.adjacent[u] * st.graph;
    forall v | v in st.graph ensures numNeighbors[v] == Degree(p, st, v) {
      assert ListsNeighbors(st.graph, p.adjacent[v], neighbors[v], numNeighbors[v]);
      EnumeratedSize(neighbors[v], p.adjacent[v] * st.graph);
    }
    forall k | 0 <= k < |neighbors[u]| ensures neighbors[u][k] < |p.adjacent| {
      assert neighbors[u][k] in neighbors[u];
    }
  }

  lemma WaitingToColor(p: Problem, st: Stage, drop: bool, heap: Heap, pass: ColoringPass)
    requires pass.FieldsMatch(p, st) && Reachable(p, st, drop) && ColorHeapMatches(p, st, heap) && heap.size > 0
    ensures st.toColor != {} && Invariant(p, st, drop) && p.Valid()
  {
    HeapSize(p.cost, heap.Entries(), st.toColor);
    ReachableInvariant(p, st, drop);
  }

  lemma ColorIsNext(p: Problem, st: Stage, u: nat, drop: bool)
    requires p.Valid() && Reachable(p, st, drop) && ColorsNext(p, st, u)
    ensures Reachable(p, Colored(p, st, u), drop) && Colored(p, st, u).graph < st.graph
    ensures Colored(p, st, u).spillHeap == st.spillHeap
  {
    ReachableInvariant(p, st, drop);
    assert Takes(p, st, u, Colored(p, st, u), drop);
    ReachesNext(p, st, u, Colored(p, st, u), drop);
  }
}
