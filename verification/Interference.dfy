/**
 * The interference graph of a function (create_interference_graph and
 * create_interference_graph_connections, code_optimization.c).
 */
module Interference {
  import opened Instructions
  import opened ControlFlow
  import opened Liveness
  import opened Graphs
  import opened RegisterMachine
  import Coloring

  /** The ids read as operands; address temporaries do not compete for registers. */
  function ReadIds(i: Instruction): set<nat> {
    (if IsRhsVariable(i) && IsLocal(i.src1) && i.src1.value.typ != AddrType then {i.src1.value.id} else {})
    + (if IsRhsVariable(i) && IsLocal(i.src2) && i.src2.value.typ != AddrType then {i.src2.value.id} else {})
  }

  function NowBefore(i: Instruction, after: set<nat>): set<nat> {
    if i.dead then after else after - DefinedIds(i) + ReadIds(i)
  }

  /** live_now before position `p` of a block that ends at `end`. */
  function NowAt(code: Code, p: nat, end: nat, out: set<nat>): set<nat>
    requires end < |code|
    decreases end + 1 - p
  {
    if p > end then out else NowBefore(code[p], NowAt(code, p + 1, end, out))
  }

  ghost function NowAfter(code: Code, entry: nat, g: Cfg, outs: seq<set<nat>>, p: nat): set<nat>
    requires Placed(code, entry, g) && |outs| == |g.first| && entry <= p < |code|
  {
    NowAt(code, p + 1, End(g, g.blockOf[p].value), outs[g.blockOf[p].value])
  }

  /** The instruction mentions no address temporary with the id `v`. */
  predicate NoAddress(i: Instruction, v: nat) {
    && (i.dest.Some? && i.dest.value.typ == AddrType ==> i.dest.value.id != v)
    && (i.src1.Some? && i.src1.value.typ == AddrType ==> i.src1.value.id != v)
    && (i.src2.Some? && i.src2.value.typ == AddrType ==> i.src2.value.id != v)
  }

  /** Whatever is live and no address is in live_now. */
  lemma {:induction false} LiveIsNow(code: Code, p: nat, end: nat, out: set<nat>, v: nat)
    requires end < |code| && forall q :: p <= q <= end ==> NoAddress(code[q], v) && WellFormed(code[q])
    ensures v in LiveAt(code, p, end, out) ==> v in NowAt(code, p, end, out)
    decreases end + 1 - p
  {
    if p <= end {
      LiveIsNow(code, p + 1, end, out, v);
    }
  }

  // ---------------------------------------------------------------- interference

  predicate HasNode(table: seq<Symbol>, x: Symbol) {
    x in table && IsCandidate(x)
  }

  ghost predicate HasId(table: seq<Symbol>, u: nat) {
    exists x :: x in table && !x.isFormal && x.id == u
  }

  ghost predicate IsNode(table: seq<Symbol>, u: nat) {
    exists x :: HasNode(table, x) && x.id == u
  }

  /** An assignment to `d` keeps the variable with the id `v`, which is live after it, out of the register of `u`. */
  ghost predicate Conflicts(table: seq<Symbol>, d: Option<Symbol>, now: set<nat>, u: nat, v: nat) {
    d.Some? && HasNode(table, d.value) && d.value.id == u && v in now && v != u && IsNode(table, v)
  }

  ghost predicate ConflictAt(table: seq<Symbol>, i: Instruction, now: set<nat>, u: nat, v: nat) {
    !i.dead && (Conflicts(table, i.dest, now, u, v) || Conflicts(table, i.dest, now, v, u))
  }

  /** The edges of `ns'` are those of `ns` and those that an assignment to `d` adds. */
  ghost predicate AddsConflicts(
      table: seq<Symbol>, d: Option<Symbol>, now: set<nat>, ns: seq<set<nat>>, ns': seq<set<nat>>)
  {
    && |ns'| == |ns|
    && forall u: nat, v: nat :: u < |ns| ==>
         (v in ns'[u] <==> v in ns[u] || Conflicts(table, d, now, u, v) || Conflicts(table, d, now, v, u))
  }

  ghost predicate Interfere(
      code: Code, entry: nat, g: Cfg, outs: seq<set<nat>>, table: seq<Symbol>, p: nat, u: nat, v: nat)
    requires Placed(code, entry, g) && |outs| == |g.first|
  {
    entry <= p < |code| && ConflictAt(table, code[p], NowAfter(code, entry, g, outs, p), u, v)
  }

  ghost predicate InterfereSomewhere(
      code: Code, entry: nat, g: Cfg, outs: seq<set<nat>>, table: seq<Symbol>, done: set<nat>, u: nat, v: nat)
    requires Placed(code, entry, g) && |outs| == |g.first|
  {
    exists p :: p in done && Interfere(code, entry, g, outs, table, p, u, v)
  }

  /** The edges are exactly the interferences of the treated positions. */
  ghost predicate ExactEdges(
      code: Code, entry: nat, g: Cfg, outs: seq<set<nat>>, table: seq<Symbol>, done: set<nat>,
      neighborSet: seq<set<nat>>)
    requires Placed(code, entry, g) && |outs| == |g.first|
  {
    forall u: nat, v: nat :: u < |neighborSet| ==>
      (v in neighborSet[u] <==> InterfereSomewhere(code, entry, g, outs, table, done, u, v))
  }

  // ---------------------------------------------------------------- registers of callees

  /** The registers of the function that the instruction calls, if its code exists. */
  function CalleeRegisters(entered: map<Symbol, set<nat>>, i: Instruction): set<nat> {
    if !i.dead && i.op == Call && i.src1.Some? && i.src1.value in entered then entered[i.src1.value] else {}
  }

  /** Is the variable with the id `u` live across the call at `p`? */
  ghost predicate LiveAcross(code: Code, entry: nat, g: Cfg, outs: seq<set<nat>>, p: nat, u: nat)
    requires Placed(code, entry, g) && |outs| == |g.first|
  {
    entry <= p < |code| && !code[p].dead && code[p].op == Call && u in NowAfter(code, entry, g, outs, p)
  }

  /** One of the treated calls uses the register. */
  ghost predicate UsedByCallee(code: Code, entered: map<Symbol, set<nat>>, done: set<nat>, r: nat) {
    exists p :: p in done && p < |code| && r in CalleeRegisters(entered, code[p])
  }

  /** One of the treated calls uses the register while the variable is live. */
  ghost predicate UsedAcross(
      code: Code, entry: nat, g: Cfg, outs: seq<set<nat>>, entered: map<Symbol, set<nat>>, done: set<nat>, u: nat,
      r: nat)
    requires Placed(code, entry, g) && |outs| == |g.first|
  {
    exists p :: p in done && LiveAcross(code, entry, g, outs, p, u) && r in CalleeRegisters(entered, code[p])
  }

  /** One of the treated calls, over which the variable is live, is a call of `header`. */
  ghost predicate Recursive(
      code: Code, entry: nat, g: Cfg, outs: seq<set<nat>>, header: Symbol, done: set<nat>, u: nat)
    requires Placed(code, entry, g) && |outs| == |g.first|
  {
    exists p :: p in done && LiveAcross(code, entry, g, outs, p, u) && code[p].src1 == Some(header)
  }

  /**
   * A variable prefers the registers that no call uses while it is live. Where that is a recursive
   * call, the registers of all callees may count as used.
   */
  ghost predicate ExactPreference(
      code: Code, entry: nat, g: Cfg, outs: seq<set<nat>>, table: seq<Symbol>, header: Symbol,
      entered: map<Symbol, set<nat>>, done: set<nat>, preferred: seq<set<nat>>)
    requires Placed(code, entry, g) && |outs| == |g.first|
  {
    forall u: nat, r: nat :: u < |preferred| && IsNode(table, u) && r < Coloring.NUM_REGISTERS ==>
      && (UsedAcross(code, entry, g, outs, entered, done, u, r) ==> r !in preferred[u])
      && (r !in preferred[u] ==>
            || UsedAcross(code, entry, g, outs, entered, done, u, r)
            || (Recursive(code, entry, g, outs, header, done, u) && UsedByCallee(code, entered, done, r)))
  }

  /** What is recorded of callees: as at the start, but for the function itself. */
  ghost predicate EnteredGrows(
      code: Code, header: Symbol, start: map<Symbol, set<nat>>, done: set<nat>, entered: map<Symbol, set<nat>>)
  {
    && entered.Keys == start.Keys && header in start && start[header] == {}
    && (forall x :: x in start && x != header ==> entered[x] == start[x])
    && (forall r :: r in entered[header] ==> UsedByCallee(code, start, done, r))
  }

  ghost predicate TakesOff(
      table: seq<Symbol>, now: set<nat>, registers: set<nat>, before: seq<set<nat>>, after: seq<set<nat>>) {
    && |after| == |before|
    && forall u: nat :: u < |before| ==>
         after[u] == if u in now && IsNode(table, u) then before[u] - registers else before[u]
  }

  /** The calls treated are recorded with what is live after them. */
  ghost predicate RecordsCalls(
      code: Code, entry: nat, g: Cfg, outs: seq<set<nat>>, done: set<nat>, liveAtCall: seq<set<nat>>)
    requires Placed(code, entry, g) && |outs| == |g.first|
  {
    && |liveAtCall| == |code|
    && forall p :: p in done && entry <= p < |code| && !code[p].dead && code[p].op == Call ==>
         liveAtCall[p] == NowAfter(code, entry, g, outs, p)
  }

  /** Every id below the total belongs to one local variable that is no formal; formals never get an id of their own. */
  ghost predicate TableFits(table: seq<Symbol>, total: nat) {
    && TableOk(table)
    && (forall x :: x in table ==> if x.isFormal then x.id == 0 else x.id < total)
    && (forall u: nat :: u < total ==> HasId(table, u))
    && (forall k, j :: 0 <= k < j < |table| ==> table[k] != table[j])
  }

  /** A local character, integer or truth value that is no formal. */
  ghost predicate Competes(x: Symbol) {
    x.scope == Local && !x.isConstant && !x.isFormal && (x.typ == CharType || x.typ == IntType || x.typ == BoolType)
  }

  /** These variables are the nodes of the graph, and arrays, addresses and formals are not. */
  ghost predicate NodesByType(table: seq<Symbol>, nodes: set<nat>) {
    && (forall x :: x in table && Competes(x) ==> x.id in nodes)
    && (forall u :: u in nodes ==> exists x ::
          x in table && x.id == u && !x.isFormal && x.typ != ArrayType && x.typ != AddrType)
  }

  lemma NodesHaveTypes(table: seq<Symbol>, nodes: set<nat>)
    requires NodesAre(table, nodes)
    ensures NodesByType(table, nodes)
  {
    forall x | x in table && IsCandidate(x) ensures x.id in nodes {
      assert HasNode(table, x);
    }
  }

  class InterferenceBuilder {
    const graph: InterferenceGraph
    const table: seq<Symbol>
    const total: nat
    const header: Symbol
    var entered: map<Symbol, set<nat>>
    var byId: map<nat, Symbol>
    var preferred: seq<set<nat>>
    var liveAtCall: seq<set<nat>>

    /** `entered` gives the registers of the functions whose code exists already. */
    constructor (table: seq<Symbol>, total: nat, header: Symbol, entered: map<Symbol, set<nat>>, codeLength: nat)
      ensures this.table == table && this.total == total && this.header == header && byId == map[]
      ensures this.entered == entered[header := {}]
      ensures fresh(graph) && graph.Valid() && graph.Remaining() == {} && |graph.neighborSet| == total
      ensures forall u :: 0 <= u < total ==> graph.neighborSet[u] == {}
      ensures |preferred| == total && |liveAtCall| == codeLength
      ensures forall u :: 0 <= u < total ==> preferred[u] == Coloring.Registers(Coloring.NUM_REGISTERS)
      ensures forall p :: 0 <= p < codeLength ==> liveAtCall[p] == {}
    {
      this.table, this.total, this.header, byId := table, total, header, map[];
      this.entered := entered[header := {}];
      preferred, liveAtCall := seq(total, _ => Coloring.Registers(Coloring.NUM_REGISTERS)), seq(codeLength, _ => {});
      graph := new InterferenceGraph(total);
    }

    /** The nodes of the graph are those of the candidates, and variables are found by their id. */
    ghost predicate Valid()
      reads this, graph
    {
      && TableFits(table, total) && graph.Valid() && |graph.neighborSet| == total == |preferred|
      && NodesAre(table, graph.Remaining()) && FoundById(table, byId)
    }

    /** Makes a node for every variable that competes for a register. */
    method CreateInterferenceGraph()
      requires TableFits(table, total) && graph.Valid() && graph.Remaining() == {} && |graph.neighborSet| == total
      requires forall u :: 0 <= u < total ==> graph.neighborSet[u] == {}
      requires |preferred| == total
      modifies this`byId, graph
      ensures Valid() && NodesByType(table, graph.Remaining())
      ensures forall u :: 0 <= u < total ==> graph.neighborSet[u] == {}
    {
      byId := map[];
      assert NodesAre(table[..0], graph.Remaining());
      for k := 0 to |table|
        invariant graph.Valid() && |graph.neighborSet| == total
        invariant forall u :: 0 <= u < total ==> graph.neighborSet[u] == {}
        invariant NodesAre(table[..k], graph.Remaining()) && FoundById(table[..k], byId)
      {
        var x := table[k];
        assert x in table;
        OneMoreNode(table, k, graph.Remaining());
        OneMoreId(table, k, byId);
        hide InterferenceGraph.Valid, InterferenceGraph.Remaining, IsCandidate, NodesAre, FoundById;
        if IsCandidate(x) {
          graph.AddNode(x.id);
        }
        if !x.isFormal {
          byId := byId[x.id := x];
        }
      }
      assert table[..|table|] == table;
      NodesHaveTypes(table, graph.Remaining());
    }

    /** Adds an edge between the node of `d` and that of the variable with the id `i`, if both have one. */
    method LinkOne(d: Symbol, i: nat, ghost now: set<nat>, ghost ns: seq<set<nat>>)
      requires Valid() && i < total && AddsConflicts(table, Some(d), now, ns, graph.neighborSet)
      modifies graph
      ensures Valid() && AddsConflicts(table, Some(d), now + {i}, ns, graph.neighborSet)
    {
      VariableById(table, total, byId, graph.Remaining(), i);
      VariableWithNode(table, total, byId, graph.Remaining(), d);
      var x := byId[i];
      ghost var before := graph.neighborSet;
      hide InterferenceGraph.Valid, InterferenceGraph.Remaining, IsCandidate, HasNode, NodesAre, FoundById, TableFits;
      hide AddsConflicts, IsNode;
      if IsCandidate(x) && d != x && HasNode(table, d) {
        graph.AddEdge(d.id, i);
      }
      OneMoreLinked(table, d, x, now, ns, before, graph.neighborSet);
    }

    /** Adds an edge from the node of `d` to every node that is live, other than that of `d`. */
    method LinkToLive(d: Symbol, now: set<nat>)
      requires Valid()
      modifies graph
      ensures Valid() && AddsConflicts(table, Some(d), now, old(graph.neighborSet), graph.neighborSet)
    {
      hide *;
      var rest, i := now, 0;
      NothingLinked(table, Some(d), now, graph.neighborSet);
      while i < total && rest != {}
        invariant Valid() && 0 <= i <= total && rest <= now && forall u :: u in rest ==> i <= u
        invariant AddsConflicts(table, Some(d), now - rest, old(graph.neighborSet), graph.neighborSet)
      {
        if i in rest {
          LinkOne(d, i, now - rest, old(graph.neighborSet));
          assert now - rest + {i} == now - (rest - {i});
          rest := rest - {i};
        }
        i := i + 1;
      }
      AllLinked(table, total, d, now, rest, old(graph.neighborSet), graph.neighborSet, this);
    }

    method TakeOffOne(i: nat, registers: set<nat>, ghost now: set<nat>, ghost before: seq<set<nat>>)
      requires Valid() && i < total && i !in now && TakesOff(table, now, registers, before, preferred)
      modifies this`preferred
      ensures Valid() && TakesOff(table, now + {i}, registers, before, preferred)
    {
      VariableById(table, total, byId, graph.Remaining(), i);
      OneMoreTakenOff(table, i, now, registers, before, preferred,
                      if IsNode(table, i) then preferred[i := preferred[i] - registers] else preferred);
      hide IsCandidate, IsNode, TakesOff, TableFits;
      if IsCandidate(byId[i]) {
        preferred := preferred[i := preferred[i] - registers];
      }
    }

    /** Takes the registers of a callee off the preferred ones of every variable that is live. */
    method TakeOffLive(registers: set<nat>, now: set<nat>)
      requires Valid()
      modifies this`preferred
      ensures Valid() && TakesOff(table, now, registers, old(preferred), preferred)
    {
      PreferredSize();
      hide *;
      var rest, i := now, 0;
      NothingTakenOff(table, now, registers, preferred);
      while i < total && rest != {}
        invariant Valid() && 0 <= i <= total && rest <= now && forall u :: u in rest ==> i <= u
        invariant TakesOff(table, now - rest, registers, old(preferred), preferred)
      {
        if i in rest {
          TakeOffOne(i, registers, now - rest, old(preferred));
          assert now - rest + {i} == now - (rest - {i});
          rest := rest - {i};
        }
        i := i + 1;
      }
      AllTakenOff(table, now, rest, registers, old(preferred), preferred);
    }

    lemma PreferredSize()
      requires Valid()
      ensures |preferred| == total
    {
    }

    method RecordRegisters(callee: Symbol)
      requires Valid() && header in entered && callee in entered
      modifies this`entered
      ensures Valid() && entered == old(entered[header := entered[header] + entered[callee]])
    {
      entered := entered[header := entered[header] + entered[callee]];
    }

    method RecordLive(p: nat, now: set<nat>)
      requires Valid() && p < |liveAtCall|
      modifies this`liveAtCall
      ensures Valid() && liveAtCall == old(liveAtCall)[p := now]
    {
      liveAtCall := liveAtCall[p := now];
    }

    /** What the instruction at `p` adds to the graph, to the preferences and to the records of calls. */
    method ConnectInstruction(i: Instruction, p: nat, now: set<nat>)
      requires Valid() && p < |liveAtCall| && WellFormed(i) && !i.dead && header in entered
      modifies this`preferred, this`entered, this`liveAtCall, graph
      ensures Valid() && AddsConflicts(table, i.dest, now, old(graph.neighborSet), graph.neighborSet)
      ensures liveAtCall == if i.op == Call then old(liveAtCall)[p := now] else old(liveAtCall)
      ensures entered == old(EnteredAfter(entered, header, i, now))
      ensures TakesOff(table, now, CalleeRegisters(entered, i), old(preferred), preferred)
    {
      hide *;
      NothingTakenOff(table, now, CalleeRegisters(entered, i), preferred);
      CalleeAfter(entered, header, i, now);
      DestinationLinks(table, i, now, graph.neighborSet);
      if i.op == Call {
        if i.src1.value in entered && now != {} {
          RecordRegisters(i.src1.value);
          TakeOffLive(entered[i.src1.value], now);
        }
        RecordLive(p, now);
      } else if DefinedIds(i) != {} && now != {} {
        LinkToLive(i.dest.value, now);
      }
    }

    /** The graph, the preferences and the records are those of the treated positions. */
    ghost predicate Connected(
        code: Code, entry: nat, g: Cfg, outs: seq<set<nat>>, start: map<Symbol, set<nat>>, done: set<nat>)
      requires Placed(code, entry, g) && |outs| == |g.first|
      reads this, graph
    {
      && Valid() && RecordsCalls(code, entry, g, outs, done, liveAtCall)
      && ExactEdges(code, entry, g, outs, table, done, graph.neighborSet)
      && EnteredGrows(code, header, start, done, entered)
      && ExactPreference(code, entry, g, outs, table, header, start, done, preferred)
    }

    /** Treats the instruction at `p`, unless it is dead. */
    method ConnectAt(
        code: Code, p: nat, now: set<nat>, ghost entry: nat, ghost g: Cfg, ghost outs: seq<set<nat>>,
        ghost start: map<Symbol, set<nat>>, ghost done: set<nat>)
      returns (before: set<nat>)
      requires Placed(code, entry, g) && |outs| == |g.first| && entry <= p < |code| && WellFormed(code[p])
      requires now == NowAfter(code, entry, g, outs, p)
      requires Connected(code, entry, g, outs, start, done)
      modifies this`preferred, this`entered, this`liveAtCall, graph
      ensures Connected(code, entry, g, outs, start, done + {p})
      ensures before == NowBefore(code[p], now)
    {
      var i := code[p];
      before := now;
      ConnectedFacts(code, entry, g, outs, start, done, this);
      if i.dead {
        DeadConnects(code, entry, g, outs, start, done, p, this);
      } else {
        hide *;
        ConnectInstruction(i, p, now);
        InstructionConnects(code, entry, g, outs, table, header, start, done, p,
                            old(graph.neighborSet), old(entered), old(preferred), old(liveAtCall), this);
        before := before - DefinedIds(i);
        before := before + ReadIds(i);
        BeforeIsNow(i, now);
      }
    }

    /** Treats the instructions of a block, from its last to its first. */
    method ConnectBlock(
        code: Code, b: nat, out: set<nat>, g: Cfg, ghost entry: nat, ghost outs: seq<set<nat>>,
        ghost start: map<Symbol, set<nat>>, ghost done: set<nat>)
      requires WellFormedCode(code, entry) && Placed(code, entry, g) && |outs| == |g.first| && b < |g.first|
                && out == outs[b]
      requires Connected(code, entry, g, outs, start, done)
      modifies this`preferred, this`entered, this`liveAtCall, graph
      ensures Connected(code, entry, g, outs, start, done + Positions(g.first[b], End(g, b)))
    {
      BlockShape(code, entry, g, b);
      hide *;
      if g.last[b].None? {
        EnterConnects(code, entry, g, outs, start, done, b, this);
        return;
      }
      var now := out;
      var p: int := g.last[b].value;
      LastPosition(code, g, b, done, out);
      while 0 <= p && g.blockOf[p] == Some(b)
        invariant g.first[b] - 1 <= p <= End(g, b) && End(g, b) < |code|
        invariant now == NowAt(code, p + 1, End(g, b), out)
        invariant Connected(code, entry, g, outs, start, done + Positions(p + 1, End(g, b)))
      {
        BlockPosition(code, entry, g, outs, b, p, done);
        now := ConnectAt(code, p, now, entry, g, outs, start, done + Positions(p + 1, End(g, b)));
        p := p - 1;
      }
      assert p + 1 == g.first[b];
    }

    /** Treats all blocks. */
    method CreateConnections(code: Code, g: Cfg, outs: seq<set<nat>>, ghost entry: nat)
      requires WellFormedCode(code, entry) && Placed(code, entry, g) && |outs| == |g.first|
      requires Valid() && |liveAtCall| == |code| && header in entered && entered[header] == {}
      requires forall u :: 0 <= u < total ==> graph.neighborSet[u] == {}
      requires forall u :: 0 <= u < total ==> preferred[u] == Coloring.Registers(Coloring.NUM_REGISTERS)
      modifies this`preferred, this`entered, this`liveAtCall, graph
      ensures Connected(code, entry, g, outs, old(entered), Positions(entry, |code| - 1))
    {
      ghost var start := entered;
      NothingConnected(code, entry, g, outs, this);
      hide *;
      for b := |g.first| downto 0
        invariant Connected(code, entry, g, outs, start, PositionsFrom(g, b))
      {
        ConnectBlock(code, b, outs[b], g, entry, outs, start, PositionsFrom(g, b + 1));
        OneMoreBlock(code, entry, g, b);
      }
      AllPositions(code, entry, g);
    }
  }

  ghost function Positions(low: nat, high: int): (r: set<nat>)
    ensures forall p: nat :: p in r <==> low <= p <= high
    decreases high + 1 - low
  {
    if low > high then {} else {low} + Positions(low + 1, high)
  }

  /** The positions in the blocks from `b` on. */
  ghost function PositionsFrom(g: Cfg, b: nat): set<nat> {
    set p: nat | p < |g.blockOf| && g.blockOf[p].Some? && b <= g.blockOf[p].value
  }

  lemma BlockShape(code: Code, entry: nat, g: Cfg, b: nat)
    requires WellFormedCode(code, entry) && Placed(code, entry, g) && b < |g.first|
    ensures |g.first| == |g.last| && g.first[b] <= End(g, b) < |code| == |g.blockOf|
    ensures g.last[b].Some? ==> End(g, b) == g.last[b].value
    ensures forall p :: 0 <= p < |code| ==> (g.blockOf[p] == Some(b) <==> g.first[b] <= p <= End(g, b))
    ensures forall p :: 0 <= p < |code| ==> WellFormed(code[p])
  {
  }

  lemma EnterConnects(
      code: Code, entry: nat, g: Cfg, outs: seq<set<nat>>, start: map<Symbol, set<nat>>, done: set<nat>, b: nat,
      builder: InterferenceBuilder)
    requires Placed(code, entry, g) && |outs| == |g.first| && b < |g.first| && g.last[b].None?
    requires builder.Connected(code, entry, g, outs, start, done)
    ensures builder.Connected(code, entry, g, outs, start, done + Positions(g.first[b], End(g, b)))
  {
    assert Positions(g.first[b], End(g, b)) == {g.first[b]};
    assert g.blockOf[g.first[b]] == Some(b);
    DeadConnects(code, entry, g, outs, start, done, g.first[b], builder);
  }

  lemma LastPosition(code: Code, g: Cfg, b: nat, done: set<nat>, out: set<nat>)
    requires b < |g.first| == |g.last| && End(g, b) < |code|
    ensures NowAt(code, End(g, b) + 1, End(g, b), out) == out && done + Positions(End(g, b) + 1, End(g, b)) == done
  {
  }

  lemma BlockPosition(code: Code, entry: nat, g: Cfg, outs: seq<set<nat>>, b: nat, p: nat, done: set<nat>)
    requires Placed(code, entry, g) && |outs| == |g.first| && b < |g.first| && p < |code| && g.blockOf[p] == Some(b)
    ensures entry <= p <= End(g, b) < |code|
    ensures NowAfter(code, entry, g, outs, p) == NowAt(code, p + 1, End(g, b), outs[b])
    ensures NowAt(code, p, End(g, b), outs[b]) == NowBefore(code[p], NowAt(code, p + 1, End(g, b), outs[b]))
    ensures done + Positions(p + 1, End(g, b)) + {p} == done + Positions(p, End(g, b))
  {
  }

  lemma NothingConnected(code: Code, entry: nat, g: Cfg, outs: seq<set<nat>>, builder: InterferenceBuilder)
    requires Placed(code, entry, g) && |outs| == |g.first|
    requires builder.Valid() && |builder.liveAtCall| == |code|
    requires builder.header in builder.entered && builder.entered[builder.header] == {}
    requires forall u :: 0 <= u < builder.total ==> builder.graph.neighborSet[u] == {}
    requires forall u :: 0 <= u < builder.total ==> builder.preferred[u] == Coloring.Registers(Coloring.NUM_REGISTERS)
    ensures builder.Connected(code, entry, g, outs, builder.entered, PositionsFrom(g, |g.first|))
  {
    assert PositionsFrom(g, |g.first|) == {};
  }

  lemma OneMoreBlock(code: Code, entry: nat, g: Cfg, b: nat)
    requires Placed(code, entry, g) && b < |g.first|
    ensures PositionsFrom(g, b + 1) + Positions(g.first[b], End(g, b)) == PositionsFrom(g, b)
  {
    forall p: nat ensures p in Positions(g.first[b], End(g, b)) <==> p < |code| && g.blockOf[p] == Some(b) {
    }
  }

  lemma AllPositions(code: Code, entry: nat, g: Cfg)
    requires Placed(code, entry, g)
    ensures PositionsFrom(g, 0) == Positions(entry, |code| - 1)
  {
  }

  lemma BeforeIsNow(i: Instruction, now: set<nat>)
    requires !i.dead
    ensures NowBefore(i, now) == now - DefinedIds(i) + ReadIds(i)
  {
  }

  lemma ConnectedFacts(
      code: Code, entry: nat, g: Cfg, outs: seq<set<nat>>, start: map<Symbol, set<nat>>, done: set<nat>,
      builder: InterferenceBuilder)
    requires Placed(code, entry, g) && |outs| == |g.first| && builder.Connected(code, entry, g, outs, start, done)
    ensures builder.Valid() && |builder.liveAtCall| == |code| && builder.header in builder.entered
    ensures RecordsCalls(code, entry, g, outs, done, builder.liveAtCall)
    ensures ExactEdges(code, entry, g, outs, builder.table, done, builder.graph.neighborSet)
    ensures EnteredGrows(code, builder.header, start, done, builder.entered)
    ensures ExactPreference(code, entry, g, outs, builder.table, builder.header, start, done, builder.preferred)
  {
  }

  lemma DeadConnects(
      code: Code, entry: nat, g: Cfg, outs: seq<set<nat>>, start: map<Symbol, set<nat>>, done: set<nat>, p: nat,
      builder: InterferenceBuilder)
    requires Placed(code, entry, g) && |outs| == |g.first| && entry <= p < |code|
    requires code[p].dead || (code[p].dest.None? && code[p].op != Call)
    requires WellFormed(code[p])
    requires builder.Connected(code, entry, g, outs, start, done)
    ensures builder.Connected(code, entry, g, outs, start, done + {p})
  {
    CalleeAfter(builder.entered, builder.header, code[p], NowAfter(code, entry, g, outs, p));
    EdgesStep(code, entry, g, outs, builder.table, done, p, builder.graph.neighborSet, builder.graph.neighborSet);
    PreferenceStep(code, entry, g, outs, builder.table, builder.header, start, done, p,
                   builder.entered, builder.entered, builder.preferred, builder.preferred);
  }

  lemma InstructionConnects(
      code: Code, entry: nat, g: Cfg, outs: seq<set<nat>>, table: seq<Symbol>, header: Symbol,
      start: map<Symbol, set<nat>>, done: set<nat>, p: nat,
      ns: seq<set<nat>>, entered: map<Symbol, set<nat>>, preferred: seq<set<nat>>, liveAtCall: seq<set<nat>>,
      builder: InterferenceBuilder)
    requires Placed(code, entry, g) && |outs| == |g.first| && entry <= p < |code| && !code[p].dead
    requires builder.Valid() && builder.table == table && builder.header == header && header in entered
    requires RecordsCalls(code, entry, g, outs, done, liveAtCall)
    requires ExactEdges(code, entry, g, outs, table, done, ns)
    requires EnteredGrows(code, header, start, done, entered)
    requires ExactPreference(code, entry, g, outs, table, header, start, done, preferred)
    requires var now := NowAfter(code, entry, g, outs, p);
      && AddsConflicts(table, code[p].dest, now, ns, builder.graph.neighborSet)
      && builder.liveAtCall == (if code[p].op == Call then liveAtCall[p := now] else liveAtCall)
      && builder.entered == EnteredAfter(entered, header, code[p], now)
      && TakesOff(table, now, CalleeRegisters(builder.entered, code[p]), preferred, builder.preferred)
    ensures builder.Connected(code, entry, g, outs, start, done + {p})
  {
    EdgesStep(code, entry, g, outs, table, done, p, ns, builder.graph.neighborSet);
    PreferenceStep(code, entry, g, outs, table, header, start, done, p,
                   entered, builder.entered, preferred, builder.preferred);
  }

  lemma EdgesStep(
      code: Code, entry: nat, g: Cfg, outs: seq<set<nat>>, table: seq<Symbol>, done: set<nat>, p: nat,
      ns: seq<set<nat>>, ns': seq<set<nat>>)
    requires Placed(code, entry, g) && |outs| == |g.first| && entry <= p < |code|
    requires ExactEdges(code, entry, g, outs, table, done, ns)
    requires if code[p].dead then ns' == ns
             else AddsConflicts(table, code[p].dest, NowAfter(code, entry, g, outs, p), ns, ns')
    ensures ExactEdges(code, entry, g, outs, table, done + {p}, ns')
  {
  }

  lemma PreferenceStep(
      code: Code, entry: nat, g: Cfg, outs: seq<set<nat>>, table: seq<Symbol>, header: Symbol,
      start: map<Symbol, set<nat>>, done: set<nat>, p: nat,
      entered: map<Symbol, set<nat>>, entered': map<Symbol, set<nat>>, preferred: seq<set<nat>>,
      preferred': seq<set<nat>>)
    requires Placed(code, entry, g) && |outs| == |g.first| && entry <= p < |code|
    requires EnteredGrows(code, header, start, done, entered)
    requires ExactPreference(code, entry, g, outs, table, header, start, done, preferred)
    requires entered' == EnteredAfter(entered, header, code[p], NowAfter(code, entry, g, outs, p))
    requires TakesOff(table, NowAfter(code, entry, g, outs, p), CalleeRegisters(entered', code[p]), preferred,
              preferred')
    ensures EnteredGrows(code, header, start, done + {p}, entered')
    ensures ExactPreference(code, entry, g, outs, table, header, start, done + {p}, preferred')
  {
    hide NowAfter, GraphShape;
    var i := code[p];
    forall u: nat, r: nat | u < |preferred'| && IsNode(table, u) && r < Coloring.NUM_REGISTERS
      ensures UsedAcross(code, entry, g, outs, start, done + {p}, u, r) ==> r !in preferred'[u]
      ensures r !in preferred'[u] ==>
                || UsedAcross(code, entry, g, outs, start, done + {p}, u, r)
                || (Recursive(code, entry, g, outs, header, done + {p}, u) && UsedByCallee(code, start, done + {p}, r))
    {
      if LiveAcross(code, entry, g, outs, p, u) && r in CalleeRegisters(entered', i) && i.src1 == Some(header) {
        assert UsedByCallee(code, start, done + {p}, r);
        assert Recursive(code, entry, g, outs, header, done + {p}, u);
      }
      assert UsedAcross(code, entry, g, outs, start, done, u, r) ==>
        UsedAcross(code, entry, g, outs, start, done + {p}, u, r);
      assert Recursive(code, entry, g, outs, header, done, u) ==>
        Recursive(code, entry, g, outs, header, done + {p}, u);
      assert UsedByCallee(code, start, done, r) ==> UsedByCallee(code, start, done + {p}, r);
    }
  }

  ghost function EnteredAfter(
      entered: map<Symbol, set<nat>>, header: Symbol, i: Instruction, now: set<nat>): map<Symbol, set<nat>>
    requires header in entered
  {
    if now == {} then entered else entered[header := entered[header] + CalleeRegisters(entered, i)]
  }

  lemma CalleeAfter(entered: map<Symbol, set<nat>>, header: Symbol, i: Instruction, now: set<nat>)
    requires header in entered && WellFormed(i)
    ensures i.op == Call ==> i.src1.Some?
    ensures i.dead || i.op != Call || i.src1.value !in entered ==>
              EnteredAfter(entered, header, i, now) == entered && CalleeRegisters(entered, i) == {}
    ensures now == {} ==> EnteredAfter(entered, header, i, now) == entered
    ensures !i.dead && i.op == Call && i.src1.value in entered && now != {} ==>
              var entered' := entered[header := entered[header] + entered[i.src1.value]];
              EnteredAfter(entered, header, i, now) == entered'
                && CalleeRegisters(entered', i) == entered'[i.src1.value]
  {
    assert CalleeRegisters(entered, i) == {} ==> entered[header] + CalleeRegisters(entered, i) == entered[header];
  }

  lemma DestinationLinks(table: seq<Symbol>, i: Instruction, now: set<nat>, ns: seq<set<nat>>)
    requires WellFormed(i)
    ensures i.op == Call || DefinedIds(i) == {} || now == {} ==> AddsConflicts(table, i.dest, now, ns, ns)
    ensures DefinedIds(i) != {} ==> i.dest.Some?
  {
  }

  lemma NothingTakenOff(table: seq<Symbol>, now: set<nat>, registers: set<nat>, preferred: seq<set<nat>>)
    ensures TakesOff(table, now - now, registers, preferred, preferred)
    ensures registers == {} || now == {} ==> TakesOff(table, now, registers, preferred, preferred)
  {
  }

  lemma OneMoreTakenOff(
      table: seq<Symbol>, u: nat, now: set<nat>, registers: set<nat>, p0: seq<set<nat>>, p1: seq<set<nat>>,
      p2: seq<set<nat>>)
    requires TakesOff(table, now, registers, p0, p1) && u < |p1| && u !in now
    requires p2 == if IsNode(table, u) then p1[u := p1[u] - registers] else p1
    ensures TakesOff(table, now + {u}, registers, p0, p2)
  {
  }

  lemma AllTakenOff(
      table: seq<Symbol>, now: set<nat>, rest: set<nat>, registers: set<nat>, before: seq<set<nat>>,
      after: seq<set<nat>>)
    requires rest == {} || forall u :: u in rest ==> |before| <= u
    requires TakesOff(table, now - rest, registers, before, after)
    ensures TakesOff(table, now, registers, before, after)
  {
  }

  lemma NothingLinked(table: seq<Symbol>, d: Option<Symbol>, now: set<nat>, ns: seq<set<nat>>)
    ensures AddsConflicts(table, d, now - now, ns, ns)
  {
  }

  lemma AllLinked(
      table: seq<Symbol>, total: nat, d: Symbol, now: set<nat>, rest: set<nat>,
      ns: seq<set<nat>>, ns': seq<set<nat>>, builder: InterferenceBuilder)
    requires builder.Valid() && builder.table == table && builder.total == total
    requires rest == {} || forall u :: u in rest ==> total <= u
    requires AddsConflicts(table, Some(d), now - rest, ns, ns')
    ensures AddsConflicts(table, Some(d), now, ns, ns')
  {
    forall u: nat, v: nat
      ensures Conflicts(table, Some(d), now, u, v) <==> Conflicts(table, Some(d), now - rest, u, v)
    {
    }
  }

  /** Every id below the total is that of one variable, which is found by it. */
  lemma VariableById(table: seq<Symbol>, total: nat, byId: map<nat, Symbol>, nodes: set<nat>, u: nat)
    requires TableFits(table, total) && NodesAre(table, nodes) && FoundById(table, byId) && u < total
    ensures u in byId && byId[u] in table && !byId[u].isFormal && byId[u].id == u
    ensures IsCandidate(byId[u]) <==> IsNode(table, u)
    ensures IsCandidate(byId[u]) <==> u in nodes
  {
    assert HasId(table, u);
    var x :| x in table && !x.isFormal && x.id == u;
    assert byId[u] == x;
    assert IsCandidate(x) ==> HasNode(table, x);
    assert forall y :: HasNode(table, y) && y.id == u ==> y == x;
  }

  lemma VariableWithNode(table: seq<Symbol>, total: nat, byId: map<nat, Symbol>, nodes: set<nat>, d: Symbol)
    requires TableFits(table, total) && NodesAre(table, nodes) && FoundById(table, byId)
    ensures HasNode(table, d) ==>
              d.id in nodes && d.id < total && IsNode(table, d.id) && d.id in byId && byId[d.id] == d
  {
  }

  lemma OneMoreLinked(
      table: seq<Symbol>, d: Symbol, x: Symbol, now: set<nat>, ns: seq<set<nat>>, ns1: seq<set<nat>>,
      ns2: seq<set<nat>>)
    requires AddsConflicts(table, Some(d), now, ns, ns1) && |ns2| == |ns1|
    requires IsCandidate(x) <==> IsNode(table, x.id)
    requires HasNode(table, d) && d.id == x.id ==> d == x
    requires if IsCandidate(x) && d != x && HasNode(table, d) then
               forall w :: 0 <= w < |ns1| ==>
                 ns2[w] == ns1[w] + (if w == d.id then {x.id} else if w == x.id then {d.id} else {})
             else ns2 == ns1
    ensures AddsConflicts(table, Some(d), now + {x.id}, ns, ns2)
  {
    forall u: nat, v: nat | u < |ns|
      ensures v in ns2[u] <==>
              v in ns[u] || Conflicts(table, Some(d), now + {x.id}, u, v)
                || Conflicts(table, Some(d), now + {x.id}, v, u)
    {
    }
  }

  /** The nodes are those of the candidates in the list. */
  ghost predicate NodesAre(table: seq<Symbol>, nodes: set<nat>) {
    forall u: nat :: u in nodes <==> IsNode(table, u)
  }

  /** Each variable of the list that is no formal is found by its id. */
  ghost predicate FoundById(table: seq<Symbol>, byId: map<nat, Symbol>) {
    forall x :: x in table && !x.isFormal ==> x.id in byId && byId[x.id] == x
  }

  lemma OneMoreNode(table: seq<Symbol>, k: nat, nodes: set<nat>)
    requires k < |table| && TableOk(table) && NodesAre(table[..k], nodes)
    requires forall i, j :: 0 <= i < j < |table| ==> table[i] != table[j]
    ensures NodesAre(table[..k + 1], if IsCandidate(table[k]) then nodes + {table[k].id} else nodes)
    ensures IsCandidate(table[k]) ==> table[k].id !in nodes && !table[k].isFormal
  {
    var x := table[k];
    assert table[..k + 1] == table[..k] + [x];
    forall u: nat ensures IsNode(table[..k + 1], u) <==> IsNode(table[..k], u) || (IsCandidate(x) && x.id == u) {
      if IsNode(table[..k], u) {
        var y :| HasNode(table[..k], y) && y.id == u;
        assert HasNode(table[..k + 1], y);
      }
      if IsCandidate(x) && x.id == u {
        assert HasNode(table[..k + 1], x);
      }
      if IsNode(table[..k + 1], u) {
        var y :| HasNode(table[..k + 1], y) && y.id == u;
        assert y in table[..k] ==> HasNode(table[..k], y);
      }
    }
  }

  lemma OneMoreId(table: seq<Symbol>, k: nat, byId: map<nat, Symbol>)
    requires k < |table| && TableOk(table) && FoundById(table[..k], byId)
    ensures FoundById(table[..k + 1], if table[k].isFormal then byId else byId[table[k].id := table[k]])
  {
    assert table[..k + 1] == table[..k] + [table[k]];
    forall x | x in table[..k] ensures x in table {
    }
  }
}
