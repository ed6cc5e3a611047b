/**
 * A function whose interference graph is two cliques: two groups of local variables, and each group is assigned as a
 * whole before it is stored into a global variable. Costs are collected as the code generator does
 * (collect_var_cost, code_generation.c).
 */
module CliqueFunction {
  import opened Instructions
  import opened ControlFlow
  import opened Liveness
  import opened Coloring
  import opened StaleNodes
  import opened Interference
  import opened RegisterAllocation
  import opened Examples

  function X(v: nat): Symbol {
    LocalInt(v, false)
  }

  function Shared(): Symbol {
    Symbol(0, Global, IntType, IntType, false, false, false, 0, 0)
  }

  function Assignment(v: nat): Instruction {
    Copy(X(v), Five())
  }

  function Storing(v: nat): Instruction {
    Copy(Shared(), X(v))
  }

  function Assignments(l: nat, h: nat): (c: Code)
    requires l <= h
    ensures |c| == h - l && forall i :: 0 <= i < |c| ==> c[i] == Assignment(l + i)
  {
    seq(h - l, i requires 0 <= i => Assignment(l + i))
  }

  function Stores(l: nat, h: nat): (c: Code)
    requires l <= h
    ensures |c| == h - l && forall i :: 0 <= i < |c| ==> c[i] == Storing(l + i)
  {
    seq(h - l, i requires 0 <= i => Storing(l + i))
  }

  /** All of the group are stored, those from `a` on twice and those from `b` on a third time. */
  function Reads(l: nat, a: nat, b: nat, h: nat): Code
    requires l <= a <= b <= h
  {
    Stores(l, h) + Stores(a, h) + Stores(b, h)
  }

  function Tail(): Code {
    [Instruction(Leave, Plus, None, Some(FunctionName()), None, 0, false),
     Instruction(Return, Plus, None, None, None, 0, false)]
  }

  function SecondHalf(n: nat): Code {
    Assignments(n, 2 * n) + (Reads(n, n, n, 2 * n) + Tail())
  }

  function FirstHalf(n: nat): Code
    requires 2 <= n
  {
    Assignments(0, n) + (Reads(0, 1, 2, n) + SecondHalf(n))
  }

  /** Two groups of `n` variables. */
  function CliqueCode(n: nat): Code
    requires 2 <= n
  {
    [Instruction(Enter, Plus, None, Some(FunctionName()), None, 0, false)] + FirstHalf(n)
  }

  function Table(n: nat): (t: seq<Symbol>)
    ensures |t| == 2 * n && forall v :: 0 <= v < |t| ==> t[v] == X(v)
  {
    seq(2 * n, v requires 0 <= v => X(v))
  }

  // ---------------------------------------------------------------- what is live

  function Ids(l: nat, h: nat): (s: set<nat>)
    ensures forall v: nat :: v in s <==> l <= v < h
  {
    Registers(h) - Registers(l)
  }

  /** live_now before a piece of code. */
  function NowOver(c: Code, out: set<nat>): set<nat> {
    if c == [] then out else NowBefore(c[0], NowOver(c[1..], out))
  }

  lemma {:induction false} NowIsOver(code: Code, p: nat, end: nat, out: set<nat>)
    requires p <= end + 1 <= |code|
    ensures NowAt(code, p, end, out) == NowOver(code[p..end + 1], out)
    decreases end + 1 - p
  {
    if p <= end {
      NowIsOver(code, p + 1, end, out);
      assert code[p..end + 1][1..] == code[p + 1..end + 1];
    }
  }

  lemma {:induction false} NowOverAppended(a: Code, b: Code, out: set<nat>)
    ensures NowOver(a + b, out) == NowOver(a, NowOver(b, out))
  {
    if a == [] {
      assert a + b == b;
    } else {
      NowOverAppended(a[1..], b, out);
      assert (a + b)[1..] == a[1..] + b;
    }
  }

  lemma {:induction false} NowOverAssignments(l: nat, h: nat, out: set<nat>)
    requires l <= h
    ensures NowOver(Assignments(l, h), out) == out - Ids(l, h)
    decreases h - l
  {
    hide *;
    AssignmentsUnfold(l, h, out);
    if l < h {
      NowOverAssignments(l + 1, h, out);
      OneMoreId(l, h, out);
    } else {
      NoIds(l, out);
    }
  }

  lemma AssignmentsUnfold(l: nat, h: nat, out: set<nat>)
    requires l <= h
    ensures NowOver(Assignments(l, h), out) == if l == h then out else NowOver(Assignments(l + 1, h), out) - {l}
  {
    if l < h {
      assert Assignments(l, h)[1..] == Assignments(l + 1, h);
    }
  }

  lemma StoresUnfold(l: nat, h: nat, out: set<nat>)
    requires l <= h
    ensures NowOver(Stores(l, h), out) == if l == h then out else NowOver(Stores(l + 1, h), out) + {l}
  {
    if l < h {
      assert Stores(l, h)[1..] == Stores(l + 1, h);
    }
  }

  lemma OneMoreId(l: nat, h: nat, out: set<nat>)
    requires l < h
    ensures out - Ids(l + 1, h) - {l} == out - Ids(l, h) && out + Ids(l + 1, h) + {l} == out + Ids(l, h)
  {
    hide Ids;
  }

  lemma NoIds(l: nat, out: set<nat>)
    ensures out - Ids(l, l) == out == out + Ids(l, l)
  {
    hide Ids;
  }

  lemma {:induction false} NowOverStores(l: nat, h: nat, out: set<nat>)
    requires l <= h
    ensures NowOver(Stores(l, h), out) == out + Ids(l, h)
    decreases h - l
  {
    hide *;
    StoresUnfold(l, h, out);
    if l < h {
      NowOverStores(l + 1, h, out);
      OneMoreId(l, h, out);
    } else {
      NoIds(l, out);
    }
  }

  lemma MostIds(l: nat, a: nat, b: nat, h: nat, now: set<nat>)
    requires l <= a <= b <= h
    ensures now + Ids(b, h) + Ids(a, h) + Ids(l, h) == now + Ids(l, h)
  {
    hide Ids;
  }

  lemma ReadsAreStores(l: nat, a: nat, b: nat, h: nat)
    requires l <= a <= b <= h
    ensures Reads(l, a, b, h) == Stores(l, h) + Stores(a, h) + Stores(b, h)
  {
    hide Stores;
  }

  lemma NowOverReads(l: nat, a: nat, b: nat, h: nat, c: Code, out: set<nat>)
    requires l <= a <= b <= h
    ensures NowOver(Reads(l, a, b, h) + c, out) == NowOver(c, out) + Ids(l, h)
  {
    hide *;
    var now := NowOver(c, out);
    MostIds(l, a, b, h, now);
    ReadsAreStores(l, a, b, h);
    NowOverAppended(Reads(l, a, b, h), c, out);
    NowOverAppended(Stores(l, h) + Stores(a, h), Stores(b, h), now);
    NowOverAppended(Stores(l, h), Stores(a, h), NowOver(Stores(b, h), now));
    NowOverStores(b, h, now);
    NowOverStores(a, h, now + Ids(b, h));
    NowOverStores(l, h, now + Ids(b, h) + Ids(a, h));
  }

  /** Behind the assignment of `v` those of the group that have been assigned are live. */
  lemma NowInGroup(l: nat, a: nat, b: nat, h: nat, c: Code, v: nat)
    requires l <= a <= b <= h && l <= v < h && NowOver(c, {}) == {}
    ensures var group := Assignments(l, h) + (Reads(l, a, b, h) + c);
      NowOver(group[v - l + 1..], {}) == Ids(l, v + 1) && NowOver(group, {}) == {}
  {
    hide *;
    var rest := Reads(l, a, b, h) + c;
    NowOverReads(l, a, b, h, c, {});
    RestOfGroup(l, h, rest, v);
    assert {} + Ids(l, h) == Ids(l, h);
    NowOverAppended(Assignments(l, h), rest, {});
    NowOverAssignments(l, h, Ids(l, h));
    NowOverAppended(Assignments(v + 1, h), rest, {});
    NowOverAssignments(v + 1, h, Ids(l, h));
    LessIds(l, v + 1, h);
  }

  lemma LessIds(l: nat, v: nat, h: nat)
    requires l <= v <= h
    ensures Ids(l, h) - Ids(v, h) == Ids(l, v) && Ids(l, h) - Ids(l, h) == {}
  {
    hide Ids;
  }

  lemma RestOfGroup(l: nat, h: nat, rest: Code, v: nat)
    requires l <= v < h
    ensures |Assignments(l, h)| == h - l
    ensures (Assignments(l, h) + rest)[v - l + 1..] == Assignments(v + 1, h) + rest
  {
    hide Assignments;
    assert Assignments(l, h)[v - l + 1..] == Assignments(v + 1, h);
  }

  lemma NowAtTail()
    ensures NowOver(Tail(), {}) == {}
  {
    assert NowOver(Tail()[1..], {}) == {};
  }

  // ---------------------------------------------------------------- where variables are assigned

  /** The position at which `v` is assigned. */
  function PositionOf(n: nat, v: nat): nat
    requires 2 <= n
  {
    if v < n then v + 1 else 1 + (4 * n - 3) + (v - n)
  }

  lemma AssignedAt(n: nat, v: nat)
    requires 2 <= n && v < 2 * n
    ensures var code, p := CliqueCode(n), PositionOf(n, v);
      && |code| == 8 * n && p < |code| && code[p] == Assignment(v)
      && NowOver(code[p + 1..], {}) == if v < n then Ids(0, v + 1) else Ids(n, v + 1)
  {
    hide *;
    CodeBehind(n, v);
    NowAtTail();
    NowInGroup(n, n, n, 2 * n, Tail(), if v < n then n else v);
    HalvesAreGroups(n);
    if v < n {
      NowInGroup(0, 1, 2, n, SecondHalf(n), v);
    }
  }

  lemma HalvesAreGroups(n: nat)
    requires 2 <= n
    ensures SecondHalf(n) == Assignments(n, 2 * n) + (Reads(n, n, n, 2 * n) + Tail())
    ensures FirstHalf(n) == Assignments(0, n) + (Reads(0, 1, 2, n) + SecondHalf(n))
  {
    hide Assignments, Reads, Tail;
  }

  lemma CodeBehind(n: nat, v: nat)
    requires 2 <= n && v < 2 * n
    ensures var code, p := CliqueCode(n), PositionOf(n, v);
      && |code| == 8 * n && p < |code| && code[p] == Assignment(v) && |FirstHalf(n)| == 8 * n - 1
      && |SecondHalf(n)| == 4 * n + 2
      && code[p + 1..] == if v < n then FirstHalf(n)[v - 0 + 1..] else SecondHalf(n)[v - n + 1..]
  {
    hide Assignment, Stores;
    var code, p := CliqueCode(n), PositionOf(n, v);
    if v < n {
      assert code[p + 1..] == FirstHalf(n)[v + 1..];
    } else {
      assert code[p + 1..] == SecondHalf(n)[v - n + 1..];
    }
  }

  /** Nothing else assigns a local variable. */
  lemma OnlyAssignments(n: nat, p: nat)
    requires 2 <= n && p < 8 * n
    ensures var i := CliqueCode(n)[p];
      && WellFormed(i) && !i.dead && !IsJump(i) && i.op != Call && i.op != GlobalDeclaration
      && (i.op == Enter <==> p == 0) && Known(Table(n), i.src1) && i.src2.None?
      && ((IsLocal(i.dest) && exists v: nat :: v < 2 * n && i == Assignment(v) && p == PositionOf(n, v))
          || i.dest == None || i.dest == Some(Shared()))
  {
    InstructionAt(n, p);
    hide CliqueCode, Table;
    if v: nat :| v < 2 * n && CliqueCode(n)[p] in {Assignment(v), Storing(v)} {
      assert Table(n)[v] in Table(n);
    }
  }

  lemma InstructionAt(n: nat, p: nat)
    requires 2 <= n && p < 8 * n
    ensures var i := CliqueCode(n)[p];
      || (p == 0 && i == Instruction(Enter, Plus, None, Some(FunctionName()), None, 0, false))
      || (1 <= p <= n && i == Assignment(p - 1))
      || (4 * n - 2 <= p < 5 * n - 2 && i == Assignment(p - 3 * n + 2))
      || (0 < p && exists v: nat :: v < 2 * n && i == Storing(v))
      || (0 < p && i in Tail())
  {
    hide Assignment, Storing;
  }

  // ---------------------------------------------------------------- its graph

  lemma CliqueCodeIsWellFormed(n: nat)
    requires 2 <= n
    ensures WellFormedCode(CliqueCode(n), 0)
  {
    var code := CliqueCode(n);
    AssignedAt(n, 0);
    hide CliqueCode, WellFormed;
    forall p | 0 <= p < |code|
      ensures WellFormed(code[p]) && !IsJump(code[p]) && code[p].op != GlobalDeclaration
      ensures code[p].op == Enter <==> p == 0
    {
      OnlyAssignments(n, p);
    }
  }

  /** Code without jumps and calls is one block. */
  lemma OneBlock(code: Code, g: Cfg)
    requires WellFormedCode(code, 0) && GraphOf(code, 0, g)
    requires forall p :: 0 <= p < |code| ==> !IsJump(code[p]) && code[p].op != Call
    ensures |g.first| == |g.children| == |g.last| == 1 && |g.blockOf| == |code| && g.children[0] == []
    ensures End(g, 0) == |code| - 1 && forall p :: 0 <= p < |code| ==> g.blockOf[p] == Some(0)
  {
    hide WellFormed, Mirrored, PassesBetween, IsLeader;
    if |g.first| > 1 {
      assert IsFirst(g.blockOf, g.first, g.first[1]);
      OnlyEnterLeads(code, g.first[1]);
      assert false;
    }
    assert g.blockOf[|code| - 1] == Some(0);
    if g.children[0] != [] {
      var c := g.children[0][0];
      assert c in g.children[0];
      NoEdge(code, g, c);
      assert false;
    }
  }

  lemma OnlyEnterLeads(code: Code, q: nat)
    requires WellFormedCode(code, 0) && forall p :: 0 <= p < |code| ==> !IsJump(code[p]) && code[p].op != Call
    ensures IsLeader(code, |code|, q) ==> q == 0
  {
    hide WellFormed, IsJump;
  }

  lemma NoEdge(code: Code, g: Cfg, c: nat)
    requires |g.first| == 1 && g.first[0] == 0 && forall p :: 0 <= p < |code| ==> !IsJump(code[p])
    ensures !PassesBetween(code, g, 0, c)
  {
  }

  /** In the graph of the function nothing is live behind the only block. */
  lemma GraphOfCliqueCode(n: nat, g: Cfg, ins: seq<set<nat>>, outs: seq<set<nat>>)
    requires 2 <= n && WellFormedCode(CliqueCode(n), 0) && GraphOf(CliqueCode(n), 0, g)
    requires GraphShape(CliqueCode(n), g) && LivenessSolution(CliqueCode(n), g, ins, outs)
    ensures |CliqueCode(n)| == 8 * n && Placed(CliqueCode(n), 0, g) && |outs| == |g.first| == |g.last| == 1
    ensures End(g, 0) == 8 * n - 1 && outs[0] == {} && forall p :: 0 <= p < 8 * n ==> g.blockOf[p] == Some(0)
  {
    var code := CliqueCode(n);
    AssignedAt(n, 0);
    hide CliqueCode, WellFormedCode, GraphOf;
    forall p | 0 <= p < |code| ensures !IsJump(code[p]) && code[p].op != Call {
      OnlyAssignments(n, p);
    }
    OneBlock(code, g);
    GraphCovers(code, 0, g);
    assert outs[0] == {};
  }

  lemma NowBehind(n: nat, g: Cfg, ins: seq<set<nat>>, outs: seq<set<nat>>, v: nat)
    requires 2 <= n && v < 2 * n && WellFormedCode(CliqueCode(n), 0) && GraphOf(CliqueCode(n), 0, g)
    requires GraphShape(CliqueCode(n), g) && LivenessSolution(CliqueCode(n), g, ins, outs)
    ensures Placed(CliqueCode(n), 0, g) && |outs| == |g.first| && PositionOf(n, v) < |CliqueCode(n)| == 8 * n
    ensures CliqueCode(n)[PositionOf(n, v)] == Assignment(v)
    ensures NowAfter(CliqueCode(n), 0, g, outs, PositionOf(n, v)) == if v < n then Ids(0, v + 1) else Ids(n, v + 1)
  {
    hide *;
    GraphOfCliqueCode(n, g, ins, outs);
    AssignedAt(n, v);
    NowToTheEnd(CliqueCode(n), g, outs, PositionOf(n, v));
  }

  lemma NowToTheEnd(code: Code, g: Cfg, outs: seq<set<nat>>, p: nat)
    requires Placed(code, 0, g) && |outs| == |g.first| == |g.last| == 1 && End(g, 0) == |code| - 1
    requires outs[0] == {} && p < |code| && g.blockOf[p] == Some(0)
    ensures NowAfter(code, 0, g, outs, p) == NowOver(code[p + 1..], {})
  {
    NowIsOver(code, p + 1, |code| - 1, {});
    assert code[p + 1..|code|] == code[p + 1..];
  }

  // ---------------------------------------------------------------- the interferences

  predicate SameGroup(n: nat, u: nat, v: nat) {
    u < 2 * n && v < 2 * n && u != v && (u < n <==> v < n)
  }

  lemma TableNodes(n: nat, u: nat)
    ensures IsNode(Table(n), u) <==> u < 2 * n
    ensures u < 2 * n ==> HasNode(Table(n), X(u))
  {
    var t := Table(n);
    hide Table;
    if u < 2 * n {
      assert t[u] in t;
    }
  }

  /** Two variables of a group interfere where the second one is assigned. */
  lemma GroupInterferes(
      n: nat, g: Cfg, ins: seq<set<nat>>, outs: seq<set<nat>>, u: nat, v: nat)
    requires 2 <= n && SameGroup(n, u, v) && u < v && WellFormedCode(CliqueCode(n), 0) && GraphOf(CliqueCode(n), 0, g)
    requires GraphShape(CliqueCode(n), g) && LivenessSolution(CliqueCode(n), g, ins, outs)
    ensures Placed(CliqueCode(n), 0, g) && |outs| == |g.first|
    ensures Interfere(CliqueCode(n), 0, g, outs, Table(n), PositionOf(n, v), u, v)
  {
    NowBehind(n, g, ins, outs, v);
    TableNodes(n, u);
    TableNodes(n, v);
    hide CliqueCode, WellFormedCode, GraphOf, Placed, GraphShape, LivenessSolution, NowAfter, PositionOf, Ids, Table,
      HasNode, IsNode;
  }

  /** Nothing else does. */
  lemma OnlyGroupsInterfere(
      n: nat, g: Cfg, ins: seq<set<nat>>, outs: seq<set<nat>>, p: nat, u: nat, v: nat)
    requires 2 <= n && WellFormedCode(CliqueCode(n), 0) && GraphOf(CliqueCode(n), 0, g)
    requires GraphShape(CliqueCode(n), g) && LivenessSolution(CliqueCode(n), g, ins, outs)
    requires Placed(CliqueCode(n), 0, g) && |outs| == |g.first|
    requires Interfere(CliqueCode(n), 0, g, outs, Table(n), p, u, v)
    ensures SameGroup(n, u, v)
  {
    GraphOfCliqueCode(n, g, ins, outs);
    OnlyAssignments(n, p);
    TableNodes(n, u);
    TableNodes(n, v);
    var w: nat :| w < 2 * n && CliqueCode(n)[p] == Assignment(w) && p == PositionOf(n, w);
    NowBehind(n, g, ins, outs, w);
    hide CliqueCode, WellFormedCode, GraphOf, Placed, GraphShape, LivenessSolution, NowAfter, PositionOf, Ids, Table,
      IsNode;
  }

  lemma ExactlyGroupsInterfere(n: nat, g: Cfg, ins: seq<set<nat>>, outs: seq<set<nat>>, u: nat, v: nat)
    requires 2 <= n && WellFormedCode(CliqueCode(n), 0) && GraphOf(CliqueCode(n), 0, g)
    requires GraphShape(CliqueCode(n), g) && LivenessSolution(CliqueCode(n), g, ins, outs)
    ensures Placed(CliqueCode(n), 0, g) && |outs| == |g.first| && |CliqueCode(n)| == 8 * n
    ensures InterfereSomewhere(CliqueCode(n), 0, g, outs, Table(n), Positions(0, 8 * n - 1), u, v)
       <==> SameGroup(n, u, v)
  {
    var code, done := CliqueCode(n), Positions(0, 8 * n - 1);
    GraphOfCliqueCode(n, g, ins, outs);
    hide CliqueCode, WellFormedCode, GraphOf, Placed, GraphShape, LivenessSolution, PositionOf, Interfere, Table;
    if SameGroup(n, u, v) {
      var low, high := if u < v then u else v, if u < v then v else u;
      NowBehind(n, g, ins, outs, high);
      GroupInterferes(n, g, ins, outs, low, high);
      InterfereEitherWay(code, 0, g, outs, Table(n), PositionOf(n, high), low, high);
      assert PositionOf(n, high) in done;
    }
    forall p | p in done && Interfere(code, 0, g, outs, Table(n), p, u, v) ensures SameGroup(n, u, v) {
      OnlyGroupsInterfere(n, g, ins, outs, p, u, v);
    }
  }

  lemma InterfereEitherWay(
      code: Code, entry: nat, g: Cfg, outs: seq<set<nat>>, table: seq<Symbol>, p: nat, u: nat, v: nat)
    requires Placed(code, entry, g) && |outs| == |g.first|
    ensures Interfere(code, entry, g, outs, table, p, u, v) <==> Interfere(code, entry, g, outs, table, p, v, u)
  {
    hide Conflicts;
  }

  // ---------------------------------------------------------------- the costs

  function Mentions(i: Instruction, x: Symbol): nat {
    (if i.src1 == Some(x) then 1 else 0) + (if i.src2 == Some(x) then 1 else 0) + (if i.dest == Some(x) then 1 else 0)
  }

  /** The cost of a variable in code outside of loops: how often it is mentioned. */
  function CostOf(code: Code, x: Symbol): nat {
    if code == [] then 0 else Mentions(code[0], x) + CostOf(code[1..], x)
  }

  lemma {:induction false} CostAppended(a: Code, b: Code, x: Symbol)
    ensures CostOf(a + b, x) == CostOf(a, x) + CostOf(b, x)
  {
    if a == [] {
      assert a + b == b;
    } else {
      CostAppended(a[1..], b, x);
      assert (a + b)[1..] == a[1..] + b;
    }
  }

  function Within(l: nat, v: nat, h: nat): nat {
    if l <= v < h then 1 else 0
  }

  lemma {:induction false} AssignmentsCost(l: nat, h: nat, v: nat)
    requires l <= h
    ensures CostOf(Assignments(l, h), X(v)) == Within(l, v, h)
    decreases h - l
  {
    if l < h {
      AssignmentsCost(l + 1, h, v);
      assert Assignments(l, h)[1..] == Assignments(l + 1, h);
    }
  }

  lemma {:induction false} StoresCost(l: nat, h: nat, v: nat)
    requires l <= h
    ensures CostOf(Stores(l, h), X(v)) == Within(l, v, h)
    decreases h - l
  {
    if l < h {
      StoresCost(l + 1, h, v);
      assert Stores(l, h)[1..] == Stores(l + 1, h);
    }
  }

  lemma GroupCost(l: nat, a: nat, b: nat, h: nat, c: Code, v: nat)
    requires l <= a <= b <= h
    ensures CostOf(Assignments(l, h) + (Reads(l, a, b, h) + c), X(v))
         == 2 * Within(l, v, h) + Within(a, v, h) + Within(b, v, h) + CostOf(c, X(v))
  {
    CostAppended(Assignments(l, h), Reads(l, a, b, h) + c, X(v));
    CostAppended(Reads(l, a, b, h), c, X(v));
    CostAppended(Stores(l, h) + Stores(a, h), Stores(b, h), X(v));
    CostAppended(Stores(l, h), Stores(a, h), X(v));
    hide CostOf, Assignments, Stores, Within, X;
    AssignmentsCost(l, h, v);
    StoresCost(l, h, v);
    StoresCost(a, h, v);
    StoresCost(b, h, v);
  }

  /** Variables of the second group cost 4, and so do those of the first one but 0 and 1. */
  lemma CliqueCost(n: nat, v: nat)
    requires 2 <= n && v < 2 * n
    ensures CostOf(CliqueCode(n), X(v)) == if v < 2 then v + 2 else 4
  {
    var code, x := CliqueCode(n), X(v);
    CostAppended([code[0]], FirstHalf(n), x);
    assert CostOf([code[0]], x) == 0;
    assert CostOf(Tail()[1..], x) == 0;
    hide CostOf;
    GroupCost(0, 1, 2, n, SecondHalf(n), v);
    GroupCost(n, n, n, 2 * n, Tail(), v);
    HalvesAreGroups(n);
    hide FirstHalf, SecondHalf;
  }

  function Costs(n: nat): (costs: seq<int>)
    requires 2 <= n
    ensures |costs| == 2 * n && forall v :: 0 <= v < 2 * n ==> costs[v] == CostOf(CliqueCode(n), X(v))
  {
    seq(2 * n, v requires 0 <= v => CostOf(CliqueCode(n), X(v)))
  }

  // ---------------------------------------------------------------- the allocation

  /** The function is one that the allocator takes, on the graph that is built for it. */
  lemma CliqueCodeIsAllocatable(n: nat, g: Cfg)
    requires 2 <= n && WellFormedCode(CliqueCode(n), 0) && GraphOf(CliqueCode(n), 0, g)
    ensures Allocatable(CliqueCode(n), 0, g, Table(n), 2 * n)
  {
    var code, t := CliqueCode(n), Table(n);
    GraphCovers(code, 0, g);
    AssignedAt(n, 0);
    hide CliqueCode, WellFormedCode, GraphOf, Placed, Covers, WellFormed;
    forall p | 0 <= p < |code| ensures Known(t, code[p].dest) && Known(t, code[p].src1) && Known(t, code[p].src2) {
      OnlyAssignments(n, p);
      if IsLocal(code[p].dest) {
        var v: nat :| v < 2 * n && code[p] == Assignment(v);
        assert t[v] in t;
      }
    }
    TableOfCliqueCode(n);
  }

  lemma TableOfCliqueCode(n: nat)
    ensures TableFits(Table(n), 2 * n)
  {
    var t := Table(n);
    hide Table;
    forall u: nat | u < 2 * n ensures HasId(t, u) {
      assert t[u] in t;
    }
  }

  lemma PosedEdges(
      n: nat, g: Cfg, ins: seq<set<nat>>, outs: seq<set<nat>>, header: Symbol, entered: map<Symbol, set<nat>>,
      problem: Problem)
    requires 2 <= n && WellFormedCode(CliqueCode(n), 0) && GraphOf(CliqueCode(n), 0, g)
    requires GraphShape(CliqueCode(n), g) && LivenessSolution(CliqueCode(n), g, ins, outs)
    requires Placed(CliqueCode(n), 0, g) && |outs| == |g.first|
    requires Poses(CliqueCode(n), 0, g, outs, Table(n), Costs(n), header, entered, problem)
    ensures forall u: nat, v: nat :: u < |problem.adjacent| ==> (v in problem.adjacent[u] <==> SameGroup(n, u, v))
  {
    var code, ns := CliqueCode(n), problem.adjacent;
    AssignedAt(n, 0);
    hide CliqueCode, Table, Costs, WellFormedCode, GraphOf, GraphShape, LivenessSolution, Placed, InterfereSomewhere;
    hide ExactPreference, SameGroup, Problem.Valid;
    forall u: nat, v: nat | u < |ns| ensures v in ns[u] <==> SameGroup(n, u, v) {
      ExactlyGroupsInterfere(n, g, ins, outs, u, v);
    }
  }

  lemma PosedNodes(
      n: nat, g: Cfg, outs: seq<set<nat>>, header: Symbol, entered: map<Symbol, set<nat>>, problem: Problem)
    requires 2 <= n && Placed(CliqueCode(n), 0, g) && |outs| == |g.first|
    requires Poses(CliqueCode(n), 0, g, outs, Table(n), Costs(n), header, entered, problem)
    ensures |problem.adjacent| == |problem.cost| == |problem.preferred| == 2 * n && problem.registers == NUM_REGISTERS
    ensures forall u: nat :: u in problem.members <==> u < 2 * n
    ensures forall v: nat :: v < 2 * n ==> problem.cost[v] == if v < 2 then v + 2 else 4
  {
    hide CliqueCode, Table, Placed, IsNode, ExactEdges, ExactPreference, CostOf;
    forall u: nat ensures u in problem.members <==> u < 2 * n {
      TableNodes(n, u);
    }
    forall v: nat | v < 2 * n ensures problem.cost[v] == if v < 2 then v + 2 else 4 {
      CliqueCost(n, v);
    }
  }

  /** Its interference graph is two cliques. */
  lemma ProblemIsTwoCliques(
      k: nat, g: Cfg, ins: seq<set<nat>>, outs: seq<set<nat>>, header: Symbol, entered: map<Symbol, set<nat>>,
      problem: Problem)
    requires 0 < k == NUM_REGISTERS && WellFormedCode(CliqueCode(k + 1), 0) && GraphOf(CliqueCode(k + 1), 0, g)
    requires GraphShape(CliqueCode(k + 1), g) && LivenessSolution(CliqueCode(k + 1), g, ins, outs)
    requires Placed(CliqueCode(k + 1), 0, g) && |outs| == |g.first|
    requires Poses(CliqueCode(k + 1), 0, g, outs, Table(k + 1), Costs(k + 1), header, entered, problem)
    ensures IsTwoCliques(problem, k)
  {
    hide *;
    PosedEdges(k + 1, g, ins, outs, header, entered, problem);
    PosedNodes(k + 1, g, outs, header, entered, problem);
    GroupsAreCliques(problem, k);
  }

  lemma GroupsAreCliques(p: Problem, k: nat)
    requires 0 < k == p.registers && |p.adjacent| == |p.cost| == |p.preferred| == 2 * (k + 1)
    requires forall u: nat, v: nat :: u < 2 * (k + 1) ==> (v in p.adjacent[u] <==> SameGroup(k + 1, u, v))
    requires forall u: nat :: u in p.members <==> u < 2 * (k + 1)
    requires forall v: nat :: v < 2 * (k + 1) ==> p.cost[v] == if v < 2 then v + 2 else 4
    ensures IsTwoCliques(p, k)
  {
    hide Clique, Registers;
    forall v: nat | v < 2 * (k + 1) ensures p.adjacent[v] == Neighbors(k, v) {
    }
  }

  /**
   * The function is built, analysed and allocated as the code does it, without the correction, and the allocation
   * takes a stale node.
   */
  method AllocateTwoGroups(header: Symbol, entered: map<Symbol, set<nat>>) returns (stale: bool)
    ensures stale
  {
    var n := NUM_REGISTERS + 1;
    CliqueCodeIsWellFormed(n);
    var code := CliqueCode(n);
    var g := BuildControlFlowGraph(code, 0);
    CliqueCodeIsAllocatable(n, g);
    ghost var ins, outs, problem;
    var a, used;
    a, used, stale, ins, outs, problem :=
      OptimizeRegisterAllocation(code, 0, g, Table(n), 2 * n, Costs(n), header, entered, false);
    ProblemIsTwoCliques(NUM_REGISTERS, g, ins, outs, header, entered[header := {}], problem);
    CliquesGoStale(problem, NUM_REGISTERS);
  }
}
