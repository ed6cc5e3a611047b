/** Which ids the variables of a function need, so that register allocation is right. */
module SharedRegisters {
  import opened Instructions
  import opened Semantics
  import opened Paths
  import opened ControlFlow
  import opened Liveness
  import opened ReadPaths
  import opened Graphs
  import opened Coloring
  import opened RegisterMachine
  import opened Interference
  import opened RegisterAllocation
  import opened SharedIds
  import opened Examples

  // ---------------------------------------------------------------- an example

  /** Assigns a variable, calls a function, assigns another variable and returns the first one. */
  function AssignsAcross(x: Symbol, y: Symbol): Code {
    [Instruction(Enter, Plus, None, Some(FunctionName()), None, 0, false), Copy(x, Five()),
     Instruction(Call, Plus, None, Some(FunctionName()), None, 0, false), Copy(y, Five()),
     Instruction(Return, Plus, None, Some(x), None, 0, false)]
  }

  /** The call begins a block. */
  function TwoBlocks(): Cfg {
    Cfg([Some(0), Some(0), Some(1), Some(1), Some(1)], [0, 2], [Some(1), Some(4)], [[1], []], [[], [0]])
  }

  /** A variable with a register, and a formal with the same id. */
  ghost predicate Share(table: seq<Symbol>, x: Symbol, y: Symbol) {
    && IsPlace(x) && IsPlace(y) && x != y && x.id == y.id && y.typ != AddrType && HasNode(table, x) && y in table
  }

  /** Every variable that competes for a register gets the register 0. */
  ghost function AllZero(table: seq<Symbol>, total: nat): Allocation {
    Allocation(table, seq(total, u requires 0 <= u => if IsNode(table, u) then 0 else -1), seq(5, _ => {}))
  }

  ghost function NoEdges(table: seq<Symbol>, total: nat): Problem {
    Problem(set x | x in table && IsCandidate(x) :: x.id, seq(total, _ => {}), seq(total, _ => 0),
            seq(total, _ => {}), NUM_REGISTERS)
  }

  lemma AcrossCovers(x: Symbol, y: Symbol)
    requires IsPlace(x) && IsPlace(y)
    ensures WellFormedCode(AssignsAcross(x, y), 0)
    ensures Placed(AssignsAcross(x, y), 0, TwoBlocks()) && Covers(AssignsAcross(x, y), 0, TwoBlocks())
  {
    var code := AssignsAcross(x, y);
    assert forall p :: 0 <= p < 5 ==> !IsJump(code[p]) && WellFormed(code[p]);
    assert code[0].op == Enter && forall p :: 0 < p < 5 ==> code[p].op != Enter && code[p].op != GlobalDeclaration;
    hide AssignsAcross, WellFormed, IsJump;
  }

  /** Behind the call nothing seems to be live, since the second assignment takes the id away. */
  lemma AcrossLiveness(x: Symbol, y: Symbol)
    requires IsPlace(x) && IsPlace(y) && x.id == y.id && x.typ != AddrType && y.typ != AddrType
    ensures var code, g := AssignsAcross(x, y), TwoBlocks();
      Placed(code, 0, g) && ExactLiveness(code, g, [{}, {}], [{}, {}])
  {
    AcrossCovers(x, y);
    AcrossSteps(x, y);
    var code := AssignsAcross(x, y);
    assert |code| == 5;
    hide AssignsAcross, WellFormedCode, Covers, LiveAt;
    NothingLive(code);
  }

  lemma NothingLive(code: Code)
    requires |code| == 5 && GraphShape(code, TwoBlocks()) && LiveAt(code, 0, 1, {}) == {}
              && LiveAt(code, 2, 4, {}) == {}
    ensures ExactLiveness(code, TwoBlocks(), [{}, {}], [{}, {}])
  {
    hide LiveAt, Summarize;
    var g := TwoBlocks();
    var uses, defs := Uses(code, g), Defs(code, g);
    SummaryIsExact(code, 0, 1, {});
    SummaryIsExact(code, 2, 4, {});
    assert Summarize(code, 0, 1).use <= LiveAt(code, 0, 1, {}) && Summarize(code, 2, 4).use <= LiveAt(code, 2, 4, {});
    assert |uses| == 2 && uses[0] == Summarize(code, 0, 1).use && uses[1] == Summarize(code, 2, 4).use;
    forall b: nat, v: nat | b < 2 ensures !Arrives(g.children, uses, defs, b, v) {
    }
  }

  lemma AcrossSteps(x: Symbol, y: Symbol)
    requires IsPlace(x) && IsPlace(y) && x.id == y.id && x.typ != AddrType && y.typ != AddrType
    ensures var code := AssignsAcross(x, y); LiveAt(code, 0, 1, {}) == {} && LiveAt(code, 2, 4, {}) == {}
  {
    var code := AssignsAcross(x, y);
    assert LiveAt(code, 2, 1, {}) == {};
    assert LiveAt(code, 1, 1, {}) == {};
    assert LiveAt(code, 5, 4, {}) == {};
    assert LiveAt(code, 4, 4, {}) == {x.id};
    assert LiveAt(code, 3, 4, {}) == {};
    assert LiveAt(code, 2, 4, {}) == {};
  }

  lemma AcrossNow(x: Symbol, y: Symbol)
    requires IsPlace(x) && IsPlace(y) && x.id == y.id && x.typ != AddrType && y.typ != AddrType
    ensures Placed(AssignsAcross(x, y), 0, TwoBlocks())
    ensures forall p :: 0 <= p < 5 ==>
              NowAfter(AssignsAcross(x, y), 0, TwoBlocks(), [{}, {}], p) == if p == 3 then {x.id} else {}
  {
    AcrossCovers(x, y);
    hide WellFormedCode, Covers;
    var code := AssignsAcross(x, y);
    assert NowAt(code, 2, 1, {}) == {};
    assert NowAt(code, 1, 1, {}) == {};
    assert NowAt(code, 5, 4, {}) == {};
    assert NowAt(code, 4, 4, {}) == {x.id};
    assert NowAt(code, 3, 4, {}) == {};
  }

  // ---------------------------------------------------------------- what the allocator makes of it

  /** What the allocator does with a function: the parts of its result, and what it takes for granted but for ids. */
  ghost predicate Allocates(
      code: Code, entry: nat, g: Cfg, ins: seq<set<nat>>, outs: seq<set<nat>>, total: nat, problem: Problem,
      a: Allocation, used: set<nat>)
  {
    && WellFormedCode(code, entry) && Placed(code, entry, g) && Covers(code, entry, g)
    && TableFits(a.table, total) && KnownOperands(code, a.table) && ExactLiveness(code, g, ins, outs)
    && problem.Valid() && problem.registers == NUM_REGISTERS
    && ExactEdges(code, entry, g, outs, a.table, Positions(entry, |code| - 1), problem.adjacent)
    && RecordsCalls(code, entry, g, outs, Positions(entry, |code| - 1), a.liveAtCall)
    && ColoringOf(problem, a.reg, used) && AssignedFirst(code, entry, a) && LeavesSafely(code, a)
  }

  /** A formal has no node. */
  lemma FormalHasNoNode(table: seq<Symbol>, x: Symbol, y: Symbol)
    requires TableOk(table) && Share(table, x, y)
    ensures !HasNode(table, y) && x.typ != AddrType
  {
  }

  lemma NothingInterferes(table: seq<Symbol>, x: Symbol, y: Symbol)
    requires TableOk(table) && Share(table, x, y)
    ensures var code, g := AssignsAcross(x, y), TwoBlocks();
      && Placed(code, 0, g)
      && (forall u: nat, v: nat :: !InterfereSomewhere(code, 0, g, [{}, {}], table, Positions(0, 4), u, v))
      && RecordsCalls(code, 0, g, [{}, {}], Positions(0, 4), [{}, {}, {}, {}, {}])
  {
    FormalHasNoNode(table, x, y);
    AcrossNow(x, y);
    var code, g := AssignsAcross(x, y), TwoBlocks();
    hide NowAfter;
    forall u: nat, v: nat, p: nat | p < 5 ensures !Interfere(code, 0, g, [{}, {}], table, p, u, v) {
    }
  }

  lemma AllZeroColors(table: seq<Symbol>, total: nat, x: Symbol)
    requires TableFits(table, total) && HasNode(table, x)
    ensures var p := NoEdges(table, total);
      && p.Valid() && p.registers == NUM_REGISTERS && |p.adjacent| == total
      && (forall u :: 0 <= u < total ==> p.adjacent[u] == {})
      && ColoringOf(p, AllZero(table, total).reg, {0})
  {
    var p, reg := NoEdges(table, total), AllZero(table, total).reg;
    forall u: nat, v: nat | u < total ensures SimpleEdge(p.adjacent, u, v) {
    }
    assert reg[x.id] == 0;
    forall u | 0 <= u < total ensures u in p.members <==> IsNode(table, u) {
    }
  }

  lemma AcrossKnown(table: seq<Symbol>, x: Symbol, y: Symbol)
    requires TableOk(table) && Share(table, x, y)
    ensures KnownOperands(AssignsAcross(x, y), table)
  {
  }

  /** No variable with a register is read before it is assigned. */
  lemma AcrossAssignedFirst(table: seq<Symbol>, total: nat, x: Symbol, y: Symbol)
    requires TableOk(table) && Share(table, x, y)
    ensures AssignedFirst(AssignsAcross(x, y), 0, AllZero(table, total))
  {
    var a := AllZero(table, total);
    forall v: Symbol | a.RegisterOf(v) >= 0 ensures !ReadLater(AssignsAcross(x, y), 0, v) {
      ReadAfterAssigned(table, x, y, v);
    }
    hide AssignsAcross;
  }

  lemma ReadAfterAssigned(table: seq<Symbol>, x: Symbol, y: Symbol, v: Symbol)
    requires TableOk(table) && Share(table, x, y) && v in table
    ensures !ReadLater(AssignsAcross(x, y), 0, v)
  {
    var code := AssignsAcross(x, y);
    assert v != Five() && v != FunctionName();
    assert ChangesVariable(code[1], x) && forall p :: 0 <= p < 5 && ReadsVariable(code[p], v) ==> p == 4 && v == x;
    assert forall q :: Leads(code, 0, q) ==> q == 1;
    hide AssignsAcross, Leads, ReadsVariable, ChangesVariable, ReadLater;
    if ReadLater(code, 0, v) {
      var r := ReadSomewhere(code, 0, v);
      var q := ReadNext(code, 0, v);
      var q' := ReadNext(code, q, v);
    }
  }

  // ---------------------------------------------------------------- the two runs

  /** After every call all registers hold six. */
  function Clobbered(e: seq<Event>): RegisterMachine.Registers {
    map[0 := 6]
  }

  ghost function Clobber(): Junk {
    Junk(Clobbered, map[], map[])
  }

  lemma RunWithSteps(a: Allocation, code: Code, t: RegState, n: nat)
    ensures RunWith(PLAIN, a, Clobber(), code, t, 0) == t
    ensures RunWith(PLAIN, a, Clobber(), code, t, n + 1) ==
            StepWith(PLAIN, a, Clobber(), code, RunWith(PLAIN, a, Clobber(), code, t, n))
  {
  }

  lemma AcrossReturnsFive(x: Symbol, y: Symbol)
    requires IsPlace(x) && IsPlace(y) && x != y && x.typ != AddrType && y.typ != AddrType
    ensures Run(PLAIN, AssignsAcross(x, y), StartState(map[]), 5).status == Returned(Some(5))
  {
    hide *;
    var code, s := AssignsAcross(x, y), StartState(map[]);
    RunIsSteps(PLAIN, code, s, 0);
    RunIsSteps(PLAIN, code, s, 1);
    RunIsSteps(PLAIN, code, s, 2);
    RunIsSteps(PLAIN, code, s, 3);
    RunIsSteps(PLAIN, code, s, 4);
    FirstAssigned(x, y);
    ThenReturned(x, y, Run(PLAIN, code, s, 2));
  }

  lemma FirstAssigned(x: Symbol, y: Symbol)
    requires IsPlace(x) && x.typ != AddrType
    ensures var code := AssignsAcross(x, y); var s := Step(PLAIN, code, Step(PLAIN, code, StartState(map[])));
      s.pc == 2 && s.status == Running && Lookup(PLAIN, s.locals, x) == 5
  {
    assert Step(PLAIN, AssignsAcross(x, y), StartState(map[])) == StartState(map[]).(pc := 1);
  }

  lemma ThenReturned(x: Symbol, y: Symbol, s: State)
    requires IsPlace(x) && IsPlace(y) && x != y && y.typ != AddrType
    requires s.pc == 2 && s.status == Running && Lookup(PLAIN, s.locals, x) == 5
    ensures var code := AssignsAcross(x, y);
      Step(PLAIN, code, Step(PLAIN, code, Step(PLAIN, code, s))).status == Returned(Some(5))
  {
    hide Contents;
    var code := AssignsAcross(x, y);
    var s3 := Step(PLAIN, code, s);
    assert s3.pc == 3 && s3.status == Running && s3.locals == s.locals;
    var s4 := Step(PLAIN, code, s3);
    assert s4.pc == 4 && s4.status == Running && Lookup(PLAIN, s4.locals, x) == 5;
  }

  lemma AcrossReturnsSix(table: seq<Symbol>, total: nat, x: Symbol, y: Symbol)
    requires TableFits(table, total) && Share(table, x, y)
    ensures RunWith(PLAIN, AllZero(table, total), Clobber(), AssignsAcross(x, y), RegState(StartState(map[]), map[]), 5)
            .state.status == Returned(Some(6))
  {
    FormalHasNoNode(table, x, y);
    var a := AllZero(table, total);
    assert a.RegisterOf(x) == 0 && a.RegisterOf(y) == -1 && a.KeptAt(2) == {} && a.RegisterOf(Five()) == -1;
    hide AllZero, TableFits, Share;
    ZeroReturnsSix(a, x, y);
  }

  lemma ZeroReturnsSix(a: Allocation, x: Symbol, y: Symbol)
    requires IsPlace(x) && IsPlace(y) && x.typ != AddrType && y.typ != AddrType
    requires a.RegisterOf(x) == 0 && a.RegisterOf(y) == -1 && a.KeptAt(2) == {} && a.RegisterOf(Five()) == -1
    ensures RunWith(PLAIN, a, Clobber(), AssignsAcross(x, y), RegState(StartState(map[]), map[]),
              5).state.status == Returned(Some(6))
  {
    hide *;
    var code, t := AssignsAcross(x, y), RegState(StartState(map[]), map[]);
    RunWithSteps(a, code, t, 0);
    RunWithSteps(a, code, t, 1);
    RunWithSteps(a, code, t, 2);
    RunWithSteps(a, code, t, 3);
    RunWithSteps(a, code, t, 4);
    FirstTwoSteps(a, x, y, t);
    CallStep(a, x, y, RunWith(PLAIN, a, Clobber(), code, t, 2));
    LastTwoSteps(a, x, y, RunWith(PLAIN, a, Clobber(), code, t, 3));
  }

  lemma FirstTwoSteps(a: Allocation, x: Symbol, y: Symbol, t: RegState)
    requires IsPlace(x) && x.typ != AddrType && t == RegState(StartState(map[]), map[])
    requires a.RegisterOf(x) == 0 && a.RegisterOf(Five()) == -1
    ensures var code := AssignsAcross(x, y);
      var t2 := StepWith(PLAIN, a, Clobber(), code, StepWith(PLAIN, a, Clobber(), code, t));
      t2.state.pc == 2 && t2.state.status == Running
  {
    hide Allocation.RegisterOf, Allocation.KeptAt;
    var code := AssignsAcross(x, y);
    var t1 := StepWith(PLAIN, a, Clobber(), code, t);
    assert t1.state.pc == 1 && t1.state.status == Running;
  }

  lemma CallStep(a: Allocation, x: Symbol, y: Symbol, t: RegState)
    requires t.state.pc == 2 && t.state.status == Running && a.KeptAt(2) == {}
    ensures var t3 := StepWith(PLAIN, a, Clobber(), AssignsAcross(x, y), t);
      t3.state.pc == 3 && t3.state.status == Running && t3.registers == map[0 := 6]
  {
    hide Allocation.RegisterOf, Allocation.KeptAt, Contents;
  }

  lemma LastTwoSteps(a: Allocation, x: Symbol, y: Symbol, t: RegState)
    requires IsPlace(x) && IsPlace(y) && y.typ != AddrType && a.RegisterOf(x) == 0 && a.RegisterOf(y) == -1
    requires t.state.pc == 3 && t.state.status == Running && t.registers == map[0 := 6] && a.RegisterOf(Five()) == -1
    ensures var code := AssignsAcross(x, y);
      StepWith(PLAIN, a, Clobber(), code, StepWith(PLAIN, a, Clobber(), code, t)).state.status == Returned(Some(6))
  {
    hide Allocation.RegisterOf, Allocation.KeptAt, Updated;
    var code := AssignsAcross(x, y);
    var t4 := StepWith(PLAIN, a, Clobber(), code, t);
    assert t4.state.pc == 4 && t4.state.status == Running && t4.registers == map[0 := 6];
  }

  lemma AcrossRunsDiffer(table: seq<Symbol>, total: nat, x: Symbol, y: Symbol)
    requires TableFits(table, total) && Share(table, x, y)
    ensures !RunsAlike(AssignsAcross(x, y), 0, AllZero(table, total))
  {
    FormalHasNoNode(table, x, y);
    AcrossReturnsFive(x, y);
    AcrossReturnsSix(table, total, x, y);
    assert PLAIN.Valid();
    hide AssignsAcross, AllZero, RunWith, Run, TableFits, Share, RunsAlike;
    if RunsAlike(AssignsAcross(x, y), 0, AllZero(table, total)) {
      AlikeOnce(AssignsAcross(x, y), AllZero(table, total), StartState(map[]), map[]);
    }
  }

  lemma AlikeOnce(code: Code, a: Allocation, s: State, registers: RegisterMachine.Registers)
    requires RunsAlike(code, 0, a) && PLAIN.Valid() && s.pc == 0
    ensures SameEffects(Run(PLAIN, code, s, 5), RunWith(PLAIN, a, Clobber(), code, RegState(s, registers), 5).state)
  {
  }

  // ---------------------------------------------------------------- exactly which ids

  /** Code with registers does what code on variables does, for every function that assigns only these variables. */
  ghost predicate AllocationIsRight(table: seq<Symbol>, total: nat, variables: iset<Symbol>) {
    forall code: Code, entry: nat, g: Cfg, ins: seq<set<nat>>, outs: seq<set<nat>>, problem: Problem, a: Allocation,
      used: set<nat> ::
      a.table == table && Allocates(code, entry, g, ins, outs, total, problem, a, used)
        && AssignsOnly(code, variables) ==>
        RunsAlike(code, entry, a)
  }

  ghost predicate NodesApart(table: seq<Symbol>, variables: iset<Symbol>) {
    forall x, y :: HasNode(table, x) && y in variables ==> y.typ == AddrType || IdsApart(x, y)
  }

  /**
   * Register allocation is right for all functions that assign given variables exactly if none of
   * these, other than an address, shares its id with a variable that could get a register.
   */
  lemma RegisterIdsDecide(table: seq<Symbol>, total: nat, variables: iset<Symbol>)
    requires TableFits(table, total) && forall x :: x in variables ==> IsPlace(x) && x in table
    requires forall x :: HasNode(table, x) ==> x in variables
    ensures AllocationIsRight(table, total, variables) <==> NodesApart(table, variables)
  {
    hide AllocationIsRight, TableFits, HasNode, IsPlace;
    if NodesApart(table, variables) {
      ApartIsRight(table, total, variables);
    } else {
      var x, y :| HasNode(table, x) && y in variables && !(y.typ == AddrType || IdsApart(x, y));
      NodeShares(table, x, y, variables);
      SharedIsWrong(table, total, x, y, variables);
    }
  }

  lemma NodeShares(table: seq<Symbol>, x: Symbol, y: Symbol, variables: iset<Symbol>)
    requires HasNode(table, x) && IsPlace(x) && IsPlace(y) && y in table && y.typ != AddrType && !IdsApart(x, y)
    ensures Share(table, x, y)
  {
  }

  lemma ApartIsRight(table: seq<Symbol>, total: nat, variables: iset<Symbol>)
    requires NodesApart(table, variables)
    ensures AllocationIsRight(table, total, variables)
  {
    forall code: Code, entry: nat, g: Cfg, ins: seq<set<nat>>, outs: seq<set<nat>>, problem: Problem, a: Allocation,
      used: set<nat>
      | a.table == table && Allocates(code, entry, g, ins, outs, total, problem, a, used)
        && AssignsOnly(code, variables)
      ensures RunsAlike(code, entry, a)
    {
      OneIsRight(table, total, variables, code, entry, g, ins, outs, problem, a, used);
    }
    hide Allocates, AssignsOnly, RunsAlike;
  }

  lemma OneIsRight(
      table: seq<Symbol>, total: nat, variables: iset<Symbol>, code: Code, entry: nat, g: Cfg, ins: seq<set<nat>>,
      outs: seq<set<nat>>, problem: Problem, a: Allocation, used: set<nat>)
    requires NodesApart(table, variables) && a.table == table
    requires Allocates(code, entry, g, ins, outs, total, problem, a, used) && AssignsOnly(code, variables)
    ensures RunsAlike(code, entry, a)
  {
    assert OwnTableIds(code, table) by {
      forall p, x | 0 <= p < |code| && RedefinesVariable(code[p]) && IsLocal(code[p].dest) && HasNode(table, x)
        ensures code[p].dest.value.typ == AddrType || IdsApart(x, code[p].dest.value)
      {
      }
    }
    hide WellFormedCode, Covers, TableFits, KnownOperands, ExactEdges, RecordsCalls, ColoringOf, AssignedFirst,
      SafeAllocation;
    hide OwnTableIds, RunsAlike, NodesApart, AssignsOnly;
    ColoringIsSafe(code, entry, g, outs, total, a, problem, used);
    SafeRunsAlike(code, entry, g, ins, outs, a);
  }

  lemma SharedIsWrong(table: seq<Symbol>, total: nat, x: Symbol, y: Symbol, variables: iset<Symbol>)
    requires TableFits(table, total) && Share(table, x, y) && x in variables && y in variables
    ensures !AllocationIsRight(table, total, variables)
  {
    AcrossAllocates(table, total, x, y);
    AcrossRunsDiffer(table, total, x, y);
    AcrossAssigns(x, y, variables);
    hide *;
    WrongOnce(AssignsAcross(x, y), NoEdges(table, total), AllZero(table, total), table, total, variables);
  }

  lemma AcrossAssigns(x: Symbol, y: Symbol, variables: iset<Symbol>)
    requires x in variables && y in variables
    ensures AssignsOnly(AssignsAcross(x, y), variables)
  {
  }

  lemma WrongOnce(code: Code, problem: Problem, a: Allocation, table: seq<Symbol>, total: nat, variables: iset<Symbol>)
    requires Allocates(code, 0, TwoBlocks(), [{}, {}], [{}, {}], total, problem, a, {0}) && a.table == table
    requires AssignsOnly(code, variables) && !RunsAlike(code, 0, a)
    ensures !AllocationIsRight(table, total, variables)
  {
    hide Allocates, AssignsOnly, RunsAlike;
  }

  lemma AcrossAllocates(table: seq<Symbol>, total: nat, x: Symbol, y: Symbol)
    requires TableFits(table, total) && Share(table, x, y)
    ensures AllZero(table, total).table == table
    ensures Allocates(AssignsAcross(x, y), 0, TwoBlocks(), [{}, {}], [{}, {}], total, NoEdges(table, total),
              AllZero(table, total), {0})
  {
    hide *;
    SharePlaces(table, total, x, y);
    FormalHasNoNode(table, x, y);
    AcrossCovers(x, y);
    AcrossLiveness(x, y);
    NothingInterferes(table, x, y);
    AllZeroColors(table, total, x);
    AcrossKnown(table, x, y);
    AcrossAssignedFirst(table, total, x, y);
    ZeroLeavesSafely(AssignsAcross(x, y), table, total);
    PartsAllocate(AssignsAcross(x, y), TwoBlocks(), total, NoEdges(table, total), AllZero(table, total));
  }

  lemma ZeroLeavesSafely(code: Code, table: seq<Symbol>, total: nat)
    ensures LeavesSafely(code, AllZero(table, total))
  {
    assert forall x :: AllZero(table, total).RegisterOf(x) < FIRST_SAVED;
  }

  lemma SharePlaces(table: seq<Symbol>, total: nat, x: Symbol, y: Symbol)
    requires TableFits(table, total) && Share(table, x, y)
    ensures TableOk(table) && IsPlace(x) && IsPlace(y) && x.id == y.id && y.typ != AddrType && HasNode(table, x)
    ensures |AssignsAcross(x, y)| == 5 && |TwoBlocks().first| == 2
    ensures AllZero(table, total).table == table && AllZero(table, total).liveAtCall == [{}, {}, {}, {}, {}]
  {
  }

  lemma PartsAllocate(code: Code, g: Cfg, total: nat, problem: Problem, a: Allocation)
    requires WellFormedCode(code, 0) && Placed(code, 0, g) && Covers(code, 0, g) && |code| == 5 && |g.first| == 2
    requires TableFits(a.table, total) && KnownOperands(code, a.table) && ExactLiveness(code, g, [{}, {}], [{}, {}])
    requires problem.Valid() && problem.registers == NUM_REGISTERS
              && (forall u :: 0 <= u < |problem.adjacent| ==> problem.adjacent[u] == {})
    requires forall u: nat, v: nat :: !InterfereSomewhere(code, 0, g, [{}, {}], a.table, Positions(0, 4), u, v)
    requires RecordsCalls(code, 0, g, [{}, {}], Positions(0, 4), a.liveAtCall)
    requires ColoringOf(problem, a.reg, {0}) && AssignedFirst(code, 0, a) && LeavesSafely(code, a)
    ensures Allocates(code, 0, g, [{}, {}], [{}, {}], total, problem, a, {0})
  {
    hide WellFormedCode, Covers, TableFits, KnownOperands, ExactLiveness, InterfereSomewhere, RecordsCalls, ColoringOf;
    hide AssignedFirst, LeavesSafely, Problem.Valid, Positions;
  }
}
