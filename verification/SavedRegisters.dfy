/**
 * Registers that a function has to save for its caller. Leave restores them and moves the frame pointer
 * (restore_callee_saved_registers, code_translation.c), but a return statement evaluates its expression behind Leave.
 */
module SavedRegisters {
  import opened Instructions
  import opened ControlFlow
  import opened Semantics
  import opened Liveness
  import opened ReadPaths
  import opened Coloring
  import opened RegisterMachine
  import opened Interference
  import opened RegisterAllocation
  import opened SharedIds
  import opened Examples

  /** The body `x = 5; return x;`. */
  function AssignsAndReturns(x: Symbol): Code {
    [Instruction(Enter, Plus, None, Some(FunctionName()), None, 0, false), Copy(x, Five()),
     Instruction(Leave, Plus, None, Some(FunctionName()), None, 0, false),
     Instruction(Return, Plus, None, Some(x), None, 0, false)]
  }

  /** A variable that competes with no other one for its register. */
  ghost predicate Alone(a: Allocation, x: Symbol) {
    && IsPlace(x) && x.typ != AddrType && TableOk(a.table) && (x in a.table)
    && forall y :: y in a.table && a.RegisterOf(y) >= 0 && y.id == x.id ==> y == x
  }

  /** Does the value of `x` outlast the Leave? */
  ghost predicate Outlasts(a: Allocation, x: Symbol) {
    a.SavedRegisters() == {} || 0 <= a.RegisterOf(x) < FIRST_SAVED
  }

  lemma ReturnsIsOneBlock(x: Symbol)
    requires IsPlace(x)
    ensures IsOneBlock(AssignsAndReturns(x))
  {
  }

  /** Only `x` is read, behind its assignment. */
  lemma OnlyRead(x: Symbol, p: nat, y: Symbol)
    requires IsPlace(x) && x.typ != AddrType && p < 4 && IsLocal(Some(y)) && ReadLater(AssignsAndReturns(x), p, y)
    ensures y == x && 1 < p
  {
    var code := AssignsAndReturns(x);
    var path :| LeadsToRead(code, p, y, path);
    var r := path[|path| - 1];
    assert r == 3 && y == x;
    if p <= 1 {
      if p == 0 {
        WayOn(code, p, y, path);
      }
      var rest := if p == 0 then path[1..] else path;
      assert LeadsToRead(code, 1, y, rest);
      WayOn(code, 1, y, rest);
    }
  }

  lemma ReturnsSafely(a: Allocation, x: Symbol)
    requires Alone(a, x) && Outlasts(a, x)
    ensures AssignedFirst(AssignsAndReturns(x), 0, a) && LeavesSafely(AssignsAndReturns(x), a)
  {
    var code := AssignsAndReturns(x);
    forall y | a.RegisterOf(y) >= 0 ensures !ReadLater(code, 0, y) {
      if ReadLater(code, 0, y) {
        OnlyRead(x, 0, y);
      }
    }
    hide Allocation.SavedRegisters;
    forall p, y
      | 0 <= p < |code| && code[p].op == Leave && !code[p].dead && IsLocal(Some(y)) && ReadLater(code, p + 1, y)
      ensures y == x
    {
      OnlyRead(x, p + 1, y);
    }
  }

  /** What is live behind the instructions of the block. */
  lemma ReturnsLive(x: Symbol, outs: seq<set<nat>>)
    requires IsPlace(x) && x.typ != AddrType && outs == [{}]
    ensures Placed(AssignsAndReturns(x), 0, OneBlock())
    ensures forall p :: 0 <= p < 4 ==> LiveAfter(AssignsAndReturns(x), 0, OneBlock(), outs, p) <= {x.id}
  {
    var code := AssignsAndReturns(x);
    ReturnsIsOneBlock(x);
    OneBlockCovers(code);
    hide WellFormedCode, Covers;
    LiveBackwards(code);
  }

  lemma ReturnsAllocated(a: Allocation, x: Symbol)
    requires Alone(a, x)
    ensures Placed(AssignsAndReturns(x), 0, OneBlock())
    ensures SafeAllocation(AssignsAndReturns(x), 0, OneBlock(), [{}], a)
  {
    var code := AssignsAndReturns(x);
    ReturnsLive(x, [{}]);
    hide LiveAfter, Placed;
    forall p | 0 <= p < 4
      ensures RespectsDefinition(code, 0, OneBlock(), [{}], a, p) && RespectsCall(code, 0, OneBlock(), [{}], a, p)
    {
    }
  }

  lemma ReturnsSolved(x: Symbol)
    requires IsPlace(x)
    ensures var code, g := AssignsAndReturns(x), OneBlock();
      && WellFormedCode(code, 0) && Placed(code, 0, g) && Covers(code, 0, g)
      && LivenessSolution(code, g, [LiveAt(code, 0, 3, {})], [{}])
  {
    ReturnsIsOneBlock(x);
    OneBlockCovers(AssignsAndReturns(x));
    hide WellFormedCode, Covers, LiveAt;
  }

  lemma OutlastingIsRight(a: Allocation, x: Symbol)
    requires Alone(a, x) && Outlasts(a, x)
    ensures RunsAlike(AssignsAndReturns(x), 0, a)
  {
    assert IsPlace(x) && |OneBlock().first| == 1;
    hide *;
    var code := AssignsAndReturns(x);
    ReturnsSolved(x);
    ReturnsAllocated(a, x);
    ReturnsSafely(a, x);
    SafeRunsAlike(code, 0, OneBlock(), [LiveAt(code, 0, 3, {})], [{}], a);
  }

  // ---------------------------------------------------------------- what is lost

  /** The caller had sixes in all registers, and a six stands where the variable is looked for. */
  ghost function Sixes(a: Allocation, x: Symbol): Junk {
    Junk((e: seq<Event>) => map[], map r | r in a.SavedRegisters() :: 6, map[x := 6])
  }

  lemma RunWithStep(a: Allocation, junk: Junk, code: Code, t: RegState, n: nat)
    ensures RunWith(PLAIN, a, junk, code, t, 0) == t
    ensures RunWith(PLAIN, a, junk, code, t, n + 1)
         == StepWith(PLAIN, a, junk, code, RunWith(PLAIN, a, junk, code, t, n))
  {
  }

  lemma ReturnsFive(x: Symbol)
    requires IsPlace(x) && x.typ != AddrType
    ensures Run(PLAIN, AssignsAndReturns(x), StartState(map[]), 4).status == Returned(Some(5))
  {
    hide Run;
    var code, s := AssignsAndReturns(x), StartState(map[]);
    RunIsSteps(PLAIN, code, s, 0);
    RunIsSteps(PLAIN, code, s, 1);
    RunIsSteps(PLAIN, code, s, 2);
    RunIsSteps(PLAIN, code, s, 3);
    assert Step(PLAIN, code, s) == s.(pc := 1);
    var s2 := Step(PLAIN, code, s.(pc := 1));
    assert s2.pc == 2 && s2.status == Running && Read(PLAIN, s2, x) == 5;
    assert Step(PLAIN, code, s2) == s2.(pc := 3);
  }

  lemma LeaveLoses(a: Allocation, x: Symbol, t: RegState)
    requires Alone(a, x) && !Outlasts(a, x) && t.state.pc == 2 && t.state.status == Running
    ensures var code, junk := AssignsAndReturns(x), Sixes(a, x);
      StepWith(PLAIN, a, junk, code, StepWith(PLAIN, a, junk, code, t)).state.status == Returned(Some(6))
  {
    hide *;
    var code, junk := AssignsAndReturns(x), Sixes(a, x);
    var t3 := StepWith(PLAIN, a, junk, code, t);
    LeaveTaken(a, x, junk, t);
    LeaveGivesSix(a, x, t.(state := t.state.(pc := 3)));
    ReturnTaken(a, x, junk, t3);
  }

  lemma LeaveTaken(a: Allocation, x: Symbol, junk: Junk, t: RegState)
    requires t.state.pc == 2 && t.state.status == Running
    ensures StepWith(PLAIN, a, junk, AssignsAndReturns(x), t) == LeaveWith(a, junk, t.(state := t.state.(pc := 3)))
    ensures var t3 := StepWith(PLAIN, a, junk, AssignsAndReturns(x), t); t3.state.pc == 3 && t3.state.status == Running
  {
    hide Allocation.RegisterOf, Allocation.SavedRegisters, Allocation.KeptAt;
  }

  lemma LeaveGivesSix(a: Allocation, x: Symbol, t: RegState)
    requires Alone(a, x) && !Outlasts(a, x)
    ensures ReadFrom(PLAIN, a, LeaveWith(a, Sixes(a, x), t), x) == 6
  {
  }

  lemma ReturnTaken(a: Allocation, x: Symbol, junk: Junk, t: RegState)
    requires t.state.pc == 3 && t.state.status == Running
    ensures StepWith(PLAIN, a, junk, AssignsAndReturns(x), t).state.status
         == Returned(Some(ReadFrom(PLAIN, a, t, x)))
  {
    hide Allocation.RegisterOf, Allocation.SavedRegisters, Allocation.KeptAt;
  }

  lemma ReturnsSix(a: Allocation, x: Symbol)
    requires Alone(a, x) && !Outlasts(a, x)
    ensures RunWith(PLAIN, a, Sixes(a, x), AssignsAndReturns(x), RegState(StartState(map[]), map[]), 4).state.status ==
            Returned(Some(6))
  {
    hide *;
    var code, junk, t := AssignsAndReturns(x), Sixes(a, x), RegState(StartState(map[]), map[]);
    RunWithStep(a, junk, code, t, 0);
    RunWithStep(a, junk, code, t, 1);
    RunWithStep(a, junk, code, t, 2);
    RunWithStep(a, junk, code, t, 3);
    FirstSteps(a, x, junk, t);
    LeaveLoses(a, x, RunWith(PLAIN, a, junk, code, t, 2));
  }

  lemma FirstSteps(a: Allocation, x: Symbol, junk: Junk, t: RegState)
    requires Alone(a, x) && t == RegState(StartState(map[]), map[])
    ensures var code := AssignsAndReturns(x);
      var t2 := StepWith(PLAIN, a, junk, code, StepWith(PLAIN, a, junk, code, t));
      t2.state.pc == 2 && t2.state.status == Running
  {
    hide Allocation.RegisterOf, Allocation.KeptAt, Allocation.SavedRegisters;
    var code := AssignsAndReturns(x);
    var t1 := StepWith(PLAIN, a, junk, code, t);
    assert t1.state.pc == 1 && t1.state.status == Running;
  }

  /**
   * `x = 5; return x;` is right on registers exactly if no register is restored that the caller owns, or the variable
   * is in a register that is not restored.
   */
  lemma LeaveDecides(a: Allocation, x: Symbol)
    requires Alone(a, x)
    ensures RunsAlike(AssignsAndReturns(x), 0, a) <==> Outlasts(a, x)
  {
    assert PLAIN.Valid() && IsPlace(x) && x.typ != AddrType && StartState(map[]).pc == 0;
    hide *;
    if Outlasts(a, x) {
      OutlastingIsRight(a, x);
    } else {
      ReturnsFive(x);
      ReturnsSix(a, x);
      AlikeFor(AssignsAndReturns(x), a, Sixes(a, x), StartState(map[]));
    }
  }

  lemma AlikeFor(code: Code, a: Allocation, junk: Junk, s: State)
    requires PLAIN.Valid() && s.pc == 0
    ensures RunsAlike(code, 0, a) ==>
              Run(PLAIN, code, s, 4).status == RunWith(PLAIN, a, junk, code, RegState(s, map[]), 4).state.status
  {
    hide Run, RunWith;
    if RunsAlike(code, 0, a) {
      assert SameEffects(Run(PLAIN, code, s, 4), RunWith(PLAIN, a, junk, code, RegState(s, map[]), 4).state);
    }
  }

  /**
   * The allocator gives a variable that is alone in its function the first register, so that this function is right
   * on registers.
   */
  lemma AllocatedReturnIsRight(
      g: Cfg, outs: seq<set<nat>>, cost: seq<int>, header: Symbol, entered: map<Symbol, set<nat>>, problem: Problem,
      a: Allocation, used: set<nat>, x: Symbol)
    requires IsPlace(x) && Competes(x) && a.table == [x]
    requires Placed(AssignsAndReturns(x), 0, g) && |outs| == |g.first|
    requires Poses(AssignsAndReturns(x), 0, g, outs, [x], cost, header, entered, problem)
    requires ColoringOf(problem, a.reg, used)
    ensures a.RegisterOf(x) == 0 && RunsAlike(AssignsAndReturns(x), 0, a)
  {
    NoCalls(x);
    OneEntry(x);
    hide AssignsAndReturns, Placed, Poses, ColoringOf, RunsAlike;
    LoneIsFirst(AssignsAndReturns(x), 0, g, outs, [x], cost, header, entered, problem, a.reg, used, x);
    LeaveDecides(a, x);
  }

  lemma NoCalls(x: Symbol)
    ensures forall p :: 0 <= p < |AssignsAndReturns(x)| ==> AssignsAndReturns(x)[p].op != Call
  {
  }

  lemma OneEntry(x: Symbol)
    requires IsPlace(x)
    ensures TableOk([x]) && x in [x] && forall y :: y in [x] ==> y == x
  {
  }
}
