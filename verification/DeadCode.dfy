/** Global dead code elimination (do_dead_code_elimination and remove_dead_instructions, code_optimization.c). */
module DeadCode {
  import opened Instructions
  import opened Semantics
  import opened ControlFlow
  import opened Liveness
  import opened ReadPaths
  import opened BitSets
  import opened LiveWays

  /** What the pass takes for granted of the code and of the graph it was given. */
  ghost predicate Eliminable(code: Code, entry: nat, g: Cfg) {
    WellFormedCode(code, entry) && Placed(code, entry, g) && Covers(code, entry, g)
  }

  /** The ids of the assigned local variables have a place in sets for `n` elements. */
  ghost predicate AssignedFit(code: Code, n: nat) {
    forall p :: 0 <= p < |code| && RedefinesVariable(code[p]) && code[p].dest.value.scope == Local ==>
      code[p].dest.value.id < Places(n)
  }

  /** What the pass needs of the ids to be right. */
  ghost predicate IdsAreRight(code: Code, n: nat) {
    DistinctAssignedIds(code) && AssignedFit(code, n)
  }

  /** May the pass mark the instruction, given the ids live after it? */
  predicate IsRemovable(i: Instruction, after: set<nat>) {
    && !i.dead
    && (|| IsNullAssignment(i)
        || (RedefinesVariable(i) && i.dest.value.scope == Local && i.dest.value.id !in after))
  }

  /** The instruction at `p` of a block that ends at `end`, with `out` live after it, by sets for `n` elements. */
  ghost function MarkedIn(code: Code, p: nat, end: nat, n: nat, out: set<nat>): Instruction
    requires p < |code| && end < |code|
  {
    if IsRemovable(code[p], Held(LiveAt(code, p + 1, end, out), n)) then code[p].(dead := true) else code[p]
  }

  /** The instruction at `p` after the pass. */
  ghost function Marked(code: Code, entry: nat, g: Cfg, n: nat, outs: seq<set<nat>>, p: nat): Instruction
    requires Placed(code, entry, g) && |outs| == |g.first| && p < |code|
  {
    if entry <= p then MarkedIn(code, p, End(g, g.blockOf[p].value), n, outs[g.blockOf[p].value]) else code[p]
  }

  ghost predicate MarkedCode(code: Code, entry: nat, g: Cfg, n: nat, outs: seq<set<nat>>, code': Code)
    requires Placed(code, entry, g) && |outs| == |g.first|
  {
    && |code'| == |code|
    && forall p :: 0 <= p < |code| ==> code'[p] == Marked(code, entry, g, n, outs, p)
  }

  // ---------------------------------------------------------------- one pass preserves meaning

  /** The states agree on effects, on every variable that may be live and on every variable the code never changes. */
  ghost predicate Agree(m: Machine, code: Code, live: set<nat>, s: State, t: State) {
    && SameEffects(s, t)
    && forall x: Symbol :: IsLocal(Some(x)) && (x.id in live || !IsAssigned(code, x)) ==>
         Lookup(m, s.locals, x) == Lookup(m, t.locals, x)
  }

  lemma OperandAgrees(m: Machine, code: Code, live: set<nat>, s: State, t: State, x: Option<Symbol>)
    requires Agree(m, code, live, s, t)
    requires IsLocal(x) ==> x.value.id in live
    ensures ReadOperand(m, s, x) == ReadOperand(m, t, x)
  {
  }

  /** Writing the same value to the same variable makes its id live. */
  lemma WriteAgrees(m: Machine, code: Code, p: nat, live: set<nat>, after: set<nat>, s: State, t: State, v: int)
    requires m.Valid() && p < |code| && RedefinesVariable(code[p]) && !code[p].dest.value.isConstant
    requires DistinctAssignedIds(code) && Agree(m, code, live, s, t)
    requires after - DefinedIds(code[p]) <= live
    ensures Agree(m, code, after, Write(m, s, code[p].dest.value, v), Write(m, t, code[p].dest.value, v))
  {
    var d := code[p].dest.value;
    var s', t' := Write(m, s, d, v), Write(m, t, d, v);
    forall x: Symbol | IsLocal(Some(x)) && (x.id in after || !IsAssigned(code, x))
      ensures Lookup(m, s'.locals, x) == Lookup(m, t'.locals, x)
    {
      assert IsAssigned(code, x) && x != d && d.scope == Local && d.typ != AddrType ==> x.id != d.id;
    }
  }

  /** Executing a live instruction on both sides. */
  lemma ExecuteAgrees(m: Machine, code: Code, p: nat, after: set<nat>, s: State, t: State)
    requires m.Valid() && p < |code| && WellFormed(code[p]) && DistinctAssignedIds(code)
    requires !IsSkipped(code[p]) && Agree(m, code, LiveBefore(code[p], after), s, t)
    ensures Agree(m, code, after, Execute(m, s, code[p]), Execute(m, t, code[p]))
  {
    var i := code[p];
    var live := LiveBefore(i, after);
    OperandAgrees(m, code, live, s, t, i.src1);
    OperandAgrees(m, code, live, s, t, i.src2);
    var v1, v2 := ReadOperand(m, s, i.src1), ReadOperand(m, s, i.src2);
    var s', t' := Control(m, s, i, v1, v2), Control(m, t, i, v1, v2);
    assert Agree(m, code, live, s', t');
    if RedefinesVariable(i) {
      WriteAgrees(m, code, p, live, after, s', t', Result(m, s, i, v1, v2));
    } else if i.dest.Some? {
      OperandAgrees(m, code, live, s, t, i.dest);
    }
  }

  /** Executing a removable instruction on one side only. */
  lemma RemovedAgrees(m: Machine, code: Code, p: nat, after: set<nat>, s: State, t: State)
    requires m.Valid() && p < |code| && WellFormed(code[p]) && DistinctAssignedIds(code)
    requires IsRemovable(code[p], after) && Agree(m, code, LiveBefore(code[p], after), s, t)
    ensures Agree(m, code, after, Execute(m, s, code[p]), t.(pc := t.pc + 1))
  {
    var i := code[p];
    var v1, v2 := ReadOperand(m, s, i.src1), ReadOperand(m, s, i.src2);
    var s' := s.(pc := s.pc + 1);
    var r := Result(m, s, i, v1, v2);
    assert Execute(m, s, i) == Write(m, s', i.dest.value, r);
    if IsNullAssignment(i) {
      NullWrite(m, s', i.dest.value, r);
    } else {
      forall x: Symbol | IsLocal(Some(x)) && (x.id in after || !IsAssigned(code, x))
        ensures Lookup(m, Write(m, s', i.dest.value, r).locals, x) == Lookup(m, t.locals, x)
      {
        assert x != i.dest.value;
      }
    }
  }


  /** The instruction at the pc and its marked version, side by side. */
  lemma MarkedInstructionAgrees(m: Machine, code: Code, p: nat, after: set<nat>, i': Instruction, s: State, t: State)
    requires m.Valid() && p < |code| && WellFormed(code[p]) && DistinctAssignedIds(code)
    requires i' == code[p] || (i' == code[p].(dead := true) && IsRemovable(code[p], after))
    requires Agree(m, code, LiveBefore(code[p], after), s, t)
    requires IsNullAssignment(code[p]) && !code[p].dead ==> i'.dead
    ensures var s' := if code[p].dead then s.(pc := s.pc + 1) else Execute(m, s, code[p]);
            var t' := if i'.dead then t.(pc := t.pc + 1) else Execute(m, t, i');
            Agree(m, code, after, s', t')
  {
    hide Execute, WellFormed;
    if !code[p].dead {
      if i'.dead {
        RemovedAgrees(m, code, p, after, s, t);
      } else {
        ExecuteAgrees(m, code, p, after, s, t);
      }
    }
  }

  lemma AgreeingPc(m: Machine, code: Code, live: set<nat>, s: State, t: State)
    requires Agree(m, code, live, s, t)
    ensures t.pc == s.pc && t.status == s.status
  {
  }

  /** Whether an instruction is removable can be seen from the ids that have a place. */
  lemma FitIsRemovable(code: Code, n: nat, p: nat, after: set<nat>)
    requires p < |code| && AssignedFit(code, n)
    ensures IsRemovable(code[p], Held(after, n)) <==> IsRemovable(code[p], after)
  {
    hide Places;
    if RedefinesVariable(code[p]) && code[p].dest.value.scope == Local {
      assert code[p].dest.value.id < Places(n);
    }
  }

  /** One step of the code and of the marked code, side by side. */
  lemma PassStep(
      m: Machine, code: Code, code': Code, entry: nat, g: Cfg, n: nat, ins: seq<set<nat>>, outs: seq<set<nat>>,
      s: State, t: State)
    requires m.Valid() && Eliminable(code, entry, g) && IdsAreRight(code, n) && LivenessSolution(code, g, ins, outs)
    requires MarkedCode(code, entry, g, n, outs, code')
    requires Agree(m, code, LiveNow(code, entry, g, outs, s), s, t)
    ensures var s', t' := Step(m, code, s), Step(m, code', t);
            Agree(m, code, LiveNow(code, entry, g, outs, s'), s', t')
  {
    hide *;
    SolutionSize(code, entry, g, ins, outs);
    AgreeingPc(m, code, LiveNow(code, entry, g, outs, s), s, t);
    MarkedLength(code, code', entry, g, n, outs);
    var p := s.pc;
    if s.status == Running && p < |code| {
      var after := if p < entry then LiveIn(code, entry, g, outs, p) else LiveAfter(code, entry, g, outs, p);
      MarkedAt(code, code', entry, g, n, outs, p, after);
      NowIsIn(code, entry, g, outs, s);
      NowIsIn(code, entry, g, outs, Step(m, code, s));
      StepOf(m, code, s);
      StepOf(m, code', t);
      MarkedInstructionAgrees(m, code, p, after, code'[p], s, t);
      StepIsCovered(m, code, entry, g, ins, outs, s, after);
      FewerAgree(m, code, after, LiveNow(code, entry, g, outs, Step(m, code, s)), Step(m, code, s), Step(m, code', t));
    } else {
      StepStays(m, code, s);
      StepStays(m, code', t);
    }
  }

  lemma MarkedLength(code: Code, code': Code, entry: nat, g: Cfg, n: nat, outs: seq<set<nat>>)
    requires Placed(code, entry, g) && |outs| == |g.first| && MarkedCode(code, entry, g, n, outs, code')
    ensures |code'| == |code|
  {
  }

  /** The instruction before and after the pass, and the ids around it. */
  lemma MarkedAt(
      code: Code, code': Code, entry: nat, g: Cfg, n: nat, outs: seq<set<nat>>, p: nat, after: set<nat>)
    requires Eliminable(code, entry, g) && IdsAreRight(code, n) && |outs| == |g.first| && p < |code|
    requires MarkedCode(code, entry, g, n, outs, code')
    requires after == if p < entry then LiveIn(code, entry, g, outs, p) else LiveAfter(code, entry, g, outs, p)
    ensures |code'| == |code| && WellFormed(code[p]) && DistinctAssignedIds(code)
    ensures code'[p] == code[p] || (code'[p] == code[p].(dead := true) && IsRemovable(code[p], after))
    ensures IsNullAssignment(code[p]) && !code[p].dead ==> code'[p].dead
    ensures LiveIn(code, entry, g, outs, p) == LiveBefore(code[p], after)
  {
    hide Covers, DistinctAssignedIds;
    assert code'[p] == Marked(code, entry, g, n, outs, p);
    if entry <= p {
      FitIsRemovable(code, n, p, after);
    }
  }

  lemma NowIsIn(code: Code, entry: nat, g: Cfg, outs: seq<set<nat>>, s: State)
    requires Placed(code, entry, g) && |outs| == |g.first|
    ensures LiveNow(code, entry, g, outs, s) == if s.status == Running then LiveIn(code, entry, g, outs, s.pc) else {}
  {
  }

  lemma StepOf(m: Machine, code: Code, s: State)
    requires s.status == Running && s.pc < |code|
    ensures Step(m, code, s) == if code[s.pc].dead then s.(pc := s.pc + 1) else Execute(m, s, code[s.pc])
  {
  }

  lemma StepStays(m: Machine, code: Code, s: State)
    requires s.status != Running || s.pc >= |code|
    ensures Step(m, code, s) == s
  {
  }

  lemma FewerAgree(m: Machine, code: Code, live: set<nat>, fewer: set<nat>, s: State, t: State)
    requires Agree(m, code, live, s, t) && fewer <= live
    ensures Agree(m, code, fewer, s, t)
  {
  }

  lemma {:induction false} PassRun(
      m: Machine, code: Code, code': Code, entry: nat, g: Cfg, n: nat, ins: seq<set<nat>>, outs: seq<set<nat>>,
      s: State, k: nat)
    requires m.Valid() && Eliminable(code, entry, g) && IdsAreRight(code, n) && LivenessSolution(code, g, ins, outs)
    requires MarkedCode(code, entry, g, n, outs, code')
    ensures |outs| == |g.first|
    ensures var s', t' := Run(m, code, s, k), Run(m, code', s, k);
            Agree(m, code, LiveNow(code, entry, g, outs, s'), s', t')
  {
    SolutionSize(code, entry, g, ins, outs);
    hide *;
    if k == 0 {
      RunIsSteps(m, code, s, 0);
      RunIsSteps(m, code', s, 0);
      AgreesWithItself(m, code, LiveNow(code, entry, g, outs, s), s);
    } else {
      PassRun(m, code, code', entry, g, n, ins, outs, s, k - 1);
      PassStep(m, code, code', entry, g, n, ins, outs, Run(m, code, s, k - 1), Run(m, code', s, k - 1));
      RunIsSteps(m, code, s, k - 1);
      RunIsSteps(m, code', s, k - 1);
    }
  }

  lemma SolutionSize(code: Code, entry: nat, g: Cfg, ins: seq<set<nat>>, outs: seq<set<nat>>)
    requires Eliminable(code, entry, g) && LivenessSolution(code, g, ins, outs)
    ensures |outs| == |g.first| && Placed(code, entry, g) && WellFormedCode(code, entry) && Covers(code, entry, g)
  {
  }

  lemma AgreesWithItself(m: Machine, code: Code, live: set<nat>, s: State)
    ensures Agree(m, code, live, s, s)
  {
  }

  /** One pass changes no effect of any run, from any state and for any number of steps. */
  lemma PassPreservesMeaning(
      m: Machine, code: Code, code': Code, entry: nat, g: Cfg, n: nat, ins: seq<set<nat>>, outs: seq<set<nat>>)
    requires m.Valid() && Eliminable(code, entry, g) && IdsAreRight(code, n) && LivenessSolution(code, g, ins, outs)
    requires |outs| == |g.first| && MarkedCode(code, entry, g, n, outs, code')
    ensures SameMeaning(m, code, code')
  {
    forall s: State, k: nat ensures SameEffects(Run(m, code, s, k), Run(m, code', s, k)) {
      PassRun(m, code, code', entry, g, n, ins, outs, s, k);
    }
  }

  // ---------------------------------------------------------------- no variable is read earlier

  /** What is read at the end of a way is live on the way. */
  lemma {:induction false} WayIsLive(
      code: Code, entry: nat, g: Cfg, ins: seq<set<nat>>, outs: seq<set<nat>>, p: nat, x: Symbol, path: seq<nat>)
    requires Eliminable(code, entry, g) && LivenessSolution(code, g, ins, outs) && |outs| == |g.first|
    requires DistinctAssignedIds(code) && IsAssigned(code, x) && IsLocal(Some(x))
    requires entry <= p < |code| && LeadsToRead(code, p, x, path)
    ensures x.id in LiveIn(code, entry, g, outs, p)
    decreases |path|
  {
    if |path| > 1 {
      WayOn(code, p, x, path);
      WayInside(code, path[1], x, path[1..]);
      LeadsBehindEntry(code, entry, g, p, path[1]);
      WayIsLive(code, entry, g, ins, outs, path[1], x, path[1..]);
      SuccessorIsLive(code, entry, g, ins, outs, p, path[1]);
    } else {
      WayEnds(code, p, x, path);
    }
    hide LeadsToRead, Covers, LivenessSolution, LiveAt;
    LiveStays(code, entry, g, outs, p, x);
  }

  lemma LeadsBehindEntry(code: Code, entry: nat, g: Cfg, p: nat, q: nat)
    requires Eliminable(code, entry, g) && entry <= p < |code| && Leads(code, p, q)
    ensures entry <= q && (q == p + 1 || (IsJump(code[p]) && !code[p].dead && q == code[p].jumpTo))
  {
    assert WellFormed(code[p]);
  }

  lemma LiveStays(code: Code, entry: nat, g: Cfg, outs: seq<set<nat>>, p: nat, x: Symbol)
    requires Eliminable(code, entry, g) && |outs| == |g.first| && entry <= p < |code|
    requires DistinctAssignedIds(code) && IsAssigned(code, x) && IsLocal(Some(x))
    requires ReadsVariable(code[p], x) || (!ChangesVariable(code[p], x) && x.id in LiveAfter(code, entry, g, outs, p))
    ensures x.id in LiveIn(code, entry, g, outs, p)
  {
    var i := code[p];
    assert WellFormed(i);
    assert LiveIn(code, entry, g, outs, p) == LiveBefore(i, LiveAfter(code, entry, g, outs, p));
    var q :| 0 <= q < |code| && RedefinesVariable(code[q]) && code[q].dest == Some(x);
    hide LiveAt, Covers;
    assert RedefinesVariable(i) && IsLocal(i.dest) ==> IdsApart(i.dest.value, code[q].dest.value);
  }

  /** A definition that is read later is not marked. */
  lemma {:induction false} MarkedReads(
      code: Code, entry: nat, g: Cfg, n: nat, ins: seq<set<nat>>, outs: seq<set<nat>>, code': Code, p: nat, x: Symbol,
      path: seq<nat>)
    requires Eliminable(code, entry, g) && LivenessSolution(code, g, ins, outs) && |outs| == |g.first|
    requires IdsAreRight(code, n) && MarkedCode(code, entry, g, n, outs, code') && |code'| == |code|
    requires entry <= p < |code| && IsLocal(Some(x)) && LeadsToRead(code', p, x, path)
    ensures LeadsToRead(code, p, x, path)
    decreases |path|
  {
    MarkedHere(code, entry, g, n, outs, code', p, x);
    if |path| == 1 {
      WayEnds(code', p, x, path);
      assert LeadsToRead(code, p, x, path);
    } else {
      var q, rest := path[1], path[1..];
      WayOn(code', p, x, path);
      WayInside(code', q, x, rest);
      LeadsBehindEntry(code, entry, g, p, q);
      hide *;
      MarkedReads(code, entry, g, n, ins, outs, code', q, x, rest);
      DistinctIds(code, n);
      if ChangesVariable(code[p], x) {
        ChangedIsAssigned(code, p, x);
        WayIsLive(code, entry, g, ins, outs, q, x, rest);
        SolutionSize(code, entry, g, ins, outs);
        SuccessorIsLive(code, entry, g, ins, outs, p, q);
      }
      WayFrom(code, p, x, path);
    }
  }

  lemma DistinctIds(code: Code, n: nat)
    requires IdsAreRight(code, n)
    ensures DistinctAssignedIds(code)
  {
  }

  lemma ChangedIsAssigned(code: Code, p: nat, x: Symbol)
    requires p < |code| && ChangesVariable(code[p], x)
    ensures IsAssigned(code, x)
  {
  }

  /** One instruction before and after the pass. */
  lemma MarkedHere(
      code: Code, entry: nat, g: Cfg, n: nat, outs: seq<set<nat>>, code': Code, p: nat, x: Symbol)
    requires Eliminable(code, entry, g) && |outs| == |g.first| && IdsAreRight(code, n)
    requires MarkedCode(code, entry, g, n, outs, code') && |code'| == |code|
    requires entry <= p < |code| && IsLocal(Some(x))
    ensures ReadsVariable(code'[p], x) ==> ReadsVariable(code[p], x)
    ensures forall q :: Leads(code', p, q) ==> Leads(code, p, q)
    ensures ChangesVariable(code[p], x) && !ChangesVariable(code'[p], x) ==>
              x.id !in LiveAfter(code, entry, g, outs, p)
  {
    assert WellFormed(code[p]) && code'[p] == Marked(code, entry, g, n, outs, p);
    FitIsRemovable(code, n, p, LiveAfter(code, entry, g, outs, p));
    hide LiveAt, Covers, DistinctAssignedIds, Places;
  }

  /** One pass adds no way on which a variable is read before it is assigned. */
  lemma PassAddsNoReads(code: Code, code': Code, entry: nat, g: Cfg, n: nat, ins: seq<set<nat>>, outs: seq<set<nat>>)
    requires Eliminable(code, entry, g) && LivenessSolution(code, g, ins, outs) && |outs| == |g.first|
    requires IdsAreRight(code, n) && MarkedCode(code, entry, g, n, outs, code')
    ensures NoNewReads(code, code', entry)
  {
    assert entry < |code| == |code'|;
    hide LeadsToRead, Eliminable, IdsAreRight, LivenessSolution, MarkedCode;
    forall x | IsLocal(Some(x)) && ReadLater(code', entry, x) ensures ReadLater(code, entry, x) {
      var path :| LeadsToRead(code', entry, x, path);
      MarkedReads(code, entry, g, n, ins, outs, code', entry, x, path);
    }
  }

  // ---------------------------------------------------------------- exactly which definitions die

  ghost predicate DefinesLocal(i: Instruction) {
    i.dest.Some? && i.dest.value.scope == Local && (i.dest.value.typ != AddrType || i.op == IndexArray)
  }

  /** The instruction computes a local variable whose id has a place and is used along a way from the next one. */
  ghost predicate IsUseful(code: Code, p: nat, i: Instruction, n: nat)
    requires p < |code|
  {
    DefinesLocal(i) && i.dest.value.id < Places(n) && UsedAlong(code, p + 1, i.dest.value.id)
  }

  /**
   * Elimination has marked exactly the assignments of a variable to itself and the definitions of local variables
   * whose ids are not used along any way of the resulting code, or have no place in sets for `n` elements.
   */
  ghost predicate ExactlyUseful(code: Code, entry: nat, n: nat, code': Code) {
    && |code'| == |code| && (forall p :: 0 <= p < entry && p < |code| ==> code'[p] == code[p])
    && forall p :: entry <= p < |code| ==>
         && code'[p] == code[p].(dead := code'[p].dead)
         && (code'[p].dead <==>
               || code[p].dead || (code[p].op == Assign && code[p].dest == code[p].src1)
               || (DefinesLocal(code[p]) && !IsUseful(code', p, code[p], n)))
  }

  /** What has been marked so far was marked rightly. */
  ghost predicate MarkedRightly(code: Code, entry: nat, n: nat, code': Code)
    requires |code'| == |code|
  {
    forall p :: 0 <= p < |code| && code'[p].dead && !code[p].dead ==>
      && entry <= p
      && (IsNullAssignment(code[p]) || (DefinesLocal(code[p]) && !IsUseful(code', p, code[p], n)))
  }

  /** Marking makes no id used that was not. */
  lemma {:induction false} MarkingAddsNoUse(
      code: Code, entry: nat, g: Cfg, n: nat, code': Code, p: nat, v: nat, path: seq<nat>)
    requires Eliminable(code, entry, g) && |FullOuts(code, g)| == |g.first| && |code'| == |code|
    requires MarkedCode(code, entry, g, n, FullOuts(code, g), code')
    requires entry <= p && v < Places(n) && IsWay(code', p, v, path)
    ensures UsedAlong(code, p, v)
    decreases |path|
  {
    hide *;
    UsedNext(code', p, v, path);
    EliminableIsPlaced(code, entry, g);
    MarkedUse(code, entry, g, n, code', p, v);
    if |path| > 1 {
      var q := path[1];
      MarkedLeads(code, entry, g, n, code', p, q);
      MarkingAddsNoUse(code, entry, g, n, code', q, v, path[1..]);
      if SetsId(code[p], v) {
        FullSolution(code, entry, g);
        SetLeadsOn(code, entry, p, q, v);
        UsedIsLiveAfter(code, entry, g, FullIns(code, g), FullOuts(code, g), p, v);
      }
      UsedThere(code, p, q, v);
    } else {
      UsedHere(code, p, v);
    }
  }

  lemma FullSolution(code: Code, entry: nat, g: Cfg)
    requires Eliminable(code, entry, g)
    ensures Covers(code, entry, g) && GraphShape(code, g) && |FullOuts(code, g)| == |g.first|
    ensures LivenessSolution(code, g, FullIns(code, g), FullOuts(code, g))
  {
    hide FullIns, FullOuts;
    FullIsSolution(code, g);
  }

  lemma SetLeadsOn(code: Code, entry: nat, p: nat, q: nat, v: nat)
    requires WellFormedCode(code, entry) && p < |code| && SetsId(code[p], v) && MayLead(code, p, q)
    ensures q == p + 1
  {
    assert WellFormed(code[p]);
  }

  lemma MarkedLeads(code: Code, entry: nat, g: Cfg, n: nat, code': Code, p: nat, q: nat)
    requires Eliminable(code, entry, g) && |FullOuts(code, g)| == |g.first| && |code'| == |code|
    requires MarkedCode(code, entry, g, n, FullOuts(code, g), code') && entry <= p < |code| && MayLead(code', p, q)
    ensures MayLead(code, p, q) && entry <= q
  {
    hide FullOuts, LiveAt, WellFormed;
    assert code'[p] == Marked(code, entry, g, n, FullOuts(code, g), p);
  }

  /** One instruction before and after a pass. */
  lemma MarkedUse(code: Code, entry: nat, g: Cfg, n: nat, code': Code, p: nat, v: nat)
    requires Eliminable(code, entry, g) && |FullOuts(code, g)| == |g.first| && |code'| == |code|
    requires MarkedCode(code, entry, g, n, FullOuts(code, g), code') && entry <= p < |code| && v < Places(n)
    ensures UsesId(code'[p], v) ==> UsesId(code[p], v)
    ensures SetsId(code[p], v) && !SetsId(code'[p], v) ==>
              v !in LiveAfter(code, entry, g, FullOuts(code, g), p)
  {
    hide FullOuts, LiveAt, Places, WellFormedCode, Covers;
    assert code'[p] == Marked(code, entry, g, n, FullOuts(code, g), p);
  }

  /** One more pass marks rightly, too. */
  lemma PassMarksRightly(start: Code, code: Code, entry: nat, g: Cfg, n: nat, code': Code)
    requires Eliminable(code, entry, g) && |FullOuts(code, g)| == |g.first|
    requires MarkedCode(code, entry, g, n, FullOuts(code, g), code')
    requires OnlyMoreDead(start, code) && |start| == |code| && MarkedRightly(start, entry, n, code)
    ensures |code'| == |code| && MarkedRightly(start, entry, n, code')
  {
    forall p | 0 <= p < |start| && code'[p].dead && !start[p].dead
      ensures entry <= p
      ensures IsNullAssignment(start[p]) || (DefinesLocal(start[p]) && !IsUseful(code', p, start[p], n))
    {
      MarkedInPass(start, code, entry, g, n, code', p);
      if DefinesLocal(start[p]) && !IsUseful(code, p, start[p], n) && start[p].dest.value.id < Places(n) {
        StillUseless(code, entry, g, n, code', p, start[p].dest.value.id);
      }
    }
  }

  lemma StillUseless(code: Code, entry: nat, g: Cfg, n: nat, code': Code, p: nat, v: nat)
    requires Eliminable(code, entry, g) && |FullOuts(code, g)| == |g.first| && |code'| == |code|
    requires MarkedCode(code, entry, g, n, FullOuts(code, g), code')
    requires entry <= p && v < Places(n) && !UsedAlong(code, p + 1, v)
    ensures !UsedAlong(code', p + 1, v)
  {
    hide Eliminable, MarkedCode, IsWay, Places, FullOuts;
    var q := p + 1;
    if path :| IsWay(code', q, v, path) {
      MarkingAddsNoUse(code, entry, g, n, code', q, v, path);
    }
  }

  lemma MarkedInPass(start: Code, code: Code, entry: nat, g: Cfg, n: nat, code': Code, p: nat)
    requires Eliminable(code, entry, g) && |FullOuts(code, g)| == |g.first| && |code'| == |code| == |start|
    requires MarkedCode(code, entry, g, n, FullOuts(code, g), code')
    requires OnlyMoreDead(start, code) && MarkedRightly(start, entry, n, code)
    requires p < |start| && code'[p].dead && !start[p].dead
    ensures entry <= p
    ensures IsNullAssignment(start[p]) || (DefinesLocal(start[p]) && !IsUseful(code, p, start[p], n))
  {
    assert code'[p] == Marked(code, entry, g, n, FullOuts(code, g), p);
    if !code[p].dead && !IsNullAssignment(code[p]) {
      var v := code[p].dest.value.id;
      if v < Places(n) && UsedAlong(code, p + 1, v) {
        FullSolution(code, entry, g);
        hide *;
        UsedLives(code, entry, g, p, v);
      }
    }
  }

  lemma UsedLives(code: Code, entry: nat, g: Cfg, p: nat, v: nat)
    requires Eliminable(code, entry, g) && |FullOuts(code, g)| == |g.first| && entry <= p < |code|
    requires UsedAlong(code, p + 1, v)
    ensures v in LiveAfter(code, entry, g, FullOuts(code, g), p)
  {
    FullSolution(code, entry, g);
    hide FullIns, FullOuts, LivenessSolution;
    UsedIsLiveAfter(code, entry, g, FullIns(code, g), FullOuts(code, g), p, v);
  }

  /** What is left when nothing can be removed is useful. */
  lemma LeftIsUseful(code: Code, entry: nat, g: Cfg, n: nat, p: nat)
    requires Eliminable(code, entry, g) && Traces(code, g) && Placed(code, entry, g)
    requires NothingRemovable(code, entry, g, n) && entry <= p < |code| && !code[p].dead
    ensures !IsNullAssignment(code[p])
    ensures DefinesLocal(code[p]) ==> IsUseful(code, p, code[p], n)
  {
    hide *;
    LeftIsLive(code, entry, g, n, p);
    if DefinesLocal(code[p]) {
      LiveIsUsed(code, entry, g, p, code[p].dest.value.id);
      UsefulIf(code, p, n);
    }
  }

  lemma UsefulIf(code: Code, p: nat, n: nat)
    requires p < |code| && DefinesLocal(code[p]) && code[p].dest.value.id < Places(n)
    requires UsedAlong(code, p + 1, code[p].dest.value.id)
    ensures IsUseful(code, p, code[p], n)
  {
    hide UsedAlong, Places;
  }

  lemma LeftIsLive(code: Code, entry: nat, g: Cfg, n: nat, p: nat)
    requires Eliminable(code, entry, g) && Placed(code, entry, g)
    requires NothingRemovable(code, entry, g, n) && entry <= p < |code| && !code[p].dead
    ensures WellFormedCode(code, entry) && |FullOuts(code, g)| == |g.first| && !IsNullAssignment(code[p])
    ensures DefinesLocal(code[p]) ==>
              code[p].dest.Some? && !IsJump(code[p]) && code[p].dest.value.id < Places(n)
              && code[p].dest.value.id in LiveAfter(code, entry, g, FullOuts(code, g), p)
  {
    hide *;
    EliminableIsPlaced(code, entry, g);
    WellFormedAt(code, entry, p);
    NotRemovable(code, entry, g, n, p);
    LeftMeans(code[p], LiveAfter(code, entry, g, FullOuts(code, g), p), n);
  }

  lemma WellFormedAt(code: Code, entry: nat, p: nat)
    requires WellFormedCode(code, entry) && p < |code|
    ensures WellFormed(code[p])
  {
    hide WellFormed;
  }

  lemma LeftMeans(i: Instruction, live: set<nat>, n: nat)
    requires WellFormed(i) && !i.dead && !IsRemovable(i, Held(live, n))
    ensures !IsNullAssignment(i)
    ensures DefinesLocal(i) ==> i.dest.Some? && !IsJump(i) && i.dest.value.id < Places(n) && i.dest.value.id in live
  {
    hide Places;
  }

  /** The analysis with sets of any size finds nothing to remove where the exact one cut to that size does not. */
  lemma NotRemovable(code: Code, entry: nat, g: Cfg, n: nat, p: nat)
    requires Placed(code, entry, g) && NothingRemovable(code, entry, g, n) && entry <= p < |code|
    ensures |FullOuts(code, g)| == |g.first|
    ensures !IsRemovable(code[p], Held(LiveAfter(code, entry, g, FullOuts(code, g), p), n))
  {
    var ins, outs :| |outs| == |g.first| && NothingRemovableWith(code, entry, g, n, ins, outs);
    assert !IsRemovable(code[p], Held(LiveAfter(code, entry, g, outs, p), n));
    HeldOfFull(code, g, n, ins, outs);
    HeldAfterFull(code, entry, g, n, p);
    hide HeldLiveness, FullOuts, LiveAt, IsRemovable, Places;
  }

  lemma EndsExactlyUseful(start: Code, code: Code, entry: nat, g: Cfg, n: nat)
    requires Eliminable(code, entry, g) && Traces(code, g) && Placed(code, entry, g)
    requires NothingRemovable(code, entry, g, n)
    requires OnlyMoreDead(start, code) && |start| == |code| && MarkedRightly(start, entry, n, code)
    ensures ExactlyUseful(start, entry, n, code)
  {
    hide Eliminable, Traces, Placed, NothingRemovable, UsedAlong, Places;
    forall p | entry <= p < |code| && !code[p].dead
      ensures !IsNullAssignment(code[p]) && (DefinesLocal(code[p]) ==> IsUseful(code, p, code[p], n))
    {
      LeftIsUseful(code, entry, g, n, p);
    }
  }

  // ---------------------------------------------------------------- the passes

  /** Marks the removable instructions of one block, from its last instruction to its first. */
  method RemoveInBlock(code: array<Instruction>, g: Cfg, b: nat, n: nat, out: set<nat>) returns (found: bool)
    requires GraphShape(code[..], g) && b < |g.first| && Held(out, n) == out
    modifies code
    ensures forall p :: 0 <= p < code.Length ==>
              code[p] == if g.blockOf[p] == Some(b) then MarkedIn(old(code[..]), p, End(g, b), n, out) else old(code[p])
    ensures found <==> exists p :: 0 <= p < code.Length && RemovesDefinition(old(code[p]), code[p])
  {
    hide WellFormed, DefinedIds, UsedIds, IsNullAssignment, Held, LiveBefore;
    EnterIsKept(code[..], g, b, n, out);
    ghost var before := code[..];
    found := false;
    if g.last[b].None? {
      return;
    }
    var live := out;
    var p: int := g.last[b].value;
    while 0 <= p && g.blockOf[p] == Some(b)
      invariant g.first[b] - 1 <= p <= End(g, b)
      invariant live == Held(LiveAt(before, p + 1, End(g, b), out), n)
      invariant forall q :: 0 <= q < code.Length ==>
                  code[q] == if p < q <= End(g, b) then MarkedIn(before, q, End(g, b), n, out) else before[q]
      invariant found <==> exists q :: 0 <= q < code.Length && RemovesDefinition(before[q], code[q])
    {
      var i := code[p];
      HeldStep(i, n, LiveAt(before, p + 1, End(g, b), out));
      if i.dead {
      } else if IsNullAssignment(i) {
        code[p] := i.(dead := true);
      } else {
        var lhs, rhs := DefinedIds(i), UsedIds(i);
        if RedefinesVariable(i) && i.dest.value.scope == Local && i.dest.value.id !in live {
          code[p] := i.(dead := true);
          found := true;
          assert RemovesDefinition(before[p], code[p]);
        }
        live := Held(live - lhs, n);
        live := Held(live + rhs, n);
      }
      p := p - 1;
    }
  }

  /** Going backwards over one instruction, in sets for `n` elements. */
  lemma HeldStep(i: Instruction, n: nat, after: set<nat>)
    ensures !IsSkipped(i) ==>
              Held(Held(Held(after, n) - DefinedIds(i), n) + UsedIds(i), n) == Held(LiveBefore(i, after), n)
    ensures IsSkipped(i) ==> LiveBefore(i, after) == after
  {
    hide Places, DefinedIds, UsedIds;
  }

  lemma EnterIsKept(code: Code, g: Cfg, b: nat, n: nat, out: set<nat>)
    requires GraphShape(code, g) && b < |g.first|
    ensures g.last[b].None? ==>
              forall p :: 0 <= p < |code| && g.blockOf[p] == Some(b) ==> MarkedIn(code, p, End(g, b), n, out) == code[p]
  {
  }

  ghost predicate RemovesDefinition(i: Instruction, i': Instruction) {
    !i.dead && i'.dead && !IsNullAssignment(i)
  }

  /** One pass over all blocks; says whether it removed a definition. */
  method RemoveDeadInstructions(
      code: array<Instruction>, ghost entry: nat, g: Cfg, n: nat, outs: seq<set<nat>>) returns (found: bool)
    requires Placed(code[..], entry, g) && |outs| == |g.first|
    requires forall b :: 0 <= b < |outs| ==> Held(outs[b], n) == outs[b]
    modifies code
    ensures MarkedCode(old(code[..]), entry, g, n, outs, code[..])
    ensures found <==> exists p :: 0 <= p < code.Length && RemovesDefinition(old(code[p]), code[p])
  {
    ghost var before := code[..];
    found := false;
    for b := |g.first| downto 0
      invariant MarkedDownTo(before, entry, g, n, outs, b, code[..])
      invariant found <==> exists p :: 0 <= p < code.Length && RemovesDefinition(before[p], code[p])
    {
      ghost var middle := code[..];
      hide LiveAt, IsRemovable, RemovesDefinition;
      MiddleShape(before, entry, g, n, outs, b + 1, middle);
      var foundHere := RemoveInBlock(code, g, b, n, outs[b]);
      BlockMarked(before, entry, g, n, outs, b, middle, code[..]);
      assert foundHere <==> exists p :: 0 <= p < code.Length && RemovesDefinition(middle[p], code[p]);
      FoundGrows(before, entry, g, n, outs, b, middle, code[..]);
      if foundHere {
        found := true;
      }
    }
  }

  /** The blocks from `b` on are marked. */
  ghost predicate MarkedDownTo(before: Code, entry: nat, g: Cfg, n: nat, outs: seq<set<nat>>, b: nat, code: Code)
    requires Placed(before, entry, g) && |outs| == |g.first|
  {
    && |code| == |before|
    && forall p :: 0 <= p < |before| ==>
         code[p] == if entry <= p && b <= g.blockOf[p].value then Marked(before, entry, g, n, outs, p) else before[p]
  }

  lemma MiddleShape(before: Code, entry: nat, g: Cfg, n: nat, outs: seq<set<nat>>, b: nat, middle: Code)
    requires Placed(before, entry, g) && |outs| == |g.first| && MarkedDownTo(before, entry, g, n, outs, b, middle)
    ensures GraphShape(middle, g)
  {
    assert forall p :: 0 <= p < |before| ==> middle[p] == before[p] || middle[p] == before[p].(dead := true);
  }

  lemma BlockMarked(before: Code, entry: nat, g: Cfg, n: nat, outs: seq<set<nat>>, b: nat, middle: Code, code: Code)
    requires Placed(before, entry, g) && |outs| == |g.first| && b < |g.first|
    requires MarkedDownTo(before, entry, g, n, outs, b + 1, middle) && |code| == |before|
    requires forall p :: 0 <= p < |code| ==>
               code[p] == if g.blockOf[p] == Some(b) then MarkedIn(middle, p, End(g, b), n, outs[b]) else middle[p]
    ensures MarkedDownTo(before, entry, g, n, outs, b, code)
  {
    hide LiveAt;
    forall p | 0 <= p < |code| && g.blockOf[p] == Some(b) ensures code[p] == Marked(before, entry, g, n, outs, p) {
      LiveAtIsLocal(before, middle, p + 1, End(g, b), outs[b]);
    }
  }

  lemma FoundGrows(before: Code, entry: nat, g: Cfg, n: nat, outs: seq<set<nat>>, b: nat, middle: Code, code: Code)
    requires Placed(before, entry, g) && |outs| == |g.first| && b < |g.first|
    requires MarkedDownTo(before, entry, g, n, outs, b + 1, middle) && |code| == |before|
    requires forall p :: 0 <= p < |code| ==>
               code[p] == if g.blockOf[p] == Some(b) then MarkedIn(middle, p, End(g, b), n, outs[b]) else middle[p]
    ensures (exists p :: 0 <= p < |code| && RemovesDefinition(before[p], code[p])) <==>
              || (exists p :: 0 <= p < |code| && RemovesDefinition(before[p], middle[p]))
              || (exists p :: 0 <= p < |code| && RemovesDefinition(middle[p], code[p]))
  {
    forall p | 0 <= p < |code|
      ensures RemovesDefinition(before[p], code[p]) <==>
                RemovesDefinition(before[p], middle[p]) || RemovesDefinition(middle[p], code[p])
    {
      assert g.blockOf[p] == Some(b) ==> middle[p] == before[p];
    }
  }

  ghost function Alive(code: Code): set<nat> {
    set p | 0 <= p < |code| && !code[p].dead
  }

  /**
   * By the liveness that the analysis finds with sets for `n` elements, every definition of a local variable
   * that is left is live, and no null assignment is left.
   */
  ghost predicate NothingRemovable(code: Code, entry: nat, g: Cfg, n: nat)
    requires Placed(code, entry, g)
  {
    exists ins, outs :: |outs| == |g.first| && NothingRemovableWith(code, entry, g, n, ins, outs)
  }

  ghost predicate NothingRemovableWith(
      code: Code, entry: nat, g: Cfg, n: nat, ins: seq<set<nat>>, outs: seq<set<nat>>)
    requires Placed(code, entry, g) && |outs| == |g.first|
  {
    && HeldLiveness(code, g, n, ins, outs)
    && forall p :: entry <= p < |code| ==> !IsRemovable(code[p], Held(LiveAfter(code, entry, g, outs, p), n))
  }

  /** By the exact liveness, too, nothing is left to remove. */
  ghost predicate EverythingNeeded(code: Code, entry: nat, g: Cfg)
    requires Placed(code, entry, g)
  {
    forall p :: entry <= p < |code| ==> !IsRemovable(code[p], LiveAfter(code, entry, g, FullOuts(code, g), p))
  }

  lemma NeededByFull(code: Code, entry: nat, g: Cfg, n: nat)
    requires Placed(code, entry, g) && NothingRemovable(code, entry, g, n) && AssignedFit(code, n)
    ensures EverythingNeeded(code, entry, g)
  {
    var ins, outs :| |outs| == |g.first| && NothingRemovableWith(code, entry, g, n, ins, outs);
    HeldOfFull(code, g, n, ins, outs);
    hide LiveAt, HeldLiveness, FullOuts;
    forall p | entry <= p < |code| ensures !IsRemovable(code[p], LiveAfter(code, entry, g, FullOuts(code, g), p)) {
      HeldAfterFull(code, entry, g, n, p);
      FitIsRemovable(code, n, p, LiveAfter(code, entry, g, FullOuts(code, g), p));
    }
  }

  /** What is held of the ids live after an instruction is the same for the exact sets. */
  lemma HeldAfterFull(code: Code, entry: nat, g: Cfg, n: nat, p: nat)
    requires Placed(code, entry, g) && entry <= p < |code|
    ensures var full := FullOuts(code, g);
      Held(LiveAfter(code, entry, g, AllHeld(full, n), p), n) == Held(LiveAfter(code, entry, g, full, p), n)
  {
    HeldLiveAt(code, n, p + 1, End(g, g.blockOf[p].value), FullOuts(code, g)[g.blockOf[p].value]);
  }

  /** Marking by the sets of the analysis is marking by the exact sets. */
  lemma MarkedByFull(code: Code, entry: nat, g: Cfg, n: nat, ins: seq<set<nat>>, outs: seq<set<nat>>, code': Code)
    requires Placed(code, entry, g) && |outs| == |g.first| && HeldLiveness(code, g, n, ins, outs)
    requires MarkedCode(code, entry, g, n, outs, code')
    ensures MarkedCode(code, entry, g, n, FullOuts(code, g), code')
  {
    HeldOfFull(code, g, n, ins, outs);
    hide LiveAt, HeldLiveness, FullOuts, IsRemovable;
    forall p | 0 <= p < |code| ensures code'[p] == Marked(code, entry, g, n, FullOuts(code, g), p) {
      assert code'[p] == Marked(code, entry, g, n, outs, p);
      if entry <= p {
        HeldAfterFull(code, entry, g, n, p);
      }
    }
  }

  /** An assigned variable whose id has no place in the sets loses every assignment. */
  lemma NoPlaceIsDead(code: Code, entry: nat, g: Cfg, n: nat, p: nat)
    requires Placed(code, entry, g) && NothingRemovable(code, entry, g, n) && entry <= p < |code|
    requires RedefinesVariable(code[p]) && IsLocal(code[p].dest) && Places(n) <= code[p].dest.value.id
    ensures code[p].dead
  {
    hide Places;
  }

  /** What has been marked computes something. */
  ghost predicate OnlyDefinitionsDie(code: Code, code': Code)
    requires |code'| == |code|
  {
    forall p :: 0 <= p < |code| && code'[p].dead && !code[p].dead ==> code[p].dest.Some?
  }

  /**
   * Repeats liveness analysis and removal until a pass removes no definition, with sets for `n` elements, the
   * number of local variables that are no formals.
   */
  method DoDeadCodeElimination(code: array<Instruction>, ghost entry: nat, g: Cfg, n: nat)
    requires Eliminable(code[..], entry, g)
    modifies code
    ensures OnlyMoreDead(old(code[..]), code[..]) && Eliminable(code[..], entry, g)
    ensures NothingRemovable(code[..], entry, g, n) && OnlyDefinitionsDie(old(code[..]), code[..])
    ensures old(IdsAreRight(code[..], n)) ==>
              && IdsAreRight(code[..], n) && EverythingNeeded(code[..], entry, g)
              && NoNewReads(old(code[..]), code[..], entry)
              && forall m: Machine :: m.Valid() ==> SameMeaning(m, old(code[..]), code[..])
    ensures old(Traces(code[..], g)) ==> Traces(code[..], g) && ExactlyUseful(old(code[..]), entry, n, code[..])
  {
    hide *;
    ghost var start := code[..];
    StartsSame(start);
    StartsRightly(start, entry, n);
    EliminableIsPlaced(start, entry, g);
    var anyChange := true;
    var analysis := new LivenessAnalysis(n);
    while anyChange
      invariant OnlyMoreDead(start, code[..]) && Eliminable(code[..], entry, g) && Placed(code[..], entry, g)
      invariant |code[..]| == |start| && OnlyDefinitionsDie(start, code[..])
      invariant IdsAreRight(start, n) ==> forall m: Machine :: m.Valid() ==> SameMeaning(m, start, code[..])
      invariant IdsAreRight(start, n) ==> NoNewReads(start, code[..], entry)
      invariant MarkedRightly(start, entry, n, code[..])
      invariant !anyChange ==> NothingRemovable(code[..], entry, g, n)
      decreases Alive(code[..]), if anyChange then 1 else 0
    {
      ghost var before := code[..];
      EliminableIsPlaced(before, entry, g);
      analysis.FindInAndOutLivenessSets(code[..], g);
      ghost var ins, outs := analysis.ins, analysis.outs;
      SizesOfSolution(before, g, n, ins, outs);
      anyChange := RemoveDeadInstructions(code, entry, g, n, analysis.outs);
      PassIsSound(start, before, code[..], entry, g, n, ins, outs);
      PassKeepsFirstReads(start, before, code[..], entry, g, n, ins, outs);
      PassKeepsRight(start, before, code[..], entry, g, n, ins, outs);
      PassEnds(before, code[..], entry, g, n, ins, outs, anyChange);
    }
    if Traces(start, g) {
      EliminableIsPlaced(code[..], entry, g);
      MarkingKeepsTraces(start, code[..], entry, g);
      EndsExactlyUseful(start, code[..], entry, g, n);
    }
    if IdsAreRight(start, n) {
      MarkingKeepsIds(start, code[..], n);
      RightIdsFit(code[..], n);
      NeededByFull(code[..], entry, g, n);
    }
  }

  lemma StartsRightly(code: Code, entry: nat, n: nat)
    ensures MarkedRightly(code, entry, n, code)
  {
  }

  lemma PassKeepsRight(
      start: Code, code: Code, code': Code, entry: nat, g: Cfg, n: nat, ins: seq<set<nat>>, outs: seq<set<nat>>)
    requires Eliminable(code, entry, g) && HeldLiveness(code, g, n, ins, outs) && |outs| == |g.first|
    requires MarkedCode(code, entry, g, n, outs, code') && OnlyMoreDead(start, code)
    requires |code| == |start| && MarkedRightly(start, entry, n, code)
    ensures |code'| == |start| && MarkedRightly(start, entry, n, code')
  {
    hide *;
    EliminableIsPlaced(code, entry, g);
    MarkedByFull(code, entry, g, n, ins, outs, code');
    FullSolution(code, entry, g);
    PassMarksRightly(start, code, entry, g, n, code');
  }

  /** Marking definitions leaves the jumps as they are, and so what the graph adds to them. */
  lemma MarkingKeepsTraces(code: Code, code': Code, entry: nat, g: Cfg)
    requires WellFormedCode(code, entry) && Traces(code, g)
    requires OnlyMoreDead(code, code') && |code'| == |code| && OnlyDefinitionsDie(code, code')
    ensures Traces(code', g)
  {
    forall p | 0 <= p < |code| && code'[p].dead && !code[p].dead ensures code[p].op != If && code[p].op != Goto {
      assert WellFormed(code[p]);
    }
    hide WellFormedCode, Traces;
    JumpsKeepTraces(code, code', entry, g);
  }

  lemma StartsSame(code: Code)
    ensures OnlyMoreDead(code, code) && OnlyDefinitionsDie(code, code) && forall p :: NoNewReads(code, code, p)
    ensures forall m: Machine :: m.Valid() ==> SameMeaning(m, code, code)
  {
  }

  lemma EliminableIsPlaced(code: Code, entry: nat, g: Cfg)
    requires Eliminable(code, entry, g)
    ensures Placed(code, entry, g) && GraphShape(code, g) && WellFormedCode(code, entry)
  {
  }

  lemma RightIdsFit(code: Code, n: nat)
    requires IdsAreRight(code, n)
    ensures AssignedFit(code, n)
  {
  }

  lemma SizesOfSolution(code: Code, g: Cfg, n: nat, ins: seq<set<nat>>, outs: seq<set<nat>>)
    requires GraphShape(code, g) && HeldLiveness(code, g, n, ins, outs)
    ensures |ins| == |outs| == |g.first| && forall b :: 0 <= b < |outs| ==> Held(outs[b], n) == outs[b]
  {
    HeldOfFull(code, g, n, ins, outs);
    hide HeldLiveness, FullOuts, Places;
  }

  lemma MarkingKeepsIds(code: Code, code': Code, n: nat)
    requires IdsAreRight(code, n) && OnlyMoreDead(code, code')
    ensures IdsAreRight(code', n)
  {
    hide Places;
    assert forall p :: 0 <= p < |code| ==> RedefinesVariable(code'[p]) == RedefinesVariable(code[p]);
  }

  lemma MarkingKeepsEliminable(code: Code, code': Code, entry: nat, g: Cfg)
    requires Eliminable(code, entry, g) && OnlyMoreDead(code, code')
    ensures Eliminable(code', entry, g)
  {
    MarkingKeepsShape(code, code', entry, g);
    hide StepsOnGraph, IsFirst, WellFormedCode, Placed;
    forall p | entry <= p < |code'| ensures CoversFall(code', g, p) && CoversJump(code', g, p) {
      assert CoversFall(code, g, p) && CoversJump(code, g, p);
    }
  }

  lemma MarkingKeepsShape(code: Code, code': Code, entry: nat, g: Cfg)
    requires WellFormedCode(code, entry) && Placed(code, entry, g) && OnlyMoreDead(code, code')
    ensures WellFormedCode(code', entry) && Placed(code', entry, g)
  {
  }

  lemma PassIsSound(
      start: Code, code: Code, code': Code, entry: nat, g: Cfg, n: nat, ins: seq<set<nat>>, outs: seq<set<nat>>)
    requires Eliminable(code, entry, g) && HeldLiveness(code, g, n, ins, outs) && |outs| == |g.first|
    requires MarkedCode(code, entry, g, n, outs, code') && OnlyMoreDead(start, code)
    requires IdsAreRight(start, n) ==> forall m: Machine :: m.Valid() ==> SameMeaning(m, start, code)
    requires |code| == |start| && OnlyDefinitionsDie(start, code)
    ensures OnlyMoreDead(start, code') && Eliminable(code', entry, g) && Placed(code', entry, g)
    ensures |code'| == |start| && OnlyDefinitionsDie(start, code')
    ensures IdsAreRight(start, n) ==> forall m: Machine :: m.Valid() ==> SameMeaning(m, start, code')
  {
    hide *;
    EliminableIsPlaced(code, entry, g);
    OnlyMarked(start, code, code', entry, g, n, outs);
    MarkingKeepsEliminable(code, code', entry, g);
    EliminableIsPlaced(code', entry, g);
    if IdsAreRight(start, n) {
      MarkingKeepsIds(start, code, n);
      MarkedByFull(code, entry, g, n, ins, outs, code');
      FullIsSolution(code, g);
      forall m: Machine | m.Valid() ensures SameMeaning(m, start, code') {
        PassPreservesMeaning(m, code, code', entry, g, n, FullIns(code, g), FullOuts(code, g));
        SameMeaningTransitive(m, start, code, code');
      }
    }
  }

  lemma PassKeepsFirstReads(
      start: Code, code: Code, code': Code, entry: nat, g: Cfg, n: nat, ins: seq<set<nat>>, outs: seq<set<nat>>)
    requires Eliminable(code, entry, g) && HeldLiveness(code, g, n, ins, outs) && |outs| == |g.first|
    requires MarkedCode(code, entry, g, n, outs, code') && OnlyMoreDead(start, code)
    requires IdsAreRight(start, n) ==> NoNewReads(start, code, entry)
    ensures IdsAreRight(start, n) ==> NoNewReads(start, code', entry)
  {
    hide *;
    if IdsAreRight(start, n) {
      MarkingKeepsIds(start, code, n);
      EliminableIsPlaced(code, entry, g);
      MarkedByFull(code, entry, g, n, ins, outs, code');
      FullIsSolution(code, g);
      PassAddsNoReads(code, code', entry, g, n, FullIns(code, g), FullOuts(code, g));
      NoNewReadsTransitive(start, code, code', entry);
    }
  }

  lemma FullIsSolution(code: Code, g: Cfg)
    requires GraphShape(code, g)
    ensures LivenessSolution(code, g, FullIns(code, g), FullOuts(code, g)) && |FullOuts(code, g)| == |g.first|
  {
    FullIsExact(code, g);
  }

  lemma OnlyMarked(start: Code, code: Code, code': Code, entry: nat, g: Cfg, n: nat, outs: seq<set<nat>>)
    requires WellFormedCode(code, entry)
    requires Placed(code, entry, g) && |outs| == |g.first| && MarkedCode(code, entry, g, n, outs, code')
    requires OnlyMoreDead(start, code) && |code| == |start| && OnlyDefinitionsDie(start, code)
    ensures OnlyMoreDead(code, code') && OnlyMoreDead(start, code')
    ensures |code'| == |start| && OnlyDefinitionsDie(start, code')
  {
    hide LiveAt, Placed;
    forall p | 0 <= p < |code| && code'[p].dead && !code[p].dead ensures code[p].dest.Some? {
      assert WellFormed(code[p]) && code'[p] == Marked(code, entry, g, n, outs, p);
    }
  }

  lemma SameMeaningTransitive(m: Machine, code1: Code, code2: Code, code3: Code)
    requires SameMeaning(m, code1, code2) && SameMeaning(m, code2, code3)
    ensures SameMeaning(m, code1, code3)
  {
    forall s: State, n: nat ensures SameEffects(Run(m, code1, s, n), Run(m, code3, s, n)) {
      assert SameEffects(Run(m, code1, s, n), Run(m, code2, s, n));
      assert SameEffects(Run(m, code2, s, n), Run(m, code3, s, n));
    }
  }

  /** A pass that removes a definition leaves fewer instructions; one that does not leaves nothing to remove. */
  lemma PassEnds(
      code: Code, code': Code, entry: nat, g: Cfg, n: nat, ins: seq<set<nat>>, outs: seq<set<nat>>, found: bool)
    requires Placed(code, entry, g) && Placed(code', entry, g) && |outs| == |g.first|
    requires HeldLiveness(code, g, n, ins, outs) && MarkedCode(code, entry, g, n, outs, code')
    requires found <==> exists p :: 0 <= p < |code| && RemovesDefinition(code[p], code'[p])
    ensures Alive(code') <= Alive(code) && (found ==> Alive(code') < Alive(code))
    ensures !found ==> NothingRemovable(code', entry, g, n)
  {
    hide HeldLiveness, Placed, LiveAt;
    assert forall p :: 0 <= p < |code| ==> code'[p] == code[p] || code'[p] == code[p].(dead := true);
    if found {
      var p :| 0 <= p < |code| && RemovesDefinition(code[p], code'[p]);
      assert p in Alive(code) && p !in Alive(code');
    } else {
      LastPass(code, code', entry, g, n, ins, outs);
    }
  }

  lemma LastPass(code: Code, code': Code, entry: nat, g: Cfg, n: nat, ins: seq<set<nat>>, outs: seq<set<nat>>)
    requires Placed(code, entry, g) && Placed(code', entry, g) && |outs| == |g.first|
    requires HeldLiveness(code, g, n, ins, outs) && MarkedCode(code, entry, g, n, outs, code')
    requires forall p :: 0 <= p < |code| ==> !RemovesDefinition(code[p], code'[p])
    ensures NothingRemovable(code', entry, g, n)
  {
    OnlySkippedMarked(code, code', entry, g, n, outs);
    SkippedKeepsLiveness(code, code', g, n, ins, outs);
    NoneRemovable(code, code', entry, g, n, outs);
    hide HeldLiveness, RemovesDefinition, IsRemovable;
    assert NothingRemovableWith(code', entry, g, n, ins, outs);
  }

  lemma OnlySkippedMarked(code: Code, code': Code, entry: nat, g: Cfg, n: nat, outs: seq<set<nat>>)
    requires Placed(code, entry, g) && |outs| == |g.first| && MarkedCode(code, entry, g, n, outs, code')
    requires forall p :: 0 <= p < |code| ==> !RemovesDefinition(code[p], code'[p])
    ensures forall q :: 0 <= q < |code| ==> code'[q] == code[q] || (IsSkipped(code'[q]) && IsSkipped(code[q]))
  {
    hide LiveAt;
  }

  lemma NoneRemovable(code: Code, code': Code, entry: nat, g: Cfg, n: nat, outs: seq<set<nat>>)
    requires Placed(code, entry, g) && Placed(code', entry, g) && |outs| == |g.first|
    requires MarkedCode(code, entry, g, n, outs, code')
    requires forall p :: 0 <= p < |code| ==> !RemovesDefinition(code[p], code'[p])
    requires forall q :: 0 <= q < |code| ==> code'[q] == code[q] || (IsSkipped(code'[q]) && IsSkipped(code[q]))
    ensures forall p :: entry <= p < |code'| ==> !IsRemovable(code'[p], Held(LiveAfter(code', entry, g, outs, p), n))
  {
    forall p | entry <= p < |code'| ensures !IsRemovable(code'[p], Held(LiveAfter(code', entry, g, outs, p), n)) {
      LiveAtIsLocal(code, code', p + 1, End(g, g.blockOf[p].value), outs[g.blockOf[p].value]);
    }
  }
}
