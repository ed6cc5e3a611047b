/**
 * Which ids the variables of a function need, so that dead code elimination is right: ids of their own,
 * with a place in sets that are made for `n` elements, the number of local variables that are no formals.
 */
module SharedIds {
  import opened Instructions
  import opened Semantics
  import opened Paths
  import opened BitSets
  import opened ControlFlow
  import opened Liveness
  import opened DeadCode
  import opened Examples

  /** Computes something into the variable: the number five, or an address if it holds one. */
  function Definition(x: Symbol): Instruction {
    if x.typ == AddrType then Instruction(IndexArray, Plus, Some(x), Some(Five()), Some(AnArray()), 0, false)
    else Copy(x, Five())
  }

  /** Assigns two variables and returns the first one. */
  function AssignsTwo(x: Symbol, y: Symbol): Code {
    [Instruction(Enter, Plus, None, Some(FunctionName()), None, 0, false),
     Definition(x), Definition(y), Instruction(Return, Plus, None, Some(x), None, 0, false)]
  }

  /** The first assignment has been marked. */
  function AssignsSecond(x: Symbol, y: Symbol): Code {
    AssignsTwo(x, y)[1 := Definition(x).(dead := true)]
  }

  function OneBlock(): Cfg {
    Cfg([Some(0), Some(0), Some(0), Some(0)], [0], [Some(3)], [[]], [[]])
  }

  /** A variable that an instruction may compute. */
  predicate IsPlace(x: Symbol) {
    x.scope == Local && !x.isConstant && IsScalar(x.typ)
  }

  /**
   * Where two variables share an id, and the second one does not hold an address, the pass meets
   * everything else it takes for granted, marks an assignment whose value is returned, and so
   * changes the meaning. All formals have the id 0, and so has the first local variable.
   */
  lemma SharedIdBreaks(n: nat, x: Symbol, y: Symbol)
    requires IsPlace(x) && IsPlace(y) && x != y && x.id == y.id && y.typ != AddrType && x.id < Places(n)
    ensures Marks(AssignsTwo(x, y), AssignsSecond(x, y), 0, OneBlock(), n, OneIns(AssignsTwo(x, y), n), [{}])
    ensures PLAIN.Valid() && !SameMeaning(PLAIN, AssignsTwo(x, y), AssignsSecond(x, y))
  {
    SharedIdMarked(n, x, y);
    SharedIdRuns(x, y);
    hide *;
  }

  /** The in set of the one block. */
  ghost function OneIns(code: Code, n: nat): seq<set<nat>>
    requires |code| == 4
  {
    [Held(LiveAt(code, 0, 3, {}), n)]
  }

  /** Four instructions in one block. */
  ghost predicate IsOneBlock(code: Code) {
    && |code| == 4 && code[0].op == Enter
    && forall p :: 0 <= p < 4 ==>
         WellFormed(code[p]) && !IsJump(code[p]) && (0 < p ==> code[p].op != Enter && code[p].op != GlobalDeclaration)
  }

  lemma OneBlockCovers(code: Code)
    requires IsOneBlock(code)
    ensures WellFormedCode(code, 0) && Placed(code, 0, OneBlock()) && Covers(code, 0, OneBlock())
  {
    hide WellFormed, IsJump;
  }

  lemma TwoIsOneBlock(x: Symbol, y: Symbol)
    requires IsPlace(x) && IsPlace(y)
    ensures IsOneBlock(AssignsTwo(x, y))
  {
  }

  /** The liveness of one block without successors. */
  lemma OneBlockIsHeld(code: Code, n: nat)
    requires IsOneBlock(code)
    ensures Placed(code, 0, OneBlock()) && HeldLiveness(code, OneBlock(), n, OneIns(code, n), [{}])
  {
    OneBlockCovers(code);
    hide WellFormed, IsJump, LiveAt, WellFormedCode, Covers, Places;
    var g := OneBlock();
    var uses, defs := Uses(code, g), Defs(code, g);
    SummaryIsExact(code, 0, 3, {});
    assert uses[0] == LiveAt(code, 0, 3, {});
    forall v: nat ensures Arrives(g.children, uses, defs, 0, v) <==> v in uses[0] {
      if v in uses[0] {
        ArrivesHere(g.children, uses, defs, 0, v);
      }
    }
  }

  /** What the pass makes of one block, from the ids that are live behind each instruction. */
  lemma OneBlockMarks(code: Code, code': Code, n: nat)
    requires IsOneBlock(code) && |code'| == 4
    requires forall p :: 0 <= p < 4 ==> code'[p] == MarkedIn(code, p, 3, n, {})
    ensures Marks(code, code', 0, OneBlock(), n, OneIns(code, n), [{}])
  {
    OneBlockCovers(code);
    OneBlockIsHeld(code, n);
    hide WellFormedCode, Covers, LiveAt, HeldLiveness, IsRemovable;
  }

  lemma SharedIdMarked(n: nat, x: Symbol, y: Symbol)
    requires IsPlace(x) && IsPlace(y) && x != y && x.id == y.id && y.typ != AddrType && x.id < Places(n)
    ensures Marks(AssignsTwo(x, y), AssignsSecond(x, y), 0, OneBlock(), n, OneIns(AssignsTwo(x, y), n), [{}])
  {
    var code := AssignsTwo(x, y);
    TwoIsOneBlock(x, y);
    LiveBackwards(code);
    hide Places, LiveAt, Marks;
    OneBlockMarks(code, AssignsSecond(x, y), n);
  }

  lemma LiveBackwards(code: Code)
    requires |code| == 4
    ensures LiveAt(code, 4, 3, {}) == {} && LiveAt(code, 3, 3, {}) == LiveBefore(code[3], {})
    ensures LiveAt(code, 2, 3, {}) == LiveBefore(code[2], LiveAt(code, 3, 3, {}))
    ensures LiveAt(code, 1, 3, {}) == LiveBefore(code[1], LiveAt(code, 2, 3, {}))
  {
    hide LiveBefore;
  }

  lemma SharedIdRuns(x: Symbol, y: Symbol)
    requires IsPlace(x) && IsPlace(y) && x != y
    ensures PLAIN.Valid() && !SameMeaning(PLAIN, AssignsTwo(x, y), AssignsSecond(x, y))
  {
    var s0, code, code' := StartState(map[]), AssignsTwo(x, y), AssignsSecond(x, y);
    BothReturn(x, y, code, true);
    BothReturn(x, y, code', false);
    assert Run(PLAIN, code, s0, 4).status != Run(PLAIN, code', s0, 4).status;
  }

  lemma BothReturn(x: Symbol, y: Symbol, code: Code, kept: bool)
    requires IsPlace(x) && IsPlace(y) && x != y && code == if kept then AssignsTwo(x, y) else AssignsSecond(x, y)
    ensures var status := Run(PLAIN, code, StartState(map[]), 4).status;
      status.Returned? && status.value.Some? && (status.value.value != 0 <==> kept)
  {
    hide Run;
    var s0 := StartState(map[]);
    RunIsSteps(PLAIN, code, s0, 0);
    RunIsSteps(PLAIN, code, s0, 1);
    RunIsSteps(PLAIN, code, s0, 2);
    RunIsSteps(PLAIN, code, s0, 3);
    var s1 := s0.(pc := 1);
    var s2 := Step(PLAIN, code, s1);
    var s3 := Step(PLAIN, code, s2);
    assert Run(PLAIN, code, s0, 1) == s1;
    FirstDefined(x, y, code, kept);
    SecondDefined(x, y, code, s2);
  }

  lemma FirstDefined(x: Symbol, y: Symbol, code: Code, kept: bool)
    requires IsPlace(x) && IsPlace(y) && x != y && code == if kept then AssignsTwo(x, y) else AssignsSecond(x, y)
    ensures var s := Step(PLAIN, code, StartState(map[]).(pc := 1));
      s.pc == 2 && s.status == Running && (Lookup(PLAIN, s.locals, x) != 0 <==> kept)
  {
  }

  lemma SecondDefined(x: Symbol, y: Symbol, code: Code, s: State)
    requires IsPlace(x) && IsPlace(y) && x != y && (code == AssignsTwo(x, y) || code == AssignsSecond(x, y))
    requires s.pc == 2 && s.status == Running
    ensures Step(PLAIN, code, Step(PLAIN, code, s)).status == Returned(Some(Lookup(PLAIN, s.locals, x)))
  {
    var s' := Step(PLAIN, code, s);
    assert s'.pc == 3 && s'.status == Running && Lookup(PLAIN, s'.locals, x) == Lookup(PLAIN, s.locals, x);
  }

  // ---------------------------------------------------------------- ids without a place

  /** Both assignments have been marked. */
  function AssignsNothing(x: Symbol): Code {
    AssignsTwo(x, x)[1 := Definition(x).(dead := true)][2 := Definition(x).(dead := true)]
  }

  /** Where the id of a variable has no place, every assignment of it is marked, also where its value is returned. */
  lemma NoPlaceBreaks(n: nat, x: Symbol)
    requires IsPlace(x) && Places(n) <= x.id
    ensures Marks(AssignsTwo(x, x), AssignsNothing(x), 0, OneBlock(), n, OneIns(AssignsTwo(x, x), n), [{}])
    ensures PLAIN.Valid() && !SameMeaning(PLAIN, AssignsTwo(x, x), AssignsNothing(x))
  {
    NoPlaceMarked(n, x);
    NoPlaceRuns(x);
    hide *;
  }

  lemma NoPlaceMarked(n: nat, x: Symbol)
    requires IsPlace(x) && Places(n) <= x.id
    ensures Marks(AssignsTwo(x, x), AssignsNothing(x), 0, OneBlock(), n, OneIns(AssignsTwo(x, x), n), [{}])
  {
    var code := AssignsTwo(x, x);
    TwoIsOneBlock(x, x);
    hide Places, LiveAt, Marks;
    OneBlockMarks(code, AssignsNothing(x), n);
  }

  lemma NoPlaceRuns(x: Symbol)
    requires IsPlace(x)
    ensures PLAIN.Valid() && !SameMeaning(PLAIN, AssignsTwo(x, x), AssignsNothing(x))
  {
    var s0, code, code' := StartState(map[]), AssignsTwo(x, x), AssignsNothing(x);
    TwiceReturns(x, code, true);
    TwiceReturns(x, code', false);
    assert Run(PLAIN, code, s0, 4).status != Run(PLAIN, code', s0, 4).status;
  }

  lemma TwiceReturns(x: Symbol, code: Code, kept: bool)
    requires IsPlace(x) && code == if kept then AssignsTwo(x, x) else AssignsNothing(x)
    ensures var status := Run(PLAIN, code, StartState(map[]), 4).status;
      status.Returned? && status.value.Some? && (status.value.value != 0 <==> kept)
  {
    hide Run;
    var s0 := StartState(map[]);
    RunIsSteps(PLAIN, code, s0, 0);
    RunIsSteps(PLAIN, code, s0, 1);
    RunIsSteps(PLAIN, code, s0, 2);
    RunIsSteps(PLAIN, code, s0, 3);
    assert Run(PLAIN, code, s0, 1) == s0.(pc := 1);
    TwiceDefined(x, code, kept, s0.(pc := 1));
    TwiceDefined(x, code, kept, Step(PLAIN, code, s0.(pc := 1)));
    ThenReturns(x, code, Run(PLAIN, code, s0, 3));
  }

  lemma TwiceDefined(x: Symbol, code: Code, kept: bool, s: State)
    requires IsPlace(x) && code == if kept then AssignsTwo(x, x) else AssignsNothing(x)
    requires 1 <= s.pc <= 2 && s.status == Running && s.globals == map[] && (kept || Lookup(PLAIN, s.locals, x) == 0)
    ensures var s' := Step(PLAIN, code, s);
      s'.globals == map[] && s'.pc == s.pc + 1 && s'.status == Running && (Lookup(PLAIN, s'.locals, x) != 0 <==> kept)
  {
  }

  lemma ThenReturns(x: Symbol, code: Code, s: State)
    requires IsPlace(x) && (code == AssignsTwo(x, x) || code == AssignsNothing(x)) && s.pc == 3 && s.status == Running
    ensures Step(PLAIN, code, s).status == Returned(Some(Lookup(PLAIN, s.locals, x)))
  {
  }

  /** The body `x = y; g(x);` of a function whose only variables are the formals `x` and `y`. */
  function PassesOn(x: Symbol, y: Symbol): Code {
    [Instruction(Enter, Plus, None, Some(FunctionName()), None, 0, false), Copy(x, y),
     Instruction(Param, Plus, None, Some(x), None, 0, false), Instruction(Return, Plus, None, None, None, 0, false)]
  }

  /**
   * In a function without local variables other than formals the pass marks the assignment and changes
   * the argument.
   */
  lemma FormalIsLost(x: Symbol, y: Symbol)
    requires IsPlace(x) && IsPlace(y) && x != y && x.typ != AddrType && y.typ != AddrType
    ensures var code := PassesOn(x, y); var code' := code[1 := Copy(x, y).(dead := true)];
      && Marks(code, code', 0, OneBlock(), 0, OneIns(code, 0), [{}]) && PLAIN.Valid()
      && !SameMeaning(PLAIN, code, code')
  {
    var code := PassesOn(x, y);
    var code' := code[1 := Copy(x, y).(dead := true)];
    assert IsOneBlock(code);
    FormalRuns(x, y, code);
    FormalRuns(x, y, code');
    hide LiveAt, Marks, Run, SameMeaning;
    OneBlockMarks(code, code', 0);
    Differ(code, code', StartState(map[y := 1]), 3);
  }

  lemma Differ(code: Code, code': Code, s: State, n: nat)
    requires Run(PLAIN, code, s, n).arguments != Run(PLAIN, code', s, n).arguments
    ensures !SameMeaning(PLAIN, code, code')
  {
    hide Run;
    assert !SameEffects(Run(PLAIN, code, s, n), Run(PLAIN, code', s, n));
  }

  lemma FormalRuns(x: Symbol, y: Symbol, code: Code)
    requires IsPlace(x) && IsPlace(y) && x != y && x.typ != AddrType && y.typ != AddrType
    requires code == PassesOn(x, y) || code == PassesOn(x, y)[1 := Copy(x, y).(dead := true)]
    ensures Run(PLAIN, code, StartState(map[y := 1]), 3).arguments == [if code[1].dead then 0 else 1]
  {
    hide *;
    var s := StartState(map[y := 1]);
    RunIsSteps(PLAIN, code, s, 0);
    RunIsSteps(PLAIN, code, s, 1);
    RunIsSteps(PLAIN, code, s, 2);
    FormalCopied(x, y, code);
    assert Run(PLAIN, code, s, 2) == Step(PLAIN, code, Step(PLAIN, code, s));
    ArgumentPassed(x, code, Run(PLAIN, code, s, 2));
  }

  lemma FormalCopied(x: Symbol, y: Symbol, code: Code)
    requires IsPlace(x) && IsPlace(y) && x != y && x.typ != AddrType && y.typ != AddrType
    requires code == PassesOn(x, y) || code == PassesOn(x, y)[1 := Copy(x, y).(dead := true)]
    ensures |code| == 4 && code[2] == Instruction(Param, Plus, None, Some(x), None, 0, false)
    ensures var s := Step(PLAIN, code, Step(PLAIN, code, StartState(map[y := 1])));
      s.pc == 2 && s.status == Running && s.arguments == []
        && Read(PLAIN, s, x) == if code[1].dead then 0 else 1
  {
    var s := StartState(map[y := 1]);
    assert Step(PLAIN, code, s) == s.(pc := 1);
    assert Step(PLAIN, code, s.(pc := 1)) == if code[1].dead then s.(pc := 2) else Write(PLAIN, s.(pc := 2), x, 1);
  }

  lemma ArgumentPassed(x: Symbol, code: Code, s: State)
    requires |code| == 4 && code[2] == Instruction(Param, Plus, None, Some(x), None, 0, false)
    requires s.pc == 2 && s.status == Running && s.arguments == []
    ensures Step(PLAIN, code, s).arguments == [Read(PLAIN, s, x)]
  {
  }

  // ---------------------------------------------------------------- exactly which ids

  /** The code assigns only these local variables. */
  ghost predicate AssignsOnly(code: Code, variables: iset<Symbol>) {
    forall p :: 0 <= p < |code| && RedefinesVariable(code[p]) && IsLocal(code[p].dest) ==>
      code[p].dest.value in variables
  }

  /** With sets for `n` elements the pass means no change, for every function that assigns only these variables. */
  ghost predicate PassIsRight(n: nat, variables: iset<Symbol>) {
    forall code: Code, code': Code, entry: nat, g: Cfg, ins: seq<set<nat>>, outs: seq<set<nat>> ::
      Marks(code, code', entry, g, n, ins, outs) && AssignsOnly(code, variables) ==>
        forall m: Machine :: m.Valid() ==> SameMeaning(m, code, code')
  }

  /** The second list is what the pass makes of the first one. */
  ghost predicate Marks(
      code: Code, code': Code, entry: nat, g: Cfg, n: nat, ins: seq<set<nat>>, outs: seq<set<nat>>)
  {
    && WellFormedCode(code, entry) && Placed(code, entry, g) && Covers(code, entry, g)
    && HeldLiveness(code, g, n, ins, outs) && MarkedCode(code, entry, g, n, outs, code')
  }

  /**
   * The pass is right for all functions that assign given variables exactly if no two of these share an id,
   * other than variables that hold addresses, and all their ids have a place in the sets.
   */
  lemma IdsDecide(n: nat, variables: iset<Symbol>)
    requires forall x :: x in variables ==> IsPlace(x)
    ensures PassIsRight(n, variables) <==>
            && (forall x, y :: x in variables && y in variables ==> IdsApart(x, y))
            && (forall x :: x in variables ==> x.id < Places(n))
  {
    hide Marks, PassIsRight, AssignsOnly, Places;
    if x :| x in variables && Places(n) <= x.id {
      NoPlaceIsWrong(n, x, variables);
    } else if x, y :| x in variables && y in variables && !IdsApart(x, y) {
      if y.typ == AddrType {
        SharedIsWrong(n, y, x, variables);
      } else {
        SharedIsWrong(n, x, y, variables);
      }
    } else {
      ApartIsRight(n, variables);
    }
  }

  /**
   * The ids as the compiler gives them: those of formals are 0, the other ones are below the number of variables
   * that have one. The pass is right exactly if assigned variables have ids of their own, and if there is a local
   * variable other than the formals or no formal is assigned.
   */
  lemma FormalsDecide(n: nat, variables: iset<Symbol>)
    requires forall x :: x in variables ==> IsPlace(x) && (if x.isFormal then x.id == 0 else x.id < n)
    ensures PassIsRight(n, variables) <==>
            && (forall x, y :: x in variables && y in variables ==> IdsApart(x, y))
            && (0 < n || forall x :: x in variables ==> !x.isFormal)
  {
    IdsDecide(n, variables);
    hide PassIsRight;
  }

  lemma NoPlaceIsWrong(n: nat, x: Symbol, variables: iset<Symbol>)
    requires x in variables && IsPlace(x) && Places(n) <= x.id
    ensures !PassIsRight(n, variables)
  {
    hide *;
    NoPlaceBreaks(n, x);
    TwoAssigned(x, x, variables);
    WrongOnce(n, AssignsTwo(x, x), AssignsNothing(x), variables);
  }

  lemma SharedIsWrong(n: nat, x: Symbol, y: Symbol, variables: iset<Symbol>)
    requires x in variables && y in variables && IsPlace(x) && IsPlace(y) && x != y && x.id == y.id && y.typ != AddrType
    requires x.id < Places(n)
    ensures !PassIsRight(n, variables)
  {
    hide *;
    SharedIdBreaks(n, x, y);
    TwoAssigned(x, y, variables);
    WrongOnce(n, AssignsTwo(x, y), AssignsSecond(x, y), variables);
  }

  lemma WrongOnce(n: nat, code: Code, code': Code, variables: iset<Symbol>)
    requires |code| == 4 && Marks(code, code', 0, OneBlock(), n, OneIns(code, n), [{}]) && AssignsOnly(code, variables)
    requires PLAIN.Valid() && !SameMeaning(PLAIN, code, code')
    ensures !PassIsRight(n, variables)
  {
    hide Marks, AssignsOnly, SameMeaning, Machine.Valid;
  }

  lemma ApartIsRight(n: nat, variables: iset<Symbol>)
    requires forall x, y :: x in variables && y in variables ==> IdsApart(x, y)
    requires forall x :: x in variables ==> x.id < Places(n)
    ensures PassIsRight(n, variables)
  {
    hide Places;
    forall code: Code, code': Code, entry: nat, g: Cfg, ins: seq<set<nat>>, outs: seq<set<nat>>, m: Machine
      | Marks(code, code', entry, g, n, ins, outs) && AssignsOnly(code, variables) && m.Valid()
      ensures SameMeaning(m, code, code')
    {
      VariablesAreRight(n, variables, code, entry);
      MarksMeanNothing(m, n, code, code', entry, g, ins, outs);
    }
  }

  lemma VariablesAreRight(n: nat, variables: iset<Symbol>, code: Code, entry: nat)
    requires forall x, y :: x in variables && y in variables ==> IdsApart(x, y)
    requires forall x :: x in variables ==> x.id < Places(n)
    requires AssignsOnly(code, variables) && WellFormedCode(code, entry)
    ensures IdsAreRight(code, n)
  {
    hide Places;
    forall p | 0 <= p < |code| && RedefinesVariable(code[p]) && code[p].dest.value.scope == Local
      ensures IsLocal(code[p].dest)
    {
      assert WellFormed(code[p]);
    }
  }

  lemma MarksMeanNothing(
      m: Machine, n: nat, code: Code, code': Code, entry: nat, g: Cfg, ins: seq<set<nat>>, outs: seq<set<nat>>)
    requires m.Valid() && Marks(code, code', entry, g, n, ins, outs) && IdsAreRight(code, n)
    ensures SameMeaning(m, code, code')
  {
    assert |outs| == |g.first| && GraphShape(code, g);
    hide WellFormedCode, Covers, HeldLiveness, MarkedCode, IdsAreRight, SameMeaning;
    MarkedByFull(code, entry, g, n, ins, outs, code');
    FullIsSolution(code, g);
    PassPreservesMeaning(m, code, code', entry, g, n, FullIns(code, g), FullOuts(code, g));
  }

  lemma TwoAssigned(x: Symbol, y: Symbol, variables: iset<Symbol>)
    requires x in variables && y in variables
    ensures AssignsOnly(AssignsTwo(x, y), variables) && |AssignsTwo(x, y)| == 4
  {
  }
}
