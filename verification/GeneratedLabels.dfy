/** The labels of generated code: each one stands once, and every jump has its label. */
module GeneratedLabels {
  import opened Instructions
  import opened SyntaxTrees
  import opened TemporaryPool
  import opened CodeGeneration
  import opened GeneratedRuns
  import opened StatementRuns

  ghost function Labels(code: Code): set<nat> {
    set i | 0 <= i < |code| && code[i].op == Label :: code[i].jumpTo
  }

  ghost function Jumps(code: Code): set<nat> {
    set i | 0 <= i < |code| && IsJump(code[i]) :: code[i].jumpTo
  }

  lemma PartsOf(a: Code, b: Code)
    ensures Labels(a + b) == Labels(a) + Labels(b) && Jumps(a + b) == Jumps(a) + Jumps(b)
    ensures UniqueLabels(a) && UniqueLabels(b) && Labels(a) !! Labels(b) ==> UniqueLabels(a + b)
  {
    forall i | 0 <= i < |b| ensures (a + b)[|a| + i] == b[i] {
    }
    forall i | 0 <= i < |a| ensures (a + b)[i] == a[i] {
    }
    forall l ensures l in Labels(a + b) <==> l in Labels(a) || l in Labels(b) {
      if l in Labels(b) {
        var i :| 0 <= i < |b| && b[i].op == Label && b[i].jumpTo == l;
        assert (a + b)[|a| + i].op == Label;
      }
    }
    forall l ensures l in Jumps(a + b) <==> l in Jumps(a) || l in Jumps(b) {
      if l in Jumps(b) {
        var i :| 0 <= i < |b| && IsJump(b[i]) && b[i].jumpTo == l;
        assert IsJump((a + b)[|a| + i]);
      }
    }
    if UniqueLabels(a) && UniqueLabels(b) && Labels(a) !! Labels(b) {
      forall p, q | 0 <= p < |a + b| && 0 <= q < |a + b| && (a + b)[p].op == Label && (a + b)[q].op == Label
        && (a + b)[p].jumpTo == (a + b)[q].jumpTo
        ensures p == q
      {
        assert p < |a| ==> (a + b)[p].jumpTo in Labels(a);
        assert q < |a| ==> (a + b)[q].jumpTo in Labels(a);
        assert p >= |a| ==> (a + b)[p].jumpTo == b[p - |a|].jumpTo && b[p - |a|].jumpTo in Labels(b);
        assert q >= |a| ==> (a + b)[q].jumpTo == b[q - |a|].jumpTo && b[q - |a|].jumpTo in Labels(b);
      }
    }
  }

  /**
   * The labels of the code stand once each and are among those from `low` up to `high`; its jumps go to
   * them or to `others`.
   */
  ghost predicate Labelled(code: Code, low: nat, high: nat, others: set<nat>) {
    && UniqueLabels(code) && low <= high && (forall l :: l in Labels(code) ==> low <= l < high)
    && Jumps(code) <= Labels(code) + others
  }

  lemma OneLabel(l: nat)
    ensures Labels([LabelHere(l)]) == {l} && Jumps([LabelHere(l)]) == {} && UniqueLabels([LabelHere(l)])
  {
    assert [LabelHere(l)][0].op == Label;
  }

  lemma OneJump(l: nat)
    ensures Labels([JumpTo(l)]) == {} && Jumps([JumpTo(l)]) == {l} && UniqueLabels([JumpTo(l)])
  {
    assert IsJump([JumpTo(l)][0]);
  }

  lemma {:induction false} ExprHasNoLabels(e: Expr, pool: Pool)
    ensures var code := GenExpr(e, pool).code; Labels(code) == {} && Jumps(code) == {} && UniqueLabels(code)
    decreases e, 0
  {
    match e
    case Var(x) =>
    case Const(t, v) =>
    case Negation(t, a) =>
      ExprHasNoLabels(a, pool);
      var g := GenExpr(a, pool);
      PartsOf(g.code, GenExpr(e, pool).code[|g.code|..]);
    case Arithmetic(t, k, a, b) =>
      ExprHasNoLabels(a, pool);
      var g := GenExpr(a, pool);
      ExprHasNoLabels(b, g.pool);
      var h := GenExpr(b, g.pool);
      PartsOf(g.code, h.code);
      PartsOf(g.code + h.code, GenExpr(e, pool).code[|g.code + h.code|..]);
    case Element(x, a) =>
      AddressHasNoLabels(x, a, pool);
      var g := GenAddress(x, a, pool);
      PartsOf(g.code, GenExpr(e, pool).code[|g.code|..]);
  }

  lemma AddressHasNoLabels(x: Symbol, a: Expr, pool: Pool)
    ensures var code := GenAddress(x, a, pool).code; Labels(code) == {} && Jumps(code) == {} && UniqueLabels(code)
    decreases a, 1
  {
    ExprHasNoLabels(a, pool);
    var g := GenExpr(a, pool);
    PartsOf(g.code, GenAddress(x, a, pool).code[|g.code|..]);
  }

  lemma ComparisonLabels(k: Kind, l: Expr, r: Expr, ifTrue: nat, ifFalse: nat, pool: Pool)
    requires Ready(pool) && TestOk(Comparison(k, l, r))
    ensures var t := GenTest(Comparison(k, l, r), ifTrue, ifFalse, pool);
            Labelled(t.code, pool.nextLabel, t.pool.nextLabel, {ifTrue, ifFalse})
  {
    var g := GenExpr(l, pool);
    var h := GenExpr(r, g.pool);
    ExprHasNoLabels(l, pool);
    ExprHasNoLabels(r, g.pool);
    PartsOf(g.code, h.code);
    ComparisonFacts(k, l, r, ifTrue, ifFalse, pool);
    TestPool(Comparison(k, l, r), ifTrue, ifFalse, pool);
    TwoJumps(k, g.place, h.place, ifTrue, ifFalse);
    hide GenExpr, GenTest, Labels, Jumps, UniqueLabels, Ready, TestOk, Available;
    PartsOf(g.code + h.code, [JumpIf(k, g.place, h.place, ifTrue), JumpTo(ifFalse)]);
  }

  lemma TwoJumps(k: Kind, x: Symbol, y: Symbol, ifTrue: nat, ifFalse: nat)
    ensures var jumps := [JumpIf(k, x, y, ifTrue), JumpTo(ifFalse)];
            Labels(jumps) == {} && Jumps(jumps) == {ifTrue, ifFalse} && UniqueLabels(jumps)
  {
    var jumps := [JumpIf(k, x, y, ifTrue), JumpTo(ifFalse)];
    assert IsJump(jumps[0]) && IsJump(jumps[1]);
  }

  /** Two tests with a label between them. */
  lemma JoinedTests(a: Code, next: nat, b: Code, low: nat, middle: nat, high: nat, others: set<nat>)
    requires Labelled(a, low, middle, others + {next}) && Labelled(b, middle, high, others) && next < low
    ensures Labelled(a + [LabelHere(next)] + b, next, high, others)
  {
    OneLabel(next);
    PartsOf(a, [LabelHere(next)]);
    PartsOf(a + [LabelHere(next)], b);
    hide UniqueLabels;
  }

  lemma {:induction false} TestLabels(b: Test, ifTrue: nat, ifFalse: nat, pool: Pool)
    requires Ready(pool) && TestOk(b)
    ensures var t := GenTest(b, ifTrue, ifFalse, pool);
              Labelled(t.code, pool.nextLabel, t.pool.nextLabel, {ifTrue, ifFalse})
  {
    match b
    case Comparison(k, l, r) =>
      ComparisonLabels(k, l, r, ifTrue, ifFalse, pool);
    case And(l, r) =>
      var next := pool.nextLabel;
      LabelsTaken(pool, 1);
      TestPool(l, next, ifFalse, WithLabels(pool, 1));
      var g := GenTest(l, next, ifFalse, WithLabels(pool, 1));
      TestLabels(l, next, ifFalse, WithLabels(pool, 1));
      TestLabels(r, ifTrue, ifFalse, g.pool);
      var h := GenTest(r, ifTrue, ifFalse, g.pool);
      JoinedTests(g.code, next, h.code, next + 1, g.pool.nextLabel, h.pool.nextLabel, {ifTrue, ifFalse});
    case Or(l, r) =>
      var next := pool.nextLabel;
      LabelsTaken(pool, 1);
      TestPool(l, ifTrue, next, WithLabels(pool, 1));
      var g := GenTest(l, ifTrue, next, WithLabels(pool, 1));
      TestLabels(l, ifTrue, next, WithLabels(pool, 1));
      TestLabels(r, ifTrue, ifFalse, g.pool);
      var h := GenTest(r, ifTrue, ifFalse, g.pool);
      JoinedTests(g.code, next, h.code, next + 1, g.pool.nextLabel, h.pool.nextLabel, {ifTrue, ifFalse});
    case Not(a) =>
      TestLabels(a, ifFalse, ifTrue, pool);
  }

  // ---------------------------------------------------------------- statements

  lemma Joined(a: Code, b: Code, low: nat, middle: nat, high: nat)
    requires Labelled(a, low, middle, {}) && Labelled(b, middle, high, {})
    ensures Labelled(a + b, low, high, {})
  {
    PartsOf(a, b);
    hide UniqueLabels;
  }

  lemma PlainInstruction(code: Code, i: Instruction)
    requires i.op != Label && !IsJump(i)
    ensures Labels(code + [i]) == Labels(code) && Jumps(code + [i]) == Jumps(code)
              && (UniqueLabels(code) ==> UniqueLabels(code + [i]))
  {
    PartsOf(code, [i]);
  }

  lemma {:induction false} StmtLabels(st: Stmt, pool: Pool)
    requires Ready(pool) && StmtOk(st)
    ensures var g := GenStmt(st, pool); Labelled(g.code, pool.nextLabel, g.pool.nextLabel, {})
  {
    hide Labelled, UniqueLabels, Labels, Jumps, LoopLabelled, LoopCode;
    match st
    case Nothing =>
      NothingLabels(pool.nextLabel);
    case SetVariable(x, e) =>
      SetVariableLabels(x, e, pool);
    case SetElement(x, a, e) =>
      SetElementLabels(x, a, e, pool);
    case Branch(b, s, e) =>
      BranchFactsOfPools(b, s, e, pool);
      var l := pool.nextLabel;
      var test := GenTest(b, l, if e.Some? then l + 1 else l + 2, WithLabels(pool, 3));
      StmtLabels(s, test.pool);
      if e.Some? {
        StmtLabels(e.value, GenStmt(s, test.pool).pool);
      }
      BranchLabels(b, s, e, pool);
    case While(b, s) =>
      var l := Loop(Some(b), Nothing, s, WithLabels(pool, 3), pool.nextLabel);
      LabelsTaken(pool, 3);
      StmtLabels(s, l.pool);
      UpdateIsEmpty(l);
      LoopLabels(l);
      WhileLabels(b, s, pool);
    case For(i, b, u, s) =>
      LabelsTaken(pool, 3);
      StmtLabels(i, WithLabels(pool, 3));
      StmtPool(i, WithLabels(pool, 3));
      var f := GenStmt(i, WithLabels(pool, 3));
      var l := Loop(b, u, s, f.pool, pool.nextLabel);
      StmtLabels(s, f.pool);
      LoopPools(l);
      StmtLabels(u, BodyCode(l).pool);
      LoopLabels(l);
      ForLabels(i, b, u, s, pool);
    case Invoke(f, args, x, t) =>
      InvokeLabels(f, args, x, t, pool);
    case Exit(f, t, e) =>
      ExitLabels(f, t, e, pool);
    case Sequence(a, b) =>
      StmtPool(a, pool);
      StmtLabels(a, pool);
      StmtLabels(b, GenStmt(a, pool).pool);
      Joined(GenStmt(a, pool).code, GenStmt(b, GenStmt(a, pool).pool).code,
             pool.nextLabel, GenStmt(a, pool).pool.nextLabel, GenStmt(st, pool).pool.nextLabel);
  }

  lemma NothingLabels(l: nat)
    ensures Labelled([], l, l, {})
  {
  }

  lemma SetVariableLabels(x: Symbol, e: Expr, pool: Pool)
    requires Ready(pool) && StmtOk(SetVariable(x, e))
    ensures var g := GenStmt(SetVariable(x, e), pool); Labelled(g.code, pool.nextLabel, g.pool.nextLabel, {})
  {
    var g := GenExpr(e, pool);
    ExprHasNoLabels(e, pool);
    PlainInstruction(g.code, Simple(Assign, Plus, Some(x), Some(g.place), None));
    StmtPool(SetVariable(x, e), pool);
  }

  lemma SetElementLabels(x: Symbol, a: Expr, e: Expr, pool: Pool)
    requires Ready(pool) && StmtOk(SetElement(x, a, e))
    ensures var g := GenStmt(SetElement(x, a, e), pool); Labelled(g.code, pool.nextLabel, g.pool.nextLabel, {})
  {
    var g := GenAddress(x, a, pool);
    var h := GenExpr(e, g.pool);
    AddressHasNoLabels(x, a, pool);
    ExprHasNoLabels(e, g.pool);
    PartsOf(g.code, h.code);
    PlainInstruction(g.code + h.code, Simple(Assign, Plus, Some(g.place), Some(h.place), None));
    StmtPool(SetElement(x, a, e), pool);
  }

  /** Neither labels nor jumps. */
  ghost predicate Unlabelled(code: Code) {
    Labels(code) == {} && Jumps(code) == {} && UniqueLabels(code)
  }

  lemma UnlabelledParts(a: Code, b: Code)
    requires Unlabelled(a) && Unlabelled(b)
    ensures Unlabelled(a + b)
  {
    hide Labels, Jumps, UniqueLabels;
    PartsOf(a, b);
  }

  lemma UnlabelledOne(i: Instruction)
    requires i.op != Label && !IsJump(i)
    ensures Unlabelled([i])
  {
  }

  lemma {:induction false} ArgumentsHaveNoLabels(args: seq<Expr>, pool: Pool)
    ensures Unlabelled(GenArguments(args, pool).code)
  {
    if args != [] {
      var g := GenExpr(args[0], pool);
      ExprHasNoLabels(args[0], pool);
      ArgumentsHaveNoLabels(args[1..], g.pool);
      assert Unlabelled(g.code);
      hide Unlabelled, GenExpr;
      UnlabelledParts(g.code, GenArguments(args[1..], g.pool).code);
    }
  }

  lemma {:induction false} ParamsHaveNoLabels(places: seq<Symbol>)
    ensures Unlabelled(ParamCode(places))
  {
    if places != [] {
      ParamsHaveNoLabels(places[1..]);
      UnlabelledOne(Named(Param, places[0]));
      hide Unlabelled;
      UnlabelledParts(ParamCode(places[1..]), [Named(Param, places[0])]);
    }
  }

  lemma InvokeLabels(f: Symbol, args: seq<Expr>, x: Option<Symbol>, t: Type, pool: Pool)
    requires Ready(pool) && StmtOk(Invoke(f, args, x, t))
    ensures var g := GenStmt(Invoke(f, args, x, t), pool); Labelled(g.code, pool.nextLabel, g.pool.nextLabel, {})
  {
    var g, w := GenArguments(args, pool), GenStmt(Invoke(f, args, x, t), pool);
    StmtPool(Invoke(f, args, x, t), pool);
    assert pool.nextLabel <= w.pool.nextLabel;
    InvokeParts(f, args, x, t, pool);
    CallIsLast(f, g.places);
    UnlabelledOne(Named(Call, f));
    hide Unlabelled, Labelled, GenStmt, GenArguments, AllFreed, Created, FreedIfTemporary, ParamCode, CallCode, Simple,
      Named, Ready, StmtOk, Shrinks;
    ArgumentsHaveNoLabels(args, pool);
    ParamsHaveNoLabels(g.places);
    UnlabelledParts(ParamCode(g.places), [Named(Call, f)]);
    UnlabelledParts(g.code, CallCode(f, g.places));
    if x.Some? {
      var d := Created(AllFreed(g.pool, g.places), t).0;
      ReceiveHasNoLabels(x.value, d);
      UnlabelledParts(g.code + CallCode(f, g.places),
        [Simple(Retrieve, Plus, Some(d), None, None), Simple(Assign, Plus, x, Some(d), None)]);
    }
    UnlabelledIsLabelled(w.code, pool.nextLabel, w.pool.nextLabel);
  }

  lemma ReceiveHasNoLabels(x: Symbol, d: Symbol)
    ensures Unlabelled([Simple(Retrieve, Plus, Some(d), None, None), Simple(Assign, Plus, Some(x), Some(d), None)])
  {
  }

  lemma UnlabelledIsLabelled(code: Code, low: nat, high: nat)
    requires Unlabelled(code) && low <= high
    ensures Labelled(code, low, high, {})
  {
  }

  lemma ExitLabels(f: Symbol, t: Type, e: Option<Expr>, pool: Pool)
    requires Ready(pool) && StmtOk(Exit(f, t, e))
    ensures var g := GenStmt(Exit(f, t, e), pool); Labelled(g.code, pool.nextLabel, g.pool.nextLabel, {})
  {
    var leave := [Named(Leave, f)];
    StmtPool(Exit(f, t, e), pool);
    if e.None? {
      PlainInstruction(leave, Simple(Return, Plus, None, None, None));
    } else {
      var g := GenExpr(e.value, pool);
      var d := Created(g.pool, t).0;
      var i, j := Simple(Assign, Plus, Some(d), Some(g.place), None), Named(Return, d);
      ExprHasNoLabels(e.value, pool);
      PartsOf(leave, g.code);
      PlainInstruction(leave + g.code, i);
      PlainInstruction(leave + g.code + [i], j);
      assert leave + g.code + [i] + [j] == leave + g.code + [i, j];
    }
  }

  lemma BranchFactsOfPools(b: Test, s: Stmt, e: Option<Stmt>, pool: Pool)
    requires Ready(pool) && StmtOk(Branch(b, s, e))
    ensures var l := pool.nextLabel;
      var test := GenTest(b, l, if e.Some? then l + 1 else l + 2, WithLabels(pool, 3));
      var g := GenStmt(s, test.pool);
      && Ready(WithLabels(pool, 3)) && Ready(test.pool) && Ready(g.pool)
      && WithLabels(pool, 3).nextLabel == l + 3 <= test.pool.nextLabel <= g.pool.nextLabel
    ensures TestOk(b) && StmtOk(s) && (e.Some? ==> StmtOk(e.value))
  {
    var l := pool.nextLabel;
    var test := GenTest(b, l, if e.Some? then l + 1 else l + 2, WithLabels(pool, 3));
    BranchParts(b, s, e);
    LabelsTaken(pool, 3);
    TestPool(b, l, if e.Some? then l + 1 else l + 2, WithLabels(pool, 3));
    StmtPool(s, test.pool);
  }

  lemma BranchLabels(b: Test, s: Stmt, e: Option<Stmt>, pool: Pool)
    requires Ready(pool) && StmtOk(Branch(b, s, e))
    requires var l := pool.nextLabel;
      var test := GenTest(b, l, if e.Some? then l + 1 else l + 2, WithLabels(pool, 3));
      var g := GenStmt(s, test.pool);
      && Labelled(g.code, test.pool.nextLabel, g.pool.nextLabel, {})
      && (e.Some? ==> var h := GenStmt(e.value, g.pool); Labelled(h.code, g.pool.nextLabel, h.pool.nextLabel, {}))
    ensures var w := GenStmt(Branch(b, s, e), pool); Labelled(w.code, pool.nextLabel, w.pool.nextLabel, {})
  {
    hide *;
    var l := pool.nextLabel;
    var ifFalse := if e.Some? then l + 1 else l + 2;
    var test := GenTest(b, l, ifFalse, WithLabels(pool, 3));
    var g := GenStmt(s, test.pool);
    BranchFactsOfPools(b, s, e, pool);
    TestLabels(b, l, ifFalse, WithLabels(pool, 3));
    BranchUnfolds(b, s, e, pool);
    if e.Some? {
      var h := GenStmt(e.value, g.pool);
      ThenAndElse(test.code, g.code, h.code, l, test.pool.nextLabel, g.pool.nextLabel, h.pool.nextLabel);
    } else {
      OnlyThen(test.code, g.code, l, test.pool.nextLabel, g.pool.nextLabel);
    }
  }

  lemma OnlyThen(test: Code, g: Code, l: nat, p1: nat, p2: nat)
    requires Labelled(test, l + 3, p1, {l, l + 2}) && Labelled(g, p1, p2, {})
    ensures Labelled(test + [LabelHere(l)] + g + [LabelHere(l + 2)], l, p2, {})
  {
    hide UniqueLabels, Labels, Jumps, LabelHere;
    OneLabel(l);
    OneLabel(l + 2);
    PartsOf(test, [LabelHere(l)]);
    PartsOf(test + [LabelHere(l)], g);
    PartsOf(test + [LabelHere(l)] + g, [LabelHere(l + 2)]);
  }

  lemma ThenAndElse(test: Code, g: Code, h: Code, l: nat, p1: nat, p2: nat, p3: nat)
    requires Labelled(test, l + 3, p1, {l, l + 1}) && Labelled(g, p1, p2, {}) && Labelled(h, p2, p3, {})
    ensures Labelled(test + [LabelHere(l)] + g + [JumpTo(l + 2), LabelHere(l + 1)] + h + [LabelHere(l + 2)], l, p3, {})
  {
    assert l + 3 <= p1 <= p2 <= p3;
    var own, j := {l, l + 1, l + 2}, [JumpTo(l + 2), LabelHere(l + 1)];
    var a := test + [LabelHere(l)];
    TestGrows(test, l, p1, own);
    hide *;
    JumpAndLabel(l + 2, l + 1);
    OneLabel(l);
    OneLabel(l + 2);
    MoreJumps(g, p1, p2, {}, own);
    MoreJumps(h, p2, p3, {}, own);
    GrowsByLabel(test, [LabelHere(l)], {}, l, l + 3, p1, own);
    GrowsByPart(a, g, {} + {l}, l + 3, p1, p2, own);
    GrowsByLabel(a + g, j, {} + {l}, l + 1, l + 3, p2, own);
    GrowsByPart(a + g + j, h, {} + {l} + {l + 1}, l + 3, p2, p3, own);
    GrowsByLabel(a + g + j + h, [LabelHere(l + 2)], {} + {l} + {l + 1}, l + 2, l + 3, p3, own);
    GrownIsLabelled(a + g + j + h + [LabelHere(l + 2)], l, p3);
  }

  lemma TestGrows(test: Code, l: nat, p1: nat, own: set<nat>)
    requires Labelled(test, l + 3, p1, {l, l + 1}) && own == {l, l + 1, l + 2}
    ensures Growing(test, {}, l + 3, p1, own)
  {
    hide Labels, Jumps, UniqueLabels;
  }

  lemma GrownIsLabelled(code: Code, l: nat, high: nat)
    requires Growing(code, {} + {l} + {l + 1} + {l + 2}, l + 3, high, {l, l + 1, l + 2}) && l + 3 <= high
    ensures Labelled(code, l, high, {})
  {
    hide Labels, Jumps, UniqueLabels;
  }

  /** The labels of the code so far: `own` ones of the statement, and those of its parts, from `low` up to `high`. */
  ghost predicate Growing(code: Code, own: set<nat>, low: nat, high: nat, jumps: set<nat>) {
    && UniqueLabels(code) && Jumps(code) <= Labels(code) + jumps && own <= Labels(code)
    && (forall n :: n in own ==> n < low)
    && forall n :: n in Labels(code) ==> n in own || low <= n < high
  }

  lemma GrowsByLabel(a: Code, b: Code, own: set<nat>, n: nat, low: nat, high: nat, jumps: set<nat>)
    requires Growing(a, own, low, high, jumps) && n !in own && n < low
    requires UniqueLabels(b) && Labels(b) == {n} && Jumps(b) <= jumps
    ensures Growing(a + b, own + {n}, low, high, jumps)
  {
    hide UniqueLabels, Labels, Jumps;
    PartsOf(a, b);
  }

  lemma GrowsByPart(a: Code, b: Code, own: set<nat>, low: nat, middle: nat, high: nat, jumps: set<nat>)
    requires Growing(a, own, low, middle, jumps) && low <= middle <= high
    requires Labelled(b, middle, high, jumps)
    ensures Growing(a + b, own, low, high, jumps)
  {
    hide UniqueLabels, Labels, Jumps;
    PartsOf(a, b);
  }

  lemma MoreJumps(code: Code, low: nat, high: nat, jumps: set<nat>, more: set<nat>)
    requires Labelled(code, low, high, jumps) && jumps <= more
    ensures Labelled(code, low, high, more)
  {
  }

  lemma JumpAndLabel(j: nat, l: nat)
    ensures var code := [JumpTo(j), LabelHere(l)]; Labels(code) == {l} && Jumps(code) == {j} && UniqueLabels(code)
  {
    OneJump(j);
    OneLabel(l);
    assert [JumpTo(j)] + [LabelHere(l)] == [JumpTo(j), LabelHere(l)];
    PartsOf([JumpTo(j)], [LabelHere(l)]);
  }

  /** The labels of a loop are three of its own and those of its parts. */
  ghost predicate LoopLabelled(l: Loop) {
    var code := LoopCode(l);
    && UniqueLabels(code) && Jumps(code) <= Labels(code)
    && forall n :: n in Labels(code) ==>
          l.bodyLabel <= n < l.bodyLabel + 3 || l.pool.nextLabel <= n < ConditionCode(l).pool.nextLabel
  }

  lemma UpdateIsEmpty(l: Loop)
    requires l.update == Nothing
    ensures Labelled(UpdateCode(l).code, BodyCode(l).pool.nextLabel, UpdateCode(l).pool.nextLabel, {})
  {
  }

  lemma LoopLabels(l: Loop)
    requires LoopOk(l) && l.bodyLabel + 3 <= l.pool.nextLabel
    requires Labelled(BodyCode(l).code, l.pool.nextLabel, BodyCode(l).pool.nextLabel, {})
    requires Labelled(UpdateCode(l).code, BodyCode(l).pool.nextLabel, UpdateCode(l).pool.nextLabel, {})
    ensures LoopLabelled(l) && l.pool.nextLabel <= ConditionCode(l).pool.nextLabel
  {
    hide *;
    ConditionLabels(l);
    LoopParts(l);
    LoopOf(BodyCode(l).code, UpdateCode(l).code, ConditionCode(l).code, l.bodyLabel,
           l.pool.nextLabel, BodyCode(l).pool.nextLabel, UpdateCode(l).pool.nextLabel, ConditionCode(l).pool.nextLabel);
    GrowingLoop(l);
  }

  lemma GrowingLoop(l: Loop)
    requires var n := l.bodyLabel;
             Growing(LoopCode(l), {n} + {n + 1}
               + {n + 2}, l.pool.nextLabel, ConditionCode(l).pool.nextLabel, {n, n + 1, n + 2})
    ensures LoopLabelled(l)
  {
    hide LoopCode, ConditionCode, Labels, Jumps, UniqueLabels;
  }

  lemma LoopOf(b: Code, u: Code, t: Code, n: nat, low: nat, p1: nat, p2: nat, p3: nat)
    requires n + 3 <= low && Labelled(b, low, p1, {}) && Labelled(u, p1, p2, {}) && Labelled(t, p2, p3, {n, n + 2})
    ensures low <= p3
    ensures Growing([JumpTo(n + 1), LabelHere(n)] + b + u + [LabelHere(n + 1)] + t + [LabelHere(n + 2)],
                    {n} + {n + 1} + {n + 2}, low, p3, {n, n + 1, n + 2})
  {
    assert low <= p1 <= p2 <= p3;
    hide *;
    var j, e, own := [JumpTo(n + 1), LabelHere(n)], [LabelHere(n + 1)], {n, n + 1, n + 2};
    StartGrows(n, low, own);
    OneLabel(n + 1);
    OneLabel(n + 2);
    MoreJumps(b, low, p1, {}, own);
    MoreJumps(u, p1, p2, {}, own);
    MoreJumps(t, p2, p3, {n, n + 2}, own);
    GrowsByPart(j, b, {n}, low, low, p1, own);
    GrowsByPart(j + b, u, {n}, low, p1, p2, own);
    GrowsByLabel(j + b + u, e, {n}, n + 1, low, p2, own);
    GrowsByPart(j + b + u + e, t, {n} + {n + 1}, low, p2, p3, own);
    GrowsByLabel(j + b + u + e + t, [LabelHere(n + 2)], {n} + {n + 1}, n + 2, low, p3, own);
  }

  lemma StartGrows(n: nat, low: nat, own: set<nat>)
    requires n < low && n + 1 in own
    ensures Growing([JumpTo(n + 1), LabelHere(n)], {n}, low, low, own)
  {
    JumpAndLabel(n + 1, n);
    hide Labels, Jumps, UniqueLabels;
  }

  lemma ConditionLabels(l: Loop)
    requires LoopOk(l)
    ensures Labelled(ConditionCode(l).code, UpdateCode(l).pool.nextLabel, ConditionCode(l).pool.nextLabel,
                     {l.bodyLabel, l.bodyLabel + 2})
  {
    LoopPools(l);
    if l.condition.Some? {
      TestLabels(l.condition.value, l.bodyLabel, l.bodyLabel + 2, UpdateCode(l).pool);
    } else {
      OneJump(l.bodyLabel);
    }
  }

  lemma WhileLabels(b: Test, s: Stmt, pool: Pool)
    requires var l := Loop(Some(b), Nothing, s, WithLabels(pool, 3), pool.nextLabel); LoopLabelled(l)
    requires pool.nextLabel
              + 3 <= ConditionCode(Loop(Some(b), Nothing, s, WithLabels(pool, 3), pool.nextLabel)).pool.nextLabel
    ensures var w := GenStmt(While(b, s), pool); Labelled(w.code, pool.nextLabel, w.pool.nextLabel, {})
  {
    WhileCode(b, s, pool);
    WhileUnfolds(b, s, pool);
    WhileCondition(b, s, pool);
    hide GenStmt, GenTest, ConditionCode, LoopCode, UniqueLabels, Labels, Jumps;
  }

  lemma ForLabels(i: Stmt, b: Option<Test>, u: Stmt, s: Stmt, pool: Pool)
    requires Ready(pool) && StmtOk(For(i, b, u, s))
    requires var f := GenStmt(i, WithLabels(pool, 3)); var l := Loop(b, u, s, f.pool, pool.nextLabel);
      && Labelled(f.code, pool.nextLabel + 3, f.pool.nextLabel, {}) && LoopLabelled(l)
      && f.pool.nextLabel <= ConditionCode(l).pool.nextLabel
    ensures var w := GenStmt(For(i, b, u, s), pool); Labelled(w.code, pool.nextLabel, w.pool.nextLabel, {})
  {
    var f := GenStmt(i, WithLabels(pool, 3));
    var l := Loop(b, u, s, f.pool, pool.nextLabel);
    ForCode(i, b, u, s, pool);
    hide GenStmt, GenTest, ConditionCode, LoopCode, UniqueLabels, Labels, Jumps, StmtOk, Ready;
    PartsOf(f.code, LoopCode(l));
  }
}
