/** What generated code does at the start and at the end of a function. */
module LeavingCode {
  import opened Instructions
  import opened ControlFlow
  import opened ReadPaths
  import opened Alike
  import opened SyntaxTrees
  import opened TemporaryPool
  import opened CodeGeneration
  import opened GeneratedRuns
  import opened StatementRuns
  import opened GeneratedShape
  import opened GeneratedFunctions
  import opened GeneratedAllowed
  import opened CodeOptimization

  // ---------------------------------------------------------------- functions that give nothing back

  /** No return statement has a value. */
  predicate NoValues(st: Stmt) {
    match st
    case Branch(_, s, e) => NoValues(s) && (e.Some? ==> NoValues(e.value))
    case While(_, s) => NoValues(s)
    case For(i, _, u, s) => NoValues(i) && NoValues(u) && NoValues(s)
    case Sequence(a, b) => NoValues(a) && NoValues(b)
    case Exit(_, _, e) => e.None?
    case _ => true
  }

  /** Behind each Leave the code returns at once. */
  ghost predicate LeavesEnd(code: Code) {
    forall p :: 0 <= p < |code| && code[p].op == Leave ==>
      p + 1 < |code| && code[p + 1] == Simple(Return, Plus, None, None, None)
  }

  ghost predicate NoLeaves(code: Code) {
    forall p :: 0 <= p < |code| ==> code[p].op != Leave
  }

  lemma NoLeavesEnd(code: Code)
    requires NoLeaves(code)
    ensures LeavesEnd(code)
  {
  }

  lemma LeavesOfParts(a: Code, b: Code)
    requires LeavesEnd(a) && LeavesEnd(b)
    ensures LeavesEnd(a + b)
  {
    hide Simple;
    var c := a + b;
    assert forall i :: 0 <= i < |a| ==> c[i] == a[i];
    assert forall i :: |a| <= i < |c| ==> c[i] == b[i - |a|];
    forall p | 0 <= p < |c| && c[p].op == Leave
      ensures p + 1 < |c| && c[p + 1] == Simple(Return, Plus, None, None, None)
    {
      if p >= |a| {
        assert b[p - |a|].op == Leave && b[p - |a| + 1] == c[p + 1];
      }
    }
  }

  lemma StraightHasNoLeaves(code: Code)
    requires AllStraight(code) && AllMade(code)
    ensures NoLeaves(code)
  {
    forall p | 0 <= p < |code| ensures code[p].op != Leave {
      assert IsStraight(code[p]) && Made(code[p]);
    }
  }

  lemma ExprHasNoLeaves(e: Expr, pool: Pool)
    requires Ready(pool) && ExprOk(e)
    ensures NoLeaves(GenExpr(e, pool).code)
  {
    ExprShape(e, pool);
    hide GenExpr, ReadsCovered, AddressKeys, ResultsReturned, Made;
    StraightHasNoLeaves(GenExpr(e, pool).code);
  }

  lemma AddressHasNoLeaves(x: Symbol, a: Expr, pool: Pool)
    requires Ready(pool) && IsArray(x) && ExprOk(a)
    ensures NoLeaves(GenAddress(x, a, pool).code)
  {
    AddressShape(x, a, pool);
    hide GenAddress, ReadsCovered, AddressKeys, ResultsReturned, Made;
    StraightHasNoLeaves(GenAddress(x, a, pool).code);
  }

  lemma NoLeavesOfParts(a: Code, b: Code)
    requires NoLeaves(a) && NoLeaves(b)
    ensures NoLeaves(a + b)
  {
  }

  lemma {:induction false} TestHasNoLeaves(b: Test, ifTrue: nat, ifFalse: nat, pool: Pool)
    requires Ready(pool) && TestOk(b)
    ensures NoLeaves(GenTest(b, ifTrue, ifFalse, pool).code)
  {
    match b
    case Comparison(k, l, r) =>
      var g := GenExpr(l, pool);
      var h := GenExpr(r, g.pool);
      ExprPool(l, pool);
      ExprHasNoLeaves(l, pool);
      ExprHasNoLeaves(r, g.pool);
      ComparisonFacts(k, l, r, ifTrue, ifFalse, pool);
      hide GenExpr, GenTest, Ready, TestOk;
      NoLeavesOfParts(g.code, h.code);
      NoLeavesOfParts(g.code + h.code, [JumpIf(k, g.place, h.place, ifTrue), JumpTo(ifFalse)]);
    case And(l, r) =>
      var next := pool.nextLabel;
      LabelsTaken(pool, 1);
      TestPool(l, next, ifFalse, WithLabels(pool, 1));
      var g := GenTest(l, next, ifFalse, WithLabels(pool, 1));
      TestHasNoLeaves(l, next, ifFalse, WithLabels(pool, 1));
      TestHasNoLeaves(r, ifTrue, ifFalse, g.pool);
      TwoTestsLeave(g.code, next, GenTest(r, ifTrue, ifFalse, g.pool).code);
    case Or(l, r) =>
      var next := pool.nextLabel;
      LabelsTaken(pool, 1);
      TestPool(l, ifTrue, next, WithLabels(pool, 1));
      var g := GenTest(l, ifTrue, next, WithLabels(pool, 1));
      TestHasNoLeaves(l, ifTrue, next, WithLabels(pool, 1));
      TestHasNoLeaves(r, ifTrue, ifFalse, g.pool);
      TwoTestsLeave(g.code, next, GenTest(r, ifTrue, ifFalse, g.pool).code);
    case Not(a) =>
      TestHasNoLeaves(a, ifFalse, ifTrue, pool);
  }

  lemma TwoTestsLeave(a: Code, l: nat, b: Code)
    requires NoLeaves(a) && NoLeaves(b)
    ensures NoLeaves(a + [LabelHere(l)] + b)
  {
  }

  /** The code of statements that give nothing back. */
  lemma {:induction false} StmtLeaves(st: Stmt, pool: Pool)
    requires Ready(pool) && StmtOk(st) && NoValues(st)
    ensures LeavesEnd(GenStmt(st, pool).code)
    decreases st, 1
  {
    match st
    case Nothing =>
    case SetVariable(x, e) =>
      SetVariableCode(x, e, pool);
      ExprHasNoLeaves(e, pool);
      hide GenExpr, GenStmt;
      NoLeavesEnd(GenStmt(st, pool).code);
    case SetElement(x, a, e) =>
      SetElementCode(x, a, e, pool);
      AddressHasNoLeaves(x, a, pool);
      ExprHasNoLeaves(e, GenAddress(x, a, pool).pool);
      hide GenExpr, GenAddress, GenStmt;
      NoLeavesEnd(GenStmt(st, pool).code);
    case Branch(b, s, e) =>
      BranchLeaves(b, s, e, pool);
    case While(b, s) =>
      LabelsTaken(pool, 3);
      var l := Loop(Some(b), Nothing, s, WithLabels(pool, 3), pool.nextLabel);
      StmtLeaves(s, l.pool);
      NoUpdate(l);
      LoopLeaves(l);
      WhileCode(b, s, pool);
    case For(i, b, u, s) =>
      ForLeaves(i, b, u, s, pool);
    case Invoke(f, args, x, t) =>
      InvokeHasNoLeaves(f, args, x, t, pool);
      NoLeavesEnd(GenStmt(st, pool).code);
    case Exit(_, _, _) =>
    case Sequence(a, b) =>
      StmtPool(a, pool);
      StmtLeaves(a, pool);
      StmtLeaves(b, GenStmt(a, pool).pool);
      LeavesOfParts(GenStmt(a, pool).code, GenStmt(b, GenStmt(a, pool).pool).code);
  }

  lemma InvokeHasNoLeaves(f: Symbol, args: seq<Expr>, x: Option<Symbol>, t: Type, pool: Pool)
    requires Ready(pool) && StmtOk(Invoke(f, args, x, t))
    ensures NoLeaves(GenStmt(Invoke(f, args, x, t), pool).code)
  {
    hide *;
    var g := GenArguments(args, pool);
    var before := g.code + ParamCode(g.places);
    InvokeParts(f, args, x, t, pool);
    ArgumentsShape(args, pool);
    ParamsShape(g.code, g.places, pool.nextKey, g.pool.nextKey);
    ShapedStraightLeaves(before, pool.nextKey, g.pool.nextKey);
    CallIsLast(f, g.places);
    assert before + [Named(Call, f)] == g.code + CallCode(f, g.places);
    CallLeaves(before, f, if x.Some? then x.value else f, Created(AllFreed(g.pool, g.places), t).0);
  }

  lemma ShapedStraightLeaves(code: Code, low: nat, high: nat)
    requires Shaped(code, low, high) && AllStraight(code)
    ensures NoLeaves(code)
  {
    StraightHasNoLeaves(code);
  }

  lemma CallLeaves(code: Code, f: Symbol, x: Symbol, d: Symbol)
    requires NoLeaves(code)
    ensures NoLeaves(code + [Named(Call, f)])
    ensures NoLeaves(code + [Named(Call, f)]
              + [Simple(Retrieve, Plus, Some(d), None, None), Simple(Assign, Plus, Some(x), Some(d), None)])
  {
  }

  lemma PlainLeaves(l: nat)
    ensures LeavesEnd([LabelHere(l)]) && LeavesEnd([JumpTo(l)])
  {
  }

  lemma {:induction false} BranchLeaves(b: Test, s: Stmt, e: Option<Stmt>, pool: Pool)
    requires Ready(pool) && StmtOk(Branch(b, s, e)) && NoValues(Branch(b, s, e))
    ensures LeavesEnd(GenStmt(Branch(b, s, e), pool).code)
    decreases Branch(b, s, e), 0
  {
    hide *;
    var l := pool.nextLabel;
    var ifFalse := if e.Some? then l + 1 else l + 2;
    var test := GenTest(b, l, ifFalse, WithLabels(pool, 3));
    var g := GenStmt(s, test.pool);
    PartsGiveNothing(b, s, e);
    GeneratedLabels.BranchFactsOfPools(b, s, e, pool);
    TestHasNoLeaves(b, l, ifFalse, WithLabels(pool, 3));
    NoLeavesEnd(test.code);
    StmtLeaves(s, test.pool);
    BranchCode(b, s, e, pool);
    PlainLeaves(l);
    LeavesOfParts(test.code, [LabelHere(l)]);
    LeavesOfParts(test.code + [LabelHere(l)], g.code);
    if e.Some? {
      StmtLeaves(e.value, g.pool);
    }
    RestLeaves(e, g.pool, l);
    LeavesOfParts(test.code + [LabelHere(l)] + g.code, RestOfBranch(e, g.pool, l));
  }

  lemma PartsGiveNothing(b: Test, s: Stmt, e: Option<Stmt>)
    requires NoValues(Branch(b, s, e))
    ensures NoValues(s) && (e.Some? ==> NoValues(e.value))
  {
  }

  lemma RestLeaves(e: Option<Stmt>, pool: Pool, l: nat)
    requires e.Some? ==> LeavesEnd(GenStmt(e.value, pool).code)
    ensures LeavesEnd(RestOfBranch(e, pool, l))
  {
    hide GenStmt;
    PlainLeaves(l + 1);
    PlainLeaves(l + 2);
    if e.Some? {
      var j, h := [JumpTo(l + 2), LabelHere(l + 1)], GenStmt(e.value, pool).code;
      assert j == [JumpTo(l + 2)] + [LabelHere(l + 1)];
      LeavesOfParts([JumpTo(l + 2)], [LabelHere(l + 1)]);
      LeavesOfParts(j, h);
      LeavesOfParts(j + h, [LabelHere(l + 2)]);
    }
  }

  lemma LoopLeaves(l: Loop)
    requires LoopOk(l) && LeavesEnd(BodyCode(l).code) && LeavesEnd(UpdateCode(l).code)
    ensures LeavesEnd(LoopCode(l))
  {
    hide *;
    var b, u, t := BodyCode(l).code, UpdateCode(l).code, ConditionCode(l).code;
    var j, e, z := LoopStart(l), [LabelHere(l.bodyLabel + 1)], [LabelHere(l.bodyLabel + 2)];
    LoopParts(l);
    PlainLeaves(l.bodyLabel);
    PlainLeaves(l.bodyLabel + 1);
    PlainLeaves(l.bodyLabel + 2);
    ConditionLeaves(l);
    LeavesOfParts([JumpTo(l.bodyLabel + 1)], [LabelHere(l.bodyLabel)]);
    assert [JumpTo(l.bodyLabel + 1)] + [LabelHere(l.bodyLabel)] == j;
    LeavesOfParts(j, b);
    LeavesOfParts(j + b, u);
    LeavesOfParts(j + b + u, e);
    LeavesOfParts(j + b + u + e, t);
    LeavesOfParts(j + b + u + e + t, z);
  }

  lemma ConditionLeaves(l: Loop)
    requires LoopOk(l)
    ensures LeavesEnd(ConditionCode(l).code)
  {
    LoopPools(l);
    if l.condition.Some? {
      TestHasNoLeaves(l.condition.value, l.bodyLabel, l.bodyLabel + 2, UpdateCode(l).pool);
    }
  }

  lemma {:induction false} ForLeaves(i: Stmt, b: Option<Test>, u: Stmt, s: Stmt, pool: Pool)
    requires Ready(pool) && StmtOk(For(i, b, u, s)) && NoValues(For(i, b, u, s))
    ensures LeavesEnd(GenStmt(For(i, b, u, s), pool).code)
    decreases For(i, b, u, s), 0
  {
    LabelsTaken(pool, 3);
    var f := GenStmt(i, WithLabels(pool, 3));
    var l := Loop(b, u, s, f.pool, pool.nextLabel);
    StmtPool(i, WithLabels(pool, 3));
    StmtLeaves(i, WithLabels(pool, 3));
    StmtLeaves(s, f.pool);
    LoopPools(l);
    StmtLeaves(u, BodyCode(l).pool);
    LoopLeaves(l);
    ForCode(i, b, u, s, pool);
    hide GenStmt, LeavesEnd, LoopCode;
    LeavesOfParts(f.code, LoopCode(l));
  }

  lemma {:induction false} ReturnGivesNothing(st: Stmt, header: Symbol)
    requires NoValues(st)
    ensures NoValues(WithReturn(st, header))
    decreases st
  {
    if st.Sequence? {
      ReturnGivesNothing(st.tail, header);
    }
  }

  /** Behind each Leave in the code of a function that gives nothing back control returns at once. */
  lemma FunctionReturnsNothing(f: Function)
    requires FunctionOk(f) && NoValues(f.body)
    ensures ReturnsNothing(Linked(FunctionCode(f)))
  {
    hide *;
    var st := WithReturn(f.body, f.header);
    BodyIsOk(f);
    ReturnGivesNothing(f.body, f.header);
    StmtLeaves(st, f.pool);
    BodyUnfolds(f);
    BodyLeaves(f);
  }

  lemma BodyLeaves(f: Function)
    requires LeavesEnd(BodyOf(f).code)
    ensures ReturnsNothing(Linked(FunctionCode(f)))
  {
    FunctionPlaced(f);
    hide BodyOf, FunctionCode, LeavesEnd, Holds;
    LeavesPlaced(FunctionCode(f), EntryOf(f), BodyOf(f).code);
    LinkedLeaves(FunctionCode(f));
  }

  lemma LeavesPlaced(c: Code, n: nat, g: Code)
    requires |c| == n + 1 + |g| && Holds(c, n + 1, g) && (forall i :: 0 <= i < n + 1 ==> c[i].op != Leave)
    requires LeavesEnd(g)
    ensures LeavesEnd(c)
  {
    forall p | 0 <= p < |c| && c[p].op == Leave
      ensures p + 1 < |c| && c[p + 1] == Simple(Return, Plus, None, None, None)
    {
      assert n < p && g[p - n - 1] == c[n + 1 + (p - n - 1)];
      assert g[p - n] == c[n + 1 + (p - n)];
    }
  }

  lemma LinkedLeaves(c: Code)
    requires LeavesEnd(c)
    ensures ReturnsNothing(Linked(c))
  {
  }

  // ---------------------------------------------------------------- temporaries

  /** No temporary is read before it is computed. */
  lemma TemporariesEarly(f: Function, x: Symbol)
    requires FunctionOk(f) && x.isTemporary && x.typ != AddrType
    ensures !ReadLater(Linked(FunctionCode(f)), EntryOf(f), x)
  {
    hide *;
    var c := FunctionCode(f);
    FunctionWellFormed(f);
    FunctionIsShaped(f);
    LinkedShaped(c);
    TemporaryEarly(Linked(c), EntryOf(f), x);
  }

  lemma TemporaryEarly(c: Code, entry: nat, x: Symbol)
    requires WellFormedCode(c, entry) && FunctionShaped(c) && x.isTemporary && x.typ != AddrType
    ensures !ReadLater(c, entry, x)
  {
    if ReadLater(c, entry, x) {
      var path :| LeadsToRead(c, entry, x, path);
      var r := path[|path| - 1];
      forall k | 0 <= k < |path| - 1 ensures PassesTo(c, path[k], path[k + 1]) {
        LeadsPasses(c, path[k], path[k + 1]);
      }
      assert Reads(c[r], x);
      var d: nat :| ComputedAt(c, d, r, x);
      assert Expected(c[d]);
      hide Expected, WellFormedCode, ReadsCovered, AddressKeys;
      var k := ThroughComputation(c, entry, entry, x, d, r, path);
      ComputationChanges(c[d], x);
      assert false;
    }
  }
}
