/** Which generated code copies a temporary to a variable of a wider type. */
module CopiedTypes {
  import opened Instructions
  import opened SyntaxTrees
  import opened TemporaryPool
  import opened CodeGeneration
  import opened GeneratedRuns
  import opened StatementRuns
  import opened GeneratedShape
  import opened TemporaryBypass

  /** A copy of a temporary to a variable. */
  predicate IsCopy(j: Instruction) {
    j.op == Assign && IsTemporaryPlace(j.src1) && j.dest.Some? && j.dest.value.typ != AddrType
  }

  /** If `j` copies the temporary that `i` computes, the copy loses nothing. */
  predicate CopyFits(i: Instruction, j: Instruction) {
    IsCopy(j) && j.src1 == i.dest ==> TypesFit(i, j.src1.value, j.dest.value)
  }

  /** A temporary that is copied to a variable fits. */
  ghost predicate CopiesFit(code: Code) {
    forall p :: 0 < p < |code| ==> CopyFits(code[p - 1], code[p])
  }

  ghost predicate NoCopies(code: Code) {
    forall p :: 0 <= p < |code| ==> !IsCopy(code[p])
  }

  // ---------------------------------------------------------------- parts

  lemma NoCopiesOfParts(a: Code, b: Code)
    ensures NoCopies(a + b) <==> NoCopies(a) && NoCopies(b)
  {
    hide IsCopy;
    var c := a + b;
    assert forall i :: 0 <= i < |a| ==> c[i] == a[i];
    assert forall i :: 0 <= i < |b| ==> c[|a| + i] == b[i];
  }

  /** Code does not copy a temporary that the code before it computes. */
  lemma FitOfParts(a: Code, b: Code)
    requires ReadsCovered(b)
    ensures CopiesFit(a + b) <==> CopiesFit(a) && CopiesFit(b)
  {
    var c := a + b;
    assert forall i :: 0 <= i < |a| ==> c[i] == a[i];
    assert forall i :: 0 <= i < |b| ==> c[|a| + i] == b[i];
    if b != [] && IsTemporaryPlace(b[0].src1) {
      FirstReadsNoTemporary(b, b[0].src1.value);
    }
    hide CopyFits, ReadsCovered;
    if CopiesFit(c) {
      forall p | 0 < p < |b| ensures CopyFits(b[p - 1], b[p]) {
        assert CopyFits(c[|a| + p - 1], c[|a| + p]);
      }
    }
    if CopiesFit(a) && CopiesFit(b) {
      forall p | 0 < p < |c| ensures CopyFits(c[p - 1], c[p]) {
        if p == |a| {
          NoCopyFits(c[p - 1], c[p]);
        } else if p > |a| {
          assert CopyFits(b[p - |a| - 1], b[p - |a|]);
        }
      }
    }
  }

  lemma NoCopyFits(i: Instruction, j: Instruction)
    requires !IsTemporaryPlace(j.src1) || !IsCopy(j)
    ensures CopyFits(i, j)
  {
  }

  /** Code without copies changes nothing, before or behind other code. */
  lemma FitBehind(a: Code, b: Code)
    requires NoCopies(a) && ReadsCovered(b)
    ensures CopiesFit(a + b) <==> CopiesFit(b)
  {
    FitOfParts(a, b);
    hide IsCopy;
    forall p | 0 < p < |a| ensures CopyFits(a[p - 1], a[p]) {
      NoCopyFits(a[p - 1], a[p]);
    }
  }

  lemma FitBefore(a: Code, b: Code)
    requires NoCopies(b)
    ensures CopiesFit(a + b) <==> CopiesFit(a)
  {
    hide IsCopy, CopyFits;
    var c := a + b;
    assert forall i :: 0 <= i < |a| ==> c[i] == a[i];
    forall p | |a| <= p < |c| && 0 < p ensures CopyFits(c[p - 1], c[p]) {
      assert !IsCopy(b[p - |a|]);
      NoCopyFits(c[p - 1], c[p]);
    }
  }

  // ---------------------------------------------------------------- expressions and tests

  lemma ExprCopiesNothing(e: Expr, pool: Pool)
    requires Ready(pool) && ExprOk(e)
    ensures NoCopies(GenExpr(e, pool).code)
  {
    ExprShape(e, pool);
    NoResultCopied(GenExpr(e, pool).code);
    hide GenExpr, ReadsCovered, AddressKeys, ResultsReturned;
  }

  lemma AddressCopiesNothing(x: Symbol, a: Expr, pool: Pool)
    requires Ready(pool) && IsArray(x) && ExprOk(a)
    ensures NoCopies(GenAddress(x, a, pool).code)
  {
    AddressShape(x, a, pool);
    NoResultCopied(GenAddress(x, a, pool).code);
    hide GenAddress, ReadsCovered, AddressKeys, ResultsReturned;
  }

  lemma ComparisonCopiesNothing(k: Kind, l: Expr, r: Expr, ifTrue: nat, ifFalse: nat, pool: Pool)
    requires Ready(pool) && TestOk(Comparison(k, l, r))
    ensures NoCopies(GenTest(Comparison(k, l, r), ifTrue, ifFalse, pool).code)
  {
    var g := GenExpr(l, pool);
    var h := GenExpr(r, g.pool);
    ExprPool(l, pool);
    ExprCopiesNothing(l, pool);
    ExprCopiesNothing(r, g.pool);
    ComparisonFacts(k, l, r, ifTrue, ifFalse, pool);
    hide GenExpr, GenTest, Ready, TestOk;
    NoCopiesOfParts(g.code, h.code);
    NoCopiesOfParts(g.code + h.code, [JumpIf(k, g.place, h.place, ifTrue), JumpTo(ifFalse)]);
  }

  lemma {:induction false} TestCopiesNothing(b: Test, ifTrue: nat, ifFalse: nat, pool: Pool)
    requires Ready(pool) && TestOk(b)
    ensures NoCopies(GenTest(b, ifTrue, ifFalse, pool).code)
  {
    match b
    case Comparison(k, l, r) =>
      ComparisonCopiesNothing(k, l, r, ifTrue, ifFalse, pool);
    case And(l, r) =>
      var next := pool.nextLabel;
      LabelsTaken(pool, 1);
      TestPool(l, next, ifFalse, WithLabels(pool, 1));
      var g := GenTest(l, next, ifFalse, WithLabels(pool, 1));
      TestCopiesNothing(l, next, ifFalse, WithLabels(pool, 1));
      TestCopiesNothing(r, ifTrue, ifFalse, g.pool);
      TwoTestsCopyNothing(g.code, next, GenTest(r, ifTrue, ifFalse, g.pool).code);
    case Or(l, r) =>
      var next := pool.nextLabel;
      LabelsTaken(pool, 1);
      TestPool(l, ifTrue, next, WithLabels(pool, 1));
      var g := GenTest(l, ifTrue, next, WithLabels(pool, 1));
      TestCopiesNothing(l, ifTrue, next, WithLabels(pool, 1));
      TestCopiesNothing(r, ifTrue, ifFalse, g.pool);
      TwoTestsCopyNothing(g.code, next, GenTest(r, ifTrue, ifFalse, g.pool).code);
    case Not(a) =>
      TestCopiesNothing(a, ifFalse, ifTrue, pool);
  }

  lemma TwoTestsCopyNothing(a: Code, l: nat, b: Code)
    requires NoCopies(a) && NoCopies(b)
    ensures NoCopies(a + [LabelHere(l)] + b)
  {
    NoCopiesOfParts(a, [LabelHere(l)]);
    NoCopiesOfParts(a + [LabelHere(l)], b);
  }

  // ---------------------------------------------------------------- statements

  /** The copies that the code of a statement makes fit exactly if its assignments do. */
  lemma {:induction false} StmtCopies(st: Stmt, pool: Pool)
    requires Ready(pool) && StmtOk(st)
    ensures CopiesFit(GenStmt(st, pool).code) <==> StmtFits(st)
    decreases st, 1
  {
    match st
    case Nothing =>
    case SetVariable(x, e) =>
      SetVariableCopies(x, e, pool);
    case SetElement(x, a, e) =>
      SetElementCopies(x, a, e, pool);
    case Branch(b, s, e) =>
      BranchCopies(b, s, e, pool);
    case While(b, s) =>
      LabelsTaken(pool, 3);
      var l := Loop(Some(b), Nothing, s, WithLabels(pool, 3), pool.nextLabel);
      StmtCopies(s, l.pool);
      LoopCopies(l);
      NoUpdate(l);
      WhileCode(b, s, pool);
    case For(i, b, u, s) =>
      ForCopies(i, b, u, s, pool);
    case Invoke(f, args, x, t) =>
      InvokeCopies(f, args, x, t, pool);
    case Exit(f, t, e) =>
      ExitCopies(f, t, e, pool);
    case Sequence(a, b) =>
      StmtPool(a, pool);
      StmtCopies(a, pool);
      StmtCopies(b, GenStmt(a, pool).pool);
      StmtShape(b, GenStmt(a, pool).pool);
      FitOfParts(GenStmt(a, pool).code, GenStmt(b, GenStmt(a, pool).pool).code);
  }

  lemma SetVariableCopies(x: Symbol, e: Expr, pool: Pool)
    requires Ready(pool) && StmtOk(SetVariable(x, e))
    ensures CopiesFit(GenStmt(SetVariable(x, e), pool).code) <==> Fits(x.typ, e)
  {
    var g := GenExpr(e, pool);
    var i := Simple(Assign, Plus, Some(x), Some(g.place), None);
    SetVariableCode(x, e, pool);
    ExprCopiesNothing(e, pool);
    LastFits(g.code, i);
    LastComputes(x, e, pool);
  }

  lemma LastFits(a: Code, i: Instruction)
    requires NoCopies(a)
    ensures CopiesFit(a + [i]) <==> (a != [] ==> CopyFits(a[|a| - 1], i))
  {
    hide IsCopy;
    var c := a + [i];
    assert forall p :: 0 <= p < |a| ==> c[p] == a[p];
    forall p | 0 < p < |a| ensures CopyFits(c[p - 1], c[p]) {
      NoCopyFits(a[p - 1], a[p]);
    }
    hide CopyFits;
    if a != [] {
      assert c[|a|] == i && c[|a| - 1] == a[|a| - 1];
    }
  }

  /** The instruction that computes the value of an expression, in front of its copy to a variable. */
  lemma LastComputes(x: Symbol, e: Expr, pool: Pool)
    requires Ready(pool) && ExprOk(e) && IsNumeric(x.typ)
    ensures var g := GenExpr(e, pool);
      (g.code != [] ==> CopyFits(g.code[|g.code| - 1], Simple(Assign, Plus, Some(x), Some(g.place), None))) <==>
        Fits(x.typ, e)
  {
    match e
    case Var(y) =>
    case Const(t, v) =>
      NumericCreated(pool, t);
    case Negation(t, a) =>
      ExprPool(a, pool);
      NumericCreated(GenExpr(a, pool).pool, t);
    case Arithmetic(t, k, a, b) =>
      hide GenExpr, CopyFits;
      BinaryGenerated(t, k, a, b, pool);
      BinaryFits(k, GenExpr(e, pool).place, GenExpr(a, pool), GenExpr(b, GenExpr(a, pool).pool), x);
    case Element(y, a) =>
      hide GenExpr, GenAddress, CopyFits;
      ElementGenerated(y, a, pool);
      ElementIsTemporary(y, a, pool);
      DerefFits(y.elementType, GenExpr(e, pool).place, GenAddress(y, a, pool), x);
  }

  lemma BinaryFits(k: Kind, d: Symbol, g: Generated, h: Generated, x: Symbol)
    requires d.typ == IntType
    ensures var code := g.code + h.code + [Simple(Binary, k, Some(d), Some(g.place), Some(h.place))];
      CopyFits(code[|code| - 1], Simple(Assign, Plus, Some(x), Some(d), None))
  {
  }

  lemma DerefFits(t: Type, d: Symbol, g: Generated, x: Symbol)
    requires d.isTemporary && d.typ == t != AddrType && g.place.typ == AddrType && g.place.elementType == t
    requires IsNumeric(x.typ) && IsNumeric(t)
    ensures var code := g.code + [Simple(Deref, Plus, Some(d), Some(g.place), None)];
      CopyFits(code[|code| - 1], Simple(Assign, Plus, Some(x), Some(d), None)) <==> TypeFits(x.typ, t)
  {
  }

  lemma ElementIsTemporary(x: Symbol, a: Expr, pool: Pool)
    requires Ready(pool) && IsArray(x) && ExprOk(a)
    ensures GenExpr(Element(x, a), pool).place.isTemporary
  {
    AddressPool(x, a, pool);
    NumericCreated(GenAddress(x, a, pool).pool, x.elementType);
    ElementUnfolds(x, a, pool);
  }

  lemma SetElementCopies(x: Symbol, a: Expr, e: Expr, pool: Pool)
    requires Ready(pool) && StmtOk(SetElement(x, a, e))
    ensures CopiesFit(GenStmt(SetElement(x, a, e), pool).code)
  {
    var g := GenAddress(x, a, pool);
    var h := GenExpr(e, g.pool);
    SetElementCode(x, a, e, pool);
    AddressCopiesNothing(x, a, pool);
    ExprCopiesNothing(e, g.pool);
    hide GenAddress, GenExpr, GenStmt, Ready, StmtOk, ExprOk;
    var i := Simple(Assign, Plus, Some(g.place), Some(h.place), None);
    NoCopiesOfParts(g.code, h.code);
    LastFits(g.code + h.code, i);
  }

  lemma StraightCopiesNothing(code: Code, low: nat, high: nat)
    requires Shaped(code, low, high) && AllStraight(code)
    ensures NoCopies(code)
  {
    NoResultCopied(code);
    hide ReadsCovered, AddressKeys, ResultsReturned;
  }

  lemma InvokeCopies(f: Symbol, args: seq<Expr>, x: Option<Symbol>, t: Type, pool: Pool)
    requires Ready(pool) && StmtOk(Invoke(f, args, x, t))
    ensures CopiesFit(GenStmt(Invoke(f, args, x, t), pool).code) <==> (x.Some? ==> TypeFits(x.value.typ, t))
  {
    hide *;
    var g := GenArguments(args, pool);
    var before := g.code + ParamCode(g.places);
    InvokeParts(f, args, x, t, pool);
    ArgumentsShape(args, pool);
    ParamsShape(g.code, g.places, pool.nextKey, g.pool.nextKey);
    StraightCopiesNothing(before, pool.nextKey, g.pool.nextKey);
    CallIsLast(f, g.places);
    assert before + [Named(Call, f)] == g.code + CallCode(f, g.places);
    CallCopiesNothing(before, f);
    if x.Some? {
      var d := Created(AllFreed(g.pool, g.places), t).0;
      ResultPlace(f, args, x, t, pool);
      VariableOf(f, args, x, t);
      ReceivedFits(g.code + CallCode(f, g.places), x.value, d);
    }
  }

  lemma VariableOf(f: Symbol, args: seq<Expr>, x: Option<Symbol>, t: Type)
    requires StmtOk(Invoke(f, args, x, t)) && x.Some?
    ensures IsNumeric(x.value.typ)
  {
  }

  lemma CallCopiesNothing(code: Code, f: Symbol)
    requires NoCopies(code)
    ensures NoCopies(code + [Named(Call, f)]) && CopiesFit(code + [Named(Call, f)])
  {
    assert NoCopies([Named(Call, f)]);
    hide IsCopy, Named;
    NoCopiesOfParts(code, [Named(Call, f)]);
    var c := code + [Named(Call, f)];
    forall p | 0 < p < |c| ensures CopyFits(c[p - 1], c[p]) {
      NoCopyFits(c[p - 1], c[p]);
    }
  }

  lemma ReceivedFits(code: Code, x: Symbol, d: Symbol)
    requires NoCopies(code) && IsNumeric(x.typ) && IsNumeric(d.typ) && d.isTemporary
    ensures CopiesFit(code
              + [Simple(Retrieve, Plus, Some(d), None, None), Simple(Assign, Plus, Some(x), Some(d), None)]) <==>
            TypeFits(x.typ, d.typ)
  {
    var i, j := Simple(Retrieve, Plus, Some(d), None, None), Simple(Assign, Plus, Some(x), Some(d), None);
    assert NoCopies([i]) && (CopyFits(i, j) <==> TypeFits(x.typ, d.typ));
    hide IsCopy, CopyFits, TypeFits, Simple, NoCopies, CopiesFit;
    NoCopiesOfParts(code, [i]);
    LastFits(code + [i], j);
    assert code + [i] + [j] == code + [i, j];
  }

  lemma ExitCopies(f: Symbol, t: Type, e: Option<Expr>, pool: Pool)
    requires Ready(pool) && StmtOk(Exit(f, t, e))
    ensures CopiesFit(GenStmt(Exit(f, t, e), pool).code) <==> StmtFits(Exit(f, t, e))
  {
    if e.Some? {
      var g := GenExpr(e.value, pool);
      var d := Created(g.pool, t).0;
      ExprCopiesNothing(e.value, pool);
      ExprPool(e.value, pool);
      NumericCreated(g.pool, t);
      LastComputes(d, e.value, pool);
      ExitUnfolds(f, t, e.value, pool);
      ResultFits(f, g.code, g.place, d);
    }
  }

  lemma ResultFits(f: Symbol, a: Code, x: Symbol, d: Symbol)
    requires NoCopies(a)
    ensures var leave, i := Named(Leave, f), Simple(Assign, Plus, Some(d), Some(x), None);
      CopiesFit([leave] + a + [i, Named(Return, d)]) <==> (a != [] ==> CopyFits(a[|a| - 1], i))
  {
    var leave, i, j := Named(Leave, f), Simple(Assign, Plus, Some(d), Some(x), None), Named(Return, d);
    assert NoCopies([leave]) && NoCopies([j]) && CopyFits(leave, i);
    hide IsCopy, CopyFits, CopiesFit, NoCopies, Simple, Named;
    NoCopiesOfParts([leave], a);
    var b := [leave] + a;
    assert b[|b| - 1] == if a == [] then leave else a[|a| - 1];
    LastFits(b, i);
    FitBefore(b + [i], [j]);
    assert b + [i] + [j] == b + [i, j];
  }

  lemma LabelsCopyNothing(l: nat)
    ensures NoCopies([LabelHere(l)]) && NoCopies([JumpTo(l)])
  {
  }

  lemma {:induction false} BranchCopies(b: Test, s: Stmt, e: Option<Stmt>, pool: Pool)
    requires Ready(pool) && StmtOk(Branch(b, s, e))
    ensures CopiesFit(GenStmt(Branch(b, s, e), pool).code) <==> StmtFits(s) && (e.Some? ==> StmtFits(e.value))
    decreases Branch(b, s, e), 0
  {
    hide *;
    var l := pool.nextLabel;
    var ifFalse := if e.Some? then l + 1 else l + 2;
    var test := GenTest(b, l, ifFalse, WithLabels(pool, 3));
    var g := GenStmt(s, test.pool);
    GeneratedLabels.BranchFactsOfPools(b, s, e, pool);
    TestCopiesNothing(b, l, ifFalse, WithLabels(pool, 3));
    StmtCopies(s, test.pool);
    StmtShape(s, test.pool);
    ShapeCovers(g.code, test.pool.nextKey, g.pool.nextKey);
    BranchCode(b, s, e, pool);
    var before := test.code + [LabelHere(l)];
    LabelsCopyNothing(l);
    NoCopiesOfParts(test.code, [LabelHere(l)]);
    FitBehind(before, g.code);
    if e.Some? {
      StmtCopies(e.value, g.pool);
      StmtShape(e.value, g.pool);
      var h := GenStmt(e.value, g.pool);
      ShapeCovers(h.code, g.pool.nextKey, h.pool.nextKey);
      ElseCopies(before + g.code, h.code, e, g.pool, l);
    } else {
      NoElseCopies(before + g.code, g.pool, l);
    }
  }

  lemma ShapeCovers(code: Code, low: nat, high: nat)
    requires Shaped(code, low, high)
    ensures ReadsCovered(code)
  {
  }

  lemma ElseCopies(a: Code, h: Code, e: Option<Stmt>, pool: Pool, l: nat)
    requires e.Some? && h == GenStmt(e.value, pool).code && ReadsCovered(h)
    ensures CopiesFit(a + RestOfBranch(e, pool, l)) <==> CopiesFit(a) && CopiesFit(h)
  {
    var j, z := [JumpTo(l + 2), LabelHere(l + 1)], [LabelHere(l + 2)];
    assert RestOfBranch(e, pool, l) == j + h + z;
    assert NoCopies(j) && NoCopies(z);
    hide *;
    assert a + (j + h + z) == a + j + h + z;
    FitBefore(a + j + h, z);
    FitOfParts(a + j, h);
    FitBefore(a, j);
  }

  lemma NoElseCopies(a: Code, pool: Pool, l: nat)
    ensures CopiesFit(a + RestOfBranch(None, pool, l)) <==> CopiesFit(a)
  {
    LabelsCopyNothing(l + 2);
    FitBefore(a, [LabelHere(l + 2)]);
  }

  lemma LoopCopies(l: Loop)
    requires LoopOk(l)
    ensures CopiesFit(LoopCode(l)) <==> CopiesFit(BodyCode(l).code) && CopiesFit(UpdateCode(l).code)
  {
    hide *;
    var b, u, t := BodyCode(l).code, UpdateCode(l).code, ConditionCode(l).code;
    var j, e, z := LoopStart(l), [LabelHere(l.bodyLabel + 1)], [LabelHere(l.bodyLabel + 2)];
    LoopParts(l);
    LoopCovered(l);
    LabelsCopyNothing(l.bodyLabel + 1);
    LabelsCopyNothing(l.bodyLabel + 2);
    ConditionCopiesNothing(l);
    FitBefore(j + b + u + e + t, z);
    FitBefore(j + b + u + e, t);
    FitBefore(j + b + u, e);
    FitOfParts(j + b, u);
    FitBehind(j, b);
  }

  lemma LoopCovered(l: Loop)
    requires LoopOk(l)
    ensures ReadsCovered(BodyCode(l).code) && ReadsCovered(UpdateCode(l).code) && NoCopies(LoopStart(l))
  {
    LoopPools(l);
    StmtShape(l.body, l.pool);
    StmtShape(l.update, BodyCode(l).pool);
    hide GenStmt, ReadsCovered;
  }

  lemma ConditionCopiesNothing(l: Loop)
    requires LoopOk(l)
    ensures NoCopies(ConditionCode(l).code)
  {
    LoopPools(l);
    if l.condition.Some? {
      TestCopiesNothing(l.condition.value, l.bodyLabel, l.bodyLabel + 2, UpdateCode(l).pool);
    } else {
      LabelsCopyNothing(l.bodyLabel);
    }
  }

  lemma {:induction false} ForCopies(i: Stmt, b: Option<Test>, u: Stmt, s: Stmt, pool: Pool)
    requires Ready(pool) && StmtOk(For(i, b, u, s))
    ensures CopiesFit(GenStmt(For(i, b, u, s), pool).code) <==> StmtFits(i) && StmtFits(u) && StmtFits(s)
    decreases For(i, b, u, s), 0
  {
    LabelsTaken(pool, 3);
    var f := GenStmt(i, WithLabels(pool, 3));
    var l := Loop(b, u, s, f.pool, pool.nextLabel);
    StmtPool(i, WithLabels(pool, 3));
    StmtCopies(i, WithLabels(pool, 3));
    StmtCopies(s, f.pool);
    LoopPools(l);
    StmtCopies(u, BodyCode(l).pool);
    LoopCopies(l);
    LoopReadsCovered(l);
    ForCode(i, b, u, s, pool);
    hide GenStmt, ReadsCovered, CopiesFit, LoopCode, StmtFits;
    FitOfParts(f.code, LoopCode(l));
  }

  lemma LoopReadsCovered(l: Loop)
    requires LoopOk(l)
    ensures ReadsCovered(LoopCode(l))
  {
    LoopPools(l);
    StmtShape(l.body, l.pool);
    StmtShape(l.update, BodyCode(l).pool);
    LoopShape(l);
    hide GenStmt, LoopCode, ReadsCovered;
  }
}
