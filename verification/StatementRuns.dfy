/** Generated code of tests and statements does what the syntax tree means. */
module StatementRuns {
  import opened Instructions
  import opened Semantics
  import opened SyntaxTrees
  import opened TemporaryPool
  import opened CodeGeneration
  import opened GeneratedRuns
  import opened Arguments

  /** The code has come to position `q` with the state `s`, up to temporaries, or has returned with it. */
  ghost predicate Arrived(m: Machine, s: State, t: State, q: nat) {
    Sees(m, s, t) && (s.status == Running ==> t.pc == q)
  }

  ghost predicate Reaches(m: Machine, c: Code, t: State, q: nat, s: State) {
    exists n: nat :: Arrived(m, s, Run(m, Linked(c), t, n), q)
  }

  lemma Onward(m: Machine, c: Code, t: State, n: nat, q: nat, s: State)
    requires Reaches(m, c, Run(m, Linked(c), t, n), q, s)
    ensures Reaches(m, c, t, q, s)
  {
    var k: nat :| Arrived(m, s, Run(m, Linked(c), Run(m, Linked(c), t, n), k), q);
    RunAppends(m, Linked(c), t, n, k);
  }

  lemma AlreadyThere(m: Machine, c: Code, t: State, q: nat, s: State)
    requires Arrived(m, s, t, q)
    ensures Reaches(m, c, t, q, s)
  {
    assert Arrived(m, s, Run(m, Linked(c), t, 0), q);
  }

  lemma OneStep(m: Machine, c: Code, t: State, q: nat, s: State)
    requires Reaches(m, c, Step(m, Linked(c), t), q, s)
    ensures Reaches(m, c, t, q, s)
  {
    TwoSteps(m, Linked(c), t);
    Onward(m, c, t, 1, q, s);
  }

  lemma MovedSees(m: Machine, s: State, t: State, q: nat)
    requires Sees(m, s, t)
    ensures Arrived(m, s, t.(pc := q), q)
  {
  }

  /** A label is passed over. */
  lemma LabelPassed(m: Machine, c: Code, s: State, t: State, k: nat, l: nat)
    requires Arrived(m, s, t, k) && k < |c| && c[k] == LabelHere(l)
    ensures Arrived(m, s, Step(m, Linked(c), t), k + 1)
  {
  }

  /** A jump leads to its label. */
  lemma JumpTaken(m: Machine, c: Code, s: State, t: State, k: nat, l: nat)
    requires Arrived(m, s, t, k) && k < |c| && c[k] == JumpTo(l)
    ensures Arrived(m, s, Step(m, Linked(c), t), Position(c, l, 0))
  {
  }

  lemma JumpLeads(m: Machine, c: Code, s: State, t: State, k: nat, l: nat)
    requires Arrived(m, s, t, k) && k < |c| && c[k] == JumpTo(l)
    ensures Reaches(m, c, t, Position(c, l, 0), s)
  {
    JumpTaken(m, c, s, t, k, l);
    AlreadyThere(m, c, Step(m, Linked(c), t), Position(c, l, 0), s);
    OneStep(m, c, t, Position(c, l, 0), s);
  }

  lemma LabelLeads(m: Machine, c: Code, s: State, t: State, k: nat, l: nat)
    requires Arrived(m, s, t, k) && k < |c| && c[k] == LabelHere(l)
    ensures Reaches(m, c, t, k + 1, s)
  {
    LabelPassed(m, c, s, t, k, l);
    AlreadyThere(m, c, Step(m, Linked(c), t), k + 1, s);
    OneStep(m, c, t, k + 1, s);
  }

  /** Code that has returned has come everywhere. */
  lemma ReturnedAnywhere(m: Machine, c: Code, s: State, t: State, k: nat, q: nat)
    requires Arrived(m, s, t, k) && s.status != Running
    ensures Reaches(m, c, t, q, s)
  {
    AlreadyThere(m, c, t, q, s);
  }

  // ---------------------------------------------------------------- tests

  ghost predicate PoolGrows(pool: Pool, pool': Pool) {
    Ready(pool') && Shrinks(pool, pool')
  }

  lemma LabelsTaken(pool: Pool, n: nat)
    requires Ready(pool)
    ensures PoolGrows(pool, WithLabels(pool, n))
  {
    forall t: Type ensures ListOk(FreeOf(WithLabels(pool, n), t), t, pool.nextKey) {
      assert ListOk(FreeOf(pool, t), t, pool.nextKey);
    }
  }

  lemma {:induction false} TestPool(b: Test, ifTrue: nat, ifFalse: nat, pool: Pool)
    requires Ready(pool) && TestOk(b)
    ensures PoolGrows(pool, GenTest(b, ifTrue, ifFalse, pool).pool)
  {
    match b
    case Comparison(k, l, r) =>
      ExprPool(l, pool);
      ExprPool(r, GenExpr(l, pool).pool);
    case And(l, r) =>
      LabelsTaken(pool, 1);
      TestPool(l, pool.nextLabel, ifFalse, WithLabels(pool, 1));
      TestPool(r, ifTrue, ifFalse, GenTest(l, pool.nextLabel, ifFalse, WithLabels(pool, 1)).pool);
    case Or(l, r) =>
      LabelsTaken(pool, 1);
      TestPool(l, ifTrue, pool.nextLabel, WithLabels(pool, 1));
      TestPool(r, ifTrue, ifFalse, GenTest(l, ifTrue, pool.nextLabel, WithLabels(pool, 1)).pool);
    case Not(a) =>
      TestPool(a, ifFalse, ifTrue, pool);
  }

  /** A comparison goes to the one label or the other. */
  lemma ComparisonRuns(
      m: Machine, c: Code, k: nat, kind: Kind, l: Expr, r: Expr, ifTrue: nat, ifFalse: nat, pool: Pool, s: State,
      t: State)
    requires m.Valid() && Ready(pool) && TestOk(Comparison(kind, l, r)) && Arrived(m, s, t, k) && s.status == Running
    requires Holds(c, k, GenTest(Comparison(kind, l, r), ifTrue, ifFalse, pool).code)
    ensures Reaches(m, c, t, Position(c, if EvalTest(m, s, Comparison(kind, l, r)) then ifTrue else ifFalse, 0), s)
  {
    hide *;
    var g := GenExpr(l, pool);
    var h := GenExpr(r, g.pool);
    var n := |g.code + h.code|;
    var t2 := Run(m, Linked(c), t, n);
    var i, j := JumpIf(kind, g.place, h.place, ifTrue), JumpTo(ifFalse);
    ComparisonFacts(kind, l, r, ifTrue, ifFalse, pool);
    ArrivedFacts(m, s, t, k);
    BothRun(m, c, k, l, r, pool, s, t, [i, j]);
    HoldsTwo(c, k, g.code + h.code, i, j);
    TwoOperands(m, c, k, pool, t, g, h, Eval(m, s, l), Eval(m, s, r));
    ArrivedLater(m, c, s, t, k, n, k + n, pool);
    JumpsByComparison(m, c, k + n, kind, g.place, h.place, ifTrue, ifFalse, s, t2);
    TestOfComparison(m, s, kind, l, r);
    Onward(m, c, t, n, Position(c, if EvalTest(m, s, Comparison(kind, l, r)) then ifTrue else ifFalse, 0), s);
  }

  lemma ComparisonFacts(kind: Kind, l: Expr, r: Expr, ifTrue: nat, ifFalse: nat, pool: Pool)
    requires Ready(pool) && TestOk(Comparison(kind, l, r))
    ensures var g := GenExpr(l, pool); var h := GenExpr(r, g.pool);
      && GenTest(Comparison(kind, l, r), ifTrue, ifFalse, pool).code ==
         g.code + h.code + [JumpIf(kind, g.place, h.place, ifTrue), JumpTo(ifFalse)]
      && Shrinks(pool, g.pool) && !Available(g.pool, g.place) && ExprOk(l) && ExprOk(r)
  {
    ExprPool(l, pool);
  }

  lemma TestOfComparison(m: Machine, s: State, kind: Kind, l: Expr, r: Expr)
    ensures EvalTest(m, s, Comparison(kind, l, r)) == Compare(kind, Eval(m, s, l), Eval(m, s, r))
  {
  }

  lemma HoldsTwo(c: Code, k: nat, code: Code, i: Instruction, j: Instruction)
    requires Holds(c, k, code + [i, j])
    ensures Holds(c, k, code) && k + |code| + 1 < |c| && c[k + |code|] == i && c[k + |code| + 1] == j
  {
    assert code + [i, j] == code + [i] + [j];
    HoldsLast(c, k, code + [i], j);
    HoldsLast(c, k, code, i);
  }

  lemma ArrivedLater(m: Machine, c: Code, s: State, t: State, k: nat, n: nat, q: nat, pool: Pool)
    requires Arrived(m, s, t, k) && Went(m, c, pool, t, n, q) && s.status == Running
    ensures Arrived(m, s, Run(m, Linked(c), t, n), q)
  {
    SeesLater(m, s, t, Run(m, Linked(c), t, n), pool);
  }

  lemma JumpsByComparison(
      m: Machine, c: Code, k: nat, kind: Kind, x: Symbol, y: Symbol, ifTrue: nat, ifFalse: nat, s: State, t: State)
    requires Arrived(m, s, t, k) && k + 1 < |c| && c[k] == JumpIf(kind, x, y, ifTrue) && c[k + 1] == JumpTo(ifFalse)
    requires s.status == Running
    ensures Reaches(m, c, t, Position(c, if Compare(kind, Read(m, t, x), Read(m, t, y)) then ifTrue else ifFalse, 0), s)
  {
    var yes := Compare(kind, Read(m, t, x), Read(m, t, y));
    var q := if yes then Position(c, ifTrue, 0) else k + 1;
    assert Step(m, Linked(c), t) == t.(pc := q);
    MovedSees(m, s, t, q);
    if yes {
      AlreadyThere(m, c, t.(pc := q), q, s);
    } else {
      JumpLeads(m, c, s, t.(pc := q), q, ifFalse);
    }
    OneStep(m, c, t, if yes then q else Position(c, ifFalse, 0), s);
  }

  /** The code of a test reaches the label that the value of the test selects. */
  lemma {:induction false} TestRuns(
      m: Machine, c: Code, k: nat, b: Test, ifTrue: nat, ifFalse: nat, pool: Pool, s: State, t: State)
    requires m.Valid() && UniqueLabels(c) && Ready(pool) && TestOk(b) && Arrived(m, s, t, k) && s.status == Running
    requires Holds(c, k, GenTest(b, ifTrue, ifFalse, pool).code)
    ensures Reaches(m, c, t, Position(c, if EvalTest(m, s, b) then ifTrue else ifFalse, 0), s)
    decreases b
  {
    hide Reaches, Arrived, Holds, UniqueLabels, Ready, Shrinks, Run, Linked, Position, GenExpr;
    match b
    case Comparison(kind, l, r) =>
      ComparisonRuns(m, c, k, kind, l, r, ifTrue, ifFalse, pool, s, t);
    case And(l, r) =>
      var next := pool.nextLabel;
      LabelsTaken(pool, 1);
      TestPool(l, next, ifFalse, WithLabels(pool, 1));
      var g := GenTest(l, next, ifFalse, WithLabels(pool, 1));
      MiddleLabel(c, k, g.code, next, GenTest(r, ifTrue, ifFalse, g.pool).code);
      TestRuns(m, c, k, l, next, ifFalse, WithLabels(pool, 1), s, t);
      if EvalTest(m, s, l) {
        var t' := PassedLabel(m, c, t, k + |g.code|, next, s);
        TestRuns(m, c, k + |g.code| + 1, r, ifTrue, ifFalse, g.pool, s, t'.0);
        Onward(m, c, t, t'.1, Position(c, if EvalTest(m, s, b) then ifTrue else ifFalse, 0), s);
      }
    case Or(l, r) =>
      var next := pool.nextLabel;
      LabelsTaken(pool, 1);
      TestPool(l, ifTrue, next, WithLabels(pool, 1));
      var g := GenTest(l, ifTrue, next, WithLabels(pool, 1));
      MiddleLabel(c, k, g.code, next, GenTest(r, ifTrue, ifFalse, g.pool).code);
      TestRuns(m, c, k, l, ifTrue, next, WithLabels(pool, 1), s, t);
      if !EvalTest(m, s, l) {
        var t' := PassedLabel(m, c, t, k + |g.code|, next, s);
        TestRuns(m, c, k + |g.code| + 1, r, ifTrue, ifFalse, g.pool, s, t'.0);
        Onward(m, c, t, t'.1, Position(c, if EvalTest(m, s, b) then ifTrue else ifFalse, 0), s);
      }
    case Not(a) =>
      TestRuns(m, c, k, a, ifFalse, ifTrue, pool, s, t);
  }

  /** A label between two parts of the code is found where it is. */
  lemma MiddleLabel(c: Code, k: nat, a: Code, l: nat, b: Code)
    requires UniqueLabels(c) && Holds(c, k, a + [LabelHere(l)] + b)
    ensures Holds(c, k, a) && Holds(c, k + |a| + 1, b)
    ensures k + |a| < |c| && c[k + |a|] == LabelHere(l) && Position(c, l, 0) == k + |a|
  {
    HoldsParts(c, k, a + [LabelHere(l)], b);
    HoldsLast(c, k, a, LabelHere(l));
    PositionFound(c, k + |a|, 0);
  }

  /** The run that has come to a label goes on behind it. */
  lemma PassedLabel(m: Machine, c: Code, t: State, k: nat, l: nat, s: State) returns (r: (State, nat))
    requires k < |c| && c[k] == LabelHere(l) && Reaches(m, c, t, k, s)
    ensures r.0 == Run(m, Linked(c), t, r.1) && Arrived(m, s, r.0, k + 1)
  {
    var n: nat :| Arrived(m, s, Run(m, Linked(c), t, n), k);
    LabelPassed(m, c, s, Run(m, Linked(c), t, n), k, l);
    RunIsSteps(m, Linked(c), t, n);
    r := (Run(m, Linked(c), t, n + 1), n + 1);
  }

  // ---------------------------------------------------------------- assignments

  lemma {:induction false} StmtPool(st: Stmt, pool: Pool)
    requires Ready(pool) && StmtOk(st)
    ensures PoolGrows(pool, GenStmt(st, pool).pool)
  {
    match st
    case Nothing =>
    case SetVariable(x, e) =>
      ExprPool(e, pool);
      Released(pool, GenExpr(e, pool).pool, GenExpr(e, pool).place);
    case SetElement(x, a, e) =>
      AddressPool(x, a, pool);
      var g := GenAddress(x, a, pool);
      ExprPool(e, g.pool);
      var h := GenExpr(e, g.pool);
      PlaceEarlier(pool, g.pool, h.pool, h.place);
      Released(pool, h.pool, h.place);
    case Branch(b, s, e) =>
      LabelsTaken(pool, 3);
      var t := GenTest(b, pool.nextLabel, pool.nextLabel + (if e.Some? then 1 else 2), WithLabels(pool, 3));
      TestPool(b, pool.nextLabel, pool.nextLabel + (if e.Some? then 1 else 2), WithLabels(pool, 3));
      StmtPool(s, t.pool);
      if e.Some? {
        StmtPool(e.value, GenStmt(s, t.pool).pool);
      }
    case While(b, s) =>
      LabelsTaken(pool, 3);
      StmtPool(s, WithLabels(pool, 3));
      TestPool(b, pool.nextLabel, pool.nextLabel + 2, GenStmt(s, WithLabels(pool, 3)).pool);
    case For(i, b, u, s) =>
      LabelsTaken(pool, 3);
      StmtPool(i, WithLabels(pool, 3));
      var f := GenStmt(i, WithLabels(pool, 3));
      StmtPool(s, f.pool);
      StmtPool(u, GenStmt(s, f.pool).pool);
      ConditionPool(b, pool.nextLabel, pool.nextLabel + 2, GenStmt(u, GenStmt(s, f.pool).pool).pool);
    case Invoke(f, args, x, t) =>
      InvokePool(f, args, x, t, pool);
    case Exit(f, t, e) =>
      if e.Some? {
        ExprPool(e.value, pool);
        NumericCreated(GenExpr(e.value, pool).pool, t);
      }
    case Sequence(a, b) =>
      StmtPool(a, pool);
      StmtPool(b, GenStmt(a, pool).pool);
  }

  lemma InvokePool(f: Symbol, args: seq<Expr>, x: Option<Symbol>, t: Type, pool: Pool)
    requires Ready(pool) && StmtOk(Invoke(f, args, x, t))
    ensures PoolGrows(pool, GenStmt(Invoke(f, args, x, t), pool).pool)
  {
    InvokeUnfolds(f, args, x, t, pool);
    ArgumentsPool(args, pool);
    var g := GenArguments(args, pool);
    hide GenArguments, GenStmt, PoolOk, Available, Pending, Created, FreedIfTemporary, AllFreed, Shrinks;
    AllReleased(pool, g.pool, g.places);
    if x.Some? {
      ResultPlace(f, args, x, t, pool);
      var (d, pool2) := Created(AllFreed(g.pool, g.places), t);
      ShrinksTransitive(pool, AllFreed(g.pool, g.places), pool2);
      Released(pool, pool2, d);
    }
  }

  lemma InvokeUnfolds(f: Symbol, args: seq<Expr>, x: Option<Symbol>, t: Type, pool: Pool)
    ensures GenStmt(Invoke(f, args, x, t), pool) == GenInvoke(f, args, x, t, pool)
  {
    hide GenFor, GenBranch, GenExit, GenInvoke;
  }

  lemma ConditionPool(b: Option<Test>, body: nat, after: nat, pool: Pool)
    requires Ready(pool) && (b.Some? ==> TestOk(b.value))
    ensures PoolGrows(pool, GenCondition(b, body, after, pool).pool)
  {
    if b.Some? {
      TestPool(b.value, body, after, pool);
    }
  }

  /** Writing the same value to a variable of the program on both sides. */
  lemma WriteSees(m: Machine, s: State, t: State, x: Symbol, v: int, q: nat)
    requires m.Valid() && Sees(m, s, t) && !x.isConstant && t.status == Running
    ensures Arrived(m, Write(m, s, x, v), Write(m, t.(pc := q), x, v), q)
  {
    forall y: Symbol
      ensures !y.isTemporary ==> Lookup(m, Updated(m, s.locals, x, v), y) == Lookup(m, Updated(m, t.locals, x, v), y)
    {
      LookupAfterUpdate(m, s.locals, x, v, y);
      LookupAfterUpdate(m, t.locals, x, v, y);
    }
  }

  lemma SetVariableRuns(m: Machine, c: Code, k: nat, x: Symbol, e: Expr, pool: Pool, s: State, t: State)
    requires m.Valid() && Ready(pool) && StmtOk(SetVariable(x, e)) && Arrived(m, s, t, k) && s.status == Running
    requires Holds(c, k, GenStmt(SetVariable(x, e), pool).code)
    ensures Reaches(m, c, t, k + |GenStmt(SetVariable(x, e), pool).code|, Write(m, s, x, Eval(m, s, e)))
  {
    hide *;
    SetVariableCode(x, e, pool);
    var g := GenExpr(e, pool);
    var n, v := |g.code|, Eval(m, s, e);
    HoldsLast(c, k, g.code, Simple(Assign, Plus, Some(x), Some(g.place), None));
    ArrivedFacts(m, s, t, k);
    ExprRuns(m, c, k, e, pool, s, t);
    EvaluatedFacts(m, c, k, pool, t, g, v);
    var t1 := Run(m, Linked(c), t, n);
    ArrivedLater(m, c, s, t, k, n, k + n, pool);
    ArrivedFacts(m, s, t1, k + n);
    CopyStep(m, c, k + n, x, g.place, t1);
    WriteSees(m, s, t1, x, v, k + n + 1);
    AlreadyThere(m, c, Step(m, Linked(c), t1), k + n + 1, Write(m, s, x, v));
    OneStep(m, c, t1, k + n + 1, Write(m, s, x, v));
    Onward(m, c, t, n, k + n + 1, Write(m, s, x, v));
  }

  lemma SetVariableCode(x: Symbol, e: Expr, pool: Pool)
    requires StmtOk(SetVariable(x, e))
    ensures var g := GenExpr(e, pool);
      GenStmt(SetVariable(x, e), pool).code == g.code + [Simple(Assign, Plus, Some(x), Some(g.place), None)]
    ensures ExprOk(e) && x.typ != AddrType && !x.isConstant
  {
  }

  lemma ArrivedFacts(m: Machine, s: State, t: State, k: nat)
    requires Arrived(m, s, t, k) && s.status == Running
    ensures t.pc == k && t.status == Running && Sees(m, s, t)
  {
  }

  lemma EvaluatedFacts(m: Machine, c: Code, k: nat, pool: Pool, t: State, g: Generated, v: int)
    requires Evaluated(m, c, k, pool, t, g, v)
    ensures Went(m, c, pool, t, |g.code|, k + |g.code|) && Read(m, Run(m, Linked(c), t, |g.code|), g.place) == v
  {
  }

  lemma CopyStep(m: Machine, c: Code, q: nat, x: Symbol, place: Symbol, t: State)
    requires q < |c| && c[q] == Simple(Assign, Plus, Some(x), Some(place), None) && x.typ != AddrType
    requires t.pc == q && t.status == Running
    ensures Step(m, Linked(c), t) == Write(m, t.(pc := q + 1), x, Read(m, t, place))
  {
  }

  lemma StoreStep(m: Machine, c: Code, q: nat, address: Symbol, place: Symbol, t: State)
    requires q < |c| && c[q] == Simple(Assign, Plus, Some(address), Some(place), None) && address.typ == AddrType
    requires t.pc == q && t.status == Running
    ensures Step(m, Linked(c), t) ==
            t.(pc := q + 1, memory := t.memory[Read(m, t, address) := m.fit(address.elementType, Read(m, t, place))])
  {
  }

  lemma SetElementRuns(m: Machine, c: Code, k: nat, x: Symbol, a: Expr, e: Expr, pool: Pool, s: State, t: State)
    requires m.Valid() && Ready(pool) && StmtOk(SetElement(x, a, e)) && Arrived(m, s, t, k) && s.status == Running
    requires Holds(c, k, GenStmt(SetElement(x, a, e), pool).code)
    ensures var address := AddressOf(m, s, x, Eval(m, s, a));
      Reaches(m, c, t, k + |GenStmt(SetElement(x, a, e), pool).code|,
              s.(memory := s.memory[address := m.fit(x.elementType, Eval(m, s, e))]))
  {
    hide *;
    SetElementCode(x, a, e, pool);
    var g := GenAddress(x, a, pool);
    var h := GenExpr(e, g.pool);
    var n := |g.code + h.code|;
    var t2 := Run(m, Linked(c), t, n);
    var address, v := AddressOf(m, s, x, Eval(m, s, a)), Eval(m, s, e);
    HoldsLast(c, k, g.code + h.code, Simple(Assign, Plus, Some(g.place), Some(h.place), None));
    AddressAndValue(m, c, k, x, a, e, pool, s, t);
    StoreLeads(m, c, k + n, g.place, h.place, s, t2, address, v);
    Onward(m, c, t, n, k + n + 1, s.(memory := s.memory[address := m.fit(x.elementType, v)]));
  }

  /** The address of an element and then the value for it. */
  lemma AddressAndValue(m: Machine, c: Code, k: nat, x: Symbol, a: Expr, e: Expr, pool: Pool, s: State, t: State)
    requires m.Valid() && Ready(pool) && StmtOk(SetElement(x, a, e)) && Arrived(m, s, t, k) && s.status == Running
    requires Holds(c, k, GenAddress(x, a, pool).code + GenExpr(e, GenAddress(x, a, pool).pool).code)
    ensures var g := GenAddress(x, a, pool); var h := GenExpr(e, g.pool);
      var n := |g.code + h.code|; var t2 := Run(m, Linked(c), t, n);
      && Arrived(m, s, t2, k + n) && Read(m, t2, g.place) == AddressOf(m, s, x, Eval(m, s, a))
      && Read(m, t2, h.place) == Eval(m, s, e)
  {
    hide *;
    SetElementCode(x, a, e, pool);
    var g := GenAddress(x, a, pool);
    var h := GenExpr(e, g.pool);
    var n, address := |g.code + h.code|, AddressOf(m, s, x, Eval(m, s, a));
    HoldsParts(c, k, g.code, h.code);
    ArrivedFacts(m, s, t, k);
    AddressReached(m, c, k, x, a, pool, s, t);
    SeesAfter(m, c, k, pool, s, t, g, address);
    ExprRuns(m, c, k + |g.code|, e, g.pool, s, Run(m, Linked(c), t, |g.code|));
    TwoOperands(m, c, k, pool, t, g, h, address, Eval(m, s, e));
    ArrivedLater(m, c, s, t, k, n, k + n, pool);
  }

  lemma StoreLeads(m: Machine, c: Code, q: nat, address: Symbol, place: Symbol, s: State, t: State, at: int, v: int)
    requires Arrived(m, s, t, q) && q < |c| && c[q] == Simple(Assign, Plus, Some(address), Some(place), None)
    requires address.typ == AddrType && Read(m, t, address) == at && Read(m, t, place) == v && s.status == Running
    ensures Reaches(m, c, t, q + 1, s.(memory := s.memory[at := m.fit(address.elementType, v)]))
  {
    hide *;
    var s' := s.(memory := s.memory[at := m.fit(address.elementType, v)]);
    ArrivedFacts(m, s, t, q);
    StoreStep(m, c, q, address, place, t);
    StoreSees(m, s, t, q + 1, at, m.fit(address.elementType, v));
    AlreadyThere(m, c, Step(m, Linked(c), t), q + 1, s');
    OneStep(m, c, t, q + 1, s');
  }

  lemma SetElementCode(x: Symbol, a: Expr, e: Expr, pool: Pool)
    requires Ready(pool) && StmtOk(SetElement(x, a, e))
    ensures var g := GenAddress(x, a, pool); var h := GenExpr(e, g.pool);
      && GenStmt(SetElement(x, a, e), pool).code == g.code + h.code
            + [Simple(Assign, Plus, Some(g.place), Some(h.place), None)]
      && Ready(g.pool) && Shrinks(pool, g.pool) && !Available(g.pool, g.place)
      && g.place.typ == AddrType && g.place.elementType == x.elementType
    ensures IsArray(x) && ExprOk(a) && ExprOk(e)
  {
    AddressPool(x, a, pool);
  }

  lemma StoreSees(m: Machine, s: State, t: State, q: nat, address: int, v: int)
    requires Sees(m, s, t) && t.status == Running
    ensures Arrived(m, s.(memory := s.memory[address := v]), t.(pc := q, memory := t.memory[address := v]), q)
  {
  }

  // ---------------------------------------------------------------- calls

  lemma InvokeRuns(
      m: Machine, c: Code, k: nat, f: Symbol, args: seq<Expr>, x: Option<Symbol>, typ: Type, pool: Pool, s: State,
      t: State)
    requires m.Valid() && Ready(pool) && StmtOk(Invoke(f, args, x, typ)) && Arrived(m, s, t, k) && s.status == Running
    requires Holds(c, k, GenStmt(Invoke(f, args, x, typ), pool).code)
    ensures Reaches(m, c, t, k + |GenStmt(Invoke(f, args, x, typ), pool).code|,
                    Received(m, Called(m, s, f, s.arguments + Reversed(EvalAll(m, s, args))), x, typ))
  {
    hide *;
    var g, values := GenArguments(args, pool), EvalAll(m, s, args);
    var n, params := |g.code|, ParamCode(g.places);
    var s1 := Called(m, s, f, s.arguments + Reversed(values));
    var q := k + n + |params| + 1;
    InvokeCode(c, k, f, args, x, typ, pool);
    ArrivedFacts(m, s, t, k);
    ArgumentsRun(m, c, k, args, pool, s, t);
    var t1 := Run(m, Linked(c), t, n);
    ArrivedLater(m, c, s, t, k, n, k + n, pool);
    CallRuns(m, c, k + n, f, g.places, values, s, t1);
    Onward(m, c, t, n, q, s1);
    CalledRuns(m, s, f, s.arguments + Reversed(values));
    if x.Some? {
      var t2 := Reached(m, c, t, q, s1);
      ReceiveRuns(m, c, q, x.value, typ, Created(AllFreed(g.pool, g.places), typ).0, s1, t2.0);
      Onward(m, c, t, t2.1, q + 2, Received(m, s1, x, typ));
    } else {
      NotReceived(m, s1, typ);
    }
  }

  lemma InvokeCode(c: Code, k: nat, f: Symbol, args: seq<Expr>, x: Option<Symbol>, typ: Type, pool: Pool)
    requires Ready(pool) && StmtOk(Invoke(f, args, x, typ)) && Holds(c, k, GenStmt(Invoke(f, args, x, typ), pool).code)
    ensures var g := GenArguments(args, pool); var q := k + |g.code| + |ParamCode(g.places)| + 1;
      && Holds(c, k, g.code) && Holds(c, k + |g.code|, CallCode(f, g.places))
      && (x.None? ==> k + |GenStmt(Invoke(f, args, x, typ), pool).code| == q)
      && (x.Some? ==>
            var d := Created(AllFreed(g.pool, g.places), typ).0;
            && k + |GenStmt(Invoke(f, args, x, typ), pool).code| == q + 2 <= |c|
            && c[q] == Simple(Retrieve, Plus, Some(d), None, None) && c[q + 1] == Simple(Assign, Plus, x, Some(d), None)
            && d.isTemporary && d.scope == Local && !d.isConstant && d.typ == typ && IsNumeric(typ)
            && x.value.typ != AddrType && !x.value.isConstant)
    ensures forall e :: e in args ==> ArgumentOk(e)
  {
    hide *;
    var g := GenArguments(args, pool);
    var code := g.code + CallCode(f, g.places);
    InvokeParts(f, args, x, typ, pool);
    if x.Some? {
      var d := Created(AllFreed(g.pool, g.places), typ).0;
      ResultPlace(f, args, x, typ, pool);
      HoldsTwo(c, k, code, Simple(Retrieve, Plus, Some(d), None, None), Simple(Assign, Plus, x, Some(d), None));
    }
    HoldsParts(c, k, g.code, CallCode(f, g.places));
  }

  lemma InvokeParts(f: Symbol, args: seq<Expr>, x: Option<Symbol>, typ: Type, pool: Pool)
    requires StmtOk(Invoke(f, args, x, typ))
    ensures var g, code := GenArguments(args, pool), GenStmt(Invoke(f, args, x, typ), pool).code;
      && |CallCode(f, g.places)| == |ParamCode(g.places)| + 1
      && (x.None? ==> code == g.code + CallCode(f, g.places))
      && (x.Some? ==>
            var d := Created(AllFreed(g.pool, g.places), typ).0;
            code == g.code + CallCode(f, g.places)
              + [Simple(Retrieve, Plus, Some(d), None, None), Simple(Assign, Plus, x, Some(d), None)])
    ensures forall e :: e in args ==> ArgumentOk(e)
  {
    InvokeUnfolds(f, args, x, typ, pool);
    hide GenStmt, GenArguments, AllFreed, Created, FreedIfTemporary, ParamCode, Simple, ArgumentOk;
  }

  /** The temporary that the value of the call is put into. */
  lemma ResultPlace(f: Symbol, args: seq<Expr>, x: Option<Symbol>, typ: Type, pool: Pool)
    requires Ready(pool) && StmtOk(Invoke(f, args, x, typ)) && x.Some?
    ensures var g := GenArguments(args, pool); var pool1 := AllFreed(g.pool, g.places);
      var (d, pool2) := Created(pool1, typ);
      && Ready(pool1) && Shrinks(pool, pool1) && PoolStep(pool1, pool2) && PlaceOk(pool, pool2, d)
      && d.isTemporary && d.scope == Local && !d.isConstant && d.typ == typ && IsNumeric(typ)
    ensures x.value.typ != AddrType && !x.value.isConstant && !x.value.isTemporary
  {
    var g := GenArguments(args, pool);
    var pool1 := AllFreed(g.pool, g.places);
    ArgumentsPool(args, pool);
    hide GenArguments, PoolOk, Available, Created, FreedIfTemporary, AllFreed, Shrinks;
    AllReleased(pool, g.pool, g.places);
    NumericCreated(pool1, typ);
    var (d, pool2) := Created(pool1, typ);
    PlaceEarlier(pool, pool1, pool2, d);
  }

  /** Parameters from right to left. */
  lemma {:induction false} ParamsRun(
      m: Machine, c: Code, k: nat, places: seq<Symbol>, values: seq<int>, t: State)
    requires Holds(c, k, ParamCode(places)) && ValuesAt(m, t, places, values) && t.pc == k && t.status == Running
    ensures |ParamCode(places)| == |places|
    ensures Run(m, Linked(c), t, |places|) ==
            t.(pc := k + |places|, arguments := t.arguments + Reversed(values))
    decreases |places|
  {
    hide *;
    if places == [] {
      NoParams(m, c, t, values);
    } else {
      ParamsUnfold(m, t, places, values);
      var n, rest := |places| - 1, Reversed(values[1..]);
      HoldsLast(c, k, ParamCode(places[1..]), Named(Param, places[0]));
      ParamsRun(m, c, k, places[1..], values[1..], t);
      var t1 := Run(m, Linked(c), t, n);
      RunIsSteps(m, Linked(c), t, n);
      ParamStep(m, c, k + n, places[0], t, t1);
      assert t.arguments + rest + [values[0]] == t.arguments + (rest + [values[0]]);
    }
  }

  lemma NoParams(m: Machine, c: Code, t: State, values: seq<int>)
    requires ValuesAt(m, t, [], values)
    ensures ParamCode([]) == [] && Reversed(values) == [] && Run(m, Linked(c), t, 0) == t
  {
  }

  lemma ParamsUnfold(m: Machine, t: State, places: seq<Symbol>, values: seq<int>)
    requires places != [] && ValuesAt(m, t, places, values)
    ensures ParamCode(places) == ParamCode(places[1..]) + [Named(Param, places[0])]
    ensures values != [] && Reversed(values) == Reversed(values[1..]) + [values[0]]
    ensures ValuesAt(m, t, places[1..], values[1..]) && Read(m, t, places[0]) == values[0]
  {
    hide Named, Read;
  }

  lemma ParamStep(m: Machine, c: Code, q: nat, x: Symbol, t: State, t1: State)
    requires q < |c| && c[q] == Named(Param, x) && t1 == t.(pc := q, arguments := t1.arguments) && t.status == Running
    ensures Step(m, Linked(c), t1) == t1.(pc := q + 1, arguments := t1.arguments + [Read(m, t, x)])
  {
  }

  lemma CallRuns(
      m: Machine, c: Code, k: nat, f: Symbol, places: seq<Symbol>, values: seq<int>, s: State, t: State)
    requires Holds(c, k, CallCode(f, places)) && ValuesAt(m, t, places, values)
    requires Arrived(m, s, t, k) && s.status == Running
    ensures Reaches(m, c, t, k + |ParamCode(places)| + 1, Called(m, s, f, s.arguments + Reversed(values)))
  {
    hide *;
    var n, a, s1 := |places|, s.arguments + Reversed(values), Called(m, s, f, s.arguments + Reversed(values));
    CallIsLast(f, places);
    HoldsLast(c, k, ParamCode(places), Named(Call, f));
    ArrivedFacts(m, s, t, k);
    ParamsRun(m, c, k, places, values, t);
    var t1 := Run(m, Linked(c), t, n);
    SameArguments(m, s, t);
    CallStep(m, c, k + n, f, s, t, t1, a);
    AlreadyThere(m, c, Step(m, Linked(c), t1), k + n + 1, s1);
    OneStep(m, c, t1, k + n + 1, s1);
    Onward(m, c, t, n, k + n + 1, s1);
  }

  lemma CallIsLast(f: Symbol, places: seq<Symbol>)
    ensures CallCode(f, places) == ParamCode(places) + [Named(Call, f)]
  {
  }

  lemma SameArguments(m: Machine, s: State, t: State)
    requires Sees(m, s, t)
    ensures t.arguments == s.arguments
  {
  }

  lemma CallStep(m: Machine, c: Code, q: nat, f: Symbol, s: State, t: State, t1: State, arguments: seq<int>)
    requires q < |c| && c[q] == Named(Call, f) && t1 == t.(pc := q, arguments := arguments)
    requires Sees(m, s, t) && s.status == Running
    ensures Arrived(m, Called(m, s, f, arguments), Step(m, Linked(c), t1), q + 1)
  {
    hide Contents;
    assert Step(m, Linked(c), t1) == Called(m, t, f, arguments).(pc := q + 1);
  }

  lemma CalledRuns(m: Machine, s: State, f: Symbol, arguments: seq<int>)
    ensures Called(m, s, f, arguments).status == s.status
  {
  }

  lemma NotReceived(m: Machine, s: State, t: Type)
    ensures Received(m, s, None, t) == s
  {
  }

  /** The value of the call is copied to a temporary, and from there to the variable. */
  lemma ReceiveRuns(m: Machine, c: Code, q: nat, x: Symbol, typ: Type, d: Symbol, s: State, t: State)
    requires m.Valid() && Arrived(m, s, t, q) && s.status == Running && q + 1 < |c|
    requires c[q] == Simple(Retrieve, Plus, Some(d), None, None)
    requires c[q + 1] == Simple(Assign, Plus, Some(x), Some(d), None)
    requires d.isTemporary && d.scope == Local && !d.isConstant && d.typ == typ && IsNumeric(typ)
    requires x.typ != AddrType && !x.isConstant
    ensures Reaches(m, c, t, q + 2, Received(m, s, Some(x), typ))
  {
    hide *;
    var v := m.fit(typ, s.value);
    var s' := Write(m, s, x, v);
    IsReceived(m, s, x, typ);
    ArrivedFacts(m, s, t, q);
    RetrieveStep(m, c, q, d, s, t);
    var t1 := Step(m, Linked(c), t);
    TemporaryWritten(m, s, t, d, s.value, q + 1);
    ArrivedFacts(m, s, t1, q + 1);
    CopyStep(m, c, q + 1, x, d, t1);
    WriteSees(m, s, t1, x, v, q + 2);
    AlreadyThere(m, c, Step(m, Linked(c), t1), q + 2, s');
    OneStep(m, c, t1, q + 2, s');
    OneStep(m, c, t, q + 2, s');
  }

  lemma IsReceived(m: Machine, s: State, x: Symbol, t: Type)
    ensures Received(m, s, Some(x), t) == Write(m, s, x, m.fit(t, s.value))
  {
  }

  lemma RetrieveStep(m: Machine, c: Code, q: nat, d: Symbol, s: State, t: State)
    requires Arrived(m, s, t, q) && s.status == Running && q < |c|
    requires c[q] == Simple(Retrieve, Plus, Some(d), None, None) && IsNumeric(d.typ)
    ensures Step(m, Linked(c), t) == Write(m, t.(pc := q + 1), d, s.value)
  {
  }

  // ---------------------------------------------------------------- returns

  lemma ExitRuns(m: Machine, c: Code, k: nat, f: Symbol, typ: Type, e: Option<Expr>, pool: Pool, s: State, t: State)
    requires m.Valid() && Ready(pool) && StmtOk(Exit(f, typ, e)) && Arrived(m, s, t, k) && s.status == Running
    requires Holds(c, k, GenStmt(Exit(f, typ, e), pool).code)
    ensures Reaches(m, c, t, k + |GenStmt(Exit(f, typ, e), pool).code|,
                    s.(status := Returned(ResultOf(m, s, typ, e))))
  {
    hide *;
    ExitCode(m, s, f, typ, e, pool);
    var q := k + |GenStmt(Exit(f, typ, e), pool).code|;
    if e.None? {
      assert [] + [Named(Leave, f), Simple(Return, Plus, None, None, None)]
        == [Named(Leave, f), Simple(Return, Plus, None, None, None)];
      HoldsTwo(c, k, [], Named(Leave, f), Simple(Return, Plus, None, None, None));
      PassedOver(m, c, s, t, k, Leave, f);
      var t1 := Reached(m, c, t, k + 1, s);
      ReturnLeads(m, c, k + 1, None, s, t1.0, q);
      Onward(m, c, t, t1.1, q, s.(status := Returned(ResultOf(m, s, typ, e))));
    } else {
      var g := GenExpr(e.value, pool);
      var d := Created(g.pool, typ).0;
      var i, j := Simple(Assign, Plus, Some(d), Some(g.place), None), Named(Return, d);
      HoldsTwo(c, k, [Named(Leave, f)] + g.code, i, j);
      HoldsParts(c, k, [Named(Leave, f)], g.code);
      HoldsOnly(c, k, Named(Leave, f));
      PassedOver(m, c, s, t, k, Leave, f);
      var t1 := Reached(m, c, t, k + 1, s);
      ValueReturns(m, c, k + 1, e.value, pool, d, s, t1.0, q);
      Onward(m, c, t, t1.1, q, s.(status := Returned(ResultOf(m, s, typ, e))));
    }
  }

  lemma ExitCode(m: Machine, s: State, f: Symbol, t: Type, e: Option<Expr>, pool: Pool)
    requires Ready(pool) && StmtOk(Exit(f, t, e))
    ensures e.None? ==>
              && GenStmt(Exit(f, t, e), pool).code == [Named(Leave, f), Simple(Return, Plus, None, None, None)]
              && ResultOf(m, s, t, e) == None
    ensures e.Some? ==>
              var g := GenExpr(e.value, pool); var (d, pool1) := Created(g.pool, t);
              && GenStmt(Exit(f, t, e), pool) ==
                 GeneratedCode([Named(Leave, f)] + g.code
                    + [Simple(Assign, Plus, Some(d), Some(g.place), None), Named(Return, d)], pool1)
              && ResultOf(m, s, t, e) == Some(m.fit(t, Eval(m, s, e.value))) && ExprOk(e.value)
              && d.typ == t && IsNumeric(t) && d.isTemporary && d.scope == Local && !d.isConstant
              && g.place != d && PoolStep(g.pool, pool1)
  {
    if e.Some? {
      ExprPool(e.value, pool);
      NumericCreated(GenExpr(e.value, pool).pool, t);
    }
  }

  lemma ExitUnfolds(f: Symbol, t: Type, e: Expr, pool: Pool)
    ensures var g := GenExpr(e, pool); var (d, pool1) := Created(g.pool, t);
      GenStmt(Exit(f, t, Some(e)), pool) ==
        GeneratedCode([Named(Leave, f)] + g.code
          + [Simple(Assign, Plus, Some(d), Some(g.place), None), Named(Return, d)], pool1)
  {
  }

  /** The value of the expression is copied to a temporary and given back. */
  lemma ValueReturns(
      m: Machine, c: Code, k: nat, e: Expr, pool: Pool, d: Symbol, s: State, t: State, q: nat)
    requires m.Valid() && Ready(pool) && ExprOk(e) && Arrived(m, s, t, k) && s.status == Running
    requires d.isTemporary && d.scope == Local && !d.isConstant && IsNumeric(d.typ)
    requires var g := GenExpr(e, pool); var n := k + |g.code|;
      && Holds(c, k, g.code) && n + 1 < |c| && c[n] == Simple(Assign, Plus, Some(d), Some(g.place), None)
      && c[n + 1] == Named(Return, d)
    ensures Reaches(m, c, t, q, s.(status := Returned(Some(m.fit(d.typ, Eval(m, s, e))))))
  {
    hide *;
    var g, v := GenExpr(e, pool), Eval(m, s, e);
    var n := |g.code|;
    var s' := s.(status := Returned(Some(m.fit(d.typ, v))));
    var t1 := Run(m, Linked(c), t, n);
    ArrivedFacts(m, s, t, k);
    ExprRuns(m, c, k, e, pool, s, t);
    EvaluatedFacts(m, c, k, pool, t, g, v);
    ArrivedLater(m, c, s, t, k, n, k + n, pool);
    ArrivedFacts(m, s, t1, k + n);
    ReturnOf(d);
    CopyStep(m, c, k + n, d, g.place, t1);
    TemporaryWritten(m, s, t1, d, v, k + n + 1);
    ReturnLeads(m, c, k + n + 1, Some(d), s, Step(m, Linked(c), t1), q);
    OneStep(m, c, t1, q, s');
    Onward(m, c, t, n, q, s');
  }

  lemma ReturnOf(d: Symbol)
    requires IsNumeric(d.typ)
    ensures Named(Return, d) == Simple(Return, Plus, None, Some(d), None) && d.typ != AddrType
  {
  }

  lemma TemporaryWritten(m: Machine, s: State, t: State, d: Symbol, v: int, q: nat)
    requires m.Valid() && Sees(m, s, t) && d.isTemporary && d.scope == Local && !d.isConstant
    ensures var t' := Write(m, t.(pc := q), d, v); Arrived(m, s, t', q) && Read(m, t', d) == m.fit(d.typ, v)
  {
    LookupAfterUpdate(m, t.locals, d, v, d);
    forall y: Symbol ensures !y.isTemporary ==> Lookup(m, Updated(m, t.locals, d, v), y) == Lookup(m, t.locals, y) {
      LookupAfterUpdate(m, t.locals, d, v, y);
    }
  }

  lemma ReturnLeads(m: Machine, c: Code, k: nat, x: Option<Symbol>, s: State, t: State, q: nat)
    requires Arrived(m, s, t, k) && s.status == Running && k < |c| && c[k] == Simple(Return, Plus, None, x, None)
    ensures Reaches(m, c, t, q, s.(status := Returned(if x.Some? then Some(Read(m, t, x.value)) else None)))
  {
    var s' := s.(status := Returned(if x.Some? then Some(Read(m, t, x.value)) else None));
    assert Step(m, Linked(c), t) == t.(status := s'.status);
    AlreadyThere(m, c, Step(m, Linked(c), t), q, s');
    OneStep(m, c, t, q, s');
  }

  /** An instruction that only goes on to the next one. */
  lemma PassedOver(m: Machine, c: Code, s: State, t: State, k: nat, op: Operation, x: Symbol)
    requires Arrived(m, s, t, k) && k < |c| && c[k] == Named(op, x)
    requires op == GlobalDeclaration || op == Enter || op == Leave
    ensures Reaches(m, c, t, k + 1, s)
  {
    AlreadyThere(m, c, Step(m, Linked(c), t), k + 1, s);
    OneStep(m, c, t, k + 1, s);
  }

  // ---------------------------------------------------------------- statements

  /** A loop in the code: its parts and where they are. */
  datatype Loop = Loop(condition: Option<Test>, update: Stmt, body: Stmt, pool: Pool, bodyLabel: nat)

  function BodyCode(l: Loop): GeneratedCode {
    GenStmt(l.body, l.pool)
  }

  function UpdateCode(l: Loop): GeneratedCode {
    GenStmt(l.update, BodyCode(l).pool)
  }

  function ConditionCode(l: Loop): GeneratedCode {
    GenCondition(l.condition, l.bodyLabel, l.bodyLabel + 2, UpdateCode(l).pool)
  }

  ghost predicate LoopOk(l: Loop) {
    Ready(l.pool) && StmtOk(l.body) && StmtOk(l.update) && (l.condition.Some? ==> TestOk(l.condition.value))
  }

  /** The position of the label before the condition of a loop whose body has its label at `k`. */
  function EvalAt(l: Loop, k: nat): nat {
    k + 1 + |BodyCode(l).code| + |UpdateCode(l).code|
  }

  function EndOf(l: Loop, k: nat): nat {
    EvalAt(l, k) + 1 + |ConditionCode(l).code|
  }

  ghost predicate LoopPlaced(c: Code, k: nat, l: Loop) {
    && EndOf(l, k) < |c| && c[k] == LabelHere(l.bodyLabel)
    && Holds(c, k + 1, BodyCode(l).code) && Holds(c, k + 1 + |BodyCode(l).code|, UpdateCode(l).code)
    && c[EvalAt(l, k)] == LabelHere(l.bodyLabel + 1) && Holds(c, EvalAt(l, k) + 1, ConditionCode(l).code)
    && c[EndOf(l, k)] == LabelHere(l.bodyLabel + 2)
  }

  lemma LoopPools(l: Loop)
    requires LoopOk(l)
    ensures Ready(BodyCode(l).pool) && Ready(UpdateCode(l).pool)
  {
    StmtPool(l.body, l.pool);
    StmtPool(l.update, BodyCode(l).pool);
  }

  /** The condition of a loop leads to the body or behind the loop. */
  lemma ConditionRuns(m: Machine, c: Code, k: nat, l: Loop, s: State, t: State)
    requires m.Valid() && UniqueLabels(c) && LoopOk(l) && LoopPlaced(c, k, l) && Arrived(m, s, t, EvalAt(l, k) + 1)
    requires s.status == Running
    ensures Reaches(m, c, t, if l.condition.Some? && !EvalTest(m, s, l.condition.value) then EndOf(l, k) else k, s)
  {
    LoopPools(l);
    PositionFound(c, k, 0);
    PositionFound(c, EndOf(l, k), 0);
    if l.condition.Some? {
      TestRuns(m, c, EvalAt(l, k) + 1, l.condition.value, l.bodyLabel, l.bodyLabel + 2, UpdateCode(l).pool, s, t);
    } else {
      assert c[EvalAt(l, k) + 1 + 0] == [JumpTo(l.bodyLabel)][0];
      JumpLeads(m, c, s, t, EvalAt(l, k) + 1, l.bodyLabel);
    }
  }

  /** A loop, from the label before its condition on, ends where the loop of the syntax tree ends. */
  lemma {:induction false} LoopRuns(m: Machine, c: Code, k: nat, l: Loop, s: State, t: State, fuel: nat)
    requires m.Valid() && UniqueLabels(c) && LoopOk(l) && LoopPlaced(c, k, l) && Arrived(m, s, t, EvalAt(l, k))
    requires ExecLoop(m, s, l.condition, l.update, l.body, fuel).Some?
    ensures Reaches(m, c, t, EndOf(l, k) + 1, ExecLoop(m, s, l.condition, l.update, l.body, fuel).value)
    decreases fuel, 0, l.body, 0
  {
    hide *;
    LoopLabels(c, k, l);
    LoopStops(m, s, l, fuel);
    var end := ExecLoop(m, s, l.condition, l.update, l.body, fuel).value;
    if s.status != Running {
      ReturnedAnywhere(m, c, s, t, EvalAt(l, k), EndOf(l, k) + 1);
    } else {
      LabelLeads(m, c, s, t, EvalAt(l, k), l.bodyLabel + 1);
      var t1 := Reached(m, c, t, EvalAt(l, k) + 1, s);
      ConditionRuns(m, c, k, l, s, t1.0);
      if l.condition.Some? && !EvalTest(m, s, l.condition.value) {
        var t2 := Reached(m, c, t1.0, EndOf(l, k), s);
        LabelLeads(m, c, s, t2.0, EndOf(l, k), l.bodyLabel + 2);
        Onward(m, c, t1.0, t2.1, EndOf(l, k) + 1, s);
      } else {
        var t2 := Reached(m, c, t1.0, k, s);
        RoundRuns(m, c, k, l, s, t2.0, fuel);
        Onward(m, c, t1.0, t2.1, EndOf(l, k) + 1, end);
      }
      Onward(m, c, t, t1.1, EndOf(l, k) + 1, end);
    }
  }

  lemma LoopLabels(c: Code, k: nat, l: Loop)
    requires LoopPlaced(c, k, l)
    ensures k < EvalAt(l, k) < EndOf(l, k) < |c| && c[k] == LabelHere(l.bodyLabel)
    ensures c[EvalAt(l, k)] == LabelHere(l.bodyLabel + 1) && c[EndOf(l, k)] == LabelHere(l.bodyLabel + 2)
  {
    hide GenStmt, BodyCode, UpdateCode, ConditionCode, Holds;
  }

  lemma LoopStops(m: Machine, s: State, l: Loop, fuel: nat)
    ensures s.status != Running || (l.condition.Some? && !EvalTest(m, s, l.condition.value)) ==>
              ExecLoop(m, s, l.condition, l.update, l.body, fuel) == Some(s)
  {
  }

  lemma Reached(m: Machine, c: Code, t: State, q: nat, s: State) returns (r: (State, nat))
    requires Reaches(m, c, t, q, s)
    ensures r.0 == Run(m, Linked(c), t, r.1) && Arrived(m, s, r.0, q)
  {
    var n: nat :| Arrived(m, s, Run(m, Linked(c), t, n), q);
    r := (Run(m, Linked(c), t, n), n);
  }

  /** One more round of a loop, from the label before its body on. */
  lemma {:induction false} RoundRuns(m: Machine, c: Code, k: nat, l: Loop, s: State, t: State, fuel: nat)
    requires m.Valid() && UniqueLabels(c) && LoopOk(l) && LoopPlaced(c, k, l) && Arrived(m, s, t, k)
    requires s.status == Running && (l.condition.Some? ==> EvalTest(m, s, l.condition.value))
    requires ExecLoop(m, s, l.condition, l.update, l.body, fuel).Some?
    ensures Reaches(m, c, t, EndOf(l, k) + 1, ExecLoop(m, s, l.condition, l.update, l.body, fuel).value)
    decreases fuel, 0, l.body, -1
  {
    hide *;
    LoopFacts(c, k, l);
    RoundOfLoop(m, s, l, fuel);
    var end := ExecLoop(m, s, l.condition, l.update, l.body, fuel).value;
    var s1 := Exec(m, s, l.body, fuel - 1).value;
    var s2 := Exec(m, s1, l.update, fuel - 1).value;
    var kb := k + 1 + |GenStmt(l.body, l.pool).code|;
    LabelLeads(m, c, s, t, k, l.bodyLabel);
    var t1 := Reached(m, c, t, k + 1, s);
    StmtRuns(m, c, k + 1, l.body, l.pool, s, t1.0, fuel - 1);
    var t2 := Reached(m, c, t1.0, kb, s1);
    StmtRuns(m, c, kb, l.update, GenStmt(l.body, l.pool).pool, s1, t2.0, fuel - 1);
    var t3 := Reached(m, c, t2.0, EvalAt(l, k), s2);
    LoopRuns(m, c, k, l, s2, t3.0, fuel - 1);
    Onward(m, c, t2.0, t3.1, EndOf(l, k) + 1, end);
    Onward(m, c, t1.0, t2.1, EndOf(l, k) + 1, end);
    Onward(m, c, t, t1.1, EndOf(l, k) + 1, end);
  }

  lemma LoopFacts(c: Code, k: nat, l: Loop)
    requires LoopOk(l) && LoopPlaced(c, k, l)
    ensures var g := GenStmt(l.body, l.pool); var h := GenStmt(l.update, g.pool);
      && Ready(l.pool) && Ready(g.pool) && StmtOk(l.body) && StmtOk(l.update)
      && Holds(c, k + 1, g.code) && Holds(c, k + 1 + |g.code|, h.code) && EvalAt(l, k) == k + 1 + |g.code| + |h.code|
      && k < |c| && c[k] == LabelHere(l.bodyLabel)
  {
    LoopPools(l);
  }

  lemma RoundOfLoop(m: Machine, s: State, l: Loop, fuel: nat)
    requires s.status == Running && (l.condition.Some? ==> EvalTest(m, s, l.condition.value))
    requires ExecLoop(m, s, l.condition, l.update, l.body, fuel).Some?
    ensures 0 < fuel && Exec(m, s, l.body, fuel - 1).Some?
    ensures var s1 := Exec(m, s, l.body, fuel - 1).value; var s2 := Exec(m, s1, l.update, fuel - 1);
      && s2.Some?
      && ExecLoop(m, s, l.condition, l.update, l.body, fuel) == ExecLoop(m, s2.value, l.condition, l.update, l.body,
            fuel - 1)
  {
  }

  function LoopCode(l: Loop): Code {
    LoopPieces(l.bodyLabel, BodyCode(l).code, UpdateCode(l).code, ConditionCode(l).code)
  }

  lemma LoopIsPlaced(c: Code, k: nat, l: Loop)
    requires Holds(c, k, LoopCode(l))
    ensures LoopPlaced(c, k + 1, l) && k < |c| && c[k] == JumpTo(l.bodyLabel + 1) && EndOf(l, k + 1) + 1 == k
              + |LoopCode(l)|
  {
    var j, b, u, t := [JumpTo(l.bodyLabel + 1), LabelHere(l.bodyLabel)], BodyCode(l).code, UpdateCode(l).code,
      ConditionCode(l).code;
    hide GenStmt, GenTest, GenCondition, BodyCode, UpdateCode, ConditionCode;
    HoldsLast(c, k, j + b + u + [LabelHere(l.bodyLabel + 1)] + t, LabelHere(l.bodyLabel + 2));
    HoldsParts(c, k, j + b + u + [LabelHere(l.bodyLabel + 1)], t);
    HoldsLast(c, k, j + b + u, LabelHere(l.bodyLabel + 1));
    HoldsParts(c, k, j + b, u);
    HoldsParts(c, k, j, b);
    assert [] + j == j;
    HoldsTwo(c, k, [], JumpTo(l.bodyLabel + 1), LabelHere(l.bodyLabel));
  }

  lemma EvalFound(c: Code, k: nat, l: Loop)
    requires UniqueLabels(c) && LoopPlaced(c, k, l)
    ensures Position(c, l.bodyLabel + 1, 0) == EvalAt(l, k)
  {
    hide GenStmt, BodyCode, UpdateCode, ConditionCode, UniqueLabels, Position, Holds;
    PositionFound(c, EvalAt(l, k), 0);
  }

  /** A loop, from the jump to its condition on. */
  lemma {:induction false} WholeLoopRuns(m: Machine, c: Code, k: nat, l: Loop, s: State, t: State, fuel: nat)
    requires m.Valid() && UniqueLabels(c) && LoopOk(l) && Holds(c, k, LoopCode(l)) && Arrived(m, s, t, k)
    requires ExecLoop(m, s, l.condition, l.update, l.body, fuel).Some?
    ensures Reaches(m, c, t, k + |LoopCode(l)|, ExecLoop(m, s, l.condition, l.update, l.body, fuel).value)
    decreases fuel, 0, l.body, 1
  {
    hide *;
    LoopIsPlaced(c, k, l);
    EvalFound(c, k + 1, l);
    JumpLeads(m, c, s, t, k, l.bodyLabel + 1);
    var t1 := Reached(m, c, t, EvalAt(l, k + 1), s);
    LoopRuns(m, c, k + 1, l, s, t1.0, fuel);
    Onward(m, c, t, t1.1, EndOf(l, k + 1) + 1, ExecLoop(m, s, l.condition, l.update, l.body, fuel).value);
  }

  lemma {:induction false} WhileRuns(
      m: Machine, c: Code, k: nat, b: Test, body: Stmt, pool: Pool, s: State, t: State, fuel: nat)
    requires m.Valid() && UniqueLabels(c) && Ready(pool) && StmtOk(While(b, body)) && Arrived(m, s, t, k)
    requires s.status == Running
    requires Holds(c, k, GenStmt(While(b, body), pool).code) && Exec(m, s, While(b, body), fuel).Some?
    ensures Reaches(m, c, t, k + |GenStmt(While(b, body), pool).code|, Exec(m, s, While(b, body), fuel).value)
    decreases fuel, 1, While(b, body), 0
  {
    hide *;
    WhileFacts(m, s, b, body, pool, fuel);
    WhileCode(b, body, pool);
    WholeLoopRuns(m, c, k, Loop(Some(b), Nothing, body, WithLabels(pool, 3), pool.nextLabel), s, t, fuel);
  }

  lemma WhileFacts(m: Machine, s: State, b: Test, body: Stmt, pool: Pool, fuel: nat)
    requires Ready(pool) && StmtOk(While(b, body)) && s.status == Running
    ensures LoopOk(Loop(Some(b), Nothing, body, WithLabels(pool, 3), pool.nextLabel))
    ensures Exec(m, s, While(b, body), fuel) == ExecLoop(m, s, Some(b), Nothing, body, fuel)
  {
    LabelsTaken(pool, 3);
  }

  lemma {:induction false} ForRuns(
      m: Machine, c: Code, k: nat, i: Stmt, b: Option<Test>, u: Stmt, body: Stmt, pool: Pool, s: State, t: State,
      fuel: nat)
    requires m.Valid() && UniqueLabels(c) && Ready(pool) && StmtOk(For(i, b, u, body)) && Arrived(m, s, t, k)
    requires s.status == Running
    requires Holds(c, k, GenStmt(For(i, b, u, body), pool).code) && Exec(m, s, For(i, b, u, body), fuel).Some?
    ensures Reaches(m, c, t, k + |GenStmt(For(i, b, u, body), pool).code|, Exec(m, s, For(i, b, u, body), fuel).value)
    decreases fuel, 1, For(i, b, u, body), 0
  {
    hide *;
    var pool1 := WithLabels(pool, 3);
    var f := GenStmt(i, pool1);
    var l := Loop(b, u, body, f.pool, pool.nextLabel);
    ForFacts(m, s, i, b, u, body, pool, fuel);
    ForCode(i, b, u, body, pool);
    HoldsParts(c, k, f.code, LoopCode(l));
    var s1, end := Exec(m, s, i, fuel).value, Exec(m, s, For(i, b, u, body), fuel).value;
    StmtRuns(m, c, k, i, pool1, s, t, fuel);
    var t1 := Reached(m, c, t, k + |f.code|, s1);
    WholeLoopRuns(m, c, k + |f.code|, l, s1, t1.0, fuel);
    Onward(m, c, t, t1.1, k + |f.code| + |LoopCode(l)|, end);
  }

  lemma ForFacts(m: Machine, s: State, i: Stmt, b: Option<Test>, u: Stmt, body: Stmt, pool: Pool, fuel: nat)
    requires Ready(pool) && StmtOk(For(i, b, u, body)) && Exec(m, s, For(i, b, u, body), fuel).Some?
    requires s.status == Running
    ensures var pool1 := WithLabels(pool, 3);
      StmtOk(i) && Ready(pool1) && LoopOk(Loop(b, u, body, GenStmt(i, pool1).pool, pool.nextLabel))
    ensures var s1 := Exec(m, s, i, fuel);
      s1.Some? && Exec(m, s, For(i, b, u, body), fuel) == ExecLoop(m, s1.value, b, u, body, fuel)
  {
    LabelsTaken(pool, 3);
    StmtPool(i, WithLabels(pool, 3));
  }

  /** The code of a loop in the form of its parts. */
  lemma ForCode(i: Stmt, b: Option<Test>, u: Stmt, body: Stmt, pool: Pool)
    ensures var f := GenStmt(i, WithLabels(pool, 3)); var l := Loop(b, u, body, f.pool, pool.nextLabel);
      GenStmt(For(i, b, u, body), pool) == GeneratedCode(f.code + LoopCode(l), ConditionCode(l).pool)
  {
    ForUnfolds(i, b, u, body, pool);
    hide GenStmt, GenCondition, LoopPieces, WithLabels;
  }

  lemma ForUnfolds(i: Stmt, b: Option<Test>, u: Stmt, body: Stmt, pool: Pool)
    ensures var l, f := pool.nextLabel, GenStmt(i, WithLabels(pool, 3));
      var g := GenStmt(body, f.pool);
      var h := GenStmt(u, g.pool);
      var t := GenCondition(b, l, l + 2, h.pool);
      GenStmt(For(i, b, u, body), pool) == GeneratedCode(f.code + LoopPieces(l, g.code, h.code, t.code), t.pool)
  {
    ForIsFor(i, b, u, body, pool);
    hide GenStmt, GenCondition, LoopPieces, WithLabels;
  }

  lemma ForIsFor(i: Stmt, b: Option<Test>, u: Stmt, body: Stmt, pool: Pool)
    ensures GenStmt(For(i, b, u, body), pool) == GenFor(i, b, u, body, pool)
  {
    hide GenFor, GenBranch, GenExit, GenInvoke;
  }

  lemma WhileCode(b: Test, body: Stmt, pool: Pool)
    ensures GenStmt(While(b, body),
              pool).code == LoopCode(Loop(Some(b), Nothing, body, WithLabels(pool, 3), pool.nextLabel))
  {
    hide *;
    var l := Loop(Some(b), Nothing, body, WithLabels(pool, 3), pool.nextLabel);
    var j, e, a := LoopStart(l), [LabelHere(l.bodyLabel + 1)], [LabelHere(l.bodyLabel + 2)];
    WhileGenerated(b, body, pool);
    LoopParts(l);
    NoUpdate(l);
    NothingBetween(j + BodyCode(l).code);
  }

  function LoopStart(l: Loop): Code {
    [JumpTo(l.bodyLabel + 1), LabelHere(l.bodyLabel)]
  }

  lemma LoopParts(l: Loop)
    ensures LoopStart(l) == [JumpTo(l.bodyLabel + 1), LabelHere(l.bodyLabel)]
    ensures LoopCode(l) ==
      LoopStart(l) + BodyCode(l).code + UpdateCode(l).code
      + [LabelHere(l.bodyLabel + 1)] + ConditionCode(l).code + [LabelHere(l.bodyLabel + 2)]
  {
    hide BodyCode, UpdateCode, ConditionCode, JumpTo, LabelHere;
  }

  lemma WhileGenerated(b: Test, body: Stmt, pool: Pool)
    ensures var l := Loop(Some(b), Nothing, body, WithLabels(pool, 3), pool.nextLabel);
      GenStmt(While(b, body), pool).code ==
        LoopStart(l) + BodyCode(l).code + [LabelHere(l.bodyLabel + 1)] + ConditionCode(l).code
          + [LabelHere(l.bodyLabel + 2)]
  {
    WhileCondition(b, body, pool);
    WhileUnfolds(b, body, pool);
    hide GenTest, LabelHere, JumpTo, WithLabels, UpdateCode, ConditionCode, GenStmt;
  }

  lemma WhileUnfolds(b: Test, body: Stmt, pool: Pool)
    ensures var l, g := pool.nextLabel, GenStmt(body, WithLabels(pool, 3));
      var t := GenTest(b, l, l + 2, g.pool);
      GenStmt(While(b, body), pool) ==
        GeneratedCode([JumpTo(l + 1), LabelHere(l)] + g.code + [LabelHere(l + 1)] + t.code + [LabelHere(l + 2)], t.pool)
  {
    hide GenTest, LabelHere, JumpTo, WithLabels;
  }

  lemma WhileCondition(b: Test, body: Stmt, pool: Pool)
    ensures var l := Loop(Some(b), Nothing, body, WithLabels(pool, 3), pool.nextLabel);
            ConditionCode(l) == GenTest(b, l.bodyLabel, l.bodyLabel + 2, GenStmt(body, WithLabels(pool, 3)).pool)
  {
    NoUpdate(Loop(Some(b), Nothing, body, WithLabels(pool, 3), pool.nextLabel));
    hide GenTest, GenStmt, UpdateCode;
  }

  lemma NothingBetween(a: Code)
    ensures a + [] == a
  {
  }

  lemma NoUpdate(l: Loop)
    requires l.update == Nothing
    ensures UpdateCode(l).code == [] && UpdateCode(l).pool == BodyCode(l).pool
  {
  }

  lemma {:induction false} BranchRuns(
      m: Machine, c: Code, k: nat, b: Test, st: Stmt, e: Option<Stmt>, pool: Pool, s: State, t: State, fuel: nat)
    requires m.Valid() && UniqueLabels(c) && Ready(pool) && StmtOk(Branch(b, st, e)) && Arrived(m, s, t, k)
    requires s.status == Running
    requires Holds(c, k, GenStmt(Branch(b, st, e), pool).code) && Exec(m, s, Branch(b, st, e), fuel).Some?
    ensures Reaches(m, c, t, k + |GenStmt(Branch(b, st, e), pool).code|, Exec(m, s, Branch(b, st, e), fuel).value)
    decreases fuel, 1, Branch(b, st, e), 0
  {
    hide *;
    BranchFacts(c, k, b, st, e, pool);
    BranchExec(m, s, b, st, e, fuel);
    var l := pool.nextLabel;
    var ifFalse := if e.Some? then l + 1 else l + 2;
    var test := GenTest(b, l, ifFalse, WithLabels(pool, 3));
    var g := GenStmt(st, test.pool);
    var rest := RestOfBranch(e, g.pool, l);
    var kt := k + |test.code|;
    var kr := kt + 1 + |g.code|;
    var end := Exec(m, s, Branch(b, st, e), fuel).value;
    TestRuns(m, c, k, b, l, ifFalse, WithLabels(pool, 3), s, t);
    if EvalTest(m, s, b) {
      var t1 := PassedLabel(m, c, t, kt, l, s);
      StmtRuns(m, c, kt + 1, st, test.pool, s, t1.0, fuel);
      var t2 := Reached(m, c, t1.0, kr, end);
      AfterThen(m, c, kr, l, e, g.pool, end, t2.0);
      Onward(m, c, t1.0, t2.1, kr + |rest|, end);
      Onward(m, c, t, t1.1, kr + |rest|, end);
    } else if e.Some? {
      ElseFacts(c, kr, l, e.value, g.pool);
      var t1 := PassedLabel(m, c, t, kr + 1, l + 1, s);
      StmtRuns(m, c, kr + 2, e.value, g.pool, s, t1.0, fuel);
      var t2 := PassedLabel(m, c, t1.0, kr + |rest| - 1, l + 2, end);
      AlreadyThere(m, c, t2.0, kr + |rest|, end);
      Onward(m, c, t1.0, t2.1, kr + |rest|, end);
      Onward(m, c, t, t1.1, kr + |rest|, end);
    } else {
      NoElseFacts(c, kr, l, g.pool);
      var t1 := PassedLabel(m, c, t, kr, l + 2, s);
      AlreadyThere(m, c, t1.0, kr + |rest|, s);
      Onward(m, c, t, t1.1, kr + |rest|, s);
    }
  }

  /** The code behind the then part. */
  function RestOfBranch(e: Option<Stmt>, pool: Pool, l: nat): Code {
    if e.Some? then [JumpTo(l + 2), LabelHere(l + 1)] + GenStmt(e.value, pool).code
      + [LabelHere(l + 2)] else [LabelHere(l + 2)]
  }

  lemma BranchExec(m: Machine, s: State, b: Test, st: Stmt, e: Option<Stmt>, fuel: nat)
    requires s.status == Running
    ensures Exec(m, s, Branch(b, st, e), fuel) ==
            if EvalTest(m, s, b) then Exec(m, s, st, fuel) else if e.Some? then Exec(m, s, e.value, fuel) else Some(s)
  {
  }

  lemma BranchFacts(c: Code, k: nat, b: Test, st: Stmt, e: Option<Stmt>, pool: Pool)
    requires UniqueLabels(c) && Ready(pool) && StmtOk(Branch(b, st, e))
              && Holds(c, k, GenStmt(Branch(b, st, e), pool).code)
    ensures var l := pool.nextLabel;
      var test := GenTest(b, l, if e.Some? then l + 1 else l + 2, WithLabels(pool, 3));
      var g := GenStmt(st, test.pool);
      var kt, rest := k + |test.code|, RestOfBranch(e, g.pool, l);
      && |GenStmt(Branch(b, st, e), pool).code| == |test.code| + 1 + |g.code| + |rest|
      && Holds(c, k, test.code) && kt < |c| && c[kt] == LabelHere(l) && Position(c, l, 0) == kt
      && Holds(c, kt + 1, g.code) && Holds(c, kt + 1 + |g.code|, rest)
      && Ready(WithLabels(pool, 3)) && Ready(test.pool) && Ready(g.pool)
    ensures TestOk(b) && StmtOk(st) && (e.Some? ==> StmtOk(e.value))
  {
    var l := pool.nextLabel;
    var test := GenTest(b, l, if e.Some? then l + 1 else l + 2, WithLabels(pool, 3));
    var g := GenStmt(st, test.pool);
    BranchParts(b, st, e);
    LabelsTaken(pool, 3);
    TestPool(b, l, if e.Some? then l + 1 else l + 2, WithLabels(pool, 3));
    StmtPool(st, test.pool);
    BranchCode(b, st, e, pool);
    hide GenStmt, GenTest, RestOfBranch, UniqueLabels, Holds, PoolOk, Shrinks, StmtOk;
    BranchPlaced(c, k, test.code, g.code, RestOfBranch(e, g.pool, l), l);
  }

  lemma BranchParts(b: Test, st: Stmt, e: Option<Stmt>)
    requires StmtOk(Branch(b, st, e))
    ensures TestOk(b) && StmtOk(st) && (e.Some? ==> StmtOk(e.value))
  {
  }

  lemma HoldsOnly(c: Code, k: nat, i: Instruction)
    requires Holds(c, k, [i])
    ensures k < |c| && c[k] == i
  {
    assert c[k + 0] == [i][0];
  }

  lemma BranchCode(b: Test, st: Stmt, e: Option<Stmt>, pool: Pool)
    ensures var l := pool.nextLabel;
      var test := GenTest(b, l, if e.Some? then l + 1 else l + 2, WithLabels(pool, 3));
      var g := GenStmt(st, test.pool);
      GenStmt(Branch(b, st, e), pool).code == test.code + [LabelHere(l)] + g.code + RestOfBranch(e, g.pool, l)
  {
    BranchUnfolds(b, st, e, pool);
    hide GenStmt, GenTest, WithLabels, JumpTo, LabelHere;
    var l := pool.nextLabel;
    var test := GenTest(b, l, if e.Some? then l + 1 else l + 2, WithLabels(pool, 3));
    var g := GenStmt(st, test.pool);
    if e.Some? {
      var h := GenStmt(e.value, g.pool).code;
      assert RestOfBranch(e, g.pool, l) == [JumpTo(l + 2), LabelHere(l + 1)] + h + [LabelHere(l + 2)];
      hide *;
      FourParts(test.code, [LabelHere(l)], g.code, [JumpTo(l + 2), LabelHere(l + 1)], h, [LabelHere(l + 2)]);
    } else {
      assert RestOfBranch(e, g.pool, l) == [LabelHere(l + 2)];
      hide *;
    }
  }

  lemma BranchUnfolds(b: Test, st: Stmt, e: Option<Stmt>, pool: Pool)
    ensures var l := pool.nextLabel;
      var test := GenTest(b, l, if e.Some? then l + 1 else l + 2, WithLabels(pool, 3));
      var g := GenStmt(st, test.pool);
      GenStmt(Branch(b, st, e), pool) ==
        if e.Some? then
          var h := GenStmt(e.value, g.pool);
          GeneratedCode(test.code + [LabelHere(l)] + g.code + [JumpTo(l + 2), LabelHere(l + 1)] + h.code
            + [LabelHere(l + 2)], h.pool)
        else GeneratedCode(test.code + [LabelHere(l)] + g.code + [LabelHere(l + 2)], g.pool)
  {
    BranchIsBranch(b, st, e, pool);
    hide GenStmt, GenTest, WithLabels, JumpTo, LabelHere;
  }

  lemma BranchIsBranch(b: Test, st: Stmt, e: Option<Stmt>, pool: Pool)
    ensures GenStmt(Branch(b, st, e), pool) == GenBranch(b, st, e, pool)
  {
    hide GenFor, GenBranch, GenExit, GenInvoke;
  }

  lemma FourParts(a: Code, b: Code, c: Code, d: Code, e: Code, f: Code)
    ensures a + b + c + d + e + f == a + b + c + (d + e + f)
  {
  }

  lemma BranchPlaced(c: Code, k: nat, test: Code, g: Code, rest: Code, l: nat)
    requires UniqueLabels(c) && Holds(c, k, test + [LabelHere(l)] + g + rest)
    ensures var kt := k + |test|;
      && Holds(c, k, test) && kt < |c| && c[kt] == LabelHere(l) && Position(c, l, 0) == kt
      && Holds(c, kt + 1, g) && Holds(c, kt + 1 + |g|, rest)
  {
    HoldsParts(c, k, test + [LabelHere(l)] + g, rest);
    MiddleLabel(c, k, test, l, g);
  }

  lemma ElsePlaced(c: Code, k: nat, l: nat, h: Code)
    requires UniqueLabels(c) && Holds(c, k, [JumpTo(l + 2), LabelHere(l + 1)] + h + [LabelHere(l + 2)])
    ensures k + |h| + 2 < |c| && c[k] == JumpTo(l + 2) && c[k + 1] == LabelHere(l + 1) && Position(c, l + 1, 0) == k + 1
    ensures Holds(c, k + 2, h) && c[k + 2 + |h|] == LabelHere(l + 2) && Position(c, l + 2, 0) == k + 2 + |h|
  {
    var j := [JumpTo(l + 2), LabelHere(l + 1)];
    HoldsLast(c, k, j + h, LabelHere(l + 2));
    HoldsParts(c, k, j, h);
    assert [] + j == j;
    HoldsTwo(c, k, [], JumpTo(l + 2), LabelHere(l + 1));
    PositionFound(c, k + 1, 0);
    PositionFound(c, k + 2 + |h|, 0);
  }

  lemma ElseFacts(c: Code, k: nat, l: nat, e: Stmt, pool: Pool)
    requires UniqueLabels(c) && Holds(c, k, RestOfBranch(Some(e), pool, l))
    ensures var h := GenStmt(e, pool).code;
      && |RestOfBranch(Some(e), pool, l)| == |h| + 3
      && k + |h| + 2 < |c| && c[k] == JumpTo(l + 2) && c[k + 1] == LabelHere(l + 1) && Position(c, l + 1, 0) == k + 1
      && Holds(c, k + 2, h) && c[k + 2 + |h|] == LabelHere(l + 2) && Position(c, l + 2, 0) == k + 2 + |h|
  {
    ElsePlaced(c, k, l, GenStmt(e, pool).code);
  }

  lemma NoElseFacts(c: Code, k: nat, l: nat, pool: Pool)
    requires UniqueLabels(c) && Holds(c, k, RestOfBranch(None, pool, l))
    ensures |RestOfBranch(None, pool, l)| == 1 && k < |c| && c[k] == LabelHere(l + 2) && Position(c, l + 2, 0) == k
  {
    HoldsOnly(c, k, LabelHere(l + 2));
    PositionFound(c, k, 0);
  }

  /** Behind the then part: over the else part, if there is one, and over the last label. */
  lemma AfterThen(m: Machine, c: Code, k: nat, l: nat, e: Option<Stmt>, pool: Pool, s: State, t: State)
    requires UniqueLabels(c) && Holds(c, k, RestOfBranch(e, pool, l)) && Arrived(m, s, t, k)
    ensures Reaches(m, c, t, k + |RestOfBranch(e, pool, l)|, s)
  {
    hide *;
    var q := k + |RestOfBranch(e, pool, l)|;
    if e.Some? {
      ElseFacts(c, k, l, e.value, pool);
      JumpLeads(m, c, s, t, k, l + 2);
      var t1 := PassedLabel(m, c, t, q - 1, l + 2, s);
      AlreadyThere(m, c, t1.0, q, s);
      Onward(m, c, t, t1.1, q, s);
    } else {
      NoElseFacts(c, k, l, pool);
      LabelLeads(m, c, s, t, k, l + 2);
    }
  }

  /**
   * The code of a statement that ends comes to its own end, or returns with the same value, with the same
   * effect on the variables of the program.
   */
  lemma {:induction false} StmtRuns(m: Machine, c: Code, k: nat, st: Stmt, pool: Pool, s: State, t: State, fuel: nat)
    requires m.Valid() && UniqueLabels(c) && Ready(pool) && StmtOk(st) && Arrived(m, s, t, k)
    requires Holds(c, k, GenStmt(st, pool).code) && Exec(m, s, st, fuel).Some?
    ensures Reaches(m, c, t, k + |GenStmt(st, pool).code|, Exec(m, s, st, fuel).value)
    decreases fuel, 1, st, 1
  {
    hide Arrived, Reaches, Ready, UniqueLabels, Holds, StmtOk;
    if s.status != Running {
      ReturnedAnywhere(m, c, s, t, k, k + |GenStmt(st, pool).code|);
      return;
    }
    match st
    case Nothing =>
      AlreadyThere(m, c, t, k, s);
    case SetVariable(x, e) =>
      SetVariableRuns(m, c, k, x, e, pool, s, t);
    case SetElement(x, a, e) =>
      SetElementRuns(m, c, k, x, a, e, pool, s, t);
    case Branch(b, s1, e) =>
      BranchRuns(m, c, k, b, s1, e, pool, s, t, fuel);
    case While(b, body) =>
      WhileRuns(m, c, k, b, body, pool, s, t, fuel);
    case For(i, b, u, body) =>
      ForRuns(m, c, k, i, b, u, body, pool, s, t, fuel);
    case Invoke(f, args, x, typ) =>
      InvokeRuns(m, c, k, f, args, x, typ, pool, s, t);
    case Exit(f, typ, e) =>
      ExitRuns(m, c, k, f, typ, e, pool, s, t);
    case Sequence(a, b) =>
      SequenceRuns(m, c, k, a, b, pool, s, t, fuel);
  }

  lemma {:induction false} SequenceRuns(
      m: Machine, c: Code, k: nat, a: Stmt, b: Stmt, pool: Pool, s: State, t: State, fuel: nat)
    requires m.Valid() && UniqueLabels(c) && Ready(pool) && StmtOk(Sequence(a, b)) && Arrived(m, s, t, k)
    requires s.status == Running
    requires Holds(c, k, GenStmt(Sequence(a, b), pool).code) && Exec(m, s, Sequence(a, b), fuel).Some?
    ensures Reaches(m, c, t, k + |GenStmt(Sequence(a, b), pool).code|, Exec(m, s, Sequence(a, b), fuel).value)
    decreases fuel, 1, Sequence(a, b), 0
  {
    hide *;
    SequenceFacts(m, s, a, b, pool, fuel);
    var g := GenStmt(a, pool);
    var h := GenStmt(b, g.pool);
    HoldsParts(c, k, g.code, h.code);
    var s1, end := Exec(m, s, a, fuel).value, Exec(m, s, Sequence(a, b), fuel).value;
    StmtRuns(m, c, k, a, pool, s, t, fuel);
    var t1 := Reached(m, c, t, k + |g.code|, s1);
    StmtRuns(m, c, k + |g.code|, b, g.pool, s1, t1.0, fuel);
    Onward(m, c, t, t1.1, k + |g.code| + |h.code|, end);
  }

  lemma SequenceFacts(m: Machine, s: State, a: Stmt, b: Stmt, pool: Pool, fuel: nat)
    requires Ready(pool) && StmtOk(Sequence(a, b)) && Exec(m, s, Sequence(a, b), fuel).Some? && s.status == Running
    ensures var g := GenStmt(a, pool);
      && GenStmt(Sequence(a, b), pool).code == g.code + GenStmt(b, g.pool).code && Ready(g.pool)
    ensures StmtOk(a) && StmtOk(b)
    ensures var s1 := Exec(m, s, a, fuel); s1.Some? && Exec(m, s, Sequence(a, b), fuel) == Exec(m, s1.value, b, fuel)
  {
    StmtPool(a, pool);
  }
}
