/**
 * How much the code generator makes: the instructions of each construct, and the temporaries that it gives back or
 * keeps (code_generation.c; create_temporary and free_temporary, symbol-table.c).
 */
module GeneratorCounts {
  import opened Instructions
  import opened SyntaxTrees
  import opened TemporaryPool
  import opened CodeGeneration
  import opened GeneratedRuns
  import opened StatementRuns
  import opened Arguments
  import opened GeneratedFunctions

  datatype Count = Count(instructions: nat, kept: nat) {
    /** What two pieces of code come to, with as many instructions and temporaries more. */
    function With(other: Count, instructions: nat, kept: nat): Count {
      Count(this.instructions + other.instructions + instructions, this.kept + other.kept + kept)
    }
  }

  /** Is the value of the expression in a temporary? A variable is its own place. */
  function Holding(e: Expr): nat {
    if e.Var? then 0 else 1
  }

  /** The address of an array element is kept. */
  function CountExpr(e: Expr): Count {
    match e
    case Var(_) => Count(0, 0)
    case Const(_, _) => Count(1, 0)
    case Negation(_, a) => CountExpr(a).With(Count(1, 0), 0, 0)
    case Arithmetic(_, _, a, b) => CountExpr(a).With(CountExpr(b), 1, 0)
    case Element(_, a) => CountExpr(a).With(Count(2, 1), 0, 0)
  }

  /** The operands of a comparison are kept. */
  function CountTest(b: Test): Count {
    match b
    case Comparison(_, l, r) => CountExpr(l).With(CountExpr(r), 2, Holding(l) + Holding(r))
    case And(l, r) => CountTest(l).With(CountTest(r), 1, 0)
    case Or(l, r) => CountTest(l).With(CountTest(r), 1, 0)
    case Not(a) => CountTest(a)
  }

  function CountCondition(b: Option<Test>): Count {
    if b.Some? then CountTest(b.value) else Count(1, 0)
  }

  function CountArguments(args: seq<Expr>): Count {
    if args == [] then Count(0, 0) else CountExpr(args[0]).With(CountArguments(args[1..]), 0, 0)
  }

  function HeldBy(args: seq<Expr>): nat {
    if args == [] then 0 else Holding(args[0]) + HeldBy(args[1..])
  }

  /** The address of a store is kept, and so are the value of a return statement and its copy. */
  function CountStmt(st: Stmt): Count {
    match st
    case Nothing => Count(0, 0)
    case SetVariable(_, e) => CountExpr(e).With(Count(1, 0), 0, 0)
    case SetElement(_, a, e) => CountExpr(a).With(CountExpr(e), 2, 1)
    case Branch(b, s, e) =>
      if e.Some? then CountTest(b).With(CountStmt(s), 0, 0).With(CountStmt(e.value), 4, 0)
      else CountTest(b).With(CountStmt(s), 2, 0)
    case While(b, s) => CountStmt(s).With(CountTest(b), 4, 0)
    case For(i, b, u, s) =>
      CountStmt(i).With(CountStmt(s), 0, 0).With(CountStmt(u), 0, 0).With(CountCondition(b), 4, 0)
    case Invoke(_, args, x, _) =>
      CountArguments(args).With(Count(|args| + 1, 0), if x.Some? then 2 else 0, 0)
    case Exit(_, _, e) => if e.None? then Count(2, 0) else CountExpr(e.value).With(Count(3, 1), 0, Holding(e.value))
    case Sequence(a, b) => CountStmt(a).With(CountStmt(b), 0, 0)
  }

  /** The code has as many instructions, and so many temporaries more are in use behind it. */
  ghost predicate Makes(pool: Pool, code: Code, pool': Pool, count: Count, held: nat) {
    |code| == count.instructions && InUse(pool') == InUse(pool) + count.kept + held
  }

  lemma {:induction false} ExprCounts(e: Expr, pool: Pool)
    requires Ready(pool) && ExprOk(e)
    ensures var g := GenExpr(e, pool);
      Makes(pool, g.code, g.pool, CountExpr(e), Holding(e)) && (g.place.isTemporary <==> !e.Var?)
    decreases e, 0
  {
    hide InUse, FreedIfTemporary, Created, Retyped, ExprOk, Ready;
    ExprPool(e, pool);
    SubtermsOk(e);
    match e
    case Var(x) =>
      VariablePlace(x, pool);
    case Const(t, v) =>
      UseChanges(pool, t, ConstantSymbol(pool, t, v));
      NumericCreated(pool, t);
      ConstantKept(Created(pool, t).1);
    case Negation(t, a) =>
      var g := GenExpr(a, pool);
      ExprPool(a, pool);
      ExprCounts(a, pool);
      NumericCreated(g.pool, t);
      UseChanges(g.pool, t, g.place);
      UseChanges(Created(g.pool, t).1, t, g.place);
    case Arithmetic(t, k, a, b) =>
      var g := GenExpr(a, pool);
      ExprPool(a, pool);
      ExprCounts(a, pool);
      var h := GenExpr(b, g.pool);
      ExprPool(b, g.pool);
      ExprCounts(b, g.pool);
      NumericCreated(h.pool, t);
      UseChanges(h.pool, t, g.place);
      UseChanges(Created(h.pool, t).1, t, g.place);
      UseChanges(FreedIfTemporary(Created(h.pool, t).1, g.place), t, h.place);
    case Element(x, a) =>
      var g := GenAddress(x, a, pool);
      AddressPool(x, a, pool);
      AddressCounts(x, a, pool);
      NumericCreated(g.pool, x.elementType);
      UseChanges(g.pool, x.elementType, x);
  }

  lemma AddressCounts(x: Symbol, a: Expr, pool: Pool)
    requires Ready(pool) && ExprOk(a)
    ensures var g := GenAddress(x, a, pool); Makes(pool, g.code, g.pool, CountExpr(a).With(Count(1, 0), 0, 1), 0)
    decreases a, 1
  {
    hide InUse, FreedIfTemporary, Created, Retyped, GenExpr, ExprOk, Ready, PoolStep, PlaceOk, CountExpr;
    ExprPool(a, pool);
    ExprCounts(a, pool);
    var g := GenExpr(a, pool);
    UseChanges(g.pool, AddrType, g.place);
    UseChanges(FreedIfTemporary(g.pool, g.place), AddrType, x);
    var (d, pool1) := Created(FreedIfTemporary(g.pool, g.place), AddrType);
    RetypingKeepsUse(pool1, d, x.elementType);
  }

  lemma SubtermsOk(e: Expr)
    requires ExprOk(e)
    ensures match e
            case Var(x) => IsVariable(x)
            case Const(t, _) => IsNumeric(t)
            case Negation(t, a) => IsNumeric(t) && ExprOk(a)
            case Arithmetic(t, _, a, b) => IsNumeric(t) && ExprOk(a) && ExprOk(b)
            case Element(x, a) => IsNumeric(x.elementType) && ExprOk(a)
  {
  }

  lemma VariablePlace(x: Symbol, pool: Pool)
    requires IsVariable(x)
    ensures var g := GenExpr(Var(x), pool); g.code == [] && g.pool == pool && !g.place.isTemporary
  {
  }

  lemma ConstantKept(pool: Pool)
    ensures InUse(AfterConstant(pool)) == InUse(pool)
  {
  }

  lemma {:induction false} TestCounts(b: Test, ifTrue: nat, ifFalse: nat, pool: Pool)
    requires Ready(pool) && TestOk(b)
    ensures var g := GenTest(b, ifTrue, ifFalse, pool); Makes(pool, g.code, g.pool, CountTest(b), 0)
  {
    hide InUse, ExprOk, GenExpr, CountExpr, Ready;
    TestsOk(b);
    match b
    case Comparison(k, l, r) =>
      var g := GenExpr(l, pool);
      ExprPool(l, pool);
      ExprCounts(l, pool);
      ExprCounts(r, g.pool);
    case And(l, r) =>
      LabelsKept(pool, 1);
      var g := GenTest(l, pool.nextLabel, ifFalse, WithLabels(pool, 1));
      TestPool(l, pool.nextLabel, ifFalse, WithLabels(pool, 1));
      TestCounts(l, pool.nextLabel, ifFalse, WithLabels(pool, 1));
      TestCounts(r, ifTrue, ifFalse, g.pool);
    case Or(l, r) =>
      LabelsKept(pool, 1);
      var g := GenTest(l, ifTrue, pool.nextLabel, WithLabels(pool, 1));
      TestPool(l, ifTrue, pool.nextLabel, WithLabels(pool, 1));
      TestCounts(l, ifTrue, pool.nextLabel, WithLabels(pool, 1));
      TestCounts(r, ifTrue, ifFalse, g.pool);
    case Not(a) =>
      TestCounts(a, ifFalse, ifTrue, pool);
  }

  lemma TestsOk(b: Test)
    requires TestOk(b)
    ensures match b
            case Comparison(_, l, r) => ExprOk(l) && ExprOk(r)
            case And(l, r) => TestOk(l) && TestOk(r)
            case Or(l, r) => TestOk(l) && TestOk(r)
            case Not(a) => TestOk(a)
  {
  }

  lemma LabelsKept(pool: Pool, n: nat)
    requires Ready(pool)
    ensures Ready(WithLabels(pool, n)) && InUse(WithLabels(pool, n)) == InUse(pool)
  {
    LabelsTaken(pool, n);
  }

  // ---------------------------------------------------------------- arguments

  function Temporaries(places: seq<Symbol>): nat {
    if places == [] then 0 else (if places[0].isTemporary then 1 else 0) + Temporaries(places[1..])
  }

  lemma {:induction false} FreedCounts(places: seq<Symbol>, pool: Pool)
    requires forall x :: x in places && x.isTemporary ==> IsNumeric(x.typ)
    ensures InUse(AllFreed(pool, places)) == InUse(pool) - Temporaries(places)
    decreases |places|
  {
    hide InUse, FreedIfTemporary;
    if places != [] {
      UseChanges(pool, IntType, places[0]);
      FreedCounts(places[1..], FreedIfTemporary(pool, places[0]));
    }
  }

  lemma ArgumentCounts(e: Expr, pool: Pool)
    requires Ready(pool) && ArgumentOk(e)
    ensures var g := GenExpr(e, pool);
      Makes(pool, g.code, g.pool, CountExpr(e), Holding(e)) && (g.place.isTemporary <==> !e.Var?)
  {
    hide InUse;
    if ExprOk(e) {
      ExprCounts(e, pool);
    }
  }

  lemma {:induction false} ArgumentsCounts(args: seq<Expr>, pool: Pool)
    requires Ready(pool) && forall e :: e in args ==> ArgumentOk(e)
    ensures var g := GenArguments(args, pool);
      && Makes(pool, g.code, g.pool, CountArguments(args), HeldBy(args)) && Temporaries(g.places) == HeldBy(args)
  {
    hide InUse, GenExpr, ArgumentOk, Ready, PlaceOk, Shrinks, CountExpr, GenArguments, CountArguments, HeldBy;
    hide Temporaries;
    if args == [] {
      NoArgumentsCount(pool);
    } else {
      var g := GenExpr(args[0], pool);
      ArgumentPool(args[0], pool);
      ArgumentCounts(args[0], pool);
      ArgumentsCounts(args[1..], g.pool);
      FirstCounts(args, pool);
    }
  }

  lemma NoArgumentsCount(pool: Pool)
    ensures var g := GenArguments([], pool);
      Makes(pool, g.code, g.pool, CountArguments([]), HeldBy([])) && Temporaries(g.places) == HeldBy([])
  {
  }

  lemma FirstCounts(args: seq<Expr>, pool: Pool)
    requires args != []
    ensures var g := GenExpr(args[0], pool);
      var r, whole := GenArguments(args[1..], g.pool), GenArguments(args, pool);
      && whole.pool == r.pool && |whole.code| == |g.code| + |r.code|
      && Temporaries(whole.places) == (if g.place.isTemporary then 1 else 0) + Temporaries(r.places)
    ensures CountArguments(args) == CountExpr(args[0]).With(CountArguments(args[1..]), 0, 0)
    ensures HeldBy(args) == Holding(args[0]) + HeldBy(args[1..])
  {
    hide GenExpr, CountExpr, Holding, Count.With;
    var g := GenExpr(args[0], pool);
    var r := GenArguments(args[1..], g.pool);
    assert ([g.place] + r.places)[1..] == r.places;
  }

  lemma {:induction false} ParamsCount(places: seq<Symbol>)
    ensures |ParamCode(places)| == |places|
  {
    if places != [] {
      ParamsCount(places[1..]);
    }
  }

  lemma InvokeCounts(f: Symbol, args: seq<Expr>, x: Option<Symbol>, t: Type, pool: Pool)
    requires Ready(pool) && StmtOk(Invoke(f, args, x, t))
    ensures var g := GenInvoke(f, args, x, t, pool); Makes(pool, g.code, g.pool, CountStmt(Invoke(f, args, x, t)), 0)
  {
    var g := GenArguments(args, pool);
    ArgumentsPool(args, pool);
    ArgumentsCounts(args, pool);
    hide InUse, GenArguments, Created, FreedIfTemporary, CountArguments, PoolStep, PlaceOk, ArgumentOk, ParamCode;
    FreedCounts(g.places, g.pool);
    ParamsCount(g.places);
    if x.Some? {
      var pool1 := AllFreed(g.pool, g.places);
      ReceivedCounts(f, args, x, t, pool);
    }
  }

  /** The temporary that receives the value is given back at once. */
  lemma ReceivedCounts(f: Symbol, args: seq<Expr>, x: Option<Symbol>, t: Type, pool: Pool)
    requires Ready(pool) && StmtOk(Invoke(f, args, x, t)) && x.Some?
    ensures var g := GenArguments(args, pool);
      var pool1 := AllFreed(g.pool, g.places);
      var (d, pool2) := Created(pool1, t);
      InUse(FreedIfTemporary(pool2, d)) == InUse(pool1)
  {
    var g := GenArguments(args, pool);
    ArgumentsPool(args, pool);
    hide GenArguments, Created, FreedIfTemporary, InUse, AllFreed, Available, Pending;
    AllReleased(pool, g.pool, g.places);
    var pool1 := AllFreed(g.pool, g.places);
    NumericCreated(pool1, t);
    var (d, pool2) := Created(pool1, t);
    UseChanges(pool1, t, d);
    UseChanges(pool2, t, d);
  }

  // ---------------------------------------------------------------- statements

  lemma {:induction false} StmtCounts(st: Stmt, pool: Pool)
    requires Ready(pool) && StmtOk(st)
    ensures var g := GenStmt(st, pool); Makes(pool, g.code, g.pool, CountStmt(st), 0)
    decreases st, 1
  {
    hide InUse, GenExpr, GenTest, GenAddress, CountExpr, CountTest, Ready, ExprOk, TestOk, FreedIfTemporary, GenInvoke;
    hide Created, CountArguments, PlaceOk, ArgumentOk;
    match st
    case Nothing =>
    case SetVariable(x, e) =>
      var g := GenExpr(e, pool);
      ExprPool(e, pool);
      ExprCounts(e, pool);
      UseChanges(g.pool, IntType, g.place);
    case SetElement(x, a, e) =>
      var g := GenAddress(x, a, pool);
      AddressPool(x, a, pool);
      AddressCounts(x, a, pool);
      var h := GenExpr(e, g.pool);
      ExprPool(e, g.pool);
      ExprCounts(e, g.pool);
      UseChanges(h.pool, IntType, h.place);
    case Branch(b, s, e) =>
      BranchCounts(b, s, e, pool);
    case While(b, s) =>
      LabelsKept(pool, 3);
      StmtPool(s, WithLabels(pool, 3));
      StmtCounts(s, WithLabels(pool, 3));
      TestCounts(b, pool.nextLabel, pool.nextLabel + 2, GenStmt(s, WithLabels(pool, 3)).pool);
    case For(i, b, u, s) =>
      ForCounts(i, b, u, s, pool);
    case Invoke(f, args, x, t) =>
      InvokeCounts(f, args, x, t, pool);
    case Exit(f, t, e) =>
      ExitCounts(f, t, e, pool);
    case Sequence(a, b) =>
      StmtPool(a, pool);
      StmtCounts(a, pool);
      StmtCounts(b, GenStmt(a, pool).pool);
  }

  lemma BranchCounts(b: Test, s: Stmt, e: Option<Stmt>, pool: Pool)
    requires Ready(pool) && StmtOk(Branch(b, s, e))
    ensures var g := GenBranch(b, s, e, pool); Makes(pool, g.code, g.pool, CountStmt(Branch(b, s, e)), 0)
    decreases Branch(b, s, e), 0
  {
    hide InUse, GenTest, CountTest, Ready, TestOk, GenStmt;
    LabelsKept(pool, 3);
    var else_ := pool.nextLabel + (if e.Some? then 1 else 2);
    var t := GenTest(b, pool.nextLabel, else_, WithLabels(pool, 3));
    TestPool(b, pool.nextLabel, else_, WithLabels(pool, 3));
    TestCounts(b, pool.nextLabel, else_, WithLabels(pool, 3));
    StmtPool(s, t.pool);
    StmtCounts(s, t.pool);
    if e.Some? {
      StmtCounts(e.value, GenStmt(s, t.pool).pool);
    }
  }

  lemma ForCounts(i: Stmt, b: Option<Test>, u: Stmt, s: Stmt, pool: Pool)
    requires Ready(pool) && StmtOk(For(i, b, u, s))
    ensures var g := GenFor(i, b, u, s, pool); Makes(pool, g.code, g.pool, CountStmt(For(i, b, u, s)), 0)
    decreases For(i, b, u, s), 0
  {
    hide *;
    ForIsOk(i, b, u, s);
    LabelsKept(pool, 3);
    var f := GenStmt(i, WithLabels(pool, 3));
    StmtPool(i, WithLabels(pool, 3));
    StmtCounts(i, WithLabels(pool, 3));
    GrownIsReady(WithLabels(pool, 3), f.pool);
    StmtPool(s, f.pool);
    StmtCounts(s, f.pool);
    var g := GenStmt(s, f.pool);
    GrownIsReady(f.pool, g.pool);
    StmtPool(u, g.pool);
    StmtCounts(u, g.pool);
    var h := GenStmt(u, g.pool);
    GrownIsReady(g.pool, h.pool);
    ConditionCounts(b, pool.nextLabel, pool.nextLabel + 2, h.pool);
    PartsAdd(WithLabels(pool, 3), f, g, h, GenCondition(b, pool.nextLabel, pool.nextLabel + 2, h.pool),
             CountStmt(i), CountStmt(s), CountStmt(u), CountCondition(b));
    CountsOfFor(i, b, u, s);
    LoopCounts(i, b, u, s, pool);
  }

  lemma GrownIsReady(pool: Pool, pool': Pool)
    requires PoolGrows(pool, pool')
    ensures Ready(pool')
  {
  }

  lemma ForIsOk(i: Stmt, b: Option<Test>, u: Stmt, s: Stmt)
    requires StmtOk(For(i, b, u, s))
    ensures StmtOk(i) && StmtOk(u) && StmtOk(s) && (b.Some? ==> TestOk(b.value))
  {
    hide TestOk;
  }

  lemma ConditionCounts(b: Option<Test>, body: nat, after: nat, pool: Pool)
    requires Ready(pool) && (b.Some? ==> TestOk(b.value))
    ensures var g := GenCondition(b, body, after, pool); Makes(pool, g.code, g.pool, CountCondition(b), 0)
  {
    hide InUse, GenTest, CountTest, Ready, TestOk;
    if b.Some? {
      TestCounts(b.value, body, after, pool);
    }
  }

  lemma PartsAdd(
      pool: Pool, f: GeneratedCode, g: GeneratedCode, h: GeneratedCode, t: GeneratedCode, a: Count, b: Count, c: Count,
      d: Count)
    requires Makes(pool, f.code, f.pool, a, 0) && Makes(f.pool, g.code, g.pool, b, 0)
    requires Makes(g.pool, h.code, h.pool, c, 0) && Makes(h.pool, t.code, t.pool, d, 0)
    ensures var count := a.With(b, 0, 0).With(c, 0, 0).With(d, 4, 0);
      && |f.code| + |g.code| + |h.code| + |t.code| + 4 == count.instructions
      && InUse(t.pool) == InUse(pool) + count.kept
  {
    hide InUse;
  }

  lemma CountsOfFor(i: Stmt, b: Option<Test>, u: Stmt, s: Stmt)
    ensures CountStmt(For(i, b, u, s)) ==
            CountStmt(i).With(CountStmt(s), 0, 0).With(CountStmt(u), 0, 0).With(CountCondition(b), 4, 0)
  {
    hide Count.With, CountCondition;
  }

  lemma LoopCounts(i: Stmt, b: Option<Test>, u: Stmt, s: Stmt, pool: Pool)
    ensures var f := GenStmt(i, WithLabels(pool, 3));
      var g := GenStmt(s, f.pool);
      var h := GenStmt(u, g.pool);
      var t := GenCondition(b, pool.nextLabel, pool.nextLabel + 2, h.pool);
      var whole, count := GenFor(i, b, u, s, pool), CountStmt(For(i, b, u, s));
      && whole.pool == t.pool && |whole.code| == |f.code| + |g.code| + |h.code| + |t.code| + 4
      && (InUse(WithLabels(pool, 3)) == InUse(pool) && InUse(t.pool) == InUse(WithLabels(pool, 3)) + count.kept
            && |f.code| + |g.code| + |h.code| + |t.code| + 4 == count.instructions ==>
            Makes(pool, whole.code, whole.pool, count, 0))
  {
    hide GenStmt, GenCondition, InUse, CountStmt;
  }

  lemma ExitCounts(f: Symbol, t: Type, e: Option<Expr>, pool: Pool)
    requires Ready(pool) && StmtOk(Exit(f, t, e))
    ensures var g := GenExit(f, t, e, pool); Makes(pool, g.code, g.pool, CountStmt(Exit(f, t, e)), 0)
  {
    hide InUse, GenExpr, CountExpr, Ready, ExprOk, Created;
    if e.Some? {
      var g := GenExpr(e.value, pool);
      ExprPool(e.value, pool);
      ExprCounts(e.value, pool);
      UseChanges(g.pool, t, g.place);
    }
  }

  /** All instructions of a function, and the temporaries that it still uses at its end. */
  lemma FunctionCounts(f: Function)
    requires FunctionOk(f)
    ensures var count := CountStmt(WithReturn(f.body, f.header));
      && |FunctionCode(f)| == |f.declarations| + 1 + count.instructions
      && InUse(BodyOf(f).pool) == InUse(f.pool) + count.kept
  {
    hide *;
    BodyIsOk(f);
    FunctionPlaced(f);
    StmtCounts(WithReturn(f.body, f.header), f.pool);
    BodyMakes(f);
  }

  lemma BodyMakes(f: Function)
    ensures var st := WithReturn(f.body, f.header);
      BodyOf(f) == GenStmt(st, f.pool) && EntryOf(f) == |f.declarations|
        && (Makes(f.pool, BodyOf(f).code, BodyOf(f).pool, CountStmt(st), 0) ==>
              && |BodyOf(f).code| == CountStmt(st).instructions
              && InUse(BodyOf(f).pool) == InUse(f.pool) + CountStmt(st).kept)
  {
    hide GenStmt, CountStmt, InUse, WithReturn;
  }
}
