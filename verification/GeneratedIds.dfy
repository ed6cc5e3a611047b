/** The local variables of generated code: their ids, and their entries in the symbol table. */
module GeneratedIds {
  import opened Instructions
  import opened SyntaxTrees
  import opened TemporaryPool
  import opened CodeGeneration
  import opened GeneratedRuns
  import opened Arguments
  import opened StatementRuns
  import opened GeneratedFunctions
  import opened RegisterMachine
  import opened Interference
  import opened BitSets
  import opened DeadCode
  import opened RegisterAllocation
  import opened GeneratedAllowed

  // ---------------------------------------------------------------- the variables of the program

  ghost predicate Entered(x: Symbol, locals: seq<Symbol>) {
    x.scope == Local ==> x in locals
  }

  /** The local variables of the expression are in the symbol table. */
  ghost predicate ExprEntered(e: Expr, locals: seq<Symbol>) {
    match e
    case Var(x) => Entered(x, locals)
    case Const(_, _) => true
    case Negation(_, a) => ExprEntered(a, locals)
    case Arithmetic(_, _, a, b) => ExprEntered(a, locals) && ExprEntered(b, locals)
    case Element(x, a) => Entered(x, locals) && ExprEntered(a, locals)
  }

  ghost predicate TestEntered(b: Test, locals: seq<Symbol>) {
    match b
    case Comparison(_, l, r) => ExprEntered(l, locals) && ExprEntered(r, locals)
    case And(l, r) => TestEntered(l, locals) && TestEntered(r, locals)
    case Or(l, r) => TestEntered(l, locals) && TestEntered(r, locals)
    case Not(a) => TestEntered(a, locals)
  }

  ghost predicate StmtEntered(st: Stmt, locals: seq<Symbol>) {
    match st
    case Nothing => true
    case SetVariable(x, e) => Entered(x, locals) && ExprEntered(e, locals)
    case SetElement(x, a, e) => Entered(x, locals) && ExprEntered(a, locals) && ExprEntered(e, locals)
    case Branch(b, s, e) => TestEntered(b, locals) && StmtEntered(s, locals)
      && (e.Some? ==> StmtEntered(e.value, locals))
    case While(b, s) => TestEntered(b, locals) && StmtEntered(s, locals)
    case For(i, b, u, s) =>
      StmtEntered(i, locals) && (b.Some? ==> TestEntered(b.value, locals)) && StmtEntered(u, locals)
        && StmtEntered(s, locals)
    case Invoke(_, args, x, _) =>
      (forall e :: e in args ==> ExprEntered(e, locals)) && (x.Some? ==> Entered(x.value, locals))
    case Exit(_, _, e) => e.Some? ==> ExprEntered(e.value, locals)
    case Sequence(a, b) => StmtEntered(a, locals) && StmtEntered(b, locals)
  }

  /** The variables that the statement assigns. */
  function Targets(st: Stmt): set<Symbol> {
    match st
    case Nothing => {}
    case SetVariable(x, _) => {x}
    case SetElement(_, _, _) => {}
    case Branch(_, s, e) => Targets(s) + (if e.Some? then Targets(e.value) else {})
    case While(_, s) => Targets(s)
    case For(i, _, u, s) => Targets(i) + Targets(u) + Targets(s)
    case Invoke(_, _, x, _) => if x.Some? then {x.value} else {}
    case Exit(_, _, _) => {}
    case Sequence(a, b) => Targets(a) + Targets(b)
  }

  // ---------------------------------------------------------------- temporaries

  /** A temporary as the pool makes it. */
  predicate IsMade(x: Symbol, id: nat) {
    x.isTemporary && x.scope == Local && !x.isConstant && !x.isFormal && x.id == id && IsScalar(x.typ)
  }

  /** The temporaries that have been made have the ids from `base` on, and the free ones are among them. */
  ghost predicate Numbers(pool: Pool, base: nat) {
    && pool.nextId == base + |pool.made|
    && (forall i :: 0 <= i < |pool.made| ==> IsMade(pool.made[i], base + i))
    && (forall t: Type, x :: x in FreeOf(pool, t) ==> x in pool.made)
  }

  /** More temporaries may have been made. */
  predicate Extends(pool: Pool, pool': Pool) {
    pool.made <= pool'.made
  }

  lemma CreatedNumbers(pool: Pool, t: Type, base: nat)
    requires Ready(pool) && Numbers(pool, base) && IsScalar(t)
    ensures var (x, pool') := Created(pool, t); Numbers(pool', base) && Extends(pool, pool') && x in pool'.made
  {
    var (x, pool') := Created(pool, t);
    var free := FreeOf(pool, t);
    if free != [] {
      assert x in free && pool'.made == pool.made;
      forall u: Type ensures forall y :: y in FreeOf(pool', u) ==> y in FreeOf(pool, u) {
        FreeOfWithFree(pool, t, free[1..], u);
      }
    } else {
      assert pool'.made[|pool.made|] == x;
      forall u: Type ensures FreeOf(pool', u) == FreeOf(pool, u) {
      }
    }
  }

  lemma AddressNumbers(pool: Pool, t: Type, base: nat)
    requires Ready(pool) && Numbers(pool, base)
    ensures var (d, pool1) := Created(pool, AddrType); var pool' := Retyped(pool1, d, t);
      Numbers(pool', base) && Extends(pool, pool') && d.(elementType := t) in pool'.made
  {
    var (d, pool1) := Created(pool, AddrType);
    var pool', n := Retyped(pool1, d, t), |pool.made|;
    assert FreeOf(pool, AddrType) == [] && d == NewTemporary(pool, AddrType) && pool1.made == pool.made + [d];
    forall i | 0 <= i < n ensures pool'.made[i] == pool.made[i] {
      assert IsMade(pool.made[i], base + i);
    }
    assert pool'.made[n] == d.(elementType := t);
    forall u: Type, x | x in FreeOf(pool', u) ensures x in pool'.made {
      assert x in FreeOf(pool, u) && x in pool.made;
      var i :| 0 <= i < n && pool.made[i] == x;
      assert pool'.made[i] == x;
    }
  }

  lemma FreedNumbers(pool: Pool, x: Symbol, base: nat)
    requires Numbers(pool, base) && (x.isTemporary ==> x in pool.made) && IsNumeric(x.typ)
    ensures var pool' := FreedIfTemporary(pool, x); Numbers(pool', base) && pool'.made == pool.made
  {
    if x.isTemporary {
      var pool' := Freed(pool, x);
      forall u: Type ensures forall y :: y in FreeOf(pool', u) ==> y in FreeOf(pool, u) || y == x {
        FreeOfWithFree(pool, x.typ, [x] + FreeOf(pool, x.typ), u);
      }
    }
  }

  lemma SameNumbers(pool: Pool, pool': Pool, base: nat)
    requires Numbers(pool, base) && pool'.made == pool.made && pool'.nextId == pool.nextId
    requires pool'.chars == pool.chars && pool'.ints == pool.ints && pool'.addrs == pool.addrs
    ensures Numbers(pool', base) && Extends(pool, pool')
  {
    forall u: Type ensures FreeOf(pool', u) == FreeOf(pool, u) {
    }
  }

  // ---------------------------------------------------------------- operands

  /** A local operand has an entry in the symbol table, and an address is held by a temporary. */
  ghost predicate IsKnown(x: Option<Symbol>, locals: seq<Symbol>, made: seq<Symbol>) {
    && (IsLocal(x) ==> x.value in locals || x.value in made)
    && (x.Some? && x.value.typ == AddrType ==> x.value in made)
  }

  /** The instruction computes a temporary or one of the variables that are assigned, from known operands. */
  ghost predicate IsRegistered(i: Instruction, locals: seq<Symbol>, targets: set<Symbol>, made: seq<Symbol>) {
    && (i.dest.Some? ==> i.dest.value in made || i.dest.value in targets)
    && IsKnown(i.src1, locals, made) && IsKnown(i.src2, locals, made)
  }

  ghost predicate Registered(code: Code, locals: seq<Symbol>, targets: set<Symbol>, made: seq<Symbol>) {
    forall p :: 0 <= p < |code| ==> IsRegistered(code[p], locals, targets, made)
  }

  lemma RegisteredParts(a: Code, b: Code, locals: seq<Symbol>, targets: set<Symbol>, made: seq<Symbol>)
    requires Registered(a, locals, targets, made) && Registered(b, locals, targets, made)
    ensures Registered(a + b, locals, targets, made)
  {
    hide IsRegistered;
  }

  lemma RegisteredThen(code: Code, i: Instruction, locals: seq<Symbol>, targets: set<Symbol>, made: seq<Symbol>)
    requires Registered(code, locals, targets, made) && IsRegistered(i, locals, targets, made)
    ensures Registered(code + [i], locals, targets, made)
  {
    hide IsRegistered;
  }

  lemma MoreRegistered(
      code: Code, locals: seq<Symbol>, targets: set<Symbol>, made: seq<Symbol>, targets': set<Symbol>,
      made': seq<Symbol>)
    requires Registered(code, locals, targets, made) && targets <= targets' && made <= made'
    ensures Registered(code, locals, targets', made')
  {
    forall p | 0 <= p < |code| ensures IsRegistered(code[p], locals, targets', made') {
      assert IsRegistered(code[p], locals, targets, made);
    }
  }

  // ---------------------------------------------------------------- expressions

  /** What the code of an expression leaves behind. */
  ghost predicate ExprNumbered(pool: Pool, g: Generated, base: nat, locals: seq<Symbol>) {
    && Numbers(g.pool, base) && Extends(pool, g.pool) && Registered(g.code, locals, {}, g.pool.made)
    && IsKnown(Some(g.place), locals, g.pool.made) && (g.place.isTemporary ==> g.place in g.pool.made)
  }

  lemma {:induction false} ExprNumbers(e: Expr, pool: Pool, base: nat, locals: seq<Symbol>)
    requires Ready(pool) && ExprOk(e) && ExprEntered(e, locals) && Numbers(pool, base)
    ensures ExprNumbered(pool, GenExpr(e, pool), base, locals)
    decreases e, 0
  {
    match e
    case Var(x) =>
    case Const(t, v) =>
      ConstantNumbers(t, v, pool, base, locals);
    case Negation(t, a) =>
      ExprNumbers(a, pool, base, locals);
      NegationNumbers(t, a, pool, base, locals);
    case Arithmetic(t, k, a, b) =>
      ExprNumbers(a, pool, base, locals);
      ExprPool(a, pool);
      ExprNumbers(b, GenExpr(a, pool).pool, base, locals);
      ArithmeticNumbers(t, k, a, b, pool, base, locals);
    case Element(x, a) =>
      AddressNumbered(x, a, pool, base, locals);
      ElementNumbers(x, a, pool, base, locals);
  }

  lemma ConstantNumbers(t: Type, v: int, pool: Pool, base: nat, locals: seq<Symbol>)
    requires Ready(pool) && IsNumeric(t) && Numbers(pool, base)
    ensures ExprNumbered(pool, GenExpr(Const(t, v), pool), base, locals)
  {
    var (d, pool1) := Created(pool, t);
    NumericCreated(pool, t);
    CreatedNumbers(pool, t, base);
    SameNumbers(pool1, AfterConstant(pool1), base);
  }

  lemma KnownLater(x: Option<Symbol>, locals: seq<Symbol>, made: seq<Symbol>, made': seq<Symbol>)
    requires IsKnown(x, locals, made) && made <= made'
    ensures IsKnown(x, locals, made')
  {
  }

  /** One more instruction, which computes a temporary. */
  lemma ComputedThen(
      code: Code, op: Operation, k: Kind, d: Symbol, x: Option<Symbol>, y: Option<Symbol>,
      locals: seq<Symbol>, made: seq<Symbol>, made': seq<Symbol>)
    requires Registered(code, locals, {}, made) && made <= made' && d in made'
    requires IsKnown(x, locals, made) && IsKnown(y, locals, made)
    ensures Registered(code + [Simple(op, k, Some(d), x, y)], locals, {}, made')
  {
    KnownLater(x, locals, made, made');
    KnownLater(y, locals, made, made');
    var i := Simple(op, k, Some(d), x, y);
    assert IsRegistered(i, locals, {}, made');
    hide IsKnown, IsRegistered, Simple;
    MoreRegistered(code, locals, {}, made, {}, made');
    RegisteredThen(code, i, locals, {}, made');
  }

  lemma NothingKnown(locals: seq<Symbol>, made: seq<Symbol>)
    ensures IsKnown(None, locals, made)
  {
  }

  lemma PlaceNumbered(pool: Pool, code: Code, d: Symbol, pool': Pool, base: nat, locals: seq<Symbol>)
    requires Numbers(pool', base) && Extends(pool, pool') && Registered(code, locals, {}, pool'.made) && d in pool'.made
    ensures ExprNumbered(pool, Generated(code, d, pool'), base, locals)
  {
  }

  lemma NegationNumbers(t: Type, a: Expr, pool: Pool, base: nat, locals: seq<Symbol>)
    requires Ready(pool) && ExprOk(Negation(t, a)) && ExprNumbered(pool, GenExpr(a, pool), base, locals)
    ensures ExprNumbered(pool, GenExpr(Negation(t, a), pool), base, locals)
  {
    var g := GenExpr(a, pool);
    var (d, pool1) := Created(g.pool, t);
    var pool2 := FreedIfTemporary(pool1, g.place);
    ExprPool(a, pool);
    NegationUnfolds(t, a, pool);
    hide GenExpr, Created, FreedIfTemporary, Numbers, PoolOk, Available, Simple, Registered, IsKnown;
    CreatedNumbers(g.pool, t, base);
    FreedNumbers(pool1, g.place, base);
    NothingKnown(locals, g.pool.made);
    ComputedThen(g.code, UMinus, Plus, d, Some(g.place), None, locals, g.pool.made, pool2.made);
    PlaceNumbered(pool, GenExpr(Negation(t, a), pool).code, d, pool2, base, locals);
  }

  lemma NegationUnfolds(t: Type, a: Expr, pool: Pool)
    ensures var g := GenExpr(a, pool); var (d, pool1) := Created(g.pool, t);
      GenExpr(Negation(t, a), pool) ==
      Generated(g.code + [Simple(UMinus, Plus, Some(d), Some(g.place), None)], d, FreedIfTemporary(pool1, g.place))
  {
    hide Created, FreedIfTemporary, Simple;
  }

  lemma ArithmeticUnfolds(t: Type, k: Kind, a: Expr, b: Expr, pool: Pool)
    ensures var g := GenExpr(a, pool); var h := GenExpr(b, g.pool); var (d, pool1) := Created(h.pool, t);
      GenExpr(Arithmetic(t, k, a, b), pool) ==
      Generated(g.code + h.code + [Simple(Binary, k, Some(d), Some(g.place), Some(h.place))], d,
                FreedIfTemporary(FreedIfTemporary(pool1, g.place), h.place))
  {
    hide Created, FreedIfTemporary, Simple;
  }

  lemma ArithmeticNumbers(t: Type, k: Kind, a: Expr, b: Expr, pool: Pool, base: nat, locals: seq<Symbol>)
    requires Ready(pool) && ExprOk(Arithmetic(t, k, a, b))
    requires var g := GenExpr(a, pool);
              ExprNumbered(pool, g, base, locals) && ExprNumbered(g.pool, GenExpr(b, g.pool), base, locals)
    ensures ExprNumbered(pool, GenExpr(Arithmetic(t, k, a, b), pool), base, locals)
  {
    hide GenExpr, Created, FreedIfTemporary, Numbers, PoolOk, Available, Simple, Registered, IsKnown, ExprOk, Ready,
      Shrinks;
    var g := GenExpr(a, pool);
    var h := GenExpr(b, g.pool);
    var (d, pool1) := Created(h.pool, t);
    var pool2 := FreedIfTemporary(pool1, g.place);
    var pool3 := FreedIfTemporary(pool2, h.place);
    OperandsReady(t, k, a, b, pool);
    ArithmeticUnfolds(t, k, a, b, pool);
    CreatedNumbers(h.pool, t, base);
    FreedNumbers(pool1, g.place, base);
    FreedNumbers(pool2, h.place, base);
    MoreRegistered(g.code, locals, {}, g.pool.made, {}, h.pool.made);
    RegisteredParts(g.code, h.code, locals, {}, h.pool.made);
    KnownLater(Some(g.place), locals, g.pool.made, h.pool.made);
    ComputedThen(g.code + h.code, Binary, k, d, Some(g.place), Some(h.place), locals, h.pool.made, pool3.made);
    PlaceNumbered(pool, GenExpr(Arithmetic(t, k, a, b), pool).code, d, pool3, base, locals);
  }

  lemma OperandsReady(t: Type, k: Kind, a: Expr, b: Expr, pool: Pool)
    requires Ready(pool) && ExprOk(Arithmetic(t, k, a, b))
    ensures var g := GenExpr(a, pool); var h := GenExpr(b, g.pool);
      Ready(h.pool) && IsNumeric(g.place.typ) && IsNumeric(h.place.typ) && IsScalar(t)
  {
    ExprPool(a, pool);
    ExprPool(b, GenExpr(a, pool).pool);
  }

  lemma AddressNumbered(x: Symbol, a: Expr, pool: Pool, base: nat, locals: seq<Symbol>)
    requires Ready(pool) && IsArray(x) && ExprOk(a) && Entered(x, locals) && ExprEntered(a, locals)
              && Numbers(pool, base)
    ensures ExprNumbered(pool, GenAddress(x, a, pool), base, locals)
    decreases a, 1
  {
    ExprNumbers(a, pool, base, locals);
    var g := GenExpr(a, pool);
    var pool1 := FreedIfTemporary(g.pool, g.place);
    var (d, pool2) := Created(pool1, AddrType);
    var pool3 := Retyped(pool2, d, x.elementType);
    ExprPool(a, pool);
    FreedReady(pool, g);
    assert IsKnown(Some(x), locals, g.pool.made);
    assert GenAddress(x, a, pool).pool == pool3;
    hide GenExpr, Created, FreedIfTemporary, Retyped, Numbers, PoolOk, Available, Registered, IsKnown;
    FreedNumbers(g.pool, g.place, base);
    AddressNumbers(pool1, x.elementType, base);
    var w := GenAddress(x, a, pool);
    ComputedThen(g.code, IndexArray, Plus, w.place, Some(g.place), Some(x), locals, g.pool.made, pool3.made);
    PlaceNumbered(pool, w.code, w.place, pool3, base, locals);
  }

  lemma FreedReady(pool: Pool, g: Generated)
    requires Ready(pool) && ExprPlaced(pool, g)
    ensures Ready(FreedIfTemporary(g.pool, g.place))
  {
    Released(pool, g.pool, g.place);
  }

  lemma ElementNumbers(x: Symbol, a: Expr, pool: Pool, base: nat, locals: seq<Symbol>)
    requires Ready(pool) && IsArray(x) && ExprOk(a) && ExprNumbered(pool, GenAddress(x, a, pool), base, locals)
    ensures ExprNumbered(pool, GenExpr(Element(x, a), pool), base, locals)
  {
    var g := GenAddress(x, a, pool);
    var (d, pool1) := Created(g.pool, x.elementType);
    AddressPool(x, a, pool);
    ElementUnfolds(x, a, pool);
    hide GenExpr, GenAddress, Created, Numbers, PoolOk, Available, Simple, Registered, IsKnown;
    CreatedNumbers(g.pool, x.elementType, base);
    NothingKnown(locals, g.pool.made);
    ComputedThen(g.code, Deref, Plus, d, Some(g.place), None, locals, g.pool.made, pool1.made);
    PlaceNumbered(pool, GenExpr(Element(x, a), pool).code, d, pool1, base, locals);
  }

  // ---------------------------------------------------------------- tests and statements

  /** What the code of a test or a statement leaves behind. */
  ghost predicate CodeNumbered(
      pool: Pool, code: Code, pool': Pool, base: nat, locals: seq<Symbol>, targets: set<Symbol>)
  {
    Numbers(pool', base) && Extends(pool, pool') && Registered(code, locals, targets, pool'.made)
  }

  /** Two parts, one after the other. */
  lemma NumberedParts(
      pool: Pool, a: Code, pool1: Pool, b: Code, pool2: Pool, base: nat, locals: seq<Symbol>,
      t1: set<Symbol>, t2: set<Symbol>, targets: set<Symbol>)
    requires CodeNumbered(pool, a, pool1, base, locals, t1) && CodeNumbered(pool1, b, pool2, base, locals, t2)
    requires t1 <= targets && t2 <= targets
    ensures CodeNumbered(pool, a + b, pool2, base, locals, targets)
  {
    hide Numbers, Registered;
    MoreRegistered(a, locals, t1, pool1.made, targets, pool2.made);
    MoreRegistered(b, locals, t2, pool2.made, targets, pool2.made);
    RegisteredParts(a, b, locals, targets, pool2.made);
  }

  lemma PlainNumbered(pool: Pool, i: Instruction, base: nat, locals: seq<Symbol>)
    requires Numbers(pool, base) && i.dest.None? && i.src1.None? && i.src2.None?
    ensures CodeNumbered(pool, [i], pool, base, locals, {})
  {
  }

  /** A label or a jump behind the code. */
  lemma NumberedThen(
      pool: Pool, a: Code, pool1: Pool, i: Instruction, base: nat, locals: seq<Symbol>, targets: set<Symbol>)
    requires CodeNumbered(pool, a, pool1, base, locals, targets) && i.dest.None? && i.src1.None? && i.src2.None?
    ensures CodeNumbered(pool, a + [i], pool1, base, locals, targets)
  {
    hide Numbers, Registered;
    PlainNumbered(pool1, i, base, locals);
    NumberedParts(pool, a, pool1, [i], pool1, base, locals, targets, {}, targets);
  }

  lemma LabelsNumber(pool: Pool, n: nat, base: nat)
    requires Numbers(pool, base)
    ensures Numbers(WithLabels(pool, n), base) && Extends(pool, WithLabels(pool, n))
              && WithLabels(pool, n).made == pool.made
  {
    SameNumbers(pool, WithLabels(pool, n), base);
  }

  lemma ComparisonNumbers(
      k: Kind, l: Expr, r: Expr, ifTrue: nat, ifFalse: nat, pool: Pool, base: nat, locals: seq<Symbol>)
    requires Ready(pool) && TestOk(Comparison(k, l, r)) && TestEntered(Comparison(k, l, r), locals)
              && Numbers(pool, base)
    ensures var t := GenTest(Comparison(k, l, r), ifTrue, ifFalse, pool);
              CodeNumbered(pool, t.code, t.pool, base, locals, {})
  {
    var g := GenExpr(l, pool);
    var h := GenExpr(r, g.pool);
    var i, j := JumpIf(k, g.place, h.place, ifTrue), JumpTo(ifFalse);
    ExprPool(l, pool);
    ExprNumbers(l, pool, base, locals);
    ExprNumbers(r, g.pool, base, locals);
    ComparisonFacts(k, l, r, ifTrue, ifFalse, pool);
    assert GenTest(Comparison(k, l, r), ifTrue, ifFalse, pool).pool == h.pool;
    hide GenExpr, GenTest, Numbers, Registered, PoolOk, TestOk, IsKnown;
    MoreRegistered(g.code, locals, {}, g.pool.made, {}, h.pool.made);
    RegisteredParts(g.code, h.code, locals, {}, h.pool.made);
    KnownLater(Some(g.place), locals, g.pool.made, h.pool.made);
    NothingKnown(locals, h.pool.made);
    RegisteredThen(g.code + h.code, i, locals, {}, h.pool.made);
    RegisteredThen(g.code + h.code + [i], j, locals, {}, h.pool.made);
    assert g.code + h.code + [i] + [j] == g.code + h.code + [i, j];
  }

  lemma {:induction false} TestNumbers(b: Test, ifTrue: nat, ifFalse: nat, pool: Pool, base: nat, locals: seq<Symbol>)
    requires Ready(pool) && TestOk(b) && TestEntered(b, locals) && Numbers(pool, base)
    ensures var t := GenTest(b, ifTrue, ifFalse, pool); CodeNumbered(pool, t.code, t.pool, base, locals, {})
  {
    hide Ready, Numbers, Registered, CodeNumbered, Extends;
    match b
    case Comparison(k, l, r) =>
      ComparisonNumbers(k, l, r, ifTrue, ifFalse, pool, base, locals);
    case And(l, r) =>
      var next, pool1 := pool.nextLabel, WithLabels(pool, 1);
      LabelsTaken(pool, 1);
      LabelsNumber(pool, 1, base);
      TestPool(l, next, ifFalse, pool1);
      var g := GenTest(l, next, ifFalse, pool1);
      TestNumbers(l, next, ifFalse, pool1, base, locals);
      NumberedLast(pool1, g.code, g.pool, base, locals, {});
      TestNumbers(r, ifTrue, ifFalse, g.pool, base, locals);
      TwoTestsNumbered(pool, pool1, g.code, g.pool, next, GenTest(b, ifTrue, ifFalse, pool).pool,
                       GenTest(r, ifTrue, ifFalse, g.pool).code, base, locals);
    case Or(l, r) =>
      var next, pool1 := pool.nextLabel, WithLabels(pool, 1);
      LabelsTaken(pool, 1);
      LabelsNumber(pool, 1, base);
      TestPool(l, ifTrue, next, pool1);
      var g := GenTest(l, ifTrue, next, pool1);
      TestNumbers(l, ifTrue, next, pool1, base, locals);
      NumberedLast(pool1, g.code, g.pool, base, locals, {});
      TestNumbers(r, ifTrue, ifFalse, g.pool, base, locals);
      TwoTestsNumbered(pool, pool1, g.code, g.pool, next, GenTest(b, ifTrue, ifFalse, pool).pool,
                       GenTest(r, ifTrue, ifFalse, g.pool).code, base, locals);
    case Not(a) =>
      TestNumbers(a, ifFalse, ifTrue, pool, base, locals);
  }

  lemma NumberedLast(pool: Pool, code: Code, pool': Pool, base: nat, locals: seq<Symbol>, targets: set<Symbol>)
    requires CodeNumbered(pool, code, pool', base, locals, targets)
    ensures Numbers(pool', base)
  {
  }

  /** The pool before may be an earlier one. */
  lemma NumberedFrom(
      pool: Pool, pool1: Pool, code: Code, pool2: Pool, base: nat, locals: seq<Symbol>, targets: set<Symbol>)
    requires CodeNumbered(pool1, code, pool2, base, locals, targets) && pool1.made == pool.made
    ensures CodeNumbered(pool, code, pool2, base, locals, targets)
  {
    hide Numbers, Registered;
  }

  lemma TwoTestsNumbered(
      pool: Pool, pool1: Pool, a: Code, pool2: Pool, l: nat, pool3: Pool, b: Code, base: nat, locals: seq<Symbol>)
    requires CodeNumbered(pool1, a, pool2, base, locals, {}) && CodeNumbered(pool2, b, pool3, base, locals, {})
    requires pool1.made == pool.made
    ensures CodeNumbered(pool, a + [LabelHere(l)] + b, pool3, base, locals, {})
  {
    hide CodeNumbered;
    NumberedThen(pool1, a, pool2, LabelHere(l), base, locals, {});
    NumberedParts(pool1, a + [LabelHere(l)], pool2, b, pool3, base, locals, {}, {}, {});
    NumberedFrom(pool, pool1, a + [LabelHere(l)] + b, pool3, base, locals, {});
  }

  lemma SetVariableNumbers(x: Symbol, e: Expr, pool: Pool, base: nat, locals: seq<Symbol>)
    requires Ready(pool) && StmtOk(SetVariable(x, e)) && ExprEntered(e, locals) && Numbers(pool, base)
    ensures var w := GenStmt(SetVariable(x, e), pool); CodeNumbered(pool, w.code, w.pool, base, locals, {x})
  {
    var g := GenExpr(e, pool);
    var i := Simple(Assign, Plus, Some(x), Some(g.place), None);
    ExprPool(e, pool);
    ExprNumbers(e, pool, base, locals);
    SetVariableCode(x, e, pool);
    assert GenStmt(SetVariable(x, e), pool).pool == FreedIfTemporary(g.pool, g.place);
    hide GenExpr, GenStmt, Numbers, Registered, PoolOk, FreedIfTemporary;
    FreedNumbers(g.pool, g.place, base);
    MoreRegistered(g.code, locals, {}, g.pool.made, {x}, g.pool.made);
    RegisteredThen(g.code, i, locals, {x}, g.pool.made);
  }

  lemma SetElementNumbers(x: Symbol, a: Expr, e: Expr, pool: Pool, base: nat, locals: seq<Symbol>)
    requires Ready(pool) && StmtOk(SetElement(x, a, e)) && Numbers(pool, base)
    requires Entered(x, locals) && ExprEntered(a, locals) && ExprEntered(e, locals)
    ensures var w := GenStmt(SetElement(x, a, e), pool); CodeNumbered(pool, w.code, w.pool, base, locals, {})
  {
    var g := GenAddress(x, a, pool);
    var h := GenExpr(e, g.pool);
    var i := Simple(Assign, Plus, Some(g.place), Some(h.place), None);
    AddressPool(x, a, pool);
    ExprPool(e, g.pool);
    AddressNumbered(x, a, pool, base, locals);
    ExprNumbers(e, g.pool, base, locals);
    SetElementCode(x, a, e, pool);
    assert GenStmt(SetElement(x, a, e), pool).pool == FreedIfTemporary(h.pool, h.place);
    hide GenExpr, GenAddress, GenStmt, Numbers, Registered, PoolOk, FreedIfTemporary, Available;
    FreedNumbers(h.pool, h.place, base);
    MoreRegistered(g.code, locals, {}, g.pool.made, {}, h.pool.made);
    RegisteredParts(g.code, h.code, locals, {}, h.pool.made);
    RegisteredThen(g.code + h.code, i, locals, {}, h.pool.made);
  }

  /** What the code of arguments leaves behind. */
  ghost predicate ArgumentsNumbered(pool: Pool, g: GeneratedArguments, base: nat, locals: seq<Symbol>) {
    && Numbers(g.pool, base) && Extends(pool, g.pool) && Registered(g.code, locals, {}, g.pool.made)
    && forall x :: x in g.places ==> IsKnown(Some(x), locals, g.pool.made) && (x.isTemporary ==> x in g.pool.made)
  }

  lemma ArgumentNumbers(e: Expr, pool: Pool, base: nat, locals: seq<Symbol>)
    requires Ready(pool) && ArgumentOk(e) && ExprEntered(e, locals) && Numbers(pool, base)
    ensures ExprNumbered(pool, GenExpr(e, pool), base, locals)
  {
    if ExprOk(e) {
      ExprNumbers(e, pool, base, locals);
    }
  }

  lemma {:induction false} ArgumentsNumber(args: seq<Expr>, pool: Pool, base: nat, locals: seq<Symbol>)
    requires Ready(pool) && Numbers(pool, base)
    requires forall e :: e in args ==> ArgumentOk(e) && ExprEntered(e, locals)
    ensures ArgumentsNumbered(pool, GenArguments(args, pool), base, locals)
  {
    if args != [] {
      var g := GenExpr(args[0], pool);
      ArgumentPool(args[0], pool);
      ArgumentNumbers(args[0], pool, base, locals);
      hide GenExpr, Numbers, Registered, IsKnown, PoolOk, Shrinks, ArgumentOk, ExprEntered;
      ArgumentsNumber(args[1..], g.pool, base, locals);
      MoreNumbered(pool, g, GenArguments(args[1..], g.pool), base, locals);
    }
  }

  lemma MoreNumbered(pool: Pool, g: Generated, r: GeneratedArguments, base: nat, locals: seq<Symbol>)
    requires ExprNumbered(pool, g, base, locals) && ArgumentsNumbered(g.pool, r, base, locals)
    ensures ArgumentsNumbered(pool, GeneratedArguments(g.code + r.code, [g.place] + r.places, r.pool), base, locals)
  {
    hide Numbers, Registered, IsKnown;
    MoreRegistered(g.code, locals, {}, g.pool.made, {}, r.pool.made);
    RegisteredParts(g.code, r.code, locals, {}, r.pool.made);
    KnownLater(Some(g.place), locals, g.pool.made, r.pool.made);
  }

  lemma {:induction false} ParamsRegistered(places: seq<Symbol>, locals: seq<Symbol>, made: seq<Symbol>)
    requires forall x :: x in places ==> IsKnown(Some(x), locals, made)
    ensures Registered(ParamCode(places), locals, {}, made)
  {
    if places != [] {
      ParamsRegistered(places[1..], locals, made);
      NothingKnown(locals, made);
      RegisteredThen(ParamCode(places[1..]), Named(Param, places[0]), locals, {}, made);
    }
  }

  lemma {:induction false} AllFreedNumbers(pool: Pool, places: seq<Symbol>, base: nat)
    requires Numbers(pool, base) && forall x :: x in places && x.isTemporary ==> x in pool.made && IsNumeric(x.typ)
    ensures var pool' := AllFreed(pool, places); Numbers(pool', base) && pool'.made == pool.made
    decreases |places|
  {
    if places != [] {
      if places[0].isTemporary {
        FreedNumbers(pool, places[0], base);
      }
      hide Numbers, FreedIfTemporary;
      assert FreedIfTemporary(pool, places[0]).made == pool.made by {
        FreedKeepsMade(pool, places[0]);
      }
      AllFreedNumbers(FreedIfTemporary(pool, places[0]), places[1..], base);
    }
  }

  lemma FreedKeepsMade(pool: Pool, x: Symbol)
    ensures FreedIfTemporary(pool, x).made == pool.made && (!x.isTemporary ==> FreedIfTemporary(pool, x) == pool)
  {
  }

  lemma InvokeNumbers(
      f: Symbol, args: seq<Expr>, x: Option<Symbol>, t: Type, pool: Pool, base: nat, locals: seq<Symbol>)
    requires Ready(pool) && StmtOk(Invoke(f, args, x, t)) && StmtEntered(Invoke(f, args, x, t), locals)
    requires Numbers(pool, base)
    ensures var w := GenStmt(Invoke(f, args, x, t), pool);
      CodeNumbered(pool, w.code, w.pool, base, locals, Targets(Invoke(f, args, x, t)))
  {
    hide *;
    var g, w, targets := GenArguments(args, pool), GenStmt(Invoke(f, args, x, t), pool), Targets(Invoke(f, args, x, t));
    var pool1 := AllFreed(g.pool, g.places);
    InvokeFacts(f, args, x, t, pool, locals);
    ArgumentsNumber(args, pool, base, locals);
    NumberedPlaces(pool, g, base, locals);
    AllFreedNumbers(g.pool, g.places, base);
    InvokeParts(f, args, x, t, pool);
    ParamsRegistered(g.places, locals, g.pool.made);
    CallIsLast(f, g.places);
    CallRegistered(f, locals, g.pool.made);
    RegisteredThen(ParamCode(g.places), Named(Call, f), locals, {}, g.pool.made);
    RegisteredParts(g.code, CallCode(f, g.places), locals, {}, g.pool.made);
    if x.Some? {
      var (d, pool2) := Created(pool1, t);
      ResultPlace(f, args, x, t, pool);
      NumericIsScalar(t, pool1, pool2);
      CreatedNumbers(pool1, t, base);
      FreedNumbers(pool2, d, base);
      ReceiveRegistered(g.code + CallCode(f, g.places), x.value, d, locals, g.pool.made, pool2.made);
      CodeIsNumberedBy(pool, w, g.pool, pool2, base, locals, targets);
    } else {
      CodeIsNumberedBy(pool, w, g.pool, g.pool, base, locals, targets);
    }
  }

  lemma NumericIsScalar(t: Type, pool: Pool, pool': Pool)
    requires IsNumeric(t)
    ensures IsScalar(t) && (Extends(pool, pool') ==> pool.made <= pool'.made)
  {
  }

  lemma InvokeFacts(f: Symbol, args: seq<Expr>, x: Option<Symbol>, t: Type, pool: Pool, locals: seq<Symbol>)
    requires Ready(pool) && StmtOk(Invoke(f, args, x, t)) && StmtEntered(Invoke(f, args, x, t), locals)
    ensures IsFunctionName(f) && forall e :: e in args ==> ArgumentOk(e) && ExprEntered(e, locals)
    ensures var g, w := GenArguments(args, pool), GenStmt(Invoke(f, args, x, t), pool);
      var pool1 := AllFreed(g.pool, g.places);
      && (forall y :: y in g.places && y.isTemporary ==> IsNumeric(y.typ))
      && (x.None? ==> w.pool == pool1 && Targets(Invoke(f, args, x, t)) == {})
      && (x.Some? ==>
            var (d, pool2) := Created(pool1, t);
            w.pool == FreedIfTemporary(pool2, d) && Targets(Invoke(f, args, x, t)) == {x.value})
  {
    InvokeUnfolds(f, args, x, t, pool);
    ArgumentsPool(args, pool);
    hide GenArguments, GenStmt, PoolOk, Available, AllFreed, Shrinks, Created, FreedIfTemporary, Pending;
  }

  lemma NumberedPlaces(pool: Pool, g: GeneratedArguments, base: nat, locals: seq<Symbol>)
    requires ArgumentsNumbered(pool, g, base, locals)
    ensures Numbers(g.pool, base) && Extends(pool, g.pool) && Registered(g.code, locals, {}, g.pool.made)
    ensures forall x :: x in g.places ==> IsKnown(Some(x), locals, g.pool.made) && (x.isTemporary ==> x in g.pool.made)
  {
  }

  lemma CallRegistered(f: Symbol, locals: seq<Symbol>, made: seq<Symbol>)
    requires IsFunctionName(f)
    ensures IsRegistered(Named(Call, f), locals, {}, made)
  {
  }

  lemma ReceiveRegistered(
      code: Code, x: Symbol, d: Symbol, locals: seq<Symbol>, made: seq<Symbol>, made': seq<Symbol>)
    requires Registered(code, locals, {}, made) && made <= made' && d in made' && IsNumeric(d.typ)
    ensures Registered(code
              + [Simple(Retrieve, Plus, Some(d), None, None), Simple(Assign, Plus, Some(x), Some(d), None)],
                       locals, {x}, made')
  {
    var i, j := Simple(Retrieve, Plus, Some(d), None, None), Simple(Assign, Plus, Some(x), Some(d), None);
    assert IsRegistered(i, locals, {x}, made') && IsRegistered(j, locals, {x}, made');
    hide IsRegistered, Registered, Simple;
    MoreRegistered(code, locals, {}, made, {x}, made');
    RegisteredThen(code, i, locals, {x}, made');
    RegisteredThen(code + [i], j, locals, {x}, made');
    assert code + [i] + [j] == code + [i, j];
  }

  lemma CodeIsNumberedBy(
      pool: Pool, w: GeneratedCode, pool1: Pool, pool2: Pool, base: nat, locals: seq<Symbol>, targets: set<Symbol>)
    requires Extends(pool, pool1) && pool1.made <= pool2.made == w.pool.made && Numbers(w.pool, base)
    requires Registered(w.code, locals, targets, w.pool.made)
    ensures CodeNumbered(pool, w.code, w.pool, base, locals, targets)
  {
    hide Numbers, Registered;
  }

  lemma ExitNumbers(f: Symbol, t: Type, e: Option<Expr>, pool: Pool, base: nat, locals: seq<Symbol>)
    requires Ready(pool) && StmtOk(Exit(f, t, e)) && StmtEntered(Exit(f, t, e), locals) && Numbers(pool, base)
    ensures var w := GenStmt(Exit(f, t, e), pool); CodeNumbered(pool, w.code, w.pool, base, locals, {})
  {
    if e.Some? {
      var g := GenExpr(e.value, pool);
      ExprPool(e.value, pool);
      ExprNumbers(e.value, pool, base, locals);
      ExitUnfolds(f, t, e.value, pool);
      hide GenExpr, GenStmt, PoolOk, Available, Created, Shrinks, ExprNumbered, CodeNumbered;
      ResultNumbered(f, t, g, pool, base, locals);
    }
  }

  lemma ResultNumbered(f: Symbol, t: Type, g: Generated, pool: Pool, base: nat, locals: seq<Symbol>)
    requires IsFunctionName(f) && IsNumeric(t) && Ready(g.pool) && ExprNumbered(pool, g, base, locals)
    ensures var (d, pool1) := Created(g.pool, t);
      CodeNumbered(pool, [Named(Leave, f)] + g.code
        + [Simple(Assign, Plus, Some(d), Some(g.place), None), Named(Return, d)], pool1, base, locals, {})
  {
    var (d, pool1) := Created(g.pool, t);
    var i, j := Simple(Assign, Plus, Some(d), Some(g.place), None), Named(Return, d);
    hide PoolOk, Available, Created, Named, Simple, Registered, IsRegistered, IsKnown, Numbers;
    CreatedNumbers(g.pool, t, base);
    LeaveRegistered(f, locals, pool1.made);
    ReturnRegistered(d, locals, pool1.made);
    NothingKnown(locals, g.pool.made);
    ComputedThen(g.code, Assign, Plus, d, Some(g.place), None, locals, g.pool.made, pool1.made);
    RegisteredParts([Named(Leave, f)], g.code + [i], locals, {}, pool1.made);
    RegisteredThen([Named(Leave, f)] + (g.code + [i]), j, locals, {}, pool1.made);
    assert [Named(Leave, f)] + (g.code + [i]) + [j] == [Named(Leave, f)] + g.code + [i, j];
  }

  lemma LeaveRegistered(f: Symbol, locals: seq<Symbol>, made: seq<Symbol>)
    requires IsFunctionName(f)
    ensures Registered([Named(Leave, f)], locals, {}, made)
  {
  }

  lemma ReturnRegistered(d: Symbol, locals: seq<Symbol>, made: seq<Symbol>)
    requires d in made
    ensures IsRegistered(Named(Return, d), locals, {}, made)
  {
  }

  /** The code of a statement computes temporaries with entries and ids of their own, and its targets. */
  lemma {:induction false} StmtNumbers(st: Stmt, pool: Pool, base: nat, locals: seq<Symbol>)
    requires Ready(pool) && StmtOk(st) && StmtEntered(st, locals) && Numbers(pool, base)
    ensures var w := GenStmt(st, pool); CodeNumbered(pool, w.code, w.pool, base, locals, Targets(st))
    decreases st, 1
  {
    hide Ready, Numbers, Registered, CodeNumbered, Extends;
    match st
    case Nothing =>
      NothingNumbered(pool, base, locals);
    case SetVariable(x, e) =>
      SetVariableNumbers(x, e, pool, base, locals);
    case SetElement(x, a, e) =>
      SetElementNumbers(x, a, e, pool, base, locals);
    case Branch(b, s, e) =>
      BranchNumbers(b, s, e, pool, base, locals);
    case While(b, s) =>
      WhileNumbers(b, s, pool, base, locals);
    case For(i, b, u, s) =>
      ForNumbers(i, b, u, s, pool, base, locals);
    case Invoke(f, args, x, t) =>
      InvokeNumbers(f, args, x, t, pool, base, locals);
    case Exit(f, t, e) =>
      ExitNumbers(f, t, e, pool, base, locals);
    case Sequence(a, b) =>
      var g := GenStmt(a, pool);
      var h := GenStmt(b, g.pool);
      StmtPool(a, pool);
      StmtNumbers(a, pool, base, locals);
      NumberedLast(pool, g.code, g.pool, base, locals, Targets(a));
      StmtNumbers(b, g.pool, base, locals);
      NumberedParts(pool, g.code, g.pool, h.code, h.pool, base, locals, Targets(a), Targets(b), Targets(st));
  }

  lemma NothingNumbered(pool: Pool, base: nat, locals: seq<Symbol>)
    requires Numbers(pool, base)
    ensures CodeNumbered(pool, [], pool, base, locals, {})
  {
  }

  lemma {:induction false} BranchNumbers(b: Test, s: Stmt, e: Option<Stmt>, pool: Pool, base: nat, locals: seq<Symbol>)
    requires Ready(pool) && StmtOk(Branch(b, s, e)) && StmtEntered(Branch(b, s, e), locals) && Numbers(pool, base)
    ensures var w := GenStmt(Branch(b, s, e), pool);
              CodeNumbered(pool, w.code, w.pool, base, locals, Targets(Branch(b, s, e)))
    decreases Branch(b, s, e), 0
  {
    hide *;
    var l, pool1, targets := pool.nextLabel, WithLabels(pool, 3), Targets(Branch(b, s, e));
    var ifFalse := if e.Some? then l + 1 else l + 2;
    var t := GenTest(b, l, ifFalse, pool1);
    var g := GenStmt(s, t.pool);
    GeneratedLabels.BranchFactsOfPools(b, s, e, pool);
    PartsEntered(b, s, e, locals);
    LabelsNumber(pool, 3, base);
    TestNumbers(b, l, ifFalse, pool1, base, locals);
    NumberedLast(pool1, t.code, t.pool, base, locals, {});
    StmtNumbers(s, t.pool, base, locals);
    NumberedLast(t.pool, g.code, g.pool, base, locals, Targets(s));
    PlainParts(l);
    PlainParts(l + 1);
    PlainParts(l + 2);
    BranchUnfolds(b, s, e, pool);
    var before := t.code + [LabelHere(l)];
    NumberedThen(pool1, t.code, t.pool, LabelHere(l), base, locals, {});
    NumberedParts(pool1, before, t.pool, g.code, g.pool, base, locals, {}, Targets(s), targets);
    if e.Some? {
      var h := GenStmt(e.value, g.pool);
      StmtNumbers(e.value, g.pool, base, locals);
      ElseNumbered(pool1, before + g.code, g.pool, h.code, h.pool, l, base, locals, targets, Targets(e.value));
      NumberedFrom(pool, pool1, GenStmt(Branch(b, s, e), pool).code, h.pool, base, locals, targets);
    } else {
      NumberedThen(pool1, before + g.code, g.pool, LabelHere(l + 2), base, locals, targets);
      NumberedFrom(pool, pool1, GenStmt(Branch(b, s, e), pool).code, g.pool, base, locals, targets);
    }
  }

  lemma PartsEntered(b: Test, s: Stmt, e: Option<Stmt>, locals: seq<Symbol>)
    requires StmtEntered(Branch(b, s, e), locals)
    ensures TestEntered(b, locals) && StmtEntered(s, locals) && (e.Some? ==> StmtEntered(e.value, locals))
    ensures Targets(s) <= Targets(Branch(b, s, e)) && (e.Some? ==> Targets(e.value) <= Targets(Branch(b, s, e)))
  {
  }

  lemma PlainParts(l: nat)
    ensures LabelHere(l).dest.None? && LabelHere(l).src1.None? && LabelHere(l).src2.None?
    ensures JumpTo(l).dest.None? && JumpTo(l).src1.None? && JumpTo(l).src2.None?
  {
  }

  lemma ElseNumbered(
      pool: Pool, a: Code, pool1: Pool, h: Code, pool2: Pool, l: nat, base: nat, locals: seq<Symbol>,
      targets: set<Symbol>, others: set<Symbol>)
    requires CodeNumbered(pool, a, pool1, base, locals, targets) && CodeNumbered(pool1, h, pool2, base, locals, others)
    requires others <= targets
    ensures CodeNumbered(pool, a + [JumpTo(l + 2), LabelHere(l + 1)] + h
              + [LabelHere(l + 2)], pool2, base, locals, targets)
  {
    hide *;
    PlainParts(l + 1);
    PlainParts(l + 2);
    NumberedThen(pool, a, pool1, JumpTo(l + 2), base, locals, targets);
    NumberedThen(pool, a + [JumpTo(l + 2)], pool1, LabelHere(l + 1), base, locals, targets);
    assert a + [JumpTo(l + 2)] + [LabelHere(l + 1)] == a + [JumpTo(l + 2), LabelHere(l + 1)];
    NumberedParts(pool, a + [JumpTo(l + 2), LabelHere(l + 1)], pool1, h, pool2, base, locals, targets, others, targets);
    NumberedThen(pool, a + [JumpTo(l + 2), LabelHere(l + 1)] + h, pool2, LabelHere(l + 2), base, locals, targets);
  }

  /** A loop, from the jump to its condition to the label behind it. */
  lemma LoopNumbered(
      l: nat, pool: Pool, b: Code, pool1: Pool, u: Code, pool2: Pool, t: Code, pool3: Pool, base: nat,
      locals: seq<Symbol>,
      t1: set<Symbol>, t2: set<Symbol>, targets: set<Symbol>)
    requires CodeNumbered(pool, b, pool1, base, locals, t1) && CodeNumbered(pool1, u, pool2, base, locals, t2)
    requires CodeNumbered(pool2, t, pool3, base, locals, {}) && t1 <= targets && t2 <= targets && Numbers(pool, base)
    ensures CodeNumbered(pool, LoopPieces(l, b, u, t), pool3, base, locals, targets)
  {
    var j, e, z := [JumpTo(l + 1), LabelHere(l)], [LabelHere(l + 1)], [LabelHere(l + 2)];
    assert LoopPieces(l, b, u, t) == j + b + u + e + t + z;
    hide *;
    PlainParts(l);
    PlainParts(l + 1);
    PlainParts(l + 2);
    PlainNumbered(pool, JumpTo(l + 1), base, locals);
    NumberedThen(pool, [JumpTo(l + 1)], pool, LabelHere(l), base, locals, {});
    assert [JumpTo(l + 1)] + [LabelHere(l)] == j;
    NumberedParts(pool, j, pool, b, pool1, base, locals, {}, t1, targets);
    NumberedParts(pool, j + b, pool1, u, pool2, base, locals, targets, t2, targets);
    NumberedThen(pool, j + b + u, pool2, LabelHere(l + 1), base, locals, targets);
    NumberedParts(pool, j + b + u + e, pool2, t, pool3, base, locals, targets, {}, targets);
    NumberedThen(pool, j + b + u + e + t, pool3, LabelHere(l + 2), base, locals, targets);
  }

  lemma {:induction false} WhileNumbers(b: Test, s: Stmt, pool: Pool, base: nat, locals: seq<Symbol>)
    requires Ready(pool) && StmtOk(While(b, s)) && StmtEntered(While(b, s), locals) && Numbers(pool, base)
    ensures var w := GenStmt(While(b, s), pool); CodeNumbered(pool, w.code, w.pool, base, locals, Targets(s))
    decreases While(b, s), 0
  {
    hide *;
    var l, pool1 := pool.nextLabel, WithLabels(pool, 3);
    var g := GenStmt(s, pool1);
    var t := GenTest(b, l, l + 2, g.pool);
    WhileReady(b, s, pool, locals);
    LabelsNumber(pool, 3, base);
    StmtNumbers(s, pool1, base, locals);
    NumberedLast(pool1, g.code, g.pool, base, locals, Targets(s));
    TestNumbers(b, l, l + 2, g.pool, base, locals);
    WhileUnfolds(b, s, pool);
    WhilePieces(l, g.code, t.code);
    NothingNumbered(g.pool, base, locals);
    LoopNumbered(l, pool1, g.code, g.pool, [], g.pool, t.code, t.pool, base, locals, Targets(s), {}, Targets(s));
    NumberedFrom(pool, pool1, GenStmt(While(b, s), pool).code, t.pool, base, locals, Targets(s));
  }

  lemma WhileReady(b: Test, s: Stmt, pool: Pool, locals: seq<Symbol>)
    requires Ready(pool) && StmtOk(While(b, s)) && StmtEntered(While(b, s), locals)
    ensures Ready(WithLabels(pool, 3)) && Ready(GenStmt(s, WithLabels(pool, 3)).pool)
    ensures StmtOk(s) && TestOk(b) && StmtEntered(s, locals) && TestEntered(b, locals)
  {
    LabelsTaken(pool, 3);
    StmtPool(s, WithLabels(pool, 3));
  }

  lemma WhilePieces(l: nat, g: Code, t: Code)
    ensures LoopPieces(l, g, [], t) == [JumpTo(l + 1), LabelHere(l)] + g + [LabelHere(l + 1)] + t + [LabelHere(l + 2)]
  {
    NothingBetween([JumpTo(l + 1), LabelHere(l)] + g);
    hide JumpTo, LabelHere;
  }

  lemma ConditionNumbers(b: Option<Test>, body: nat, after: nat, pool: Pool, base: nat, locals: seq<Symbol>)
    requires Ready(pool) && (b.Some? ==> TestOk(b.value) && TestEntered(b.value, locals)) && Numbers(pool, base)
    ensures var t := GenCondition(b, body, after, pool); CodeNumbered(pool, t.code, t.pool, base, locals, {})
  {
    if b.Some? {
      TestNumbers(b.value, body, after, pool, base, locals);
    } else {
      PlainNumbered(pool, JumpTo(body), base, locals);
    }
  }

  lemma {:induction false} ForNumbers(
      i: Stmt, b: Option<Test>, u: Stmt, s: Stmt, pool: Pool, base: nat, locals: seq<Symbol>)
    requires Ready(pool) && StmtOk(For(i, b, u, s)) && StmtEntered(For(i, b, u, s), locals) && Numbers(pool, base)
    ensures var w := GenStmt(For(i, b, u, s), pool);
              CodeNumbered(pool, w.code, w.pool, base, locals, Targets(For(i, b, u, s)))
    decreases For(i, b, u, s), 0
  {
    var l, pool1, targets := pool.nextLabel, WithLabels(pool, 3), Targets(For(i, b, u, s));
    var f := GenStmt(i, pool1);
    var g := GenStmt(s, f.pool);
    var h := GenStmt(u, g.pool);
    var t := GenCondition(b, l, l + 2, h.pool);
    LabelsTaken(pool, 3);
    LabelsNumber(pool, 3, base);
    StmtPool(i, pool1);
    StmtPool(s, f.pool);
    StmtPool(u, g.pool);
    StmtNumbers(i, pool1, base, locals);
    StmtNumbers(s, f.pool, base, locals);
    StmtNumbers(u, g.pool, base, locals);
    ConditionNumbers(b, l, l + 2, h.pool, base, locals);
    ForUnfolds(i, b, u, s, pool);
    assert Targets(i) <= targets && Targets(u) <= targets && Targets(s) <= targets;
    hide *;
    NumberedLast(pool1, f.code, f.pool, base, locals, Targets(i));
    LoopNumbered(l, f.pool, g.code, g.pool, h.code, h.pool, t.code, t.pool, base, locals, Targets(s), Targets(u),
      targets);
    NumberedParts(pool1, f.code, f.pool, LoopPieces(l, g.code, h.code, t.code), t.pool, base, locals, Targets(i),
      targets, targets);
    NumberedFrom(pool, pool1, GenStmt(For(i, b, u, s), pool).code, t.pool, base, locals, targets);
  }

  // ---------------------------------------------------------------- functions

  /** The symbol table before any temporary has been made: it holds the local variables of the body. */
  ghost predicate ProgramFits(body: Stmt, locals: seq<Symbol>, base: nat) {
    && TableFits(locals, base) && (forall x :: x in locals ==> !x.isTemporary && x.typ != AddrType)
    && StmtEntered(body, locals)
  }

  /**
   * A local variable that is assigned has an id below the next one, and shares it with none that is assigned or
   * could get a register.
   */
  ghost predicate TargetsApart(body: Stmt, locals: seq<Symbol>, base: nat) {
    && (forall x :: x in Targets(body) && x.scope == Local ==> x in locals && x.id < base)
    && (forall x, y ::
          (x in Targets(body) && x.scope == Local && y in locals && (y in Targets(body) || IsCandidate(y))
            && x.id == y.id)
          ==> x == y)
  }

  /** What the optimizer asks of the local variables of code. */
  ghost predicate Numbered(c: Code, table: seq<Symbol>, total: nat) {
    IdsAreRight(c, total) && OwnTableIds(c, table)
  }

  lemma FunctionRegistered(f: Function, locals: seq<Symbol>, targets: set<Symbol>, made: seq<Symbol>)
    requires FunctionOk(f) && Registered(BodyOf(f).code, locals, targets, made)
    ensures Registered(Linked(FunctionCode(f)), locals, targets, made)
  {
    var a, e, g := Declarations(f.declarations), [Named(Enter, f.header)], BodyOf(f).code;
    forall i | 0 <= i < |a| ensures IsRegistered(a[i], locals, targets, made) {
      assert IsGlobalName(f.declarations[i]);
    }
    assert Registered(a, locals, targets, made) && Registered(e, locals, targets, made);
    hide BodyOf, Registered, Declarations, Named, StmtOk, PoolOk;
    RegisteredParts(a, e, locals, targets, made);
    RegisteredParts(a + e, g, locals, targets, made);
    LinkedRegistered(FunctionCode(f), locals, targets, made);
  }

  lemma LinkedRegistered(c: Code, locals: seq<Symbol>, targets: set<Symbol>, made: seq<Symbol>)
    requires Registered(c, locals, targets, made)
    ensures Registered(Linked(c), locals, targets, made)
  {
    forall p | 0 <= p < |c| ensures IsRegistered(Linked(c)[p], locals, targets, made) {
      assert IsRegistered(c[p], locals, targets, made);
    }
  }

  /** The table with the temporaries behind the variables of the program. */
  lemma TableGrows(body: Stmt, locals: seq<Symbol>, base: nat, pool: Pool)
    requires ProgramFits(body, locals, base) && Numbers(pool, base)
    ensures TableFits(locals + pool.made, pool.nextId)
  {
    var table := locals + pool.made;
    forall i | 0 <= i < |pool.made| ensures IsMade(pool.made[i], base + i) && pool.made[i] in table {
      assert table[|locals| + i] == pool.made[i];
    }
    forall u: nat | u < pool.nextId ensures HasId(table, u) {
      if u < base {
        assert HasId(locals, u);
        var x :| x in locals && !x.isFormal && x.id == u;
        assert x in table;
      } else {
        assert pool.made[u - base] in table;
      }
    }
  }

  /** A local variable that an instruction of the code computes. */
  lemma ComputedOne(c: Code, body: Stmt, locals: seq<Symbol>, base: nat, pool: Pool, p: nat)
    requires ProgramFits(body, locals, base) && TargetsApart(body, locals, base)
    requires Numbers(pool, base) && Registered(c, locals, Targets(body), pool.made)
    requires p < |c| && IsLocal(c[p].dest)
    ensures var d := c[p].dest.value; || (d in pool.made && d.isTemporary && base <= d.id)
                                      || (d in Targets(body) && d in locals && !d.isTemporary && d.id < base)
  {
    assert IsRegistered(c[p], locals, Targets(body), pool.made);
    var d := c[p].dest.value;
    if d in pool.made {
      var i :| 0 <= i < |pool.made| && pool.made[i] == d;
      assert IsMade(pool.made[i], base + i);
    }
  }

  lemma MadeOnce(pool: Pool, base: nat, x: Symbol, y: Symbol)
    requires Numbers(pool, base) && x in pool.made && y in pool.made && x.id == y.id
    ensures x == y
  {
    var i :| 0 <= i < |pool.made| && pool.made[i] == x;
    var j :| 0 <= j < |pool.made| && pool.made[j] == y;
    assert IsMade(pool.made[i], base + i) && IsMade(pool.made[j], base + j);
  }

  lemma CodeIdsApart(c: Code, body: Stmt, locals: seq<Symbol>, base: nat, pool: Pool, p: nat, y: Symbol)
    requires ProgramFits(body, locals, base) && TargetsApart(body, locals, base)
    requires Numbers(pool, base) && Registered(c, locals, Targets(body), pool.made)
    requires p < |c| && IsLocal(c[p].dest) && c[p].dest.value.id == y.id
    requires || (y in pool.made && base <= y.id)
             || (y in locals && (y in Targets(body) || IsCandidate(y)) && (y in Targets(body) || y.id < base))
    ensures c[p].dest == Some(y)
  {
    ComputedOne(c, body, locals, base, pool, p);
    var d := c[p].dest.value;
    if d in pool.made && y in pool.made {
      MadeOnce(pool, base, d, y);
    }
  }

  /** The code of a function, and what is registered of it. */
  lemma FunctionMade(f: Function, locals: seq<Symbol>)
    requires FunctionOk(f) && ProgramFits(f.body, locals, f.pool.nextId)
    requires f.pool.chars == [] && f.pool.ints == [] && f.pool.addrs == [] && f.pool.made == []
    ensures var g := BodyOf(f);
      && Registered(Linked(FunctionCode(f)), locals, Targets(f.body), g.pool.made) && Numbers(g.pool, f.pool.nextId)
      && (forall x :: x in Targets(f.body) ==> x.typ != AddrType && (x.scope == Local ==> x in locals))
      && f.pool.nextId <= g.pool.nextId
  {
    hide *;
    var base, g, st := f.pool.nextId, BodyOf(f), WithReturn(f.body, f.header);
    NothingMade(f.pool);
    BodyIsOk(f);
    BodyTargets(f, locals, base);
    TargetsTyped(f.body);
    TargetsEntered(f.body, locals);
    StmtNumbers(st, f.pool, base, locals);
    BodyRegistered(f, base, locals);
    FunctionRegistered(f, locals, Targets(f.body), g.pool.made);
    NumbersGrow(g.pool, base);
  }

  lemma NumbersGrow(pool: Pool, base: nat)
    requires Numbers(pool, base)
    ensures base <= pool.nextId
  {
  }

  /** The table of a generated function is as the optimizer needs it. */
  lemma FunctionEntered(f: Function, locals: seq<Symbol>)
    requires FunctionOk(f) && ProgramFits(f.body, locals, f.pool.nextId)
    requires f.pool.chars == [] && f.pool.ints == [] && f.pool.addrs == [] && f.pool.made == []
    ensures var pool := BodyOf(f).pool;
      TableFits(locals + pool.made, pool.nextId) && KnownOperands(Linked(FunctionCode(f)), locals + pool.made)
  {
    hide *;
    var base, g, c := f.pool.nextId, BodyOf(f), Linked(FunctionCode(f));
    FunctionMade(f, locals);
    TableGrows(f.body, locals, base, g.pool);
    CodeIsKnown(c, f.body, locals, base, g.pool);
  }

  lemma CodeIsKnown(c: Code, body: Stmt, locals: seq<Symbol>, base: nat, pool: Pool)
    requires ProgramFits(body, locals, base) && Numbers(pool, base) && Registered(c, locals, Targets(body), pool.made)
    requires forall x :: x in Targets(body) ==> x.typ != AddrType && (x.scope == Local ==> x in locals)
    ensures KnownOperands(c, locals + pool.made)
  {
    var table := locals + pool.made;
    hide ProgramFits, Numbers, Registered, Known;
    forall p | 0 <= p < |c| ensures Known(table, c[p].dest) && Known(table, c[p].src1) && Known(table, c[p].src2) {
      OperandsKnown(c, body, locals, base, pool, p);
    }
  }

  /** The ids of a generated function are as the optimizer needs them. */
  lemma FunctionNumbered(f: Function, locals: seq<Symbol>)
    requires FunctionOk(f) && ProgramFits(f.body, locals, f.pool.nextId)
    requires TargetsApart(f.body, locals, f.pool.nextId)
    requires f.pool.chars == [] && f.pool.ints == [] && f.pool.addrs == [] && f.pool.made == []
    ensures var pool := BodyOf(f).pool; Numbered(Linked(FunctionCode(f)), locals + pool.made, pool.nextId)
  {
    hide *;
    var base, g, c := f.pool.nextId, BodyOf(f), Linked(FunctionCode(f));
    FunctionMade(f, locals);
    DestinationsAreNoConstants(f);
    CodeIsNumbered(c, f.body, locals, base, g.pool);
  }

  lemma {:induction false} TargetsEntered(st: Stmt, locals: seq<Symbol>)
    requires StmtEntered(st, locals)
    ensures forall x :: x in Targets(st) && x.scope == Local ==> x in locals
  {
    match st
    case Branch(b, s, e) =>
      TargetsEntered(s, locals);
      if e.Some? {
        TargetsEntered(e.value, locals);
      }
    case While(b, s) =>
      TargetsEntered(s, locals);
    case For(i, b, u, s) =>
      TargetsEntered(i, locals);
      TargetsEntered(u, locals);
      TargetsEntered(s, locals);
    case Sequence(a, b) =>
      TargetsEntered(a, locals);
      TargetsEntered(b, locals);
    case _ =>
  }

  lemma BodyTargets(f: Function, locals: seq<Symbol>, base: nat)
    requires FunctionOk(f) && ProgramFits(f.body, locals, base)
    ensures StmtEntered(WithReturn(f.body, f.header), locals) && StmtOk(f.body) && StmtEntered(f.body, locals)
    ensures Targets(WithReturn(f.body, f.header)) == Targets(f.body)
  {
    ReturnHasNoTargets(f.body, f.header, locals);
  }

  lemma {:induction false} ReturnHasNoTargets(st: Stmt, header: Symbol, locals: seq<Symbol>)
    requires StmtEntered(st, locals)
    ensures StmtEntered(WithReturn(st, header), locals) && Targets(WithReturn(st, header)) == Targets(st)
    decreases st
  {
    if st.Sequence? {
      ReturnHasNoTargets(st.tail, header, locals);
    }
  }

  lemma BodyRegistered(f: Function, base: nat, locals: seq<Symbol>)
    requires var st := WithReturn(f.body, f.header); var w := GenStmt(st, f.pool);
      CodeNumbered(f.pool, w.code, w.pool, base, locals, Targets(st)) && Targets(st) == Targets(f.body)
    ensures Registered(BodyOf(f).code, locals, Targets(f.body), BodyOf(f).pool.made) && Numbers(BodyOf(f).pool, base)
  {
    hide GenStmt, Registered, Numbers, WithReturn, Targets;
  }

  lemma {:induction false} TargetsTyped(st: Stmt)
    requires StmtOk(st)
    ensures forall x :: x in Targets(st) ==> x.typ != AddrType
  {
    match st
    case Nothing =>
    case SetVariable(x, e) =>
    case SetElement(x, a, e) =>
    case Branch(b, s, e) =>
      TargetsTyped(s);
      if e.Some? {
        TargetsTyped(e.value);
      }
    case While(b, s) =>
      TargetsTyped(s);
    case For(i, b, u, s) =>
      TargetsTyped(i);
      TargetsTyped(u);
      TargetsTyped(s);
    case Invoke(_, _, _, _) =>
    case Exit(_, _, _) =>
    case Sequence(a, b) =>
      TargetsTyped(a);
      TargetsTyped(b);
  }

  lemma NothingMade(pool: Pool)
    requires pool.chars == [] && pool.ints == [] && pool.addrs == [] && pool.made == []
    ensures Numbers(pool, pool.nextId)
  {
    assert forall t: Type :: FreeOf(pool, t) == [];
  }

  lemma CodeIsNumbered(c: Code, body: Stmt, locals: seq<Symbol>, base: nat, pool: Pool)
    requires ProgramFits(body, locals, base) && TargetsApart(body, locals, base)
    requires Numbers(pool, base) && Registered(c, locals, Targets(body), pool.made) && NoConstantComputed(c)
    ensures Numbered(c, locals + pool.made, pool.nextId)
  {
    var table := locals + pool.made;
    hide ProgramFits, TargetsApart, Numbers, Registered, IsRegistered, Places;
    forall p, q | 0 <= p < |c| && 0 <= q < |c| && IsLocal(c[p].dest) && IsLocal(c[q].dest)
      ensures IdsApart(c[p].dest.value, c[q].dest.value)
    {
      if c[p].dest.value.id == c[q].dest.value.id {
        ComputedOne(c, body, locals, base, pool, q);
        CodeIdsApart(c, body, locals, base, pool, p, c[q].dest.value);
      }
    }
    forall p, x | 0 <= p < |c| && IsLocal(c[p].dest) && HasNode(table, x) && x.id == c[p].dest.value.id
      ensures Some(x) == c[p].dest
    {
      NodeOfTable(body, locals, base, pool, x);
      CodeIdsApart(c, body, locals, base, pool, p, x);
    }
    forall p | 0 <= p < |c| && RedefinesVariable(c[p]) && c[p].dest.value.scope == Local
      ensures c[p].dest.value.id < Places(pool.nextId)
    {
      IdHasPlace(c, body, locals, base, pool, p);
    }
  }

  ghost predicate NoConstantComputed(c: Code) {
    forall p :: 0 <= p < |c| && c[p].dest.Some? ==> !c[p].dest.value.isConstant
  }

  lemma DestinationsAreNoConstants(f: Function)
    requires FunctionOk(f)
    ensures NoConstantComputed(Linked(FunctionCode(f)))
  {
    FunctionWellFormed(f);
    hide FunctionCode;
    var c := Linked(FunctionCode(f));
    assert forall p :: 0 <= p < |c| ==> WellFormed(c[p]);
  }

  lemma IdHasPlace(c: Code, body: Stmt, locals: seq<Symbol>, base: nat, pool: Pool, p: nat)
    requires ProgramFits(body, locals, base) && TargetsApart(body, locals, base)
    requires Numbers(pool, base) && Registered(c, locals, Targets(body), pool.made) && NoConstantComputed(c)
    requires p < |c| && RedefinesVariable(c[p]) && c[p].dest.value.scope == Local
    ensures c[p].dest.value.id < Places(pool.nextId)
  {
    ComputedOne(c, body, locals, base, pool, p);
    var d := c[p].dest.value;
    if d in pool.made {
      var i :| 0 <= i < |pool.made| && pool.made[i] == d;
      assert IsMade(pool.made[i], base + i);
    }
  }

  lemma NodeOfTable(body: Stmt, locals: seq<Symbol>, base: nat, pool: Pool, x: Symbol)
    requires ProgramFits(body, locals, base) && Numbers(pool, base) && HasNode(locals + pool.made, x)
    ensures (x in pool.made && base <= x.id) || (x in locals && IsCandidate(x) && x.id < base)
  {
    if x in pool.made {
      var i :| 0 <= i < |pool.made| && pool.made[i] == x;
      assert IsMade(pool.made[i], base + i);
    }
  }

  lemma OperandsKnown(c: Code, body: Stmt, locals: seq<Symbol>, base: nat, pool: Pool, p: nat)
    requires ProgramFits(body, locals, base) && Numbers(pool, base) && Registered(c, locals, Targets(body), pool.made)
    requires p < |c| && forall x :: x in Targets(body) ==> x.typ != AddrType && (x.scope == Local ==> x in locals)
    ensures var table := locals + pool.made;
              Known(table, c[p].dest) && Known(table, c[p].src1) && Known(table, c[p].src2)
  {
    var i := c[p];
    assert IsRegistered(i, locals, Targets(body), pool.made);
    forall x | x in pool.made ensures x.isTemporary && x.scope == Local && !x.isConstant && !x.isFormal {
      var j :| 0 <= j < |pool.made| && pool.made[j] == x;
      assert IsMade(pool.made[j], base + j);
    }
  }
}
