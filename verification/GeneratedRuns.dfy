/** Generated code computes what the syntax tree means. */
module GeneratedRuns {
  import opened Instructions
  import opened Semantics
  import opened SyntaxTrees
  import opened TemporaryPool
  import opened CodeGeneration

  // ---------------------------------------------------------------- code in its place

  /** The list holds the code from position `k` on. */
  ghost predicate Holds(c: Code, k: nat, code: Code) {
    k + |code| <= |c| && forall i :: 0 <= i < |code| ==> c[k + i] == code[i]
  }

  lemma HoldsParts(c: Code, k: nat, a: Code, b: Code)
    requires Holds(c, k, a + b)
    ensures Holds(c, k, a) && Holds(c, k + |a|, b)
  {
    forall i | 0 <= i < |a| ensures c[k + i] == a[i] {
      assert (a + b)[i] == a[i];
    }
    forall i | 0 <= i < |b| ensures c[k + |a| + i] == b[i] {
      assert (a + b)[|a| + i] == b[i];
    }
  }

  lemma HoldsLast(c: Code, k: nat, code: Code, i: Instruction)
    requires Holds(c, k, code + [i])
    ensures Holds(c, k, code) && k + |code| < |c| && c[k + |code|] == i
  {
    HoldsParts(c, k, code, [i]);
    assert c[k + |code| + 0] == [i][0];
  }

  ghost predicate UniqueLabels(c: Code) {
    forall p, q ::
      (0 <= p < |c| && 0 <= q < |c| && c[p].op == Label && c[q].op == Label && c[p].jumpTo == c[q].jumpTo) ==> p == q
  }

  /** The position of a label, from `p` on. */
  function Position(c: Code, l: nat, p: nat): nat
    decreases |c| - p
  {
    if p >= |c| || (c[p].op == Label && c[p].jumpTo == l) then p else Position(c, l, p + 1)
  }

  /** Jumps lead to positions instead of labels. */
  function Linked(c: Code): (r: Code)
    ensures |r| == |c|
    ensures forall p :: 0 <= p < |c| ==>
              r[p] == if IsJump(c[p]) then c[p].(jumpTo := Position(c, c[p].jumpTo, 0)) else c[p]
  {
    seq(|c|, p requires 0 <= p < |c| => if IsJump(c[p]) then c[p].(jumpTo := Position(c, c[p].jumpTo, 0)) else c[p])
  }

  lemma {:induction false} PositionFound(c: Code, p: nat, q: nat)
    requires UniqueLabels(c) && p < |c| && c[p].op == Label && q <= p
    ensures Position(c, c[p].jumpTo, q) == p
    decreases p - q
  {
    if q < p {
      PositionFound(c, p, q + 1);
    }
  }

  // ---------------------------------------------------------------- states

  /** The states agree on everything but the pc and temporaries. */
  ghost predicate Sees(m: Machine, s: State, t: State) {
    && t == s.(pc := t.pc, locals := t.locals)
    && forall x: Symbol :: !x.isTemporary ==> Lookup(m, s.locals, x) == Lookup(m, t.locals, x)
  }

  /** Only temporaries that the pool could hand out have changed. */
  ghost predicate Keeps(m: Machine, pool: Pool, t: State, t': State) {
    forall x: Symbol :: !Available(pool, x) ==> Lookup(m, t'.locals, x) == Lookup(m, t.locals, x)
  }

  /** No address is given back. */
  ghost predicate Ready(pool: Pool) {
    PoolOk(pool) && pool.addrs == []
  }

  /** The place of a value: a variable, or a temporary that was available and is pending now. */
  ghost predicate PlaceOk(pool: Pool, pool': Pool, x: Symbol) {
    if x.isTemporary then Available(pool, x) && Pending(pool', x) else !x.isConstant
  }

  // ---------------------------------------------------------------- pools

  ghost predicate PoolStep(pool: Pool, pool': Pool) {
    Ready(pool') && Shrinks(pool, pool') && pool'.nextLabel == pool.nextLabel
  }

  lemma PlaceLater(pool: Pool, pool1: Pool, pool2: Pool, x: Symbol)
    requires PlaceOk(pool, pool1, x) && Shrinks(pool1, pool2)
    ensures PlaceOk(pool, pool2, x)
  {
    if x.isTemporary {
      PendingStays(pool1, pool2, x);
    }
  }

  lemma PlaceEarlier(pool: Pool, pool1: Pool, pool2: Pool, x: Symbol)
    requires Shrinks(pool, pool1) && PlaceOk(pool1, pool2, x)
    ensures PlaceOk(pool, pool2, x)
  {
  }

  /** A value's place is given back. */
  lemma Released(pool: Pool, pool1: Pool, x: Symbol)
    requires Ready(pool1) && Shrinks(pool, pool1) && PlaceOk(pool, pool1, x) && (x.isTemporary ==> IsNumeric(x.typ))
    ensures var pool' := FreedIfTemporary(pool1, x);
      && Ready(pool') && Shrinks(pool, pool') && pool'.nextLabel == pool1.nextLabel && pool'.nextKey == pool1.nextKey
      && (forall y: Symbol :: Pending(pool1, y) && y != x ==> Pending(pool', y))
  {
    if x.isTemporary {
      FreedIsAvailable(pool1, x);
    }
  }

  lemma ConstantTaken(pool: Pool)
    requires Ready(pool)
    ensures PoolStep(pool, AfterConstant(pool))
  {
    forall t: Type ensures ListOk(FreeOf(AfterConstant(pool), t), t, AfterConstant(pool).nextKey) {
      assert ListOk(FreeOf(pool, t), t, pool.nextKey);
    }
  }

  lemma NumericCreated(pool: Pool, t: Type)
    requires Ready(pool) && IsNumeric(t)
    ensures var (x, pool') := Created(pool, t);
            PoolStep(pool, pool') && PlaceOk(pool, pool', x) && x.isTemporary && x.typ == t
  {
    CreatedIsPending(pool, t);
  }

  lemma AddressCreated(pool: Pool, t: Type)
    requires Ready(pool)
    ensures var (d, pool1) := Created(pool, AddrType);
      var x, pool' := d.(elementType := t), Retyped(pool1, d, t);
      PoolStep(pool, pool') && PlaceOk(pool, pool', x) && x.isTemporary && x.typ == AddrType && x.elementType == t
  {
    var (d, pool1) := Created(pool, AddrType);
    CreatedIsPending(pool, AddrType);
    RetypedIsSame(pool1, d, t);
    assert PoolStep(pool, pool1) && PlaceOk(pool, pool1, d.(elementType := t));
    hide Created, Retyped, PoolOk, Available, Pending;
  }

  // ---------------------------------------------------------------- what the generator does to the pool

  /** The pool after an expression, and the place of its value. */
  ghost predicate ExprPlaced(pool: Pool, g: Generated) {
    PoolStep(pool, g.pool) && PlaceOk(pool, g.pool, g.place) && IsNumeric(g.place.typ)
  }

  lemma {:induction false} ExprPool(e: Expr, pool: Pool)
    requires Ready(pool) && ExprOk(e)
    ensures ExprPlaced(pool, GenExpr(e, pool))
    decreases e, 0
  {
    match e
    case Var(x) =>
    case Const(t, v) =>
      NumericCreated(pool, t);
      var (d, pool1) := Created(pool, t);
      ConstantTaken(pool1);
      PlaceLater(pool, pool1, AfterConstant(pool1), d);
    case Negation(t, a) =>
      ExprPool(a, pool);
      UnaryPool(pool, GenExpr(a, pool), t);
    case Arithmetic(t, k, a, b) =>
      ExprPool(a, pool);
      ExprPool(b, GenExpr(a, pool).pool);
      BinaryPool(pool, GenExpr(a, pool), GenExpr(b, GenExpr(a, pool).pool), t);
    case Element(x, a) =>
      AddressPool(x, a, pool);
      var g := GenAddress(x, a, pool);
      NumericCreated(g.pool, x.elementType);
  }

  lemma UnaryPool(pool: Pool, g: Generated, t: Type)
    requires Ready(pool) && ExprPlaced(pool, g) && IsNumeric(t)
    ensures var (d, pool1) := Created(g.pool, t); var pool' := FreedIfTemporary(pool1, g.place);
      && PoolStep(pool, pool') && PlaceOk(pool, pool', d) && IsNumeric(d.typ) && d.isTemporary
      && Available(g.pool, d) && d != g.place
  {
    NumericCreated(g.pool, t);
    var (d, pool1) := Created(g.pool, t);
    PlaceLater(pool, g.pool, pool1, g.place);
    assert g.place.isTemporary ==> !Available(g.pool, g.place);
    Released(pool, pool1, g.place);
  }

  lemma BinaryPool(pool: Pool, g: Generated, h: Generated, t: Type)
    requires Ready(pool) && ExprPlaced(pool, g) && ExprPlaced(g.pool, h) && IsNumeric(t)
    ensures var (d, pool1) := Created(h.pool, t);
      var pool' := FreedIfTemporary(FreedIfTemporary(pool1, g.place), h.place);
      && PoolStep(pool, pool') && PlaceOk(pool, pool', d) && IsNumeric(d.typ) && d.isTemporary && Available(h.pool, d)
      && (g.place.isTemporary ==> !Available(g.pool, g.place)) && (g.place.isTemporary ==> g.place != h.place)
  {
    NumericCreated(h.pool, t);
    var (d, pool1) := Created(h.pool, t);
    PlaceLater(pool, g.pool, h.pool, g.place);
    PlaceLater(pool, h.pool, pool1, g.place);
    PlaceLater(g.pool, h.pool, pool1, h.place);
    assert g.place.isTemporary ==> !Available(g.pool, g.place) && !Available(h.pool, g.place);
    assert h.place.isTemporary ==> !Available(h.pool, h.place);
    Released(pool, pool1, g.place);
    var pool2 := FreedIfTemporary(pool1, g.place);
    Released(pool, pool2, h.place);
  }

  lemma AddressPool(x: Symbol, a: Expr, pool: Pool)
    requires Ready(pool) && ExprOk(a)
    ensures var g := GenAddress(x, a, pool);
      && PoolStep(pool, g.pool) && PlaceOk(pool, g.pool, g.place) && g.place.isTemporary
      && g.place.typ == AddrType && g.place.elementType == x.elementType
    decreases a, 1
  {
    ExprPool(a, pool);
    var g := GenExpr(a, pool);
    Released(pool, g.pool, g.place);
    var pool1 := FreedIfTemporary(g.pool, g.place);
    AddressCreated(pool1, x.elementType);
    var (d, pool2) := Created(pool1, AddrType);
    PlaceEarlier(pool, pool1, Retyped(pool2, d, x.elementType), d.(elementType := x.elementType));
  }

  // ---------------------------------------------------------------- steps

  /** An instruction that puts a value into a new place. */
  predicate Computes(i: Instruction, d: Symbol) {
    && !i.dead && i.dest == Some(d) && !d.isConstant && d.scope == Local
    && (i.op == IndexArray
          || (d.typ != AddrType && (i.op == Assign || i.op == UMinus || i.op == Binary || i.op == Deref)))
  }

  /** The value at the place of the destination after the step, and what has changed. */
  lemma ValueComputed(m: Machine, c: Code, q: nat, i: Instruction, t: State)
    requires m.Valid() && q < |c| && c[q] == i && t.pc == q && t.status == Running
    requires i.dest.Some? && Computes(i, i.dest.value)
    ensures var t', d := Step(m, Linked(c), t), i.dest.value;
      && t' == t.(pc := q + 1, locals := t'.locals)
      && Read(m, t', d) == m.fit(d.typ, Result(m, t, i, ReadOperand(m, t, i.src1), ReadOperand(m, t, i.src2)))
      && (forall y: Symbol :: y != d ==> Lookup(m, t'.locals, y) == Lookup(m, t.locals, y))
  {
    var v := Result(m, t, i, ReadOperand(m, t, i.src1), ReadOperand(m, t, i.src2));
    assert Step(m, Linked(c), t) == Write(m, t.(pc := q + 1), i.dest.value, v);
    forall y: Symbol ensures Lookup(m, Updated(m, t.locals, i.dest.value, v), y) ==
                             if y == i.dest.value then m.fit(y.typ, v) else Lookup(m, t.locals, y) {
      LookupAfterUpdate(m, t.locals, i.dest.value, v, y);
    }
  }

  /** A run that has gone through code of an expression. */
  ghost predicate Went(m: Machine, c: Code, pool: Pool, t: State, n: nat, k: nat) {
    var t' := Run(m, Linked(c), t, n);
    t' == t.(pc := k, locals := t'.locals) && Keeps(m, pool, t, t')
  }

  lemma SeesLater(m: Machine, s: State, t: State, t': State, pool: Pool)
    requires Sees(m, s, t) && t' == t.(pc := t'.pc, locals := t'.locals) && Keeps(m, pool, t, t')
    ensures Sees(m, s, t')
  {
  }

  lemma WentOn(m: Machine, c: Code, pool: Pool, pool1: Pool, t: State, n: nat, k: nat, n1: nat, k1: nat)
    requires Went(m, c, pool, t, n, k) && Shrinks(pool, pool1) && Went(m, c, pool1, Run(m, Linked(c), t, n), n1, k1)
    ensures Went(m, c, pool, t, n + n1, k1)
    ensures Run(m, Linked(c), t, n + n1) == Run(m, Linked(c), Run(m, Linked(c), t, n), n1)
  {
    RunAppends(m, Linked(c), t, n, n1);
    var t1, t2 := Run(m, Linked(c), t, n), Run(m, Linked(c), t, n + n1);
    forall x: Symbol | !Available(pool, x) ensures Lookup(m, t2.locals, x) == Lookup(m, t.locals, x) {
      assert !Available(pool1, x);
    }
  }

  /** One more instruction, which computes a value into an available temporary. */
  lemma WentToValue(m: Machine, c: Code, pool: Pool, pool1: Pool, t: State, n: nat, q: nat, i: Instruction)
    requires m.Valid() && Went(m, c, pool, t, n, q) && Shrinks(pool, pool1) && t.status == Running
    requires q < |c| && c[q] == i && i.dest.Some? && Computes(i, i.dest.value) && Available(pool1, i.dest.value)
    ensures Went(m, c, pool, t, n + 1, q + 1)
    ensures var t1, t2, d := Run(m, Linked(c), t, n), Run(m, Linked(c), t, n + 1), i.dest.value;
      Read(m, t2, d) == m.fit(d.typ, Result(m, t1, i, ReadOperand(m, t1, i.src1), ReadOperand(m, t1, i.src2)))
  {
    var t1 := Run(m, Linked(c), t, n);
    RunIsSteps(m, Linked(c), t, n);
    ValueComputed(m, c, q, i, t1);
    hide Step, Run, Result;
    forall x: Symbol | !Available(pool, x)
      ensures Lookup(m, Step(m, Linked(c), t1).locals, x) == Lookup(m, t.locals, x)
    {
      assert !Available(pool1, x) && x != i.dest.value;
    }
  }

  // ---------------------------------------------------------------- expressions

  lemma ReadKept(m: Machine, pool: Pool, t: State, t': State, x: Symbol)
    requires t' == t.(pc := t'.pc, locals := t'.locals) && Keeps(m, pool, t, t') && !Available(pool, x)
    ensures Read(m, t', x) == Read(m, t, x)
  {
  }

  lemma ReadSeen(m: Machine, s: State, t: State, x: Symbol)
    requires Sees(m, s, t) && !x.isTemporary
    ensures Read(m, t, x) == Read(m, s, x)
  {
  }

  /** The code has been gone through and left the value of the expression in its place. */
  ghost predicate Evaluated(m: Machine, c: Code, k: nat, pool: Pool, t: State, g: Generated, value: int) {
    Went(m, c, pool, t, |g.code|, k + |g.code|) && Read(m, Run(m, Linked(c), t, |g.code|), g.place) == value
  }

  /** The last instruction of an expression puts its value into its place. */
  lemma ThenValue(
      m: Machine, c: Code, k: nat, pool: Pool, pool1: Pool, t: State, code: Code, i: Instruction, g: Generated,
      value: int)
    requires m.Valid() && Shrinks(pool, pool1) && t.status == Running && Went(m, c, pool, t, |code|, k + |code|)
    requires g.code == code + [i] && Computes(i, g.place) && Holds(c, k, g.code) && Available(pool1, g.place)
    requires var t1 := Run(m, Linked(c), t, |code|);
             value == m.fit(g.place.typ, Result(m, t1, i, ReadOperand(m, t1, i.src1), ReadOperand(m, t1, i.src2)))
    ensures Evaluated(m, c, k, pool, t, g, value)
  {
    hide Run, Step, Result, ReadOperand;
    HoldsLast(c, k, code, i);
    WentToValue(m, c, pool, pool1, t, |code|, k + |code|, i);
    assert |g.code| == |code| + 1;
  }

  lemma ConstantRuns(m: Machine, c: Code, k: nat, typ: Type, v: int, pool: Pool, t: State)
    requires m.Valid() && Ready(pool) && IsNumeric(typ) && Holds(c, k, GenExpr(Const(typ, v), pool).code)
    requires t.pc == k && t.status == Running
    ensures Evaluated(m, c, k, pool, t, GenExpr(Const(typ, v), pool), m.fit(typ, v))
  {
    var (d, pool1) := Created(pool, typ);
    NumericCreated(pool, typ);
    var i := Simple(Assign, Plus, Some(d), Some(ConstantSymbol(pool1, typ, v)), None);
    assert [] + [i] == [i];
    assert Went(m, c, pool, t, 0, k);
    ThenValue(m, c, k, pool, pool, t, [], i, GenExpr(Const(typ, v), pool), m.fit(typ, v));
  }

  lemma NegationRuns(m: Machine, c: Code, k: nat, typ: Type, a: Expr, pool: Pool, s: State, t: State)
    requires m.Valid() && Ready(pool) && ExprOk(Negation(typ, a)) && Holds(c, k, GenExpr(Negation(typ, a), pool).code)
    requires t.pc == k && t.status == Running && Evaluated(m, c, k, pool, t, GenExpr(a, pool), Eval(m, s, a))
    ensures Evaluated(m, c, k, pool, t, GenExpr(Negation(typ, a), pool), Eval(m, s, Negation(typ, a)))
  {
    var g := GenExpr(a, pool);
    ExprPool(a, pool);
    NumericCreated(g.pool, typ);
    var (d, pool1) := Created(g.pool, typ);
    var i := Simple(UMinus, Plus, Some(d), Some(g.place), None);
    var whole := GenExpr(Negation(typ, a), pool);
    assert whole.code == g.code + [i] && whole.place == d;
    hide Run, Linked, GenExpr, Created, Went, Holds, Available, PoolOk;
    ThenValue(m, c, k, pool, g.pool, t, g.code, i, whole, Eval(m, s, Negation(typ, a)));
  }

  lemma ArithmeticRuns(
      m: Machine, c: Code, k: nat, typ: Type, kind: Kind, a: Expr, b: Expr, pool: Pool, s: State, t: State)
    requires m.Valid() && Ready(pool) && ExprOk(Arithmetic(typ, kind, a, b))
    requires Holds(c, k, GenExpr(Arithmetic(typ, kind, a, b), pool).code) && t.pc == k && t.status == Running
    requires var g := GenExpr(a, pool); var t1 := Run(m, Linked(c), t, |g.code|);
      && Evaluated(m, c, k, pool, t, g, Eval(m, s, a))
      && Evaluated(m, c, k + |g.code|, g.pool, t1, GenExpr(b, g.pool), Eval(m, s, b))
    ensures Evaluated(m, c, k, pool, t, GenExpr(Arithmetic(typ, kind, a, b), pool),
              Eval(m, s, Arithmetic(typ, kind, a, b)))
  {
    hide Run, Linked, GenExpr, Created, Went, Holds, Available, PoolOk, Keeps, Pending, FreedIfTemporary;
    BinaryGenerated(typ, kind, a, b, pool);
    var g, whole := GenExpr(a, pool), GenExpr(Arithmetic(typ, kind, a, b), pool);
    var h := GenExpr(b, g.pool);
    var i := Simple(Binary, kind, Some(whole.place), Some(g.place), Some(h.place));
    TwoOperands(m, c, k, pool, t, g, h, Eval(m, s, a), Eval(m, s, b));
    ThenValue(m, c, k, pool, h.pool, t, g.code + h.code, i, whole, Eval(m, s, Arithmetic(typ, kind, a, b)));
  }

  lemma BinaryGenerated(typ: Type, kind: Kind, a: Expr, b: Expr, pool: Pool)
    requires Ready(pool) && ExprOk(Arithmetic(typ, kind, a, b))
    ensures var g, whole := GenExpr(a, pool), GenExpr(Arithmetic(typ, kind, a, b), pool);
      var h := GenExpr(b, g.pool);
      && whole.code == g.code + h.code + [Simple(Binary, kind, Some(whole.place), Some(g.place), Some(h.place))]
      && Available(h.pool, whole.place) && !whole.place.isConstant && whole.place.scope == Local
      && whole.place.typ == typ
      && !Available(g.pool, g.place) && Shrinks(pool, g.pool) && Shrinks(pool, h.pool)
  {
    var g := GenExpr(a, pool);
    var h := GenExpr(b, g.pool);
    ExprPool(a, pool);
    ExprPool(b, g.pool);
    BinaryPool(pool, g, h, typ);
    NumericCreated(h.pool, typ);
    ShrinksTransitive(pool, g.pool, h.pool);
  }

  /** After both operands the value of the first one is still in its place. */
  lemma TwoOperands(m: Machine, c: Code, k: nat, pool: Pool, t: State, g: Generated, h: Generated, v1: int, v2: int)
    requires Shrinks(pool, g.pool) && !Available(g.pool, g.place) && Evaluated(m, c, k, pool, t, g, v1)
    requires Evaluated(m, c, k + |g.code|, g.pool, Run(m, Linked(c), t, |g.code|), h, v2)
    ensures var n := |g.code + h.code|; var t2 := Run(m, Linked(c), t, n);
      Went(m, c, pool, t, n, k + n) && Read(m, t2, g.place) == v1 && Read(m, t2, h.place) == v2
  {
    hide Run, Linked, Read, Available;
    var n := |g.code| + |h.code|;
    WentOn(m, c, pool, g.pool, t, |g.code|, k + |g.code|, |h.code|, k + n);
    ReadKept(m, g.pool, Run(m, Linked(c), t, |g.code|), Run(m, Linked(c), t, n), g.place);
  }

  lemma AddressRuns(m: Machine, c: Code, k: nat, x: Symbol, a: Expr, pool: Pool, s: State, t: State)
    requires m.Valid() && Ready(pool) && IsArray(x) && ExprOk(a) && Holds(c, k, GenAddress(x, a, pool).code)
    requires t.pc == k && t.status == Running && Sees(m, s, t)
    requires Evaluated(m, c, k, pool, t, GenExpr(a, pool), Eval(m, s, a))
    ensures Evaluated(m, c, k, pool, t, GenAddress(x, a, pool), AddressOf(m, s, x, Eval(m, s, a)))
  {
    hide *;
    var g, whole := GenExpr(a, pool), GenAddress(x, a, pool);
    var i := Simple(IndexArray, Plus, Some(whole.place), Some(g.place), Some(x));
    AddressGenerated(x, a, pool);
    WentEvaluated(m, c, k, pool, t, g, Eval(m, s, a));
    AddressValue(m, c, k, x, whole.place, g.place, pool, s, t, |g.code|, Eval(m, s, a));
    ThenValue(m, c, k, pool, FreedIfTemporary(g.pool, g.place), t, g.code, i, whole, AddressOf(m, s, x, Eval(m, s, a)));
  }

  lemma WentEvaluated(m: Machine, c: Code, k: nat, pool: Pool, t: State, g: Generated, v: int)
    requires Evaluated(m, c, k, pool, t, g, v)
    ensures Went(m, c, pool, t, |g.code|, k + |g.code|) && Read(m, Run(m, Linked(c), t, |g.code|), g.place) == v
  {
  }

  lemma AddressGenerated(x: Symbol, a: Expr, pool: Pool)
    requires Ready(pool) && IsArray(x) && ExprOk(a)
    ensures var g, whole := GenExpr(a, pool), GenAddress(x, a, pool);
      var pool1 := FreedIfTemporary(g.pool, g.place);
      && whole.code == g.code + [Simple(IndexArray, Plus, Some(whole.place), Some(g.place), Some(x))]
      && Computes(Simple(IndexArray, Plus, Some(whole.place), Some(g.place), Some(x)), whole.place)
      && Shrinks(pool, pool1) && Available(pool1, whole.place)
      && whole.place.typ == AddrType
  {
    var g := GenExpr(a, pool);
    ExprPool(a, pool);
    Released(pool, g.pool, g.place);
    AddressCreated(FreedIfTemporary(g.pool, g.place), x.elementType);
    hide GenExpr, Created, FreedIfTemporary, PoolOk, Shrinks, Available, IsFree;
  }

  lemma AddressValue(
      m: Machine, c: Code, k: nat, x: Symbol, d: Symbol, place: Symbol, pool: Pool, s: State, t: State, n: nat, v: int)
    requires m.Valid() && IsArray(x) && Sees(m, s, t) && d.typ == AddrType
    requires Went(m, c, pool, t, n, k + n) && Read(m, Run(m, Linked(c), t, n), place) == v
    ensures var t1, i := Run(m, Linked(c), t, n), Simple(IndexArray, Plus, Some(d), Some(place), Some(x));
      AddressOf(m, s, x, v) == m.fit(d.typ, Result(m, t1, i, ReadOperand(m, t1, i.src1), ReadOperand(m, t1, i.src2)))
  {
    hide Run, Linked, Keeps;
    ReadSeen(m, s, t, x);
    SeesLater(m, s, t, Run(m, Linked(c), t, n), pool);
  }

  lemma ElementRuns(m: Machine, c: Code, k: nat, x: Symbol, a: Expr, pool: Pool, s: State, t: State)
    requires m.Valid() && Ready(pool) && IsArray(x) && ExprOk(a) && Holds(c, k, GenExpr(Element(x, a), pool).code)
    requires t.pc == k && t.status == Running && Sees(m, s, t)
    requires Evaluated(m, c, k, pool, t, GenAddress(x, a, pool), AddressOf(m, s, x, Eval(m, s, a)))
    ensures Evaluated(m, c, k, pool, t, GenExpr(Element(x, a), pool), Eval(m, s, Element(x, a)))
  {
    hide *;
    var g, whole, v := GenAddress(x, a, pool), GenExpr(Element(x, a), pool), AddressOf(m, s, x, Eval(m, s, a));
    var i := Simple(Deref, Plus, Some(whole.place), Some(g.place), None);
    ElementGenerated(x, a, pool);
    WentEvaluated(m, c, k, pool, t, g, v);
    ElementValue(m, c, k, x, a, whole.place, g.place, pool, s, t, |g.code|);
    ThenValue(m, c, k, pool, g.pool, t, g.code, i, whole, Eval(m, s, Element(x, a)));
  }

  lemma ElementGenerated(x: Symbol, a: Expr, pool: Pool)
    requires Ready(pool) && IsArray(x) && ExprOk(a)
    ensures var g, whole := GenAddress(x, a, pool), GenExpr(Element(x, a), pool);
      && whole.code == g.code + [Simple(Deref, Plus, Some(whole.place), Some(g.place), None)]
      && Computes(Simple(Deref, Plus, Some(whole.place), Some(g.place), None), whole.place)
      && Shrinks(pool, g.pool) && Available(g.pool, whole.place)
      && whole.place.typ == x.elementType && whole.place.typ != AddrType
      && g.place.typ == AddrType && g.place.elementType == x.elementType
  {
    AddressPool(x, a, pool);
    NumericCreated(GenAddress(x, a, pool).pool, x.elementType);
    ElementUnfolds(x, a, pool);
    hide GenExpr, GenAddress, Created, PoolOk, Shrinks, Available, IsFree;
  }

  lemma ElementUnfolds(x: Symbol, a: Expr, pool: Pool)
    ensures var g := GenAddress(x, a, pool); var (d, pool1) := Created(g.pool, x.elementType);
      GenExpr(Element(x, a), pool) == Generated(g.code + [Simple(Deref, Plus, Some(d), Some(g.place), None)], d, pool1)
  {
    hide GenAddress, Created;
  }

  lemma ElementValue(
      m: Machine, c: Code, k: nat, x: Symbol, a: Expr, d: Symbol, place: Symbol, pool: Pool, s: State, t: State, n: nat)
    requires m.Valid() && Sees(m, s, t) && d.typ == x.elementType
    requires Went(m, c, pool, t, n, k + n)
    requires Read(m, Run(m, Linked(c), t, n), place) == AddressOf(m, s, x, Eval(m, s, a))
    ensures var t1, i := Run(m, Linked(c), t, n), Simple(Deref, Plus, Some(d), Some(place), None);
      Eval(m, s, Element(x, a)) == m.fit(d.typ,
        Result(m, t1, i, ReadOperand(m, t1, i.src1), ReadOperand(m, t1, i.src2)))
  {
    hide Run, Linked, Keeps;
  }

  /** The code of an expression computes its value and changes nothing that is pending. */
  lemma {:induction false} ExprRuns(m: Machine, c: Code, k: nat, e: Expr, pool: Pool, s: State, t: State)
    requires m.Valid() && Ready(pool) && ExprOk(e) && Holds(c, k, GenExpr(e, pool).code)
    requires t.pc == k && t.status == Running && Sees(m, s, t)
    ensures Evaluated(m, c, k, pool, t, GenExpr(e, pool), Eval(m, s, e))
    decreases e, 0
  {
    match e
    case Var(x) =>
      ReadSeen(m, s, t, x);
    case Const(typ, v) =>
      ConstantRuns(m, c, k, typ, v, pool, t);
    case Negation(typ, a) =>
      var g := GenExpr(a, pool);
      HoldsParts(c, k, g.code, GenExpr(e, pool).code[|g.code|..]);
      ExprRuns(m, c, k, a, pool, s, t);
      NegationRuns(m, c, k, typ, a, pool, s, t);
    case Arithmetic(typ, kind, a, b) =>
      BothRun(m, c, k, a, b, pool, s, t,
        GenExpr(e, pool).code[|GenExpr(a, pool).code + GenExpr(b, GenExpr(a, pool).pool).code|..]);
      ArithmeticRuns(m, c, k, typ, kind, a, b, pool, s, t);
    case Element(x, a) =>
      var g := GenAddress(x, a, pool);
      HoldsParts(c, k, g.code, GenExpr(e, pool).code[|g.code|..]);
      AddressReached(m, c, k, x, a, pool, s, t);
      ElementRuns(m, c, k, x, a, pool, s, t);
  }

  lemma AddressReached(m: Machine, c: Code, k: nat, x: Symbol, a: Expr, pool: Pool, s: State, t: State)
    requires m.Valid() && Ready(pool) && IsArray(x) && ExprOk(a) && Holds(c, k, GenAddress(x, a, pool).code)
    requires t.pc == k && t.status == Running && Sees(m, s, t)
    ensures Evaluated(m, c, k, pool, t, GenAddress(x, a, pool), AddressOf(m, s, x, Eval(m, s, a)))
    decreases a, 1
  {
    var g := GenExpr(a, pool);
    HoldsParts(c, k, g.code, GenAddress(x, a, pool).code[|g.code|..]);
    ExprRuns(m, c, k, a, pool, s, t);
    AddressRuns(m, c, k, x, a, pool, s, t);
  }

  /** Two operands, one after the other. */
  lemma BothRun(m: Machine, c: Code, k: nat, a: Expr, b: Expr, pool: Pool, s: State, t: State, rest: Code)
    requires m.Valid() && Ready(pool) && ExprOk(a) && ExprOk(b)
    requires Holds(c, k, GenExpr(a, pool).code + GenExpr(b, GenExpr(a, pool).pool).code + rest)
    requires t.pc == k && t.status == Running && Sees(m, s, t)
    ensures var g := GenExpr(a, pool); var t1 := Run(m, Linked(c), t, |g.code|);
      && Evaluated(m, c, k, pool, t, g, Eval(m, s, a))
      && Evaluated(m, c, k + |g.code|, g.pool, t1, GenExpr(b, g.pool), Eval(m, s, b))
    decreases if a < b then b else a, 2
  {
    hide *;
    var g := GenExpr(a, pool);
    var h := GenExpr(b, g.pool);
    HoldsParts(c, k, g.code + h.code, rest);
    HoldsParts(c, k, g.code, h.code);
    ExprRuns(m, c, k, a, pool, s, t);
    PoolReady(a, pool);
    SeesAfter(m, c, k, pool, s, t, g, Eval(m, s, a));
    ExprRuns(m, c, k + |g.code|, b, g.pool, s, Run(m, Linked(c), t, |g.code|));
  }

  lemma PoolReady(a: Expr, pool: Pool)
    requires Ready(pool) && ExprOk(a)
    ensures Ready(GenExpr(a, pool).pool)
  {
    ExprPool(a, pool);
  }

  lemma SeesAfter(m: Machine, c: Code, k: nat, pool: Pool, s: State, t: State, g: Generated, v: int)
    requires Sees(m, s, t) && t.status == Running && Evaluated(m, c, k, pool, t, g, v)
    ensures var t1 := Run(m, Linked(c), t, |g.code|); t1.pc == k + |g.code| && t1.status == Running && Sees(m, s, t1)
  {
    SeesLater(m, s, t, Run(m, Linked(c), t, |g.code|), pool);
  }
}
