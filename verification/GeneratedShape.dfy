/** What the code generator's output looks like: the conditions of peephole optimization hold for it. */
module GeneratedShape {
  import opened Instructions
  import opened SyntaxTrees
  import opened TemporaryPool
  import opened CodeGeneration
  import opened GeneratedRuns
  import opened Arguments
  import opened StatementRuns
  import GeneratedLabels
  import opened Alike

  // ---------------------------------------------------------------- single instructions

  predicate IsTemporaryPlace(x: Option<Symbol>) {
    x.Some? && x.value.isTemporary
  }

  /** An instruction as the generator makes it. */
  predicate Made(i: Instruction) {
    && WellFormed(i) && !i.dead && i.op != GlobalDeclaration && i.op != Enter
    && (i.dest.Some? && !i.dest.value.isTemporary ==> i.op == Assign)
    && (IsTemporaryPlace(i.dest) ==> i.dest.value.scope == Local)
    && (i.op == Assign && IsTemporaryPlace(i.dest) && i.dest.value.typ != AddrType ==> i.src1 != i.dest)
    && (i.op != Assign && i.src1.Some? ==> !i.src1.value.isConstant)
  }

  ghost predicate AllMade(code: Code) {
    forall p :: 0 <= p < |code| ==> Made(code[p])
  }

  /** A computation of a temporary, or a parameter. */
  predicate IsStraight(i: Instruction) {
    i.op != Label && (IsTemporaryPlace(i.dest) || i.op == Param)
  }

  /** Straight-line code from the computation of the temporary `x` at `d` to its use at `r`. */
  ghost predicate ComputedAt(code: Code, d: nat, r: nat, x: Symbol) {
    && d < r < |code| && code[d].dest == Some(x) && RedefinesVariable(code[d])
    && (forall i :: d < i <= r ==> code[i].op != Label)
    && (forall i :: d <= i < r ==> IsStraight(code[i]))
  }

  /** Every temporary that is read has been computed shortly before. */
  ghost predicate ReadsCovered(code: Code) {
    forall r, x: Symbol :: 0 <= r < |code| && x.isTemporary && Reads(code[r], x) ==>
      exists d: nat :: ComputedAt(code, d, r, x)
  }

  /** The addresses that are written through or computed are of their own: with keys from `low` up to `high`. */
  ghost predicate AddressKeys(code: Code, low: nat, high: nat) {
    && low <= high
    && (forall p :: 0 <= p < |code| && code[p].dest.Some? && code[p].dest.value.typ == AddrType ==>
          low <= code[p].dest.value.key < high)
    && (forall p :: 0 <= p < |code| - 1 && code[p].op == Assign && code[p + 1].op == IndexArray ==>
          code[p].dest != code[p + 1].dest)
  }

  /** A value that is not a constant is copied to a temporary. */
  predicate IsResultCopy(i: Instruction) {
    && i.op == Assign && IsTemporaryPlace(i.dest) && i.dest.value.typ != AddrType
    && (i.src1.Some? ==> !i.src1.value.isConstant || i.src1.value.isTemporary)
  }

  /** Such a temporary is given back by the next instruction. */
  ghost predicate ResultsReturned(code: Code) {
    forall p :: 0 <= p < |code| && IsResultCopy(code[p]) ==>
      p + 1 < |code| && code[p + 1] == Named(Return, code[p].dest.value)
  }

  ghost predicate Shaped(code: Code, low: nat, high: nat) {
    AllMade(code) && ReadsCovered(code) && AddressKeys(code, low, high) && ResultsReturned(code)
  }

  // ---------------------------------------------------------------- parts

  lemma ComputedAtLeft(a: Code, b: Code, d: nat, r: nat, x: Symbol)
    requires ComputedAt(a, d, r, x)
    ensures ComputedAt(a + b, d, r, x)
  {
  }

  lemma ComputedAtRight(a: Code, b: Code, d: nat, r: nat, x: Symbol)
    requires ComputedAt(b, d, r, x)
    ensures ComputedAt(a + b, |a| + d, |a| + r, x)
  {
    var c := a + b;
    assert forall i :: |a| <= i < |c| ==> c[i] == b[i - |a|];
  }

  lemma ReadsCoveredParts(a: Code, b: Code)
    requires ReadsCovered(a) && ReadsCovered(b)
    ensures ReadsCovered(a + b)
  {
    var c := a + b;
    forall r, x: Symbol | 0 <= r < |c| && x.isTemporary && Reads(c[r], x)
      ensures exists d: nat :: ComputedAt(c, d, r, x) {
      if r < |a| {
        assert Reads(a[r], x);
        var d: nat :| ComputedAt(a, d, r, x);
        ComputedAtLeft(a, b, d, r, x);
      } else {
        assert Reads(b[r - |a|], x);
        var d: nat :| ComputedAt(b, d, r - |a|, x);
        ComputedAtRight(a, b, d, r - |a|, x);
      }
    }
  }

  lemma FirstReadsNoTemporary(code: Code, x: Symbol)
    requires ReadsCovered(code) && code != [] && x.isTemporary
    ensures !Reads(code[0], x)
  {
  }

  lemma ShapedParts(a: Code, b: Code, low: nat, middle: nat, high: nat)
    requires Shaped(a, low, middle) && Shaped(b, middle, high)
    ensures Shaped(a + b, low, high)
  {
    var c := a + b;
    ReadsCoveredParts(a, b);
    assert forall i :: 0 <= i < |a| ==> c[i] == a[i];
    assert forall i :: |a| <= i < |c| ==> c[i] == b[i - |a|];
    assert forall p :: 0 <= p < |b| ==> Made(b[p]) && WellFormed(b[p]);
    hide ComputedAt, Made, WellFormed, IsResultCopy, Named;
    ResultsOfParts(a, b);
    KeysOfParts(a, b, low, middle, high);
  }

  lemma ResultsOfParts(a: Code, b: Code)
    requires ResultsReturned(a) && ResultsReturned(b)
    ensures ResultsReturned(a + b)
  {
    var c := a + b;
    hide Named;
    assert forall i :: 0 <= i < |a| ==> c[i] == a[i];
    assert forall i :: |a| <= i < |c| ==> c[i] == b[i - |a|];
    forall p | 0 <= p < |c| && IsResultCopy(c[p])
      ensures p + 1 < |c| && c[p + 1] == Named(Return, c[p].dest.value)
    {
      if p >= |a| {
        assert IsResultCopy(b[p - |a|]) && b[p - |a| + 1] == c[p + 1];
      }
    }
  }

  lemma KeysOfParts(a: Code, b: Code, low: nat, middle: nat, high: nat)
    requires (forall p :: 0 <= p < |b| ==> WellFormed(b[p])) && AddressKeys(a, low, middle)
              && AddressKeys(b, middle, high)
    ensures AddressKeys(a + b, low, high)
  {
    var c := a + b;
    forall p | 0 <= p < |c| - 1 && c[p].op == Assign && c[p + 1].op == IndexArray ensures c[p].dest != c[p + 1].dest {
      if p == |a| - 1 {
        assert WellFormed(b[0]) && c[p + 1] == b[0];
      } else if p >= |a| {
        assert c[p] == b[p - |a|] && c[p + 1] == b[p - |a| + 1];
      }
    }
  }

  /** A label or a jump without operands. */
  lemma PlainShaped(i: Instruction, low: nat, high: nat)
    requires Made(i) && i.dest.None? && i.src1.None? && i.src2.None? && low <= high
    ensures Shaped([i], low, high)
  {
  }

  // ---------------------------------------------------------------- expressions

  /** Nothing but computations of temporaries and parameters. */
  ghost predicate AllStraight(code: Code) {
    forall p :: 0 <= p < |code| ==> IsStraight(code[p])
  }

  ghost predicate ComputedIn(code: Code, x: Symbol) {
    exists d :: 0 <= d < |code| && code[d].dest == Some(x) && RedefinesVariable(code[d])
  }

  /** The code of an expression, and the computation of its place. */
  ghost predicate ExprShaped(g: Generated, low: nat, high: nat) {
    && Shaped(g.code, low, high) && AllStraight(g.code)
    && (g.place.isTemporary ==> ComputedIn(g.code, g.place))
    && !g.place.isConstant && g.place.typ != ArrayType
  }

  lemma ComputedInParts(a: Code, b: Code, x: Symbol)
    requires ComputedIn(a, x) || ComputedIn(b, x)
    ensures ComputedIn(a + b, x)
  {
    if ComputedIn(a, x) {
      var d :| 0 <= d < |a| && a[d].dest == Some(x) && RedefinesVariable(a[d]);
      assert (a + b)[d] == a[d];
    } else {
      var d :| 0 <= d < |b| && b[d].dest == Some(x) && RedefinesVariable(b[d]);
      assert (a + b)[|a| + d] == b[d];
    }
  }

  /** The instruction may come after the code of its operands. */
  ghost predicate Appendable(code: Code, i: Instruction, low: nat, high: nat) {
    && Made(i) && i.op != Label
    && (forall x: Symbol :: x.isTemporary && Reads(i, x) ==> ComputedIn(code, x))
    && (i.dest.Some? && i.dest.value.typ == AddrType ==> low <= i.dest.value.key < high)
    && (i.op == IndexArray ==> forall p :: 0 <= p < |code| ==> code[p].dest != i.dest)
  }

  lemma Appended(code: Code, i: Instruction, low: nat, middle: nat, high: nat)
    requires Shaped(code, low, middle) && AllStraight(code) && middle <= high && Appendable(code, i, low, high)
    requires !IsResultCopy(i)
    ensures Shaped(code + [i], low, high)
    ensures IsTemporaryPlace(i.dest) || i.op == Param ==> AllStraight(code + [i])
    ensures i.dest.Some? && RedefinesVariable(i) ==> ComputedIn(code + [i], i.dest.value)
  {
    AppendedReads(code, i, low, high);
    AppendedKeys(code, i, low, middle, high);
    AppendedComputes(code, i);
    NoResultCopied(code);
    hide ReadsCovered, AddressKeys, Made, ComputedIn, Reads, RedefinesVariable, IsResultCopy;
  }

  /** The code of an expression makes no such copy. */
  lemma NoResultCopied(code: Code)
    requires ResultsReturned(code) && AllStraight(code)
    ensures forall p :: 0 <= p < |code| ==> !IsResultCopy(code[p])
  {
    forall p | 0 <= p < |code| ensures !IsResultCopy(code[p]) {
      assert p + 1 < |code| ==> IsStraight(code[p + 1]);
    }
  }

  lemma AppendedComputes(code: Code, i: Instruction)
    ensures i.dest.Some? && RedefinesVariable(i) ==> ComputedIn(code + [i], i.dest.value)
  {
    assert (code + [i])[|code|] == i;
  }

  lemma AppendedReads(code: Code, i: Instruction, low: nat, high: nat)
    requires ReadsCovered(code) && AllStraight(code) && Appendable(code, i, low, high)
    ensures ReadsCovered(code + [i])
  {
    var c := code + [i];
    assert forall p :: 0 <= p < |code| ==> c[p] == code[p];
    assert c[|code|] == i;
    hide Made, Reads, RedefinesVariable, WellFormed;
    forall r, x: Symbol | 0 <= r < |c| && x.isTemporary && Reads(c[r], x)
      ensures exists d: nat :: ComputedAt(c, d, r, x) {
      if r < |code| {
        var d: nat :| ComputedAt(code, d, r, x);
        ComputedAtLeft(code, [i], d, r, x);
      } else {
        var d :| 0 <= d < |code| && code[d].dest == Some(x) && RedefinesVariable(code[d]);
        assert ComputedAt(c, d, r, x);
      }
    }
  }

  lemma AppendedKeys(code: Code, i: Instruction, low: nat, middle: nat, high: nat)
    requires AddressKeys(code, low, middle) && middle <= high && Appendable(code, i, low, high)
    ensures AddressKeys(code + [i], low, high)
  {
    hide Made, Reads, ComputedIn;
    var c := code + [i];
    assert forall p :: 0 <= p < |code| ==> c[p] == code[p];
  }

  lemma TemporaryMade(op: Operation, k: Kind, d: Symbol, src1: Option<Symbol>, src2: Option<Symbol>)
    requires d.isTemporary && !d.isConstant && d.scope == Local && IsNumeric(d.typ) && src1.Some?
    requires match op
      case Assign => src1.value.isConstant && !src1.value.isTemporary && IsNumeric(src1.value.typ) && src2.None?
      case UMinus => !src1.value.isConstant && src2.None?
      case Deref => !src1.value.isConstant && src2.None?
      case Binary => !src1.value.isConstant && src2.Some?
      case _ => false
    ensures var i := Simple(op, k, Some(d), src1, src2);
              Made(i) && i.op != Label && RedefinesVariable(i) && i.op != IndexArray && !IsResultCopy(i)
  {
  }

  /** The instruction may come after the code of operands that it reads. */
  ghost predicate UsesOnly(i: Instruction, x: Symbol, y: Symbol, low: nat, high: nat) {
    && Made(i) && i.op != Label && i.op != IndexArray
    && (forall z: Symbol :: z.isTemporary && Reads(i, z) ==> z == x || z == y)
    && (i.dest.Some? && i.dest.value.typ == AddrType ==> low <= i.dest.value.key < high)
    && (i.op == Assign ==> i.dest.Some? && i.dest.value.typ == AddrType)
  }

  lemma OneOperandThen(g: Generated, i: Instruction, k0: nat, k1: nat, k2: nat)
    requires ExprShaped(g, k0, k1) && k1 <= k2 && UsesOnly(i, g.place, g.place, k0, k2)
    ensures Shaped(g.code + [i], k0, k2)
    ensures IsTemporaryPlace(i.dest) && RedefinesVariable(i) ==>
              AllStraight(g.code + [i]) && ComputedIn(g.code + [i], i.dest.value)
  {
    assert Appendable(g.code, i, k0, k2);
    hide Shaped, AllStraight, Appendable, UsesOnly;
    Appended(g.code, i, k0, k1, k2);
  }

  lemma TwoOperandsThen(g: Generated, h: Generated, i: Instruction, k0: nat, k1: nat, k2: nat, k3: nat)
    requires ExprShaped(g, k0, k1) && ExprShaped(h, k1, k2) && k2 <= k3 && UsesOnly(i, g.place, h.place, k0, k3)
    ensures Shaped(g.code + h.code + [i], k0, k3)
    ensures IsTemporaryPlace(i.dest) && RedefinesVariable(i) ==>
              AllStraight(g.code + h.code + [i]) && ComputedIn(g.code + h.code + [i], i.dest.value)
  {
    BothShaped(g, h, k0, k1, k2);
    assert Appendable(g.code + h.code, i, k0, k3) by {
      hide Shaped, AllStraight, ComputedIn, Made;
    }
    hide Shaped, AllStraight, Appendable, UsesOnly, ExprShaped;
    Appended(g.code + h.code, i, k0, k2, k3);
  }

  lemma BothShaped(g: Generated, h: Generated, k0: nat, k1: nat, k2: nat)
    requires ExprShaped(g, k0, k1) && ExprShaped(h, k1, k2)
    ensures Shaped(g.code + h.code, k0, k2) && AllStraight(g.code + h.code)
    ensures g.place.isTemporary ==> ComputedIn(g.code + h.code, g.place)
    ensures h.place.isTemporary ==> ComputedIn(g.code + h.code, h.place)
  {
    hide Shaped, ComputedIn;
    ShapedParts(g.code, h.code, k0, k1, k2);
    if g.place.isTemporary {
      ComputedInParts(g.code, h.code, g.place);
    }
    if h.place.isTemporary {
      ComputedInParts(g.code, h.code, h.place);
    }
  }

  lemma {:induction false} ExprShape(e: Expr, pool: Pool)
    requires Ready(pool) && ExprOk(e)
    ensures var g := GenExpr(e, pool); ExprShaped(g, pool.nextKey, g.pool.nextKey)
    decreases e, 0
  {
    match e
    case Var(x) =>
    case Const(t, v) =>
      ConstantShape(t, v, pool);
    case Negation(t, a) =>
      ExprShape(a, pool);
      NegationShape(t, a, pool);
    case Arithmetic(t, k, a, b) =>
      ExprShape(a, pool);
      ExprPool(a, pool);
      ExprShape(b, GenExpr(a, pool).pool);
      ArithmeticShape(t, k, a, b, pool);
    case Element(x, a) =>
      AddressShape(x, a, pool);
      ElementShape(x, a, pool);
  }

  lemma ConstantShape(t: Type, v: int, pool: Pool)
    requires Ready(pool) && IsNumeric(t)
    ensures var g := GenExpr(Const(t, v), pool); ExprShaped(g, pool.nextKey, g.pool.nextKey)
  {
    var (d, pool1) := Created(pool, t);
    NumericCreated(pool, t);
    var x := ConstantSymbol(pool1, t, v);
    var i := Simple(Assign, Plus, Some(d), Some(x), None);
    TemporaryMade(Assign, Plus, d, Some(x), None);
    assert Shaped([], pool.nextKey, pool.nextKey);
    assert [] + [i] == [i];
    Appended([], i, pool.nextKey, pool.nextKey, AfterConstant(pool1).nextKey);
  }

  lemma NegationShape(t: Type, a: Expr, pool: Pool)
    requires Ready(pool) && ExprOk(Negation(t, a))
              && ExprShaped(GenExpr(a, pool), pool.nextKey, GenExpr(a, pool).pool.nextKey)
    ensures var g := GenExpr(Negation(t, a), pool); ExprShaped(g, pool.nextKey, g.pool.nextKey)
  {
    hide *;
    var g, w := GenExpr(a, pool), GenExpr(Negation(t, a), pool);
    NegationKeys(t, a, pool);
    NegationThen(g, w, pool.nextKey, g.pool.nextKey, w.pool.nextKey);
  }

  lemma NegationKeys(t: Type, a: Expr, pool: Pool)
    requires Ready(pool) && ExprOk(Negation(t, a))
    ensures var g, w := GenExpr(a, pool), GenExpr(Negation(t, a), pool);
      && w.code == g.code + [Simple(UMinus, Plus, Some(w.place), Some(g.place), None)]
      && g.pool.nextKey <= w.pool.nextKey && w.place.isTemporary && !w.place.isConstant && w.place.scope == Local
      && IsNumeric(w.place.typ)
  {
    ExprPool(a, pool);
    var g := GenExpr(a, pool);
    NumericCreated(g.pool, t);
    UnaryPool(pool, g, t);
    hide PoolOk, Available, IsFree, Simple;
  }

  lemma NegationThen(g: Generated, w: Generated, k0: nat, k1: nat, k2: nat)
    requires ExprShaped(g, k0, k1) && k1 <= k2
    requires w.code == g.code + [Simple(UMinus, Plus, Some(w.place), Some(g.place), None)]
    requires w.place.isTemporary && !w.place.isConstant && w.place.scope == Local && IsNumeric(w.place.typ)
    ensures ExprShaped(w, k0, k2)
  {
    var i := Simple(UMinus, Plus, Some(w.place), Some(g.place), None);
    TemporaryMade(UMinus, Plus, w.place, Some(g.place), None);
    hide Made, Shaped, AllStraight, ComputedIn;
    OneOperandThen(g, i, k0, k1, k2);
  }

  lemma KeysGrow(typ: Type, kind: Kind, a: Expr, b: Expr, pool: Pool)
    requires Ready(pool) && ExprOk(Arithmetic(typ, kind, a, b))
    ensures var g, w := GenExpr(a, pool), GenExpr(Arithmetic(typ, kind, a, b), pool); var h := GenExpr(b, g.pool);
      && pool.nextKey <= g.pool.nextKey <= h.pool.nextKey <= w.pool.nextKey
      && w.place.isTemporary && !w.place.isConstant && IsNumeric(w.place.typ)
  {
    ExprPool(a, pool);
    var g := GenExpr(a, pool);
    ExprPool(b, g.pool);
    var h := GenExpr(b, g.pool);
    NumericCreated(h.pool, typ);
    BinaryPool(pool, g, h, typ);
    var (d, pool1) := Created(h.pool, typ);
    assert FreedIfTemporary(FreedIfTemporary(pool1, g.place), h.place).nextKey == pool1.nextKey;
  }

  lemma ArithmeticShape(t: Type, k: Kind, a: Expr, b: Expr, pool: Pool)
    requires Ready(pool) && ExprOk(Arithmetic(t, k, a, b))
    requires var g := GenExpr(a, pool); var h := GenExpr(b, g.pool);
      ExprShaped(g, pool.nextKey, g.pool.nextKey) && ExprShaped(h, g.pool.nextKey, h.pool.nextKey)
    ensures var w := GenExpr(Arithmetic(t, k, a, b), pool); ExprShaped(w, pool.nextKey, w.pool.nextKey)
  {
    var g, w := GenExpr(a, pool), GenExpr(Arithmetic(t, k, a, b), pool);
    var h := GenExpr(b, g.pool);
    hide GenExpr, PoolOk, Available, IsFree, Shrinks, Shaped, AllStraight, ComputedIn;
    KeysGrow(t, k, a, b, pool);
    BinaryGenerated(t, k, a, b, pool);
    var i := Simple(Binary, k, Some(w.place), Some(g.place), Some(h.place));
    TemporaryMade(Binary, k, w.place, Some(g.place), Some(h.place));
    TwoOperandsThen(g, h, i, pool.nextKey, g.pool.nextKey, h.pool.nextKey, w.pool.nextKey);
  }

  lemma AddressShape(x: Symbol, a: Expr, pool: Pool)
    requires Ready(pool) && IsArray(x) && ExprOk(a)
    ensures var g := GenAddress(x, a, pool);
      && ExprShaped(g, pool.nextKey, g.pool.nextKey) && pool.nextKey <= g.place.key < g.pool.nextKey
    decreases a, 1
  {
    ExprShape(a, pool);
    hide *;
    var g, w := GenExpr(a, pool), GenAddress(x, a, pool);
    var i := Simple(IndexArray, Plus, Some(w.place), Some(g.place), Some(x));
    AddressKey(x, a, pool);
    AddressMade(x, w.place, g, pool.nextKey, g.pool.nextKey);
    Appended(g.code, i, pool.nextKey, g.pool.nextKey, w.pool.nextKey);
    AddressPlaced(g, w, i, pool.nextKey, w.pool.nextKey);
  }

  lemma AddressKey(x: Symbol, a: Expr, pool: Pool)
    requires Ready(pool) && IsArray(x) && ExprOk(a)
    ensures var g, w := GenExpr(a, pool), GenAddress(x, a, pool);
      && w.code == g.code + [Simple(IndexArray, Plus, Some(w.place), Some(g.place), Some(x))]
      && w.place.key == g.pool.nextKey && w.pool.nextKey == g.pool.nextKey + 1 && pool.nextKey <= g.pool.nextKey
      && w.place.typ == AddrType && w.place.isTemporary && !w.place.isConstant && w.place.scope == Local
  {
    ExprPool(a, pool);
    var g := GenExpr(a, pool);
    Released(pool, g.pool, g.place);
    hide GenExpr, PoolOk, Available, IsFree, Shrinks, IsNumeric;
    assert FreeOf(FreedIfTemporary(g.pool, g.place), AddrType) == [];
  }

  /** An address that has the next key is new. */
  lemma AddressMade(x: Symbol, d: Symbol, g: Generated, low: nat, middle: nat)
    requires IsArray(x) && d.typ == AddrType && d.isTemporary && !d.isConstant && d.scope == Local
    requires ExprShaped(g, low, middle) && d.key == middle
    ensures var i := Simple(IndexArray, Plus, Some(d), Some(g.place), Some(x));
      && Shaped(g.code, low, middle) && AllStraight(g.code) && low <= middle && Appendable(g.code, i, low, middle + 1)
      && IsTemporaryPlace(i.dest) && RedefinesVariable(i)
  {
    hide ReadsCovered, AllMade, ComputedIn, ResultsReturned;
  }

  lemma AddressPlaced(g: Generated, w: Generated, i: Instruction, low: nat, high: nat)
    requires w.code == g.code + [i] && Shaped(w.code, low, high)
              && i == Simple(IndexArray, Plus, Some(w.place), i.src1, i.src2)
    requires AllStraight(w.code) && ComputedIn(w.code, w.place) && !w.place.isConstant && w.place.typ == AddrType
    ensures ExprShaped(w, low, high)
  {
  }

  lemma ElementShape(x: Symbol, a: Expr, pool: Pool)
    requires Ready(pool) && IsArray(x) && ExprOk(a)
    requires ExprShaped(GenAddress(x, a, pool), pool.nextKey, GenAddress(x, a, pool).pool.nextKey)
    ensures var w := GenExpr(Element(x, a), pool); ExprShaped(w, pool.nextKey, w.pool.nextKey)
  {
    hide *;
    var g, w := GenAddress(x, a, pool), GenExpr(Element(x, a), pool);
    ElementKeys(x, a, pool);
    DerefThen(g, w, pool.nextKey, g.pool.nextKey, w.pool.nextKey);
  }

  lemma ElementKeys(x: Symbol, a: Expr, pool: Pool)
    requires Ready(pool) && IsArray(x) && ExprOk(a)
    ensures var g, w := GenAddress(x, a, pool), GenExpr(Element(x, a), pool);
      && w.code == g.code + [Simple(Deref, Plus, Some(w.place), Some(g.place), None)]
      && g.pool.nextKey <= w.pool.nextKey && w.place.isTemporary && !w.place.isConstant && w.place.scope == Local
      && IsNumeric(w.place.typ)
  {
    AddressPool(x, a, pool);
    NumericCreated(GenAddress(x, a, pool).pool, x.elementType);
    ElementUnfolds(x, a, pool);
    hide GenExpr, GenAddress, Created, PoolOk, Available, IsFree;
  }

  lemma DerefThen(g: Generated, w: Generated, k0: nat, k1: nat, k2: nat)
    requires ExprShaped(g, k0, k1) && k1 <= k2
    requires w.code == g.code + [Simple(Deref, Plus, Some(w.place), Some(g.place), None)]
    requires w.place.isTemporary && !w.place.isConstant && w.place.scope == Local && IsNumeric(w.place.typ)
    ensures ExprShaped(w, k0, k2)
  {
    var i := Simple(Deref, Plus, Some(w.place), Some(g.place), None);
    TemporaryMade(Deref, Plus, w.place, Some(g.place), None);
    hide Made, Shaped, AllStraight, ComputedIn;
    OneOperandThen(g, i, k0, k1, k2);
  }

  // ---------------------------------------------------------------- tests and statements

  lemma ComparisonShape(k: Kind, l: Expr, r: Expr, ifTrue: nat, ifFalse: nat, pool: Pool)
    requires Ready(pool) && TestOk(Comparison(k, l, r))
    ensures var t := GenTest(Comparison(k, l, r), ifTrue, ifFalse, pool); Shaped(t.code, pool.nextKey, t.pool.nextKey)
  {
    hide *;
    var g := GenExpr(l, pool);
    var h := GenExpr(r, g.pool);
    var i, j := JumpIf(k, g.place, h.place, ifTrue), JumpTo(ifFalse);
    OperandShapes(k, l, r, pool);
    ComparisonFacts(k, l, r, ifTrue, ifFalse, pool);
    ComparisonPool(k, l, r, ifTrue, ifFalse, pool);
    JumpMade(k, g, h, ifTrue, pool.nextKey, h.pool.nextKey);
    TwoOperandsThen(g, h, i, pool.nextKey, g.pool.nextKey, h.pool.nextKey, h.pool.nextKey);
    LabelShaped(ifFalse, h.pool.nextKey);
    ShapedParts(g.code + h.code + [i], [j], pool.nextKey, h.pool.nextKey, h.pool.nextKey);
    assert g.code + h.code + [i] + [j] == g.code + h.code + [i, j];
  }

  lemma OperandShapes(k: Kind, l: Expr, r: Expr, pool: Pool)
    requires Ready(pool) && TestOk(Comparison(k, l, r))
    ensures var g := GenExpr(l, pool); var h := GenExpr(r, g.pool);
      && ExprShaped(g, pool.nextKey, g.pool.nextKey) && ExprShaped(h, g.pool.nextKey, h.pool.nextKey) && IsRelational(k)
  {
    ExprPool(l, pool);
    ExprShape(l, pool);
    ExprShape(r, GenExpr(l, pool).pool);
  }

  lemma ComparisonPool(k: Kind, l: Expr, r: Expr, ifTrue: nat, ifFalse: nat, pool: Pool)
    ensures GenTest(Comparison(k, l, r), ifTrue, ifFalse, pool).pool == GenExpr(r, GenExpr(l, pool).pool).pool
  {
  }

  lemma JumpMade(k: Kind, g: Generated, h: Generated, l: nat, low: nat, high: nat)
    requires IsRelational(k) && !g.place.isConstant
    ensures UsesOnly(JumpIf(k, g.place, h.place, l), g.place, h.place, low, high)
  {
  }

  lemma LabelShaped(l: nat, k: nat)
    ensures Shaped([LabelHere(l)], k, k) && Shaped([JumpTo(l)], k, k)
  {
    PlainShaped(LabelHere(l), k, k);
    PlainShaped(JumpTo(l), k, k);
  }

  lemma TwoTestsShaped(a: Code, l: nat, b: Code, low: nat, middle: nat, high: nat)
    requires Shaped(a, low, middle) && Shaped(b, middle, high)
    ensures Shaped(a + [LabelHere(l)] + b, low, high)
  {
    LabelShaped(l, middle);
    ShapedParts(a, [LabelHere(l)], low, middle, middle);
    ShapedParts(a + [LabelHere(l)], b, low, middle, high);
  }

  lemma {:induction false} TestShape(b: Test, ifTrue: nat, ifFalse: nat, pool: Pool)
    requires Ready(pool) && TestOk(b)
    ensures var t := GenTest(b, ifTrue, ifFalse, pool); Shaped(t.code, pool.nextKey, t.pool.nextKey)
  {
    match b
    case Comparison(k, l, r) =>
      ComparisonShape(k, l, r, ifTrue, ifFalse, pool);
    case And(l, r) =>
      var next := pool.nextLabel;
      LabelsTaken(pool, 1);
      TestPool(l, next, ifFalse, WithLabels(pool, 1));
      var g := GenTest(l, next, ifFalse, WithLabels(pool, 1));
      TestShape(l, next, ifFalse, WithLabels(pool, 1));
      TestShape(r, ifTrue, ifFalse, g.pool);
      var h := GenTest(r, ifTrue, ifFalse, g.pool);
      hide Shaped;
      TwoTestsShaped(g.code, next, h.code, pool.nextKey, g.pool.nextKey, h.pool.nextKey);
    case Or(l, r) =>
      var next := pool.nextLabel;
      LabelsTaken(pool, 1);
      TestPool(l, ifTrue, next, WithLabels(pool, 1));
      var g := GenTest(l, ifTrue, next, WithLabels(pool, 1));
      TestShape(l, ifTrue, next, WithLabels(pool, 1));
      TestShape(r, ifTrue, ifFalse, g.pool);
      var h := GenTest(r, ifTrue, ifFalse, g.pool);
      hide Shaped;
      TwoTestsShaped(g.code, next, h.code, pool.nextKey, g.pool.nextKey, h.pool.nextKey);
    case Not(a) =>
      TestShape(a, ifFalse, ifTrue, pool);
  }

  lemma SetVariableShape(x: Symbol, e: Expr, pool: Pool)
    requires Ready(pool) && StmtOk(SetVariable(x, e))
    ensures var w := GenStmt(SetVariable(x, e), pool); Shaped(w.code, pool.nextKey, w.pool.nextKey)
  {
    var g, w := GenExpr(e, pool), GenStmt(SetVariable(x, e), pool);
    ExprPool(e, pool);
    ExprShape(e, pool);
    var i := Simple(Assign, Plus, Some(x), Some(g.place), None);
    Released(pool, g.pool, g.place);
    assert w.code == g.code + [i] && w.pool.nextKey == g.pool.nextKey && Made(i);
    hide GenExpr, GenStmt, PoolOk, Available, IsFree, Made, ReadsCovered, AddressKeys, AllMade, ExprOk, ResultsReturned;
    Appended(g.code, i, pool.nextKey, g.pool.nextKey, g.pool.nextKey);
  }

  lemma SetElementShape(x: Symbol, a: Expr, e: Expr, pool: Pool)
    requires Ready(pool) && StmtOk(SetElement(x, a, e))
    ensures var w := GenStmt(SetElement(x, a, e), pool); Shaped(w.code, pool.nextKey, w.pool.nextKey)
  {
    hide *;
    var g := GenAddress(x, a, pool);
    var h := GenExpr(e, g.pool);
    SetElementCode(x, a, e, pool);
    SetElementPool(x, a, e, pool);
    AddressShape(x, a, pool);
    ExprShape(e, g.pool);
    StoreMade(g, h, pool.nextKey, g.pool.nextKey, h.pool.nextKey);
    TwoOperandsThen(g, h, Simple(Assign, Plus, Some(g.place), Some(h.place), None),
                    pool.nextKey, g.pool.nextKey, h.pool.nextKey, h.pool.nextKey);
  }

  lemma SetElementPool(x: Symbol, a: Expr, e: Expr, pool: Pool)
    requires Ready(pool) && StmtOk(SetElement(x, a, e))
    ensures var g := GenAddress(x, a, pool); var h := GenExpr(e, g.pool);
      && GenStmt(SetElement(x, a, e), pool).pool.nextKey == h.pool.nextKey && g.pool.nextKey <= h.pool.nextKey
      && g.place.isTemporary && g.place.scope == Local && IsNumeric(h.place.typ)
  {
    AddressPool(x, a, pool);
    var g := GenAddress(x, a, pool);
    ExprPool(e, g.pool);
    hide GenExpr, GenAddress, PoolOk, Available, IsFree;
  }

  lemma StoreMade(g: Generated, h: Generated, low: nat, middle: nat, high: nat)
    requires g.place.typ == AddrType && g.place.isTemporary && g.place.scope == Local && IsNumeric(h.place.typ)
    requires low <= g.place.key < middle <= high && ExprShaped(g, low, middle) && ExprShaped(h, middle, high)
    ensures UsesOnly(Simple(Assign, Plus, Some(g.place), Some(h.place), None), g.place, h.place, low, high)
  {
  }

  // ---------------------------------------------------------------- calls

  /** The code of arguments, and the computation of their places. */
  ghost predicate ArgumentsShaped(code: Code, places: seq<Symbol>, low: nat, high: nat) {
    && Shaped(code, low, high) && AllStraight(code)
    && forall x :: x in places ==> !x.isConstant && (x.isTemporary ==> ComputedIn(code, x))
  }

  lemma ArgumentShape(e: Expr, pool: Pool)
    requires Ready(pool) && ArgumentOk(e)
    ensures var g := GenExpr(e, pool); ArgumentsShaped(g.code, [g.place], pool.nextKey, g.pool.nextKey)
  {
    if ExprOk(e) {
      ExprShape(e, pool);
      hide GenExpr, Shaped;
    }
  }

  lemma {:induction false} ArgumentsShape(args: seq<Expr>, pool: Pool)
    requires Ready(pool) && forall e :: e in args ==> ArgumentOk(e)
    ensures var g := GenArguments(args, pool); ArgumentsShaped(g.code, g.places, pool.nextKey, g.pool.nextKey)
  {
    if args != [] {
      var g := GenExpr(args[0], pool);
      var r := GenArguments(args[1..], g.pool);
      ArgumentPool(args[0], pool);
      ArgumentShape(args[0], pool);
      ArgumentsShape(args[1..], g.pool);
      hide GenExpr, ArgumentsShaped, PoolOk, Shrinks, ArgumentOk;
      MoreArguments(g.code, [g.place], r.code, r.places, pool.nextKey, g.pool.nextKey, r.pool.nextKey);
    }
  }

  lemma MoreArguments(a: Code, x: seq<Symbol>, b: Code, y: seq<Symbol>, low: nat, middle: nat, high: nat)
    requires ArgumentsShaped(a, x, low, middle) && ArgumentsShaped(b, y, middle, high)
    ensures ArgumentsShaped(a + b, x + y, low, high)
  {
    ShapedParts(a, b, low, middle, high);
    hide Shaped, ComputedIn, IsStraight;
    forall z | z in x + y ensures !z.isConstant && (z.isTemporary ==> ComputedIn(a + b, z)) {
      if z.isTemporary {
        ComputedInParts(a, b, z);
      }
    }
  }

  lemma {:induction false} ParamsShape(code: Code, places: seq<Symbol>, low: nat, high: nat)
    requires ArgumentsShaped(code, places, low, high)
    ensures Shaped(code + ParamCode(places), low, high) && AllStraight(code + ParamCode(places))
  {
    if places == [] {
      assert code + [] == code;
    } else {
      var c, i := code + ParamCode(places[1..]), Named(Param, places[0]);
      ParamsShape(code, places[1..], low, high);
      hide Shaped, ComputedIn, IsStraight, AllStraight;
      ParamAppends(code, ParamCode(places[1..]), places[0], low, high);
      Appended(c, i, low, high, high);
      assert c + [i] == code + (ParamCode(places[1..]) + [i]);
    }
  }

  lemma ParamAppends(a: Code, b: Code, x: Symbol, low: nat, high: nat)
    requires !x.isConstant && (x.isTemporary ==> ComputedIn(a, x))
    ensures var i := Named(Param, x); Appendable(a + b, i, low, high) && !IsResultCopy(i) && i.op == Param
  {
    if x.isTemporary {
      ComputedInParts(a, b, x);
    }
    hide ComputedIn;
  }

  lemma CallShape(code: Code, f: Symbol, low: nat, high: nat)
    requires Shaped(code, low, high) && AllStraight(code) && IsFunctionName(f)
    ensures Shaped(code + [Named(Call, f)], low, high)
  {
    var i := Named(Call, f);
    assert Appendable(code, i, low, high) && !IsResultCopy(i);
    hide Shaped, AllStraight, Appendable, IsResultCopy;
    assert low <= high by {
      ShapedInOrder(code, low, high);
    }
    Appended(code, i, low, high, high);
  }

  lemma ShapedInOrder(code: Code, low: nat, high: nat)
    requires Shaped(code, low, high)
    ensures low <= high
  {
  }

  lemma ReceiveShape(x: Symbol, d: Symbol, low: nat, high: nat)
    requires d.isTemporary && d.scope == Local && !d.isConstant && IsNumeric(d.typ) && IsVariable(x) && low <= high
    ensures Shaped([Simple(Retrieve, Plus, Some(d), None, None), Simple(Assign, Plus, Some(x), Some(d), None)],
                   low, high)
  {
    var i, j := Simple(Retrieve, Plus, Some(d), None, None), Simple(Assign, Plus, Some(x), Some(d), None);
    assert Shaped([], low, high) && Appendable([], i, low, high) && !IsResultCopy(i) && IsTemporaryPlace(i.dest);
    Appended([], i, low, high, high);
    assert [] + [i] == [i] && ComputedIn([i], d);
    assert Appendable([i], j, low, high) && !IsResultCopy(j);
    hide Shaped, AllStraight, Appendable, IsResultCopy, Simple;
    Appended([i], j, low, high, high);
    assert [i] + [j] == [i, j];
  }

  lemma InvokeShape(f: Symbol, args: seq<Expr>, x: Option<Symbol>, t: Type, pool: Pool)
    requires Ready(pool) && StmtOk(Invoke(f, args, x, t))
    ensures var w := GenStmt(Invoke(f, args, x, t), pool); Shaped(w.code, pool.nextKey, w.pool.nextKey)
  {
    hide *;
    var g, w := GenArguments(args, pool), GenStmt(Invoke(f, args, x, t), pool);
    var k0, k1, k2 := pool.nextKey, g.pool.nextKey, w.pool.nextKey;
    InvokeParts(f, args, x, t, pool);
    InvokeKeys(f, args, x, t, pool);
    ArgumentsShape(args, pool);
    ParamsShape(g.code, g.places, k0, k1);
    CallShape(g.code + ParamCode(g.places), f, k0, k1);
    CallIsLast(f, g.places);
    assert g.code + ParamCode(g.places) + [Named(Call, f)] == g.code + CallCode(f, g.places);
    if x.Some? {
      var d := Created(AllFreed(g.pool, g.places), t).0;
      ResultPlace(f, args, x, t, pool);
      ReceiveShape(x.value, d, k1, k2);
      ShapedParts(g.code + CallCode(f, g.places),
        [Simple(Retrieve, Plus, Some(d), None, None), Simple(Assign, Plus, x, Some(d), None)], k0, k1, k2);
    }
  }

  lemma InvokeKeys(f: Symbol, args: seq<Expr>, x: Option<Symbol>, t: Type, pool: Pool)
    requires Ready(pool) && StmtOk(Invoke(f, args, x, t))
    ensures var g, w := GenArguments(args, pool), GenStmt(Invoke(f, args, x, t), pool);
      g.pool.nextKey <= w.pool.nextKey && (x.None? ==> g.pool.nextKey == w.pool.nextKey)
    ensures IsFunctionName(f) && (x.Some? ==> IsVariable(x.value))
  {
    var g := GenArguments(args, pool);
    InvokeUnfolds(f, args, x, t, pool);
    ArgumentsPool(args, pool);
    hide GenArguments, GenStmt, PoolOk, Available, AllFreed, Shrinks, Created;
    AllReleased(pool, g.pool, g.places);
    if x.Some? {
      ResultPlace(f, args, x, t, pool);
      CreatedKeys(AllFreed(g.pool, g.places), t);
    }
  }

  lemma CreatedKeys(pool: Pool, t: Type)
    ensures pool.nextKey <= Created(pool, t).1.nextKey
  {
  }

  // ---------------------------------------------------------------- returns

  lemma ExitShape(f: Symbol, t: Type, e: Option<Expr>, pool: Pool)
    requires Ready(pool) && StmtOk(Exit(f, t, e))
    ensures var w := GenStmt(Exit(f, t, e), pool); Shaped(w.code, pool.nextKey, w.pool.nextKey)
  {
    LeaveShaped(f, pool.nextKey);
    if e.None? {
      PlainShaped(Simple(Return, Plus, None, None, None), pool.nextKey, pool.nextKey);
      ShapedParts([Named(Leave, f)], [Simple(Return, Plus, None, None, None)],
        pool.nextKey, pool.nextKey, pool.nextKey);
      assert [Named(Leave, f)] + [Simple(Return, Plus, None, None, None)]
        == [Named(Leave, f), Simple(Return, Plus, None, None, None)];
    } else {
      ValueShape(f, t, e.value, pool);
    }
  }

  lemma LeaveShaped(f: Symbol, k: nat)
    requires IsFunctionName(f)
    ensures Shaped([Named(Leave, f)], k, k)
  {
  }

  lemma ValueShape(f: Symbol, t: Type, e: Expr, pool: Pool)
    requires Ready(pool) && StmtOk(Exit(f, t, Some(e))) && Shaped([Named(Leave, f)], pool.nextKey, pool.nextKey)
    ensures var w := GenStmt(Exit(f, t, Some(e)), pool); Shaped(w.code, pool.nextKey, w.pool.nextKey)
  {
    hide *;
    var g, w := GenExpr(e, pool), GenStmt(Exit(f, t, Some(e)), pool);
    var d := Created(g.pool, t).0;
    var i, j := Simple(Assign, Plus, Some(d), Some(g.place), None), Named(Return, d);
    ResultParts(f, t, e, pool);
    ResultShaped(g, i, d, pool.nextKey, g.pool.nextKey, w.pool.nextKey);
    ShapedParts([Named(Leave, f)], g.code + [i, j], pool.nextKey, pool.nextKey, w.pool.nextKey);
    ExitUnfolds(f, t, e, pool);
    assert [Named(Leave, f)] + (g.code + [i, j]) == [Named(Leave, f)] + g.code + [i, j];
  }

  lemma ResultParts(f: Symbol, t: Type, e: Expr, pool: Pool)
    requires Ready(pool) && StmtOk(Exit(f, t, Some(e)))
    ensures var g := GenExpr(e, pool);
      var (d, pool1) := Created(g.pool, t);
      && ExprShaped(g, pool.nextKey, g.pool.nextKey) && g.pool.nextKey <= pool1.nextKey
      && GenStmt(Exit(f, t, Some(e)), pool).pool.nextKey == pool1.nextKey
      && d.isTemporary && d.scope == Local && !d.isConstant && IsNumeric(d.typ) && d != g.place
      && IsNumeric(g.place.typ)
  {
    var g := GenExpr(e, pool);
    ExprPool(e, pool);
    ExprShape(e, pool);
    NumericCreated(g.pool, t);
    ResultPlaced(pool, g, t);
    ExitUnfolds(f, t, e, pool);
  }

  /** The temporary for the result is not that of the value. */
  lemma ResultPlaced(pool: Pool, g: Generated, t: Type)
    requires ExprPlaced(pool, g) && Ready(g.pool) && IsNumeric(t)
    requires PoolStep(g.pool, Created(g.pool, t).1) && PlaceOk(g.pool, Created(g.pool, t).1, Created(g.pool, t).0)
    ensures var (d, pool1) := Created(g.pool, t);
            d != g.place && d.scope == Local && !d.isConstant && IsNumeric(g.place.typ)
              && g.pool.nextKey <= pool1.nextKey
  {
  }

  lemma ResultShaped(g: Generated, i: Instruction, d: Symbol, low: nat, middle: nat, high: nat)
    requires ExprShaped(g, low, middle) && middle <= high && i == Simple(Assign, Plus, Some(d), Some(g.place), None)
    requires d.isTemporary && d.scope == Local && !d.isConstant && IsNumeric(d.typ) && d != g.place
    requires IsNumeric(g.place.typ)
    ensures Shaped(g.code + [i, Named(Return, d)], low, high)
  {
    var j := Named(Return, d);
    var c := g.code + [i];
    assert Made(i) && Made(j) && c[|g.code|] == i;
    assert Appendable(g.code, i, low, high);
    AppendedComputes(g.code, i);
    assert AllStraight(c) && Appendable(c, j, low, high);
    NoResultCopied(g.code);
    hide Made, ComputedIn, Reads, ReadsCovered, AddressKeys, Appendable, Named, IsResultCopy, Simple;
    AppendedReads(g.code, i, low, high);
    AppendedReads(c, j, low, high);
    AppendedKeys(g.code, i, low, middle, high);
    AppendedKeys(c, j, low, high, high);
    assert c + [j] == g.code + [i, j];
    hide AllStraight, RedefinesVariable;
    assert ResultsReturned(c + [j]);
  }

  // ---------------------------------------------------------------- branches and loops

  lemma BranchShape(test: Code, g: Code, h: Option<Code>, l: nat, k0: nat, k1: nat, k2: nat, k3: nat)
    requires Shaped(test, k0, k1) && Shaped(g, k1, k2) && (h.Some? ==> Shaped(h.value, k2, k3))
              && (h.None? ==> k3 == k2)
    ensures h.Some? ==>
              Shaped(test + [LabelHere(l)] + g + [JumpTo(l + 2), LabelHere(l + 1)] + h.value
                + [LabelHere(l + 2)], k0, k3)
    ensures h.None? ==> Shaped(test + [LabelHere(l)] + g + [LabelHere(l + 2)], k0, k3)
  {
    hide Shaped, LabelHere, JumpTo;
    TwoTestsShaped(test, l, g, k0, k1, k2);
    var a := test + [LabelHere(l)] + g;
    LabelShaped(l + 2, k2);
    LabelShaped(l + 1, k2);
    LabelShaped(l + 2, k3);
    ShapedParts(a, [LabelHere(l + 2)], k0, k2, k2);
    if h.Some? {
      ShapedParts([JumpTo(l + 2)], [LabelHere(l + 1)], k2, k2, k2);
      assert [JumpTo(l + 2)] + [LabelHere(l + 1)] == [JumpTo(l + 2), LabelHere(l + 1)];
      ShapedParts(a, [JumpTo(l + 2), LabelHere(l + 1)], k0, k2, k2);
      ShapedParts(a + [JumpTo(l + 2), LabelHere(l + 1)], h.value, k0, k2, k3);
      ShapedParts(a + [JumpTo(l + 2), LabelHere(l + 1)] + h.value, [LabelHere(l + 2)], k0, k3, k3);
    }
  }

  lemma LoopShape(l: Loop)
    requires LoopOk(l)
    requires Shaped(BodyCode(l).code, l.pool.nextKey, BodyCode(l).pool.nextKey)
    requires Shaped(UpdateCode(l).code, BodyCode(l).pool.nextKey, UpdateCode(l).pool.nextKey)
    ensures Shaped(LoopCode(l), l.pool.nextKey, ConditionCode(l).pool.nextKey)
  {
    hide *;
    var b, u, t, n := BodyCode(l).code, UpdateCode(l).code, ConditionCode(l).code, l.bodyLabel;
    var k0, k1, k2, k3 := l.pool.nextKey, BodyCode(l).pool.nextKey, UpdateCode(l).pool.nextKey,
      ConditionCode(l).pool.nextKey;
    ConditionShape(l);
    LoopParts(l);
    LabelShaped(n + 1, k0);
    LabelShaped(n, k0);
    LabelShaped(n + 1, k2);
    LabelShaped(n + 2, k3);
    var j := LoopStart(l);
    ShapedParts([JumpTo(n + 1)], [LabelHere(n)], k0, k0, k0);
    assert [JumpTo(n + 1)] + [LabelHere(n)] == j;
    ShapedParts(j, b, k0, k0, k1);
    ShapedParts(j + b, u, k0, k1, k2);
    ShapedParts(j + b + u, [LabelHere(n + 1)], k0, k2, k2);
    ShapedParts(j + b + u + [LabelHere(n + 1)], t, k0, k2, k3);
    ShapedParts(j + b + u + [LabelHere(n + 1)] + t, [LabelHere(n + 2)], k0, k3, k3);
  }

  lemma ConditionShape(l: Loop)
    requires LoopOk(l)
    ensures Shaped(ConditionCode(l).code, UpdateCode(l).pool.nextKey, ConditionCode(l).pool.nextKey)
  {
    LoopPools(l);
    if l.condition.Some? {
      TestShape(l.condition.value, l.bodyLabel, l.bodyLabel + 2, UpdateCode(l).pool);
    } else {
      LabelShaped(l.bodyLabel, UpdateCode(l).pool.nextKey);
    }
  }

  /** The code of every statement has the shape. */
  lemma {:induction false} StmtShape(st: Stmt, pool: Pool)
    requires Ready(pool) && StmtOk(st)
    ensures var w := GenStmt(st, pool); Shaped(w.code, pool.nextKey, w.pool.nextKey)
  {
    match st
    case Nothing =>
    case SetVariable(x, e) =>
      SetVariableShape(x, e, pool);
    case SetElement(x, a, e) =>
      SetElementShape(x, a, e, pool);
    case Branch(b, s, e) =>
      GeneratedLabels.BranchFactsOfPools(b, s, e, pool);
      var l := pool.nextLabel;
      var ifFalse := if e.Some? then l + 1 else l + 2;
      var test := GenTest(b, l, ifFalse, WithLabels(pool, 3));
      var g := GenStmt(s, test.pool);
      TestShape(b, l, ifFalse, WithLabels(pool, 3));
      StmtShape(s, test.pool);
      BranchUnfolds(b, s, e, pool);
      if e.Some? {
        StmtShape(e.value, g.pool);
        BranchShape(test.code, g.code, Some(GenStmt(e.value, g.pool).code), l,
                    pool.nextKey, test.pool.nextKey, g.pool.nextKey, GenStmt(e.value, g.pool).pool.nextKey);
      } else {
        BranchShape(test.code, g.code, None, l, pool.nextKey, test.pool.nextKey, g.pool.nextKey, g.pool.nextKey);
      }
    case While(b, s) =>
      var l := Loop(Some(b), Nothing, s, WithLabels(pool, 3), pool.nextLabel);
      LabelsTaken(pool, 3);
      StmtShape(s, l.pool);
      StmtPool(s, l.pool);
      NoUpdate(l);
      assert Shaped([], BodyCode(l).pool.nextKey, BodyCode(l).pool.nextKey);
      LoopShape(l);
      WhileCode(b, s, pool);
      WhileUnfolds(b, s, pool);
      WhileCondition(b, s, pool);
    case For(i, b, u, s) =>
      LabelsTaken(pool, 3);
      StmtShape(i, WithLabels(pool, 3));
      StmtPool(i, WithLabels(pool, 3));
      var f := GenStmt(i, WithLabels(pool, 3));
      var l := Loop(b, u, s, f.pool, pool.nextLabel);
      StmtShape(s, f.pool);
      LoopPools(l);
      StmtShape(u, BodyCode(l).pool);
      LoopShape(l);
      ForCode(i, b, u, s, pool);
      ShapedParts(f.code, LoopCode(l), pool.nextKey, f.pool.nextKey, ConditionCode(l).pool.nextKey);
    case Invoke(f, args, x, t) =>
      InvokeShape(f, args, x, t, pool);
    case Exit(f, t, e) =>
      ExitShape(f, t, e, pool);
    case Sequence(a, b) =>
      StmtPool(a, pool);
      StmtShape(a, pool);
      StmtShape(b, GenStmt(a, pool).pool);
      var g := GenStmt(a, pool);
      ShapedParts(g.code, GenStmt(b, g.pool).code, pool.nextKey, g.pool.nextKey, GenStmt(st, pool).pool.nextKey);
  }
}
