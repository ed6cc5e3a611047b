/**
 * Where peephole optimization changes what generated code does: a character of an array that is
 * assigned to an int variable is no longer cut to a byte.
 */
module CharacterCopies {
  import opened Instructions
  import opened Semantics
  import opened Behaviour
  import opened SyntaxTrees
  import opened TemporaryPool
  import opened CodeGeneration
  import opened GeneratedRuns
  import opened StatementRuns
  import opened GeneratedFunctions
  import opened GeneratedShape
  import opened CopiedTypes
  import opened PeepholeRules
  import opened Peephole
  import opened CodeOptimization
  import opened GeneratedAllowed
  import Examples

  // ---------------------------------------------------------------- a machine with bytes

  function Computed(k: Kind, a: int, b: int): int {
    match k
    case Plus => a + b
    case Minus => a - b
    case Mult => a * b
    case _ => if b == 0 then 0 else a / b
  }

  /** A character is a byte. */
  const BYTES := Machine(
    (t: Type, v: int) => if t == CharType then v % 256 else v, (k: Kind, a: int, b: int) => Computed(k, a, b),
      (v: int) => -v,
    Examples.Callee)

  lemma BytesAreValid()
    ensures BYTES.Valid() && BYTES.IntIsWidest()
  {
  }

  // ---------------------------------------------------------------- expressions where all memory holds 256

  /** The value of an expression when all variables are zero and all memory that it reads holds 256. */
  function Flat(e: Expr): int {
    match e
    case Var(x) => BYTES.fit(x.typ, 0)
    case Const(t, v) => BYTES.fit(t, v)
    case Negation(t, a) => BYTES.fit(t, BYTES.negate(Flat(a)))
    case Arithmetic(t, k, a, b) => BYTES.fit(t, BYTES.arithmetic(k, Flat(a), Flat(b)))
    case Element(x, a) => BYTES.fit(x.elementType, 256)
  }

  function FlatAddress(x: Symbol, a: Expr): int {
    BYTES.fit(AddrType, BYTES.fit(x.typ, 0) + Flat(a) * ElementSize(x.elementType))
  }

  /** The addresses that it reads. */
  function Touched(e: Expr): set<int> {
    match e
    case Var(_) => {}
    case Const(_, _) => {}
    case Negation(_, a) => Touched(a)
    case Arithmetic(_, _, a, b) => Touched(a) + Touched(b)
    case Element(x, a) => Touched(a) + {FlatAddress(x, a)}
  }

  function FlatState(e: Expr, pc: nat): State {
    Examples.StartState(map[]).(pc := pc, memory := map a | a in Touched(e) :: 256)
  }

  lemma {:induction false} EvalFlat(e: Expr, s: State)
    requires ExprOk(e) && s.globals == map[] && s.locals == map[]
    requires forall a :: a in Touched(e) ==> a in s.memory && s.memory[a] == 256
    ensures Eval(BYTES, s, e) == Flat(e)
  {
    match e
    case Var(x) =>
    case Const(t, v) =>
    case Negation(t, a) =>
      EvalFlat(a, s);
    case Arithmetic(t, k, a, b) =>
      EvalFlat(a, s);
      EvalFlat(b, s);
    case Element(x, a) =>
      EvalFlat(a, s);
  }

  // ---------------------------------------------------------------- expressions keep out of the pass's way

  /** Every instruction computes an available temporary, and no two assignments in a row the same one. */
  ghost predicate Quiet(code: Code, pool: Pool) {
    && (forall p :: 0 <= p < |code| ==>
          && code[p].dest.Some? && Available(pool, code[p].dest.value)
          && (code[p].op == Assign ==> code[p].dest.value.typ != AddrType))
    && (forall p :: 0 <= p < |code| - 1 && code[p].op == Assign && code[p + 1].op == Assign ==>
          code[p].dest != code[p + 1].dest)
  }

  /** The last instruction computes the place. */
  ghost predicate EndsIn(code: Code, x: Symbol) {
    code != [] ==> code[|code| - 1].dest == Some(x)
  }

  lemma QuietThen(code: Code, i: Instruction, pool: Pool, pool1: Pool)
    requires Quiet(code, pool) && Shrinks(pool, pool1) && i.op != Assign && i.dest.Some?
              && Available(pool1, i.dest.value)
    ensures Quiet(code + [i], pool)
  {
    hide Available;
    var c := code + [i];
    assert forall p :: 0 <= p < |code| ==> c[p] == code[p];
  }

  lemma QuietParts(a: Code, b: Code, x: Symbol, pool: Pool, pool1: Pool)
    requires Quiet(a, pool) && Quiet(b, pool1) && Shrinks(pool, pool1) && EndsIn(a, x) && !Available(pool1, x)
    ensures Quiet(a + b, pool)
  {
    hide Available;
    var c := a + b;
    assert forall p :: 0 <= p < |a| ==> c[p] == a[p];
    assert forall p :: |a| <= p < |c| ==> c[p] == b[p - |a|];
    forall p | 0 <= p < |c| - 1 && c[p].op == Assign && c[p + 1].op == Assign ensures c[p].dest != c[p + 1].dest {
      if p == |a| - 1 {
        assert Available(pool1, b[0].dest.value);
      } else if p >= |a| {
        assert b[p - |a| + 1] == c[p + 1];
      }
    }
  }

  lemma {:induction false} ExprQuiet(e: Expr, pool: Pool)
    requires Ready(pool) && ExprOk(e)
    ensures var g := GenExpr(e, pool); Quiet(g.code, pool) && EndsIn(g.code, g.place)
    decreases e, 0
  {
    match e
    case Var(x) =>
    case Const(t, v) =>
      NumericCreated(pool, t);
    case Negation(t, a) =>
      ExprQuiet(a, pool);
      NegationQuiet(t, a, pool);
    case Arithmetic(t, k, a, b) =>
      ExprQuiet(a, pool);
      ExprPool(a, pool);
      ExprQuiet(b, GenExpr(a, pool).pool);
      ArithmeticQuiet(t, k, a, b, pool);
    case Element(x, a) =>
      AddressQuiet(x, a, pool);
      AddressPool(x, a, pool);
      ElementGenerated(x, a, pool);
      var g, w := GenAddress(x, a, pool), GenExpr(e, pool);
      ThenQuiet(g.code, Deref, Plus, w.place, Some(g.place), None, pool, g.pool);
  }

  lemma ThenQuiet(
      code: Code, op: Operation, k: Kind, d: Symbol, x: Option<Symbol>, y: Option<Symbol>, pool: Pool, pool1: Pool)
    requires Quiet(code, pool) && Shrinks(pool, pool1) && op != Assign && Available(pool1, d)
    ensures var c := code + [Simple(op, k, Some(d), x, y)]; Quiet(c, pool) && EndsIn(c, d)
  {
    hide Available;
    QuietThen(code, Simple(op, k, Some(d), x, y), pool, pool1);
  }

  lemma NegationQuiet(t: Type, a: Expr, pool: Pool)
    requires Ready(pool) && ExprOk(Negation(t, a)) && Quiet(GenExpr(a, pool).code, pool)
    ensures var w := GenExpr(Negation(t, a), pool); Quiet(w.code, pool) && EndsIn(w.code, w.place)
  {
    var g, w := GenExpr(a, pool), GenExpr(Negation(t, a), pool);
    ExprPool(a, pool);
    NumericCreated(g.pool, t);
    assert w.code == g.code + [Simple(UMinus, Plus, Some(w.place), Some(g.place), None)] && Available(g.pool, w.place);
    hide *;
    ThenQuiet(g.code, UMinus, Plus, w.place, Some(g.place), None, pool, g.pool);
  }

  lemma ArithmeticQuiet(t: Type, k: Kind, a: Expr, b: Expr, pool: Pool)
    requires Ready(pool) && ExprOk(Arithmetic(t, k, a, b))
    requires var g := GenExpr(a, pool); var h := GenExpr(b, g.pool);
      Quiet(g.code, pool) && EndsIn(g.code, g.place) && Quiet(h.code, g.pool)
    ensures var w := GenExpr(Arithmetic(t, k, a, b), pool); Quiet(w.code, pool) && EndsIn(w.code, w.place)
  {
    hide *;
    var g, w := GenExpr(a, pool), GenExpr(Arithmetic(t, k, a, b), pool);
    var h := GenExpr(b, g.pool);
    BinaryGenerated(t, k, a, b, pool);
    QuietParts(g.code, h.code, g.place, pool, g.pool);
    ThenQuiet(g.code + h.code, Binary, k, w.place, Some(g.place), Some(h.place), pool, h.pool);
  }

  lemma AddressQuiet(x: Symbol, a: Expr, pool: Pool)
    requires Ready(pool) && IsArray(x) && ExprOk(a)
    ensures var w := GenAddress(x, a, pool); Quiet(w.code, pool) && EndsIn(w.code, w.place)
    decreases a, 1
  {
    ExprQuiet(a, pool);
    AddressGenerated(x, a, pool);
    var g, w := GenExpr(a, pool), GenAddress(x, a, pool);
    hide *;
    ThenQuiet(g.code, IndexArray, Plus, w.place, Some(g.place), Some(x), pool, FreedIfTemporary(g.pool, g.place));
  }

  // ---------------------------------------------------------------- what the pass does to the code

  /** The code of `x = y[a]` in a function: where the character is read, and what surrounds that. */
  ghost predicate Assigns(f: Function, x: Symbol, y: Symbol, a: Expr) {
    f.body == SetVariable(x, Element(y, a)) && FunctionOk(f)
  }

  /** The position of the instruction that reads the element. */
  function ReadAt(f: Function, y: Symbol, a: Expr): nat {
    |f.declarations| + 1 + |GenAddress(y, a, f.pool).code|
  }

  /** Declarations, Enter, the code `g` that leaves the address in `place`, and what follows it. */
  ghost predicate Assembled(
      c: Code, declarations: seq<Symbol>, header: Symbol, g: Code, place: Symbol, d: Symbol, x: Symbol)
  {
    var n := |declarations|;
    var p := n + 1 + |g|;
    && |c| == p + 4 && (forall i :: 0 <= i < n ==> c[i] == Named(GlobalDeclaration, declarations[i]))
    && c[n] == Named(Enter, header) && Holds(c, n + 1, g)
    && c[p] == Simple(Deref, Plus, Some(d), Some(place), None)
    && c[p + 1] == Simple(Assign, Plus, Some(x), Some(d), None)
    && c[p + 2] == Named(Leave, header) && c[p + 3] == Simple(Return, Plus, None, None, None)
  }

  ghost predicate IsCodeOf(c: Code, f: Function, x: Symbol, y: Symbol, a: Expr) {
    var g := GenAddress(y, a, f.pool);
    Assembled(c, f.declarations, f.header, g.code, g.place, GenExpr(Element(y, a), f.pool).place, x)
  }

  lemma CodeIsPlaced(f: Function, x: Symbol, y: Symbol, a: Expr)
    requires Assigns(f, x, y, a)
    ensures IsCodeOf(FunctionCode(f), f, x, y, a)
  {
    hide *;
    var e, c, n := Element(y, a), FunctionCode(f), |f.declarations|;
    var g, w := GenAddress(y, a, f.pool), GenExpr(e, f.pool);
    AssignsParts(f, x, y, a);
    FunctionPlaced(f);
    SetVariableCode(x, e, f.pool);
    ElementGenerated(y, a, f.pool);
    AssignedBody(f, x, e);
    HoldsTwo(c, n + 1, GenStmt(SetVariable(x, e), f.pool).code, Named(Leave, f.header),
             Simple(Return, Plus, None, None, None));
    HoldsLast(c, n + 1, w.code, Simple(Assign, Plus, Some(x), Some(w.place), None));
    HoldsLast(c, n + 1, g.code, Simple(Deref, Plus, Some(w.place), Some(g.place), None));
    PartsAssembled(c, f.declarations, f.header, g.code, g.place, w.place, x);
    AssembledIsCode(c, f, x, y, a);
  }

  lemma AssignedBody(f: Function, x: Symbol, e: Expr)
    requires f.body == SetVariable(x, e)
    ensures BodyOf(f).code ==
            GenStmt(SetVariable(x, e), f.pool).code
            + [Named(Leave, f.header), Simple(Return, Plus, None, None, None)]
  {
    hide GenExpr, FreedIfTemporary, Simple, Named;
    var exit := Exit(f.header, OtherType, None);
    assert WithReturn(f.body, f.header) == Sequence(f.body, exit);
    SequenceUnfolds(f.body, exit, f.pool);
  }

  lemma SequenceUnfolds(a: Stmt, b: Stmt, pool: Pool)
    ensures GenStmt(Sequence(a, b), pool).code == GenStmt(a, pool).code + GenStmt(b, GenStmt(a, pool).pool).code
  {
    hide GenExit, GenBranch, GenFor, GenExpr, GenTest, FreedIfTemporary;
  }

  lemma PartsAssembled(c: Code, declarations: seq<Symbol>, header: Symbol, g: Code, place: Symbol, d: Symbol, x: Symbol)
    requires var n := |declarations|; var p := n + 1 + |g|;
      && |c| == p + 4 && (forall i :: 0 <= i < n ==> c[i] == Named(GlobalDeclaration, declarations[i]))
      && c[n] == Named(Enter, header) && Holds(c, n + 1, g)
      && c[p] == Simple(Deref, Plus, Some(d), Some(place), None)
      && c[p + 1] == Simple(Assign, Plus, Some(x), Some(d), None)
      && c[p + 2] == Named(Leave, header) && c[p + 3] == Simple(Return, Plus, None, None, None)
    ensures Assembled(c, declarations, header, g, place, d, x)
  {
    hide Simple, Named, Holds;
  }

  lemma AssembledIsCode(c: Code, f: Function, x: Symbol, y: Symbol, a: Expr)
    requires var g := GenAddress(y, a, f.pool);
      Assembled(c, f.declarations, f.header, g.code, g.place, GenExpr(Element(y, a), f.pool).place, x)
    ensures IsCodeOf(c, f, x, y, a)
  {
    hide Assembled, GenAddress, GenExpr;
  }

  lemma AssignsParts(f: Function, x: Symbol, y: Symbol, a: Expr)
    requires Assigns(f, x, y, a)
    ensures StmtOk(SetVariable(x, Element(y, a))) && Ready(f.pool) && IsArray(y) && ExprOk(a) && IsVariable(x)
    ensures f.body == SetVariable(x, Element(y, a)) && EntryOf(f) == |f.declarations|
  {
  }

  /** What the instructions of the address are like: none of them jumps, is copied or repeated. */
  ghost predicate Unremarkable(code: Code) {
    && (forall i :: 0 <= i < |code| ==>
          && !IsJump(code[i]) && !code[i].dead && IsTemporaryPlace(code[i].dest)
          && (code[i].op == Assign ==>
                code[i].src1.Some? && code[i].src1.value.isConstant && !code[i].src1.value.isTemporary)
          && (code[i].op != Assign && code[i].src1.Some? ==> !code[i].src1.value.isConstant))
    && (forall i :: 0 <= i < |code| - 1 && code[i].op == Assign && code[i + 1].op == Assign ==>
          code[i].dest != code[i + 1].dest)
  }

  lemma AddressUnremarkable(y: Symbol, a: Expr, pool: Pool)
    requires Ready(pool) && IsArray(y) && ExprOk(a)
    ensures Unremarkable(GenAddress(y, a, pool).code)
  {
    AddressQuiet(y, a, pool);
    AddressShape(y, a, pool);
    GeneratedLabels.AddressHasNoLabels(y, a, pool);
    hide *;
    var g := GenAddress(y, a, pool);
    ShapedIsMade(g, pool.nextKey, g.pool.nextKey);
    QuietUnremarkable(g.code, pool);
  }

  lemma ShapedIsMade(g: Generated, low: nat, high: nat)
    requires ExprShaped(g, low, high)
    ensures AllMade(g.code) && AllStraight(g.code) && ResultsReturned(g.code)
  {
  }

  lemma QuietUnremarkable(code: Code, pool: Pool)
    requires Quiet(code, pool) && AllMade(code) && AllStraight(code) && ResultsReturned(code)
    requires GeneratedLabels.Jumps(code) == {}
    ensures Unremarkable(code)
  {
    NoResultCopied(code);
    JumpsAreListed(code);
    hide GeneratedLabels.Jumps, Available;
  }

  lemma JumpsAreListed(code: Code)
    ensures forall i :: 0 <= i < |code| && IsJump(code[i]) ==> code[i].jumpTo in GeneratedLabels.Jumps(code)
  {
  }

  function TreatedAt(c: Code, p: nat, x: Symbol, i: nat): Instruction
    requires i < |c|
  {
    if i == p then c[i].(dest := Some(x)) else if i == p + 1 then c[i].(dead := true) else c[i]
  }

  /** The character goes straight into the variable, and nothing else changes. */
  ghost predicate IsTreated(c': Code, c: Code, p: nat, x: Symbol) {
    && |c'| == |c| && p + 1 < |c|
    && forall i :: 0 <= i < |c| ==> c'[i] == TreatedAt(c, p, x, i)
  }

  lemma PassTreats(c: Code, f: Function, x: Symbol, y: Symbol, a: Expr)
    requires Assigns(f, x, y, a) && IsCodeOf(c, f, x, y, a) && x.typ == IntType
    ensures Linked(c) == c && IsTreated(UpTo(c, |c|), c, ReadAt(f, y, a), x) && Linked(UpTo(c, |c|)) == UpTo(c, |c|)
  {
    hide *;
    var g, d := GenAddress(y, a, f.pool), GenExpr(Element(y, a), f.pool).place;
    AssignsParts(f, x, y, a);
    AddressUnremarkable(y, a, f.pool);
    ElementIsTemporary(y, a, f.pool);
    PlacesOf(f, x, y, a);
    IsAssembled(c, f, x, y, a);
    AssembledTreats(c, f.declarations, f.header, g.code, g.place, d, x);
  }

  lemma PlacesOf(f: Function, x: Symbol, y: Symbol, a: Expr)
    requires Assigns(f, x, y, a)
    ensures !GenAddress(y, a, f.pool).place.isConstant && !x.isTemporary && !x.isConstant
    ensures ReadAt(f, y, a) == |f.declarations| + 1 + |GenAddress(y, a, f.pool).code|
  {
    AddressPool(y, a, f.pool);
  }

  lemma IsAssembled(c: Code, f: Function, x: Symbol, y: Symbol, a: Expr)
    requires IsCodeOf(c, f, x, y, a)
    ensures var g := GenAddress(y, a, f.pool);
      Assembled(c, f.declarations, f.header, g.code, g.place, GenExpr(Element(y, a), f.pool).place, x)
  {
  }

  lemma AssembledTreats(
      c: Code, declarations: seq<Symbol>, header: Symbol, g: Code, place: Symbol, d: Symbol, x: Symbol)
    requires Assembled(c, declarations, header, g, place, d, x) && Unremarkable(g)
    requires d.isTemporary && !place.isConstant && !x.isTemporary && x.typ == IntType
    ensures var p, c' := |declarations| + 1 + |g|, UpTo(c, |c|);
              Linked(c) == c && IsTreated(c', c, p, x) && Linked(c') == c'
  {
    var n := |declarations|;
    var p := n + 1 + |g|;
    forall i | 0 <= i < |c|
      ensures !IsJump(c[i]) && !c[i].dead && (Dies(c, i) <==> i == p + 1) && (Bypasses(c, i) <==> i == p + 1) {
      assert n < i < p ==> c[n + 1 + (i - n - 1)] == g[i - n - 1];
      InstructionDies(c, n, g, i, x);
    }
    hide Dies, Bypasses, Holds, Unremarkable;
    assert |c| == p + 4 && c[p + 1].dest == Some(x);
    hide Assembled;
    ResultIsTreated(c, p, x);
    NothingLinked(c);
    NothingLinked(UpTo(c, |c|));
  }

  lemma ResultIsTreated(c: Code, p: nat, x: Symbol)
    requires p + 1 < |c| && c[p + 1].dest == Some(x)
    requires forall i :: 0 <= i < |c| ==>
               !IsJump(c[i]) && !c[i].dead && (Dies(c, i) <==> i == p + 1) && (Bypasses(c, i) <==> i == p + 1)
    ensures IsTreated(UpTo(c, |c|), c, p, x) && forall i :: 0 <= i < |c| ==> !IsJump(UpTo(c, |c|)[i])
  {
    hide Dies, Bypasses;
    forall i | 0 <= i < |c| ensures UpTo(c, |c|)[i] == TreatedAt(c, p, x, i) {
      assert UpTo(c, |c|)[i] == Peepholed(c, |c|, i);
    }
    hide UpTo;
  }

  lemma NothingLinked(c: Code)
    requires forall i :: 0 <= i < |c| ==> !IsJump(c[i])
    ensures Linked(c) == c
  {
  }

  lemma InstructionDies(c: Code, n: nat, g: Code, i: nat, x: Symbol)
    requires n + 1 + |g| + 4 == |c| && Holds(c, n + 1, g) && Unremarkable(g) && i < |c|
    requires forall j :: 0 <= j <= n ==> c[j].op != Assign
    requires var p := n + 1 + |g|;
      && c[p].op == Deref && c[p + 1].op == Assign && c[p].dest == c[p + 1].src1 && IsTemporaryPlace(c[p].dest)
      && c[p].src1.Some? && !c[p].src1.value.isConstant && c[p + 1].dest == Some(x) && c[p + 1].dest != c[p + 1].src1
      && x.typ != AddrType && c[p + 2].dest.None? && c[p + 2].op != Assign && c[p + 3].op != Assign
    ensures (Dies(c, i) <==> i == n + 1 + |g| + 1) && (Bypasses(c, i) <==> i == n + 1 + |g| + 1)
  {
    assert forall j :: 0 <= j < |g| ==> c[n + 1 + j] == g[j];
    assert n < i < n + 1 + |g| ==> c[n + 1 + (i - n - 1)] == g[i - n - 1];
    assert n < i + 1 < n + 1 + |g| ==> c[n + 1 + (i - n)] == g[i - n];
  }

  // ---------------------------------------------------------------- the two runs

  /** The treated code puts what is in memory into the variable without cutting it to a byte. */
  lemma TreatedReturns(c: Code, c': Code, f: Function, x: Symbol, y: Symbol, a: Expr, s: State)
    requires Assigns(f, x, y, a) && IsCodeOf(c, f, x, y, a) && IsTreated(c', c, ReadAt(f, y, a), x) && Linked(c') == c'
    requires x.scope == Global && x.typ == IntType && !x.isConstant && !GenAddress(y, a, f.pool).place.isConstant
    requires s.pc == EntryOf(f) && s.status == Running && Ready(f.pool) && IsArray(y) && ExprOk(a)
    requires var address := AddressOf(BYTES, s, y, Eval(BYTES, s, a)); address in s.memory && s.memory[address] == 256
    ensures Shows(BYTES, c', s, Returning(BYTES, Write(BYTES, s, x, 256)))
  {
    BytesAreValid();
    hide *;
    var m, n, g := BYTES, EntryOf(f), GenAddress(y, a, f.pool);
    var p, address := n + 1 + |g.code|, AddressOf(m, s, y, Eval(m, s, a));
    TreatedParts(c, c', f, x, y, a);
    StartsArrived(m, s);
    PassedOver(m, c', s, s, n, Enter, f.header);
    var t1 := Reached(m, c', s, n + 1, s);
    ArrivedFacts(m, s, t1.0, n + 1);
    AddressReached(m, c', n + 1, y, a, f.pool, s, t1.0);
    var t2 := Run(m, Linked(c'), t1.0, |g.code|);
    WentEvaluated(m, c', n + 1, f.pool, t1.0, g, address);
    ArrivedLater(m, c', s, t1.0, n + 1, |g.code|, p, f.pool);
    ThenReturns(c', s, t2, p, x, g.place, f.header);
    ShownLater(m, c', t1.0, |g.code|, Returning(m, Write(m, s, x, 256)));
    ShownLater(m, c', s, t1.1, Returning(m, Write(m, s, x, 256)));
  }

  lemma StartsArrived(m: Machine, s: State)
    requires s.status == Running
    ensures Arrived(m, s, s, s.pc)
  {
  }

  lemma ShownLater(m: Machine, c: Code, t: State, n: nat, o: Observation)
    requires Linked(c) == c && Shows(m, c, Run(m, Linked(c), t, n), o)
    ensures Shows(m, c, t, o)
  {
    var k: nat :| Observe(m, |c|, Run(m, c, Run(m, c, t, n), k)) == o;
    RunAppends(m, c, t, n, k);
  }

  lemma TreatedParts(c: Code, c': Code, f: Function, x: Symbol, y: Symbol, a: Expr)
    requires IsCodeOf(c, f, x, y, a) && IsTreated(c', c, ReadAt(f, y, a), x)
    ensures EntryOf(f) == |f.declarations|
    ensures var n, g := EntryOf(f), GenAddress(y, a, f.pool); var p := n + 1 + |g.code|;
      && n < |c'| && c'[n] == Named(Enter, f.header) && Holds(c', n + 1, g.code)
      && EndsTreated(c', p, x, g.place, f.header)
  {
    hide GenAddress, GenExpr;
  }

  ghost predicate EndsTreated(c: Code, p: nat, x: Symbol, place: Symbol, header: Symbol) {
    && |c| == p + 4 && c[p] == Simple(Deref, Plus, Some(x), Some(place), None) && c[p + 1].dead
    && c[p + 2] == Named(Leave, header) && c[p + 3] == Simple(Return, Plus, None, None, None)
  }

  lemma ThenReturns(c: Code, s: State, t: State, p: nat, x: Symbol, place: Symbol, header: Symbol)
    requires EndsTreated(c, p, x, place, header) && Linked(c) == c && Arrived(BYTES, s, t, p) && s.status == Running
    requires Read(BYTES, t, place) in t.memory && t.memory[Read(BYTES, t, place)] == 256
    requires x.scope == Global && x.typ == IntType && !place.isConstant
    ensures Shows(BYTES, c, t, Returning(BYTES, Write(BYTES, s, x, 256)))
  {
    hide *;
    var m, s' := BYTES, Write(BYTES, s, x, 256);
    DerefStep(c, s, t, p, x, place, header);
    WriteKeepsPc(m, s, x, 256);
    var t1 := Step(m, c, t);
    RunIsSteps(m, c, t, 0);
    RunIsSteps(m, c, t, 1);
    RunIsSteps(m, c, t, 2);
    RunIsSteps(m, c, t, 3);
    LastSteps(c, s', t1, p, x, place, header);
    ShownAt(m, c, t, 4, Returning(m, s'));
  }

  lemma ShownAt(m: Machine, c: Code, t: State, n: nat, o: Observation)
    requires Observe(m, |c|, Run(m, c, t, n)) == o
    ensures Shows(m, c, t, o)
  {
  }

  lemma DerefStep(c: Code, s: State, t: State, p: nat, x: Symbol, place: Symbol, header: Symbol)
    requires EndsTreated(c, p, x, place, header) && Arrived(BYTES, s, t, p) && s.status == Running
    requires Read(BYTES, t, place) in t.memory && t.memory[Read(BYTES, t, place)] == 256
    requires x.scope == Global && x.typ == IntType && !place.isConstant
    ensures var t1, s' := Step(BYTES, c, t), Write(BYTES, s, x, 256);
      t1.pc == p + 1 && t1.status == Running && t1.globals == s'.globals && t1.memory == s'.memory
        && t1.trace == s'.trace
  {
  }

  lemma LastSteps(c: Code, s: State, t: State, p: nat, x: Symbol, place: Symbol, header: Symbol)
    requires EndsTreated(c, p, x, place, header)
    requires t.pc == p + 1 && t.status == Running && t.globals == s.globals && t.memory == s.memory
              && t.trace == s.trace && s.status == Running
    ensures Observe(BYTES, |c|, Step(BYTES, c, Step(BYTES, c, Step(BYTES, c, t)))) == Returning(BYTES, s)
  {
    assert Step(BYTES, c, t) == t.(pc := p + 2);
    assert Step(BYTES, c, t.(pc := p + 2)) == t.(pc := p + 3);
    assert Step(BYTES, c, t.(pc := p + 3)) == t.(pc := p + 3, status := Returned(None));
  }

  // ---------------------------------------------------------------- when the pass is right

  /** On a machine with bytes the pass changes the value that the function leaves in the variable. */
  lemma CharacterIsNotCut(f: Function, x: Symbol, y: Symbol, a: Expr)
    requires Assigns(f, x, y, a) && x.scope == Global && x.typ == IntType && y.elementType == CharType
    ensures var c := Linked(FunctionCode(f)); !SameBehaviour(BYTES, c, UpTo(c, |c|), EntryOf(f))
  {
    var c, s := FunctionCode(f), FlatState(Element(y, a), EntryOf(f));
    FlatStart(f, x, y, a);
    BytesAreValid();
    AssignsParts(f, x, y, a);
    hide *;
    CodeIsPlaced(f, x, y, a);
    PassTreats(c, f, x, y, a);
    PlacesOf(f, x, y, a);
    TreatedReturns(c, UpTo(c, |c|), f, x, y, a, s);
    FunctionRuns(BYTES, f, s, 0);
    var o1, o2 := Returning(BYTES, Write(BYTES, s, x, 0)), Returning(BYTES, Write(BYTES, s, x, 256));
    ObservationsDiffer(s, x);
    if SameBehaviour(BYTES, c, UpTo(c, |c|), EntryOf(f)) {
      SameShown(BYTES, c, UpTo(c, |c|), EntryOf(f), s, o2);
      EndsOnce(BYTES, c, s, o1, o2);
    }
  }

  lemma FlatStart(f: Function, x: Symbol, y: Symbol, a: Expr)
    requires Assigns(f, x, y, a) && y.elementType == CharType
    ensures var s := FlatState(Element(y, a), EntryOf(f)); var address := AddressOf(BYTES, s, y, Eval(BYTES, s, a));
      && s.pc == EntryOf(f) && s.status == Running && s.globals == map[] && address in s.memory
      && s.memory[address] == 256
      && Exec(BYTES, s, f.body, 0) == Some(Write(BYTES, s, x, 0))
  {
    var s := FlatState(Element(y, a), EntryOf(f));
    EvalFlat(a, s);
    EvalFlat(Element(y, a), s);
  }

  lemma ObservationsDiffer(s: State, x: Symbol)
    requires s.globals == map[] && x.scope == Global && x.typ == IntType
    ensures var o1, o2 := Returning(BYTES, Write(BYTES, s, x, 0)), Returning(BYTES, Write(BYTES, s, x, 256));
      o1 != o2 && o1.ended.Some? && o2.ended.Some?
  {
    assert Contents(BYTES, Write(BYTES, s, x, 256).globals) == map[x := 256];
    assert Contents(BYTES, Write(BYTES, s, x, 0).globals) == map[];
    assert x in Contents(BYTES, Write(BYTES, s, x, 256).globals);
  }

  lemma SameShown(m: Machine, code: Code, code': Code, entry: nat, s: State, o: Observation)
    requires SameBehaviour(m, code, code', entry) && s.pc <= entry && Shows(m, code', s, o)
    ensures Shows(m, code, s, o)
  {
  }

  /**
   * The pass keeps the behaviour of a function that assigns to a global variable exactly if it
   * does not put a character of an array into an int variable.
   */
  lemma AssignmentIsExact(f: Function, x: Symbol, e: Expr)
    requires FunctionOk(f) && f.body == SetVariable(x, e) && x.scope == Global
    ensures var c := Linked(FunctionCode(f)); KeepsBehaviour(c, UpTo(c, |c|), EntryOf(f)) <==> Fits(x.typ, e)
  {
    var c, n := Linked(FunctionCode(f)), EntryOf(f);
    FunctionAllowed(f);
    BytesAreValid();
    assert StmtFits(f.body) == Fits(x.typ, e) && IsVariable(x) && ExprOk(e);
    hide FunctionCode, Linked, UpTo, Allowed, SameBehaviour, BYTES, FunctionOk, Machine.Valid, Machine.IntIsWidest;
    if Fits(x.typ, e) {
      forall m: Machine | m.Valid() && m.IntIsWidest() ensures SameBehaviour(m, c, UpTo(c, |c|), n) {
        PeepholeBehaves(m, c, n);
      }
    } else {
      assert e.Element? && e.base.elementType == CharType && x.typ == IntType;
      CharacterIsNotCut(f, x, e.base, e.subscript);
    }
  }

  /** The function `x = a[i]`, where `x` and `i` are int variables and `a` is an array of characters. */
  function Widening(): Function {
    var x := Symbol(1, Global, IntType, OtherType, false, false, false, 0, 0);
    var i := Symbol(2, Global, IntType, OtherType, false, false, false, 0, 0);
    var a := Symbol(3, Global, ArrayType, CharType, false, false, false, 0, 0);
    Function([x, i, a], Examples.FunctionName(), SetVariable(x, Element(a, Var(i))), Pool([], [], [], 4, 0, 0, []))
  }

  /** It has passed the type checker, and peephole optimization changes what it does. */
  lemma WideningBreaks()
    ensures var f := Widening(); var c := Linked(FunctionCode(f));
      FunctionOk(f) && !Allowed(c, EntryOf(f)) && !KeepsBehaviour(c, UpTo(c, |c|), EntryOf(f))
  {
    var f := Widening();
    assert FunctionOk(f);
    assert f.body == SetVariable(f.body.x, f.body.e) && f.body.x.scope == Global && !Fits(f.body.x.typ, f.body.e);
    hide FunctionCode, Linked, UpTo, Allowed, KeepsBehaviour;
    FunctionAllowed(f);
    AssignmentIsExact(f, f.body.x, f.body.e);
  }
}
