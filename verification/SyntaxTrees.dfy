/**
 * Syntax trees of expressions and statements, and what they mean (syntax-tree.h). A call is a statement of its
 * own, or the whole right side of an assignment to a variable.
 */
module SyntaxTrees {
  import opened Instructions
  import opened Semantics

  datatype Expr =
    | Var(x: Symbol)
    | Const(typ: Type, value: int)
    | Negation(typ: Type, operand: Expr)
    | Arithmetic(typ: Type, kind: Kind, left: Expr, right: Expr)
    | Element(base: Symbol, subscript: Expr)

  datatype Test =
    | Comparison(kind: Kind, left: Expr, right: Expr)
    | And(first: Test, second: Test)
    | Or(first: Test, second: Test)
    | Not(operand: Test)

  datatype Stmt =
    | Nothing
    | SetVariable(x: Symbol, e: Expr)
    | SetElement(base: Symbol, subscript: Expr, e: Expr)
    | Branch(test: Test, thenPart: Stmt, elsePart: Option<Stmt>)
    | While(test: Test, body: Stmt)
    | For(init: Stmt, condition: Option<Test>, update: Stmt, body: Stmt)
    | Invoke(callee: Symbol, arguments: seq<Expr>, target: Option<Symbol>, valueType: Type)
    | Exit(header: Symbol, resultType: Type, result: Option<Expr>)
    | Sequence(head: Stmt, tail: Stmt)

  /**
   * The body of a function, which is a list of statements, with a return statement behind it unless its
   * last statement is one.
   */
  function WithReturn(st: Stmt, header: Symbol): Stmt {
    match st
    case Nothing => Exit(header, OtherType, None)
    case Exit(_, _, _) => st
    case Sequence(a, b) => if a.Exit? && b == Nothing then st else Sequence(a, WithReturn(b, header))
    case _ => Sequence(st, Exit(header, OtherType, None))
  }

  predicate IsNumeric(t: Type) {
    t == CharType || t == IntType
  }

  /** A variable of the program, other than an array. */
  predicate IsVariable(x: Symbol) {
    !x.isTemporary && !x.isConstant && IsNumeric(x.typ)
  }

  predicate IsArray(x: Symbol) {
    !x.isTemporary && !x.isConstant && x.typ == ArrayType && IsNumeric(x.elementType)
  }

  /** A function in the symbol table. */
  predicate IsFunctionName(x: Symbol) {
    x.scope == Global && !x.isTemporary && !x.isConstant && x.typ == OtherType
  }

  /** The expression has passed the type checker, which makes every computed value an int. */
  predicate ExprOk(e: Expr) {
    match e
    case Var(x) => IsVariable(x)
    case Const(t, _) => IsNumeric(t)
    case Negation(t, a) => t == IntType && ExprOk(a)
    case Arithmetic(t, _, a, b) => t == IntType && ExprOk(a) && ExprOk(b)
    case Element(x, a) => IsArray(x) && ExprOk(a)
  }

  /** A value, or an array, of which the address is passed on. */
  predicate ArgumentOk(e: Expr) {
    ExprOk(e) || (e.Var? && IsArray(e.x))
  }

  predicate TestOk(b: Test) {
    match b
    case Comparison(k, l, r) => IsRelational(k) && ExprOk(l) && ExprOk(r)
    case And(l, r) => TestOk(l) && TestOk(r)
    case Or(l, r) => TestOk(l) && TestOk(r)
    case Not(a) => TestOk(a)
  }

  predicate StmtOk(st: Stmt) {
    match st
    case Nothing => true
    case SetVariable(x, e) => IsVariable(x) && ExprOk(e)
    case SetElement(x, a, e) => IsArray(x) && ExprOk(a) && ExprOk(e)
    case Branch(b, s, e) => TestOk(b) && StmtOk(s) && (e.Some? ==> StmtOk(e.value))
    case While(b, s) => TestOk(b) && StmtOk(s)
    case For(i, b, u, s) => StmtOk(i) && (b.Some? ==> TestOk(b.value)) && StmtOk(u) && StmtOk(s)
    case Invoke(f, args, x, t) =>
      IsFunctionName(f) && (forall e :: e in args ==> ArgumentOk(e))
        && (x.Some? ==> IsVariable(x.value) && IsNumeric(t))
    case Exit(h, t, e) => IsFunctionName(h) && (e.Some? ==> IsNumeric(t) && ExprOk(e.value))
    case Sequence(a, b) => StmtOk(a) && StmtOk(b)
  }

  /** A place of the type does not get a character of an array as an int, nor one that a function gives back. */
  predicate Fits(t: Type, e: Expr) {
    e.Element? ==> TypeFits(t, e.base.elementType)
  }

  predicate TypeFits(t: Type, valueType: Type) {
    valueType == CharType ==> t == CharType
  }

  /** No assignment and no return of the statement does that. */
  predicate StmtFits(st: Stmt) {
    match st
    case Nothing => true
    case SetVariable(x, e) => Fits(x.typ, e)
    case SetElement(_, _, _) => true
    case Branch(_, s, e) => StmtFits(s) && (e.Some? ==> StmtFits(e.value))
    case While(_, s) => StmtFits(s)
    case For(i, _, u, s) => StmtFits(i) && StmtFits(u) && StmtFits(s)
    case Invoke(_, _, x, t) => x.Some? ==> TypeFits(x.value.typ, t)
    case Exit(_, t, e) => e.Some? ==> Fits(t, e.value)
    case Sequence(a, b) => StmtFits(a) && StmtFits(b)
  }

  // ---------------------------------------------------------------- meaning

  function AddressOf(m: Machine, s: State, x: Symbol, subscript: int): int {
    m.fit(AddrType, Read(m, s, x) + subscript * ElementSize(x.elementType))
  }

  function Eval(m: Machine, s: State, e: Expr): int {
    match e
    case Var(x) => Read(m, s, x)
    case Const(t, v) => m.fit(t, v)
    case Negation(t, a) => m.fit(t, m.negate(Eval(m, s, a)))
    case Arithmetic(t, k, a, b) => m.fit(t, m.arithmetic(k, Eval(m, s, a), Eval(m, s, b)))
    case Element(x, a) =>
      var address := AddressOf(m, s, x, Eval(m, s, a));
      m.fit(x.elementType, if address in s.memory then s.memory[address] else 0)
  }

  function EvalTest(m: Machine, s: State, b: Test): bool {
    match b
    case Comparison(k, l, r) => Compare(k, Eval(m, s, l), Eval(m, s, r))
    case And(l, r) => EvalTest(m, s, l) && EvalTest(m, s, r)
    case Or(l, r) => EvalTest(m, s, l) || EvalTest(m, s, r)
    case Not(a) => !EvalTest(m, s, a)
  }

  function EvalAll(m: Machine, s: State, list: seq<Expr>): (r: seq<int>)
    ensures |r| == |list|
  {
    if list == [] then [] else [Eval(m, s, list[0])] + EvalAll(m, s, list[1..])
  }

  function Reversed(values: seq<int>): seq<int> {
    if values == [] then [] else Reversed(values[1..]) + [values[0]]
  }

  /** The state after a call with these arguments, before the value is used. */
  function Called(m: Machine, s: State, f: Symbol, arguments: seq<int>): State {
    var seen := Contents(m, s.globals);
    var r := m.call(f, arguments, seen, s.memory);
    s.(globals := r.globals, memory := r.memory, arguments := [], value := r.value,
       trace := s.trace + [Event(f, arguments, seen, s.memory)])
  }

  /** The variable, if there is one, gets the value of the call. */
  function Received(m: Machine, s: State, x: Option<Symbol>, t: Type): State {
    if x.Some? then Write(m, s, x.value, m.fit(t, s.value)) else s
  }

  /** What the function gives back. */
  function ResultOf(m: Machine, s: State, t: Type, e: Option<Expr>): Option<int> {
    if e.Some? then Some(m.fit(t, Eval(m, s, e.value))) else None
  }

  /**
   * The state in which a statement ends, if it ends within the given number of iterations of each loop.
   * Once the function has returned nothing more happens.
   */
  function Exec(m: Machine, s: State, st: Stmt, fuel: nat): Option<State>
    decreases fuel, 1, st
  {
    if s.status != Running then Some(s) else
    match st
    case Nothing => Some(s)
    case SetVariable(x, e) => Some(Write(m, s, x, Eval(m, s, e)))
    case SetElement(x, a, e) =>
      Some(s.(memory := s.memory[AddressOf(m, s, x, Eval(m, s, a)) := m.fit(x.elementType, Eval(m, s, e))]))
    case Branch(b, s1, s2) =>
      if EvalTest(m, s, b) then Exec(m, s, s1, fuel) else if s2.Some? then Exec(m, s, s2.value, fuel) else Some(s)
    case While(b, body) => ExecLoop(m, s, Some(b), Nothing, body, fuel)
    case For(i, b, u, body) =>
      var s1 := Exec(m, s, i, fuel);
      if s1.None? then None else ExecLoop(m, s1.value, b, u, body, fuel)
    case Invoke(f, args, x, t) =>
      // arguments are passed from right to left
      Some(Received(m, Called(m, s, f, s.arguments + Reversed(EvalAll(m, s, args))), x, t))
    case Exit(_, t, e) => Some(s.(status := Returned(ResultOf(m, s, t, e))))
    case Sequence(a, b) =>
      var s1 := Exec(m, s, a, fuel);
      if s1.None? then None else Exec(m, s1.value, b, fuel)
  }

  /** A loop from the evaluation of its condition on; without a condition it goes on forever. */
  function ExecLoop(m: Machine, s: State, b: Option<Test>, update: Stmt, body: Stmt, fuel: nat): Option<State>
    decreases fuel, 0
  {
    if s.status != Running || (b.Some? && !EvalTest(m, s, b.value)) then Some(s)
    else if fuel == 0 then None
    else
      var s1 := Exec(m, s, body, fuel - 1);
      if s1.None? then None
      else
        var s2 := Exec(m, s1.value, update, fuel - 1);
        if s2.None? then None else ExecLoop(m, s2.value, b, update, body, fuel - 1)
  }

  // ---------------------------------------------------------------- calls on the way

  /** The calls made so far when the statement ends or a loop has used up its iterations. */
  function TraceOf(m: Machine, s: State, st: Stmt, fuel: nat): seq<Event>
    decreases fuel, 1, st
  {
    if s.status != Running then s.trace
    else
      match st
      case Branch(b, s1, s2) =>
        if EvalTest(m, s, b) then TraceOf(m, s, s1, fuel)
        else if s2.Some? then TraceOf(m, s, s2.value, fuel) else s.trace
      case While(b, body) => TraceOfLoop(m, s, Some(b), Nothing, body, fuel)
      case For(i, b, u, body) =>
        var s1 := Exec(m, s, i, fuel);
        if s1.None? then TraceOf(m, s, i, fuel) else TraceOfLoop(m, s1.value, b, u, body, fuel)
      case Sequence(a, b) =>
        var s1 := Exec(m, s, a, fuel);
        if s1.None? then TraceOf(m, s, a, fuel) else TraceOf(m, s1.value, b, fuel)
      case Invoke(f, args, _, _) => Called(m, s, f, s.arguments + Reversed(EvalAll(m, s, args))).trace
      case _ => s.trace
  }

  function TraceOfLoop(m: Machine, s: State, b: Option<Test>, update: Stmt, body: Stmt, fuel: nat): seq<Event>
    decreases fuel, 0
  {
    if s.status != Running || (b.Some? && !EvalTest(m, s, b.value)) || fuel == 0 then s.trace
    else
      var s1 := Exec(m, s, body, fuel - 1);
      if s1.None? then TraceOf(m, s, body, fuel - 1)
      else
        var s2 := Exec(m, s1.value, update, fuel - 1);
        if s2.None? then TraceOf(m, s1.value, update, fuel - 1)
        else TraceOfLoop(m, s2.value, b, update, body, fuel - 1)
  }
}
