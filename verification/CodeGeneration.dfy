/**
 * Three-address code of expressions and statements (code_generation.c). Jumps name labels; Linked turns
 * them into positions.
 */
module CodeGeneration {
  import opened Instructions
  import opened SyntaxTrees
  import opened TemporaryPool

  /** The code of an expression and the place of its value. */
  datatype Generated = Generated(code: Code, place: Symbol, pool: Pool)

  datatype GeneratedCode = GeneratedCode(code: Code, pool: Pool)

  datatype GeneratedArguments = GeneratedArguments(code: Code, places: seq<Symbol>, pool: Pool)

  function Simple(
      op: Operation, kind: Kind, dest: Option<Symbol>, src1: Option<Symbol>, src2: Option<Symbol>): Instruction {
    Instruction(op, kind, dest, src1, src2, 0, false)
  }

  function Named(op: Operation, x: Symbol): Instruction {
    Simple(op, Plus, None, Some(x), None)
  }

  function LabelHere(l: nat): Instruction {
    Instruction(Label, Plus, None, None, None, l, false)
  }

  function JumpTo(l: nat): Instruction {
    Instruction(Goto, Plus, None, None, None, l, false)
  }

  function JumpIf(k: Kind, x: Symbol, y: Symbol, l: nat): Instruction {
    Instruction(If, k, None, Some(x), Some(y), l, false)
  }

  /** The entry of a constant: each one is an entry of its own. */
  function ConstantSymbol(pool: Pool, t: Type, v: int): Symbol {
    Symbol(pool.nextKey, Local, t, OtherType, false, false, true, v, 0)
  }

  function AfterConstant(pool: Pool): Pool {
    pool.(nextKey := pool.nextKey + 1)
  }

  // ---------------------------------------------------------------- expressions

  function GenExpr(e: Expr, pool: Pool): Generated
    decreases e, 0
  {
    match e
    case Var(x) => Generated([], x, pool)
    case Const(t, v) =>
      var (d, pool1) := Created(pool, t);
      Generated([Simple(Assign, Plus, Some(d), Some(ConstantSymbol(pool1, t, v)), None)], d, AfterConstant(pool1))
    case Negation(t, a) =>
      var g := GenExpr(a, pool);
      var (d, pool1) := Created(g.pool, t);
      Generated(g.code + [Simple(UMinus, Plus, Some(d), Some(g.place), None)], d, FreedIfTemporary(pool1, g.place))
    case Arithmetic(t, k, a, b) =>
      var g := GenExpr(a, pool);
      var h := GenExpr(b, g.pool);
      var (d, pool1) := Created(h.pool, t);
      Generated(g.code + h.code + [Simple(Binary, k, Some(d), Some(g.place), Some(h.place))], d,
                FreedIfTemporary(FreedIfTemporary(pool1, g.place), h.place))
    case Element(x, a) =>
      var g := GenAddress(x, a, pool);
      var (d, pool1) := Created(g.pool, x.elementType);
      Generated(g.code + [Simple(Deref, Plus, Some(d), Some(g.place), None)], d, pool1)
  }

  /** The address of an array element, in a temporary of its own. */
  function GenAddress(x: Symbol, a: Expr, pool: Pool): Generated
    decreases a, 1
  {
    var g := GenExpr(a, pool);
    var (d, pool1) := Created(FreedIfTemporary(g.pool, g.place), AddrType);
    var address := d.(elementType := x.elementType);
    Generated(g.code + [Simple(IndexArray, Plus, Some(address), Some(g.place), Some(x))], address,
              Retyped(pool1, d, x.elementType))
  }

  // ---------------------------------------------------------------- tests

  function WithLabels(pool: Pool, n: nat): Pool {
    pool.(nextLabel := pool.nextLabel + n)
  }

  /** Code that goes to one of two labels, according to the test. */
  function GenTest(b: Test, ifTrue: nat, ifFalse: nat, pool: Pool): GeneratedCode {
    match b
    case Comparison(k, l, r) =>
      var g := GenExpr(l, pool);
      var h := GenExpr(r, g.pool);
      GeneratedCode(g.code + h.code + [JumpIf(k, g.place, h.place, ifTrue), JumpTo(ifFalse)], h.pool)
    case And(l, r) =>
      var next := pool.nextLabel;
      var g := GenTest(l, next, ifFalse, WithLabels(pool, 1));
      var h := GenTest(r, ifTrue, ifFalse, g.pool);
      GeneratedCode(g.code + [LabelHere(next)] + h.code, h.pool)
    case Or(l, r) =>
      var next := pool.nextLabel;
      var g := GenTest(l, ifTrue, next, WithLabels(pool, 1));
      var h := GenTest(r, ifTrue, ifFalse, g.pool);
      GeneratedCode(g.code + [LabelHere(next)] + h.code, h.pool)
    case Not(a) => GenTest(a, ifFalse, ifTrue, pool)
  }

  /** The condition of a loop; without one the loop goes on. */
  function GenCondition(b: Option<Test>, body: nat, after: nat, pool: Pool): GeneratedCode {
    if b.Some? then GenTest(b.value, body, after, pool) else GeneratedCode([JumpTo(body)], pool)
  }

  // ---------------------------------------------------------------- statements

  /** A loop: a jump to the condition, the body, the update and the condition, with labels `l`, `l + 1` and `l + 2`. */
  function LoopPieces(l: nat, body: Code, update: Code, condition: Code): Code {
    [JumpTo(l + 1), LabelHere(l)] + body + update + [LabelHere(l + 1)] + condition + [LabelHere(l + 2)]
  }

  function GenArguments(args: seq<Expr>, pool: Pool): (r: GeneratedArguments)
    ensures |r.places| == |args|
  {
    if args == [] then GeneratedArguments([], [], pool)
    else
      var g := GenExpr(args[0], pool);
      var r := GenArguments(args[1..], g.pool);
      GeneratedArguments(g.code + r.code, [g.place] + r.places, r.pool)
  }

  /** Arguments are passed from right to left. */
  function ParamCode(places: seq<Symbol>): Code {
    if places == [] then [] else ParamCode(places[1..]) + [Named(Param, places[0])]
  }

  function AllFreed(pool: Pool, places: seq<Symbol>): Pool
    decreases |places|
  {
    if places == [] then pool else AllFreed(FreedIfTemporary(pool, places[0]), places[1..])
  }

  /** The call itself, after the arguments have been computed. */
  function CallCode(f: Symbol, places: seq<Symbol>): Code {
    ParamCode(places) + [Named(Call, f)]
  }

  function GenInvoke(f: Symbol, args: seq<Expr>, x: Option<Symbol>, t: Type, pool: Pool): GeneratedCode {
    var g := GenArguments(args, pool);
    var pool1 := AllFreed(g.pool, g.places);
    if x.None? then GeneratedCode(g.code + CallCode(f, g.places), pool1)
    else
      var (d, pool2) := Created(pool1, t);
      GeneratedCode(g.code + CallCode(f, g.places)
        + [Simple(Retrieve, Plus, Some(d), None, None), Simple(Assign, Plus, x, Some(d), None)],
                    FreedIfTemporary(pool2, d))
  }

  /** The value is copied to a temporary of the type that the function gives back. */
  function GenExit(f: Symbol, t: Type, e: Option<Expr>, pool: Pool): GeneratedCode {
    if e.None? then GeneratedCode([Named(Leave, f), Simple(Return, Plus, None, None, None)], pool)
    else
      var g := GenExpr(e.value, pool);
      var (d, pool1) := Created(g.pool, t);
      GeneratedCode([Named(Leave, f)] + g.code + [Simple(Assign, Plus, Some(d), Some(g.place), None), Named(Return, d)],
                    pool1)
  }

  function GenStmt(st: Stmt, pool: Pool): GeneratedCode
    decreases st, 1
  {
    match st
    case Nothing => GeneratedCode([], pool)
    case SetVariable(x, e) =>
      var g := GenExpr(e, pool);
      GeneratedCode(g.code + [Simple(Assign, Plus, Some(x), Some(g.place), None)], FreedIfTemporary(g.pool, g.place))
    case SetElement(x, a, e) =>
      var g := GenAddress(x, a, pool);
      var h := GenExpr(e, g.pool);
      GeneratedCode(g.code + h.code + [Simple(Assign, Plus, Some(g.place), Some(h.place), None)],
                    FreedIfTemporary(h.pool, h.place))
    case Branch(b, s, e) => GenBranch(b, s, e, pool)
    case While(b, s) =>
      var body, eval, after := pool.nextLabel, pool.nextLabel + 1, pool.nextLabel + 2;
      var g := GenStmt(s, WithLabels(pool, 3));
      var t := GenTest(b, body, after, g.pool);
      GeneratedCode([JumpTo(eval), LabelHere(body)] + g.code + [LabelHere(eval)] + t.code + [LabelHere(after)], t.pool)
    case For(i, b, u, s) => GenFor(i, b, u, s, pool)
    case Invoke(f, args, x, t) => GenInvoke(f, args, x, t, pool)
    case Exit(f, t, e) => GenExit(f, t, e, pool)
    case Sequence(a, b) =>
      var g := GenStmt(a, pool);
      var h := GenStmt(b, g.pool);
      GeneratedCode(g.code + h.code, h.pool)
  }

  function GenBranch(b: Test, s: Stmt, e: Option<Stmt>, pool: Pool): GeneratedCode
    decreases Branch(b, s, e), 0
  {
    var then_, else_, after := pool.nextLabel, pool.nextLabel + 1, pool.nextLabel + 2;
    var t := GenTest(b, then_, if e.Some? then else_ else after, WithLabels(pool, 3));
    var g := GenStmt(s, t.pool);
    if e.Some? then
      var h := GenStmt(e.value, g.pool);
      GeneratedCode(t.code + [LabelHere(then_)] + g.code + [JumpTo(after), LabelHere(else_)] + h.code
        + [LabelHere(after)],
                    h.pool)
    else GeneratedCode(t.code + [LabelHere(then_)] + g.code + [LabelHere(after)], g.pool)
  }

  function GenFor(i: Stmt, b: Option<Test>, u: Stmt, s: Stmt, pool: Pool): GeneratedCode
    decreases For(i, b, u, s), 0
  {
    var body, after := pool.nextLabel, pool.nextLabel + 2;
    var f := GenStmt(i, WithLabels(pool, 3));
    var g := GenStmt(s, f.pool);
    var h := GenStmt(u, g.pool);
    var t := GenCondition(b, body, after, h.pool);
    GeneratedCode(f.code + LoopPieces(body, g.code, h.code, t.code), t.pool)
  }

  // ---------------------------------------------------------------- the generator

  class CodeGenerator {
    var chars: seq<Symbol>
    var ints: seq<Symbol>
    var addrs: seq<Symbol>
    var nextKey: nat
    var nextId: nat
    var nextLabel: nat
    var made: seq<Symbol>

    /** The state of the pool of temporaries and of the counters. */
    ghost function ThePool(): Pool
      reads this
    {
      Pool(chars, ints, addrs, nextKey, nextId, nextLabel, made)
    }

    constructor (firstKey: nat, firstId: nat)
      ensures ThePool() == Pool([], [], [], firstKey, firstId, 0, [])
    {
      chars, ints, addrs, made := [], [], [], [];
      nextKey, nextId, nextLabel := firstKey, firstId, 0;
    }

    /** A free temporary of the type, if there is one. */
    method GetFreeTemporary(t: Type) returns (x: Option<Symbol>)
      modifies this
      ensures var free := FreeOf(old(ThePool()), t);
        if free == [] then x == None && ThePool() == old(ThePool())
        else x == Some(free[0]) && ThePool() == WithFree(old(ThePool()), t, free[1..])
    {
      x := None;
      if t == CharType {
        if chars != [] {
          x, chars := Some(chars[0]), chars[1..];
        }
      } else if t == IntType {
        if ints != [] {
          x, ints := Some(ints[0]), ints[1..];
        }
      } else if t == AddrType {
        if addrs != [] {
          x, addrs := Some(addrs[0]), addrs[1..];
        }
      }
    }

    method CreateTemporary(t: Type) returns (x: Symbol)
      modifies this
      ensures (x, ThePool()) == Created(old(ThePool()), t)
      ensures t == CharType || t == IntType || t == AddrType ==>
                made == if old(NoneFree(ThePool(), t)) then old(made) + [x] else old(made)
    {
      var free := GetFreeTemporary(t);
      if free.Some? {
        x := free.value;
      } else {
        x := Symbol(nextKey, Local, t, OtherType, false, true, false, 0, nextId);
        nextKey, nextId, made := nextKey + 1, nextId + 1, made + [x];
      }
    }

    method FreeTemporary(x: Symbol)
      modifies this
      ensures ThePool() == Freed(old(ThePool()), x)
    {
      if x.typ == CharType {
        chars := [x] + chars;
      } else if x.typ == IntType {
        ints := [x] + ints;
      } else if x.typ == AddrType {
        addrs := [x] + addrs;
      }
    }

    method Release(x: Symbol)
      modifies this
      ensures ThePool() == FreedIfTemporary(old(ThePool()), x)
    {
      if x.isTemporary {
        FreeTemporary(x);
      }
    }

    /** Sets the element type in the entry of an address. */
    method SetElementType(x: Symbol, t: Type)
      modifies this`made
      ensures ThePool() == Retyped(old(ThePool()), x, t)
    {
      made := Replaced(made, x, x.(elementType := t));
    }

    method CreateConstantVariable(t: Type, v: int) returns (x: Symbol)
      modifies this
      ensures x == ConstantSymbol(old(ThePool()), t, v) && ThePool() == AfterConstant(old(ThePool()))
    {
      x := Symbol(nextKey, Local, t, OtherType, false, false, true, v, 0);
      nextKey := nextKey + 1;
    }

    method CreateLabels(n: nat) returns (first: nat)
      modifies this
      ensures first == old(nextLabel) && ThePool() == WithLabels(old(ThePool()), n)
    {
      first := nextLabel;
      nextLabel := nextLabel + n;
    }

    /** The code of an expression that is read. */
    method GenerateExpression(e: Expr) returns (code: Code, place: Symbol)
      modifies this
      ensures Generated(code, place, ThePool()) == GenExpr(e, old(ThePool()))
      decreases e, 0
    {
      match e
      case Var(x) =>
        code, place := [], x;
      case Const(t, v) =>
        place := CreateTemporary(t);
        var constant := CreateConstantVariable(t, v);
        code := [Simple(Assign, Plus, Some(place), Some(constant), None)];
      case Negation(t, a) =>
        var operand;
        code, operand := GenerateExpression(a);
        place := CreateTemporary(t);
        code := code + [Simple(UMinus, Plus, Some(place), Some(operand), None)];
        Release(operand);
      case Arithmetic(t, k, a, b) =>
        code, place := GenerateBinary(t, k, a, b);
      case Element(x, a) =>
        var address;
        code, address := GenerateAddress(x, a);
        place := CreateTemporary(x.elementType);
        code := code + [Simple(Deref, Plus, Some(place), Some(address), None)];
    }

    method GenerateBinary(t: Type, k: Kind, a: Expr, b: Expr) returns (code: Code, place: Symbol)
      modifies this
      ensures Generated(code, place, ThePool()) == GenExpr(Arithmetic(t, k, a, b), old(ThePool()))
      decreases Arithmetic(t, k, a, b), -1
    {
      var code1, place1 := GenerateExpression(a);
      var code2, place2 := GenerateExpression(b);
      place := CreateTemporary(t);
      code := code1 + code2 + [Simple(Binary, k, Some(place), Some(place1), Some(place2))];
      Release(place1);
      Release(place2);
    }

    /** The code of an array element as the target of an assignment or before it is read. */
    method GenerateAddress(x: Symbol, a: Expr) returns (code: Code, place: Symbol)
      modifies this
      ensures Generated(code, place, ThePool()) == GenAddress(x, a, old(ThePool()))
      decreases a, 1
    {
      var index;
      code, index := GenerateExpression(a);
      Release(index);
      var address := CreateTemporary(AddrType);
      place := address.(elementType := x.elementType);
      SetElementType(address, x.elementType);
      code := code + [Simple(IndexArray, Plus, Some(place), Some(index), Some(x))];
    }

    method GenerateTest(b: Test, ifTrue: nat, ifFalse: nat) returns (code: Code)
      modifies this
      ensures GeneratedCode(code, ThePool()) == GenTest(b, ifTrue, ifFalse, old(ThePool()))
      decreases b
    {
      match b
      case Comparison(k, l, r) =>
        var code1, place1 := GenerateExpression(l);
        var code2, place2 := GenerateExpression(r);
        code := code1 + code2 + [JumpIf(k, place1, place2, ifTrue), JumpTo(ifFalse)];
      case And(l, r) =>
        var next := CreateLabels(1);
        var code1 := GenerateTest(l, next, ifFalse);
        var code2 := GenerateTest(r, ifTrue, ifFalse);
        code := code1 + [LabelHere(next)] + code2;
      case Or(l, r) =>
        var next := CreateLabels(1);
        var code1 := GenerateTest(l, ifTrue, next);
        var code2 := GenerateTest(r, ifTrue, ifFalse);
        code := code1 + [LabelHere(next)] + code2;
      case Not(a) =>
        code := GenerateTest(a, ifFalse, ifTrue);
    }

    method GenerateCondition(b: Option<Test>, body: nat, after: nat) returns (code: Code)
      modifies this
      ensures GeneratedCode(code, ThePool()) == GenCondition(b, body, after, old(ThePool()))
    {
      if b.Some? {
        code := GenerateTest(b.value, body, after);
      } else {
        code := [JumpTo(body)];
      }
    }

    method GenerateStatement(st: Stmt) returns (code: Code)
      modifies this
      ensures GeneratedCode(code, ThePool()) == GenStmt(st, old(ThePool()))
      decreases st, 1
    {
      match st
      case Nothing =>
        code := [];
      case SetVariable(x, e) =>
        var place;
        code, place := GenerateExpression(e);
        code := code + [Simple(Assign, Plus, Some(x), Some(place), None)];
        Release(place);
      case SetElement(x, a, e) =>
        var code1, address := GenerateAddress(x, a);
        var code2, place := GenerateExpression(e);
        code := code1 + code2 + [Simple(Assign, Plus, Some(address), Some(place), None)];
        Release(place);
      case Branch(b, s, e) =>
        code := GenerateBranch(b, s, e);
      case While(b, s) =>
        var body := CreateLabels(3);
        var eval, after := body + 1, body + 2;
        var bodyCode := GenerateStatement(s);
        var testCode := GenerateTest(b, body, after);
        code := [JumpTo(eval), LabelHere(body)] + bodyCode + [LabelHere(eval)] + testCode + [LabelHere(after)];
      case For(i, b, u, s) =>
        code := GenerateFor(i, b, u, s);
      case Invoke(f, args, x, t) =>
        code := GenerateCall(f, args, x, t);
      case Exit(f, t, e) =>
        code := GenerateReturn(f, t, e);
      case Sequence(a, b) =>
        var code1 := GenerateStatement(a);
        var code2 := GenerateStatement(b);
        code := code1 + code2;
    }

    method GenerateBranch(b: Test, s: Stmt, e: Option<Stmt>) returns (code: Code)
      modifies this
      ensures GeneratedCode(code, ThePool()) == GenBranch(b, s, e, old(ThePool()))
      decreases Branch(b, s, e), 0
    {
      hide GenStmt, GenTest, GenExpr, JumpTo, LabelHere, WithLabels;
      var then_ := CreateLabels(3);
      var else_, after := then_ + 1, then_ + 2;
      var testCode := GenerateTest(b, then_, if e.Some? then else_ else after);
      var thenCode := GenerateStatement(s);
      if e.Some? {
        var elseCode := GenerateStatement(e.value);
        code := testCode + [LabelHere(then_)] + thenCode + [JumpTo(after), LabelHere(else_)] + elseCode
          + [LabelHere(after)];
      } else {
        code := testCode + [LabelHere(then_)] + thenCode + [LabelHere(after)];
      }
    }

    method GenerateArguments(args: seq<Expr>) returns (code: Code, places: seq<Symbol>)
      modifies this
      ensures GeneratedArguments(code, places, ThePool()) == GenArguments(args, old(ThePool()))
    {
      hide GenExpr, FreedIfTemporary, Created;
      code, places := [], [];
      var i := 0;
      while i < |args|
        invariant 0 <= i <= |args|
        invariant var r := GenArguments(args[i..], ThePool());
          GenArguments(args, old(ThePool())) == GeneratedArguments(code + r.code, places + r.places, r.pool)
      {
        var argumentCode, place := GenerateExpression(args[i]);
        assert args[i..][1..] == args[i + 1..];
        code, places := code + argumentCode, places + [place];
        i := i + 1;
      }
    }

    method GenerateParams(places: seq<Symbol>) returns (code: Code)
      modifies this
      ensures code == ParamCode(places) && ThePool() == AllFreed(old(ThePool()), places)
    {
      hide FreedIfTemporary, Named;
      code := [];
      var i := 0;
      while i < |places|
        invariant 0 <= i <= |places| && ParamCode(places) == ParamCode(places[i..]) + code
        invariant AllFreed(old(ThePool()), places) == AllFreed(ThePool(), places[i..])
      {
        assert places[i..][1..] == places[i + 1..];
        Release(places[i]);
        code := [Named(Param, places[i])] + code;
        i := i + 1;
      }
    }

    method GenerateCall(f: Symbol, args: seq<Expr>, x: Option<Symbol>, t: Type) returns (code: Code)
      modifies this
      ensures GeneratedCode(code, ThePool()) == GenInvoke(f, args, x, t, old(ThePool()))
    {
      hide GenArguments, ParamCode, AllFreed, Created, FreedIfTemporary, Named, Simple;
      var argumentCode, places := GenerateArguments(args);
      var paramCode := GenerateParams(places);
      code := argumentCode + (paramCode + [Named(Call, f)]);
      if x.Some? {
        var d := CreateTemporary(t);
        code := code + [Simple(Retrieve, Plus, Some(d), None, None), Simple(Assign, Plus, x, Some(d), None)];
        Release(d);
      }
    }

    method GenerateReturn(f: Symbol, t: Type, e: Option<Expr>) returns (code: Code)
      modifies this
      ensures GeneratedCode(code, ThePool()) == GenExit(f, t, e, old(ThePool()))
    {
      code := [Named(Leave, f)];
      if e.None? {
        code := code + [Simple(Return, Plus, None, None, None)];
      } else {
        var valueCode, value := GenerateExpression(e.value);
        var place := CreateTemporary(t);
        code := code + valueCode + [Simple(Assign, Plus, Some(place), Some(value), None), Named(Return, place)];
      }
    }

    method GenerateFor(i: Stmt, b: Option<Test>, u: Stmt, s: Stmt) returns (code: Code)
      modifies this
      ensures GeneratedCode(code, ThePool()) == GenFor(i, b, u, s, old(ThePool()))
      decreases For(i, b, u, s), 0
    {
      hide GenStmt, GenCondition, GenTest, GenExpr, WithLabels, LoopPieces;
      var body := CreateLabels(3);
      var initCode := GenerateStatement(i);
      var bodyCode := GenerateStatement(s);
      var updateCode := GenerateStatement(u);
      var testCode := GenerateCondition(b, body, body + 2);
      code := initCode + LoopPieces(body, bodyCode, updateCode, testCode);
    }
  }
}
