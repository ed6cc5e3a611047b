/**
 * Three-address instructions and the symbol-table entries they refer to
 * (instruction.h, symbol-table.h, global.h).
 *
 * A pointer to a symbol-table entry is a `Symbol` value whose `key` makes it
 * unique, so pointer equality is equality of values. A pointer to an
 * instruction is its position in the instruction list.
 */
module Instructions {

  datatype Option<+T> = None | Some(value: T)

  datatype Scope = Global | Local

  datatype Type = CharType | IntType | BoolType | ArrayType | AddrType | OtherType

  /** The fields of a symbol-table entry that do not change once code is generated. */
  datatype Symbol = Symbol(
    key: nat,
    scope: Scope,
    typ: Type,
    elementType: Type,
    isFormal: bool,
    isTemporary: bool,
    isConstant: bool,
    constantValue: int,
    id: nat)

  datatype Operation =
    | Assign | UMinus | Binary | Retrieve | IndexArray | Deref
    | If | Goto | Label | Param | Call | Return | Enter | Leave | GlobalDeclaration

  datatype Kind = Plus | Minus | Mult | Div | LE | EQ | LT | GT | NE | GE

  datatype Instruction = Instruction(
    op: Operation,
    kind: Kind,
    dest: Option<Symbol>,
    src1: Option<Symbol>,
    src2: Option<Symbol>,
    jumpTo: nat,
    dead: bool)

  type Code = seq<Instruction>

  /** Is `v` an entry that the analyses number: a local variable, not a constant? */
  predicate IsLocal(v: Option<Symbol>) {
    v.Some? && v.value.scope == Local && !v.value.isConstant
  }

  /** An assignment whose destination holds an address writes through it; only indexing changes it. */
  predicate RedefinesVariable(i: Instruction) {
    i.dest.Some? && (i.dest.value.typ != AddrType || i.op == IndexArray)
  }

  /** Instructions whose first operand is read as a variable. */
  predicate IsRhsVariable(i: Instruction) {
    i.src1.Some? && i.op != Call && i.op != Enter && i.op != GlobalDeclaration
  }

  /** The assignment of a variable to itself. */
  predicate IsNullAssignment(i: Instruction) {
    i.op == Assign && i.dest == i.src1
  }

  predicate IsJump(i: Instruction) {
    i.op == If || i.op == Goto
  }

  function InvertedKind(k: Kind): Kind {
    match k
    case EQ => NE
    case NE => EQ
    case LE => GT
    case GT => LE
    case GE => LT
    case LT => GE
    case _ => k
  }

  predicate IsScalar(t: Type) {
    t == CharType || t == IntType || t == AddrType
  }

  predicate IsRelational(k: Kind) {
    k == LE || k == EQ || k == LT || k == GT || k == NE || k == GE
  }

  /** The operands that each operation carries, as the code generator fills them. */
  predicate WellFormed(i: Instruction) {
    && (i.dest.Some? ==> !i.dest.value.isConstant && IsScalar(i.dest.value.typ))
    && match i.op
       case Assign =>
         i.dest.Some? && i.src1.Some? && i.src1.value.typ != AddrType && i.src2.None?
       case UMinus =>
         i.dest.Some? && i.dest.value.typ != AddrType && i.src1.Some? && i.src2.None?
       case Binary =>
         i.dest.Some? && i.dest.value.typ != AddrType && i.src1.Some? && i.src2.Some?
       case Retrieve =>
         i.dest.Some? && i.dest.value.typ != AddrType && i.src1.None? && i.src2.None?
       case IndexArray =>
         i.dest.Some? && i.dest.value.typ == AddrType && i.src1.Some?
         && i.src2.Some? && i.src2.value.typ == ArrayType
       case Deref =>
         i.dest.Some? && i.dest.value.typ != AddrType && i.src1.Some? && i.src2.None?
       case If =>
         i.dest.None? && i.src1.Some? && i.src2.Some? && IsRelational(i.kind)
       case Goto =>
         i.dest.None? && i.src1.None? && i.src2.None?
       case Label =>
         i.dest.None? && i.src1.None? && i.src2.None?
       case Param =>
         i.dest.None? && i.src1.Some? && i.src2.None?
       case Return =>
         i.dest.None? && i.src2.None?
       case GlobalDeclaration =>
         i.dest.None? && i.src1.Some? && i.src1.value.scope == Global && !i.src1.value.isConstant && i.src2.None?
       case _ =>
         i.dest.None? && i.src1.Some? && i.src1.value.scope == Global && i.src1.value.typ == OtherType && i.src2.None?
  }

  /**
   * The list handed to the optimizer: `entry` declarations of globals, the Enter
   * instruction, then the body. Jumps target labels of the body.
   */
  ghost predicate WellFormedCode(code: Code, entry: nat) {
    && entry < |code|
    && code[entry].op == Enter
    && (forall p :: 0 <= p < entry ==> code[p].op == GlobalDeclaration)
    && (forall p :: entry < p < |code| ==> code[p].op != GlobalDeclaration && code[p].op != Enter)
    && (forall p :: 0 <= p < |code| ==> WellFormed(code[p]))
    && (forall p :: 0 <= p < |code| && IsJump(code[p]) ==>
          entry < code[p].jumpTo < |code| && code[code[p].jumpTo].op == Label)
  }

  /** Two lists that differ only in that the second one marks more instructions dead. */
  ghost predicate OnlyMoreDead(code: Code, code': Code) {
    && |code| == |code'|
    && forall p :: 0 <= p < |code| ==>
         code'[p] == code[p] || code'[p] == code[p].(dead := true)
  }

  /** Two variables do not share an id, or both hold addresses, whose ids liveness never takes away. */
  predicate IdsApart(x: Symbol, y: Symbol) {
    x.id == y.id ==> x == y || (x.typ == AddrType && y.typ == AddrType)
  }

  /**
   * Local variables that the code changes have an id of their own. Formals share
   * the id 0, so this says that no formal is assigned where another assigned
   * variable has that id.
   */
  ghost predicate DistinctAssignedIds(code: Code) {
    forall p, q :: 0 <= p < |code| && 0 <= q < |code|
      && RedefinesVariable(code[p]) && RedefinesVariable(code[q])
      && IsLocal(code[p].dest) && IsLocal(code[q].dest)
      ==> IdsApart(code[p].dest.value, code[q].dest.value)
  }

  /** Does some instruction of the list change the variable? */
  ghost predicate IsAssigned(code: Code, x: Symbol) {
    exists p :: 0 <= p < |code| && RedefinesVariable(code[p]) && code[p].dest == Some(x)
  }
}
