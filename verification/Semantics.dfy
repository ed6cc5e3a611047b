/**
 * What a list of three-address instructions computes.
 *
 * Arithmetic, the fitting of a value into a variable of a given type and the
 * effect of a call are parameters, so every theorem holds for all of them: for
 * 8-bit and 32-bit wrap-around, for any result of a division by zero, and for
 * any callee that reads its arguments, the global variables and the memory.
 */
module Semantics {
  import opened Instructions

  type Store = map<Symbol, int>
  type Memory = map<int, int>

  datatype CallResult = CallResult(globals: Store, memory: Memory, value: int)

  datatype Machine = Machine(
    fit: (Type, int) -> int,
    arithmetic: (Kind, int, int) -> int,
    negate: int -> int,
    call: (Symbol, seq<int>, Store, Memory) -> CallResult)
  {
    /** Fitting a value that already fits changes nothing. */
    ghost predicate Valid() {
      forall t: Type, v: int :: fit(t, fit(t, v)) == fit(t, v)
    }

    /** An integer variable loses nothing that a variable of another type would keep. */
    ghost predicate IntIsWidest() {
      forall t: Type, v: int :: fit(t, fit(IntType, v)) == fit(t, v)
    }
  }

  datatype Event = Event(callee: Symbol, arguments: seq<int>, globals: Store, memory: Memory)

  datatype Status = Running | Returned(value: Option<int>)

  datatype State = State(
    pc: nat,
    globals: Store,
    locals: Store,
    memory: Memory,
    arguments: seq<int>,
    value: int,
    trace: seq<Event>,
    status: Status)

  function Lookup(m: Machine, store: Store, x: Symbol): int {
    m.fit(x.typ, if x in store then store[x] else 0)
  }

  /** What a callee sees of the global variables: the values that are not the initial ones. */
  function Contents(m: Machine, store: Store): Store {
    map x | x in store && Lookup(m, store, x) != m.fit(x.typ, 0) :: Lookup(m, store, x)
  }

  /** The store after writing `v`; writing the value already there leaves the store alone. */
  function Updated(m: Machine, store: Store, x: Symbol, v: int): Store {
    if Lookup(m, store, x) == m.fit(x.typ, v) then store else store[x := m.fit(x.typ, v)]
  }

  function Read(m: Machine, s: State, x: Symbol): int {
    if x.isConstant then m.fit(x.typ, x.constantValue)
    else if x.scope == Global then Lookup(m, s.globals, x)
    else Lookup(m, s.locals, x)
  }

  function ReadOperand(m: Machine, s: State, x: Option<Symbol>): int {
    if x.Some? then Read(m, s, x.value) else 0
  }

  function Write(m: Machine, s: State, x: Symbol, v: int): State {
    if x.scope == Global then s.(globals := Updated(m, s.globals, x, v))
    else s.(locals := Updated(m, s.locals, x, v))
  }

  function Compare(k: Kind, a: int, b: int): bool {
    match k
    case LE => a <= b
    case EQ => a == b
    case LT => a < b
    case GT => a > b
    case NE => a != b
    case GE => a >= b
    case _ => false
  }

  function ElementSize(t: Type): int {
    if t == IntType then 4 else 1
  }

  /** The value that an instruction with operand values `v1` and `v2` computes. */
  function Result(m: Machine, s: State, i: Instruction, v1: int, v2: int): int {
    match i.op
    case Assign => v1
    case UMinus => m.negate(v1)
    case Binary => m.arithmetic(i.kind, v1, v2)
    case Retrieve => s.value
    case IndexArray => v2 + v1 * (if i.src2.Some? then ElementSize(i.src2.value.elementType) else 1)
    case Deref => if v1 in s.memory then s.memory[v1] else 0
    case _ => 0
  }

  /** Everything an instruction does except writing a variable: the next pc and the other components. */
  function Control(m: Machine, s: State, i: Instruction, v1: int, v2: int): State {
    match i.op
    case If => s.(pc := if Compare(i.kind, v1, v2) then i.jumpTo else s.pc + 1)
    case Goto => s.(pc := i.jumpTo)
    case Param => s.(pc := s.pc + 1, arguments := s.arguments + [v1])
    case Call =>
      if i.src1.None? then s.(pc := s.pc + 1)
      else
        var seen := Contents(m, s.globals);
        var r := m.call(i.src1.value, s.arguments, seen, s.memory);
        State(s.pc + 1, r.globals, s.locals, r.memory, [], r.value,
              s.trace + [Event(i.src1.value, s.arguments, seen, s.memory)], s.status)
    case Return => s.(status := Returned(if i.src1.Some? then Some(v1) else None))
    case _ => s.(pc := s.pc + 1)
  }

  function Execute(m: Machine, s: State, i: Instruction): State {
    var v1 := ReadOperand(m, s, i.src1);
    var v2 := ReadOperand(m, s, i.src2);
    var s' := Control(m, s, i, v1, v2);
    if i.dest.None? then s'
    else if i.dest.value.typ == AddrType && i.op != IndexArray then
      // the destination holds the address of the cell that is written
      s'.(memory := s'.memory[Read(m, s, i.dest.value) := m.fit(i.dest.value.elementType, v1)])
    else Write(m, s', i.dest.value, Result(m, s, i, v1, v2))
  }

  /** One step; a dead instruction is passed over, as the translator does. */
  function Step(m: Machine, code: Code, s: State): State {
    if s.status != Running || s.pc >= |code| then s
    else if code[s.pc].dead then s.(pc := s.pc + 1)
    else Execute(m, s, code[s.pc])
  }

  function Run(m: Machine, code: Code, s: State, n: nat): State {
    if n == 0 then s else Step(m, code, Run(m, code, s, n - 1))
  }

  lemma RunIsSteps(m: Machine, code: Code, s: State, n: nat)
    ensures Run(m, code, s, 0) == s
    ensures Run(m, code, s, n + 1) == Step(m, code, Run(m, code, s, n))
  {
  }

  lemma {:induction false} RunAppends(m: Machine, code: Code, s: State, n: nat, k: nat)
    ensures Run(m, code, Run(m, code, s, n), k) == Run(m, code, s, n + k)
  {
    hide Step;
    if k > 0 {
      RunAppends(m, code, s, n, k - 1);
    }
  }

  lemma TwoSteps(m: Machine, code: Code, s: State)
    ensures Run(m, code, s, 0) == s && Run(m, code, s, 1) == Step(m, code, s)
    ensures Run(m, code, s, 2) == Step(m, code, Step(m, code, s))
  {
    RunIsSteps(m, code, s, 0);
    RunIsSteps(m, code, s, 1);
  }

  /** Two states that agree on everything but the local variables. */
  ghost predicate SameEffects(s: State, s': State) {
    s' == s.(locals := s'.locals)
  }

  /** Two lists that, from every state, have the same effects after every number of steps. */
  ghost predicate SameMeaning(m: Machine, code: Code, code': Code) {
    forall s: State, n: nat ::
      SameEffects(Run(m, code, s, n), Run(m, code', s, n))
  }

  lemma LookupAfterUpdate(m: Machine, store: Store, x: Symbol, v: int, y: Symbol)
    requires m.Valid()
    ensures Lookup(m, Updated(m, store, x, v), y) == if y == x then m.fit(x.typ, v) else Lookup(m, store, y)
  {
  }

  lemma NullWrite(m: Machine, s: State, x: Symbol, v: int)
    requires m.Valid() && !x.isConstant && m.fit(x.typ, v) == Read(m, s, x)
    ensures Write(m, s, x, v) == s
  {
  }

  lemma ReadAfterWrite(m: Machine, s: State, x: Symbol, v: int, y: Symbol)
    requires m.Valid() && !x.isConstant
    ensures Read(m, Write(m, s, x, v), y) == if y == x then m.fit(x.typ, v) else Read(m, s, y)
  {
  }

  lemma WriteKeepsPc(m: Machine, s: State, x: Symbol, v: int)
    ensures Write(m, s, x, v).pc == s.pc && Write(m, s, x, v).status == s.status
  {
  }

  /** Where an instruction leads. */
  lemma ExecutedPc(m: Machine, s: State, i: Instruction)
    ensures var s' := Execute(m, s, i);
            s'.pc == s.pc + 1 || (i.op == Return && s'.pc == s.pc) || (IsJump(i) && s'.pc == i.jumpTo)
  {
    var v1, v2 := ReadOperand(m, s, i.src1), ReadOperand(m, s, i.src2);
    if i.dest.Some? {
      WriteKeepsPc(m, Control(m, s, i, v1, v2), i.dest.value, Result(m, s, i, v1, v2));
    }
  }
}
