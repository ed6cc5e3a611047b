/** A simple machine and simple instructions, for the examples that show what passes need. */
module Examples {
  import opened Instructions
  import opened Semantics

  const ID: (Type, int) -> int := (t: Type, v: int) => v

  function Callee(f: Symbol, arguments: seq<int>, globals: Store, memory: Memory): CallResult {
    CallResult(globals, memory, 0)
  }

  const PLAIN := Machine(ID, (k: Kind, a: int, b: int) => a, (v: int) => v, Callee)

  function StartState(locals: Store): State {
    State(0, map[], locals, map[], [], 0, [], Running)
  }

  function LocalInt(key: nat, isTemporary: bool): Symbol {
    Symbol(key, Local, IntType, IntType, false, isTemporary, false, 0, key)
  }

  function FunctionName(): Symbol {
    Symbol(0, Global, OtherType, OtherType, false, false, false, 0, 0)
  }

  function Five(): Symbol {
    Symbol(9, Local, IntType, IntType, false, false, true, 5, 0)
  }

  function Copy(d: Symbol, x: Symbol): Instruction {
    Instruction(Assign, Plus, Some(d), Some(x), None, 0, false)
  }

  function AnArray(): Symbol {
    Symbol(8, Global, ArrayType, IntType, false, false, false, 0, 0)
  }
}
