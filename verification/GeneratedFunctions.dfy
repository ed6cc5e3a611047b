/** The code of a whole function (process_function_header and generate_function_code, code_generation.c). */
module GeneratedFunctions {
  import opened Instructions
  import opened Semantics
  import opened Behaviour
  import opened SyntaxTrees
  import opened TemporaryPool
  import opened CodeGeneration
  import opened GeneratedRuns
  import opened StatementRuns
  import opened GeneratedLabels

  /** A function: the globals declared before it, its name and its body. */
  datatype Function = Function(declarations: seq<Symbol>, header: Symbol, body: Stmt, pool: Pool)

  /** A global entry of the symbol table: a variable of any type, an array, or a function. */
  predicate IsGlobalName(x: Symbol) {
    x.scope == Global && !x.isTemporary && !x.isConstant && x.typ != AddrType
  }

  ghost predicate FunctionOk(f: Function) {
    && IsFunctionName(f.header) && (forall x :: x in f.declarations ==> IsGlobalName(x))
    && StmtOk(f.body) && Ready(f.pool)
  }

  function Declarations(list: seq<Symbol>): (r: Code)
    ensures |r| == |list| && forall i :: 0 <= i < |list| ==> r[i] == Named(GlobalDeclaration, list[i])
  {
    seq(|list|, i requires 0 <= i < |list| => Named(GlobalDeclaration, list[i]))
  }

  /** The code of the body and of the return statement behind it. */
  function BodyOf(f: Function): GeneratedCode {
    GenStmt(WithReturn(f.body, f.header), f.pool)
  }

  function FunctionCode(f: Function): Code {
    Declarations(f.declarations) + [Named(Enter, f.header)] + BodyOf(f).code
  }

  /** The position of the Enter instruction. */
  function EntryOf(f: Function): nat {
    |f.declarations|
  }

  lemma FunctionPlaced(f: Function)
    ensures var c, n, g := FunctionCode(f), EntryOf(f), BodyOf(f).code;
      && |c| == n + 1 + |g| && (forall i :: 0 <= i < n ==> c[i] == Named(GlobalDeclaration, f.declarations[i]))
      && c[n] == Named(Enter, f.header) && Holds(c, n + 1, g)
  {
    var a, e, g := Declarations(f.declarations), [Named(Enter, f.header)], BodyOf(f).code;
    hide BodyOf, Named, Declarations;
    assert FunctionCode(f) == a + e + g;
    forall i | 0 <= i < |g| ensures FunctionCode(f)[EntryOf(f) + 1 + i] == g[i] {
    }
  }

  /** Every label stands once in the code of a function, and every jump has its label. */
  lemma FunctionLabels(f: Function)
    requires FunctionOk(f)
    ensures UniqueLabels(FunctionCode(f)) && Jumps(FunctionCode(f)) <= Labels(FunctionCode(f))
  {
    var a, e, g := Declarations(f.declarations), [Named(Enter, f.header)], BodyOf(f).code;
    BodyIsOk(f);
    StmtLabels(WithReturn(f.body, f.header), f.pool);
    assert Labels(a) == {} && Jumps(a) == {} && Labels(e) == {} && Jumps(e) == {};
    assert UniqueLabels(a) && UniqueLabels(e);
    hide Labels, Jumps, UniqueLabels, GenStmt, Named, Declarations;
    PartsOf(a, e);
    PartsOf(a + e, g);
  }

  // ---------------------------------------------------------------- the return statement behind the body

  lemma BodyIsOk(f: Function)
    requires FunctionOk(f)
    ensures StmtOk(WithReturn(f.body, f.header)) && Ready(f.pool)
  {
    hide PoolOk, IsFunctionName;
    ReturnIsOk(f.body, f.header);
  }

  /** The statement behind the body is one that the type checker accepts and that copies nothing. */
  lemma {:induction false} ReturnIsOk(st: Stmt, header: Symbol)
    requires StmtOk(st) && IsFunctionName(header)
    ensures StmtOk(WithReturn(st, header)) && (StmtFits(WithReturn(st, header)) <==> StmtFits(st))
  {
    hide IsFunctionName;
    if st.Sequence? {
      ReturnIsOk(st.tail, header);
    }
  }

  /** The function returns without a value where its body comes to its end. */
  lemma {:induction false} ReturnExec(m: Machine, s: State, st: Stmt, header: Symbol, fuel: nat)
    ensures Exec(m, s, WithReturn(st, header), fuel) == Finished(Exec(m, s, st, fuel))
    decreases st
  {
    if st.Sequence? {
      var s1 := Exec(m, s, st.head, fuel);
      if s1.Some? {
        ReturnExec(m, s1.value, st.tail, header, fuel);
      }
    }
  }

  function Finished(end: Option<State>): Option<State> {
    if end.Some? && end.value.status == Running then Some(end.value.(status := Returned(None))) else end
  }

  /** Over the declarations that are left and the Enter instruction. */
  lemma {:induction false} BodyReached(m: Machine, f: Function, s: State, t: State, k: nat)
    requires Arrived(m, s, t, k) && k <= EntryOf(f)
    ensures Reaches(m, FunctionCode(f), t, EntryOf(f) + 1, s)
    decreases EntryOf(f) - k
  {
    FunctionPlaced(f);
    var c := FunctionCode(f);
    assert EntryOf(f) == |f.declarations|;
    hide *;
    if k == EntryOf(f) {
      PassedOver(m, c, s, t, k, Enter, f.header);
    } else {
      PassedOver(m, c, s, t, k, GlobalDeclaration, f.declarations[k]);
      var t1 := Reached(m, c, t, k + 1, s);
      BodyReached(m, f, s, t1.0, k + 1);
      Onward(m, c, t, t1.1, EntryOf(f) + 1, s);
    }
  }

  lemma BodyIsReady(m: Machine, f: Function, s: State)
    requires FunctionOk(f) && s.status == Running
    ensures Arrived(m, s, s, s.pc) && StmtOk(WithReturn(f.body, f.header)) && Ready(f.pool)
  {
    BodyIsOk(f);
  }

  /** What a function shows whose body ends in the state `s`, by a return statement or at its end. */
  function Returning(m: Machine, s: State): Observation {
    Observation(s.trace, Some(Outcome(if s.status == Running then Returned(None) else s.status,
                                      Contents(m, s.globals), s.memory)))
  }

  /**
   * Code generation preserves meaning: if the body of the function ends, the run of its code
   * returns, with the same value and the same values of the global variables and in memory.
   */
  lemma FunctionRuns(m: Machine, f: Function, s: State, fuel: nat)
    requires m.Valid() && FunctionOk(f) && s.pc <= EntryOf(f) && s.status == Running
    requires Exec(m, s, f.body, fuel).Some?
    ensures Shows(m, Linked(FunctionCode(f)), s, Returning(m, Exec(m, s, f.body, fuel).value))
  {
    hide *;
    FunctionPlaced(f);
    FunctionLabels(f);
    BodyIsReady(m, f, s);
    var c, g, n := FunctionCode(f), BodyOf(f).code, EntryOf(f);
    BodyExec(m, f, s, fuel);
    var s1 := Finished(Exec(m, s, f.body, fuel)).value;
    BodyReached(m, f, s, s, s.pc);
    var t1 := Reached(m, c, s, n + 1, s);
    StmtRuns(m, c, n + 1, WithReturn(f.body, f.header), f.pool, s, t1.0, fuel);
    var t2 := Reached(m, c, t1.0, n + 1 + |g|, s1);
    Onward(m, c, s, t1.1, n + 1 + |g|, s1);
    ReturnShown(m, c, s, n + 1 + |g|, s1);
    FinishedShown(m, Exec(m, s, f.body, fuel).value);
  }

  lemma BodyExec(m: Machine, f: Function, s: State, fuel: nat)
    ensures BodyOf(f) == GenStmt(WithReturn(f.body, f.header), f.pool)
    ensures Exec(m, s, WithReturn(f.body, f.header), fuel) == Finished(Exec(m, s, f.body, fuel))
    ensures Exec(m, s, f.body, fuel).Some? ==>
              Finished(Exec(m, s, f.body, fuel)).Some? && Finished(Exec(m, s, f.body, fuel)).value.status != Running
  {
    ReturnExec(m, s, f.body, f.header, fuel);
    hide GenStmt, WithReturn, Exec;
  }

  lemma FinishedShown(m: Machine, s: State)
    ensures Returning(m, Finished(Some(s)).value) == Returning(m, s)
  {
  }

  lemma ReturnShown(m: Machine, c: Code, t: State, q: nat, s: State)
    requires Reaches(m, c, t, q, s) && s.status != Running
    ensures Shows(m, Linked(c), t, Returning(m, s))
  {
    var n: nat :| Arrived(m, s, Run(m, Linked(c), t, n), q);
    assert Observe(m, |Linked(c)|, Run(m, Linked(c), t, n)) == Returning(m, s);
  }
}
