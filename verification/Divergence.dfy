/** Where a statement does not end, its code does not end either, and makes the same calls. */
module Divergence {
  import opened Instructions
  import opened Semantics
  import opened Behaviour
  import opened SyntaxTrees
  import opened TemporaryPool
  import opened CodeGeneration
  import opened GeneratedRuns
  import opened StatementRuns
  import opened GeneratedFunctions

  /** The run goes on after at least `n` steps, having made these calls. */
  ghost predicate Lasts(m: Machine, c: Code, t: State, n: nat, calls: seq<Event>) {
    exists k: nat :: n <= k && GoesOn(m, c, t, k, calls)
  }

  ghost predicate GoesOn(m: Machine, c: Code, t: State, k: nat, calls: seq<Event>) {
    var t' := Run(m, Linked(c), t, k);
    t'.status == Running && t'.pc < |c| && t'.trace == calls
  }

  lemma LastsAfter(m: Machine, c: Code, t: State, j: nat, n: nat, calls: seq<Event>)
    requires Lasts(m, c, Run(m, Linked(c), t, j), n, calls)
    ensures Lasts(m, c, t, n + j, calls)
  {
    var k: nat :| n <= k && GoesOn(m, c, Run(m, Linked(c), t, j), k, calls);
    RunAppends(m, Linked(c), t, j, k);
    assert GoesOn(m, c, t, j + k, calls);
  }

  lemma LastsLess(m: Machine, c: Code, t: State, n: nat, n': nat, calls: seq<Event>)
    requires Lasts(m, c, t, n, calls) && n' <= n
    ensures Lasts(m, c, t, n', calls)
  {
    var k: nat :| n <= k && GoesOn(m, c, t, k, calls);
  }

  lemma LastsHere(m: Machine, c: Code, s: State, t: State, q: nat)
    requires Arrived(m, s, t, q) && q < |c| && s.status == Running
    ensures Lasts(m, c, t, 0, s.trace)
  {
    assert GoesOn(m, c, t, 0, s.trace);
  }

  /** The calls of a loop, from its condition on. */
  function LoopTrace(m: Machine, s: State, l: Loop, fuel: nat): seq<Event> {
    TraceOfLoop(m, s, l.condition, l.update, l.body, fuel)
  }

  /** Coming to another position takes a step. */
  lemma TakesStep(m: Machine, c: Code, s: State, t: State, q: nat, s': State, t': State, q': nat, n: nat)
    requires Arrived(m, s, t, q) && t' == Run(m, Linked(c), t, n) && Arrived(m, s', t', q') && q != q'
    requires s.status == s'.status == Running
    ensures 0 < n
  {
  }

  lemma {:induction false} StmtLasts(m: Machine, c: Code, k: nat, st: Stmt, pool: Pool, s: State, t: State, fuel: nat)
    requires m.Valid() && UniqueLabels(c) && Ready(pool) && StmtOk(st) && Arrived(m, s, t, k)
    requires Holds(c, k, GenStmt(st, pool).code) && Exec(m, s, st, fuel).None?
    ensures Lasts(m, c, t, fuel, TraceOf(m, s, st, fuel))
    decreases fuel, 1, st, 1
  {
    hide Arrived, Lasts, Ready, UniqueLabels, Holds, StmtOk;
    match st
    case Branch(b, s1, e) =>
      BranchLasts(m, c, k, b, s1, e, pool, s, t, fuel);
    case While(b, body) =>
      WhileLasts(m, c, k, b, body, pool, s, t, fuel);
    case For(i, b, u, body) =>
      ForLasts(m, c, k, i, b, u, body, pool, s, t, fuel);
    case Sequence(a, b) =>
      SequenceLasts(m, c, k, a, b, pool, s, t, fuel);
  }

  lemma {:induction false} SequenceLasts(
      m: Machine, c: Code, k: nat, a: Stmt, b: Stmt, pool: Pool, s: State, t: State, fuel: nat)
    requires m.Valid() && UniqueLabels(c) && Ready(pool) && StmtOk(Sequence(a, b)) && Arrived(m, s, t, k)
    requires Holds(c, k, GenStmt(Sequence(a, b), pool).code) && Exec(m, s, Sequence(a, b), fuel).None?
    ensures Lasts(m, c, t, fuel, TraceOf(m, s, Sequence(a, b), fuel))
    decreases fuel, 1, Sequence(a, b), 0
  {
    hide *;
    var calls := TraceOf(m, s, Sequence(a, b), fuel);
    SequenceOpens(m, s, a, b, pool, fuel);
    var g := GenStmt(a, pool);
    var h := GenStmt(b, g.pool);
    HoldsParts(c, k, g.code, h.code);
    if Exec(m, s, a, fuel).None? {
      StmtLasts(m, c, k, a, pool, s, t, fuel);
    } else {
      var s1 := Exec(m, s, a, fuel).value;
      StmtRuns(m, c, k, a, pool, s, t, fuel);
      var t1 := Reached(m, c, t, k + |g.code|, s1);
      StmtLasts(m, c, k + |g.code|, b, g.pool, s1, t1.0, fuel);
      LastsAfter(m, c, t, t1.1, fuel, calls);
      LastsLess(m, c, t, fuel + t1.1, fuel, calls);
    }
  }

  lemma SequenceOpens(m: Machine, s: State, a: Stmt, b: Stmt, pool: Pool, fuel: nat)
    requires Ready(pool) && StmtOk(Sequence(a, b)) && Exec(m, s, Sequence(a, b), fuel).None?
    ensures var g := GenStmt(a, pool);
      && GenStmt(Sequence(a, b), pool).code == g.code + GenStmt(b, g.pool).code && Ready(g.pool)
    ensures StmtOk(a) && StmtOk(b)
    ensures var s1 := Exec(m, s, a, fuel);
      && (s1.Some? ==> Exec(m, s1.value, b, fuel).None?)
      && TraceOf(m, s, Sequence(a, b), fuel) ==
           if s1.None? then TraceOf(m, s, a, fuel) else TraceOf(m, s1.value, b, fuel)
  {
    StmtPool(a, pool);
  }

  /** A statement that does not end has not returned before. */
  lemma StillRuns(m: Machine, s: State, st: Stmt, fuel: nat)
    requires Exec(m, s, st, fuel).None?
    ensures s.status == Running
  {
  }

  lemma BranchTrace(m: Machine, s: State, b: Test, st: Stmt, e: Option<Stmt>, fuel: nat)
    requires s.status == Running
    ensures TraceOf(m, s, Branch(b, st, e), fuel) ==
            if EvalTest(m, s, b) then TraceOf(m, s, st, fuel)
            else if e.Some? then TraceOf(m, s, e.value, fuel) else s.trace
  {
  }

  lemma {:induction false} BranchLasts(
      m: Machine, c: Code, k: nat, b: Test, st: Stmt, e: Option<Stmt>, pool: Pool, s: State, t: State, fuel: nat)
    requires m.Valid() && UniqueLabels(c) && Ready(pool) && StmtOk(Branch(b, st, e)) && Arrived(m, s, t, k)
    requires Holds(c, k, GenStmt(Branch(b, st, e), pool).code) && Exec(m, s, Branch(b, st, e), fuel).None?
    ensures Lasts(m, c, t, fuel, TraceOf(m, s, Branch(b, st, e), fuel))
    decreases fuel, 1, Branch(b, st, e), 0
  {
    hide *;
    var calls := TraceOf(m, s, Branch(b, st, e), fuel);
    BranchFacts(c, k, b, st, e, pool);
    StillRuns(m, s, Branch(b, st, e), fuel);
    BranchExec(m, s, b, st, e, fuel);
    BranchTrace(m, s, b, st, e, fuel);
    var l := pool.nextLabel;
    var ifFalse := if e.Some? then l + 1 else l + 2;
    var test := GenTest(b, l, ifFalse, WithLabels(pool, 3));
    var g := GenStmt(st, test.pool);
    var kt := k + |test.code|;
    var kr := kt + 1 + |g.code|;
    TestRuns(m, c, k, b, l, ifFalse, WithLabels(pool, 3), s, t);
    if EvalTest(m, s, b) {
      var t1 := PassedLabel(m, c, t, kt, l, s);
      StmtLasts(m, c, kt + 1, st, test.pool, s, t1.0, fuel);
      LastsAfter(m, c, t, t1.1, fuel, calls);
      LastsLess(m, c, t, fuel + t1.1, fuel, calls);
    } else {
      ElseFacts(c, kr, l, e.value, g.pool);
      var t1 := PassedLabel(m, c, t, kr + 1, l + 1, s);
      StmtLasts(m, c, kr + 2, e.value, g.pool, s, t1.0, fuel);
      LastsAfter(m, c, t, t1.1, fuel, calls);
      LastsLess(m, c, t, fuel + t1.1, fuel, calls);
    }
  }

  lemma {:induction false} WhileLasts(
      m: Machine, c: Code, k: nat, b: Test, body: Stmt, pool: Pool, s: State, t: State, fuel: nat)
    requires m.Valid() && UniqueLabels(c) && Ready(pool) && StmtOk(While(b, body)) && Arrived(m, s, t, k)
    requires Holds(c, k, GenStmt(While(b, body), pool).code) && Exec(m, s, While(b, body), fuel).None?
    ensures Lasts(m, c, t, fuel, TraceOf(m, s, While(b, body), fuel))
    decreases fuel, 1, While(b, body), 0
  {
    hide *;
    StillRuns(m, s, While(b, body), fuel);
    WhileFacts(m, s, b, body, pool, fuel);
    WhileCode(b, body, pool);
    WhileTrace(m, s, b, body, fuel, Loop(Some(b), Nothing, body, WithLabels(pool, 3), pool.nextLabel));
    WholeLoopLasts(m, c, k, Loop(Some(b), Nothing, body, WithLabels(pool, 3), pool.nextLabel), s, t, fuel);
  }

  lemma WhileTrace(m: Machine, s: State, b: Test, body: Stmt, fuel: nat, l: Loop)
    requires s.status == Running && l.condition == Some(b) && l.update == Nothing && l.body == body
    ensures TraceOf(m, s, While(b, body), fuel) == LoopTrace(m, s, l, fuel)
  {
  }

  lemma {:induction false} ForLasts(
      m: Machine, c: Code, k: nat, i: Stmt, b: Option<Test>, u: Stmt, body: Stmt, pool: Pool, s: State, t: State,
      fuel: nat)
    requires m.Valid() && UniqueLabels(c) && Ready(pool) && StmtOk(For(i, b, u, body)) && Arrived(m, s, t, k)
    requires Holds(c, k, GenStmt(For(i, b, u, body), pool).code) && Exec(m, s, For(i, b, u, body), fuel).None?
    ensures Lasts(m, c, t, fuel, TraceOf(m, s, For(i, b, u, body), fuel))
    decreases fuel, 1, For(i, b, u, body), 0
  {
    hide *;
    var calls := TraceOf(m, s, For(i, b, u, body), fuel);
    var pool1 := WithLabels(pool, 3);
    var f := GenStmt(i, pool1);
    var l := Loop(b, u, body, f.pool, pool.nextLabel);
    ForOpens(m, s, i, b, u, body, pool, fuel);
    ForCode(i, b, u, body, pool);
    HoldsParts(c, k, f.code, LoopCode(l));
    if Exec(m, s, i, fuel).None? {
      StmtLasts(m, c, k, i, pool1, s, t, fuel);
    } else {
      var s1 := Exec(m, s, i, fuel).value;
      StmtRuns(m, c, k, i, pool1, s, t, fuel);
      var t1 := Reached(m, c, t, k + |f.code|, s1);
      WholeLoopLasts(m, c, k + |f.code|, l, s1, t1.0, fuel);
      LastsAfter(m, c, t, t1.1, fuel, calls);
      LastsLess(m, c, t, fuel + t1.1, fuel, calls);
    }
  }

  lemma ForOpens(m: Machine, s: State, i: Stmt, b: Option<Test>, u: Stmt, body: Stmt, pool: Pool, fuel: nat)
    requires Ready(pool) && StmtOk(For(i, b, u, body)) && Exec(m, s, For(i, b, u, body), fuel).None?
    ensures var pool1 := WithLabels(pool, 3);
      StmtOk(i) && Ready(pool1) && LoopOk(Loop(b, u, body, GenStmt(i, pool1).pool, pool.nextLabel))
    ensures var s1, pool1 := Exec(m, s, i, fuel), WithLabels(pool, 3);
      && (s1.Some? ==> ExecLoop(m, s1.value, b, u, body, fuel).None?)
      && TraceOf(m, s, For(i, b, u, body), fuel) ==
           if s1.None? then TraceOf(m, s, i, fuel)
           else LoopTrace(m, s1.value, Loop(b, u, body, GenStmt(i, pool1).pool, pool.nextLabel), fuel)
  {
    LabelsTaken(pool, 3);
    StmtPool(i, WithLabels(pool, 3));
  }

  lemma {:induction false} WholeLoopLasts(m: Machine, c: Code, k: nat, l: Loop, s: State, t: State, fuel: nat)
    requires m.Valid() && UniqueLabels(c) && LoopOk(l) && Holds(c, k, LoopCode(l)) && Arrived(m, s, t, k)
    requires ExecLoop(m, s, l.condition, l.update, l.body, fuel).None?
    ensures Lasts(m, c, t, fuel, LoopTrace(m, s, l, fuel))
    decreases fuel, 0, l.body, 3
  {
    hide *;
    var calls := LoopTrace(m, s, l, fuel);
    LoopIsPlaced(c, k, l);
    EvalFound(c, k + 1, l);
    JumpLeads(m, c, s, t, k, l.bodyLabel + 1);
    var t1 := Reached(m, c, t, EvalAt(l, k + 1), s);
    LoopLasts(m, c, k + 1, l, s, t1.0, fuel);
    LastsAfter(m, c, t, t1.1, fuel, calls);
    LastsLess(m, c, t, fuel + t1.1, fuel, calls);
  }

  /** A loop that does not end within `fuel` rounds runs for as many steps. */
  lemma {:induction false} LoopLasts(m: Machine, c: Code, k: nat, l: Loop, s: State, t: State, fuel: nat)
    requires m.Valid() && UniqueLabels(c) && LoopOk(l) && LoopPlaced(c, k, l) && Arrived(m, s, t, EvalAt(l, k))
    requires ExecLoop(m, s, l.condition, l.update, l.body, fuel).None?
    ensures Lasts(m, c, t, fuel, LoopTrace(m, s, l, fuel))
    decreases fuel, 0, l.body, 2
  {
    hide *;
    var calls := LoopTrace(m, s, l, fuel);
    LoopAt(c, k, l);
    LoopOpens(m, s, l, fuel);
    if fuel == 0 {
      LastsHere(m, c, s, t, EvalAt(l, k));
    } else {
      LabelLeads(m, c, s, t, EvalAt(l, k), l.bodyLabel + 1);
      var t1 := Reached(m, c, t, EvalAt(l, k) + 1, s);
      ConditionRuns(m, c, k, l, s, t1.0);
      var t2 := Reached(m, c, t1.0, k, s);
      RoundLasts(m, c, k, l, s, t2.0, fuel);
      LastsAfter(m, c, t1.0, t2.1, fuel, calls);
      LastsAfter(m, c, t, t1.1, fuel + t2.1, calls);
      LastsLess(m, c, t, fuel + t2.1 + t1.1, fuel, calls);
    }
  }

  lemma LoopAt(c: Code, k: nat, l: Loop)
    requires LoopPlaced(c, k, l)
    ensures EvalAt(l, k) < |c| && c[EvalAt(l, k)] == LabelHere(l.bodyLabel + 1) && k < |c|
              && c[k] == LabelHere(l.bodyLabel)
  {
    hide GenStmt, BodyCode, UpdateCode, ConditionCode, Holds;
  }

  lemma LoopOpens(m: Machine, s: State, l: Loop, fuel: nat)
    requires ExecLoop(m, s, l.condition, l.update, l.body, fuel).None?
    ensures s.status == Running && (l.condition.Some? ==> EvalTest(m, s, l.condition.value))
    ensures 0 < fuel ==>
      var s1 := Exec(m, s, l.body, fuel - 1);
      s1.Some? ==>
        var s2 := Exec(m, s1.value, l.update, fuel - 1);
        s2.Some? ==> ExecLoop(m, s2.value, l.condition, l.update, l.body, fuel - 1).None?
    ensures fuel == 0 ==> LoopTrace(m, s, l, fuel) == s.trace
    ensures 0 < fuel ==>
      var s1 := Exec(m, s, l.body, fuel - 1);
      LoopTrace(m, s, l, fuel) ==
        if s1.None? then TraceOf(m, s, l.body, fuel - 1)
        else
          var s2 := Exec(m, s1.value, l.update, fuel - 1);
          if s2.None? then TraceOf(m, s1.value, l.update, fuel - 1) else LoopTrace(m, s2.value, l, fuel - 1)
  {
  }

  lemma {:induction false} RoundLasts(m: Machine, c: Code, k: nat, l: Loop, s: State, t: State, fuel: nat)
    requires m.Valid() && UniqueLabels(c) && LoopOk(l) && LoopPlaced(c, k, l) && Arrived(m, s, t, k) && 0 < fuel
    requires ExecLoop(m, s, l.condition, l.update, l.body, fuel).None?
    ensures Lasts(m, c, t, fuel, LoopTrace(m, s, l, fuel))
    decreases fuel, 0, l.body, 1
  {
    hide *;
    var calls := LoopTrace(m, s, l, fuel);
    LoopFacts(c, k, l);
    LoopOpens(m, s, l, fuel);
    LabelLeads(m, c, s, t, k, l.bodyLabel);
    var t1 := Reached(m, c, t, k + 1, s);
    TakesStep(m, c, s, t, k, s, t1.0, k + 1, t1.1);
    BodyLasts(m, c, k, l, s, t1.0, fuel);
    LastsAfter(m, c, t, t1.1, fuel - 1, calls);
    LastsLess(m, c, t, fuel - 1 + t1.1, fuel, calls);
  }

  lemma {:induction false} BodyLasts(m: Machine, c: Code, k: nat, l: Loop, s: State, t: State, fuel: nat)
    requires m.Valid() && UniqueLabels(c) && LoopOk(l) && LoopPlaced(c, k, l) && Arrived(m, s, t, k + 1) && 0 < fuel
    requires ExecLoop(m, s, l.condition, l.update, l.body, fuel).None?
    ensures Lasts(m, c, t, fuel - 1, LoopTrace(m, s, l, fuel))
    decreases fuel, 0, l.body, 0
  {
    hide *;
    var calls := LoopTrace(m, s, l, fuel);
    LoopFacts(c, k, l);
    LoopOpens(m, s, l, fuel);
    var g := GenStmt(l.body, l.pool);
    var kb := k + 1 + |g.code|;
    if Exec(m, s, l.body, fuel - 1).None? {
      StmtLasts(m, c, k + 1, l.body, l.pool, s, t, fuel - 1);
    } else {
      var s1 := Exec(m, s, l.body, fuel - 1).value;
      StmtRuns(m, c, k + 1, l.body, l.pool, s, t, fuel - 1);
      var t1 := Reached(m, c, t, kb, s1);
      if Exec(m, s1, l.update, fuel - 1).None? {
        StmtLasts(m, c, kb, l.update, g.pool, s1, t1.0, fuel - 1);
      } else {
        var s2 := Exec(m, s1, l.update, fuel - 1).value;
        StmtRuns(m, c, kb, l.update, g.pool, s1, t1.0, fuel - 1);
        var t2 := Reached(m, c, t1.0, EvalAt(l, k), s2);
        LoopLasts(m, c, k, l, s2, t2.0, fuel - 1);
        LastsAfter(m, c, t1.0, t2.1, fuel - 1, calls);
        LastsLess(m, c, t1.0, fuel - 1 + t2.1, fuel - 1, calls);
      }
      LastsAfter(m, c, t, t1.1, fuel - 1, calls);
      LastsLess(m, c, t, fuel - 1 + t1.1, fuel - 1, calls);
    }
  }

  // ---------------------------------------------------------------- functions

  /** The statement does not end, however many rounds its loops take. */
  ghost predicate Diverges(m: Machine, s: State, st: Stmt) {
    forall fuel: nat :: Exec(m, s, st, fuel).None?
  }

  ghost predicate NeverEnds(m: Machine, code: Code, s: State) {
    forall o: Observation :: Shows(m, code, s, o) ==> o.ended.None?
  }

  /** The observations that a run of the code makes are these calls on the way, and nothing but them. */
  ghost predicate MakesCalls(m: Machine, code: Code, s: State, st: Stmt) {
    && (forall fuel: nat :: Shows(m, code, s, Observation(TraceOf(m, s, st, fuel), None)))
    && (forall o: Observation :: Shows(m, code, s, o) ==> exists fuel: nat :: o.trace <= TraceOf(m, s, st, fuel))
  }

  /** If the body of a function does not end, no run of its code ends, and the code makes the calls of the body. */
  lemma FunctionDiverges(m: Machine, f: Function, s: State)
    requires m.Valid() && FunctionOk(f) && s.pc <= EntryOf(f) && s.status == Running && Diverges(m, s, f.body)
    ensures NeverEnds(m, Linked(FunctionCode(f)), s) && MakesCalls(m, Linked(FunctionCode(f)), s, f.body)
  {
    var c := FunctionCode(f);
    hide FunctionCode, Linked, Run, TraceOf, Exec, FunctionOk, Lasts;
    forall fuel: nat ensures Shows(m, Linked(c), s, Observation(TraceOf(m, s, f.body, fuel), None)) {
      assert Exec(m, s, f.body, fuel).None?;
      FunctionLasts(m, f, s, fuel);
      ShownOnTheWay(m, c, s, fuel, TraceOf(m, s, f.body, fuel));
    }
    forall n: nat
      ensures var o := Observe(m, |Linked(c)|, Run(m, Linked(c), s, n));
        o.ended.None? && o.trace <= TraceOf(m, s, f.body, n)
    {
      assert Exec(m, s, f.body, n).None?;
      FunctionLasts(m, f, s, n);
      StillGoes(m, c, s, n, TraceOf(m, s, f.body, n));
    }
  }

  lemma ShownOnTheWay(m: Machine, c: Code, s: State, n: nat, calls: seq<Event>)
    requires Lasts(m, c, s, n, calls)
    ensures Shows(m, Linked(c), s, Observation(calls, None))
  {
    var k: nat :| n <= k && GoesOn(m, c, s, k, calls);
    assert Observe(m, |Linked(c)|, Run(m, Linked(c), s, k)) == Observation(calls, None);
  }

  lemma StillGoes(m: Machine, c: Code, s: State, n: nat, calls: seq<Event>)
    requires Lasts(m, c, s, n, calls)
    ensures var o := Observe(m, |Linked(c)|, Run(m, Linked(c), s, n)); o.ended.None? && o.trace <= calls
  {
    var k: nat :| n <= k && GoesOn(m, c, s, k, calls);
    TraceGrows(m, Linked(c), s, n, k);
    hide Run, Linked;
    if Observe(m, |Linked(c)|, Run(m, Linked(c), s, n)).ended.Some? {
      EndedLater(m, Linked(c), s, n, k);
    }
  }

  /** Calls that have been made stay so. */
  lemma {:induction false} TraceGrows(m: Machine, code: Code, s: State, n: nat, k: nat)
    requires n <= k
    ensures Run(m, code, s, n).trace <= Run(m, code, s, k).trace
    decreases k
  {
    hide Step;
    if n < k {
      TraceGrows(m, code, s, n, k - 1);
      StepTrace(m, code, Run(m, code, s, k - 1));
    }
  }

  lemma StepTrace(m: Machine, code: Code, s: State)
    ensures s.trace <= Step(m, code, s).trace
  {
    hide Contents, Result, ReadOperand, Updated;
  }

  lemma NotFinished(end: Option<State>)
    requires end.None?
    ensures Finished(end).None?
  {
  }

  /** The return statement behind a body that does not end makes no difference. */
  lemma {:induction false} ReturnTrace(m: Machine, s: State, st: Stmt, header: Symbol, fuel: nat)
    requires Exec(m, s, st, fuel).None?
    ensures TraceOf(m, s, WithReturn(st, header), fuel) == TraceOf(m, s, st, fuel)
    decreases st
  {
    if st.Sequence? {
      var s1 := Exec(m, s, st.head, fuel);
      if s1.Some? {
        ReturnTrace(m, s1.value, st.tail, header, fuel);
      }
    }
  }

  lemma FunctionLasts(m: Machine, f: Function, s: State, fuel: nat)
    requires m.Valid() && FunctionOk(f) && s.pc <= EntryOf(f) && s.status == Running && Exec(m, s, f.body, fuel).None?
    ensures Lasts(m, FunctionCode(f), s, fuel, TraceOf(m, s, f.body, fuel))
  {
    hide *;
    FunctionPlaced(f);
    FunctionLabels(f);
    BodyIsReady(m, f, s);
    BodyExec(m, f, s, fuel);
    NotFinished(Exec(m, s, f.body, fuel));
    ReturnTrace(m, s, f.body, f.header, fuel);
    var c, n, calls := FunctionCode(f), EntryOf(f), TraceOf(m, s, f.body, fuel);
    BodyReached(m, f, s, s, s.pc);
    var t1 := Reached(m, c, s, n + 1, s);
    StmtLasts(m, c, n + 1, WithReturn(f.body, f.header), f.pool, s, t1.0, fuel);
    LastsAfter(m, c, s, t1.1, fuel, calls);
    LastsLess(m, c, s, fuel + t1.1, fuel, calls);
  }
}
