/** The arguments of a call: each one is computed to a place of its own, and all keep their values. */
module Arguments {
  import opened Instructions
  import opened Semantics
  import opened SyntaxTrees
  import opened TemporaryPool
  import opened CodeGeneration
  import opened GeneratedRuns

  // ---------------------------------------------------------------- pools

  /** The places of values: variables, arrays, or temporaries that differ from each other. */
  ghost predicate PlacesOk(pool: Pool, pool': Pool, places: seq<Symbol>) {
    && (forall x :: x in places ==> PlaceOk(pool, pool', x) && (x.isTemporary ==> IsNumeric(x.typ)))
    && (forall i, j :: 0 <= i < j < |places| && places[i].isTemporary ==> places[i] != places[j])
  }

  lemma ArgumentPool(e: Expr, pool: Pool)
    requires Ready(pool) && ArgumentOk(e)
    ensures var g := GenExpr(e, pool);
      PoolStep(pool, g.pool) && PlaceOk(pool, g.pool, g.place) && (g.place.isTemporary ==> IsNumeric(g.place.typ))
  {
    if ExprOk(e) {
      ExprPool(e, pool);
    }
  }

  lemma {:induction false} ArgumentsPool(args: seq<Expr>, pool: Pool)
    requires Ready(pool) && forall e :: e in args ==> ArgumentOk(e)
    ensures var g := GenArguments(args, pool); PoolStep(pool, g.pool) && PlacesOk(pool, g.pool, g.places)
  {
    if args != [] {
      var g := GenExpr(args[0], pool);
      ArgumentPool(args[0], pool);
      ArgumentsPool(args[1..], g.pool);
      hide GenExpr, PoolOk, Available, Pending, ArgumentOk;
      FirstPlace(pool, g, GenArguments(args[1..], g.pool));
    }
  }

  lemma FirstPlace(pool: Pool, g: Generated, r: GeneratedArguments)
    requires PoolStep(pool, g.pool) && PoolStep(g.pool, r.pool) && PlacesOk(g.pool, r.pool, r.places)
    requires PlaceOk(pool, g.pool, g.place) && (g.place.isTemporary ==> IsNumeric(g.place.typ))
    ensures PoolStep(pool, r.pool) && PlacesOk(pool, r.pool, [g.place] + r.places)
  {
    PlaceLater(pool, g.pool, r.pool, g.place);
    assert g.place.isTemporary ==> !Available(g.pool, g.place);
    forall x | x in r.places ensures PlaceOk(pool, r.pool, x) && (g.place.isTemporary ==> x != g.place) {
      PlaceEarlier(pool, g.pool, r.pool, x);
    }
  }

  /** The places are given back. */
  lemma {:induction false} AllReleased(pool: Pool, pool1: Pool, places: seq<Symbol>)
    requires Ready(pool1) && Shrinks(pool, pool1) && PlacesOk(pool, pool1, places)
    ensures var pool' := AllFreed(pool1, places);
      && Ready(pool') && Shrinks(pool, pool') && pool'.nextLabel == pool1.nextLabel && pool'.nextKey == pool1.nextKey
    decreases |places|
  {
    if places != [] {
      var x, pool2 := places[0], FreedIfTemporary(pool1, places[0]);
      Released(pool, pool1, x);
      hide FreedIfTemporary, PoolOk, Available, Shrinks, Pending;
      forall y | y in places[1..] ensures PlaceOk(pool, pool2, y) && (y.isTemporary ==> IsNumeric(y.typ)) {
        var j :| 1 <= j < |places| && places[j] == y;
        assert x.isTemporary ==> x != y;
        assert PlaceOk(pool, pool1, y);
        if !x.isTemporary {
          NothingFreed(pool1, x);
        }
      }
      AllReleased(pool, pool2, places[1..]);
    }
  }

  lemma NothingFreed(pool: Pool, x: Symbol)
    requires !x.isTemporary
    ensures FreedIfTemporary(pool, x) == pool
  {
  }

  // ---------------------------------------------------------------- runs

  /** The places hold the values. */
  ghost predicate ValuesAt(m: Machine, t: State, places: seq<Symbol>, values: seq<int>) {
    |places| == |values| && forall i :: 0 <= i < |places| ==> Read(m, t, places[i]) == values[i]
  }

  lemma ArgumentRuns(m: Machine, c: Code, k: nat, e: Expr, pool: Pool, s: State, t: State)
    requires m.Valid() && Ready(pool) && ArgumentOk(e) && Holds(c, k, GenExpr(e, pool).code)
    requires t.pc == k && t.status == Running && Sees(m, s, t)
    ensures Evaluated(m, c, k, pool, t, GenExpr(e, pool), Eval(m, s, e))
  {
    if ExprOk(e) {
      ExprRuns(m, c, k, e, pool, s, t);
    } else {
      ReadSeen(m, s, t, e.x);
    }
  }

  /** The code of the arguments leaves the value of each one in its place. */
  lemma {:induction false} ArgumentsRun(m: Machine, c: Code, k: nat, args: seq<Expr>, pool: Pool, s: State, t: State)
    requires m.Valid() && Ready(pool) && (forall e :: e in args ==> ArgumentOk(e))
    requires Holds(c, k, GenArguments(args, pool).code) && t.pc == k && t.status == Running && Sees(m, s, t)
    ensures var g := GenArguments(args, pool); var n := |g.code|;
      Went(m, c, pool, t, n, k + n) && ValuesAt(m, Run(m, Linked(c), t, n), g.places, EvalAll(m, s, args))
    decreases |args|
  {
    hide *;
    if args == [] {
      NoArguments(m, c, k, pool, s, t);
      return;
    }
    var g := GenExpr(args[0], pool);
    var r := GenArguments(args[1..], g.pool);
    ArgumentsUnfold(m, s, args, pool);
    HoldsParts(c, k, g.code, r.code);
    ArgumentRuns(m, c, k, args[0], pool, s, t);
    ArgumentPlaced(args[0], pool);
    SeesAfter(m, c, k, pool, s, t, g, Eval(m, s, args[0]));
    var t1 := Run(m, Linked(c), t, |g.code|);
    ArgumentsRun(m, c, k + |g.code|, args[1..], g.pool, s, t1);
    WentEvaluated(m, c, k, pool, t, g, Eval(m, s, args[0]));
    WentOn(m, c, pool, g.pool, t, |g.code|, k + |g.code|, |r.code|, k + |g.code| + |r.code|);
    FirstKept(m, c, k + |g.code|, g, r, t1, Eval(m, s, args[0]), EvalAll(m, s, args[1..]));
  }

  lemma NoArguments(m: Machine, c: Code, k: nat, pool: Pool, s: State, t: State)
    requires t.pc == k
    ensures var g := GenArguments([], pool);
      g.code == [] && Went(m, c, pool, t, 0, k) && ValuesAt(m, Run(m, Linked(c), t, 0), g.places, EvalAll(m, s, []))
  {
  }

  lemma ArgumentsUnfold(m: Machine, s: State, args: seq<Expr>, pool: Pool)
    requires args != []
    ensures var g := GenExpr(args[0], pool); var r := GenArguments(args[1..], g.pool);
      GenArguments(args, pool) == GeneratedArguments(g.code + r.code, [g.place] + r.places, r.pool)
    ensures EvalAll(m, s, args) == [Eval(m, s, args[0])] + EvalAll(m, s, args[1..])
  {
    hide GenExpr, Eval;
  }

  lemma ArgumentPlaced(e: Expr, pool: Pool)
    requires Ready(pool) && ArgumentOk(e)
    ensures var g := GenExpr(e, pool); Ready(g.pool) && Shrinks(pool, g.pool) && !Available(g.pool, g.place)
  {
    ArgumentPool(e, pool);
  }

  /** The first value is still in its place after the others have been computed. */
  lemma FirstKept(
      m: Machine, c: Code, k: nat, g: Generated, r: GeneratedArguments, t: State, v: int, values: seq<int>)
    requires Went(m, c, g.pool, t, |r.code|, k + |r.code|) && Read(m, t, g.place) == v && !Available(g.pool, g.place)
    requires ValuesAt(m, Run(m, Linked(c), t, |r.code|), r.places, values)
    ensures ValuesAt(m, Run(m, Linked(c), t, |r.code|), [g.place] + r.places, [v] + values)
  {
    ReadKept(m, g.pool, t, Run(m, Linked(c), t, |r.code|), g.place);
    hide Run, Read, Linked, Available;
  }
}
