/**
 * Definitions that reach the end of a block (reaching_definitions_analysis.c). A definition is named by
 * its position.
 */
module ReachingDefinitions {
  import opened Instructions
  import opened ControlFlow
  import opened Paths
  import Liveness

  /** Does the instruction at `p` define `x`? */
  predicate DefinesAt(code: Code, g: Cfg, p: nat, x: Symbol) {
    && p < |code| == |g.blockOf| && g.blockOf[p].Some?
    && RedefinesVariable(code[p]) && code[p].dest == Some(x)
  }

  /** All definitions of `x`, dead ones too. */
  ghost function DefinitionsOf(code: Code, g: Cfg, x: Symbol): set<nat> {
    set p | 0 <= p < |code| && DefinesAt(code, g, p, x)
  }

  predicate IsDefinition(i: Instruction) {
    !i.dead && RedefinesVariable(i)
  }

  /** The definitions that reach the point after position `p`, given those that reach the point before it. */
  ghost function ReachAfter(code: Code, g: Cfg, p: nat, before: set<nat>): set<nat>
    requires p < |code|
  {
    if IsDefinition(code[p]) then before - DefinitionsOf(code, g, code[p].dest.value) + {p} else before
  }

  /** The definitions that reach position `p` of a block that starts at `start`, `from` reaching the start. */
  ghost function ReachAt(code: Code, g: Cfg, start: nat, p: nat, from: set<nat>): set<nat>
    requires p <= |code|
  {
    if p <= start then from else ReachAfter(code, g, p - 1, ReachAt(code, g, start, p - 1, from))
  }

  datatype GenKill = GenKill(gen: set<nat>, kill: set<nat>)

  ghost function GenKillAfter(code: Code, g: Cfg, p: nat, s: GenKill): GenKill
    requires p < |code|
  {
    if IsDefinition(code[p]) then
      var defs := DefinitionsOf(code, g, code[p].dest.value);
      GenKill(s.gen - defs + {p}, s.kill + defs - {p})
    else s
  }

  ghost function GenKillAt(code: Code, g: Cfg, start: nat, p: nat): GenKill
    requires p <= |code|
  {
    if p <= start then GenKill({}, {}) else GenKillAfter(code, g, p - 1, GenKillAt(code, g, start, p - 1))
  }

  /** The summary of a block loses nothing: it has the effect of the instructions one by one. */
  lemma {:induction false} SummaryIsExact(code: Code, g: Cfg, start: nat, p: nat, from: set<nat>)
    requires p <= |code|
    ensures var s := GenKillAt(code, g, start, p); s.gen + (from - s.kill) == ReachAt(code, g, start, p, from)
  {
    if p > start {
      SummaryIsExact(code, g, start, p - 1, from);
    }
  }

  /** Is `d` a definition after which nothing up to `p` defines the same variable? */
  ghost predicate LastUpTo(code: Code, d: nat, p: nat) {
    && d < p <= |code| && IsDefinition(code[d])
    && forall q :: d < q < p && IsDefinition(code[q]) ==> code[q].dest != code[d].dest
  }

  /** gen holds the last definition of each variable; kill holds all other definitions of these variables. */
  lemma {:induction false} GenKillMeaning(code: Code, g: Cfg, start: nat, p: nat, d: nat)
    requires p <= |code| == |g.blockOf| && forall q :: start <= q < p ==> g.blockOf[q].Some?
    ensures var s := GenKillAt(code, g, start, p);
      && (d in s.gen <==> start <= d && LastUpTo(code, d, p))
      && (d in s.kill <==> d !in s.gen && exists q :: start <= q < p && Redefines(code, g, q, d))
  {
    if p > start {
      GenKillMeaning(code, g, start, p - 1, d);
      var s := GenKillAt(code, g, start, p - 1);
      if IsDefinition(code[p - 1]) && d in DefinitionsOf(code, g, code[p - 1].dest.value) {
        assert Redefines(code, g, p - 1, d);
      }
      if exists q :: start <= q < p && Redefines(code, g, q, d) {
        var q :| start <= q < p && Redefines(code, g, q, d);
        assert q == p - 1 || Redefines(code, g, q, d);
      }
    }
  }

  /** Does the instruction at `q` define the variable that `d` defines? */
  ghost predicate Redefines(code: Code, g: Cfg, q: nat, d: nat) {
    q < |code| && IsDefinition(code[q]) && d in DefinitionsOf(code, g, code[q].dest.value)
  }

  ghost predicate GraphShape(code: Code, g: Cfg) {
    && |g.blockOf| == |code|
    && |g.first| == |g.last| == |g.parents|
    && (forall b :: 0 <= b < |g.first| ==> g.first[b] <= End(g, b) < |code|)
    && (forall b, p :: 0 <= b < |g.first| && 0 <= p < |code| ==>
          (g.blockOf[p] == Some(b) <==> g.first[b] <= p <= End(g, b)))
    && (forall p :: 0 <= p < |code| && g.blockOf[p].Some? ==> g.blockOf[p].value < |g.first|)
    && (forall b, k :: 0 <= b < |g.parents| && 0 <= k < |g.parents[b]| ==> g.parents[b][k] < |g.parents|)
  }

  ghost function BlockGenKill(code: Code, g: Cfg, b: nat): GenKill
    requires GraphShape(code, g) && b < |g.first|
  {
    GenKillAt(code, g, g.first[b], End(g, b) + 1)
  }

  ghost function Gens(code: Code, g: Cfg): (r: seq<set<nat>>)
    requires GraphShape(code, g)
    ensures |r| == |g.first| == |g.parents|
  {
    seq(|g.first|, b requires 0 <= b < |g.first| => BlockGenKill(code, g, b).gen)
  }

  ghost function Kills(code: Code, g: Cfg): (r: seq<set<nat>>)
    requires GraphShape(code, g)
    ensures |r| == |g.first| == |g.parents|
  {
    seq(|g.first|, b requires 0 <= b < |g.first| => BlockGenKill(code, g, b).kill)
  }

  /**
   * The least solution: `d` is in the out set of `b` exactly when a path of the graph leads from the block
   * of the definition to `b` and no block after the first one defines the variable again.
   */
  ghost predicate ExactDefinitions(code: Code, g: Cfg, out: seq<set<nat>>)
    requires GraphShape(code, g)
  {
    && |out| == |g.first|
    && (forall b: nat, d: nat :: b < |g.first| ==>
          (d in out[b] <==> Arrives(g.parents, Gens(code, g), Kills(code, g), b, d)))
    && (forall b :: 0 <= b < |g.first| ==>
          out[b] == ReachAt(code, g, g.first[b], End(g, b) + 1, FromParents(g.parents[b], out)))
  }

  /** What reaches the end of some block of the list. */
  ghost function FromParents(blocks: seq<nat>, out: seq<set<nat>>): set<nat> {
    set c, d | c in blocks && c < |out| && d in out[c] :: d
  }

  class ReachingDefinitionsAnalysis {
    var definitions: map<Symbol, set<nat>>
    var gen: seq<set<nat>>
    var kill: seq<set<nat>>
    var out: seq<set<nat>>

    constructor ()
      ensures definitions == map[] && gen == kill == out == []
    {
      definitions, gen, kill, out := map[], [], [], [];
    }

    /** The definitions found in the blocks from `b` on. */
    ghost predicate DefinitionsFrom(code: Code, g: Cfg, b: nat)
      reads this
    {
      && (forall x, p: nat :: x in definitions && p in definitions[x] ==> DefinesAt(code, g, p, x))
      && (forall x, p: nat :: DefinesAt(code, g, p, x) && b <= g.blockOf[p].value ==>
            x in definitions && p in definitions[x])
    }

    /** Collects the definitions of every variable. */
    method FillDefinitions(code: Code, g: Cfg)
      requires GraphShape(code, g)
      modifies this`definitions
      ensures DefinitionsFrom(code, g, 0)
    {
      definitions := map[];
      for b := |g.first| downto 0
        invariant DefinitionsFrom(code, g, b)
      {
        FillDefinitionsOfBlock(code, g, b);
      }
    }

    method FillDefinitionsOfBlock(code: Code, g: Cfg, b: nat)
      requires GraphShape(code, g) && b < |g.first| && DefinitionsFrom(code, g, b + 1)
      modifies this`definitions
      ensures DefinitionsFrom(code, g, b)
    {
      var p := g.first[b];
      while p < |code| && g.blockOf[p] == Some(b)
        invariant g.first[b] <= p <= End(g, b) + 1
        invariant DefinitionsFrom(code, g, b + 1)
        invariant forall x, q: nat :: DefinesAt(code, g, q, x) && g.first[b] <= q < p ==>
                  x in definitions && q in definitions[x]
      {
        if RedefinesVariable(code[p]) {
          var x := code[p].dest.value;
          if x !in definitions {
            definitions := definitions[x := {}];
          }
          definitions := definitions[x := definitions[x] + {p}];
        }
        p := p + 1;
      }
    }

    /** gen and kill of one block, scanned from its first instruction to its last. */
    method GenAndKillOfBlock(code: Code, g: Cfg, b: nat) returns (gen': set<nat>, kill': set<nat>)
      requires GraphShape(code, g) && b < |g.first| && DefinitionsFrom(code, g, 0)
      ensures GenKill(gen', kill') == BlockGenKill(code, g, b)
    {
      gen', kill' := {}, {};
      var p := g.first[b];
      while p < |code| && g.blockOf[p] == Some(b)
        invariant g.first[b] <= p <= End(g, b) + 1
        invariant GenKill(gen', kill') == GenKillAt(code, g, g.first[b], p)
      {
        if !code[p].dead && RedefinesVariable(code[p]) {
          var x := code[p].dest.value;
          assert DefinesAt(code, g, p, x);
          assert definitions[x] == DefinitionsOf(code, g, x);
          gen' := gen' - definitions[x];
          gen' := gen' + {p};
          kill' := kill' + definitions[x];
          kill' := kill' - {p};
        }
        p := p + 1;
      }
    }

    method FindGenAndKillSets(code: Code, g: Cfg)
      requires GraphShape(code, g)
      modifies this
      ensures gen == Gens(code, g) && kill == Kills(code, g) && out == gen
    {
      FillDefinitions(code, g);
      var n := |g.first|;
      gen, kill, out := Liveness.EmptySets(n), Liveness.EmptySets(n), Liveness.EmptySets(n);
      for b := n downto 0
        invariant |gen| == |kill| == |out| == n && DefinitionsFrom(code, g, 0)
        invariant forall c :: b <= c < n ==> GenKill(gen[c], kill[c]) == BlockGenKill(code, g, c) && out[c] == gen[c]
      {
        var gen', kill' := GenAndKillOfBlock(code, g, b);
        gen, kill, out := gen[b := gen'], kill[b := kill'], out[b := gen'];
      }
    }

    /** The union of what reaches the ends of the predecessors. */
    method GetOutSetFromPredecessors(blocks: seq<nat>) returns (r: set<nat>)
      requires forall k :: 0 <= k < |blocks| ==> blocks[k] < |out|
      ensures forall d :: d in r <==> Liveness.InSome(blocks, out, d)
    {
      if blocks == [] {
        return {};
      }
      r := out[blocks[0]];
      for k := 1 to |blocks|
        invariant forall d :: d in r <==> Liveness.InSome(blocks[..k], out, d)
      {
        r := r + out[blocks[k]];
        assert blocks[..k + 1] == blocks[..k] + [blocks[k]];
        assert forall d :: Liveness.InSome(blocks[..k + 1], out, d) <==>
          Liveness.InSome(blocks[..k], out, d) || d in out[blocks[k]];
      }
      assert blocks[..|blocks|] == blocks;
    }

    /** One pass over all blocks. */
    method UpdateBlocks(parents: seq<seq<nat>>) returns (converged: bool)
      requires |gen| == |kill| == |out| == |parents| && Liveness.InRange(parents)
      requires Liveness.Between(parents, gen, kill, out, Liveness.EmptySets(|parents|))
      modifies this`out
      ensures |out| == |parents| && Liveness.Between(parents, gen, kill, out, Liveness.EmptySets(|parents|))
      ensures if converged then out == old(out) && forall b :: 0 <= b < |parents| ==>
                Settled(parents, gen, kill, out, b)
              else Liveness.Missing(gen, out) < old(Liveness.Missing(gen, out))
    {
      converged := true;
      for b := |parents| downto 0
        invariant |out| == |parents| && Liveness.Between(parents, gen, kill, out, Liveness.EmptySets(|parents|))
        invariant if converged then out == old(out) && forall c :: b <= c < |parents| ==>
                  Settled(parents, gen, kill, out, c)
                  else Liveness.Missing(gen, out) < old(Liveness.Missing(gen, out))
      {
        var from := GetOutSetFromPredecessors(parents[b]);
        var diff := from - kill[b];
        var newOut := gen[b] + diff;
        UpdateGrows(parents, gen, kill, out, b, from, newOut);
        if out[b] != newOut {
          out := out[b := newOut];
          converged := false;
        }
      }
    }

    /** Repeats passes until nothing changes. */
    method FindInAndOutDefSets(code: Code, g: Cfg)
      requires GraphShape(code, g)
      modifies this
      ensures ExactDefinitions(code, g, out)
    {
      FindGenAndKillSets(code, g);
      GensArrive(g.parents, gen, kill);
      var converged := false;
      while !converged
        invariant gen == Gens(code, g) && kill == Kills(code, g) && |out| == |g.parents|
        invariant Liveness.Between(g.parents, gen, kill, out, Liveness.EmptySets(|g.parents|))
        invariant converged ==> forall b :: 0 <= b < |g.parents| ==> Settled(g.parents, gen, kill, out, b)
        decreases Liveness.Missing(gen, out), if converged then 0 else 1
      {
        converged := UpdateBlocks(g.parents);
      }
      SettledIsExact(code, g, out);
      gen, kill, definitions := [], [], map[];
    }
  }

  /** The graph that the builder makes has the shape that the analysis needs. */
  lemma BuiltGraphHasShape(code: Code, entry: nat, g: Cfg)
    requires GraphOf(code, entry, g)
    ensures GraphShape(code, g)
  {
    forall b, k | 0 <= b < |g.parents| && 0 <= k < |g.parents[b]| ensures g.parents[b][k] < |g.parents| {
      assert g.parents[b][k] in g.parents[b];
    }
    forall b: nat | b < |g.first| ensures g.first[b] <= End(g, b) < |code| {
      assert g.blockOf[g.first[b]] == Some(b);
    }
  }

  /** The out set of `b` is what its equation gives. */
  ghost predicate Settled(parents: seq<seq<nat>>, gen: seq<set<nat>>, kill: seq<set<nat>>, out: seq<set<nat>>, b: nat)
    requires |gen| == |kill| == |out| == |parents| && b < |parents|
  {
    forall d :: d in out[b] <==> d in gen[b] || (d !in kill[b] && Liveness.InSome(parents[b], out, d))
  }

  lemma GensArrive(parents: seq<seq<nat>>, gen: seq<set<nat>>, kill: seq<set<nat>>)
    requires |gen| == |kill| == |parents|
    ensures Liveness.Between(parents, gen, kill, gen, Liveness.EmptySets(|parents|))
  {
    forall b, d | 0 <= b < |parents| && d in gen[b] ensures Arrives(parents, gen, kill, b, d) {
      ArrivesHere(parents, gen, kill, b, d);
    }
  }

  lemma UpdateGrows(
      parents: seq<seq<nat>>, gen: seq<set<nat>>, kill: seq<set<nat>>, out: seq<set<nat>>, b: nat, from: set<nat>,
      newOut: set<nat>)
    requires |gen| == |kill| == |out| == |parents| && b < |parents|
    requires Liveness.Between(parents, gen, kill, out, Liveness.EmptySets(|parents|))
    requires forall d :: d in from <==> Liveness.InSome(parents[b], out, d)
    requires newOut == gen[b] + (from - kill[b])
    ensures Liveness.Between(parents, gen, kill, out[b := newOut], Liveness.EmptySets(|parents|))
    ensures out[b] != newOut ==> Liveness.Missing(gen, out[b := newOut]) < Liveness.Missing(gen, out)
    ensures out[b] == newOut ==> Settled(parents, gen, kill, out, b)
  {
    Liveness.UpdateKeepsBetween(parents, gen, kill, out, Liveness.EmptySets(|parents|), b, from, newOut);
    Liveness.MissingShrinks(gen, out, b, newOut);
    hide Liveness.Missing, Arrives;
    forall c | 0 <= c < |parents|
      ensures Liveness.OnlyInSome(parents[c], out[b := newOut], Liveness.EmptySets(|parents|)[c]) {
    }
  }

  lemma SettledIsExact(code: Code, g: Cfg, out: seq<set<nat>>)
    requires GraphShape(code, g) && |out| == |g.first|
    requires Liveness.Between(g.parents, Gens(code, g), Kills(code, g), out, Liveness.EmptySets(|g.parents|))
    requires forall b :: 0 <= b < |g.parents| ==> Settled(g.parents, Gens(code, g), Kills(code, g), out, b)
    ensures ExactDefinitions(code, g, out)
  {
    var gen, kill := Gens(code, g), Kills(code, g);
    forall b: nat, c: nat, d | b < |g.first| && c in g.parents[b] && c < |out| && d in out[c] && d !in kill[b]
      ensures d in out[b] {
      assert Settled(g.parents, gen, kill, out, b);
      assert Liveness.InSome(g.parents[b], out, d);
    }
    LeastIsExact(g.parents, gen, kill, out);
    forall b: nat | b < |g.first|
      ensures out[b] == ReachAt(code, g, g.first[b], End(g, b) + 1, FromParents(g.parents[b], out))
    {
      assert Settled(g.parents, gen, kill, out, b);
      assert forall d :: d in FromParents(g.parents[b], out) <==> Liveness.InSome(g.parents[b], out, d);
      SummaryIsExact(code, g, g.first[b], End(g, b) + 1, FromParents(g.parents[b], out));
    }
  }
}
