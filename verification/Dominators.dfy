/** Dominators of blocks (find_dominators, control_flow.c). */
module Dominators {
  import opened Instructions
  import opened Paths
  import opened ControlFlow
  import opened BitSets

  /** Every path from the entry block to `b` passes through `v`. */
  ghost predicate Dominates(children: seq<seq<nat>>, v: nat, b: nat) {
    forall path :: Connects(children, 0, b, path) ==> v in path
  }

  /** Every walk along parents from `b` comes to `v` within `k` steps. */
  ghost predicate Meets(parents: seq<seq<nat>>, v: nat, b: nat, k: nat)
    requires b < |parents|
    decreases k
  {
    b == v || (0 < k && parents[b] != [] && forall p :: p in parents[b] && p < |parents| ==>
      Meets(parents, v, p, k - 1))
  }

  ghost predicate MustMeet(parents: seq<seq<nat>>, v: nat, b: nat)
    requires b < |parents|
  {
    exists k: nat :: Meets(parents, v, b, k)
  }

  /** A graph in which only the entry block has no parents, with edges recorded at both ends. */
  ghost predicate RootedGraph(children: seq<seq<nat>>, parents: seq<seq<nat>>) {
    && 0 < |children| == |parents|
    && (forall b: nat, p: nat {:trigger p in parents[b]} :: b < |parents| && p in parents[b] ==>
          p < |children| && b in children[p])
    && (forall p: nat, b: nat :: p < |children| && b in children[p] ==> b < |parents| && p in parents[b])
    && (forall b :: 0 <= b < |parents| ==> (parents[b] == [] <==> b == 0))
  }

  /** The graph that the builder makes is such a graph. */
  lemma BuiltGraphIsRooted(code: Code, entry: nat, g: Cfg)
    requires WellFormedCode(code, entry) && GraphOf(code, entry, g)
    ensures RootedGraph(g.children, g.parents)
  {
    forall b: nat | b < |g.parents| ensures g.parents[b] == [] <==> b == 0 {
      OnlyEntryHasNoParents(code, entry, g, b);
    }
    forall b: nat, p: nat | b < |g.parents| ensures p in g.parents[b] <==> p < |g.children| && b in g.children[p] {
      ParentsArePassed(code, entry, g, p, b);
    }
  }

  /** What is in the sets of all parents, or is the block itself. */
  ghost predicate InAll(parents: seq<nat>, sets: seq<set<nat>>, v: nat) {
    forall p :: p in parents && p < |sets| ==> v in sets[p]
  }

  ghost predicate Solved(parents: seq<seq<nat>>, sets: seq<set<nat>>, b: nat)
    requires |sets| == |parents| && b < |parents|
  {
    if parents[b] == [] then sets[b] == {b}
    else forall v :: v in sets[b] <==> v == b || InAll(parents[b], sets, v)
  }

  // ---------------------------------------------------------------- what dominance is

  /** A block that dominates another one dominates its parents too. */
  lemma DominatesParent(children: seq<seq<nat>>, parents: seq<seq<nat>>, v: nat, b: nat, p: nat)
    requires RootedGraph(children, parents) && b < |parents| && p in parents[b] && v != b && Dominates(children, v, b)
    ensures Dominates(children, v, p)
  {
    forall path | Connects(children, 0, p, path) ensures v in path {
      assert Connects(children, 0, b, path + [b]);
    }
  }

  /** Whatever solves the equations holds only dominators. */
  lemma {:induction false} SolutionDominates(
      children: seq<seq<nat>>, parents: seq<seq<nat>>, sets: seq<set<nat>>, v: nat, b: nat, path: seq<nat>)
    requires RootedGraph(children, parents) && |sets| == |parents| && b < |parents|
    requires forall c :: 0 <= c < |parents| ==> Solved(parents, sets, c)
    requires v in sets[b] && Connects(children, 0, b, path)
    ensures v in path
    decreases |path|
  {
    assert Solved(parents, sets, b);
    if v != b {
      var before := path[..|path| - 1];
      var p := before[|before| - 1];
      assert b in children[p];
      assert Connects(children, 0, p, before);
      assert InAll(parents[b], sets, v);
      SolutionDominates(children, parents, sets, v, p, before);
    }
  }

  /** A block that every walk along the parents meets is a dominator. */
  lemma {:induction false} MeetingDominates(
      children: seq<seq<nat>>, parents: seq<seq<nat>>, v: nat, b: nat, k: nat, path: seq<nat>)
    requires RootedGraph(children, parents) && b < |parents| && Meets(parents, v, b, k)
              && Connects(children, 0, b, path)
    ensures v in path
    decreases |path|
  {
    if v != b {
      var before := path[..|path| - 1];
      var p := before[|before| - 1];
      assert b in children[p];
      assert Connects(children, 0, p, before);
      MeetingDominates(children, parents, v, p, k - 1, before);
    }
  }

  lemma {:induction false} MeetsLater(parents: seq<seq<nat>>, v: nat, b: nat, k: nat, l: nat)
    requires b < |parents| && Meets(parents, v, b, k) && k <= l
    ensures Meets(parents, v, b, l)
    decreases k
  {
    if b != v {
      forall p | p in parents[b] && p < |parents| ensures Meets(parents, v, p, l - 1) {
        MeetsLater(parents, v, p, k - 1, l - 1);
      }
    }
  }

  /** One bound for all blocks of a list. */
  lemma {:induction false} OneBound(parents: seq<seq<nat>>, v: nat, list: seq<nat>) returns (k: nat)
    requires forall p :: p in list && p < |parents| ==> MustMeet(parents, v, p)
    ensures forall p :: p in list && p < |parents| ==> Meets(parents, v, p, k)
    decreases |list|
  {
    if list == [] {
      k := 0;
    } else {
      var rest := OneBound(parents, v, list[1..]);
      var l: nat := 0;
      if list[0] < |parents| {
        assert MustMeet(parents, v, list[0]);
        l :| Meets(parents, v, list[0], l);
      }
      k := if l < rest then rest else l;
      forall p | p in list && p < |parents| ensures Meets(parents, v, p, k) {
        MeetsLater(parents, v, p, if p in list[1..] then rest else l, k);
      }
    }
  }

  lemma ParentsMeet(parents: seq<seq<nat>>, v: nat, b: nat)
    requires b < |parents| && parents[b] != []
    requires forall p :: p in parents[b] && p < |parents| ==> MustMeet(parents, v, p)
    ensures MustMeet(parents, v, b)
  {
    var k := OneBound(parents, v, parents[b]);
    assert Meets(parents, v, b, k + 1);
  }

  lemma {:induction false} MeetingIsInSolution(
      parents: seq<seq<nat>>, sets: seq<set<nat>>, v: nat, b: nat, k: nat)
    requires |sets| == |parents| && b < |parents| && Meets(parents, v, b, k)
    requires forall c :: 0 <= c < |parents| ==> Solved(parents, sets, c)
    ensures v in sets[b]
    decreases k
  {
    assert Solved(parents, sets, b);
    if b != v {
      forall p | p in parents[b] && p < |sets| ensures v in sets[p] {
        MeetingIsInSolution(parents, sets, v, p, k - 1);
      }
      assert InAll(parents[b], sets, v);
    }
  }

  // ---------------------------------------------------------------- the analysis

  /** May the set of `b` hold `v`, by its equation? */
  ghost predicate ByParents(parents: seq<seq<nat>>, sets: seq<set<nat>>, v: nat, b: nat)
    requires b < |parents|
  {
    v == b || (parents[b] != [] && InAll(parents[b], sets, v))
  }

  /**
   * The sets on the way. An element of the universe is taken out only where it is no dominator;
   * any other element is put in only where every walk along the parents meets it.
   */
  ghost predicate OnTheWay(
      children: seq<seq<nat>>, parents: seq<seq<nat>>, universe: set<nat>, size: nat, sets: seq<set<nat>>)
  {
    && |sets| == |parents|
    && (forall b :: 0 <= b < |sets| && parents[b] == [] ==> sets[b] == {b})
    && (forall b, v :: 0 <= b < |sets| && v in sets[b] ==> v < size)
    && (forall b, v :: 0 <= b < |sets| && v in universe && Dominates(children, v, b) ==> v in sets[b])
    && (forall b, v :: 0 <= b < |sets| && v in universe && ByParents(parents, sets, v, b) ==> v in sets[b])
    && (forall b, v :: 0 <= b < |sets| && v in sets[b] && v !in universe ==> MustMeet(parents, v, b))
    && (forall b, v :: 0 <= b < |sets| && v in sets[b] && v !in universe ==> ByParents(parents, sets, v, b))
  }

  /** What can still change: elements of the universe that may go and others that may come. */
  ghost function Pending(universe: set<nat>, size: nat, sets: seq<set<nat>>): set<(nat, nat)> {
    set b, v | 0 <= b < |sets| && 0 <= v < size && ((v in universe) == (v in sets[b])) :: (b, v)
  }

  class DominatorAnalysis {
    var dominators: seq<set<nat>>

    constructor ()
      ensures dominators == []
    {
      dominators := [];
    }

    /** The intersection of the sets of the predecessors of a block. */
    method GetDominatorsFromPredecessors(blocks: seq<nat>) returns (r: set<nat>)
      requires forall k :: 0 <= k < |blocks| ==> blocks[k] < |dominators|
      ensures blocks == [] ==> r == {}
      ensures blocks != [] ==> forall v :: v in r <==> InAll(blocks, dominators, v)
    {
      if blocks == [] {
        return {};
      }
      r := dominators[blocks[0]];
      for k := 1 to |blocks|
        invariant forall v :: v in r <==> InAll(blocks[..k], dominators, v)
      {
        r := r * dominators[blocks[k]];
        assert blocks[..k + 1] == blocks[..k] + [blocks[k]];
      }
      assert blocks[..|blocks|] == blocks;
    }

    /** Recomputes the set of one block and says whether it changed. */
    method UpdateBlock(
        parents: seq<seq<nat>>, b: nat, ghost children: seq<seq<nat>>, ghost universe: set<nat>, ghost size: nat)
      returns (changed: bool)
      requires RootedGraph(children, parents) && |parents| < size && b < |parents| && parents[b] != []
      requires OnTheWay(children, parents, universe, size, dominators)
      modifies this
      ensures OnTheWay(children, parents, universe, size, dominators)
      ensures if changed then Pending(universe, size, dominators) < old(Pending(universe, size, dominators))
              else dominators == old(dominators) && Solved(parents, dominators, b)
    {
      ParentsInRange(children, parents, b, dominators);
      var fromParents := GetDominatorsFromPredecessors(parents[b]);
      var new_ := {b} + fromParents;
      changed := dominators[b] != new_;
      if changed {
        UpdateIsOnTheWay(children, parents, universe, size, dominators, b, new_);
        dominators := dominators[b := new_];
      }
    }

    /** Gives every block its first set. */
    method StartSets(parents: seq<seq<nat>>, universe: set<nat>, ghost children: seq<seq<nat>>, ghost size: nat)
      requires RootedGraph(children, parents) && |parents| < size
      requires forall v :: v in universe ==> v < size
      modifies this
      ensures OnTheWay(children, parents, universe, size, dominators)
    {
      dominators := seq(|parents|, _ => {});
      for b := |parents| downto 0
        invariant |dominators| == |parents|
        invariant forall c :: b <= c < |parents| ==> dominators[c] == if parents[c] == [] then {c} else universe
      {
        if parents[b] == [] {
          dominators := dominators[b := {b}];
        } else {
          dominators := dominators[b := universe];
        }
      }
      StartIsOnTheWay(children, parents, universe, size, dominators);
    }

    /** One pass over the blocks; it stops at the first one without parents. */
    method UpdateBlocks(
        parents: seq<seq<nat>>, ghost children: seq<seq<nat>>, ghost universe: set<nat>, ghost size: nat)
      returns (converged: bool)
      requires RootedGraph(children, parents) && |parents| < size
      requires OnTheWay(children, parents, universe, size, dominators)
      modifies this
      ensures OnTheWay(children, parents, universe, size, dominators)
      ensures if converged then dominators == old(dominators) && forall b :: 0 <= b < |parents| ==>
                Solved(parents, dominators, b)
              else Pending(universe, size, dominators) < old(Pending(universe, size, dominators))
    {
      converged := true;
      var b := |parents|;
      while 0 < b && parents[b - 1] != []
        invariant 0 <= b <= |parents| && OnTheWay(children, parents, universe, size, dominators)
        invariant if converged then dominators == old(dominators) && forall c :: b <= c < |parents| ==>
                  Solved(parents, dominators, c)
                  else Pending(universe, size, dominators) < old(Pending(universe, size, dominators))
      {
        b := b - 1;
        var changed := UpdateBlock(parents, b, children, universe, size);
        if changed {
          converged := false;
        }
      }
    }

    /** Repeats passes until nothing changes. */
    method FindDominators(parents: seq<seq<nat>>, ghost children: seq<seq<nat>>)
      requires RootedGraph(children, parents)
      modifies this
      ensures DominatorsFrom(children, parents, FullSet(|parents| + 1), dominators)
    {
      var n := |parents| + 1;
      var universe := FullSet(n);
      StartSets(parents, universe, children, n);
      var converged := false;
      while !converged
        invariant OnTheWay(children, parents, universe, n, dominators)
        invariant converged ==> forall b :: 0 <= b < |parents| ==> Solved(parents, dominators, b)
        decreases Pending(universe, n, dominators), if converged then 0 else 1
      {
        converged := UpdateBlocks(parents, children, universe, n);
      }
      SolutionIsExact(children, parents, universe, n, dominators);
    }
  }

  /**
   * The set of a block holds an element of the universe exactly if that dominates the block, and
   * any other block exactly if every walk along the parents meets it.
   */
  ghost predicate DominatorsFrom(
      children: seq<seq<nat>>, parents: seq<seq<nat>>, universe: set<nat>, sets: seq<set<nat>>) {
    && |sets| == |parents|
    && forall b: nat, v: nat :: b < |sets| ==>
         (v in sets[b] <==> if v in universe then Dominates(children, v, b) else MustMeet(parents, v, b))
  }

  lemma ParentsInRange(children: seq<seq<nat>>, parents: seq<seq<nat>>, b: nat, sets: seq<set<nat>>)
    requires RootedGraph(children, parents) && b < |parents| == |sets|
    ensures forall k :: 0 <= k < |parents[b]| ==> parents[b][k] < |sets|
  {
    forall k | 0 <= k < |parents[b]| ensures parents[b][k] < |sets| {
      assert parents[b][k] in parents[b];
    }
  }

  lemma StartIsOnTheWay(
      children: seq<seq<nat>>, parents: seq<seq<nat>>, universe: set<nat>, size: nat, sets: seq<set<nat>>)
    requires RootedGraph(children, parents) && |parents| < size && |sets| == |parents|
    requires forall v :: v in universe ==> v < size
    requires forall c :: 0 <= c < |parents| ==> sets[c] == if parents[c] == [] then {c} else universe
    ensures OnTheWay(children, parents, universe, size, sets)
  {
    assert Connects(children, 0, 0, [0]);
    forall b: nat, v | b < |sets| && v in sets[b] && v !in universe ensures MustMeet(parents, v, b) {
      assert Meets(parents, v, b, 0);
    }
  }

  lemma UpdateIsOnTheWay(
      children: seq<seq<nat>>, parents: seq<seq<nat>>, universe: set<nat>, size: nat, sets: seq<set<nat>>, b: nat,
      s: set<nat>)
    requires RootedGraph(children, parents) && |parents| < size && b < |parents| && parents[b] != []
    requires OnTheWay(children, parents, universe, size, sets) && s != sets[b]
    requires forall v :: v in s <==> ByParents(parents, sets, v, b)
    ensures OnTheWay(children, parents, universe, size, sets[b := s])
    ensures Pending(universe, size, sets[b := s]) < Pending(universe, size, sets)
  {
    var sets' := sets[b := s];
    NewElements(children, parents, universe, size, sets, b, s);
    forall c: nat, v | c < |sets| && v in universe && ByParents(parents, sets', v, c) ensures v in sets'[c] {
      assert ByParents(parents, sets, v, c);
    }
    forall c: nat, v | c < |sets| && v in sets'[c] && v !in universe ensures ByParents(parents, sets', v, c) {
      assert ByParents(parents, sets, v, c);
    }
    var w :| (w in s) != (w in sets[b]);
    assert (b, w) in Pending(universe, size, sets) && (b, w) !in Pending(universe, size, sets');
  }

  lemma NewElements(
      children: seq<seq<nat>>, parents: seq<seq<nat>>, universe: set<nat>, size: nat, sets: seq<set<nat>>, b: nat,
      s: set<nat>)
    requires RootedGraph(children, parents) && |parents| < size && b < |parents| && parents[b] != []
    requires OnTheWay(children, parents, universe, size, sets)
    requires forall v :: v in s <==> ByParents(parents, sets, v, b)
    ensures forall v :: v in s ==> v < size
    ensures forall v :: v in universe && v in s ==> v in sets[b]
    ensures forall v :: v !in universe && v in sets[b] ==> v in s
    ensures forall v: nat :: v in universe && Dominates(children, v, b) ==> v in s
    ensures forall v :: v in s && v !in universe ==> MustMeet(parents, v, b)
  {
    ParentsInRange(children, parents, b, sets);
    var q := parents[b][0];
    assert q in parents[b] && q < |sets|;
    forall v: nat | v in universe && Dominates(children, v, b) && v != b ensures v in s {
      forall p | p in parents[b] && p < |sets| ensures v in sets[p] {
        DominatesParent(children, parents, v, b, p);
      }
      assert InAll(parents[b], sets, v);
    }
    forall v | v in s && v !in universe ensures MustMeet(parents, v, b) {
      if v == b {
        assert Meets(parents, v, b, 0);
      } else {
        ParentsMeet(parents, v, b);
      }
    }
  }

  lemma SolutionIsExact(
      children: seq<seq<nat>>, parents: seq<seq<nat>>, universe: set<nat>, size: nat, sets: seq<set<nat>>)
    requires RootedGraph(children, parents) && OnTheWay(children, parents, universe, size, sets)
    requires forall b :: 0 <= b < |parents| ==> Solved(parents, sets, b)
    ensures DominatorsFrom(children, parents, universe, sets)
  {
    forall b: nat, v: nat | b < |sets|
      ensures v in sets[b] ==> Dominates(children, v, b)
      ensures MustMeet(parents, v, b) ==> v in sets[b]
    {
      forall path | v in sets[b] && Connects(children, 0, b, path) ensures v in path {
        SolutionDominates(children, parents, sets, v, b, path);
      }
      if MustMeet(parents, v, b) {
        var k: nat :| Meets(parents, v, b, k);
        MeetingIsInSolution(parents, sets, v, b, k);
      }
    }
  }

  // ---------------------------------------------------------------- when the sets are the dominators

  ghost predicate AreDominators(children: seq<seq<nat>>, sets: seq<set<nat>>) {
    forall b: nat, v: nat :: b < |sets| ==> (v in sets[b] <==> Dominates(children, v, b))
  }

  /** A block that is missing from the universe dominates only blocks from which every walk along parents meets it. */
  ghost predicate MissingIsMet(children: seq<seq<nat>>, parents: seq<seq<nat>>, universe: set<nat>) {
    forall b: nat, v: nat :: b < |parents| && v !in universe && Dominates(children, v, b) ==> MustMeet(parents, v, b)
  }

  /** The result is the dominators exactly if no block that the full set lacks is dominating around a cycle. */
  lemma DominatorsExactly(children: seq<seq<nat>>, parents: seq<seq<nat>>, universe: set<nat>, sets: seq<set<nat>>)
    requires RootedGraph(children, parents) && DominatorsFrom(children, parents, universe, sets)
    ensures AreDominators(children, sets) <==> MissingIsMet(children, parents, universe)
  {
    forall b: nat, v: nat | b < |parents| && MustMeet(parents, v, b) ensures Dominates(children, v, b) {
      var k: nat :| Meets(parents, v, b, k);
      forall path | Connects(children, 0, b, path) ensures v in path {
        MeetingDominates(children, parents, v, b, k, path);
      }
    }
  }

  /** That is so whenever the number of blocks and one more is no multiple of the partition size. */
  lemma FullUniverse(children: seq<seq<nat>>, parents: seq<seq<nat>>)
    requires RootedGraph(children, parents) && (|parents| + 1) % BITS_PER_PARTITION != 0
    requires forall b :: 0 <= b < |parents| ==> CanReach(children, 0, b)
    ensures MissingIsMet(children, parents, FullSet(|parents| + 1))
  {
    forall b: nat, v: nat | b < |parents| && v !in FullSet(|parents| + 1) ensures !Dominates(children, v, b) {
      assert CanReach(children, 0, b);
      var path :| Connects(children, 0, b, path);
      assert v !in path;
    }
  }

  /** The dominators of the graph that the builder makes of a function. */
  lemma DominatorsOfFunction(code: Code, entry: nat, g: Cfg, sets: seq<set<nat>>)
    requires WellFormedCode(code, entry) && GraphOf(code, entry, g) && |g.parents| == |g.children|
    requires DominatorsFrom(g.children, g.parents, FullSet(|g.parents| + 1), sets)
    requires (|g.parents| + 1) % BITS_PER_PARTITION != 0
    ensures AreDominators(g.children, sets)
  {
    BuiltGraphIsRooted(code, entry, g);
    forall b: nat | b < |g.parents| ensures CanReach(g.children, 0, b) {
      assert g.blockOf[g.first[b]] == Some(b);
      EveryBlockReachable(code, entry, g, g.first[b]);
    }
    FullUniverse(g.children, g.parents);
    DominatorsExactly(g.children, g.parents, FullSet(|g.parents| + 1), sets);
  }

  // ---------------------------------------------------------------- a function with thirty-one blocks

  /** Blocks in a row, the second of which is also a loop. */
  function RowChildren(): (r: seq<seq<nat>>)
    ensures |r| == 31
  {
    seq(31, b => if b == 30 then [] else if b == 1 then [1, 2] else [b + 1])
  }

  function RowParents(): (r: seq<seq<nat>>)
    ensures |r| == 31
  {
    seq(31, b requires 0 <= b => if b == 0 then [] else if b == 1 then [1, 0] else [b - 1])
  }

  lemma {:induction false} LoopMeetsNothing(parents: seq<seq<nat>>, v: nat, b: nat, k: nat)
    requires b < |parents| && b in parents[b] && v != b
    ensures !Meets(parents, v, b, k)
    decreases k
  {
    if 0 < k {
      LoopMeetsNothing(parents, v, b, k - 1);
    }
  }

  /** The sets that the analysis finds there are not the dominators: the loop is dominated by the entry block. */
  lemma RowIsWrong(sets: seq<set<nat>>)
    requires DominatorsFrom(RowChildren(), RowParents(), FullSet(32), sets)
    ensures RootedGraph(RowChildren(), RowParents()) && !AreDominators(RowChildren(), sets)
  {
    var children, parents := RowChildren(), RowParents();
    assert RootedGraph(children, parents);
    assert Dominates(children, 0, 1);
    forall k: nat ensures !Meets(parents, 0, 1, k) {
      LoopMeetsNothing(parents, 0, 1, k);
    }
    assert 0 !in sets[1];
  }

  function CalledFunction(): Symbol {
    Symbol(0, Global, OtherType, OtherType, false, false, false, 0, 0)
  }

  function Counter(): Symbol {
    Symbol(1, Global, IntType, OtherType, false, false, false, 0, 0)
  }

  /** A function with that graph: a loop around nothing, and one call after the other. */
  function RowCode(): (r: Code)
    ensures |r| == 32
    ensures r[0] == Instruction(Enter, Plus, None, Some(CalledFunction()), None, 0, false)
    ensures r[1] == Instruction(Label, Plus, None, None, None, 1, false)
    ensures r[2] == Instruction(If, LT, None, Some(Counter()), Some(Counter()), 1, false)
    ensures forall p :: 3 <= p < 32 ==> r[p] == Instruction(Call, Plus, None, Some(CalledFunction()), None, 0, false)
  {
    seq(32, p requires 0 <= p =>
      if p == 0 then Instruction(Enter, Plus, None, Some(CalledFunction()), None, 0, false)
      else if p == 1 then Instruction(Label, Plus, None, None, None, 1, false)
      else if p == 2 then Instruction(If, LT, None, Some(Counter()), Some(Counter()), 1, false)
      else Instruction(Call, Plus, None, Some(CalledFunction()), None, 0, false))
  }

  function RowBlock(p: nat): nat {
    if p <= 1 then p else p - 1
  }

  function RowFirst(b: nat): nat {
    if b <= 1 then b else b + 1
  }

  function RowGraph(): (g: Cfg)
    ensures |g.blockOf| == 32 && (forall p :: 0 <= p < 32 ==> g.blockOf[p] == Some(RowBlock(p)))
    ensures |g.first| == |g.last| == 31
    ensures forall b :: 0 <= b < 31 ==> g.first[b] == RowFirst(b) && g.last[b] == Some(if b == 0 then 0 else b + 1)
    ensures g.children == RowChildren() && g.parents == RowParents()
  {
    Cfg(seq(32, p requires 0 <= p => Some(RowBlock(p))), seq(31, b requires 0 <= b => RowFirst(b)),
        seq(31, b requires 0 <= b => Some(if b == 0 then 0 else b + 1)), RowChildren(), RowParents())
  }

  lemma RowInstruction(p: nat)
    requires p < 32
    ensures var i := RowCode()[p];
      && WellFormed(i) && (i.op == Enter <==> p == 0) && i.op != GlobalDeclaration
      && (IsJump(i) ==> i.jumpTo == 1) && RowCode()[1].op == Label
  {
    hide RowCode;
  }

  lemma RowIsWellFormed()
    ensures WellFormedCode(RowCode(), 0)
  {
    var code := RowCode();
    hide RowCode, WellFormed, IsJump;
    forall p | 0 <= p < 32
      ensures WellFormed(code[p]) && (code[p].op == Enter <==> p == 0) && code[p].op != GlobalDeclaration
      ensures IsJump(code[p]) ==> code[p].jumpTo == 1 && code[1].op == Label
    {
      RowInstruction(p);
    }
  }

  lemma RowLeaders(q: nat)
    requires q < 32
    ensures IsLeader(RowCode(), 32, q) <==> q != 2
  {
    var code := RowCode();
    hide RowCode;
    if q == 1 {
      assert q in LeadersMadeBy(code, 2);
    } else if q != 2 {
      assert q in LeadersMadeBy(code, q);
    }
  }

  lemma RowEdges(b: nat, c: nat)
    requires b < 31
    ensures c in RowChildren()[b] <==> c < 31 && PassesBetween(RowCode(), RowGraph(), b, c)
  {
    var code, g := RowCode(), RowGraph();
    hide RowCode, RowGraph;
    if c in RowChildren()[b] {
      var p := if b == 0 then 0 else b + 1;
      assert g.blockOf[p] == Some(b) && PassesTo(code, p, g.first[c]);
    }
  }

  lemma RowMirrored(b: nat, c: nat)
    requires b < 31 && c < 31
    ensures multiset(RowChildren()[b])[c] == multiset(RowParents()[c])[b]
  {
    var children, parents := RowChildren()[b], RowParents()[c];
    assert children == if b == 30 then [] else if b == 1 then [1, 2] else [b + 1];
    assert parents == if c == 0 then [] else if c == 1 then [1, 0] else [c - 1];
    hide *;
  }

  lemma RowRange(p: nat, b: nat)
    requires p < 32 && b < 31
    ensures var g := RowGraph(); g.blockOf[p] == Some(b) <==> g.first[b] <= p <= End(g, b)
  {
    hide RowGraph;
  }

  lemma RowLast(b: nat)
    requires b < 31
    ensures var g := RowGraph();
      End(g, b) < 32 && g.last[b].Some? && g.blockOf[g.first[b]] == Some(b) && g.first[b] < 32
  {
    hide RowGraph;
  }

  lemma RowPlaced(p: nat)
    requires p < 32
    ensures var g := RowGraph(); g.blockOf[p].Some? && g.blockOf[p].value < 31
  {
    hide RowGraph;
  }

  lemma RowBlocksMatch()
    ensures var g := RowGraph();
      BlocksMatch(0, g.blockOf, g.first) && Mirrored(g.children, g.parents) && |g.blockOf| == 32 && |g.first| == 31
  {
    var g := RowGraph();
    hide RowGraph, RowChildren, RowParents;
    forall b | 0 <= b < 31 ensures g.first[b] < 32 && g.blockOf[g.first[b]] == Some(b) {
      RowLast(b);
    }
    forall p | 0 <= p < 32 ensures g.blockOf[p].Some? && g.blockOf[p].value < 31 {
      RowPlaced(p);
    }
    forall b, c | 0 <= b < 31 && 0 <= c < 31 ensures multiset(g.children[b])[c] == multiset(g.parents[c])[b] {
      RowMirrored(b, c);
    }
    forall b: nat, c: nat | b < 31 && c in g.parents[b] ensures c < 31 {
      ParentInRow(b, c);
    }
  }

  lemma ParentInRow(b: nat, c: nat)
    requires b < 31 && c in RowParents()[b]
    ensures c < 31
  {
  }

  /** The graph is that of the function. */
  lemma RowHasFunction()
    ensures WellFormedCode(RowCode(), 0) && GraphOf(RowCode(), 0, RowGraph())
    ensures RowGraph().children == RowChildren() && RowGraph().parents == RowParents()
  {
    RowIsWellFormed();
    RowBlocksMatch();
    var code, g := RowCode(), RowGraph();
    assert |code| == 32 && |g.last| == |g.children| == |g.parents| == 31;
    hide RowCode, RowGraph, RowChildren, RowParents, WellFormedCode, IsLeader, PassesBetween, BlocksMatch, Mirrored,
      End, IsFirst;
    forall p | 0 <= p < 32 ensures g.blockOf[p].Some? {
      RowPlaced(p);
    }
    forall p, b | 0 <= p < 32 && 0 <= b < 31 ensures g.blockOf[p] == Some(b) <==> g.first[b] <= p <= End(g, b) {
      RowRange(p, b);
    }
    forall b | 0 <= b < 31 ensures End(g, b) < 32 && g.last[b].Some? {
      RowLast(b);
    }
    forall q | 0 <= q < 32 ensures IsFirst(g.blockOf, g.first, q) <==> IsLeader(code, 32, q) {
      RowLeaders(q);
      RowFirsts(q);
    }
    forall b: nat, c: nat | b < 31 ensures c in g.children[b] <==> c < 31 && PassesBetween(code, g, b, c) {
      RowEdges(b, c);
    }
  }

  lemma RowFirsts(q: nat)
    requires q < 32
    ensures IsFirst(RowGraph().blockOf, RowGraph().first, q) <==> q != 2
  {
    hide RowGraph;
  }
}
