/** Liveness of local variables, by id (liveness_analysis.c). */
module Liveness {
  import opened Instructions
  import opened Semantics
  import opened ControlFlow
  import opened Paths
  import opened BitSets

  /** The ids that an instruction overwrites. */
  function DefinedIds(i: Instruction): set<nat> {
    if i.dest.Some? && i.dest.value.scope == Local && i.dest.value.typ != AddrType then {i.dest.value.id} else {}
  }

  /** The ids that an instruction reads. A destination that holds an address is read. */
  function UsedIds(i: Instruction): set<nat> {
    (if i.dest.Some? && i.dest.value.scope == Local && i.dest.value.typ == AddrType then {i.dest.value.id} else {})
    + (if IsRhsVariable(i) && IsLocal(i.src1) then {i.src1.value.id} else {})
    + (if IsRhsVariable(i) && IsLocal(i.src2) then {i.src2.value.id} else {})
  }

  predicate IsSkipped(i: Instruction) {
    i.dead || IsNullAssignment(i)
  }

  /** The ids that are live before an instruction, given those that are live after it. */
  function LiveBefore(i: Instruction, after: set<nat>): set<nat> {
    if IsSkipped(i) then after else after - DefinedIds(i) + UsedIds(i)
  }

  /** The ids that are live before position `p`, given those that are live after position `end`. */
  function LiveAt(code: Code, p: nat, end: nat, out: set<nat>): set<nat>
    requires end < |code|
    decreases end + 1 - p
  {
    if p > end then out else LiveBefore(code[p], LiveAt(code, p + 1, end, out))
  }

  /** Liveness within a block depends on nothing but the block. */
  lemma {:induction false} LiveAtIsLocal(code: Code, code': Code, p: nat, end: nat, out: set<nat>)
    requires end < |code| == |code'|
    requires forall q :: p <= q <= end ==>
               code'[q] == code[q] || (IsSkipped(code'[q]) && IsSkipped(code[q]))
    ensures LiveAt(code, p, end, out) == LiveAt(code', p, end, out)
    decreases end + 1 - p
  {
    if p <= end {
      LiveAtIsLocal(code, code', p + 1, end, out);
    }
  }

  datatype Summary = Summary(def: set<nat>, use: set<nat>)

  /** The def and use sets of the instructions from `p` to `end`, as the backward scan computes them. */
  function Summarize(code: Code, p: nat, end: nat): Summary
    requires end < |code|
    decreases end + 1 - p
  {
    if p > end then Summary({}, {}) else Extended(code[p], Summarize(code, p + 1, end))
  }

  lemma {:induction false} SummarizeIsLocal(code: Code, code': Code, p: nat, end: nat)
    requires end < |code| == |code'|
    requires forall q :: p <= q <= end ==>
               code'[q] == code[q] || (IsSkipped(code'[q]) && IsSkipped(code[q]))
    ensures Summarize(code, p, end) == Summarize(code', p, end)
    decreases end + 1 - p
  {
    if p <= end {
      SummarizeIsLocal(code, code', p + 1, end);
    }
  }

  function Extended(i: Instruction, s: Summary): Summary {
    if IsSkipped(i) then s
    else Summary(DefinedIds(i) + s.def - UsedIds(i), s.use - DefinedIds(i) + UsedIds(i))
  }

  /** The summary of a block loses nothing: it has the effect of the instructions one by one. */
  lemma {:induction false} SummaryIsExact(code: Code, p: nat, end: nat, out: set<nat>)
    requires end < |code|
    ensures var s := Summarize(code, p, end); s.use + (out - s.def) == LiveAt(code, p, end, out)
    decreases end + 1 - p
  {
    if p <= end {
      SummaryIsExact(code, p + 1, end, out);
    }
  }

  /** A summary in sets for `n` elements. */
  function HeldSummary(s: Summary, n: nat): Summary {
    Summary(Held(s.def, n), Held(s.use, n))
  }

  /** Is `v` read at `q` before anything from `p` on overwrites it? */
  ghost predicate ExposedAt(code: Code, p: nat, q: nat, v: nat) {
    && p <= q < |code| && !IsSkipped(code[q]) && v in UsedIds(code[q])
    && forall r :: p <= r < q ==> IsSkipped(code[r]) || v !in DefinedIds(code[r])
  }

  ghost predicate OverwrittenAt(code: Code, q: nat, v: nat) {
    q < |code| && !IsSkipped(code[q]) && v in DefinedIds(code[q])
  }

  /** use holds the upward-exposed reads; def holds what is overwritten and not among them. */
  lemma {:induction false} SummaryMeaning(code: Code, p: nat, end: nat, v: nat)
    requires end < |code|
    ensures var s := Summarize(code, p, end);
      && (v in s.use <==> exists q :: p <= q <= end && ExposedAt(code, p, q, v))
      && (v in s.def <==> v !in s.use && exists q :: p <= q <= end && OverwrittenAt(code, q, v))
    decreases end + 1 - p
  {
    if p <= end {
      SummaryMeaning(code, p + 1, end, v);
      var rest := Summarize(code, p + 1, end);
      if v in rest.use && (IsSkipped(code[p]) || v !in DefinedIds(code[p])) {
        var q :| p + 1 <= q <= end && ExposedAt(code, p + 1, q, v);
        assert ExposedAt(code, p, q, v);
      }
      if !IsSkipped(code[p]) && v in UsedIds(code[p]) {
        assert ExposedAt(code, p, p, v);
      }
      forall q | p <= q <= end && ExposedAt(code, p, q, v) ensures v in Summarize(code, p, end).use {
        assert q != p ==> ExposedAt(code, p + 1, q, v);
      }
      if !IsSkipped(code[p]) && v in DefinedIds(code[p]) {
        assert OverwrittenAt(code, p, v);
      }
    }
  }

  ghost predicate GraphShape(code: Code, g: Cfg) {
    && |g.blockOf| == |code|
    && |g.first| == |g.last| == |g.children|
    && (forall b :: 0 <= b < |g.first| ==> g.first[b] <= End(g, b) < |code|)
    && (forall b, p :: 0 <= b < |g.first| && 0 <= p < |code| ==>
          (g.blockOf[p] == Some(b) <==> g.first[b] <= p <= End(g, b)))
    && (forall b :: 0 <= b < |g.first| && g.last[b].None? ==>
          g.first[b] == End(g, b) && code[End(g, b)].op == Enter && WellFormed(code[End(g, b)]))
    && (forall b, c :: 0 <= b < |g.first| && c in g.children[b] ==> c < |g.first|)
  }

  ghost function BlockSummary(code: Code, g: Cfg, b: nat): Summary
    requires GraphShape(code, g) && b < |g.first|
  {
    Summarize(code, g.first[b], End(g, b))
  }

  ghost function Defs(code: Code, g: Cfg): (r: seq<set<nat>>)
    requires GraphShape(code, g)
    ensures |r| == |g.first| == |g.children|
  {
    seq(|g.first|, b requires 0 <= b < |g.first| => BlockSummary(code, g, b).def)
  }

  function AllHeld(sets: seq<set<nat>>, n: nat): (r: seq<set<nat>>)
    ensures |r| == |sets| && forall b :: 0 <= b < |sets| ==> r[b] == Held(sets[b], n)
  {
    seq(|sets|, b requires 0 <= b < |sets| => Held(sets[b], n))
  }

  ghost function Uses(code: Code, g: Cfg): (r: seq<set<nat>>)
    requires GraphShape(code, g)
    ensures |r| == |g.first| == |g.children|
  {
    seq(|g.first|, b requires 0 <= b < |g.first| => BlockSummary(code, g, b).use)
  }

  function EmptySets(n: nat): (r: seq<set<nat>>)
    ensures |r| == n && forall b :: 0 <= b < n ==> r[b] == {}
  {
    seq(n, _ => {})
  }

  /** Is `v` in the set of some block of the list? */
  ghost predicate InSome(blocks: seq<nat>, sets: seq<set<nat>>, v: nat) {
    exists c :: c in blocks && c < |sets| && v in sets[c]
  }

  /** The analysis with sets for `total` elements, the number of local variables that are no formals. */
  class LivenessAnalysis {
    const total: nat
    var defs: seq<set<nat>>
    var uses: seq<set<nat>>
    var ins: seq<set<nat>>
    var outs: seq<set<nat>>

    constructor (total: nat)
      ensures this.total == total && defs == uses == ins == outs == []
    {
      this.total := total;
      defs, uses, ins, outs := [], [], [], [];
    }

    /** The def and use sets of one block, scanned from its last instruction to its first. */
    method SummarizeBlock(code: Code, g: Cfg, b: nat) returns (def: set<nat>, use: set<nat>)
      requires GraphShape(code, g) && b < |g.first|
      ensures Summary(def, use) == HeldSummary(BlockSummary(code, g, b), total)
    {
      def, use := {}, {};
      if g.last[b].None? {
        SummaryOfEnter(code, g.first[b]);
        return;
      }
      var p: int := g.last[b].value;
      while 0 <= p && g.blockOf[p] == Some(b)
        invariant g.first[b] - 1 <= p <= End(g, b)
        invariant Summary(def, use) == HeldSummary(Summarize(code, p + 1, End(g, b)), total)
      {
        hide DefinedIds, UsedIds, Places;
        var i := code[p];
        if !i.dead && !IsNullAssignment(i) {
          var lhs, rhs := DefinedIds(i), UsedIds(i);
          def := Held(lhs + def, total);
          def := Held(def - rhs, total);
          use := Held(use - lhs, total);
          use := Held(use + rhs, total);
        }
        p := p - 1;
      }
    }

    method FindDefAndUseSets(code: Code, g: Cfg)
      requires GraphShape(code, g)
      modifies this
      ensures defs == AllHeld(Defs(code, g), total) && uses == AllHeld(Uses(code, g), total)
      ensures ins == uses && outs == EmptySets(|g.first|)
    {
      var n := |g.first|;
      defs, uses, ins, outs := EmptySets(n), EmptySets(n), EmptySets(n), EmptySets(n);
      for b := n downto 0
        invariant |defs| == |uses| == |ins| == |outs| == n
        invariant forall c :: b <= c < n ==>
                    Summary(defs[c], uses[c]) == HeldSummary(BlockSummary(code, g, c), total)
                    && ins[c] == uses[c] && outs[c] == {}
      {
        var def, use := SummarizeBlock(code, g, b);
        defs, uses := defs[b := def], uses[b := use];
        ins, outs := ins[b := use], outs[b := {}];
      }
    }

    method GetInSetFromSuccessors(blocks: seq<nat>) returns (r: set<nat>)
      requires forall k :: 0 <= k < |blocks| ==> blocks[k] < |ins|
      ensures forall v :: v in r <==> InSome(blocks, ins, v)
    {
      if blocks == [] {
        return {};
      }
      r := ins[blocks[0]];
      for k := 1 to |blocks|
        invariant forall v :: v in r <==> InSome(blocks[..k], ins, v)
      {
        ghost var before := r;
        r := r + ins[blocks[k]];
        assert blocks[..k + 1] == blocks[..k] + [blocks[k]];
        assert forall v :: InSome(blocks[..k + 1], ins, v) <==> InSome(blocks[..k], ins, v) || v in ins[blocks[k]];
      }
      assert blocks[..|blocks|] == blocks;
    }

    /** Recomputes out and in of one block and says whether either changed. */
    method UpdateBlock(children: seq<seq<nat>>, b: nat) returns (changed: bool)
      requires |defs| == |uses| == |ins| == |outs| == |children| && b < |children|
      requires InRange(children) && Between(children, uses, defs, ins, outs)
      modifies this`ins, this`outs
      ensures |ins| == |outs| == |children| && Between(children, uses, defs, ins, outs)
      ensures Solved(children, uses, defs, old(ins), outs, ins, b)
      ensures Shrinks(uses, old(ins), old(outs), ins, outs, changed)
    {
      assert forall k :: 0 <= k < |children[b]| ==> children[b][k] < |ins|;
      hide *;
      var newOut := GetInSetFromSuccessors(children[b]);
      var diff := newOut - defs[b];
      var newIn := uses[b] + diff;
      UpdateKeepsBetween(children, uses, defs, ins, outs, b, newOut, newIn);
      UpdateShrinks(uses, ins, outs, b, newIn, newOut);
      changed := ReplaceSets(b, newIn, newOut);
    }

    /** Stores the new sets of a block where they differ from the old ones. */
    method ReplaceSets(b: nat, newIn: set<nat>, newOut: set<nat>) returns (changed: bool)
      requires b < |ins| == |outs|
      modifies this`ins, this`outs
      ensures ins == old(ins)[b := newIn] && outs == old(outs)[b := newOut]
      ensures changed == (old(ins)[b] != newIn || old(outs)[b] != newOut)
    {
      changed := false;
      if outs[b] != newOut {
        outs := outs[b := newOut];
        changed := true;
      }
      if ins[b] != newIn {
        ins := ins[b := newIn];
        changed := true;
      }
    }

    /** One pass over all blocks. */
    method UpdateBlocks(children: seq<seq<nat>>) returns (converged: bool)
      requires |defs| == |uses| == |ins| == |outs| == |children|
      requires InRange(children) && Between(children, uses, defs, ins, outs)
      modifies this`ins, this`outs
      ensures |ins| == |outs| == |children| && Between(children, uses, defs, ins, outs)
      ensures Shrinks(uses, old(ins), old(outs), ins, outs, !converged)
      ensures converged ==> forall b :: 0 <= b < |children| ==> Solved(children, uses, defs, ins, outs, ins, b)
    {
      converged := true;
      for b := |children| downto 0
        invariant |ins| == |outs| == |children| && Between(children, uses, defs, ins, outs)
        invariant Shrinks(uses, old(ins), old(outs), ins, outs, !converged)
        invariant converged ==> forall c :: b <= c < |children| ==> Solved(children, uses, defs, ins, outs, ins, c)
      {
        var changed := UpdateBlock(children, b);
        if changed {
          converged := false;
        }
      }
    }

    /** Repeats passes until nothing changes. */
    method FindInAndOutLivenessSets(code: Code, g: Cfg)
      requires GraphShape(code, g)
      modifies this
      ensures HeldLiveness(code, g, total, ins, outs)
    {
      hide *;
      FindDefAndUseSets(code, g);
      StartsBetween(code, g, total);
      var converged := false;
      while !converged
        invariant |ins| == |outs| == |g.children|
        invariant defs == AllHeld(Defs(code, g), total) && uses == AllHeld(Uses(code, g), total)
        invariant |uses| == |defs| == |g.children|
        invariant Between(g.children, uses, defs, ins, outs)
        invariant converged ==> forall b :: 0 <= b < |g.children| ==> Solved(g.children, uses, defs, ins, outs, ins, b)
        decreases Missing(uses, ins), Missing(uses, outs), if converged then 0 else 1
      {
        converged := UpdateBlocks(g.children);
      }
      SolvedIsSolution(code, g, total, ins, outs);
    }
  }

  ghost predicate InRange(children: seq<seq<nat>>) {
    forall b, k :: 0 <= b < |children| && 0 <= k < |children[b]| ==> children[b][k] < |children|
  }

  /** Nothing changed, or fewer memberships are missing than before. */
  ghost predicate Shrinks(
      uses: seq<set<nat>>, ins: seq<set<nat>>, outs: seq<set<nat>>, ins': seq<set<nat>>, outs': seq<set<nat>>,
      changed: bool)
  {
    if changed then
      && Missing(uses, ins') <= Missing(uses, ins) && Missing(uses, outs') <= Missing(uses, outs)
      && (Missing(uses, ins') < Missing(uses, ins) || Missing(uses, outs') < Missing(uses, outs))
    else
      ins' == ins && outs' == outs
  }

  ghost predicate OnlyInSome(blocks: seq<nat>, sets: seq<set<nat>>, s: set<nat>) {
    forall v :: v in s ==> InSome(blocks, sets, v)
  }

  /** The sets lie between the start values and the arrivals, and a recomputation can only enlarge them. */
  ghost predicate Between(
      children: seq<seq<nat>>, uses: seq<set<nat>>, defs: seq<set<nat>>, ins: seq<set<nat>>, outs: seq<set<nat>>)
    requires |defs| == |uses| == |ins| == |outs| == |children|
  {
    && (forall b :: 0 <= b < |children| ==> uses[b] <= ins[b])
    && (forall b, v :: 0 <= b < |children| && v in ins[b] ==> Arrives(children, uses, defs, b, v))
    && (forall b, v :: 0 <= b < |children| && v in ins[b] && v !in uses[b] ==>
          v !in defs[b] && InSome(children[b], ins, v))
    && (forall b :: 0 <= b < |children| ==> OnlyInSome(children[b], ins, outs[b]))
  }

  /** The new sets of block `b` are what its equations give for the in sets `ins`. */
  ghost predicate Solved(
      children: seq<seq<nat>>, uses: seq<set<nat>>, defs: seq<set<nat>>,
      ins: seq<set<nat>>, outs': seq<set<nat>>, ins': seq<set<nat>>, b: nat)
    requires |defs| == |uses| == |outs'| == |ins'| == |children| && b < |children|
  {
    && (forall v :: v in outs'[b] <==> InSome(children[b], ins, v))
    && ins'[b] == uses[b] + (outs'[b] - defs[b])
  }

  /** What is still missing from the sets: pairs of a block and an id that some block uses. */
  ghost function Missing(uses: seq<set<nat>>, sets: seq<set<nat>>): set<(nat, nat)> {
    set b, v | 0 <= b < |sets| && v in Union(uses) && v !in sets[b] :: (b, v)
  }

  lemma StartsBetween(code: Code, g: Cfg, n: nat)
    requires GraphShape(code, g)
    ensures InRange(g.children)
    ensures var uses, defs := AllHeld(Uses(code, g), n), AllHeld(Defs(code, g), n);
            Between(g.children, uses, defs, uses, EmptySets(|g.first|))
  {
    var uses, defs := AllHeld(Uses(code, g), n), AllHeld(Defs(code, g), n);
    forall b, v | 0 <= b < |g.children| && v in uses[b] ensures Arrives(g.children, uses, defs, b, v) {
      ArrivesHere(g.children, uses, defs, b, v);
    }
    assert forall b, k :: 0 <= b < |g.children| && 0 <= k < |g.children[b]| ==> g.children[b][k] in g.children[b];
  }

  lemma UpdateKeepsBetween(
      children: seq<seq<nat>>, uses: seq<set<nat>>, defs: seq<set<nat>>,
      ins: seq<set<nat>>, outs: seq<set<nat>>, b: nat, newOut: set<nat>, newIn: set<nat>)
    requires |defs| == |uses| == |ins| == |outs| == |children| && b < |children|
    requires Between(children, uses, defs, ins, outs)
    requires forall v :: v in newOut <==> InSome(children[b], ins, v)
    requires newIn == uses[b] + (newOut - defs[b])
    ensures ins[b] <= newIn && outs[b] <= newOut
    ensures Between(children, uses, defs, ins[b := newIn], outs[b := newOut])
    ensures Solved(children, uses, defs, ins, outs[b := newOut], ins[b := newIn], b)
    ensures newIn <= Union(uses) && newOut <= Union(uses)
  {
    hide Arrives, InSome;
    NewSetsArrive(children, uses, defs, ins, b, newOut, newIn);
    assert OnlyInSome(children[b], ins, outs[b]);
    assert ins[b] <= newIn && outs[b] <= newOut;
    var ins' := ins[b := newIn];
    forall c, v | 0 <= c < |children| && InSome(children[c], ins, v) ensures InSome(children[c], ins', v) {
      InSomeGrows(children[c], ins, ins', v);
    }
  }

  lemma InSomeGrows(blocks: seq<nat>, sets: seq<set<nat>>, sets': seq<set<nat>>, v: nat)
    requires InSome(blocks, sets, v) && |sets'| == |sets| && forall b :: 0 <= b < |sets| ==> sets[b] <= sets'[b]
    ensures InSome(blocks, sets', v)
  {
    var c :| c in blocks && c < |sets| && v in sets[c];
    assert v in sets'[c];
  }

  lemma NewSetsArrive(
      children: seq<seq<nat>>, uses: seq<set<nat>>, defs: seq<set<nat>>,
      ins: seq<set<nat>>, b: nat, newOut: set<nat>, newIn: set<nat>)
    requires |defs| == |uses| == |ins| == |children| && b < |children|
    requires forall b, v :: 0 <= b < |children| && v in ins[b] ==> Arrives(children, uses, defs, b, v)
    requires forall v :: v in newOut <==> InSome(children[b], ins, v)
    requires newIn == uses[b] + (newOut - defs[b])
    ensures forall v :: v in newIn ==> Arrives(children, uses, defs, b, v)
    ensures newIn <= Union(uses) && newOut <= Union(uses)
  {
    forall v | v in newIn ensures Arrives(children, uses, defs, b, v) {
      if v in uses[b] {
        ArrivesHere(children, uses, defs, b, v);
      } else {
        var d :| d in children[b] && d < |ins| && v in ins[d];
        ArrivesThrough(children, uses, defs, b, d, v);
      }
    }
    forall v | v in newOut ensures v in Union(uses) {
      var d :| d in children[b] && d < |ins| && v in ins[d];
      var path :| Carries(children, uses, defs, d, v, path);
      assert v in uses[path[|path| - 1]];
    }
  }

  ghost function Union(sets: seq<set<nat>>): set<nat> {
    set b, v | 0 <= b < |sets| && v in sets[b] :: v
  }

  lemma UpdateShrinks(
      uses: seq<set<nat>>, ins: seq<set<nat>>, outs: seq<set<nat>>, b: nat, newIn: set<nat>, newOut: set<nat>)
    requires |uses| == |ins| == |outs| && b < |ins| && ins[b] <= newIn <= Union(uses)
              && outs[b] <= newOut <= Union(uses)
    ensures Shrinks(uses, ins, outs, ins[b := newIn], outs[b := newOut], ins[b] != newIn || outs[b] != newOut)
  {
    MissingShrinks(uses, outs, b, newOut);
    MissingShrinks(uses, ins, b, newIn);
  }

  lemma MissingShrinks(uses: seq<set<nat>>, sets: seq<set<nat>>, b: nat, s: set<nat>)
    requires b < |sets| && sets[b] <= s <= Union(uses)
    ensures Missing(uses, sets[b := s]) <= Missing(uses, sets)
    ensures sets[b] != s ==> Missing(uses, sets[b := s]) < Missing(uses, sets)
  {
    if sets[b] != s {
      var v :| v in s && v !in sets[b];
      assert (b, v) in Missing(uses, sets);
      assert (b, v) !in Missing(uses, sets[b := s]);
    }
  }

  /** out is the union of the children's in, and in is what the instructions of the block make of out. */
  ghost predicate LivenessSolution(code: Code, g: Cfg, ins: seq<set<nat>>, outs: seq<set<nat>>)
    requires GraphShape(code, g)
  {
    && |ins| == |outs| == |g.first|
    && (forall b, v :: 0 <= b < |g.first| ==> (v in outs[b] <==> InSome(g.children[b], ins, v)))
    && (forall b :: 0 <= b < |g.first| ==> ins[b] == LiveAt(code, g.first[b], End(g, b), outs[b]))
  }

  /**
   * The least solution: `v` is in the in set of `b` exactly when a path of the graph leads from `b` to a
   * block with an upward-exposed read of `v` and no block before that one overwrites `v`.
   */
  ghost predicate ExactLiveness(code: Code, g: Cfg, ins: seq<set<nat>>, outs: seq<set<nat>>)
    requires GraphShape(code, g)
  {
    && LivenessSolution(code, g, ins, outs)
    && (forall b, v :: 0 <= b < |g.first| ==>
          (v in ins[b] <==> Arrives(g.children, Uses(code, g), Defs(code, g), b, v)))
  }

  /**
   * What the analysis yields with sets for `n` elements: the same, of the ids that have a place there. An id
   * that has none is live nowhere.
   */
  ghost predicate HeldLiveness(code: Code, g: Cfg, n: nat, ins: seq<set<nat>>, outs: seq<set<nat>>)
    requires GraphShape(code, g)
  {
    && |ins| == |outs| == |g.first|
    && (forall b, v :: 0 <= b < |g.first| ==> (v in outs[b] <==> InSome(g.children[b], ins, v)))
    && (forall b :: 0 <= b < |g.first| ==> ins[b] == Held(LiveAt(code, g.first[b], End(g, b), outs[b]), n))
    && (forall b, v: nat :: 0 <= b < |g.first| ==>
          (v in ins[b] <==> v < Places(n) && Arrives(g.children, Uses(code, g), Defs(code, g), b, v)))
  }

  lemma SolvedIsSolution(code: Code, g: Cfg, n: nat, ins: seq<set<nat>>, outs: seq<set<nat>>)
    requires GraphShape(code, g) && |ins| == |outs| == |g.first|
    requires Between(g.children, AllHeld(Uses(code, g), n), AllHeld(Defs(code, g), n), ins, outs)
    requires forall b :: 0 <= b < |g.children| ==>
               Solved(g.children, AllHeld(Uses(code, g), n), AllHeld(Defs(code, g), n), ins, outs, ins, b)
    ensures HeldLiveness(code, g, n, ins, outs)
  {
    hide Arrives, LiveAt, Summarize, Places, Between, Solved;
    var uses, defs := AllHeld(Uses(code, g), n), AllHeld(Defs(code, g), n);
    SolvedIsExact(g.children, uses, defs, ins, outs);
    forall b: nat, v: nat | b < |g.first|
      ensures v in ins[b] <==> v < Places(n) && Arrives(g.children, Uses(code, g), Defs(code, g), b, v)
    {
      HeldArrives(g.children, Uses(code, g), Defs(code, g), n, b, v);
    }
    forall b: nat | b < |g.first| ensures ins[b] == Held(LiveAt(code, g.first[b], End(g, b), outs[b]), n) {
      SummaryIsExact(code, g.first[b], End(g, b), outs[b]);
      HeldSolution(BlockSummary(code, g, b), n, ins[b], outs[b]);
    }
  }

  lemma HeldSolution(s: Summary, n: nat, newIn: set<nat>, out: set<nat>)
    requires newIn == Held(s.use, n) + (out - Held(s.def, n)) && forall v :: v in out ==> v < Places(n)
    ensures newIn == Held(s.use + (out - s.def), n)
  {
    hide Places;
  }

  /** Sets that solve the equations and hold nothing but arrivals are the arrivals. */
  lemma SolvedIsExact(
      children: seq<seq<nat>>, uses: seq<set<nat>>, defs: seq<set<nat>>, ins: seq<set<nat>>, outs: seq<set<nat>>)
    requires |defs| == |uses| == |ins| == |outs| == |children| && Between(children, uses, defs, ins, outs)
    requires forall b :: 0 <= b < |children| ==> Solved(children, uses, defs, ins, outs, ins, b)
    ensures forall b, v :: 0 <= b < |children| ==> (v in ins[b] <==> Arrives(children, uses, defs, b, v))
    ensures forall b, v :: 0 <= b < |children| ==> (v in outs[b] <==> InSome(children[b], ins, v))
    ensures forall b :: 0 <= b < |children| ==> ins[b] == uses[b] + (outs[b] - defs[b])
  {
    forall b: nat, v: nat | b < |children| ensures v in outs[b] <==> InSome(children[b], ins, v) {
      assert Solved(children, uses, defs, ins, outs, ins, b);
    }
    forall b: nat | b < |children| ensures ins[b] == uses[b] + (outs[b] - defs[b]) {
      assert Solved(children, uses, defs, ins, outs, ins, b);
    }
    forall b: nat, c: nat, v | b < |children| && c in children[b] && c < |children| && v in ins[c] && v !in defs[b]
      ensures v in ins[b]
    {
      assert InSome(children[b], ins, v);
    }
    hide Arrives;
    LeastIsExact(children, uses, defs, ins);
  }

  /** Each id travels by itself. */
  lemma HeldArrives(children: seq<seq<nat>>, uses: seq<set<nat>>, defs: seq<set<nat>>, n: nat, b: nat, v: nat)
    requires |uses| == |defs| == |children|
    ensures Arrives(children, AllHeld(uses, n), AllHeld(defs, n), b, v) <==>
            v < Places(n) && Arrives(children, uses, defs, b, v)
  {
    hide Places;
    if path :| Carries(children, AllHeld(uses, n), AllHeld(defs, n), b, v, path) {
      assert Carries(children, uses, defs, b, v, path);
    }
    if v < Places(n) {
      if path :| Carries(children, uses, defs, b, v, path) {
        assert Carries(children, AllHeld(uses, n), AllHeld(defs, n), b, v, path);
      }
    }
  }

  /** Every id that the code reads or overwrites has a place in sets for `n` elements. */
  ghost predicate IdsFit(code: Code, n: nat) {
    forall p, v :: 0 <= p < |code| && (v in UsedIds(code[p]) || v in DefinedIds(code[p])) ==> v < Places(n)
  }

  /** Where all ids have a place the sets lose nothing. */
  lemma FittingIsExact(code: Code, g: Cfg, n: nat, ins: seq<set<nat>>, outs: seq<set<nat>>)
    requires GraphShape(code, g) && HeldLiveness(code, g, n, ins, outs) && IdsFit(code, n)
    ensures ExactLiveness(code, g, ins, outs)
  {
    var uses, defs := Uses(code, g), Defs(code, g);
    hide Places;
    forall b: nat, v: nat | b < |g.first| && Arrives(g.children, uses, defs, b, v) ensures v < Places(n) {
      var path :| Carries(g.children, uses, defs, b, v, path);
      var c := path[|path| - 1];
      SummaryMeaning(code, g.first[c], End(g, c), v);
    }
    hide Arrives;
    forall b: nat | b < |g.first| ensures ins[b] == LiveAt(code, g.first[b], End(g, b), outs[b]) {
      LiveFits(code, n, g.first[b], End(g, b), outs[b]);
    }
  }

  lemma {:induction false} LiveFits(code: Code, n: nat, p: nat, end: nat, out: set<nat>)
    requires end < |code| && IdsFit(code, n) && forall v :: v in out ==> v < Places(n)
    ensures forall v :: v in LiveAt(code, p, end, out) ==> v < Places(n)
    decreases end + 1 - p
  {
    if p <= end {
      LiveFits(code, n, p + 1, end, out);
    }
  }

  // ---------------------------------------------------------------- the exact sets, whatever their size

  ghost function FullIns(code: Code, g: Cfg): (r: seq<set<nat>>)
    requires GraphShape(code, g)
    ensures |r| == |g.first|
  {
    seq(|g.first|, b requires 0 <= b < |g.first| =>
      set v | v in Union(Uses(code, g)) && Arrives(g.children, Uses(code, g), Defs(code, g), b, v))
  }

  ghost function FullOuts(code: Code, g: Cfg): (r: seq<set<nat>>)
    requires GraphShape(code, g)
    ensures |r| == |g.first|
  {
    seq(|g.first|, b requires 0 <= b < |g.first| =>
      set v | v in Union(Uses(code, g)) && InSome(g.children[b], FullIns(code, g), v))
  }

  lemma FullIsExact(code: Code, g: Cfg)
    requires GraphShape(code, g)
    ensures ExactLiveness(code, g, FullIns(code, g), FullOuts(code, g))
  {
    var uses, defs, ins, outs := Uses(code, g), Defs(code, g), FullIns(code, g), FullOuts(code, g);
    forall b: nat, v: nat | b < |g.first| ensures v in ins[b] <==> Arrives(g.children, uses, defs, b, v) {
      if path :| Carries(g.children, uses, defs, b, v, path) {
        assert v in uses[path[|path| - 1]];
      }
    }
    forall b: nat, v: nat | b < |g.first| && InSome(g.children[b], ins, v) ensures v in Union(uses) {
    }
    forall b: nat | b < |g.first| ensures ins[b] == LiveAt(code, g.first[b], End(g, b), outs[b]) {
      SummaryIsExact(code, g.first[b], End(g, b), outs[b]);
      forall v: nat ensures v in ins[b] <==> v in uses[b] || (v in outs[b] && v !in defs[b]) {
        ArrivalsUnfold(g.children, uses, defs, b, v);
      }
    }
  }

  /** There is one exact solution. */
  lemma ExactIsFull(code: Code, g: Cfg, ins: seq<set<nat>>, outs: seq<set<nat>>)
    requires GraphShape(code, g) && ExactLiveness(code, g, ins, outs)
    ensures outs == FullOuts(code, g)
  {
    FullIsExact(code, g);
    var fullIns, fullOuts := FullIns(code, g), FullOuts(code, g);
    hide Arrives, FullIns, FullOuts, LiveAt;
    forall b: nat | b < |g.first| ensures ins[b] == fullIns[b] {
    }
    assert ins == fullIns;
    forall b: nat | b < |g.first| ensures outs[b] == fullOuts[b] {
    }
  }

  /** What the analysis yields is what the exact sets hold of the ids that have a place. */
  lemma HeldOfFull(code: Code, g: Cfg, n: nat, ins: seq<set<nat>>, outs: seq<set<nat>>)
    requires GraphShape(code, g) && HeldLiveness(code, g, n, ins, outs)
    ensures outs == AllHeld(FullOuts(code, g), n)
  {
    FullIsExact(code, g);
    var fullIns, fullOuts := FullIns(code, g), FullOuts(code, g);
    hide Arrives, Places, FullIns, FullOuts;
    forall b: nat, v: nat | b < |g.first| ensures v in outs[b] <==> v in fullOuts[b] && v < Places(n) {
      if v in outs[b] {
        var c :| c in g.children[b] && c < |ins| && v in ins[c];
        assert v in fullIns[c];
      }
      if v in fullOuts[b] && v < Places(n) {
        var c :| c in g.children[b] && c < |fullIns| && v in fullIns[c];
        assert v in ins[c];
      }
    }
    forall b: nat | b < |g.first| ensures outs[b] == Held(fullOuts[b], n) {
    }
  }

  /** What is held of the live ids depends on what is held of the ids that are live behind the block. */
  lemma {:induction false} HeldLiveAt(code: Code, n: nat, p: nat, end: nat, out: set<nat>)
    requires end < |code|
    ensures Held(LiveAt(code, p, end, Held(out, n)), n) == Held(LiveAt(code, p, end, out), n)
    decreases end + 1 - p
  {
    hide Places;
    if p <= end {
      HeldLiveAt(code, n, p + 1, end, out);
      assert LiveAt(code, p, end, out) == LiveBefore(code[p], LiveAt(code, p + 1, end, out));
      assert LiveAt(code, p, end, Held(out, n)) == LiveBefore(code[p], LiveAt(code, p + 1, end, Held(out, n)));
      HeldBefore(code[p], n, LiveAt(code, p + 1, end, Held(out, n)), LiveAt(code, p + 1, end, out));
    } else {
      assert Held(Held(out, n), n) == Held(out, n);
    }
  }

  lemma HeldBefore(i: Instruction, n: nat, a: set<nat>, b: set<nat>)
    requires Held(a, n) == Held(b, n)
    ensures Held(LiveBefore(i, a), n) == Held(LiveBefore(i, b), n)
  {
    hide Places;
    forall v ensures v in Held(LiveBefore(i, a), n) <==> v in Held(LiveBefore(i, b), n) {
      assert v in Held(a, n) <==> v in Held(b, n);
    }
  }

  lemma SummaryOfEnter(code: Code, p: nat)
    requires p < |code| && code[p].op == Enter && WellFormed(code[p])
    ensures Summarize(code, p, p) == Summary({}, {})
  {
    assert Summarize(code, p + 1, p) == Summary({}, {});
  }

  /** Marking skipped instructions dead changes no liveness. */
  lemma SkippedKeepsLiveness(code: Code, code': Code, g: Cfg, n: nat, ins: seq<set<nat>>, outs: seq<set<nat>>)
    requires GraphShape(code, g) && GraphShape(code', g) && HeldLiveness(code, g, n, ins, outs)
    requires forall q :: 0 <= q < |code| ==> code'[q] == code[q] || (IsSkipped(code'[q]) && IsSkipped(code[q]))
    ensures HeldLiveness(code', g, n, ins, outs)
  {
    hide Arrives, Places;
    forall b: nat | b < |g.first|
      ensures LiveAt(code', g.first[b], End(g, b), outs[b]) == LiveAt(code, g.first[b], End(g, b), outs[b])
      ensures BlockSummary(code', g, b) == BlockSummary(code, g, b)
    {
      LiveAtIsLocal(code, code', g.first[b], End(g, b), outs[b]);
      SummarizeIsLocal(code, code', g.first[b], End(g, b));
    }
    assert Uses(code, g) == Uses(code', g);
    assert Defs(code, g) == Defs(code', g);
  }

  // ---------------------------------------------------------------- liveness covers what the code can do

  /** Which instructions have a block. */
  ghost predicate Placed(code: Code, entry: nat, g: Cfg) {
    && GraphShape(code, g) && entry < |code|
    && (forall p :: 0 <= p < |code| ==> (g.blockOf[p].Some? <==> entry <= p))
    && (forall p :: entry <= p < |code| ==> g.blockOf[p].value < |g.first|)
  }

  /** The ids live after the instruction at `p`, in its block. */
  ghost function LiveAfter(code: Code, entry: nat, g: Cfg, outs: seq<set<nat>>, p: nat): set<nat>
    requires Placed(code, entry, g) && |outs| == |g.first| && entry <= p < |code|
  {
    LiveAt(code, p + 1, End(g, g.blockOf[p].value), outs[g.blockOf[p].value])
  }

  /** The ids live before the instruction at `p`; the declarations before Enter change nothing. */
  ghost function LiveIn(code: Code, entry: nat, g: Cfg, outs: seq<set<nat>>, p: nat): set<nat>
    requires Placed(code, entry, g) && |outs| == |g.first|
  {
    if p >= |code| then {}
    else
      var q := if p < entry then entry else p;
      LiveAt(code, q, End(g, g.blockOf[q].value), outs[g.blockOf[q].value])
  }

  /** Control that falls through stays on the graph. */
  ghost predicate CoversFall(code: Code, g: Cfg, p: nat) {
    p + 1 < |code| ==> StepsOnGraph(g, p, p + 1)
  }

  /**
   * Control that leaves a jump at `p` by its target may do so along an edge of the
   * graph, or, where peephole optimization has redirected the jump, along the edges
   * into and out of a block that holds nothing but a dead instruction.
   */
  ghost predicate CoversJump(code: Code, g: Cfg, p: nat)
    requires p < |code|
  {
    IsJump(code[p]) ==>
      && IsFirst(g.blockOf, g.first, code[p].jumpTo)
      && p < |g.blockOf| && (p + 1 < |g.blockOf| ==> g.blockOf[p + 1] != g.blockOf[p])
      && (code[p].dead || StepsOnGraph(g, p, code[p].jumpTo) || DetourAround(code, g, p, code[p].jumpTo))
  }

  ghost predicate DetourAround(code: Code, g: Cfg, p: nat, q: nat) {
    && p + 1 < |code| && code[p + 1].dead
    && StepsOnGraph(g, p, p + 1) && StepsOnGraph(g, p + 1, q)
    && IsFirst(g.blockOf, g.first, p + 1) && |g.last| == |g.first| && End(g, g.blockOf[p + 1].value) == p + 1
  }

  /** The graph still accounts for every way control can pass, although passes may have changed the code. */
  ghost predicate Covers(code: Code, entry: nat, g: Cfg) {
    && (forall p :: entry <= p < |code| ==> CoversFall(code, g, p))
    && (forall p :: entry <= p < |code| ==> CoversJump(code, g, p))
  }

  /** The graph of the code covers the code. */
  lemma GraphCovers(code: Code, entry: nat, g: Cfg)
    requires WellFormedCode(code, entry) && GraphOf(code, entry, g)
    ensures Placed(code, entry, g) && Covers(code, entry, g)
  {
    forall p | entry <= p < |code| ensures CoversFall(code, g, p) && CoversJump(code, g, p) {
      if p + 1 < |code| {
        PassingOnGraph(code, entry, g, p, p + 1);
      }
      if IsJump(code[p]) {
        JumpCovered(code, entry, g, p);
      }
    }
  }

  lemma JumpCovered(code: Code, entry: nat, g: Cfg, p: nat)
    requires WellFormedCode(code, entry) && GraphOf(code, entry, g) && entry <= p < |code| && IsJump(code[p])
    ensures CoversJump(code, g, p)
  {
    PassingOnGraph(code, entry, g, p, code[p].jumpTo);
    assert code[p].jumpTo in LeadersMadeBy(code, p);
    assert IsLeader(code, |code|, code[p].jumpTo);
    if p + 1 < |code| {
      assert p + 1 in LeadersMadeBy(code, p);
      assert IsLeader(code, |code|, p + 1);
    }
  }

  /** Along an edge: what is live before the target is live at the end of the source's block. */
  lemma EdgeIsLive(
      code: Code, entry: nat, g: Cfg, ins: seq<set<nat>>, outs: seq<set<nat>>, p: nat, q: nat)
    requires Placed(code, entry, g) && LivenessSolution(code, g, ins, outs) && entry <= p < |code|
              && entry <= q < |code|
    requires IsFirst(g.blockOf, g.first, q) && g.blockOf[q].value in g.children[g.blockOf[p].value]
    ensures LiveIn(code, entry, g, outs, q) <= outs[g.blockOf[p].value]
  {
    var b, c := g.blockOf[p].value, g.blockOf[q].value;
    assert LiveIn(code, entry, g, outs, q) == ins[c];
    forall v | v in ins[c] ensures v in outs[b] {
      assert InSome(g.children[b], ins, v);
    }
  }

  lemma LastOfBlock(code: Code, entry: nat, g: Cfg, p: nat)
    requires Placed(code, entry, g) && entry <= p < |code|
    requires p + 1 < |code| ==> g.blockOf[p + 1] != g.blockOf[p]
    ensures End(g, g.blockOf[p].value) == p
  {
    var b := g.blockOf[p].value;
    assert g.first[b] <= p <= End(g, b);
  }

  /** A step on the graph: what is live before its target is live after its source. */
  lemma StepIsLive(code: Code, entry: nat, g: Cfg, ins: seq<set<nat>>, outs: seq<set<nat>>, p: nat, q: nat)
    requires Placed(code, entry, g) && LivenessSolution(code, g, ins, outs)
    requires entry <= p < |code| && entry <= q < |code| && StepsOnGraph(g, p, q)
    requires q == p + 1 || (p + 1 < |code| ==> g.blockOf[p + 1] != g.blockOf[p])
    ensures LiveIn(code, entry, g, outs, q) <= LiveAfter(code, entry, g, outs, p)
  {
    var b := g.blockOf[p].value;
    if !(q == p + 1 && g.blockOf[q] == g.blockOf[p]) {
      LastOfBlock(code, entry, g, p);
      EdgeIsLive(code, entry, g, ins, outs, p, q);
    }
  }

  /** Every way control can pass: what is live before the target is live after the source. */
  lemma SuccessorIsLive(code: Code, entry: nat, g: Cfg, ins: seq<set<nat>>, outs: seq<set<nat>>, p: nat, q: nat)
    requires Placed(code, entry, g) && Covers(code, entry, g) && LivenessSolution(code, g, ins, outs)
    requires entry <= p < |code| && entry <= q < |code|
    requires q == p + 1 || (IsJump(code[p]) && !code[p].dead && q == code[p].jumpTo)
    ensures LiveIn(code, entry, g, outs, q) <= LiveAfter(code, entry, g, outs, p)
  {
    assert CoversFall(code, g, p) && CoversJump(code, g, p);
    if StepsOnGraph(g, p, q) {
      StepIsLive(code, entry, g, ins, outs, p, q);
    } else {
      StepIsLive(code, entry, g, ins, outs, p, p + 1);
      LastOfBlock(code, entry, g, p + 1);
      StepIsLive(code, entry, g, ins, outs, p + 1, q);
    }
  }

  /** What is live in a state: nothing, once the function has returned. */
  ghost function LiveNow(code: Code, entry: nat, g: Cfg, outs: seq<set<nat>>, s: State): set<nat>
    requires Placed(code, entry, g) && |outs| == |g.first|
  {
    if s.status == Running then LiveIn(code, entry, g, outs, s.pc) else {}
  }

  /** Wherever a step leads, what is live there was live after the instruction, unless the run has ended. */
  lemma StepIsCovered(
      m: Machine, code: Code, entry: nat, g: Cfg, ins: seq<set<nat>>, outs: seq<set<nat>>, s: State, after: set<nat>)
    requires WellFormedCode(code, entry) && Placed(code, entry, g) && Covers(code, entry, g)
    requires LivenessSolution(code, g, ins, outs)
    requires s.status == Running && s.pc < |code|
    requires |outs| == |g.first|
    requires after == if s.pc < entry then LiveIn(code, entry, g, outs, s.pc) else LiveAfter(code, entry, g, outs, s.pc)
    ensures var s' := Step(m, code, s); s'.status == Running ==> LiveIn(code, entry, g, outs, s'.pc) <= after
  {
    var s' := Step(m, code, s);
    ExecutedPc(m, s, code[s.pc]);
    if entry <= s.pc && s'.status == Running && s'.pc < |code| {
      SuccessorIsLive(code, entry, g, ins, outs, s.pc, s'.pc);
    }
  }
}
