/** Basic blocks and the control flow graph (block.c, control_flow.c). */
module ControlFlow {
  import opened Instructions
  import opened Semantics
  import opened Paths

  /** The block of each instruction, by position. */
  type Placement = seq<Option<nat>>

  /**
   * The blocks of a function by id. `blockOf` is the block of each instruction;
   * the other fields belong to the blocks. The list of created blocks holds the
   * newest block first, so a pass over it goes through the ids downwards.
   */
  datatype Cfg = Cfg(
    blockOf: Placement,
    first: seq<nat>,
    last: seq<Option<nat>>,
    children: seq<seq<nat>>,
    parents: seq<seq<nat>>)

  /** The positions that the instruction at `r` makes leaders of blocks. */
  ghost function LeadersMadeBy(code: Code, r: nat): set<nat>
    requires r < |code|
  {
    if code[r].op == Enter || code[r].op == Call then {r}
    else if IsJump(code[r]) then {code[r].jumpTo} + (if r + 1 < |code| then {r + 1} else {})
    else {}
  }

  ghost predicate IsLeader(code: Code, bound: nat, q: nat)
    requires bound <= |code|
  {
    exists r :: 0 <= r < bound && q in LeadersMadeBy(code, r)
  }

  ghost predicate JumpsInRange(code: Code) {
    forall p :: 0 <= p < |code| && IsJump(code[p]) ==> 0 < p && code[p].jumpTo < |code|
  }

  predicate IsFirst(blockOf: Placement, first: seq<nat>, p: nat) {
    p < |blockOf| && blockOf[p].Some? && blockOf[p].value < |first| && first[blockOf[p].value] == p
  }

  /** Block 0 starts at `entry`, every block starts in itself and every placed instruction is in a block. */
  ghost predicate BlocksMatch(entry: nat, blockOf: Placement, first: seq<nat>) {
    && 0 < |first| && first[0] == entry
    && (forall b :: 0 <= b < |first| ==> entry <= first[b] < |blockOf| && blockOf[first[b]] == Some(b))
    && (forall p :: 0 <= p < |blockOf| && blockOf[p].Some? ==> blockOf[p].value < |first|)
  }

  /**
   * Up to `bound` an instruction that does not lead a block is in its predecessor's; after it only
   * leaders are placed.
   */
  ghost predicate PlacedUpTo(entry: nat, blockOf: Placement, first: seq<nat>, bound: nat)
    requires bound <= |blockOf|
  {
    && (forall p :: 0 <= p < bound ==> (blockOf[p].Some? <==> entry <= p))
    && (forall p :: entry < p < bound && !IsFirst(blockOf, first, p) ==> blockOf[p] == blockOf[p-1])
    && (forall p :: bound <= p < |blockOf| && blockOf[p].Some? ==> IsFirst(blockOf, first, p))
  }

  ghost predicate TargetsPlaced(code: Code, blockOf: Placement) {
    forall p :: 0 <= p < |code| && IsJump(code[p]) ==>
      code[p].jumpTo < |blockOf| && blockOf[code[p].jumpTo].Some?
  }

  /** The edges that update_blocks adds when it comes to the instruction at `q`. */
  ghost function EdgesAddedAt(code: Code, blockOf: Placement, first: seq<nat>, q: nat): set<(nat, nat)>
    requires 0 < q < |code| == |blockOf|
    requires IsJump(code[q]) ==> code[q].jumpTo < |code|
  {
    FallThroughEdge(code, blockOf, first, q) + JumpEdge(code, blockOf, q)
  }

  ghost function FallThroughEdge(code: Code, blockOf: Placement, first: seq<nat>, q: nat): set<(nat, nat)>
    requires 0 < q < |code| == |blockOf|
  {
    if IsFirst(blockOf, first, q) && blockOf[q-1].Some? && !(IsJump(code[q-1]) && code[q-1].jumpTo == q)
    then {(blockOf[q-1].value, blockOf[q].value)} else {}
  }

  ghost function JumpEdge(code: Code, blockOf: Placement, q: nat): set<(nat, nat)>
    requires 0 < q < |code| == |blockOf|
    requires IsJump(code[q]) ==> code[q].jumpTo < |code|
  {
    if IsJump(code[q]) && blockOf[q].Some? && blockOf[code[q].jumpTo].Some?
    then {(blockOf[q].value, blockOf[code[q].jumpTo].value)} else {}
  }

  /** Children lists hold exactly the edges added before `bound`. */
  ghost predicate ConnectedUpTo(code: Code, blockOf: Placement, first: seq<nat>, children: seq<seq<nat>>, bound: nat)
    requires bound <= |code| == |blockOf| && JumpsInRange(code)
  {
    forall b, c :: 0 <= b < |children| ==>
      (c in children[b] <==> exists q :: 0 < q < bound && (b, c) in EdgesAddedAt(code, blockOf, first, q))
  }

  /** A block is a parent as often as the other one is its child. */
  ghost predicate Mirrored(children: seq<seq<nat>>, parents: seq<seq<nat>>)
    requires |children| == |parents|
  {
    && (forall b, c :: 0 <= b < |children| && 0 <= c < |children| ==>
          multiset(children[b])[c] == multiset(parents[c])[b])
    && (forall b, c :: 0 <= b < |parents| && c in parents[b] ==> c < |children|)
  }

  /** The recorded last instruction of each block, `bound` instructions having been treated. */
  ghost predicate LastsUpTo(blockOf: Placement, first: seq<nat>, last: seq<Option<nat>>, bound: nat)
    requires |first| == |last| && bound <= |blockOf|
  {
    forall b :: 0 <= b < |first| ==>
      match last[b]
      case Some(l) =>
        0 < l < bound && blockOf[l] == Some(b) && (l + 1 < bound ==> blockOf[l + 1] != Some(b))
      case None =>
        bound <= first[b] || (first[b] == 0 && (1 < bound ==> blockOf[1] != Some(b)))
  }

  class GraphBuilder {
    var blockOf: Placement
    var first: seq<nat>
    var last: seq<Option<nat>>
    var children: seq<seq<nat>>
    var parents: seq<seq<nat>>

    ghost predicate Valid()
      reads this
    {
      |first| == |last| == |children| == |parents|
    }

    constructor (size: nat)
      ensures Valid() && first == [] && |blockOf| == size
      ensures forall p :: 0 <= p < size ==> blockOf[p] == None
    {
      blockOf := seq(size, _ => None);
      first, last, children, parents := [], [], [], [];
    }

    method CreateBlock(p: nat)
      requires Valid() && p < |blockOf|
      modifies this
      ensures Valid() && blockOf == old(blockOf)[p := Some(|old(first)|)]
      ensures first == old(first) + [p] && last == old(last) + [None]
      ensures children == old(children) + [[]] && parents == old(parents) + [[]]
    {
      blockOf := blockOf[p := Some(|first|)];
      first, last := first + [p], last + [None];
      children, parents := children + [[]], parents + [[]];
    }

    method ConnectBlocks(parent: nat, child: nat)
      requires Valid() && parent < |first| && child < |first|
      modifies this`children, this`parents
      ensures Valid()
      ensures children == old(children)[parent := [child] + old(children)[parent]]
      ensures parents == old(parents)[child := [parent] + old(parents)[child]]
      ensures old(Mirrored(children, parents)) ==> Mirrored(children, parents)
      ensures forall b, c :: 0 <= b < |children| ==>
                (c in children[b] <==> c in old(children)[b] || (b, c) == (parent, child))
    {
      children := children[parent := [child] + children[parent]];
      parents := parents[child := [parent] + parents[child]];
    }

    /** Every block was created at one instruction, its first one, and is not connected yet. */
    ghost predicate OneLeaderEach()
      reads this
    {
      && Valid()
      && (forall b :: 0 <= b < |first| ==>
            first[b] < |blockOf| && blockOf[first[b]] == Some(b)
            && children[b] == [] && parents[b] == [] && last[b] == None)
      && (forall q :: 0 <= q < |blockOf| && blockOf[q].Some? ==> IsFirst(blockOf, first, q))
    }

    ghost function Started(): set<nat>
      reads this
    {
      set q | 0 <= q < |blockOf| && blockOf[q].Some?
    }

    /** Starts a block at `p` unless another instruction did so before. */
    method StartBlock(p: nat)
      requires p < |blockOf| && OneLeaderEach()
      modifies this
      ensures OneLeaderEach() && |blockOf| == |old(blockOf)|
      ensures Started() == old(Started()) + {p}
      ensures first == old(first) || first == old(first) + [p]
    {
      if blockOf[p].None? {
        CreateBlock(p);
      }
    }

    /** The blocks that the instruction at `p` starts. */
    method StartBlocksAt(code: Code, p: nat)
      requires |blockOf| == |code| && p < |code| && OneLeaderEach()
      requires IsJump(code[p]) ==> code[p].jumpTo < |code|
      modifies this
      ensures OneLeaderEach() && |blockOf| == |code|
      ensures Started() == old(Started()) + LeadersMadeBy(code, p)
      ensures old(first) <= first
      ensures old(first) == [] && code[p].op == Enter ==> first == [p]
      ensures forall b :: |old(first)| <= b < |first| ==> first[b] in LeadersMadeBy(code, p)
    {
      if code[p].op == Enter || code[p].op == Call {
        StartBlock(p);
      } else if IsJump(code[p]) {
        StartBlock(code[p].jumpTo);
        if p + 1 < |code| {
          StartBlock(p + 1);
        }
      }
    }

    method FindBlockLeaders(code: Code, ghost entry: nat)
      requires WellFormedCode(code, entry)
      requires |blockOf| == |code| && OneLeaderEach() && first == [] && Started() == {}
      modifies this
      ensures |blockOf| == |code| && OneLeaderEach() && BlocksMatch(entry, blockOf, first)
      ensures forall q :: 0 <= q < |code| ==> (blockOf[q].Some? <==> IsLeader(code, |code|, q))
    {
      hide WellFormedCode, LeadersMadeBy, IsLeader;
      var p := 0;
      NoLeaders(code, entry);
      while p < |code|
        invariant 0 <= p <= |code| == |blockOf| && OneLeaderEach()
        invariant if p <= entry then first == [] else 0 < |first| && first[0] == entry
        invariant forall b :: 0 <= b < |first| ==> entry <= first[b]
        invariant forall q :: 0 <= q < |code| ==> (q in Started() <==> IsLeader(code, p, q))
      {
        LeadersFromEntry(code, entry, p);
        if code[p].op != GlobalDeclaration {
          StartBlocksAt(code, p);
        }
        LeadersGrow(code, p);
        p := p + 1;
      }
      assert forall q :: 0 <= q < |code| ==> (blockOf[q].Some? <==> q in Started());
    }

    /** The instruction at `p` joins the current block, or opens its own and connects it to the one before. */
    method PlaceInstruction(code: Code, ghost entry: nat, p: nat, current: Option<nat>) returns (block: nat)
      requires JumpsInRange(code) && entry <= p && 0 < p < |code| == |blockOf|
      requires BlocksMatch(entry, blockOf, first) && PlacedUpTo(entry, blockOf, first, p)
      requires Valid() && current == blockOf[p-1] && Mirrored(children, parents)
      modifies this`blockOf, this`children, this`parents
      ensures Valid() && Extends(old(blockOf), blockOf, p)
      ensures BlocksMatch(entry, blockOf, first) && PlacedUpTo(entry, blockOf, first, p + 1)
      ensures blockOf[p] == Some(block) && Mirrored(children, parents)
      ensures forall b, c :: 0 <= b < |first| ==>
                (c in children[b] <==> c in old(children)[b] || (b, c) in FallThroughEdge(code, blockOf, first, p))
    {
      if blockOf[p].None? {
        blockOf := blockOf[p := current];
      } else if !(IsJump(code[p-1]) && code[p-1].jumpTo == p) && blockOf[p-1].Some? {
        ConnectBlocks(blockOf[p-1].value, blockOf[p].value);
      }
      block := blockOf[p].value;
    }

    lemma ValidSizes()
      ensures Valid() <==> |first| == |last| == |children| == |parents|
    {
    }

    /** The part of the pass that deals with the instruction at `p`. */
    method TreatInstruction(code: Code, ghost entry: nat, p: nat, current: Option<nat>) returns (block: nat)
      requires JumpsInRange(code) && entry <= p && 0 < p < |code| == |blockOf| && TargetsPlaced(code, blockOf)
      requires BlocksMatch(entry, blockOf, first) && PlacedUpTo(entry, blockOf, first, p)
      requires Valid() && current == blockOf[p-1] && Mirrored(children, parents)
      requires ConnectedUpTo(code, blockOf, first, children, p) && LastsUpTo(blockOf, first, last, p)
      modifies this
      ensures Valid() && |blockOf| == |code| && first == old(first) && TargetsPlaced(code, blockOf)
      ensures BlocksMatch(entry, blockOf, first) && PlacedUpTo(entry, blockOf, first, p + 1)
      ensures blockOf[p] == Some(block) && Mirrored(children, parents)
      ensures ConnectedUpTo(code, blockOf, first, children, p + 1) && LastsUpTo(blockOf, first, last, p + 1)
    {
      hide *;
      ValidSizes();
      BlocksMatched(entry, blockOf, first);
      block := PlaceInstruction(code, entry, p, current);
      BlocksMatched(entry, blockOf, first);
      TargetsStay(code, old(blockOf), blockOf, p);
      LastsStep(old(blockOf), blockOf, first, last, p, block);
      ghost var placed := children;
      last := last[block := Some(p)];
      ValidSizes();
      if IsJump(code[p]) {
        TargetPlaced(code, blockOf, p);
        ConnectBlocks(block, blockOf[code[p].jumpTo].value);
      }
      ValidSizes();
      EdgesStep(code, blockOf, first, old(children), placed, children, p);
      ConnectedStep(code, old(blockOf), blockOf, first, old(children), children, p);
    }

    method UpdateBlocks(code: Code, ghost entry: nat)
      requires JumpsInRange(code) && entry < |code| == |blockOf| && TargetsPlaced(code, blockOf)
      requires forall p :: 0 <= p < |code| ==> (code[p].op == GlobalDeclaration <==> p < entry)
      requires BlocksMatch(entry, blockOf, first) && PlacedUpTo(entry, blockOf, first, 1)
      requires Valid() && Mirrored(children, parents)
      requires ConnectedUpTo(code, blockOf, first, children, 1) && LastsUpTo(blockOf, first, last, 1)
      modifies this
      ensures Valid() && |blockOf| == |code| && first == old(first)
      ensures BlocksMatch(entry, blockOf, first) && PlacedUpTo(entry, blockOf, first, |code|)
      ensures ConnectedUpTo(code, blockOf, first, children, |code|) && LastsUpTo(blockOf, first, last, |code|)
      ensures Mirrored(children, parents)
    {
      var p, current := 1, blockOf[0];
      while p < |code|
        invariant 1 <= p <= |code| == |blockOf| && current == blockOf[p-1]
        invariant Valid() && first == old(first) && TargetsPlaced(code, blockOf) && Mirrored(children, parents)
        invariant BlocksMatch(entry, blockOf, first) && PlacedUpTo(entry, blockOf, first, p)
        invariant ConnectedUpTo(code, blockOf, first, children, p) && LastsUpTo(blockOf, first, last, p)
      {
        if code[p].op != GlobalDeclaration {
          var block := TreatInstruction(code, entry, p, current);
          current := Some(block);
        } else {
          SkippedStep(code, entry, blockOf, first, last, children, p);
        }
        p := p + 1;
      }
    }
  }

  lemma LeadersPlaced(code: Code, entry: nat, blockOf: Placement, first: seq<nat>)
    requires WellFormedCode(code, entry) && |blockOf| == |code| && BlocksMatch(entry, blockOf, first)
    requires forall q :: 0 <= q < |code| ==> (blockOf[q].Some? <==> IsLeader(code, |code|, q))
    ensures JumpsInRange(code) && TargetsPlaced(code, blockOf)
    ensures forall q :: 0 <= q < |code| && IsLeader(code, |code|, q) ==> entry <= q
  {
    forall p | 0 <= p < |code| && IsJump(code[p]) ensures blockOf[code[p].jumpTo].Some? {
      assert code[p].jumpTo in LeadersMadeBy(code, p);
    }
    LeadersAfterEntry(code, entry);
  }

  lemma LeadersAfterEntry(code: Code, entry: nat)
    requires WellFormedCode(code, entry)
    ensures forall q :: 0 <= q < |code| && IsLeader(code, |code|, q) ==> entry <= q
  {
    hide WellFormed;
    forall q | 0 <= q < |code| && IsLeader(code, |code|, q) ensures entry <= q {
      var r :| 0 <= r < |code| && q in LeadersMadeBy(code, r);
    }
  }

  /** `blockOf'` differs from `blockOf` at most in placing the instruction at `p`. */
  ghost predicate Extends(blockOf: Placement, blockOf': Placement, p: nat) {
    && |blockOf'| == |blockOf|
    && (forall q :: 0 <= q < |blockOf| && (q != p || blockOf[q].Some?) ==> blockOf'[q] == blockOf[q])
  }

  lemma NoLeaders(code: Code, entry: nat)
    requires WellFormedCode(code, entry)
    ensures entry < |code|
    ensures forall q :: !IsLeader(code, 0, q)
  {
  }

  lemma LeadersGrow(code: Code, p: nat)
    requires p < |code|
    ensures forall q :: IsLeader(code, p + 1, q) <==> IsLeader(code, p, q) || q in LeadersMadeBy(code, p)
  {
  }

  /** Only declarations are before the entry, and no block starts there. */
  lemma LeadersFromEntry(code: Code, entry: nat, p: nat)
    requires WellFormedCode(code, entry) && p < |code|
    ensures p < entry <==> code[p].op == GlobalDeclaration
    ensures p == entry ==> code[p].op == Enter
    ensures code[p].op == GlobalDeclaration ==> LeadersMadeBy(code, p) == {}
    ensures IsJump(code[p]) ==> code[p].jumpTo < |code|
    ensures forall q :: q in LeadersMadeBy(code, p) ==> entry <= q < |code|
  {
  }

  lemma LastsStep(blockOf: Placement, blockOf': Placement, first: seq<nat>, last: seq<Option<nat>>, p: nat, block: nat)
    requires 0 < p < |blockOf| && Extends(blockOf, blockOf', p) && |last| == |first|
    requires block < |first| && blockOf'[p] == Some(block) && LastsUpTo(blockOf, first, last, p)
    requires forall b :: 0 <= b < |first| ==> first[b] < |blockOf| && blockOf[first[b]] == Some(b)
    ensures LastsUpTo(blockOf', first, last[block := Some(p)], p + 1)
  {
    forall b | 0 <= b < |first| && b != block && last[b].None? ensures p + 1 <= first[b] || first[b] == 0 {
      assert blockOf[first[b]] == Some(b);
    }
  }

  lemma BlocksMatched(entry: nat, blockOf: Placement, first: seq<nat>)
    requires BlocksMatch(entry, blockOf, first)
    ensures forall b :: 0 <= b < |first| ==> first[b] < |blockOf| && blockOf[first[b]] == Some(b)
    ensures forall p :: 0 <= p < |blockOf| && blockOf[p].Some? ==> blockOf[p].value < |first|
  {
  }

  lemma TargetsStay(code: Code, blockOf: Placement, blockOf': Placement, p: nat)
    requires TargetsPlaced(code, blockOf) && Extends(blockOf, blockOf', p) && |code| == |blockOf|
    ensures |blockOf'| == |blockOf| && TargetsPlaced(code, blockOf')
  {
  }

  lemma TargetPlaced(code: Code, blockOf: Placement, p: nat)
    requires TargetsPlaced(code, blockOf) && p < |code| && IsJump(code[p])
    ensures code[p].jumpTo < |blockOf| && blockOf[code[p].jumpTo].Some?
  {
  }

  /**
   * The edges of the instruction at `p` have been added: first the one from the block before, then that
   * of the jump.
   */
  lemma EdgesStep(
      code: Code, blockOf: Placement, first: seq<nat>, before: seq<seq<nat>>, placed: seq<seq<nat>>,
      children: seq<seq<nat>>, p: nat)
    requires 0 < p < |code| == |blockOf| && JumpsInRange(code) && TargetsPlaced(code, blockOf) && blockOf[p].Some?
    requires |before| == |placed| == |children|
    requires forall b, c :: 0 <= b < |before| ==>
               (c in placed[b] <==> c in before[b] || (b, c) in FallThroughEdge(code, blockOf, first, p))
    requires if IsJump(code[p])
             then forall b, c :: 0 <= b < |before| ==>
                    (c in children[b] <==>
                      c in placed[b] || (b, c) == (blockOf[p].value, blockOf[code[p].jumpTo].value))
             else children == placed
    ensures forall b, c :: 0 <= b < |before| ==>
              (c in children[b] <==> c in before[b] || (b, c) in EdgesAddedAt(code, blockOf, first, p))
  {
    forall b, c | 0 <= b < |before|
      ensures c in children[b] <==> c in before[b] || (b, c) in EdgesAddedAt(code, blockOf, first, p)
    {
      if IsJump(code[p]) {
        assert JumpEdge(code, blockOf, p) == {(blockOf[p].value, blockOf[code[p].jumpTo].value)};
      } else {
        assert JumpEdge(code, blockOf, p) == {};
      }
    }
  }

  lemma SkippedStep(
      code: Code, entry: nat, blockOf: Placement, first: seq<nat>, last: seq<Option<nat>>, children: seq<seq<nat>>,
      p: nat)
    requires JumpsInRange(code) && 0 < p < |code| == |blockOf| && p < entry && |last| == |first|
    requires code[p].op == GlobalDeclaration && BlocksMatch(entry, blockOf, first)
    requires PlacedUpTo(entry, blockOf, first, p) && LastsUpTo(blockOf, first, last, p)
    requires ConnectedUpTo(code, blockOf, first, children, p)
    ensures PlacedUpTo(entry, blockOf, first, p + 1) && LastsUpTo(blockOf, first, last, p + 1)
    ensures ConnectedUpTo(code, blockOf, first, children, p + 1) && blockOf[p] == blockOf[p-1]
  {
  }

  lemma ConnectedStep(
      code: Code, blockOf: Placement, blockOf': Placement, first: seq<nat>,
      children: seq<seq<nat>>, children': seq<seq<nat>>, p: nat)
    requires 0 < p < |code| == |blockOf| && JumpsInRange(code) && Extends(blockOf, blockOf', p)
    requires |children| == |children'| && TargetsPlaced(code, blockOf)
    requires ConnectedUpTo(code, blockOf, first, children, p)
    requires forall b, c :: 0 <= b < |children| ==>
               (c in children'[b] <==> c in children[b] || (b, c) in EdgesAddedAt(code, blockOf', first, p))
    ensures ConnectedUpTo(code, blockOf', first, children', p + 1)
  {
    forall q | 0 < q < p
      ensures EdgesAddedAt(code, blockOf', first, q) == EdgesAddedAt(code, blockOf, first, q)
    {
    }
  }

  /** The last position of a block. */
  function End(g: Cfg, b: nat): nat
    requires b < |g.first| == |g.last|
  {
    if g.last[b].Some? then g.last[b].value else g.first[b]
  }

  /** Can control pass from the instruction at `p` to the one at `q` (or is `q` the next one in the list)? */
  predicate PassesTo(code: Code, p: nat, q: nat)
    requires p < |code|
  {
    q == p + 1 || (IsJump(code[p]) && q == code[p].jumpTo)
  }

  /** Enter, a call, the target of a jump, or the instruction behind one. */
  ghost predicate BeginsBlock(code: Code, q: nat)
    requires q < |code|
  {
    || code[q].op == Enter || code[q].op == Call
    || (0 < q && (code[q - 1].op == If || code[q - 1].op == Goto))
    || exists r: nat :: r < |code| && (code[r].op == If || code[r].op == Goto) && code[r].jumpTo == q
  }

  lemma LeaderBegins(code: Code, q: nat)
    requires q < |code|
    ensures IsLeader(code, |code|, q) <==> BeginsBlock(code, q)
  {
    if IsLeader(code, |code|, q) {
      var r :| 0 <= r < |code| && q in LeadersMadeBy(code, r);
    }
    if code[q].op == Enter || code[q].op == Call {
      assert q in LeadersMadeBy(code, q);
    }
    if 0 < q && (code[q - 1].op == If || code[q - 1].op == Goto) {
      assert q in LeadersMadeBy(code, q - 1);
    }
    if r: nat :| r < |code| && (code[r].op == If || code[r].op == Goto) && code[r].jumpTo == q {
      assert q in LeadersMadeBy(code, r);
    }
  }

  /** What build_control_flow_graph establishes, in terms of the code alone. */
  ghost predicate GraphOf(code: Code, entry: nat, g: Cfg) {
    && |g.blockOf| == |code| && BlocksMatch(entry, g.blockOf, g.first)
    && |g.last| == |g.children| == |g.parents| == |g.first|
    // the blocks are ranges that partition the instructions from `entry` on
    && (forall p :: 0 <= p < |code| ==> (g.blockOf[p].Some? <==> entry <= p))
    && (forall p, b :: 0 <= p < |code| && 0 <= b < |g.first| ==>
          (g.blockOf[p] == Some(b) <==> g.first[b] <= p <= End(g, b)))
    && (forall b :: 0 <= b < |g.first| ==>
          End(g, b) < |code| && (g.last[b].None? ==> g.first[b] == End(g, b) == entry))
    // the leaders are Enter, every Call, every jump target and every instruction after a jump
    && (forall q :: 0 <= q < |code| ==> (IsFirst(g.blockOf, g.first, q) <==> IsLeader(code, |code|, q)))
    // the edges are the ways control can pass between blocks
    && (forall b: nat, c: nat :: b < |g.first| ==>
          (c in g.children[b] <==> c < |g.first| && PassesBetween(code, g, b, c)))
    && Mirrored(g.children, g.parents)
  }

  ghost predicate PassesBetween(code: Code, g: Cfg, b: nat, c: nat) {
    exists p :: 0 <= p < |code| == |g.blockOf| && c < |g.first| && g.blockOf[p] == Some(b)
      && PassesTo(code, p, g.first[c])
  }

  /** The facts that the two passes of the builder leave behind. */
  ghost predicate PassesDone(code: Code, entry: nat, g: Cfg) {
    && |g.blockOf| == |code| && |g.last| == |g.children| == |g.parents| == |g.first|
    && JumpsInRange(code) && TargetsPlaced(code, g.blockOf)
    && BlocksMatch(entry, g.blockOf, g.first) && PlacedUpTo(entry, g.blockOf, g.first, |code|)
    && ConnectedUpTo(code, g.blockOf, g.first, g.children, |code|) && Mirrored(g.children, g.parents)
    && LastsUpTo(g.blockOf, g.first, g.last, |code|)
    && (forall q :: 0 <= q < |code| ==> (IsFirst(g.blockOf, g.first, q) <==> IsLeader(code, |code|, q)))
  }

  lemma {:induction false} BackToFirst(entry: nat, blockOf: Placement, first: seq<nat>, p: nat, b: nat)
    requires BlocksMatch(entry, blockOf, first) && PlacedUpTo(entry, blockOf, first, |blockOf|)
    requires p < |blockOf| && blockOf[p] == Some(b)
    ensures b < |first| && first[b] <= p
    ensures forall q :: first[b] <= q <= p ==> blockOf[q] == Some(b)
    decreases p
  {
    if !IsFirst(blockOf, first, p) {
      assert blockOf[entry] == Some(0);
      assert entry < p;
      BackToFirst(entry, blockOf, first, p - 1, b);
    }
  }

  lemma BlocksAreRanges(entry: nat, g: Cfg, b: nat)
    requires BlocksMatch(entry, g.blockOf, g.first) && PlacedUpTo(entry, g.blockOf, g.first, |g.blockOf|)
    requires |g.last| == |g.first| && LastsUpTo(g.blockOf, g.first, g.last, |g.blockOf|) && b < |g.first|
    ensures End(g, b) < |g.blockOf|
    ensures g.last[b].None? ==> g.first[b] == End(g, b) == entry
    ensures forall p :: 0 <= p < |g.blockOf| ==> (g.blockOf[p] == Some(b) <==> g.first[b] <= p <= End(g, b))
  {
    var e := End(g, b);
    assert g.blockOf[g.first[b]] == Some(b);
    BackToFirst(entry, g.blockOf, g.first, e, b);
    forall p | 0 <= p < |g.blockOf| && g.blockOf[p] == Some(b) ensures g.first[b] <= p <= e {
      BackToFirst(entry, g.blockOf, g.first, p, b);
    }
  }

  lemma EdgeGivesPassing(code: Code, entry: nat, g: Cfg, b: nat, c: nat)
    requires BlocksMatch(entry, g.blockOf, g.first) && JumpsInRange(code) && |g.children| == |g.first|
    requires |g.blockOf| == |code| && ConnectedUpTo(code, g.blockOf, g.first, g.children, |code|)
    requires forall q :: 0 <= q < |code| && IsLeader(code, |code|, q) ==> IsFirst(g.blockOf, g.first, q)
    requires b < |g.first| && c in g.children[b]
    ensures c < |g.first| && PassesBetween(code, g, b, c)
  {
    var q :| 0 < q < |code| && (b, c) in EdgesAddedAt(code, g.blockOf, g.first, q);
    if (b, c) in FallThroughEdge(code, g.blockOf, g.first, q) {
      assert g.blockOf[q - 1] == Some(b) && PassesTo(code, q - 1, g.first[c]);
    } else {
      assert code[q].jumpTo in LeadersMadeBy(code, q);
      assert IsLeader(code, |code|, code[q].jumpTo);
      assert g.blockOf[q] == Some(b) && PassesTo(code, q, g.first[c]);
    }
  }

  lemma PassingGivesEdge(code: Code, entry: nat, g: Cfg, b: nat, c: nat)
    requires BlocksMatch(entry, g.blockOf, g.first) && JumpsInRange(code) && |g.children| == |g.first|
    requires |g.blockOf| == |code| && ConnectedUpTo(code, g.blockOf, g.first, g.children, |code|)
    requires b < |g.first| && c < |g.first| && PassesBetween(code, g, b, c)
    ensures c in g.children[b]
  {
    var p :| 0 <= p < |code| && g.blockOf[p] == Some(b) && PassesTo(code, p, g.first[c]);
    assert g.blockOf[g.first[c]] == Some(c);
    if IsJump(code[p]) && g.first[c] == code[p].jumpTo {
      assert (b, c) in JumpEdge(code, g.blockOf, p);
      assert (b, c) in EdgesAddedAt(code, g.blockOf, g.first, p);
    } else {
      assert (b, c) in FallThroughEdge(code, g.blockOf, g.first, p + 1);
      assert (b, c) in EdgesAddedAt(code, g.blockOf, g.first, p + 1);
    }
  }

  lemma PassesGiveGraph(code: Code, entry: nat, g: Cfg)
    requires WellFormedCode(code, entry) && PassesDone(code, entry, g)
    ensures GraphOf(code, entry, g)
  {
    forall b: nat | b < |g.first| {
      BlocksAreRanges(entry, g, b);
    }
    forall b: nat, c: nat | b < |g.first|
      ensures c in g.children[b] <==> c < |g.first| && PassesBetween(code, g, b, c) {
      if c in g.children[b] {
        EdgeGivesPassing(code, entry, g, b, c);
      } else if c < |g.first| && PassesBetween(code, g, b, c) {
        PassingGivesEdge(code, entry, g, b, c);
      }
    }
  }

  method BuildControlFlowGraph(code: Code, ghost entry: nat) returns (g: Cfg)
    requires WellFormedCode(code, entry)
    ensures GraphOf(code, entry, g)
    ensures forall q :: 0 <= q < |code| ==> (IsFirst(g.blockOf, g.first, q) <==> BeginsBlock(code, q))
  {
    var builder := new GraphBuilder(|code|);
    builder.FindBlockLeaders(code, entry);
    LeadersPlaced(code, entry, builder.blockOf, builder.first);
    BeforePlacing(code, entry, builder);
    ghost var leaders := builder.blockOf;
    builder.UpdateBlocks(code, entry);
    g := Cfg(builder.blockOf, builder.first, builder.last, builder.children, builder.parents);
    LeadersStay(code, entry, leaders, g.blockOf, g.first);
    PassesGiveGraph(code, entry, g);
    FirstsBegin(code, entry, g);
  }

  lemma FirstsBegin(code: Code, entry: nat, g: Cfg)
    requires GraphOf(code, entry, g)
    ensures forall q :: 0 <= q < |code| ==> (IsFirst(g.blockOf, g.first, q) <==> BeginsBlock(code, q))
  {
    hide IsLeader, BeginsBlock, PassesBetween, Mirrored, IsFirst, BlocksMatch;
    forall q | 0 <= q < |code| ensures IsFirst(g.blockOf, g.first, q) <==> BeginsBlock(code, q) {
      LeaderBegins(code, q);
    }
  }

  lemma BeforePlacing(code: Code, entry: nat, builder: GraphBuilder)
    requires WellFormedCode(code, entry) && JumpsInRange(code) && |builder.blockOf| == |code|
    requires builder.OneLeaderEach() && BlocksMatch(entry, builder.blockOf, builder.first)
    requires forall q :: 0 <= q < |code| && builder.blockOf[q].Some? ==> entry <= q
    ensures PlacedUpTo(entry, builder.blockOf, builder.first, 1) && Mirrored(builder.children, builder.parents)
    ensures ConnectedUpTo(code, builder.blockOf, builder.first, builder.children, 1)
    ensures LastsUpTo(builder.blockOf, builder.first, builder.last, 1)
  {
  }

  lemma LeadersStay(code: Code, entry: nat, blockOf: Placement, blockOf': Placement, first: seq<nat>)
    requires |blockOf| == |blockOf'| == |code|
    requires BlocksMatch(entry, blockOf, first) && BlocksMatch(entry, blockOf', first)
    requires forall q :: 0 <= q < |code| && blockOf[q].Some? ==> IsFirst(blockOf, first, q)
    requires forall q :: 0 <= q < |code| ==> (blockOf[q].Some? <==> IsLeader(code, |code|, q))
    ensures forall q :: 0 <= q < |code| ==> (IsFirst(blockOf', first, q) <==> IsLeader(code, |code|, q))
  {
    forall q | 0 <= q < |code| ensures IsFirst(blockOf', first, q) <==> blockOf[q].Some? {
      if IsFirst(blockOf', first, q) {
        assert blockOf[first[blockOf'[q].value]].Some?;
      }
      if blockOf[q].Some? {
        assert blockOf'[first[blockOf[q].value]].Some?;
      }
    }
  }

  /** A step of the code stays in its block or follows an edge to the first instruction of a block. */
  ghost predicate StepsOnGraph(g: Cfg, p: nat, q: nat) {
    && p < |g.blockOf| && q < |g.blockOf| && |g.children| == |g.first|
    && g.blockOf[p].Some? && g.blockOf[q].Some? && g.blockOf[p].value < |g.first|
    && (|| (q == p + 1 && g.blockOf[q] == g.blockOf[p])
        || (IsFirst(g.blockOf, g.first, q) && g.blockOf[q].value in g.children[g.blockOf[p].value]))
  }

  lemma PassingOnGraph(code: Code, entry: nat, g: Cfg, p: nat, q: nat)
    requires GraphOf(code, entry, g) && entry <= p < |code| && q < |code| && PassesTo(code, p, q)
    requires IsJump(code[p]) ==> entry <= code[p].jumpTo
    ensures StepsOnGraph(g, p, q)
  {
    var b, c := g.blockOf[p].value, g.blockOf[q].value;
    if q != p + 1 {
      assert q in LeadersMadeBy(code, p);
      assert IsLeader(code, |code|, q);
    }
    if IsFirst(g.blockOf, g.first, q) {
      assert PassesBetween(code, g, b, c);
    } else {
      assert g.first[c] <= q <= End(g, c);
    }
  }

  /** The graph covers every run: each step that executes an instruction is one of the graph. */
  lemma GraphCoversRuns(m: Machine, code: Code, entry: nat, g: Cfg, s: State, n: nat)
    requires WellFormedCode(code, entry) && GraphOf(code, entry, g) && s.pc <= entry
    ensures var s0, s1 := Run(m, code, s, n), Run(m, code, s, n + 1);
            entry <= s0.pc && s1.pc < |code| && s1.pc != s0.pc ==> StepsOnGraph(g, s0.pc, s1.pc)
  {
    var s0, s1 := Run(m, code, s, n), Run(m, code, s, n + 1);
    StepPasses(m, code, s0);
    if entry <= s0.pc && s1.pc < |code| && s1.pc != s0.pc {
      PassingOnGraph(code, entry, g, s0.pc, s1.pc);
    }
  }

  lemma StepPasses(m: Machine, code: Code, s: State)
    ensures var s' := Step(m, code, s);
            s'.pc == s.pc || (s.pc < |code| && PassesTo(code, s.pc, s'.pc))
  {
    if s.pc < |code| {
      ExecutedPc(m, s, code[s.pc]);
    }
  }

  /** Every block can be reached from the block of the Enter instruction. */
  lemma {:induction false} EveryBlockReachable(code: Code, entry: nat, g: Cfg, p: nat)
    requires WellFormedCode(code, entry) && GraphOf(code, entry, g) && entry <= p < |code|
    ensures CanReach(g.children, 0, g.blockOf[p].value)
    decreases p
  {
    if p == entry {
      assert g.blockOf[g.first[0]] == Some(0);
      assert Connects(g.children, 0, 0, [0]);
    } else {
      EveryBlockReachable(code, entry, g, p - 1);
      PassingOnGraph(code, entry, g, p - 1, p);
      if g.blockOf[p] != g.blockOf[p - 1] {
        ExtendPath(g.children, 0, g.blockOf[p - 1].value, g.blockOf[p].value);
      }
    }
  }

  lemma ParentsArePassed(code: Code, entry: nat, g: Cfg, a: nat, b: nat)
    requires GraphOf(code, entry, g) && b < |g.first|
    ensures a in g.parents[b] <==> a < |g.first| && PassesBetween(code, g, a, b)
  {
    assert a in g.parents[b] <==> a in multiset(g.parents[b]);
    if a < |g.first| {
      assert b in g.children[a] <==> b in multiset(g.children[a]);
    }
  }

  /** Only the block of the Enter instruction has no parents. */
  lemma OnlyEntryHasNoParents(code: Code, entry: nat, g: Cfg, b: nat)
    requires WellFormedCode(code, entry) && GraphOf(code, entry, g) && b < |g.first|
    ensures g.parents[b] == [] <==> b == 0
  {
    if b != 0 {
      var p := g.first[b];
      PassingOnGraph(code, entry, g, p - 1, p);
      ParentsArePassed(code, entry, g, g.blockOf[p - 1].value, b);
    } else if g.parents[0] != [] {
      var a := g.parents[0][0];
      ParentsArePassed(code, entry, g, a, 0);
      assert false;
    }
  }
}
