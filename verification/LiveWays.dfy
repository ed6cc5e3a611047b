/**
 * What liveness says of the code itself: an id is live where a way leads to an instruction that uses it. The graph
 * lets a Return and a Goto, too, go on to the next instruction, and keeps the edges of jumps that peephole
 * optimization has redirected.
 */
module LiveWays {
  import opened Instructions
  import opened ControlFlow
  import opened Paths
  import opened Liveness
  import opened ReadPaths
  import opened Examples

  /** Going on to the next instruction, or jumping. */
  predicate MayLead(code: Code, p: nat, q: nat)
    requires p < |code|
  {
    q == p + 1 || (!code[p].dead && (code[p].op == If || code[p].op == Goto) && q == code[p].jumpTo)
  }

  ghost predicate HasIdOf(x: Option<Symbol>, v: nat) {
    x.Some? && x.value.scope == Local && !x.value.isConstant && x.value.id == v
  }

  /** The instruction does something, and reads a variable with the id `v` or has an address with it as destination. */
  ghost predicate UsesId(i: Instruction, v: nat) {
    && !i.dead && !(i.op == Assign && i.dest == i.src1)
    && (|| (i.op != Call && i.op != Enter && i.op != GlobalDeclaration && (HasIdOf(i.src1, v) || HasIdOf(i.src2, v)))
        || (HasIdOf(i.dest, v) && i.dest.value.typ == AddrType))
  }

  /** It overwrites a variable with the id `v` that holds no address. */
  ghost predicate SetsId(i: Instruction, v: nat) {
    && !i.dead && !(i.op == Assign && i.dest == i.src1) && HasIdOf(i.dest, v) && i.dest.value.typ != AddrType
  }

  /** A way from `p` to an instruction that uses `v`, on which no other one sets it. */
  ghost predicate IsWay(code: Code, p: nat, v: nat, path: seq<nat>) {
    && 0 < |path| && path[0] == p
    && (forall k :: 0 <= k < |path| ==> path[k] < |code|)
    && (forall k :: 0 <= k < |path| - 1 ==> MayLead(code, path[k], path[k + 1]) && !SetsId(code[path[k]], v))
    && UsesId(code[path[|path| - 1]], v)
  }

  ghost predicate UsedAlong(code: Code, p: nat, v: nat) {
    exists path :: IsWay(code, p, v, path)
  }

  lemma UsedHere(code: Code, p: nat, v: nat)
    requires p < |code| && UsesId(code[p], v)
    ensures UsedAlong(code, p, v)
  {
    assert IsWay(code, p, v, [p]);
  }

  lemma UsedThere(code: Code, p: nat, q: nat, v: nat)
    requires p < |code| && MayLead(code, p, q) && !SetsId(code[p], v) && UsedAlong(code, q, v)
    ensures UsedAlong(code, p, v)
  {
    var path :| IsWay(code, q, v, path);
    assert IsWay(code, p, v, [p] + path);
  }

  /** The id is used at once, or further on and not set here. */
  lemma UsedNext(code: Code, p: nat, v: nat, path: seq<nat>)
    requires IsWay(code, p, v, path)
    ensures p < |code| && |path| > 0
    ensures |path| == 1 ==> UsesId(code[p], v)
    ensures |path| > 1 ==>
              MayLead(code, p, path[1]) && !SetsId(code[p], v) && IsWay(code, path[1], v, path[1..])
  {
    if |path| > 1 {
      assert MayLead(code, path[0], path[1]) && !SetsId(code[path[0]], v);
      var rest := path[1..];
      assert rest[|rest| - 1] == path[|path| - 1];
    }
  }

  lemma UsesAndSets(i: Instruction, v: nat)
    requires WellFormed(i)
    ensures UsesId(i, v) <==> !IsSkipped(i) && v in UsedIds(i)
    ensures SetsId(i, v) <==> !IsSkipped(i) && v in DefinedIds(i)
  {
  }

  // ---------------------------------------------------------------- what the graph adds

  /** A step within a block, or from its end to a child. */
  ghost predicate GraphLeads(g: Cfg, p: nat, q: nat) {
    && p < |g.blockOf| && q < |g.blockOf| && |g.first| == |g.last| == |g.children|
    && g.blockOf[p].Some? && g.blockOf[p].value < |g.first|
    && (|| (q == p + 1 && g.blockOf[q] == g.blockOf[p])
        || (p == End(g, g.blockOf[p].value) && IsFirst(g.blockOf, g.first, q)
              && g.blockOf[q].value in g.children[g.blockOf[p].value]))
  }

  /** The Goto behind a test that has been inverted. */
  ghost predicate IsPassed(code: Code, p: nat, q: nat) {
    && 0 < p < |code| && code[p].op == Goto && code[p].dead
    && code[p - 1].op == If && !code[p - 1].dead && q == code[p - 1].jumpTo
  }

  /**
   * A step of the graph is one of the code, or leads over the dead Goto behind an inverted test, or out of that. A
   * step that does not go on to the next instruction leads to a label.
   */
  ghost predicate TracesStep(code: Code, p: nat, q: nat) {
    && p < |code| && q < |code| && (q == p + 1 || code[q].op == Label)
    && (|| MayLead(code, p, q)
        || (q == p + 2 && code[p].op == If && code[p + 1].dead)
        || IsPassed(code, p, q))
  }

  ghost predicate Traces(code: Code, g: Cfg) {
    forall p, q :: GraphLeads(g, p, q) ==> TracesStep(code, p, q)
  }

  /** The graph of the code has no other steps. */
  lemma GraphTraces(code: Code, entry: nat, g: Cfg)
    requires WellFormedCode(code, entry) && GraphOf(code, entry, g)
    requires forall p :: 0 <= p < |code| ==> !code[p].dead
    ensures Traces(code, g)
  {
    hide WellFormedCode, GraphOf, GraphLeads, TracesStep;
    forall p: nat, q: nat | GraphLeads(g, p, q) ensures TracesStep(code, p, q) {
      if IsEdge(g, p, q) {
        EdgeTraces(code, entry, g, p, q);
      } else {
        InBlockTraces(code, entry, g, p, q);
      }
    }
  }

  ghost predicate IsEdge(g: Cfg, p: nat, q: nat) {
    && p < |g.blockOf| && g.blockOf[p].Some? && g.blockOf[p].value < |g.children|
    && IsFirst(g.blockOf, g.first, q) && g.blockOf[q].value in g.children[g.blockOf[p].value]
  }

  lemma InBlockTraces(code: Code, entry: nat, g: Cfg, p: nat, q: nat)
    requires GraphOf(code, entry, g) && GraphLeads(g, p, q) && !IsEdge(g, p, q)
    ensures TracesStep(code, p, q)
  {
    hide Mirrored, PassesBetween, IsLeader;
  }

  lemma EdgeTraces(code: Code, entry: nat, g: Cfg, p: nat, q: nat)
    requires WellFormedCode(code, entry) && GraphOf(code, entry, g) && !(p < |code| && code[p].dead)
    requires GraphLeads(g, p, q) && IsEdge(g, p, q)
    requires forall p :: 0 <= p < |code| ==> !code[p].dead
    ensures TracesStep(code, p, q)
  {
    hide WellFormed, Mirrored, IsLeader;
    var b, c := g.blockOf[p].value, g.blockOf[q].value;
    var r :| 0 <= r < |code| && g.blockOf[r] == Some(b) && PassesTo(code, r, g.first[c]);
    EndsBlock(code, entry, g, r, q);
    hide GraphOf, PassesBetween;
  }

  lemma BehindJumpLeads(code: Code, p: nat)
    requires p + 1 < |code| && IsJump(code[p])
    ensures IsLeader(code, |code|, p + 1)
  {
    assert p + 1 in LeadersMadeBy(code, p);
  }

  /** Whatever leads out of a block is its last instruction. */
  lemma EndsBlock(code: Code, entry: nat, g: Cfg, p: nat, q: nat)
    requires WellFormedCode(code, entry) && GraphOf(code, entry, g) && p < |code| && PassesTo(code, p, q)
    requires g.blockOf[p].Some? && IsFirst(g.blockOf, g.first, q)
    ensures p == End(g, g.blockOf[p].value)
  {
    hide WellFormed, Mirrored, PassesBetween, IsLeader;
    var b := g.blockOf[p].value;
    assert g.first[b] <= p <= End(g, b);
    if p < End(g, b) {
      assert g.blockOf[p + 1] == Some(b);
      if IsJump(code[p]) {
        BehindJumpLeads(code, p);
      }
    }
  }

  /** Whatever leaves the jumps as they are keeps that. */
  lemma JumpsKeepTraces(code: Code, code': Code, entry: nat, g: Cfg)
    requires WellFormedCode(code, entry) && Traces(code, g) && |code'| == |code|
    requires forall p :: 0 <= p < |code| ==>
               code'[p].op == code[p].op && code'[p].jumpTo == code[p].jumpTo && (code[p].dead ==> code'[p].dead)
    requires forall p :: 0 <= p < |code| && code'[p].dead && !code[p].dead ==> code[p].op != If && code[p].op != Goto
    ensures Traces(code', g)
  {
    hide WellFormedCode, GraphLeads;
    forall p: nat, q: nat | GraphLeads(g, p, q) ensures TracesStep(code', p, q) {
      assert TracesStep(code, p, q);
    }
  }

  // ---------------------------------------------------------------- live ids are used

  /** From a passed Goto on the graph goes on where its test jumps. */
  ghost predicate UsedFrom(code: Code, p: nat, v: nat) {
    UsedAlong(code, p, v) || (0 < p < |code| && IsPassed(code, p, code[p - 1].jumpTo) && UsedAlong(code, p - 1, v))
  }

  lemma StepBack(code: Code, p: nat, q: nat, v: nat)
    requires TracesStep(code, p, q) && UsedFrom(code, q, v) && !SetsId(code[p], v)
    requires forall r :: 0 <= r < |code| ==> WellFormed(code[r])
    ensures UsedFrom(code, p, v)
  {
    hide UsedAlong, SetsId, WellFormed;
    if MayLead(code, p, q) {
      if UsedAlong(code, q, v) {
        UsedThere(code, p, q, v);
      } else {
        assert q == p + 1;
      }
    } else if IsPassed(code, p, q) {
      PassedIsOver(code, p, q, v);
    } else {
      GoesOver(code, p, v);
    }
  }

  lemma PassedIsOver(code: Code, p: nat, q: nat, v: nat)
    requires IsPassed(code, p, q) && q < |code| && code[q].op == Label && UsedFrom(code, q, v)
    requires WellFormed(code[p - 1])
    ensures UsedAlong(code, p - 1, v)
    ensures UsedFrom(code, p, v)
  {
    assert MayLead(code, p - 1, q) && !SetsId(code[p - 1], v);
    hide UsedAlong;
    UsedThere(code, p - 1, q, v);
  }

  lemma GoesOver(code: Code, p: nat, v: nat)
    requires p + 2 < |code| && code[p + 1].dead && code[p + 2].op == Label && UsedFrom(code, p + 2, v)
    requires !SetsId(code[p], v)
    ensures UsedAlong(code, p, v)
  {
    assert UsedAlong(code, p + 2, v) && !SetsId(code[p + 1], v);
    UsedThere(code, p + 1, p + 2, v);
    UsedThere(code, p, p + 1, v);
  }

  /** Back to the start of a range in which nothing sets the id. */
  lemma {:induction false} BackInRange(code: Code, p: nat, q: nat, v: nat)
    requires p <= q < |code| && UsedAlong(code, q, v) && forall r :: p <= r < q ==> !SetsId(code[r], v)
    ensures UsedAlong(code, p, v)
    decreases q - p
  {
    if p < q {
      BackInRange(code, p + 1, q, v);
      UsedThere(code, p, p + 1, v);
    }
  }

  /** The same from a position that the graph may go on from. */
  lemma BackFrom(code: Code, p: nat, q: nat, v: nat)
    requires p <= q < |code| && UsedFrom(code, q, v) && forall r :: p <= r < q ==> !SetsId(code[r], v)
    ensures UsedFrom(code, p, v) && (p < q ==> UsedAlong(code, p, v))
  {
    hide UsedAlong, SetsId;
    if p < q {
      BackInRange(code, p, if UsedAlong(code, q, v) then q else q - 1, v);
    }
  }

  /** An exposed use of the block, from `p` on. */
  lemma ExposedIsUsed(code: Code, p: nat, q: nat, v: nat)
    requires ExposedAt(code, p, q, v) && forall r :: 0 <= r < |code| ==> WellFormed(code[r])
    ensures UsedAlong(code, p, v)
  {
    UsesAndSets(code[q], v);
    UsedHere(code, q, v);
    forall r | p <= r < q ensures !SetsId(code[r], v) {
      UsesAndSets(code[r], v);
    }
    hide UsedAlong, SetsId, UsesId, WellFormed;
    BackInRange(code, p, q, v);
  }

  /** What is neither used nor set in a block passes it. */
  lemma PassesBlock(code: Code, p: nat, end: nat, v: nat)
    requires end < |code| && forall r :: 0 <= r < |code| ==> WellFormed(code[r])
    requires v !in Summarize(code, p, end).def && v !in Summarize(code, p, end).use
    ensures forall r :: p <= r <= end ==> !SetsId(code[r], v)
  {
    SummaryMeaning(code, p, end, v);
    forall r | p <= r <= end ensures !SetsId(code[r], v) {
      UsesAndSets(code[r], v);
      assert !OverwrittenAt(code, r, v);
    }
  }

  /** What the blocks carry is used along a way. */
  lemma {:induction false} CarriedIsUsed(code: Code, g: Cfg, b: nat, v: nat, path: seq<nat>)
    requires GraphShape(code, g) && Traces(code, g) && forall r :: 0 <= r < |code| ==> WellFormed(code[r])
    requires Carries(g.children, Uses(code, g), Defs(code, g), b, v, path)
    ensures b < |g.first| && UsedFrom(code, g.first[b], v)
    decreases |path|
  {
    var p, end := g.first[b], End(g, b);
    var s := Summarize(code, p, end);
    CarriedUnfolds(code, g, b, v, path);
    hide *;
    if v in s.use {
      BlockUses(code, p, end, v);
      FromAlong(code, p, v);
    } else {
      CarriedIsUsed(code, g, path[1], v, path[1..]);
      EndFollows(code, g, b, path[1]);
      PassesBlock(code, p, end, v);
      StepBack(code, end, g.first[path[1]], v);
      BackFrom(code, p, end, v);
    }
  }

  lemma CarriedUnfolds(code: Code, g: Cfg, b: nat, v: nat, path: seq<nat>)
    requires GraphShape(code, g) && Carries(g.children, Uses(code, g), Defs(code, g), b, v, path)
    ensures b < |g.first| == |g.last| && g.first[b] <= End(g, b) < |code| && |path| > 0
    ensures var s := Summarize(code, g.first[b], End(g, b));
      v in s.use || (v !in s.def && |path| > 1 && path[1] in g.children[b] && path[1] < |g.first|
                      && Carries(g.children, Uses(code, g), Defs(code, g), path[1], v, path[1..]))
  {
    hide Summarize, End;
    if |path| > 1 {
      var rest := path[1..];
      assert rest[|rest| - 1] == path[|path| - 1];
      assert path[0 + 1] in g.children[path[0]];
    }
  }

  lemma BlockUses(code: Code, p: nat, end: nat, v: nat)
    requires end < |code| && v in Summarize(code, p, end).use && forall r :: 0 <= r < |code| ==> WellFormed(code[r])
    ensures UsedAlong(code, p, v)
  {
    SummaryMeaning(code, p, end, v);
    var q :| p <= q <= end && ExposedAt(code, p, q, v);
    ExposedIsUsed(code, p, q, v);
  }

  lemma FromAlong(code: Code, p: nat, v: nat)
    requires UsedAlong(code, p, v)
    ensures UsedFrom(code, p, v)
  {
  }

  lemma EndFollows(code: Code, g: Cfg, b: nat, c: nat)
    requires GraphShape(code, g) && Traces(code, g) && b < |g.first| && c in g.children[b]
    ensures c < |g.first| && End(g, b) < |code| && TracesStep(code, End(g, b), g.first[c])
  {
    hide TracesStep;
    assert g.blockOf[End(g, b)] == Some(b) && g.blockOf[g.first[c]] == Some(c);
    assert GraphLeads(g, End(g, b), g.first[c]);
  }

  /** What is live behind an instruction that is no test is used along a way from the next one. */
  lemma LiveIsUsed(code: Code, entry: nat, g: Cfg, p: nat, v: nat)
    requires WellFormedCode(code, entry) && Placed(code, entry, g) && Traces(code, g)
    requires entry <= p < |code| && !IsJump(code[p]) && v in LiveAfter(code, entry, g, FullOuts(code, g), p)
    ensures UsedAlong(code, p + 1, v)
  {
    var b := g.blockOf[p].value;
    var end, out := End(g, b), FullOuts(code, g)[b];
    PlacedIn(code, entry, g, p);
    SummaryIsExact(code, p + 1, end, out);
    hide *;
    var s := Summarize(code, p + 1, end);
    if v in s.use {
      BlockUses(code, p + 1, end, v);
    } else {
      OutIsUsed(code, entry, g, b, v);
      PassesBlock(code, p + 1, end, v);
      LeavesBlock(code, p, end, v);
    }
  }

  lemma PlacedIn(code: Code, entry: nat, g: Cfg, p: nat)
    requires WellFormedCode(code, entry) && Placed(code, entry, g) && entry <= p < |code|
    ensures g.blockOf[p].value < |g.first| == |g.last| && g.first[g.blockOf[p].value] <= p <= End(g, g.blockOf[p].value)
    ensures End(g, g.blockOf[p].value) < |code| && forall r :: 0 <= r < |code| ==> WellFormed(code[r])
  {
    hide WellFormed;
  }

  /** What is live behind a block is used from one of its children on. */
  lemma OutIsUsed(code: Code, entry: nat, g: Cfg, b: nat, v: nat)
    requires WellFormedCode(code, entry) && Placed(code, entry, g) && Traces(code, g)
    requires b < |g.first| && v in FullOuts(code, g)[b]
    ensures exists q :: TracesStep(code, End(g, b), q) && UsedFrom(code, q, v)
  {
    var c :| c in g.children[b] && c < |g.first| && v in FullIns(code, g)[c];
    var path :| Carries(g.children, Uses(code, g), Defs(code, g), c, v, path);
    hide Traces, FullIns, FullOuts, Carries, WellFormed, UsedFrom, TracesStep;
    CarriedIsUsed(code, g, c, v, path);
    EndFollows(code, g, b, c);
  }

  lemma LeavesBlock(code: Code, p: nat, end: nat, v: nat)
    requires p <= end < |code| && !IsJump(code[p]) && forall r :: 0 <= r < |code| ==> WellFormed(code[r])
    requires forall r :: p + 1 <= r <= end ==> !SetsId(code[r], v)
    requires exists q :: TracesStep(code, end, q) && UsedFrom(code, q, v)
    ensures UsedAlong(code, p + 1, v)
  {
    hide *;
    var q :| TracesStep(code, end, q) && UsedFrom(code, q, v);
    if p < end {
      StepBack(code, end, q, v);
      BackFrom(code, p + 1, end, v);
      FromNext(code, p, v);
    } else {
      StepAhead(code, p, q, v);
    }
  }

  lemma FromNext(code: Code, p: nat, v: nat)
    requires UsedFrom(code, p + 1, v) && p < |code| && !IsJump(code[p])
    ensures UsedAlong(code, p + 1, v)
  {
    hide UsedAlong;
  }

  lemma StepAhead(code: Code, p: nat, q: nat, v: nat)
    requires TracesStep(code, p, q) && UsedFrom(code, q, v) && !IsJump(code[p])
    ensures UsedAlong(code, p + 1, v)
  {
    hide UsedAlong;
  }

  // ---------------------------------------------------------------- used ids are live

  /** What is used along a way is live before it. */
  lemma {:induction false} UsedIsLive(
      code: Code, entry: nat, g: Cfg, ins: seq<set<nat>>, outs: seq<set<nat>>, p: nat, v: nat, path: seq<nat>)
    requires WellFormedCode(code, entry) && Placed(code, entry, g) && Covers(code, entry, g)
    requires LivenessSolution(code, g, ins, outs) && |outs| == |g.first|
    requires entry <= p && IsWay(code, p, v, path)
    ensures p < |code| && v in LiveIn(code, entry, g, outs, p)
    decreases |path|
  {
    hide *;
    UsedNext(code, p, v, path);
    if |path| > 1 {
      var q := path[1];
      LeadsOn(code, entry, p, q);
      UsedIsLive(code, entry, g, ins, outs, q, v, path[1..]);
      SuccessorIsLive(code, entry, g, ins, outs, p, q);
    }
    LiveBeforeUse(code, entry, g, outs, p, v);
  }

  lemma LeadsOn(code: Code, entry: nat, p: nat, q: nat)
    requires WellFormedCode(code, entry) && entry <= p < |code| && MayLead(code, p, q)
    ensures entry <= q && (q == p + 1 || (IsJump(code[p]) && !code[p].dead && q == code[p].jumpTo))
  {
    hide WellFormed;
  }

  lemma LiveBeforeUse(code: Code, entry: nat, g: Cfg, outs: seq<set<nat>>, p: nat, v: nat)
    requires WellFormedCode(code, entry) && Placed(code, entry, g) && |outs| == |g.first| && entry <= p < |code|
    ensures UsesId(code[p], v) ==> v in LiveIn(code, entry, g, outs, p)
    ensures !SetsId(code[p], v) && v in LiveAfter(code, entry, g, outs, p) ==> v in LiveIn(code, entry, g, outs, p)
  {
    UsesAndSets(code[p], v);
    assert g.first[g.blockOf[p].value] <= p <= End(g, g.blockOf[p].value);
    hide UsesId, SetsId, UsedIds, DefinedIds, WellFormed;
  }

  /** What is used along a way from the next instruction is live behind this one. */
  lemma UsedIsLiveAfter(
      code: Code, entry: nat, g: Cfg, ins: seq<set<nat>>, outs: seq<set<nat>>, p: nat, v: nat)
    requires WellFormedCode(code, entry) && Placed(code, entry, g) && Covers(code, entry, g)
    requires LivenessSolution(code, g, ins, outs) && |outs| == |g.first|
    requires entry <= p < |code| && UsedAlong(code, p + 1, v)
    ensures v in LiveAfter(code, entry, g, outs, p)
  {
    var path :| IsWay(code, p + 1, v, path);
    hide *;
    UsedIsLive(code, entry, g, ins, outs, p + 1, v, path);
    SuccessorIsLive(code, entry, g, ins, outs, p, p + 1);
  }

  /** An id is live behind an instruction that is no test exactly if it is used along a way from the next one. */
  lemma LiveExactly(code: Code, entry: nat, g: Cfg, p: nat, v: nat)
    requires WellFormedCode(code, entry) && Placed(code, entry, g) && Covers(code, entry, g) && Traces(code, g)
    requires entry <= p < |code| && !IsJump(code[p])
    ensures v in LiveAfter(code, entry, g, FullOuts(code, g), p) <==> UsedAlong(code, p + 1, v)
  {
    hide *;
    FullSolves(code, entry, g);
    if UsedAlong(code, p + 1, v) {
      UsedIsLiveAfter(code, entry, g, FullIns(code, g), FullOuts(code, g), p, v);
    }
    if v in LiveAfter(code, entry, g, FullOuts(code, g), p) {
      LiveIsUsed(code, entry, g, p, v);
    }
  }

  lemma FullSolves(code: Code, entry: nat, g: Cfg)
    requires Placed(code, entry, g)
    ensures GraphShape(code, g) && LivenessSolution(code, g, FullIns(code, g), FullOuts(code, g))
    ensures |FullOuts(code, g)| == |g.first|
  {
    FullIsExact(code, g);
  }

  // ---------------------------------------------------------------- ids and variables

  ghost predicate ReadsAsOperand(i: Instruction, x: Symbol) {
    && !i.dead && !(i.op == Assign && i.dest == i.src1)
    && i.op != Call && i.op != Enter && i.op != GlobalDeclaration && (i.src1 == Some(x) || i.src2 == Some(x))
  }

  /** The way leads to an instruction that reads `x`, and no other one on it has `x` as its destination. */
  ghost predicate IsReadingWay(code: Code, p: nat, x: Symbol, path: seq<nat>) {
    && 0 < |path| && path[0] == p
    && (forall k :: 0 <= k < |path| ==> path[k] < |code|)
    && (forall k :: 0 <= k < |path| - 1 ==>
          && MayLead(code, path[k], path[k + 1])
          && (code[path[k]].dead || IsNullAssignment(code[path[k]]) || code[path[k]].dest != Some(x)))
    && ReadsAsOperand(code[path[|path| - 1]], x)
  }

  ghost predicate ReadAlong(code: Code, p: nat, x: Symbol) {
    exists path :: IsReadingWay(code, p, x, path)
  }

  /** No other local variable that the code mentions has the id of `x`. */
  ghost predicate OwnId(code: Code, x: Symbol) {
    forall p, y ::
      (0 <= p < |code| && (code[p].dest == Some(y) || code[p].src1 == Some(y) || code[p].src2 == Some(y))
        && y.scope == Local && !y.isConstant && y.id == x.id) ==> y == x
  }

  /** A variable with an id of its own that holds no address is used as an id exactly where it is read. */
  lemma OwnIdIsRead(code: Code, p: nat, x: Symbol)
    requires OwnId(code, x) && x.scope == Local && !x.isConstant && x.typ != AddrType
    ensures UsedAlong(code, p, x.id) <==> ReadAlong(code, p, x)
  {
    forall q | 0 <= q < |code|
      ensures UsesId(code[q], x.id) <==> ReadsAsOperand(code[q], x)
      ensures SetsId(code[q], x.id) <==> !(code[q].dead || IsNullAssignment(code[q]) || code[q].dest != Some(x))
    {
      OwnInstruction(code, q, x);
    }
    hide UsesId, SetsId, ReadsAsOperand, OwnId, MayLead, IsNullAssignment;
    if path :| IsWay(code, p, x.id, path) {
      assert IsReadingWay(code, p, x, path);
    }
    if path :| IsReadingWay(code, p, x, path) {
      assert IsWay(code, p, x.id, path);
    }
  }

  lemma OwnInstruction(code: Code, q: nat, x: Symbol)
    requires OwnId(code, x) && x.scope == Local && !x.isConstant && x.typ != AddrType && q < |code|
    ensures UsesId(code[q], x.id) <==> ReadsAsOperand(code[q], x)
    ensures SetsId(code[q], x.id) <==> !(code[q].dead || IsNullAssignment(code[q]) || code[q].dest != Some(x))
  {
    var i := code[q];
    assert HasIdOf(i.src1, x.id) ==> i.src1 == Some(x);
    assert HasIdOf(i.src2, x.id) ==> i.src2 == Some(x);
    assert HasIdOf(i.dest, x.id) ==> i.dest == Some(x);
  }

  // ---------------------------------------------------------------- ids that are live without need

  /** x := 5; Param y. */
  function StoresAndPasses(x: Symbol, y: Symbol): Code {
    [Instruction(Enter, Plus, None, Some(FunctionName()), None, 0, false), Copy(x, Five()),
     Instruction(Param, Plus, None, Some(y), None, 0, false)]
  }

  /** A variable whose id is that of a formal counts as used where the formal is read. */
  lemma SharedIdIsUsed(x: Symbol, y: Symbol)
    requires x != y && x.id == y.id && y.scope == Local && !y.isConstant
    ensures UsedAlong(StoresAndPasses(x, y), 2, x.id) && !ReadAlong(StoresAndPasses(x, y), 2, x)
  {
    var code := StoresAndPasses(x, y);
    UsedHere(code, 2, x.id);
    if path :| IsReadingWay(code, 2, x, path) {
      assert |path| > 1 ==> MayLead(code, path[0], path[1]);
    }
  }

  /** x := 5; a Goto over the only instruction that reads x. */
  function JumpsOverRead(x: Symbol): Code {
    [Instruction(Enter, Plus, None, Some(FunctionName()), None, 0, false), Copy(x, Five()),
     Instruction(Goto, Plus, None, None, None, 4, false), Instruction(Param, Plus, None, Some(x), None, 0, false),
     Instruction(Label, Plus, None, None, None, 4, false)]
  }

  /** A value that control passes by counts as used, since the graph lets a Goto go on to the next instruction. */
  lemma PassedReadIsUsed(x: Symbol)
    requires x.scope == Local && !x.isConstant && x.typ != AddrType
    ensures UsedAlong(JumpsOverRead(x), 2, x.id) && !ReadLater(JumpsOverRead(x), 2, x)
  {
    var code := JumpsOverRead(x);
    UsedHere(code, 3, x.id);
    UsedThere(code, 2, 3, x.id);
    if path :| LeadsToRead(code, 2, x, path) {
      assert |path| > 1 && Leads(code, path[0], path[1]);
      assert |path| > 2 ==> Leads(code, path[1], path[2]);
    }
  }
}
