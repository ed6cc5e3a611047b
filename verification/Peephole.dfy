/** Peephole optimization (run_peephole_optimization, code_optimization.c). */
module Peephole {
  import opened Instructions
  import opened Semantics
  import opened Behaviour
  import opened ControlFlow
  import opened Liveness
  import opened ReadPaths
  import opened PeepholeRules
  import opened TemporaryBypass

  /** The instruction at `p` when the positions before `k` have been visited. */
  function Peepholed(code: Code, k: nat, p: nat): Instruction
    requires p < |code|
  {
    var i := code[p];
    var inverted := p < k && JumpsOverJump(code, p);
    i.(kind := if inverted then InvertedKind(i.kind) else i.kind,
       jumpTo := if inverted then code[p + 1].jumpTo else i.jumpTo,
       dest := if p + 1 < k && p + 1 < |code| && Bypasses(code, p + 1) then code[p + 1].dest else i.dest,
       dead := i.dead || (p < k && (JumpsToNext(code, p) || Dies(code, p)))
         || (0 < p <= k && JumpsOverJump(code, p - 1)))
  }

  /** The list when the positions before `k` have been visited. */
  function UpTo(code: Code, k: nat): (r: Code)
    ensures |r| == |code|
    ensures forall p :: 0 <= p < |code| ==> r[p] == Peepholed(code, k, p)
  {
    seq(|code|, p requires 0 <= p < |code| => Peepholed(code, k, p))
  }

  // ---------------------------------------------------------------- what the pass needs

  /**
   * A temporary may be bypassed if the instruction that computes it does not die, its type loses nothing
   * and its value is not read again.
   */
  ghost predicate BypassAllowed(code: Code, p: nat)
    requires p < |code| && Bypasses(code, p)
  {
    var x, d := code[p].src1.value, code[p].dest.value;
    && x.scope == Local && TypesFit(code[p - 1], x, d) && !ReadLater(code, p + 1, x) && !Dies(code, p - 1)
  }

  /** No pass has marked an instruction yet. */
  ghost predicate NothingDead(code: Code) {
    forall p :: 0 <= p < |code| ==> !code[p].dead
  }

  /** The conditions under which the pass preserves every run. */
  ghost predicate Allowed(code: Code, entry: nat) {
    && WellFormedCode(code, entry)
    && NothingDead(code)
    && (forall p :: 0 <= p < |code| && !IsNullAssignment(code[p]) ==>
          && (Repeats(code, p) ==> Overwrites(code[p], code[p + 1]))
          && (Bypasses(code, p) ==> BypassAllowed(code, p)))
  }

  // ---------------------------------------------------------------- the pass in three stages

  /** Null and repeated assignments before `k` are dead. */
  function WithoutRepeats(code: Code, k: nat): (r: Code)
    ensures |r| == |code|
    ensures forall p :: 0 <= p < |code| ==>
              r[p] == code[p].(dead := code[p].dead || (p < k && (IsNullAssignment(code[p]) || Repeats(code, p))))
  {
    seq(|code|, p requires 0 <= p < |code| =>
      code[p].(dead := code[p].dead || (p < k && (IsNullAssignment(code[p]) || Repeats(code, p)))))
  }

  function JumpTreated(code: Code, k: nat, p: nat): Instruction
    requires p < |code|
  {
    var inverted := p < k && JumpsOverJump(code, p);
    code[p].(kind := if inverted then InvertedKind(code[p].kind) else code[p].kind,
             jumpTo := if inverted then code[p + 1].jumpTo else code[p].jumpTo,
             dead := code[p].dead || (p < k && JumpsToNext(code, p)) || (0 < p <= k && JumpsOverJump(code, p - 1)))
  }

  /** Jumps before `k` are treated. */
  function WithJumpsTreated(code: Code, k: nat): (r: Code)
    ensures |r| == |code|
    ensures forall p :: 0 <= p < |code| ==> r[p] == JumpTreated(code, k, p)
  {
    seq(|code|, p requires 0 <= p < |code| => JumpTreated(code, k, p))
  }

  /** What the pass does as it goes is what the three stages do one after the other. */
  lemma PassIsStages(code: Code)
    ensures var n := |code|; UpTo(code, n) == WithJumpsTreated(Bypassed(WithoutRepeats(code, n)), n)
  {
    var n := |code|;
    var a := WithoutRepeats(code, n);
    var b := Bypassed(a);
    forall p | 0 <= p < n ensures Peepholed(code, n, p) == JumpTreated(b, n, p) {
      assert b[p] == BypassedAt(a, p);
      assert p + 1 < n ==> b[p + 1] == BypassedAt(a, p + 1);
      assert 0 < p ==> b[p - 1] == BypassedAt(a, p - 1);
    }
  }

  // The first stage

  lemma RepeatsWellFormed(code: Code, entry: nat, k: nat)
    requires WellFormedCode(code, entry)
    ensures WellFormedCode(WithoutRepeats(code, k), entry)
  {
  }

  lemma RepeatVisited(m: Machine, code: Code, entry: nat, k: nat)
    requires m.Valid() && Allowed(code, entry) && k < |code|
    ensures SameBehaviour(m, WithoutRepeats(code, k), WithoutRepeats(code, k + 1), entry)
  {
    var c, c' := WithoutRepeats(code, k), WithoutRepeats(code, k + 1);
    RepeatsWellFormed(code, entry, k);
    if IsNullAssignment(code[k]) {
      assert c' == c[k := c[k].(dead := true)];
      IdleDies(m, c, entry, k);
    } else if Repeats(code, k) {
      assert c' == c[k := c[k].(dead := true)];
      RepeatDies(m, c, entry, k);
    } else {
      assert c' == c;
      StaysTheSame(m, c, entry);
    }
  }

  lemma StaysTheSame(m: Machine, code: Code, entry: nat)
    ensures SameBehaviour(m, code, code, entry)
  {
  }

  lemma NothingVisited(code: Code)
    ensures WithoutRepeats(code, 0) == code && WithJumpsTreated(code, 0) == code
  {
  }

  lemma {:induction false} RepeatsBehave(m: Machine, code: Code, entry: nat, k: nat)
    requires m.Valid() && Allowed(code, entry) && k <= |code|
    ensures SameBehaviour(m, code, WithoutRepeats(code, k), entry)
  {
    hide *;
    if k == 0 {
      NothingVisited(code);
      StaysTheSame(m, code, entry);
    } else {
      RepeatsBehave(m, code, entry, k - 1);
      RepeatVisited(m, code, entry, k - 1);
      SameBehaviourTransitive(m, code, WithoutRepeats(code, k - 1), WithoutRepeats(code, k), entry);
    }
  }

  // The second stage

  /**
   * The instruction after a repeated assignment overwrites the destination without reading it, or is a
   * repeated assignment itself.
   */
  lemma AfterRepeated(code: Code, entry: nat, p: nat, x: Symbol)
    requires Allowed(code, entry) && p < |code| && Repeats(code, p) && !IsNullAssignment(code[p])
    requires RedefinesVariable(code[p]) && code[p].dest == Some(x)
    ensures var i := WithoutRepeats(code, |code|)[p + 1];
      && code[p + 1].op != Goto && code[p + 1].op != If && !ReadsVariable(i, x)
      && (ChangesVariable(i, x) ||
          (Repeats(code, p + 1) && !IsNullAssignment(code[p + 1]) && RedefinesVariable(code[p + 1])
            && code[p + 1].dest == Some(x)))
  {
    assert WellFormed(code[p]) && WellFormed(code[p + 1]) && Overwrites(code[p], code[p + 1]);
  }

  lemma RestLeads(code: Code, p: nat, x: Symbol, path: seq<nat>)
    requires LeadsToRead(code, p, x, path) && |path| > 1
    ensures LeadsToRead(code, path[1], x, path[1..])
  {
  }

  /** What a repeated assignment writes is not read: the instructions after it overwrite it first. */
  lemma {:induction false} OverwrittenNotRead(code: Code, entry: nat, p: nat, x: Symbol, path: seq<nat>)
    requires Allowed(code, entry) && p < |code| && Repeats(code, p) && !IsNullAssignment(code[p])
    requires RedefinesVariable(code[p]) && code[p].dest == Some(x)
    ensures !LeadsToRead(WithoutRepeats(code, |code|), p + 1, x, path)
    decreases |path|
  {
    var a := WithoutRepeats(code, |code|);
    AfterRepeated(code, entry, p, x);
    hide Allowed, WellFormed, ReadsVariable, ChangesVariable;
    if LeadsToRead(a, p + 1, x, path) && |path| > 1 {
      assert Leads(a, path[0], path[1]) && !ChangesVariable(a[path[0]], x);
      OverwrittenNotRead(code, entry, p + 1, x, path[1..]);
      RestLeads(a, p + 1, x, path);
    }
  }

  /** What is read later after the first stage was read later before it. */
  lemma {:induction false} ReadBefore(code: Code, entry: nat, q: nat, x: Symbol, path: seq<nat>)
    requires Allowed(code, entry) && LeadsToRead(WithoutRepeats(code, |code|), q, x, path)
    ensures LeadsToRead(code, q, x, path)
    decreases |path|
  {
    var a := WithoutRepeats(code, |code|);
    if |path| > 1 {
      var rest := path[1..];
      assert LeadsToRead(a, path[1], x, rest);
      ReadBefore(code, entry, path[1], x, rest);
      assert WellFormed(code[q]);
      if ChangesVariable(code[q], x) {
        assert Repeats(code, q) && path[1] == q + 1;
        OverwrittenNotRead(code, entry, q, x, rest);
      }
      forall k | 0 <= k < |path| - 1
        ensures Leads(code, path[k], path[k + 1]) && !ChangesVariable(code[path[k]], x) {
        assert Leads(a, path[k], path[k + 1]);
        if k > 0 {
          assert Leads(code, rest[k - 1], rest[k]) && !ChangesVariable(code[rest[k - 1]], x);
        }
      }
      assert rest[|rest| - 1] == path[|path| - 1];
    }
  }

  lemma StageIsBypassable(code: Code, entry: nat)
    requires Allowed(code, entry)
    ensures Bypassable(WithoutRepeats(code, |code|), entry)
  {
    var a := WithoutRepeats(code, |code|);
    RepeatsWellFormed(code, entry, |code|);
    forall p | 0 <= p < |a| && PassesOn(a, p) ensures CanPassOn(a, p) {
      StillCanPassOn(code, entry, p);
    }
  }

  lemma StillCanPassOn(code: Code, entry: nat, p: nat)
    requires Allowed(code, entry) && p < |code| && PassesOn(WithoutRepeats(code, |code|), p)
    ensures CanPassOn(WithoutRepeats(code, |code|), p)
  {
    hide *;
    PassedOnBefore(code, entry, p);
    var a, x := WithoutRepeats(code, |code|), code[p].src1.value;
    if ReadLater(a, p + 1, x) {
      var path := WayToRead(a, p + 1, x);
      ReadBefore(code, entry, p + 1, x, path);
      WayIsRead(code, p + 1, x, path);
    }
  }

  lemma PassedOnBefore(code: Code, entry: nat, p: nat)
    requires Allowed(code, entry) && p < |code| && PassesOn(WithoutRepeats(code, |code|), p)
    ensures code[p].src1.Some? && !ReadLater(code, p + 1, code[p].src1.value)
    ensures !ReadLater(WithoutRepeats(code, |code|), p + 1, code[p].src1.value) ==>
              CanPassOn(WithoutRepeats(code, |code|), p)
  {
    assert Bypasses(code, p) && BypassAllowed(code, p) && WellFormed(code[p]);
    hide ReadLater, WellFormed;
    if Repeats(code, p) {
      assert ReadsVariable(code[p + 1], code[p].src1.value);
      ReadHere(code, p + 1, code[p].src1.value);
    }
  }

  lemma WayToRead(code: Code, p: nat, x: Symbol) returns (path: seq<nat>)
    requires ReadLater(code, p, x)
    ensures LeadsToRead(code, p, x, path)
  {
    path :| LeadsToRead(code, p, x, path);
  }

  lemma WayIsRead(code: Code, p: nat, x: Symbol, path: seq<nat>)
    requires LeadsToRead(code, p, x, path)
    ensures ReadLater(code, p, x)
  {
  }

  // The third stage

  lemma BypassedWellFormed(code: Code, entry: nat)
    requires WellFormedCode(code, entry)
    ensures WellFormedCode(Bypassed(code), entry)
  {
    var b := Bypassed(code);
    forall p | 0 <= p < |code| ensures WellFormed(b[p]) && b[p].op == code[p].op && b[p].jumpTo == code[p].jumpTo {
      assert WellFormed(code[p]) && b[p] == BypassedAt(code, p);
      assert p + 1 < |code| ==> WellFormed(code[p + 1]);
    }
  }

  lemma JumpsWellFormed(code: Code, entry: nat, k: nat)
    requires WellFormedCode(code, entry)
    ensures WellFormedCode(WithJumpsTreated(code, k), entry)
  {
    var c := WithJumpsTreated(code, k);
    forall p | 0 <= p < |code| ensures WellFormed(c[p]) && c[p].op == code[p].op {
      assert WellFormed(code[p]) && c[p] == JumpTreated(code, k, p);
    }
  }

  lemma JumpVisitChanges(code: Code, k: nat)
    requires k < |code|
    ensures var c := WithJumpsTreated(code, k);
      WithJumpsTreated(code, k + 1) ==
        if JumpsToNext(code, k) then c[k := c[k].(dead := true)] else if JumpsOverJump(code, k) then Inverted(c,
          k) else c
    ensures var c := WithJumpsTreated(code, k);
      && (JumpsToNext(c, k) <==> JumpsToNext(code, k)) && (JumpsOverJump(c, k) <==> JumpsOverJump(code, k))
      && (JumpsOverJump(code, k) ==> c[k].dead == code[k].dead && c[k + 1].dead == code[k + 1].dead)
  {
    var c, c' := WithJumpsTreated(code, k), WithJumpsTreated(code, k + 1);
    forall p | 0 <= p < |code| ensures c[p] == JumpTreated(code, k, p) && c'[p] == JumpTreated(code, k + 1, p) {
    }
  }

  lemma JumpVisited(m: Machine, code: Code, entry: nat, k: nat)
    requires m.Valid() && WellFormedCode(code, entry) && k < |code|
    requires forall p :: 0 <= p < |code| && IsJump(code[p]) ==> !code[p].dead
    ensures SameBehaviour(m, WithJumpsTreated(code, k), WithJumpsTreated(code, k + 1), entry)
  {
    var c := WithJumpsTreated(code, k);
    JumpsWellFormed(code, entry, k);
    JumpVisitChanges(code, k);
    if JumpsToNext(code, k) {
      hide JumpTreated, WellFormedCode;
      IdleDies(m, c, entry, k);
    } else if JumpsOverJump(code, k) {
      hide JumpTreated;
      assert WellFormed(c[k]) && WellFormed(c[k + 1]) && entry < k;
      assert Invertible(c, k);
      InversionBehaves(m, c, entry, k);
    } else {
      StaysTheSame(m, c, entry);
    }
  }

  lemma {:induction false} JumpsBehave(m: Machine, code: Code, entry: nat, k: nat)
    requires m.Valid() && WellFormedCode(code, entry) && k <= |code|
    requires forall p :: 0 <= p < |code| && IsJump(code[p]) ==> !code[p].dead
    ensures SameBehaviour(m, code, WithJumpsTreated(code, k), entry)
  {
    hide *;
    if k == 0 {
      NothingVisited(code);
      StaysTheSame(m, code, entry);
    } else {
      JumpsBehave(m, code, entry, k - 1);
      JumpVisited(m, code, entry, k - 1);
      SameBehaviourTransitive(m, code, WithJumpsTreated(code, k - 1), WithJumpsTreated(code, k), entry);
    }
  }

  /** The pass preserves what every run of the function shows. */
  lemma PeepholeBehaves(m: Machine, code: Code, entry: nat)
    requires m.Valid() && m.IntIsWidest() && Allowed(code, entry)
    ensures SameBehaviour(m, code, UpTo(code, |code|), entry)
  {
    var n := |code|;
    var a := WithoutRepeats(code, n);
    var b := Bypassed(a);
    RepeatsBehave(m, code, entry, n);
    StageIsBypassable(code, entry);
    BypassBehaves(m, a, entry);
    BypassedWellFormed(a, entry);
    assert forall p :: 0 <= p < n && IsJump(b[p]) ==> !b[p].dead;
    hide SameBehaviour, Allowed, Bypassable;
    JumpsBehave(m, b, entry, n);
    SameBehaviourTransitive(m, code, a, b, entry);
    SameBehaviourTransitive(m, code, b, WithJumpsTreated(b, n), entry);
    PassIsStages(code);
  }

  // ---------------------------------------------------------------- what the pass must do

  /** An assignment of the temporary that the instruction before it computes, to something that is no address. */
  ghost predicate TakesTemporary(code: Code, p: nat)
    requires p < |code|
  {
    && code[p].op == Assign && 0 < p && code[p].src1.Some? && code[p].src1.value.isTemporary
    && code[p - 1].dest == code[p].src1 && code[p].dest.Some? && code[p].dest.value.typ != AddrType
  }

  /** A test that jumps over the Goto behind it. */
  ghost predicate TestsAroundGoto(code: Code, p: nat)
    requires p < |code|
  {
    code[p].op == If && p + 2 < |code| && code[p + 1].op == Goto && code[p].jumpTo == p + 2
  }

  /** Which instructions are dead afterwards. */
  ghost predicate DiesByRule(code: Code, p: nat)
    requires p < |code|
  {
    // a Goto to the next instruction
    || (code[p].op == Goto && p + 1 < |code| && code[p].jumpTo == p + 1)
    // the assignment of a variable to itself
    || (code[p].op == Assign && code[p].dest == code[p].src1)
    // an assignment in front of an instruction with the same destination and the same first operand
    || (code[p].op == Assign && p + 1 < |code| && code[p].dest == code[p + 1].dest && code[p].src1 == code[p + 1].src1)
    || TakesTemporary(code, p)
    || (0 < p && TestsAroundGoto(code, p - 1))
  }

  ghost predicate RulesAppliedAt(code: Code, code': Code, p: nat)
    requires p < |code| == |code'|
  {
    && (code'[p].dead <==> code[p].dead || DiesByRule(code, p))
    && code'[p].dest == (if p + 1 < |code| && TakesTemporary(code, p + 1) then code[p + 1].dest else code[p].dest)
    && code'[p].kind == (if TestsAroundGoto(code, p) then InvertedKind(code[p].kind) else code[p].kind)
    && code'[p].jumpTo == (if TestsAroundGoto(code, p) then code[p + 1].jumpTo else code[p].jumpTo)
    && code'[p].op == code[p].op && code'[p].src1 == code[p].src1 && code'[p].src2 == code[p].src2
  }

  /** Every rule has been applied wherever the list before the pass calls for it, and nothing else has changed. */
  ghost predicate RulesApplied(code: Code, code': Code) {
    |code'| == |code| && forall p :: 0 <= p < |code| ==> RulesAppliedAt(code, code', p)
  }

  lemma PassAppliesRules(code: Code)
    ensures RulesApplied(code, UpTo(code, |code|))
  {
    var code' := UpTo(code, |code|);
    forall p | 0 <= p < |code| ensures RulesAppliedAt(code, code', p) {
      assert code'[p] == Peepholed(code, |code|, p);
    }
  }

  // ---------------------------------------------------------------- the pass

  /** What a visit finds: the instruction and the next one as at the start, the one before with its old destination. */
  lemma VisitFinds(code: Code, k: nat)
    requires k < |code|
    ensures var c := UpTo(code, k);
      && c[k] == code[k].(dead := c[k].dead)
      && (k + 1 < |code| ==> c[k + 1] == code[k + 1])
      && (0 < k ==> c[k - 1].dest == code[k - 1].dest)
      && (JumpsToNext(c, k) <==> JumpsToNext(code, k)) && (JumpsOverJump(c, k) <==> JumpsOverJump(code, k))
      && (Repeats(c, k) <==> Repeats(code, k)) && (Bypasses(c, k) <==> Bypasses(code, k))
  {
  }

  /** What a visit changes. */
  ghost function Visited(c: Code, k: nat): Code
    requires k < |c|
  {
    if JumpsToNext(c, k) then c[k := c[k].(dead := true)]
    else if JumpsOverJump(c, k) then Inverted(c, k)
    else if Bypasses(c, k) then c[k - 1 := c[k - 1].(dest := c[k].dest)][k := c[k].(dead := true)]
    else if Dies(c, k) then c[k := c[k].(dead := true)]
    else c
  }

  lemma VisitChanges(code: Code, k: nat)
    requires k < |code|
    ensures UpTo(code, k + 1) == Visited(UpTo(code, k), k)
  {
    VisitFinds(code, k);
    var c, c' := UpTo(code, k), Visited(UpTo(code, k), k);
    assert |c'| == |code|;
    forall p | 0 <= p < |code| ensures c'[p] == Peepholed(code, k + 1, p) {
      assert c[p] == Peepholed(code, k, p);
    }
  }

  lemma UpToWellFormed(code: Code, entry: nat, k: nat)
    requires WellFormedCode(code, entry)
    ensures WellFormedCode(UpTo(code, k), entry)
  {
    var c := UpTo(code, k);
    forall p | 0 <= p < |code| ensures WellFormed(c[p]) && c[p].op == code[p].op {
      PeepholedWellFormed(code, entry, k, p);
    }
    forall p | 0 <= p < |code| && IsJump(c[p]) ensures entry < c[p].jumpTo < |c| && c[c[p].jumpTo].op == Label {
    }
  }

  lemma PeepholedWellFormed(code: Code, entry: nat, k: nat, p: nat)
    requires WellFormedCode(code, entry) && p < |code|
    ensures WellFormed(Peepholed(code, k, p)) && Peepholed(code, k, p).op == code[p].op
  {
    assert WellFormed(code[p]);
    if p + 1 < |code| {
      assert WellFormed(code[p + 1]);
    }
  }

  /** Visits every instruction once, from the first to the last. */
  method RunPeepholeOptimization(code: array<Instruction>, ghost entry: nat)
    requires WellFormedCode(code[..], entry)
    modifies code
    ensures code[..] == UpTo(old(code[..]), code.Length)
    ensures RulesApplied(old(code[..]), code[..])
  {
    ghost var before := code[..];
    PassAppliesRules(before);
    hide RulesApplied;
    assert UpTo(before, 0) == before;
    var k := 0;
    while k < code.Length
      invariant 0 <= k <= code.Length && code[..] == UpTo(before, k)
    {
      UpToWellFormed(before, entry, k);
      VisitChanges(before, k);
      Visit(code, k, entry);
      k := k + 1;
    }
  }

  method Visit(code: array<Instruction>, k: nat, ghost entry: nat)
    requires k < code.Length && WellFormedCode(code[..], entry)
    modifies code
    ensures code[..] == Visited(old(code[..]), k)
  {
    assert WellFormed(code[k]);
    var i := code[k];
    if i.op == Goto {
      if k + 1 < code.Length && i.jumpTo == k + 1 {
        code[k] := i.(dead := true);
      }
    } else if i.op == If {
      if k + 2 < code.Length && code[k + 1].op == Goto && i.jumpTo == k + 2 {
        code[k] := i.(kind := InvertedKind(i.kind), jumpTo := code[k + 1].jumpTo);
        code[k + 1] := code[k + 1].(dead := true);
      }
    } else if i.op == Assign {
      VisitAssignment(code, k);
    }
  }

  method VisitAssignment(code: array<Instruction>, k: nat)
    requires k < code.Length && code[k].op == Assign && WellFormed(code[k])
    modifies code
    ensures code[..] == Visited(old(code[..]), k)
  {
    var i := code[k];
    if i.dest == i.src1 {
      code[k] := code[k].(dead := true);
    }
    if k + 1 < code.Length && i.dest == code[k + 1].dest && i.src1 == code[k + 1].src1 {
      code[k] := code[k].(dead := true);
    }
    if 0 < k && i.dest.value.typ != AddrType && i.src1 == code[k - 1].dest && i.src1.value.isTemporary {
      code[k - 1] := code[k - 1].(dest := i.dest);
      code[k] := code[k].(dead := true);
    }
  }

  // ---------------------------------------------------------------- what later passes need

  /** The graph made before the pass still accounts for every way control can pass. */
  lemma PeepholeKeepsCovers(code: Code, entry: nat, g: Cfg)
    requires WellFormedCode(code, entry) && NothingDead(code) && Placed(code, entry, g) && Covers(code, entry, g)
    ensures var code' := UpTo(code, |code|); Placed(code', entry, g) && Covers(code', entry, g)
  {
    var code' := UpTo(code, |code|);
    forall p | 0 <= p < |code| ensures WellFormed(code'[p]) && code'[p].op == code[p].op {
      PeepholedWellFormed(code, entry, |code|, p);
    }
    assert Placed(code', entry, g);
    forall p | entry <= p < |code| ensures CoversFall(code', g, p) && CoversJump(code', g, p) {
      assert CoversFall(code, g, p) && CoversJump(code, g, p);
      if IsJump(code[p]) && JumpsOverJump(code, p) {
        DetourAppears(code, entry, g, p);
      }
    }
  }

  lemma DetourAppears(code: Code, entry: nat, g: Cfg, p: nat)
    requires WellFormedCode(code, entry) && NothingDead(code) && Placed(code, entry, g) && Covers(code, entry, g)
    requires entry <= p < |code| && JumpsOverJump(code, p)
    ensures CoversJump(UpTo(code, |code|), g, p)
  {
    assert CoversFall(code, g, p) && CoversJump(code, g, p) && CoversJump(code, g, p + 1);
    LastOfBlock(code, entry, g, p + 1);
    assert DetourAround(UpTo(code, |code|), g, p, code[p + 1].jumpTo);
  }

  /** A variable that the code assigns after the pass is one that it assigned before. */
  lemma PeepholedDestination(code: Code, entry: nat, p: nat) returns (q: nat)
    requires WellFormedCode(code, entry) && p < |code| && RedefinesVariable(Peepholed(code, |code|, p))
    ensures q < |code| && RedefinesVariable(code[q]) && code[q].dest == Peepholed(code, |code|, p).dest
  {
    assert WellFormed(code[p]);
    q := if p + 1 < |code| && Bypasses(code, p + 1) then p + 1 else p;
    assert q < |code| ==> WellFormed(code[q]);
  }

  lemma PeepholeKeepsIds(code: Code, entry: nat)
    requires WellFormedCode(code, entry) && DistinctAssignedIds(code)
    ensures DistinctAssignedIds(UpTo(code, |code|))
  {
    var code' := UpTo(code, |code|);
    forall p, q | 0 <= p < |code| && 0 <= q < |code| && RedefinesVariable(code'[p]) && RedefinesVariable(code'[q])
      && IsLocal(code'[p].dest) && IsLocal(code'[q].dest)
      ensures IdsApart(code'[p].dest.value, code'[q].dest.value)
    {
      var p' := PeepholedDestination(code, entry, p);
      var q' := PeepholedDestination(code, entry, q);
    }
  }
}
