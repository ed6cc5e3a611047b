/**
 * Which variables may be read before they are assigned: the passes add none. Control is followed as it really
 * goes, not along every edge of the graph.
 */
module FirstReads {
  import opened Instructions
  import opened ControlFlow
  import opened Liveness
  import opened ReadPaths
  import opened PeepholeRules
  import opened TemporaryBypass
  import opened Peephole
  import opened CopyPropagation

  // ---------------------------------------------------------------- temporaries that are bypassed

  /** The first instruction of a pair and the copy behind it, before and after. */
  lemma PairInstructions(code: Code, entry: nat, q: nat)
    requires Bypassable(code, entry) && q + 1 < |code| && PassesOn(code, q + 1)
    ensures var i, j, c := code[q], code[q + 1], Bypassed(code);
      && i.dest.Some? && j.op == Assign && j.dest.Some? && j.src1 == i.dest && !i.dead && !j.dead && !IsSkipped(i)
      && i.dest.value.typ != AddrType && j.dest.value.typ != AddrType && !ReadLater(code, q + 2, i.dest.value)
      && c[q] == i.(dest := j.dest) && c[q + 1].dead && WellFormed(i) && WellFormed(j)
      && i.dest.value.scope == Local && !PassesOn(code, q)
      && (q + 2 < |code| ==> !PassesOn(code, q + 2))
  {
    assert CanPassOn(code, q + 1);
    assert Bypassed(code)[q] == BypassedAt(code, q) && Bypassed(code)[q + 1] == BypassedAt(code, q + 1);
    assert q + 2 < |code| && PassesOn(code, q + 2) ==> CanPassOn(code, q + 2);
  }

  /** Control comes to the second instruction of a pair from the first one only. */
  lemma PairEntered(code: Code, entry: nat, p: nat, q: nat)
    requires WellFormedCode(code, entry) && p < |code| && Leads(code, p, q) && q < |code| && PassesOn(code, q)
    ensures q == p + 1
  {
    assert IsJump(code[p]) ==> code[code[p].jumpTo].op == Label;
  }

  lemma OutsideOfPairs(code: Code, entry: nat, q: nat)
    requires Bypassable(code, entry) && q < |code| && !PassesOn(code, q)
    requires q + 1 < |code| ==> !PassesOn(code, q + 1)
    ensures Bypassed(code)[q] == code[q]
  {
    assert Bypassed(code)[q] == BypassedAt(code, q);
  }

  lemma {:induction false} BypassReads(code: Code, entry: nat, q: nat, x: Symbol, path: seq<nat>)
    requires Bypassable(code, entry) && q < |code| && !PassesOn(code, q)
    requires LeadsToRead(Bypassed(code), q, x, path)
    ensures ReadLater(code, q, x)
    decreases |path|
  {
    if q + 1 < |code| && PassesOn(code, q + 1) {
      PairReads(code, entry, q, x, path);
    } else {
      OutsideOfPairs(code, entry, q);
      if |path| == 1 {
        WayEnds(Bypassed(code), q, x, path);
        ReadHere(code, q, x);
      } else {
        var next := path[1];
        WayOn(Bypassed(code), q, x, path);
        BypassableShape(code, entry);
        hide Bypassable, LeadsToRead, PassesOn, ReadLater, Bypassed, WellFormedCode;
        assert Leads(code, q, next);
        if next < |code| && PassesOn(code, next) {
          PairEntered(code, entry, q, next);
        }
        WayInside(Bypassed(code), next, x, path[1..]);
        BypassReads(code, entry, next, x, path[1..]);
        ReadThere(code, q, next, x);
      }
    }
  }

  lemma BypassableShape(code: Code, entry: nat)
    requires Bypassable(code, entry)
    ensures WellFormedCode(code, entry) && |Bypassed(code)| == |code|
  {
  }

  lemma {:induction false} PairReads(code: Code, entry: nat, q: nat, x: Symbol, path: seq<nat>)
    requires Bypassable(code, entry) && q + 1 < |code| && PassesOn(code, q + 1)
    requires LeadsToRead(Bypassed(code), q, x, path)
    ensures ReadLater(code, q, x)
    decreases |path|, 0
  {
    PairInstructions(code, entry, q);
    var c := Bypassed(code);
    if |path| == 1 {
      WayEnds(c, q, x, path);
      assert ReadsVariable(code[q], x);
      ReadHere(code, q, x);
    } else {
      WayOn(c, q, x, path);
      assert path[1] == q + 1;
      assert |path| > 2;
      WayOn(c, q + 1, x, path[1..]);
      var rest := path[1..][1..];
      assert path[1..][1] == q + 2;
      WayInside(c, q + 2, x, rest);
      BypassReads(code, entry, q + 2, x, rest);
      PairPassed(code, entry, q, x);
    }
  }

  /** What is read behind the pair is read from the pair on, unless the pair computes it. */
  lemma PairPassed(code: Code, entry: nat, q: nat, x: Symbol)
    requires Bypassable(code, entry) && q + 1 < |code| && PassesOn(code, q + 1) && ReadLater(code, q + 2, x)
    requires !ChangesVariable(Bypassed(code)[q], x)
    ensures ReadLater(code, q, x)
  {
    PairInstructions(code, entry, q);
    var i, j := code[q], code[q + 1];
    hide ReadLater, Bypassable, PassesOn;
    if j.dest == Some(x) {
      assert i.src1 == Some(x);
      ReadHere(code, q, x);
    } else {
      assert i.dest != Some(x);
      ReadThere(code, q + 1, q + 2, x);
      ReadThere(code, q, q + 1, x);
    }
  }

  // ---------------------------------------------------------------- jumps

  /** Jumps are alive, and the instruction at `q` is not the second one of a jump over a jump. */
  ghost predicate JumpsAlive(code: Code) {
    forall p :: 0 <= p < |code| && IsJump(code[p]) ==> !code[p].dead
  }

  predicate IsJumpedOver(code: Code, q: nat)
    requires q < |code|
  {
    0 < q && JumpsOverJump(code, q - 1)
  }

  lemma {:induction false} JumpReads(code: Code, entry: nat, q: nat, x: Symbol, path: seq<nat>)
    requires WellFormedCode(code, entry) && JumpsAlive(code) && q < |code| && !IsJumpedOver(code, q)
    requires LeadsToRead(WithJumpsTreated(code, |code|), q, x, path)
    ensures ReadLater(code, q, x)
    decreases |path|
  {
    hide *;
    var c := WithJumpsTreated(code, |code|);
    TreatedJump(code, entry, q, x);
    WayStarts(c, q, x, path);
    if |path| == 1 {
      WayEnds(c, q, x, path);
      ReadHere(code, q, x);
    } else {
      WayOn(c, q, x, path);
      var next := path[1];
      WayInside(c, next, x, path[1..]);
      TreatedLeads(code, entry, q, next);
      if JumpsOverJump(code, q) && next == q + 1 {
        DeadGoesOn(c, q + 1, x, path[1..]);
        WayOn(c, q + 1, x, path[1..]);
        var rest := path[1..][1..];
        WayInside(c, q + 2, x, rest);
        JumpReads(code, entry, q + 2, x, rest);
        ReadThere(code, q, q + 2, x);
      } else {
        JumpReads(code, entry, next, x, path[1..]);
        if JumpsOverJump(code, q) {
          ReadThere(code, q + 1, next, x);
          ReadThere(code, q, q + 1, x);
        } else {
          ReadThere(code, q, next, x);
        }
      }
    }
  }

  lemma DeadGoesOn(code: Code, p: nat, x: Symbol, path: seq<nat>)
    requires LeadsToRead(code, p, x, path) && p < |code| && code[p].dead
    ensures |path| > 1 && path[1] == p + 1
  {
    if |path| > 1 {
      assert Leads(code, path[0], path[1]);
    }
  }

  /** What a treated instruction reads and changes. */
  lemma TreatedJump(code: Code, entry: nat, q: nat, x: Symbol)
    requires WellFormedCode(code, entry) && JumpsAlive(code) && q < |code| && !IsJumpedOver(code, q)
    ensures var i, c := code[q], WithJumpsTreated(code, |code|);
      && (ReadsVariable(c[q], x) ==> ReadsVariable(i, x)) && (ChangesVariable(i, x) ==> ChangesVariable(c[q], x))
      && (JumpsOverJump(code, q) ==>
            q + 2 < |code| && c[q + 1].dead && !ChangesVariable(i, x) && !ChangesVariable(code[q + 1], x))
  {
    var c := WithJumpsTreated(code, |code|);
    assert c[q] == JumpTreated(code, |code|, q) && WellFormed(code[q]);
    if JumpsOverJump(code, q) {
      assert c[q + 1] == JumpTreated(code, |code|, q + 1) && WellFormed(code[q + 1]);
    }
  }

  /** Where a treated instruction leads: where the old one does, or over the jump behind it. */
  lemma TreatedLeads(code: Code, entry: nat, q: nat, next: nat)
    requires WellFormedCode(code, entry) && JumpsAlive(code) && q < |code| && !IsJumpedOver(code, q)
    requires Leads(WithJumpsTreated(code, |code|), q, next) && next < |code|
    ensures if JumpsOverJump(code, q)
            then
              && Leads(code, q, q + 2) && Leads(code, q, q + 1) && !IsJumpedOver(code, q + 2)
              && (next == q + 1 || (Leads(code, q + 1, next) && !IsJumpedOver(code, next)))
            else Leads(code, q, next) && !IsJumpedOver(code, next)
  {
    var c := WithJumpsTreated(code, |code|);
    assert c[q] == JumpTreated(code, |code|, q);
    assert IsJump(code[q]) ==> code[code[q].jumpTo].op == Label;
    if JumpsOverJump(code, q) {
      assert code[code[q + 1].jumpTo].op == Label;
    }
  }

  // ---------------------------------------------------------------- peephole optimization

  lemma PeepholeReads(code: Code, entry: nat)
    requires Allowed(code, entry)
    ensures NoNewReads(code, UpTo(code, |code|), entry)
  {
    forall x | IsLocal(Some(x)) && ReadLater(UpTo(code, |code|), entry, x) ensures ReadLater(code, entry, x) {
      PeepholeReadsOne(code, entry, x);
    }
  }

  lemma PeepholeReadsOne(code: Code, entry: nat, x: Symbol)
    requires Allowed(code, entry) && ReadLater(UpTo(code, |code|), entry, x)
    ensures ReadLater(code, entry, x)
  {
    hide *;
    var n := |code|;
    var a := WithoutRepeats(code, n);
    var b := Bypassed(a);
    PassIsStages(code);
    StageIsBypassable(code, entry);
    EntryIsPlain(code, entry);
    BypassedWellFormed(a, entry);
    var path1 := WayToRead(WithJumpsTreated(b, n), entry, x);
    JumpReads(b, entry, entry, x, path1);
    var path2 := WayToRead(b, entry, x);
    BypassReads(a, entry, entry, x, path2);
    var path3 := WayToRead(a, entry, x);
    ReadBefore(code, entry, entry, x, path3);
    WayIsRead(code, entry, x, path3);
  }

  lemma EntryIsPlain(code: Code, entry: nat)
    requires Allowed(code, entry)
    ensures var a := WithoutRepeats(code, |code|); var b := Bypassed(a);
      && |a| == |b| == |code| && entry < |code| && WellFormedCode(a, entry) && JumpsAlive(b)
      && !PassesOn(a, entry) && !IsJumpedOver(b, entry)
  {
    var a := WithoutRepeats(code, |code|);
    var b := Bypassed(a);
    RepeatsWellFormed(code, entry, |code|);
    forall p | 0 <= p < |b| && IsJump(b[p]) ensures !b[p].dead {
      assert b[p] == BypassedAt(a, p) && WellFormed(code[p]);
    }
    assert b[entry] == BypassedAt(a, entry);
    if 0 < entry {
      assert b[entry - 1] == BypassedAt(a, entry - 1);
    }
  }

  // ---------------------------------------------------------------- copy propagation

  /** A way that control goes from `p` to `q`. */
  ghost predicate GoesTo(code: Code, p: nat, q: nat, way: seq<nat>) {
    && 0 < |way| && way[0] == p && way[|way| - 1] == q
    && (forall k :: 0 <= k < |way| ==> way[k] < |code|)
    && (forall k :: 0 <= k < |way| - 1 ==> Leads(code, way[k], way[k + 1]))
  }

  /** No instruction on the way, but for the last one, changes `x`. */
  ghost predicate KeptOn(code: Code, way: seq<nat>, x: Symbol) {
    forall k :: 0 <= k < |way| - 1 ==> way[k] < |code| && !ChangesVariable(code[way[k]], x)
  }

  lemma WayBefore(code: Code, p: nat, q: nat, way: seq<nat>)
    requires GoesTo(code, p, q, way) && |way| > 1
    ensures GoesTo(code, p, way[|way| - 2], way[..|way| - 1]) && way[|way| - 2] < |code|
    ensures Leads(code, way[|way| - 2], q)
  {
    var n := |way| - 1;
    assert Leads(code, way[n - 1], way[n - 1 + 1]);
  }

  lemma KeptBefore(code: Code, way: seq<nat>, x: Symbol)
    requires KeptOn(code, way, x) && |way| > 1
    ensures KeptOn(code, way[..|way| - 1], x)
    ensures way[|way| - 2] < |code| && !ChangesVariable(code[way[|way| - 2]], x)
  {
  }

  /** What is read at the end of a way on which it is kept is read from its start on. */
  lemma ReadAtEnd(code: Code, p: nat, q: nat, way: seq<nat>, x: Symbol)
    requires GoesTo(code, p, q, way) && KeptOn(code, way, x) && ReadsVariable(code[q], x)
    ensures ReadLater(code, p, x)
  {
    assert LeadsToRead(code, p, x, way);
  }

  /** Where control goes on, the links are those after the instruction, or there are none. */
  lemma LinksGoOn(code: Code, entry: nat, g: Cfg, p: nat, q: nat)
    requires Propagatable(code, entry, g) && p < |code| && Leads(code, p, q) && q < |code|
    ensures LinksBefore(code, entry, g, q) == map[] || LinksBefore(code, entry, g, q) ==
              LinksAfter(LinksBefore(code, entry, g, p), code[p])
  {
    hide LinksAt;
    if q <= entry || IsFirst(g.blockOf, g.first, q) {
      StartLinks(code, entry, g, q);
    } else {
      assert p < entry || (CoversFall(code, g, p) && CoversJump(code, g, p));
      assert q == p + 1 && entry <= p;
      InsideOfBlock(code, entry, g, p);
    }
  }

  lemma InsideOfBlock(code: Code, entry: nat, g: Cfg, p: nat)
    requires Propagatable(code, entry, g) && entry <= p && p + 1 < |code| && !IsFirst(g.blockOf, g.first, p + 1)
    requires CoversFall(code, g, p)
    ensures LinksBefore(code, entry, g, p + 1) == LinksAfter(LinksBefore(code, entry, g, p), code[p])
  {
    hide Covers, WellFormedCode;
  }

  /** Where a link comes from: it was there before, or the instruction copies the original or another copy of it. */
  lemma NewLink(links: Links, i: Instruction, x: Symbol)
    requires WellFormed(i) && x in LinksAfter(links, i)
    ensures var y := LinksAfter(links, i)[x];
      || (x in links && links[x] == y && (i.dead || IsRedundant(links, i) || i.dest != Some(x)))
      || (!IsSkipped(i) && i.dest == Some(x) && RedefinesVariable(i) && i.src1.Some?
           && (i.src1.value == y || (i.src1.value in links && links[i.src1.value] == y)))
  {
  }

  /** A linked variable has been assigned on the way from the start. */
  lemma {:induction false} LinkedWasAssigned(
      code: Code, entry: nat, g: Cfg, q: nat, way: seq<nat>, x: Symbol)
    requires Propagatable(code, entry, g) && GoesTo(code, entry, q, way)
    requires x in LinksBefore(code, entry, g, q)
    ensures !KeptOn(code, way, x)
    decreases |way|
  {
    if |way| == 1 {
      StartLinks(code, entry, g, entry);
    } else if KeptOn(code, way, x) {
      var p := way[|way| - 2];
      WayBefore(code, entry, q, way);
      KeptBefore(code, way, x);
      LinksGoOn(code, entry, g, p, q);
      WellFormedAt(code, entry, g, p);
      hide *;
      NewLink(LinksBefore(code, entry, g, p), code[p], x);
      AssignmentChanges(code[p], x);
      if x in LinksBefore(code, entry, g, p) {
        LinkedWasAssigned(code, entry, g, p, way[..|way| - 1], x);
      }
    }
  }

  lemma AssignmentChanges(i: Instruction, x: Symbol)
    ensures !IsSkipped(i) && i.dest == Some(x) && RedefinesVariable(i) ==> ChangesVariable(i, x)
  {
  }

  lemma WellFormedAt(code: Code, entry: nat, g: Cfg, p: nat)
    requires Propagatable(code, entry, g) && p < |code|
    ensures WellFormed(code[p])
  {
  }

  /** The original of a link has been read on the way, or assigned. */
  lemma {:induction false} OriginalWasRead(
      code: Code, entry: nat, g: Cfg, q: nat, way: seq<nat>, x: Symbol)
    requires Propagatable(code, entry, g) && GoesTo(code, entry, q, way)
    requires x in LinksBefore(code, entry, g, q) && KeptOn(code, way, LinksBefore(code, entry, g, q)[x])
    ensures ReadLater(code, entry, LinksBefore(code, entry, g, q)[x])
    decreases |way|
  {
    if |way| == 1 {
      StartLinks(code, entry, g, entry);
    } else {
      var p, before, y := way[|way| - 2], way[..|way| - 1], LinksBefore(code, entry, g, q)[x];
      WayBefore(code, entry, q, way);
      KeptBefore(code, way, y);
      LinksGoOn(code, entry, g, p, q);
      WellFormedAt(code, entry, g, p);
      hide *;
      var links, i := LinksBefore(code, entry, g, p), code[p];
      NewLink(links, i, x);
      if x in links && links[x] == y {
        OriginalWasRead(code, entry, g, p, before, x);
      } else if i.src1.value in links && links[i.src1.value] == y {
        OriginalWasRead(code, entry, g, p, before, i.src1.value);
      } else {
        SourceIsRead(i);
        ReadAtEnd(code, entry, p, before, y);
      }
    }
  }

  lemma SourceIsRead(i: Instruction)
    requires !IsSkipped(i) && i.src1.Some?
    ensures ReadsVariable(i, i.src1.value)
  {
  }

  /** A variable that the new instruction reads: the old one reads it, or a copy of it. */
  lemma RewrittenReads(links: Links, i: Instruction, x: Symbol)
    requires WellFormed(i) && ReadsVariable(Rewritten(links, i), x)
    ensures ReadsVariable(i, x) || exists y :: y in links && links[y] == x
  {
    var i' := Rewritten(links, i);
    if !ReadsVariable(i, x) && i != i' {
      var after := LinksAfter(links, i);
      if i'.src1 == Some(x) {
        assert i.src1.value in after && after[i.src1.value] == x;
        NewLink(links, i, i.src1.value);
      } else if i'.src2 == Some(x) {
        assert i.src2.value in after && after[i.src2.value] == x;
        NewLink(links, i, i.src2.value);
      }
    }
  }

  /** An assignment that the pass marks: its destination is linked, or is the original of its source. */
  lemma RewrittenChanges(links: Links, i: Instruction, x: Symbol)
    requires WellFormed(i) && ChangesVariable(i, x) && !ChangesVariable(Rewritten(links, i), x)
    ensures x in links || exists y :: y in links && links[y] == x
  {
    if !IsRedundant(links, i) {
      var after := LinksAfter(links, i);
      assert i.op == Assign && RootOperand(after, i.src1) == Some(x);
      assert i.src1.value in after && after[i.src1.value] == x;
      NewLink(links, i, i.src1.value);
    }
  }

  lemma RewrittenLeads(code: Code, entry: nat, g: Cfg, code': Code, p: nat, q: nat)
    requires Propagatable(code, entry, g) && PropagatedCode(code, entry, g, code') && p < |code|
    ensures |code'| == |code| && (Leads(code', p, q) <==> Leads(code, p, q))
  {
    hide LinksBefore;
    assert WellFormed(code[p]);
  }

  /** The variable is kept on the way in the old list too, as far as it is not read there before. */
  lemma {:induction false} KeptInOld(
      code: Code, entry: nat, g: Cfg, code': Code, q: nat, way: seq<nat>, x: Symbol)
    requires Propagatable(code, entry, g) && PropagatedCode(code, entry, g, code') && |code'| == |code|
    requires GoesTo(code, entry, q, way) && KeptOn(code', way, x)
    ensures KeptOn(code, way, x) || ReadLater(code, entry, x)
    decreases |way|
  {
    if |way| > 1 {
      var p, before := way[|way| - 2], way[..|way| - 1];
      WayBefore(code, entry, q, way);
      KeptBefore(code', way, x);
      KeptInOld(code, entry, g, code', p, before, x);
      WellFormedAt(code, entry, g, p);
      RewrittenAt(code, entry, g, code', p);
      hide *;
      if KeptOn(code, before, x) {
        var links := LinksBefore(code, entry, g, p);
        if ChangesVariable(code[p], x) {
          RewrittenChanges(links, code[p], x);
          if x in links {
            LinkedWasAssigned(code, entry, g, p, before, x);
          } else {
            var y :| y in links && links[y] == x;
            OriginalWasRead(code, entry, g, p, before, y);
          }
        } else {
          KeptFurther(code, way, x);
        }
      }
    }
  }

  lemma KeptFurther(code: Code, way: seq<nat>, x: Symbol)
    requires |way| > 1 && KeptOn(code, way[..|way| - 1], x)
    requires way[|way| - 2] < |code| && !ChangesVariable(code[way[|way| - 2]], x)
    ensures KeptOn(code, way, x)
  {
    forall k | 0 <= k < |way| - 1 ensures way[k] < |code| && !ChangesVariable(code[way[k]], x) {
      assert k < |way| - 2 ==> way[..|way| - 1][k] == way[k];
    }
  }

  lemma RewrittenAt(code: Code, entry: nat, g: Cfg, code': Code, p: nat)
    requires Propagatable(code, entry, g) && PropagatedCode(code, entry, g, code') && p < |code|
    ensures |code'| == |code|
    ensures code'[p] == Rewritten(LinksBefore(code, entry, g, p), code[p])
  {
    hide LinksAt;
    if p < entry {
      assert LinksBefore(code, entry, g, p) == map[];
      assert WellFormed(code[p]) && code[p].op == GlobalDeclaration;
    }
  }

  lemma PropagationReadsOne(code: Code, entry: nat, g: Cfg, code': Code, x: Symbol)
    requires Propagatable(code, entry, g) && PropagatedCode(code, entry, g, code') && ReadLater(code', entry, x)
    ensures ReadLater(code, entry, x)
  {
    hide *;
    SameLength(code, entry, g, code');
    var way := WayToRead(code', entry, x);
    var q := WayEnd(code, entry, g, code', x, way);
    KeptInOld(code, entry, g, code', q, way, x);
    if KeptOn(code, way, x) {
      RewrittenAt(code, entry, g, code', q);
      WellFormedAt(code, entry, g, q);
      var links := LinksBefore(code, entry, g, q);
      RewrittenReads(links, code[q], x);
      if ReadsVariable(code[q], x) {
        ReadAtEnd(code, entry, q, way, x);
      } else {
        var y :| y in links && links[y] == x;
        OriginalWasRead(code, entry, g, q, way, y);
      }
    }
  }

  lemma SameLength(code: Code, entry: nat, g: Cfg, code': Code)
    requires Propagatable(code, entry, g) && PropagatedCode(code, entry, g, code')
    ensures |code'| == |code| && Placed(code, entry, g)
  {
  }

  /** The same way in the old list. */
  lemma WayEnd(code: Code, entry: nat, g: Cfg, code': Code, x: Symbol, way: seq<nat>) returns (q: nat)
    requires Propagatable(code, entry, g) && PropagatedCode(code, entry, g, code') && LeadsToRead(code', entry, x, way)
    ensures |code'| == |code| && GoesTo(code, entry, q, way) && KeptOn(code', way, x) && q < |code|
    ensures ReadsVariable(code'[q], x)
  {
    q := way[|way| - 1];
    forall k | 0 <= k < |way| - 1 ensures Leads(code, way[k], way[k + 1]) {
      RewrittenLeads(code, entry, g, code', way[k], way[k + 1]);
    }
  }

  lemma PropagationReads(code: Code, entry: nat, g: Cfg, code': Code)
    requires Propagatable(code, entry, g) && PropagatedCode(code, entry, g, code')
    ensures NoNewReads(code, code', entry)
  {
    forall x | IsLocal(Some(x)) && ReadLater(code', entry, x) ensures ReadLater(code, entry, x) {
      PropagationReadsOne(code, entry, g, code', x);
    }
  }
}
