/** What the code of a whole function looks like, and when peephole optimization may treat it. */
module GeneratedAllowed {
  import opened Instructions
  import opened ControlFlow
  import opened ReadPaths
  import opened Alike
  import opened PeepholeRules
  import opened Peephole
  import opened SyntaxTrees
  import opened TemporaryPool
  import opened CodeGeneration
  import opened GeneratedRuns
  import opened GeneratedLabels
  import opened GeneratedShape
  import opened CopiedTypes
  import opened GeneratedFunctions

  /** An instruction of a function: one of its body, or one that begins it. */
  predicate Expected(i: Instruction) {
    Made(i) ||
    (WellFormed(i) && !i.dead && i.dest.None? && (i.src1.Some? ==> !i.src1.value.isTemporary) && i.src2.None?
     && (i.op == GlobalDeclaration || i.op == Enter))
  }

  ghost predicate FunctionShaped(c: Code) {
    && (forall p :: 0 <= p < |c| ==> Expected(c[p]))
    && ReadsCovered(c) && ResultsReturned(c) && (exists high :: AddressKeys(c, 0, high))
  }

  /** Instructions without temporaries before the code of the body. */
  lemma BehindShaped(a: Code, b: Code, low: nat, high: nat)
    requires Shaped(b, low, high)
    requires forall p :: 0 <= p < |a| ==> Expected(a[p]) && a[p].dest.None? && a[p].op != If && !Made(a[p])
    ensures FunctionShaped(a + b)
  {
    assert ReadsCovered(a) && AddressKeys(a, 0, low) && ResultsReturned(a);
    assert forall p :: 0 <= p < |b| ==> Made(b[p]) && WellFormed(b[p]);
    hide Made, ComputedAt, Reads, WellFormed, IsResultCopy;
    ReadsCoveredParts(a, b);
    ResultsOfParts(a, b);
    KeysOfParts(a, b, 0, low, high);
    var c := a + b;
    forall p | 0 <= p < |c| ensures Expected(c[p]) {
      assert c[p] == if p < |a| then a[p] else b[p - |a|];
    }
  }

  lemma BodyShape(f: Function)
    requires FunctionOk(f)
    ensures Shaped(BodyOf(f).code, f.pool.nextKey, BodyOf(f).pool.nextKey)
  {
    hide *;
    BodyIsOk(f);
    BodyUnfolds(f);
    StmtShape(WithReturn(f.body, f.header), f.pool);
  }

  lemma BodyUnfolds(f: Function)
    ensures BodyOf(f) == GenStmt(WithReturn(f.body, f.header), f.pool)
  {
  }

  lemma FunctionIsShaped(f: Function)
    requires FunctionOk(f)
    ensures FunctionShaped(FunctionCode(f))
  {
    var a := Declarations(f.declarations) + [Named(Enter, f.header)];
    BodyShape(f);
    assert forall x :: x in f.declarations ==> IsGlobalName(x);
    assert forall p :: 0 <= p < |f.declarations| ==> IsGlobalName(f.declarations[p]);
    hide BodyOf, StmtOk;
    BehindShaped(a, BodyOf(f).code, f.pool.nextKey, BodyOf(f).pool.nextKey);
  }

  // ---------------------------------------------------------------- jumps lead to labels

  lemma FunctionWellFormed(f: Function)
    requires FunctionOk(f)
    ensures WellFormedCode(Linked(FunctionCode(f)), EntryOf(f))
  {
    hide *;
    FunctionIsShaped(f);
    FunctionParts(f);
    FunctionLabels(f);
    LinkedWellFormed(FunctionCode(f), EntryOf(f));
  }

  /** Declarations, the Enter instruction, and neither of them behind it. */
  ghost predicate Parted(c: Code, n: nat) {
    && n < |c| && c[n].op == Enter && (forall p :: 0 <= p < n ==> c[p].op == GlobalDeclaration)
    && (forall p :: n < p < |c| ==> c[p].op != GlobalDeclaration && c[p].op != Enter)
  }

  lemma LinkedWellFormed(c: Code, n: nat)
    requires FunctionShaped(c) && Parted(c, n) && UniqueLabels(c) && Jumps(c) <= Labels(c)
    ensures WellFormedCode(Linked(c), n)
  {
    forall p | 0 <= p < |c| ensures WellFormed(Linked(c)[p]) && Linked(c)[p].op == c[p].op {
      assert Expected(c[p]);
    }
    hide FunctionShaped, WellFormed, Labels, Jumps, UniqueLabels, Position;
    forall p | 0 <= p < |c| && IsJump(c[p])
      ensures var q := Position(c, c[p].jumpTo, 0); n < q < |c| && c[q].op == Label {
      JumpFindsLabel(c, p);
    }
  }

  lemma JumpFindsLabel(c: Code, p: nat)
    requires p < |c| && IsJump(c[p]) && UniqueLabels(c) && Jumps(c) <= Labels(c)
    ensures var q := Position(c, c[p].jumpTo, 0); q < |c| && c[q].op == Label
  {
    assert c[p].jumpTo in Jumps(c) && c[p].jumpTo in Labels(c);
    var q :| 0 <= q < |c| && c[q].op == Label && c[q].jumpTo == c[p].jumpTo;
    PositionFound(c, q, 0);
  }

  lemma FunctionParts(f: Function)
    requires FunctionOk(f)
    ensures Parted(FunctionCode(f), EntryOf(f))
  {
    BodyIsMade(f);
    FunctionPlaced(f);
    hide GenStmt, FunctionCode, StmtOk, PoolOk, Holds;
  }

  lemma BodyIsMade(f: Function)
    requires FunctionOk(f)
    ensures var c, n := FunctionCode(f), EntryOf(f);
            forall p :: n < p < |c| ==> c[p].op != GlobalDeclaration && c[p].op != Enter
  {
    hide *;
    BodyShape(f);
    FunctionPlaced(f);
    MadeBehind(FunctionCode(f), EntryOf(f), BodyOf(f).code, f.pool.nextKey, BodyOf(f).pool.nextKey);
  }

  lemma MadeBehind(c: Code, n: nat, g: Code, low: nat, high: nat)
    requires Shaped(g, low, high) && |c| == n + 1 + |g| && Holds(c, n + 1, g)
    ensures forall p :: n < p < |c| ==> c[p].op != GlobalDeclaration && c[p].op != Enter
  {
    forall p | n < p < |c| ensures c[p].op != GlobalDeclaration && c[p].op != Enter {
      assert c[n + 1 + (p - n - 1)] == g[p - n - 1] && Made(g[p - n - 1]);
    }
  }

  // ---------------------------------------------------------------- temporaries are not read later

  /** A way to a use of a temporary that does not start behind its computation leads through that. */
  lemma {:induction false} ThroughComputation(
      c: Code, entry: nat, q: nat, x: Symbol, d: nat, r: nat, path: seq<nat>) returns (k: nat)
    requires WellFormedCode(c, entry) && LeadsTo(c, q, r, path) && d < r < |c| && !(d < q <= r)
    requires forall i :: d < i <= r ==> c[i].op != Label
    ensures k < |path| - 1 && path[k] == d
    decreases |path|
  {
    k := 0;
    var before := path[..|path| - 1];
    if |path| > 1 {
      var p := path[|path| - 2];
      assert PassesTo(c, path[|path| - 2], path[|path| - 2 + 1]);
      assert p + 1 == r;
      if p == d {
        k := |path| - 2;
      } else {
        assert LeadsTo(c, q, p, before);
        k := ThroughComputation(c, entry, q, x, d, p, before);
        assert before[k] == path[k];
      }
    }
  }

  ghost predicate LeadsTo(c: Code, q: nat, r: nat, path: seq<nat>) {
    && 0 < |path| && path[0] == q && path[|path| - 1] == r
    && (forall k :: 0 <= k < |path| ==> path[k] < |c|)
    && (forall k :: 0 <= k < |path| - 1 ==> PassesTo(c, path[k], path[k + 1]))
  }

  /** No temporary that is computed before `p` is read behind it: no straight-line code from there leads over `p`. */
  ghost predicate Separates(c: Code, p: nat, x: Symbol)
    requires p < |c|
  {
    !IsStraight(c[p]) || (p + 1 < |c| && !IsStraight(c[p + 1]) && !Reads(c[p + 1], x))
  }

  /** Behind a copy no temporary is read before it is computed again. */
  lemma NotReadLater(c: Code, entry: nat, p: nat, x: Symbol)
    requires x.typ != AddrType && WellFormedCode(c, entry) && ReadsCovered(c)
    requires forall i :: 0 <= i < |c| ==> Expected(c[i])
    requires p < |c| && x.isTemporary && Separates(c, p, x)
    ensures !ReadLater(c, p + 1, x)
  {
    hide Expected, WellFormedCode;
    if ReadLater(c, p + 1, x) {
      var path :| LeadsToRead(c, p + 1, x, path);
      var r := path[|path| - 1];
      forall k | 0 <= k < |path| - 1 ensures PassesTo(c, path[k], path[k + 1]) {
        LeadsPasses(c, path[k], path[k + 1]);
      }
      assert Reads(c[r], x);
      var d: nat :| ComputedAt(c, d, r, x);
      var k := ThroughComputation(c, entry, p + 1, x, d, r, path);
      ComputationChanges(c[d], x);
      assert false;
    }
  }

  lemma ComputationChanges(i: Instruction, x: Symbol)
    requires Expected(i) && i.dest == Some(x) && RedefinesVariable(i) && x.isTemporary
    ensures ChangesVariable(i, x)
  {
  }

  lemma LinkedShaped(c: Code)
    requires FunctionShaped(c)
    ensures FunctionShaped(Linked(c))
  {
    var l := Linked(c);
    LinkedCovered(c);
    var high :| AddressKeys(c, 0, high);
    assert AddressKeys(l, 0, high);
    LinkedReturned(c);
    forall p | 0 <= p < |l| ensures Expected(l[p]) {
      assert Expected(c[p]);
    }
  }

  lemma LinkedCovered(c: Code)
    requires ReadsCovered(c)
    ensures ReadsCovered(Linked(c))
  {
    var l := Linked(c);
    forall r, x: Symbol | 0 <= r < |l| && x.isTemporary && Reads(l[r], x)
      ensures exists d: nat :: ComputedAt(l, d, r, x) {
      assert Reads(c[r], x);
      var d: nat :| ComputedAt(c, d, r, x);
      assert ComputedAt(l, d, r, x);
    }
  }

  lemma LinkedReturned(c: Code)
    requires ResultsReturned(c)
    ensures ResultsReturned(Linked(c))
  {
    var l := Linked(c);
    forall p | 0 <= p < |l| && IsResultCopy(l[p])
      ensures p + 1 < |l| && l[p + 1] == Named(Return, l[p].dest.value)
    {
      assert IsResultCopy(c[p]);
    }
  }

  /** A repeated assignment is overwritten. */
  lemma RepeatsOverwrite(c: Code, p: nat)
    requires FunctionShaped(c) && p < |c| && Repeats(c, p)
    ensures Overwrites(c[p], c[p + 1])
  {
    assert Expected(c[p]) && Expected(c[p + 1]);
    var high :| AddressKeys(c, 0, high);
  }

  /** A temporary that is copied may be bypassed. */
  lemma BypassIsAllowed(c: Code, entry: nat, p: nat)
    requires WellFormedCode(c, entry) && FunctionShaped(c) && p < |c| && Bypasses(c, p) && CopyFits(c[p - 1], c[p])
    requires !IsNullAssignment(c[p])
    ensures BypassAllowed(c, p)
  {
    var x := c[p].src1.value;
    assert Expected(c[p]) && Expected(c[p - 1]);
    assert Separates(c, p, x);
    assert WellFormed(c[p]);
    hide ComputedAt, ReadsCovered, AddressKeys, ReadLater, ResultsReturned, Separates;
    NotReadLater(c, entry, p, x);
    assert !Dies(c, p - 1);
  }

  /** Code of this shape meets the conditions of peephole optimization exactly if its copies fit. */
  lemma AllowedIsFitting(c: Code, entry: nat)
    requires WellFormedCode(c, entry) && FunctionShaped(c)
    ensures Allowed(c, entry) <==> CopiesFit(c)
  {
    assert forall p :: 0 <= p < |c| ==> Expected(c[p]) && !c[p].dead;
    hide WellFormedCode, BypassAllowed, Expected, ReadsCovered, AddressKeys, ResultsReturned;
    if CopiesFit(c) {
      forall p | 0 <= p < |c| && !IsNullAssignment(c[p])
        ensures Repeats(c, p) ==> Overwrites(c[p], c[p + 1])
        ensures Bypasses(c, p) ==> BypassAllowed(c, p)
      {
        if Repeats(c, p) {
          RepeatsOverwrite(c, p);
        }
        if Bypasses(c, p) {
          assert CopyFits(c[p - 1], c[p]);
          BypassIsAllowed(c, entry, p);
        }
      }
    }
    if Allowed(c, entry) {
      forall p | 0 < p < |c| ensures CopyFits(c[p - 1], c[p]) {
        AllowedCopyFits(c, entry, p);
      }
    }
  }

  lemma AllowedCopyFits(c: Code, entry: nat, p: nat)
    requires Allowed(c, entry) && 0 < p < |c|
    ensures CopyFits(c[p - 1], c[p])
  {
    if IsCopy(c[p]) && c[p].src1 == c[p - 1].dest {
      assert Bypasses(c, p);
      assert IsNullAssignment(c[p]) || BypassAllowed(c, p);
    }
  }

  /**
   * Generated code meets the conditions of peephole optimization exactly if no assignment of the
   * function puts a character of an array into an int variable, and no return gives one back as an int.
   */
  lemma FunctionAllowed(f: Function)
    requires FunctionOk(f)
    ensures Allowed(Linked(FunctionCode(f)), EntryOf(f)) <==> StmtFits(f.body)
  {
    hide *;
    var c := FunctionCode(f);
    FunctionIsShaped(f);
    FunctionWellFormed(f);
    LinkedShaped(c);
    AllowedIsFitting(Linked(c), EntryOf(f));
    LinkedCopies(c);
    FunctionCopies(f);
  }

  lemma LinkedCopies(c: Code)
    ensures CopiesFit(Linked(c)) <==> CopiesFit(c)
  {
    var l := Linked(c);
    forall p | 0 < p < |c| ensures CopyFits(l[p - 1], l[p]) <==> CopyFits(c[p - 1], c[p]) {
    }
  }

  lemma FunctionCopies(f: Function)
    requires FunctionOk(f)
    ensures CopiesFit(FunctionCode(f)) <==> StmtFits(f.body)
  {
    var a, st := Declarations(f.declarations) + [Named(Enter, f.header)], WithReturn(f.body, f.header);
    assert NoCopies(a) && FunctionCode(f) == a + BodyOf(f).code && StmtOk(f.body) && IsFunctionName(f.header);
    hide *;
    BodyIsOk(f);
    BodyShape(f);
    BodyUnfolds(f);
    ReturnIsOk(f.body, f.header);
    StmtCopies(st, f.pool);
    ShapeCovers(BodyOf(f).code, f.pool.nextKey, BodyOf(f).pool.nextKey);
    FitBehind(a, BodyOf(f).code);
  }

  /** No instruction of generated code is dead. */
  lemma FunctionIsAlive(f: Function)
    requires FunctionOk(f)
    ensures NothingDead(Linked(FunctionCode(f)))
  {
    var c := FunctionCode(f);
    FunctionIsShaped(f);
    hide FunctionCode, ReadsCovered, AddressKeys, ResultsReturned;
    assert forall p :: 0 <= p < |c| ==> Expected(c[p]) && !c[p].dead;
  }
}
