/** The variables whose values may be read from some place of the code on. */
module ReadPaths {
  import opened Instructions
  import opened Semantics
  import opened ControlFlow
  import opened Liveness

  /** Does the instruction read `x`? A store reads the address that it goes to. */
  ghost predicate ReadsVariable(i: Instruction, x: Symbol) {
    !IsSkipped(i) && (i.src1 == Some(x) || i.src2 == Some(x) || (i.dest == Some(x) && !RedefinesVariable(i)))
  }

  ghost predicate ChangesVariable(i: Instruction, x: Symbol) {
    !IsSkipped(i) && RedefinesVariable(i) && i.dest == Some(x)
  }

  /** Control goes on from `p` to `q`, for some values of the operands. The graph of the code holds more ways. */
  predicate Leads(code: Code, p: nat, q: nat)
    requires p < |code|
  {
    if code[p].dead then q == p + 1
    else if code[p].op == Return then false
    else if code[p].op == Goto then q == code[p].jumpTo
    else q == p + 1 || (code[p].op == If && q == code[p].jumpTo)
  }

  lemma LeadsPasses(code: Code, p: nat, q: nat)
    requires p < |code| && Leads(code, p, q)
    ensures PassesTo(code, p, q)
  {
  }

  lemma StepLeads(m: Machine, code: Code, s: State)
    requires s.status == Running && s.pc < |code| && Step(m, code, s).status == Running
    requires WellFormed(code[s.pc])
    ensures Leads(code, s.pc, Step(m, code, s).pc)
  {
  }

  /**
   * A way that control can take and at the end of which `x` is read, no instruction before that one
   * having changed it.
   */
  ghost predicate LeadsToRead(code: Code, p: nat, x: Symbol, path: seq<nat>) {
    && 0 < |path| && path[0] == p
    && (forall k :: 0 <= k < |path| ==> path[k] < |code|)
    && (forall k :: 0 <= k < |path| - 1 ==> Leads(code, path[k], path[k + 1]) && !ChangesVariable(code[path[k]], x))
    && ReadsVariable(code[path[|path| - 1]], x)
  }

  /** May the value that `x` has at `p` be read? */
  ghost predicate ReadLater(code: Code, p: nat, x: Symbol) {
    exists path :: LeadsToRead(code, p, x, path)
  }

  lemma ReadHere(code: Code, p: nat, x: Symbol)
    requires p < |code| && ReadsVariable(code[p], x)
    ensures ReadLater(code, p, x)
  {
    assert LeadsToRead(code, p, x, [p]);
  }

  lemma ReadThere(code: Code, p: nat, q: nat, x: Symbol)
    requires p < |code| && Leads(code, p, q) && !ChangesVariable(code[p], x) && ReadLater(code, q, x)
    ensures ReadLater(code, p, x)
  {
    var path :| LeadsToRead(code, q, x, path);
    assert LeadsToRead(code, p, x, [p] + path);
  }

  /** Where a value may be read, some instruction reads it. */
  lemma ReadSomewhere(code: Code, p: nat, x: Symbol) returns (q: nat)
    requires ReadLater(code, p, x)
    ensures q < |code| && ReadsVariable(code[q], x)
  {
    var path :| LeadsToRead(code, p, x, path);
    q := path[|path| - 1];
  }

  /** It is read at once, or later although it has not changed. */
  lemma ReadNext(code: Code, p: nat, x: Symbol) returns (q: nat)
    requires ReadLater(code, p, x)
    ensures p < |code|
    ensures ReadsVariable(code[p], x) || (!ChangesVariable(code[p], x) && Leads(code, p, q) && ReadLater(code, q, x))
  {
    var path :| LeadsToRead(code, p, x, path);
    q := p;
    if |path| > 1 {
      q := path[1];
      assert Leads(code, path[0], path[1]);
      assert LeadsToRead(code, q, x, path[1..]);
    }
  }

  /** Whatever may be read from `q` on before it is assigned in the new list may be so in the old one. */
  ghost predicate NoNewReads(code: Code, code': Code, q: nat) {
    forall x :: IsLocal(Some(x)) && ReadLater(code', q, x) ==> ReadLater(code, q, x)
  }

  lemma NoNewReadsTransitive(code1: Code, code2: Code, code3: Code, q: nat)
    requires NoNewReads(code1, code2, q) && NoNewReads(code2, code3, q)
    ensures NoNewReads(code1, code3, q)
  {
    hide ReadLater;
  }

  lemma WayOn(code: Code, p: nat, x: Symbol, path: seq<nat>)
    requires LeadsToRead(code, p, x, path) && |path| > 1
    ensures p < |code| && Leads(code, p, path[1]) && !ChangesVariable(code[p], x)
    ensures LeadsToRead(code, path[1], x, path[1..])
  {
    assert Leads(code, path[0], path[1]);
  }

  lemma WayEnds(code: Code, p: nat, x: Symbol, path: seq<nat>)
    requires LeadsToRead(code, p, x, path) && |path| == 1
    ensures p < |code| && ReadsVariable(code[p], x)
  {
  }

  lemma WayInside(code: Code, p: nat, x: Symbol, path: seq<nat>)
    requires LeadsToRead(code, p, x, path)
    ensures p < |code|
  {
  }

  lemma WayStarts(code: Code, p: nat, x: Symbol, path: seq<nat>)
    requires LeadsToRead(code, p, x, path)
    ensures |path| > 0
  {
  }

  lemma WayFrom(code: Code, p: nat, x: Symbol, path: seq<nat>)
    requires |path| > 1 && path[0] == p < |code| && LeadsToRead(code, path[1], x, path[1..])
    requires Leads(code, p, path[1]) && !ChangesVariable(code[p], x)
    ensures LeadsToRead(code, p, x, path)
  {
    var rest := path[1..];
    forall k | 0 <= k < |path| - 1
      ensures Leads(code, path[k], path[k + 1]) && !ChangesVariable(code[path[k]], x)
    {
      if 0 < k {
        assert Leads(code, rest[k - 1], rest[k]) && !ChangesVariable(code[rest[k - 1]], x);
      }
    }
    assert rest[|rest| - 1] == path[|path| - 1];
  }
}
