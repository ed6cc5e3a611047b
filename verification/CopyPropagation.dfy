/** Copy propagation within basic blocks (do_copy_propagation and its helpers, code_optimization.c). */
module CopyPropagation {
  import opened Instructions
  import opened Semantics
  import opened ControlFlow
  import opened Liveness
  import opened Lists

  /** copied_from: the original that a variable currently equals. */
  type Links = map<Symbol, Symbol>

  function Root(links: Links, x: Symbol): Symbol {
    if x in links then links[x] else x
  }

  /** Everything that involves `d` is forgotten: its own link and the links of its copies. */
  function Detached(links: Links, d: Symbol): Links {
    map x | x in links && x != d && links[x] != d :: links[x]
  }

  /** An assignment between variables with the same original changes nothing. */
  predicate IsRedundant(links: Links, i: Instruction) {
    && i.op == Assign && i.dest.Some? && i.src1.Some?
    && Root(links, i.dest.value) == Root(links, i.src1.value)
  }

  function LinksAfter(links: Links, i: Instruction): Links {
    if i.dead || IsRedundant(links, i) then links
    else
      var rest := if i.dest.Some? then Detached(links, i.dest.value) else links;
      if i.op == Assign && i.dest.Some? && i.src1.Some? && i.dest.value.typ == i.src1.value.typ
      then rest[i.dest.value := Root(rest, i.src1.value)] else rest
  }

  function RootOperand(links: Links, x: Option<Symbol>): Option<Symbol> {
    if x.Some? then Some(Root(links, x.value)) else None
  }

  /** The instruction as the pass leaves it, `links` being the links that hold before it. */
  function Rewritten(links: Links, i: Instruction): Instruction {
    if i.dead then i
    else if IsRedundant(links, i) then i.(dead := true)
    else if IsRhsVariable(i) then
      var after := LinksAfter(links, i);
      i.(src1 := RootOperand(after, i.src1), src2 := RootOperand(after, i.src2))
    else i
  }

  /** The links that hold before position `p` of a block that starts at `start`. */
  function LinksAt(code: Code, start: nat, p: nat): Links
    requires p <= |code|
  {
    if p <= start then map[] else LinksAfter(LinksAt(code, start, p - 1), code[p - 1])
  }

  // ---------------------------------------------------------------- the links that the pass keeps

  function Copies(to: CopyLists, x: Symbol): seq<Symbol> {
    if x in to then to[x] else []
  }

  type CopyLists = map<Symbol, seq<Symbol>>

  /** No original is itself a copy. */
  ghost predicate DepthOne(from: Links) {
    forall x :: x in from ==> from[x] !in from
  }

  /** How often must `x` be on the list of copies of `r`? */
  ghost function Occurrences(from: Links, r: Symbol, x: Symbol): nat {
    if x in from && from[x] == r then 1 else 0
  }

  ghost predicate ListsCopies(from: Links, r: Symbol, list: seq<Symbol>) {
    forall x :: multiset(list)[x] == Occurrences(from, r, x)
  }

  /** copied_to is the inverse of copied_from, each copy being listed once. */
  ghost predicate Inverse(from: Links, to: CopyLists) {
    forall r :: ListsCopies(from, r, Copies(to, r))
  }

  /** A variable is on the list of propagated variables at least as often as it has copies. */
  ghost predicate Counted(to: CopyLists, propagated: seq<Symbol>) {
    forall r :: |Copies(to, r)| <= multiset(propagated)[r]
  }

  ghost predicate Consistent(from: Links, to: CopyLists, propagated: seq<Symbol>) {
    DepthOne(from) && Inverse(from, to) && Counted(to, propagated)
  }

  lemma CopyIsListed(from: Links, to: CopyLists, propagated: seq<Symbol>, x: Symbol)
    requires Consistent(from, to, propagated) && x in from
    ensures x in Copies(to, from[x]) && from[x] in propagated && Copies(to, x) == []
  {
    var r := from[x];
    assert ListsCopies(from, r, Copies(to, r)) && ListsCopies(from, x, Copies(to, x));
    assert multiset(Copies(to, r))[x] == Occurrences(from, r, x) == 1;
    assert |Copies(to, r)| <= multiset(propagated)[r];
    assert forall y :: Occurrences(from, x, y) == 0;
    assert Copies(to, x) == [] || multiset(Copies(to, x))[Copies(to, x)[0]] > 0;
  }

  lemma AttachKeepsConsistent(from: Links, to: CopyLists, propagated: seq<Symbol>, x: Symbol, r: Symbol)
    requires Consistent(from, to, propagated) && x !in from && Copies(to, x) == [] && r !in from && x != r
    ensures Consistent(from[x := r], to[r := [x] + Copies(to, r)], [r] + propagated)
  {
    var from', to' := from[x := r], to[r := [x] + Copies(to, r)];
    forall y | y in from' ensures from'[y] !in from' {
      if y != x {
        CopyIsListed(from, to, propagated, y);
      }
    }
    forall q ensures ListsCopies(from', q, Copies(to', q)) {
      assert ListsCopies(from, q, Copies(to, q));
      forall y ensures multiset(Copies(to', q))[y] == Occurrences(from', q, y) {
        assert multiset(Copies(to, q))[y] == Occurrences(from, q, y);
      }
    }
    forall q ensures |Copies(to', q)| <= multiset([r] + propagated)[q] {
      assert |Copies(to, q)| <= multiset(propagated)[q];
    }
  }

  lemma DetachKeepsConsistent(from: Links, to: CopyLists, propagated: seq<Symbol>, x: Symbol)
    requires Consistent(from, to, propagated) && x in from
    requires x in Copies(to, from[x]) && from[x] in propagated
    ensures Consistent(from - {x}, to[from[x] := RemoveFirst(Copies(to, from[x]), x)], RemoveFirst(propagated, from[x]))
    ensures from - {x} == Detached(from, x)
  {
    hide RemoveFirst;
    DetachKeepsInverse(from, to, x);
    DetachKeepsCounted(to, propagated, from[x], x);
    hide Inverse, Counted;
  }

  lemma DetachKeepsInverse(from: Links, to: CopyLists, x: Symbol)
    requires Inverse(from, to) && x in from && x in Copies(to, from[x])
    ensures Inverse(from - {x}, to[from[x] := RemoveFirst(Copies(to, from[x]), x)])
  {
    hide RemoveFirst;
    var r := from[x];
    var from', to' := from - {x}, to[r := RemoveFirst(Copies(to, r), x)];
    forall q ensures ListsCopies(from', q, Copies(to', q)) {
      assert ListsCopies(from, q, Copies(to, q));
      forall y ensures multiset(Copies(to', q))[y] == Occurrences(from', q, y) {
        assert multiset(Copies(to, q))[y] == Occurrences(from, q, y);
      }
    }
  }

  lemma DetachKeepsCounted(to: CopyLists, propagated: seq<Symbol>, r: Symbol, x: Symbol)
    requires Counted(to, propagated) && x in Copies(to, r) && r in propagated
    ensures Counted(to[r := RemoveFirst(Copies(to, r), x)], RemoveFirst(propagated, r))
  {
    hide RemoveFirst;
    var to' := to[r := RemoveFirst(Copies(to, r), x)];
    forall q ensures |Copies(to', q)| <= multiset(RemoveFirst(propagated, r))[q] {
      assert |Copies(to, q)| <= multiset(propagated)[q];
    }
  }

  function WithoutCopies(from: Links, r: Symbol): Links {
    map x | x in from && from[x] != r :: from[x]
  }

  lemma WithoutCopiesInverse(from: Links, to: CopyLists, r: Symbol, q: Symbol)
    requires Inverse(from, to)
    ensures ListsCopies(WithoutCopies(from, r), q, Copies(to - {r}, q))
  {
    assert ListsCopies(from, q, Copies(to, q));
    forall y ensures Occurrences(WithoutCopies(from, r), q, y) == if q == r then 0 else Occurrences(from, q, y) {
    }
  }

  /** A stale entry of the list may name a variable that is itself a copy by now. */
  lemma DetachCopiesKeepsConsistent(from: Links, to: CopyLists, propagated: seq<Symbol>, r: Symbol)
    requires Consistent(from, to, propagated) && r in propagated
    ensures Consistent(WithoutCopies(from, r), to - {r}, RemoveFirst(propagated, r))
  {
    hide RemoveFirst, ListsCopies;
    forall q ensures ListsCopies(WithoutCopies(from, r), q, Copies(to - {r}, q)) {
      WithoutCopiesInverse(from, to, r, q);
    }
    forall q ensures |Copies(to - {r}, q)| <= multiset(RemoveFirst(propagated, r))[q] {
      assert |Copies(to, q)| <= multiset(propagated)[q];
    }
  }

  /** Cutting the copies on the list one by one. */
  function Cut(from: Links, list: seq<Symbol>): Links {
    if list == [] then from else Cut(from, list[..|list| - 1]) - {list[|list| - 1]}
  }

  lemma {:induction false} CutMeaning(from: Links, list: seq<Symbol>, x: Symbol)
    ensures x in Cut(from, list) <==> x in from && x !in list
    ensures x in Cut(from, list) ==> Cut(from, list)[x] == from[x]
  {
    if list != [] {
      CutMeaning(from, list[..|list| - 1], x);
      assert list == list[..|list| - 1] + [list[|list| - 1]];
    }
  }

  lemma CutCopies(from: Links, to: CopyLists, r: Symbol)
    requires Inverse(from, to)
    ensures Cut(from, Copies(to, r)) == WithoutCopies(from, r)
    ensures r !in from ==> WithoutCopies(from, r) == Detached(from, r)
  {
    var list := Copies(to, r);
    assert ListsCopies(from, r, list);
    forall x ensures x in Cut(from, list) <==> x in from && from[x] != r {
      CutMeaning(from, list, x);
      assert multiset(list)[x] == Occurrences(from, r, x);
    }
    forall x | x in Cut(from, list) ensures Cut(from, list)[x] == from[x] {
      CutMeaning(from, list, x);
    }
  }

  /** An instruction that goes on reads no variable that is still linked, and a copy reads its original. */
  lemma LeavesNoCopy(from: Links, to: CopyLists, propagated: seq<Symbol>, i: Instruction)
    requires Consistent(from, to, propagated) && WellFormed(i)
    ensures var i', links := Rewritten(from, i), LinksAfter(from, i);
      && (!i'.dead && i.op != Call && i.op != Enter && i.op != GlobalDeclaration ==>
            forall x :: x in links ==> i'.src1 != Some(x) && i'.src2 != Some(x))
      && (!i'.dead && i.op == Assign && i.dest.value.typ == i.src1.value.typ ==>
            i.dest.value in links && i'.src1 == Some(links[i.dest.value]))
  {
    assert DepthOne(from);
    hide Inverse, Counted;
  }

  /** The links of a block, with the fields that the passes update. */
  class CopyLinks {
    var copiedFrom: Links
    var copiedTo: CopyLists
    var propagated: seq<Symbol>

    ghost predicate Valid()
      reads this
    {
      Consistent(copiedFrom, copiedTo, propagated)
    }

    constructor ()
      ensures Valid() && copiedFrom == map[] && propagated == []
    {
      copiedFrom, copiedTo, propagated := map[], map[], [];
    }

    method AttachVariableToOriginal(x: Symbol, original: Symbol)
      requires Valid() && x !in copiedFrom && Copies(copiedTo, x) == [] && original !in copiedFrom && x != original
      modifies this
      ensures Valid() && copiedFrom == old(copiedFrom)[x := original]
    {
      AttachKeepsConsistent(copiedFrom, copiedTo, propagated, x, original);
      propagated := [original] + propagated;
      copiedTo := copiedTo[original := [x] + Copies(copiedTo, original)];
      copiedFrom := copiedFrom[x := original];
    }

    method DetachVariableFromOriginal(x: Symbol)
      requires Valid() && x in copiedFrom
      modifies this
      ensures Valid() && copiedFrom == Detached(old(copiedFrom), x) && x !in copiedFrom
      ensures Copies(copiedTo, x) == []
    {
      var original := copiedFrom[x];
      CopyIsListed(copiedFrom, copiedTo, propagated, x);
      DetachKeepsConsistent(copiedFrom, copiedTo, propagated, x);
      propagated := Remove(original, propagated);
      var list := Remove(x, Copies(copiedTo, original));
      copiedTo := copiedTo[original := list];
      copiedFrom := copiedFrom - {x};
    }

    /** Cuts the links of the listed variables, one list node after the other. */
    method CutLinks(list: seq<Symbol>)
      modifies this`copiedFrom
      ensures copiedFrom == Cut(old(copiedFrom), list)
    {
      for k := 0 to |list|
        invariant copiedFrom == Cut(old(copiedFrom), list[..k])
      {
        assert list[..k + 1][..k] == list[..k];
        copiedFrom := copiedFrom - {list[k]};
      }
      assert list[..|list|] == list;
    }

    /** Forgets that anything is a copy of `original`. */
    method DetachCopiesFromOriginal(original: Symbol)
      requires Valid() && original in propagated
      modifies this
      ensures Valid() && copiedFrom == WithoutCopies(old(copiedFrom), original)
      ensures original !in old(copiedFrom) ==> copiedFrom == Detached(old(copiedFrom), original)
      ensures Copies(copiedTo, original) == [] && propagated == RemoveFirst(old(propagated), original)
    {
      DetachCopiesKeepsConsistent(copiedFrom, copiedTo, propagated, original);
      CutCopies(copiedFrom, copiedTo, original);
      assert Copies(copiedTo - {original}, original) == [];
      propagated := Remove(original, propagated);
      CutLinks(Copies(copiedTo, original));
      copiedTo := copiedTo - {original};
    }

    /** Ends a block: cuts every link that is left. */
    method ClearPropagatedVars()
      requires Valid()
      modifies this
      ensures Valid() && copiedFrom == map[] && propagated == []
    {
      while propagated != []
        invariant Valid()
        decreases |propagated|
      {
        DetachCopiesFromOriginal(propagated[0]);
      }
      if x :| x in copiedFrom {
        CopyIsListed(copiedFrom, copiedTo, propagated, x);
        assert false;
      }
    }

    /** Treats one instruction: rewrites it and brings the links up to date. */
    method PropagateInstruction(i: Instruction) returns (i': Instruction)
      requires Valid() && WellFormed(i)
      modifies this
      ensures Valid()
      ensures i' == Rewritten(old(copiedFrom), i) && copiedFrom == LinksAfter(old(copiedFrom), i)
      ensures !i'.dead && i.op != Call && i.op != Enter && i.op != GlobalDeclaration ==>
                forall x :: x in copiedFrom ==> i'.src1 != Some(x) && i'.src2 != Some(x)
      ensures !i'.dead && i.op == Assign && i.dest.value.typ == i.src1.value.typ ==>
                i.dest.value in copiedFrom && i'.src1 == Some(copiedFrom[i.dest.value])
    {
      LeavesNoCopy(copiedFrom, copiedTo, propagated, i);
      i' := i;
      if i.dead {
        return;
      }
      if i.op == Assign {
        var rootDest := Root(copiedFrom, i.dest.value);
        var rootSrc := Root(copiedFrom, i.src1.value);
        if rootDest == rootSrc {
          i' := i.(dead := true);
          return;
        }
      }
      if i.dest.Some? {
        ForgetDestination(i.dest.value);
      }
      if IsRhsVariable(i) {
        if i.op == Assign && i.dest.value.typ == i.src1.value.typ {
          LinkDestination(i.dest.value, i.src1.value);
        }
        i' := i.(src1 := RootOperand(copiedFrom, i.src1), src2 := RootOperand(copiedFrom, i.src2));
      }
    }

    /** The destination is redefined: it is no copy any more and nothing is a copy of it. */
    method ForgetDestination(d: Symbol)
      requires Valid()
      modifies this
      ensures Valid() && copiedFrom == Detached(old(copiedFrom), d)
      ensures d !in copiedFrom && Copies(copiedTo, d) == []
    {
      if d in copiedFrom {
        DetachVariableFromOriginal(d);
      } else if Copies(copiedTo, d) != [] {
        CopiesAreCounted(copiedTo, propagated, d);
        DetachCopiesFromOriginal(d);
      } else {
        NotLinked(copiedFrom, copiedTo, d);
      }
    }

    /** The destination becomes a copy of the source, or of what the source is a copy of. */
    method LinkDestination(d: Symbol, x: Symbol)
      requires Valid() && d !in copiedFrom && Copies(copiedTo, d) == [] && x != d
      modifies this
      ensures Valid() && copiedFrom == old(copiedFrom)[d := Root(old(copiedFrom), x)]
    {
      NotLinked(copiedFrom, copiedTo, d);
      assert x in copiedFrom ==> copiedFrom[x] !in copiedFrom;
      if x in copiedFrom {
        AttachVariableToOriginal(d, copiedFrom[x]);
      } else {
        AttachVariableToOriginal(d, x);
      }
    }
  }

  lemma NotLinked(from: Links, to: CopyLists, d: Symbol)
    requires Inverse(from, to) && d !in from && Copies(to, d) == []
    ensures Detached(from, d) == from
    ensures forall x :: x in from ==> from[x] != d
  {
    assert ListsCopies(from, d, Copies(to, d));
    forall x | x in from ensures from[x] != d {
      assert multiset(Copies(to, d))[x] == Occurrences(from, d, x);
    }
  }

  lemma CopiesAreCounted(to: CopyLists, propagated: seq<Symbol>, d: Symbol)
    requires Counted(to, propagated) && Copies(to, d) != []
    ensures d in propagated
  {
    assert |Copies(to, d)| <= multiset(propagated)[d];
  }

  // ---------------------------------------------------------------- what the links mean

  /** Do both symbols hold the same value, of the same type, now? */
  ghost predicate Equal(m: Machine, s: State, x: Symbol, r: Symbol) {
    !x.isConstant && x.typ != ArrayType && x.typ == r.typ && Read(m, s, x) == Read(m, s, r)
  }

  ghost predicate LinksHold(m: Machine, s: State, links: Links) {
    forall x :: x in links ==> Equal(m, s, x, links[x])
  }

  lemma ReadFits(m: Machine, s: State, x: Symbol)
    requires m.Valid()
    ensures m.fit(x.typ, Read(m, s, x)) == Read(m, s, x)
  {
  }

  /** A redundant assignment changes nothing. */
  lemma RedundantIsNull(m: Machine, s: State, links: Links, i: Instruction)
    requires m.Valid() && WellFormed(i) && IsRedundant(links, i) && LinksHold(m, s, links)
    ensures Execute(m, s, i) == s.(pc := s.pc + 1)
  {
    var d, x := i.dest.value, i.src1.value;
    assert d.typ == x.typ && Read(m, s, d) == Read(m, s, x);
    ReadFits(m, s, x);
    NullWrite(m, s.(pc := s.pc + 1), d, Read(m, s, x));
  }

  /** The links used for rewriting are among those that hold. */
  lemma LinksAfterBut(links: Links, i: Instruction, x: Symbol)
    requires WellFormed(i) && !i.dead && !IsRedundant(links, i) && x in LinksAfter(links, i)
    requires i.op == Assign ==> x != i.dest.value
    ensures x in links && LinksAfter(links, i)[x] == links[x]
  {
  }

  lemma RootReads(m: Machine, s: State, links: Links, i: Instruction, x: Option<Symbol>)
    requires WellFormed(i) && !i.dead && !IsRedundant(links, i) && LinksHold(m, s, links)
    requires x == i.src1 || x == i.src2
    ensures ReadOperand(m, s, RootOperand(LinksAfter(links, i), x)) == ReadOperand(m, s, x)
    ensures x.Some? && x.value.typ == ArrayType ==> RootOperand(LinksAfter(links, i), x) == x
  {
    if x.Some? && x.value in LinksAfter(links, i) {
      LinksAfterBut(links, i, x.value);
      assert Equal(m, s, x.value, links[x.value]);
    }
  }

  /** An instruction and its rewritten form do the same. */
  lemma RewrittenDoesTheSame(m: Machine, s: State, links: Links, i: Instruction)
    requires m.Valid() && WellFormed(i) && !i.dead && LinksHold(m, s, links)
    ensures var i' := Rewritten(links, i);
            Execute(m, s, i) == if i'.dead then s.(pc := s.pc + 1) else Execute(m, s, i')
  {
    if IsRedundant(links, i) {
      RedundantIsNull(m, s, links, i);
    } else if IsRhsVariable(i) {
      RootReads(m, s, links, i, i.src1);
      RootReads(m, s, links, i, i.src2);
    }
  }

  /** Executing an instruction other than a call leaves the links of LinksAfter in force. */
  lemma LinksHoldAfter(m: Machine, s: State, links: Links, i: Instruction)
    requires m.Valid() && WellFormed(i) && !i.dead && i.op != Call && LinksHold(m, s, links)
    ensures LinksHold(m, Execute(m, s, i), LinksAfter(links, i))
  {
    var s' := Execute(m, s, i);
    if IsRedundant(links, i) {
      RedundantIsNull(m, s, links, i);
    } else if RedefinesVariable(i) {
      var d := i.dest.value;
      forall x | x in LinksAfter(links, i) ensures Equal(m, s', x, LinksAfter(links, i)[x]) {
        DefinitionKeepsLink(m, s, links, i, x);
      }
    } else {
      forall x | x in LinksAfter(links, i) ensures Equal(m, s', x, LinksAfter(links, i)[x]) {
        LinksAfterBut(links, i, x);
        assert Equal(m, s, x, links[x]);
      }
    }
  }

  lemma DefinitionReads(m: Machine, s: State, i: Instruction, x: Symbol)
    requires m.Valid() && WellFormed(i) && RedefinesVariable(i)
    ensures Read(m, Execute(m, s, i), x) ==
            if x == i.dest.value
            then m.fit(x.typ, Result(m, s, i, ReadOperand(m, s, i.src1), ReadOperand(m, s, i.src2)))
            else Read(m, s, x)
  {
    var s' := s.(pc := s.pc + 1);
    assert Control(m, s, i, ReadOperand(m, s, i.src1), ReadOperand(m, s, i.src2)) == s';
    ReadAfterWrite(m, s', i.dest.value, Result(m, s, i, ReadOperand(m, s, i.src1), ReadOperand(m, s, i.src2)), x);
  }

  lemma DefinitionKeepsLink(m: Machine, s: State, links: Links, i: Instruction, x: Symbol)
    requires m.Valid() && WellFormed(i) && !i.dead && RedefinesVariable(i) && !IsRedundant(links, i)
    requires LinksHold(m, s, links) && x in LinksAfter(links, i)
    ensures Equal(m, Execute(m, s, i), x, LinksAfter(links, i)[x])
  {
    var d, r := i.dest.value, LinksAfter(links, i)[x];
    DefinitionReads(m, s, i, x);
    DefinitionReads(m, s, i, r);
    if x == d {
      var y := i.src1.value;
      ReadFits(m, s, y);
      assert y in links ==> Equal(m, s, y, links[y]);
    } else {
      assert Equal(m, s, x, links[x]);
    }
  }

  // ---------------------------------------------------------------- which copies are in force

  /**
   * At `p` a live assignment makes `x` a copy of `r`, which has the same type, and no live instruction between `p`
   * and `q` has one of them as its destination.
   */
  ghost predicate CopiedAt(code: Code, p: nat, q: nat, x: Symbol, r: Symbol)
    requires q <= |code|
  {
    && p < q && !code[p].dead && code[p].op == Assign && code[p].dest == Some(x) && code[p].src1 == Some(r)
    && x.typ == r.typ && forall k :: p < k < q && !code[k].dead ==> code[k].dest != Some(x) && code[k].dest != Some(r)
  }

  /** Is `x` a copy of `r` before `q`, by an assignment of the block that starts at `start`? */
  ghost predicate HoldsCopy(code: Code, start: nat, q: nat, x: Symbol, r: Symbol)
    requires q <= |code|
  {
    exists p :: start <= p && CopiedAt(code, p, q, x, r)
  }

  /** Were the instructions from `start` up to `q` rewritten? */
  ghost predicate RewrittenFrom(code: Code, start: nat, q: nat, code': Code) {
    && q <= |code| == |code'|
    && forall k :: start <= k < q ==> WellFormed(code[k]) && code'[k] == Rewritten(LinksAt(code, start, k), code[k])
  }

  ghost predicate SameTypes(links: Links) {
    forall x :: x in links ==> links[x].typ == x.typ
  }

  lemma LinksStayApart(links: Links, i: Instruction)
    requires WellFormed(i) && DepthOne(links) && SameTypes(links)
    ensures DepthOne(LinksAfter(links, i)) && SameTypes(LinksAfter(links, i))
  {
  }

  lemma {:induction false} LinksAreApart(code: Code, start: nat, q: nat)
    requires q <= |code| && forall k :: start <= k < q ==> WellFormed(code[k])
    ensures DepthOne(LinksAt(code, start, q)) && SameTypes(LinksAt(code, start, q))
  {
    if start < q {
      hide WellFormed, LinksAfter;
      LinksAreApart(code, start, q - 1);
      LinksStayApart(LinksAt(code, start, q - 1), code[q - 1]);
    }
  }

  /** One more instruction and the copies in force. */
  lemma CopiesAfter(code: Code, start: nat, q: nat, x: Symbol, r: Symbol)
    requires start <= q < |code|
    ensures var i := code[q];
      HoldsCopy(code, start, q + 1, x, r) <==>
        if i.dead then HoldsCopy(code, start, q, x, r)
        else || (i.op == Assign && i.dest == Some(x) && i.src1 == Some(r) && x.typ == r.typ)
             || (i.dest != Some(x) && i.dest != Some(r) && HoldsCopy(code, start, q, x, r))
  {
    var n := q + 1;
    if p :| start <= p && CopiedAt(code, p, n, x, r) {
      assert p < q ==> CopiedAt(code, p, q, x, r);
    }
    if p :| start <= p && CopiedAt(code, p, q, x, r) {
      assert code[q].dead || (code[q].dest != Some(x) && code[q].dest != Some(r)) ==> CopiedAt(code, p, n, x, r);
    }
    if !code[q].dead && code[q].op == Assign && code[q].dest == Some(x) && code[q].src1 == Some(r) && x.typ == r.typ {
      assert CopiedAt(code, q, n, x, r);
    }
  }

  /** One more instruction and the links. */
  lemma LinkAfter(links: Links, i: Instruction, x: Symbol, r: Symbol)
    requires WellFormed(i) && DepthOne(links) && SameTypes(links)
    ensures var i', links' := Rewritten(links, i), LinksAfter(links, i);
      (x in links' && links'[x] == r) <==>
        if i'.dead then x in links && links[x] == r
        else || (i'.op == Assign && i'.dest == Some(x) && i'.src1 == Some(r) && x.typ == r.typ)
             || (i'.dest != Some(x) && i'.dest != Some(r) && x in links && links[x] == r)
  {
  }

  /** The links that the pass keeps are the copies in force in the list that it makes. */
  lemma {:induction false} LinksAreCopies(code: Code, code': Code, start: nat, q: nat, x: Symbol, r: Symbol)
    requires start <= q && RewrittenFrom(code, start, q, code')
    ensures HoldsCopy(code', start, q, x, r) <==> x in LinksAt(code, start, q) && LinksAt(code, start, q)[x] == r
  {
    hide *;
    if start < q {
      LastRewritten(code, code', start, q - 1);
      LinksAreCopies(code, code', start, q - 1, x, r);
      CopiesAfter(code', start, q - 1, x, r);
      LinkAfter(LinksAt(code, start, q - 1), code[q - 1], x, r);
    } else {
      NothingCopied(code, code', start, q, x, r);
    }
  }

  lemma LastRewritten(code: Code, code': Code, start: nat, q: nat)
    requires start <= q && RewrittenFrom(code, start, q + 1, code')
    ensures q < |code| == |code'| && WellFormed(code[q]) && RewrittenFrom(code, start, q, code')
    ensures code'[q] == Rewritten(LinksAt(code, start, q), code[q])
    ensures LinksAt(code, start, q + 1) == LinksAfter(LinksAt(code, start, q), code[q])
    ensures DepthOne(LinksAt(code, start, q)) && SameTypes(LinksAt(code, start, q))
  {
    hide WellFormed, Rewritten, LinksAfter;
    LinksAreApart(code, start, q);
  }

  lemma NothingCopied(code: Code, code': Code, start: nat, q: nat, x: Symbol, r: Symbol)
    requires q == start && RewrittenFrom(code, start, q, code')
    ensures q <= |code| == |code'| && !HoldsCopy(code', start, q, x, r) && x !in LinksAt(code, start, q)
  {
  }

  // ---------------------------------------------------------------- what the pass must do

  /** Do both variables hold copies of the same one, or one of them a copy of the other one? */
  ghost predicate SameOriginal(code: Code, start: nat, q: nat, x: Symbol, y: Symbol)
    requires q <= |code|
  {
    || x == y || HoldsCopy(code, start, q, x, y) || HoldsCopy(code, start, q, y, x)
    || exists r :: HoldsCopy(code, start, q, x, r) && HoldsCopy(code, start, q, y, r)
  }

  /** An operand that is a copy has been replaced by its original, and any other one is as before. */
  ghost predicate OperandReplaced(code: Code, start: nat, q: nat, x: Option<Symbol>, x': Option<Symbol>)
    requires q <= |code|
  {
    if x.None? then x' == None
    else
      && x'.Some? && (forall r :: HoldsCopy(code, start, q, x.value, r) ==> x'.value == r)
      && ((forall r :: !HoldsCopy(code, start, q, x.value, r)) ==> x' == x)
  }

  /**
   * An assignment dies if both sides hold the same by copies in force before it. Any other live instruction has
   * its operands replaced by the copies that are in force behind it, but for the names that calls and declarations
   * mention.
   */
  ghost predicate CopiesUsedAt(code: Code, code': Code, start: nat, q: nat)
    requires q < |code| == |code'|
  {
    var i, i' := code[q], code'[q];
    && i' == i.(src1 := i'.src1, src2 := i'.src2, dead := i'.dead) && (i.dead ==> i' == i)
    && (!i.dead ==>
          && (i'.dead <==> i.op == Assign && i.dest.Some? && i.src1.Some?
                             && SameOriginal(code', start, q, i.dest.value, i.src1.value))
          && if i'.dead || i.op == Call || i.op == Enter || i.op == GlobalDeclaration
             then i'.src1 == i.src1 && i'.src2 == i.src2
             else OperandReplaced(code', start, q + 1, i.src1, i'.src1)
                    && OperandReplaced(code', start, q + 1, i.src2, i'.src2))
  }

  /** That is so at every position, in terms of the lists before and after the pass. */
  ghost predicate CopiesUsed(code: Code, entry: nat, g: Cfg, code': Code)
    requires Placed(code, entry, g)
  {
    && |code'| == |code| && (forall q :: 0 <= q < entry ==> code'[q] == code[q])
    && forall q :: entry <= q < |code| ==> CopiesUsedAt(code, code', g.first[g.blockOf[q].value], q)
  }

  ghost predicate CopyBehind(code: Code, start: nat, q: nat, x: Symbol, r: Symbol)
    requires q < |code|
  {
    HoldsCopy(code, start, q + 1, x, r)
  }

  /**
   * After the pass no live instruction reads a variable that is a copy, made in the same block and still in force
   * behind the instruction.
   */
  ghost predicate NoCopyIsRead(code: Code, entry: nat, g: Cfg)
    requires Placed(code, entry, g)
  {
    forall q, x, r ::
      (entry <= q < |code| && !code[q].dead && code[q].op != Call && code[q].op != Enter
        && code[q].op != GlobalDeclaration && CopyBehind(code, g.first[g.blockOf[q].value], q, x, r)) ==>
        code[q].src1 != Some(x) && code[q].src2 != Some(x)
  }

  lemma LinksAreHeld(code: Code, code': Code, start: nat, q: nat)
    requires start <= q && RewrittenFrom(code, start, q, code')
    ensures q <= |code| == |code'| && DepthOne(LinksAt(code, start, q))
    ensures forall x, r :: HoldsCopy(code', start, q, x, r) <==>
              x in LinksAt(code, start, q) && LinksAt(code, start, q)[x] == r
  {
    LinksAreApart(code, start, q);
    hide LinksAt, HoldsCopy;
    forall x, r
      ensures HoldsCopy(code', start, q, x, r) <==> x in LinksAt(code, start, q) && LinksAt(code, start, q)[x] == r
    {
      LinksAreCopies(code, code', start, q, x, r);
    }
  }

  lemma RedundantIsSame(code: Code, code': Code, start: nat, q: nat)
    requires start <= q < |code| && RewrittenFrom(code, start, q, code') && WellFormed(code[q])
    ensures var i := code[q];
      IsRedundant(LinksAt(code, start, q), i) <==>
        i.op == Assign && i.dest.Some? && i.src1.Some? && SameOriginal(code', start, q, i.dest.value, i.src1.value)
  {
    var i, links := code[q], LinksAt(code, start, q);
    LinksAreHeld(code, code', start, q);
    hide WellFormed, LinksAt, HoldsCopy, RewrittenFrom;
    if i.op == Assign && i.dest.Some? && i.src1.Some? && Root(links, i.dest.value) == Root(links, i.src1.value) {
      var x, y := i.dest.value, i.src1.value;
      if x in links && y in links {
        assert HoldsCopy(code', start, q, x, links[x]) && HoldsCopy(code', start, q, y, links[x]);
      }
    }
  }

  lemma RootReplaces(code': Code, start: nat, q: nat, links: Links, x: Option<Symbol>)
    requires q <= |code'| && DepthOne(links)
    requires forall x, r :: HoldsCopy(code', start, q, x, r) <==> x in links && links[x] == r
    ensures OperandReplaced(code', start, q, x, RootOperand(links, x))
    ensures forall y, r :: HoldsCopy(code', start, q, y, r) ==> RootOperand(links, x) != Some(y)
  {
    hide HoldsCopy;
    if x.Some? && x.value in links {
      assert HoldsCopy(code', start, q, x.value, links[x.value]);
    }
  }

  lemma OperandsReplaced(code: Code, code': Code, start: nat, q: nat, links: Links, i: Instruction)
    requires start <= q < |code| && RewrittenFrom(code, start, q + 1, code')
    requires i == code[q] && links == LinksAt(code, start, q + 1)
    ensures OperandReplaced(code', start, q + 1, i.src1, RootOperand(links, i.src1))
    ensures OperandReplaced(code', start, q + 1, i.src2, RootOperand(links, i.src2))
    ensures forall y, r :: CopyBehind(code', start, q, y, r) ==>
              RootOperand(links, i.src1) != Some(y) && RootOperand(links, i.src2) != Some(y)
  {
    hide HoldsCopy, LinksAt, WellFormed, Rewritten, OperandReplaced, RootOperand;
    LinksAreHeld(code, code', start, q + 1);
    RootReplaces(code', start, q + 1, links, i.src1);
    RootReplaces(code', start, q + 1, links, i.src2);
  }

  lemma RewritingUsesCopies(code: Code, code': Code, start: nat, q: nat)
    requires start <= q < |code| == |code'| && RewrittenFrom(code, start, q + 1, code')
    ensures CopiesUsedAt(code, code', start, q)
    ensures var i := code'[q];
      !i.dead && i.op != Call && i.op != Enter && i.op != GlobalDeclaration ==>
        forall x, r :: CopyBehind(code', start, q, x, r) ==> i.src1 != Some(x) && i.src2 != Some(x)
  {
    assert WellFormed(code[q]) && code'[q] == Rewritten(LinksAt(code, start, q), code[q]);
    assert LinksAt(code, start, q + 1) == LinksAfter(LinksAt(code, start, q), code[q]);
    RedundantIsSame(code, code', start, q);
    OperandsReplaced(code, code', start, q, LinksAt(code, start, q + 1), code[q]);
    hide LinksAt, LinksAfter, HoldsCopy, CopyBehind, SameOriginal, RewrittenFrom;
  }

  lemma PropagationUsesCopies(code: Code, entry: nat, g: Cfg, code': Code)
    requires Propagatable(code, entry, g) && PropagatedCode(code, entry, g, code')
    ensures Placed(code', entry, g) && CopiesUsed(code, entry, g, code') && NoCopyIsRead(code', entry, g)
  {
    forall q | entry <= q < |code|
      ensures g.first[g.blockOf[q].value] <= q && RewrittenFrom(code, g.first[g.blockOf[q].value], q + 1, code')
    {
      BlockRewritten(code, entry, g, code', q);
    }
    SamePlaces(code, entry, g, code');
    hide Placed, Propagatable, PropagatedCode, RewrittenFrom, CopiesUsedAt, CopyBehind, WellFormed;
    forall q | entry <= q < |code|
      ensures CopiesUsedAt(code, code', g.first[g.blockOf[q].value], q)
      ensures var i := code'[q];
        !i.dead && i.op != Call && i.op != Enter && i.op != GlobalDeclaration ==>
          forall x, r :: CopyBehind(code', g.first[g.blockOf[q].value], q, x, r) ==>
            i.src1 != Some(x) && i.src2 != Some(x)
    {
      RewritingUsesCopies(code, code', g.first[g.blockOf[q].value], q);
    }
  }

  lemma SamePlaces(code: Code, entry: nat, g: Cfg, code': Code)
    requires Propagatable(code, entry, g) && PropagatedCode(code, entry, g, code')
    ensures |code'| == |code| && Placed(code', entry, g) && forall q :: 0 <= q < entry ==> code'[q] == code[q]
  {
    hide LinksAt, IsRedundant, RootOperand, Covers;
    forall q | 0 <= q < |code|
      ensures code[q].op == Enter && WellFormed(code[q]) ==> code'[q].op == Enter && WellFormed(code'[q])
    {
      assert code'[q] == if entry <= q then Rewritten(LinksBefore(code, entry, g, q), code[q]) else code[q];
    }
  }

  lemma BlockRewritten(code: Code, entry: nat, g: Cfg, code': Code, q: nat)
    requires Propagatable(code, entry, g) && PropagatedCode(code, entry, g, code') && entry <= q < |code|
    ensures g.first[g.blockOf[q].value] <= q && RewrittenFrom(code, g.first[g.blockOf[q].value], q + 1, code')
  {
    hide Rewritten, LinksAt, Covers, WellFormed;
    var b := g.blockOf[q].value;
    assert g.first[b] <= q <= End(g, b);
    forall k | g.first[b] <= k <= q
      ensures WellFormed(code[k]) && code'[k] == Rewritten(LinksAt(code, g.first[b], k), code[k])
    {
      assert g.blockOf[k] == Some(b);
    }
  }

  /** An instruction in a block of its own function: x := y; x := x + y. */
  function IncreasesCopy(f: Symbol, x: Symbol, y: Symbol): Code {
    [Instruction(Enter, Plus, None, Some(f), None, 0, false),
     Instruction(Assign, Plus, Some(x), Some(y), None, 0, false),
     Instruction(Binary, Plus, Some(x), Some(x), Some(y), 0, false)]
  }

  /** An instruction that overwrites the copy itself still reads it: the link goes before operands are replaced. */
  lemma OwnDestinationIsRead(f: Symbol, x: Symbol, y: Symbol)
    requires x != y && x.typ == y.typ == IntType
    ensures var g := Cfg([Some(0), Some(0), Some(0)], [0], [Some(2)], [[]], [[]]);
      && Placed(IncreasesCopy(f, x, y), 0, g)
      && PropagatedCode(IncreasesCopy(f, x, y), 0, g, IncreasesCopy(f, x, y))
      && HoldsCopy(IncreasesCopy(f, x, y), 0, 2, x, y)
  {
    var code := IncreasesCopy(f, x, y);
    var g := Cfg([Some(0), Some(0), Some(0)], [0], [Some(2)], [[]], [[]]);
    assert CopiedAt(code, 1, 2, x, y);
    assert LinksAt(code, 0, 1) == map[];
    assert LinksAt(code, 0, 2) == map[x := y];
    assert LinksAfter(LinksAt(code, 0, 2), code[2]) == map[];
  }

  // ---------------------------------------------------------------- the pass over all blocks

  /** What the pass takes for granted: control enters blocks at their first instruction, and so do calls. */
  ghost predicate Propagatable(code: Code, entry: nat, g: Cfg) {
    && WellFormedCode(code, entry) && Placed(code, entry, g) && Covers(code, entry, g)
    && (forall p :: 0 <= p < |code| && code[p].op == Call ==> IsFirst(g.blockOf, g.first, p))
  }

  /** The links that hold before `p` in its block. */
  ghost function LinksBefore(code: Code, entry: nat, g: Cfg, p: nat): Links
    requires Placed(code, entry, g)
  {
    if entry <= p < |code| then LinksAt(code, g.first[g.blockOf[p].value], p) else map[]
  }

  ghost predicate PropagatedCode(code: Code, entry: nat, g: Cfg, code': Code)
    requires Placed(code, entry, g)
  {
    && |code'| == |code|
    && forall p :: 0 <= p < |code| ==>
         code'[p] == if entry <= p then Rewritten(LinksBefore(code, entry, g, p), code[p]) else code[p]
  }

  /** Wherever a step leads, the links of that place hold. */
  lemma LinksFollow(m: Machine, code: Code, entry: nat, g: Cfg, s: State)
    requires m.Valid() && Propagatable(code, entry, g)
    requires LinksHold(m, s, LinksBefore(code, entry, g, s.pc))
    ensures var s' := Step(m, code, s); LinksHold(m, s', LinksBefore(code, entry, g, s'.pc))
  {
    hide LinksHold, Execute, LinksAt;
    var s', p := Step(m, code, s), s.pc;
    if s.status == Running && p < |code| {
      ExecutedPc(m, s, code[p]);
      assert p < entry || (CoversFall(code, g, p) && CoversJump(code, g, p));
      var q := s'.pc;
      NoLinksHold(m, s');
      if q <= entry || IsFirst(g.blockOf, g.first, q) {
        StartLinks(code, entry, g, q);
      } else if q < |code| {
        StepInBlock(m, code, entry, g, s);
      }
    }
  }

  lemma StepInBlock(m: Machine, code: Code, entry: nat, g: Cfg, s: State)
    requires m.Valid() && Propagatable(code, entry, g) && s.status == Running && entry <= s.pc < |code|
    requires LinksHold(m, s, LinksBefore(code, entry, g, s.pc))
    ensures var s' := Step(m, code, s);
            && (s'.pc == s.pc ==> LinksHold(m, s', LinksBefore(code, entry, g, s.pc)))
            && (s'.pc == s.pc + 1 < |code| && g.blockOf[s.pc + 1] == g.blockOf[s.pc] ==>
                  LinksHold(m, s', LinksBefore(code, entry, g, s.pc + 1)))
  {
    hide Covers;
    var p, s' := s.pc, Step(m, code, s);
    var i, links := code[p], LinksBefore(code, entry, g, p);
    if i.dead || i.op == Return {
      assert LinksAfter(links, i) == links;
      SameStoresSameLinks(m, s, s', links);
    } else if i.op == Call {
      assert links == map[] && LinksAfter(links, i) == map[];
    } else {
      LinksHoldAfter(m, s, links, i);
      ExecutedPc(m, s, i);
    }
  }

  lemma SameStoresSameLinks(m: Machine, s: State, s': State, links: Links)
    requires LinksHold(m, s, links) && s'.globals == s.globals && s'.locals == s.locals
    ensures LinksHold(m, s', links)
  {
    forall x | x in links ensures Equal(m, s', x, links[x]) {
      assert Equal(m, s, x, links[x]);
    }
  }

  /** From the start of a block on, the code and its propagated form run through exactly the same states. */
  lemma {:induction false} PropagationRun(m: Machine, code: Code, code': Code, entry: nat, g: Cfg, s: State, n: nat)
    requires m.Valid() && Propagatable(code, entry, g)
    requires Placed(code, entry, g) && PropagatedCode(code, entry, g, code')
    requires s.pc <= entry || IsFirst(g.blockOf, g.first, s.pc)
    ensures var s' := Run(m, code, s, n);
            Run(m, code', s, n) == s' && LinksHold(m, s', LinksBefore(code, entry, g, s'.pc))
  {
    hide *;
    if n == 0 {
      RunIsSteps(m, code, s, 0);
      RunIsSteps(m, code', s, 0);
      StartLinks(code, entry, g, s.pc);
      NoLinksHold(m, s);
    } else {
      PropagationRun(m, code, code', entry, g, s, n - 1);
      var r := Run(m, code, s, n - 1);
      LinksFollow(m, code, entry, g, r);
      PropagationStep(m, code, code', entry, g, r);
      RunIsSteps(m, code, s, n - 1);
      RunIsSteps(m, code', s, n - 1);
    }
  }

  lemma NoLinksHold(m: Machine, s: State)
    ensures LinksHold(m, s, map[])
  {
  }

  lemma StartLinks(code: Code, entry: nat, g: Cfg, p: nat)
    requires Placed(code, entry, g) && (p <= entry || IsFirst(g.blockOf, g.first, p))
    ensures LinksBefore(code, entry, g, p) == map[]
  {
    if entry <= p < |code| {
      var b := g.blockOf[p].value;
      assert g.blockOf[g.first[b]] == Some(b);
      assert LinksAt(code, g.first[b], p) == map[];
    }
  }

  lemma PropagationStep(m: Machine, code: Code, code': Code, entry: nat, g: Cfg, s: State)
    requires m.Valid() && Propagatable(code, entry, g) && PropagatedCode(code, entry, g, code')
    requires LinksHold(m, s, LinksBefore(code, entry, g, s.pc))
    ensures Step(m, code, s) == Step(m, code', s)
  {
    hide Execute, LinksHold, LinksAt, Covers, Placed;
    if s.status == Running && s.pc < |code| && entry <= s.pc && !code[s.pc].dead {
      RewrittenDoesTheSame(m, s, LinksBefore(code, entry, g, s.pc), code[s.pc]);
    }
  }

  /** The positions from `start` up to `bound` are rewritten, the others are as before. */
  ghost predicate RewrittenUpTo(before: Code, start: nat, bound: nat, code: Code) {
    && |code| == |before|
    && forall p :: 0 <= p < |before| ==>
         code[p] == if start <= p < bound then Rewritten(LinksAt(before, start, p), before[p]) else before[p]
  }

  /** Rewrites one block, from its first instruction to its last. */
  method PropagateInBlock(code: array<Instruction>, g: Cfg, b: nat, links: CopyLinks)
    requires code.Length == |g.blockOf| && b < |g.first| == |g.last| && End(g, b) < code.Length
    requires forall p :: 0 <= p < code.Length ==> (g.blockOf[p] == Some(b) <==> g.first[b] <= p <= End(g, b))
    requires g.first[b] <= End(g, b)
    requires forall p :: g.first[b] <= p <= End(g, b) ==> WellFormed(code[p])
    requires links.Valid() && links.copiedFrom == map[]
    modifies code, links
    ensures links.Valid()
    ensures RewrittenUpTo(old(code[..]), g.first[b], End(g, b) + 1, code[..])
  {
    hide WellFormed, Rewritten, Consistent, LinksAfter;
    ghost var before := code[..];
    var p := g.first[b];
    while p < code.Length && g.blockOf[p] == Some(b)
      invariant g.first[b] <= p <= End(g, b) + 1 && links.Valid()
      invariant links.copiedFrom == LinksAt(before, g.first[b], p)
      invariant RewrittenUpTo(before, g.first[b], p, code[..])
    {
      var i := links.PropagateInstruction(code[p]);
      code[p] := i;
      p := p + 1;
    }
  }

  method DoCopyPropagation(code: array<Instruction>, ghost entry: nat, g: Cfg)
    requires Propagatable(code[..], entry, g)
    modifies code
    ensures PropagatedCode(old(code[..]), entry, g, code[..])
    ensures Placed(code[..], entry, g) && CopiesUsed(old(code[..]), entry, g, code[..])
    ensures NoCopyIsRead(code[..], entry, g)
  {
    ghost var before := code[..];
    var links := new CopyLinks();
    for b := |g.first| downto 0
      invariant links.Valid() && links.copiedFrom == map[]
      invariant PropagatedDownTo(before, entry, g, b, code[..])
    {
      hide WellFormed, Rewritten, Consistent, LinksAt;
      ghost var middle := code[..];
      BlockAsBefore(before, entry, g, b, middle);
      PropagateInBlock(code, g, b, links);
      BlockPropagated(before, entry, g, b, middle, code[..]);
      links.ClearPropagatedVars();
    }
    PropagationUsesCopies(before, entry, g, code[..]);
  }

  lemma BlockAsBefore(before: Code, entry: nat, g: Cfg, b: nat, middle: Code)
    requires Propagatable(before, entry, g) && b < |g.first| && PropagatedDownTo(before, entry, g, b + 1, middle)
    ensures |g.blockOf| == |middle| && g.first[b] <= End(g, b) < |middle|
    ensures forall p :: 0 <= p < |middle| ==> (g.blockOf[p] == Some(b) <==> g.first[b] <= p <= End(g, b))
    ensures forall p :: g.first[b] <= p <= End(g, b) ==> middle[p] == before[p] && WellFormed(middle[p])
  {
    assert forall p :: g.first[b] <= p <= End(g, b) ==> g.blockOf[p] == Some(b);
  }

  lemma {:induction false} LinksAtIsLocal(code: Code, code': Code, start: nat, p: nat)
    requires start <= p <= |code| == |code'| && forall q :: start <= q < p ==> code[q] == code'[q]
    ensures LinksAt(code, start, p) == LinksAt(code', start, p)
  {
    if start < p {
      LinksAtIsLocal(code, code', start, p - 1);
    }
  }

  lemma BlockPropagated(before: Code, entry: nat, g: Cfg, b: nat, middle: Code, code: Code)
    requires Propagatable(before, entry, g) && b < |g.first| && PropagatedDownTo(before, entry, g, b + 1, middle)
    requires RewrittenUpTo(middle, g.first[b], End(g, b) + 1, code)
    ensures PropagatedDownTo(before, entry, g, b, code)
  {
    hide Rewritten, WellFormedCode, Covers;
    forall p | entry <= p < |before| && g.blockOf[p].value == b
      ensures code[p] == Rewritten(LinksBefore(before, entry, g, p), before[p])
    {
      assert forall q :: g.first[b] <= q <= End(g, b) ==> g.blockOf[q] == Some(b);
      LinksAtIsLocal(before, middle, g.first[b], p);
    }
  }

  /** The blocks from `b` on are rewritten. */
  ghost predicate PropagatedDownTo(before: Code, entry: nat, g: Cfg, b: nat, code: Code)
    requires Placed(before, entry, g)
  {
    && |code| == |before|
    && forall p :: 0 <= p < |before| ==>
         code[p] == if entry <= p && b <= g.blockOf[p].value
                    then Rewritten(LinksBefore(before, entry, g, p), before[p]) else before[p]
  }
}
