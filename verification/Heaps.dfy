/** A binary heap over graph nodes, ordered by cost (heap.c). */
module Heaps {
  import opened Instructions

  datatype Entry = Entry(node: nat, cost: int)

  /** Is `a` at least as good a root as `b`? */
  predicate Better(min: bool, a: Entry, b: Entry) {
    if min then a.cost <= b.cost else a.cost >= b.cost
  }

  predicate StrictlyBetter(min: bool, a: Entry, b: Entry) {
    if min then a.cost < b.cost else a.cost > b.cost
  }

  /** The entry at `i` is at least as good as its children. */
  predicate OrderedAt(min: bool, s: seq<Entry>, i: nat)
    requires i < |s|
  {
    && (2 * i + 1 < |s| ==> Better(min, s[i], s[2 * i + 1]))
    && (2 * i + 2 < |s| ==> Better(min, s[i], s[2 * i + 2]))
  }

  ghost predicate HeapFrom(min: bool, s: seq<Entry>, k: nat) {
    forall i :: k <= i < |s| ==> OrderedAt(min, s, i)
  }

  /** The entry at `p`, a parent of `i`, is at least as good as the children of `i`. */
  predicate OverGrandchildren(min: bool, s: seq<Entry>, p: nat, i: nat)
    requires p < |s|
  {
    i == 2 * p + 1 || i == 2 * p + 2 ==>
      && (2 * i + 1 < |s| ==> Better(min, s[p], s[2 * i + 1]))
      && (2 * i + 2 < |s| ==> Better(min, s[p], s[2 * i + 2]))
  }

  /** A heap from `k` on, but for the entry at `i`, which may have to sink. */
  ghost predicate AlmostHeap(min: bool, s: seq<Entry>, k: nat, i: nat) {
    && (forall p :: k <= p < |s| && p != i ==> OrderedAt(min, s, p))
    && (forall p :: k <= p < |s| ==> OverGrandchildren(min, s, p, i))
  }

  /** The root of a heap is at least as good as every entry. */
  lemma {:induction false} RootIsBest(min: bool, s: seq<Entry>, j: nat)
    requires HeapFrom(min, s, 0) && j < |s|
    ensures Better(min, s[0], s[j])
  {
    if j > 0 {
      var p := (j - 1) / 2;
      RootIsBest(min, s, p);
      assert OrderedAt(min, s, p);
    }
  }

  function Swapped(s: seq<Entry>, i: nat, j: nat): (r: seq<Entry>)
    requires i < |s| && j < |s|
    ensures multiset(r) == multiset(s)
  {
    s[i := s[j]][j := s[i]]
  }

  /** The position the entry at `i` has to be exchanged with: its best child if that is better, else `i`. */
  function BestOf(min: bool, s: seq<Entry>, i: nat): (best: nat)
    requires i < |s|
    ensures best == i || best == 2 * i + 1 || best == 2 * i + 2
    ensures best < |s| && Better(min, s[best], s[i])
    ensures 2 * i + 1 < |s| ==> Better(min, s[best], s[2 * i + 1])
    ensures 2 * i + 2 < |s| ==> Better(min, s[best], s[2 * i + 2])
  {
    var best := if 2 * i + 1 < |s| && StrictlyBetter(min, s[2 * i + 1], s[i]) then 2 * i + 1 else i;
    if 2 * i + 2 < |s| && StrictlyBetter(min, s[2 * i + 2], s[best]) then 2 * i + 2 else best
  }

  lemma SinkingKeepsAlmostHeap(min: bool, s: seq<Entry>, k: nat, i: nat)
    requires i < |s| && k <= i && AlmostHeap(min, s, k, i)
    ensures var best := BestOf(min, s, i);
            if best == i then HeapFrom(min, s, k) else AlmostHeap(min, Swapped(s, i, best), k, best)
  {
    var best := BestOf(min, s, i);
    if best != i {
      var s' := Swapped(s, i, best);
      assert OrderedAt(min, s, best);
      forall p | k <= p < |s'| && p != best ensures OrderedAt(min, s', p) {
        assert OverGrandchildren(min, s, p, i);
        assert p != i ==> OrderedAt(min, s, p);
      }
      forall p | k <= p < |s'| ensures OverGrandchildren(min, s', p, best) {
      }
    }
  }

  lemma NothingToSink(min: bool, s: seq<Entry>, k: nat, i: nat)
    requires |s| <= i
    ensures AlmostHeap(min, s, k, i) ==> HeapFrom(min, s, k)
  {
  }

  class Heap {
    const items: array<Entry>
    const min: bool
    var size: nat

    ghost predicate Valid()
      reads this
    {
      size <= items.Length
    }

    /** The entries in the heap, by position. */
    ghost function Entries(): seq<Entry>
      reads this, items
      requires Valid()
    {
      items[..size]
    }

    constructor (maxSize: nat, min: bool)
      ensures Valid() && fresh(items) && items.Length == maxSize && this.min == min && size == 0
    {
      items := new Entry[maxSize](_ => Entry(0, 0));
      this.min := min;
      size := 0;
    }

    /** Appends an entry; the order is restored by BuildHeap. */
    method Add(e: Entry)
      requires Valid() && size < items.Length
      modifies this`size, items
      ensures Valid() && Entries() == old(Entries()) + [e]
    {
      items[size] := e;
      size := size + 1;
    }

    method Swap(i: nat, j: nat)
      requires Valid() && i < size && j < size
      modifies items
      ensures Entries() == Swapped(old(Entries()), i, j)
    {
      items[i], items[j] := items[j], items[i];
    }

    /** Lets the entry at `i` sink until it is at least as good as its children. */
    method Heapify(i: nat, ghost k: nat)
      requires Valid() && k <= i
      modifies items
      ensures multiset(Entries()) == old(multiset(Entries()))
      ensures old(AlmostHeap(min, Entries(), k, i)) ==> HeapFrom(min, Entries(), k)
      decreases size - i
    {
      hide AlmostHeap, HeapFrom, Better, Swapped, StrictlyBetter;
      if i >= size {
        NothingToSink(min, Entries(), k, i);
        return;
      }
      var left, right, best := 2 * i + 1, 2 * i + 2, i;
      if left < size && StrictlyBetter(min, items[left], items[best]) {
        best := left;
      }
      if right < size && StrictlyBetter(min, items[right], items[best]) {
        best := right;
      }
      assert best == BestOf(min, Entries(), i);
      if old(AlmostHeap(min, Entries(), k, i)) {
        SinkingKeepsAlmostHeap(min, Entries(), k, i);
      }
      if best != i {
        Swap(i, best);
        Heapify(best, k);
      }
    }

    /** Turns any array into a heap. */
    method BuildHeap()
      requires Valid()
      modifies items
      ensures multiset(Entries()) == old(multiset(Entries()))
      ensures HeapFrom(min, Entries(), 0)
    {
      for i := size downto 0
        invariant multiset(Entries()) == old(multiset(Entries()))
        invariant HeapFrom(min, Entries(), i)
      {
        Heapify(i, i);
      }
    }

    /** Takes the root out; from a heap it is a best entry and leaves a heap. */
    method ExtractRoot() returns (root: Option<Entry>)
      requires Valid()
      modifies this`size, items
      ensures Valid()
      ensures old(size) == 0 ==> root == None && Entries() == old(Entries())
      ensures old(size) > 0 ==>
                && root.Some? && root.value in old(Entries())
                && multiset(Entries()) == old(multiset(Entries())) - multiset{root.value}
      ensures old(size) > 0 && old(HeapFrom(min, Entries(), 0)) ==>
                && HeapFrom(min, Entries(), 0)
                && forall e :: e in old(Entries()) ==> Better(min, root.value, e)
    {
      if size == 0 {
        return None;
      }
      ghost var before := Entries();
      var e := items[0];
      root := Some(e);
      items[0] := items[size - 1];
      size := size - 1;
      ghost var moved := Entries();
      RootTaken(before, moved);
      if HeapFrom(min, before, 0) {
        RootTakenAlmost(min, before, moved);
      }
      Heapify(0, 0);
    }
  }

  lemma RootTaken(before: seq<Entry>, moved: seq<Entry>)
    requires |before| > 0 && |moved| == |before| - 1
    requires moved == if |moved| == 0 then [] else [before[|before| - 1]] + before[1..|before| - 1]
    ensures multiset(moved) == multiset(before) - multiset{before[0]}
  {
    var n := |before|;
    assert before == [before[0]] + before[1..];
    if n > 1 {
      assert before[1..] == before[1..n - 1] + [before[n - 1]];
    }
  }

  lemma RootTakenAlmost(min: bool, before: seq<Entry>, moved: seq<Entry>)
    requires |before| > 0 && |moved| == |before| - 1 && HeapFrom(min, before, 0)
    requires forall j :: 0 < j < |moved| ==> moved[j] == before[j]
    ensures AlmostHeap(min, moved, 0, 0)
    ensures forall e :: e in before ==> Better(min, before[0], e)
  {
    forall p | 0 < p < |moved| ensures OrderedAt(min, moved, p) {
      assert OrderedAt(min, before, p);
    }
    forall j | 0 <= j < |before| ensures Better(min, before[0], before[j]) {
      RootIsBest(min, before, j);
    }
  }
}
