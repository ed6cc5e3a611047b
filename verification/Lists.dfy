/** Removal from a singly linked list, searched from its head (symbol-table.c, graph.c). */
module Lists {

  /** The list without the first occurrence of `x`. */
  function RemoveFirst<T(==)>(list: seq<T>, x: T): (r: seq<T>)
    requires x in list
    ensures multiset(r) == multiset(list) - multiset{x}
    ensures |r| == |list| - 1
  {
    if list[0] == x then assert list == [list[0]] + list[1..]; list[1..]
    else
      assert list == [list[0]] + list[1..];
      [list[0]] + RemoveFirst(list[1..], x)
  }

  method Remove<T(==)>(x: T, list: seq<T>) returns (r: seq<T>)
    requires x in list
    ensures r == RemoveFirst(list, x)
  {
    var k := 0;
    while list[k] != x
      invariant 0 <= k < |list| && x !in list[..k] && x in list[k..]
      decreases |list| - k
    {
      k := k + 1;
    }
    RemoveFirstAt(list, x, k);
    r := list[..k] + list[k + 1..];
  }

  lemma {:induction false} RemoveFirstAt<T>(list: seq<T>, x: T, k: nat)
    requires k < |list| && list[k] == x && x !in list[..k]
    ensures RemoveFirst(list, x) == list[..k] + list[k + 1..]
  {
    if k > 0 {
      assert list[1..][..k - 1] == list[..k][1..];
      RemoveFirstAt(list[1..], x, k - 1);
    }
  }

  /** A list that holds each element of a set once and nothing else. */
  ghost predicate Enumerates<T>(list: seq<T>, s: set<T>) {
    multiset(list) == multiset(s)
  }

  lemma EnumeratedElements<T>(list: seq<T>, s: set<T>, x: T)
    requires Enumerates(list, s)
    ensures x in list <==> x in s
  {
    assert x in list <==> multiset(list)[x] > 0;
  }

  lemma EnumeratedSize<T>(list: seq<T>, s: set<T>)
    requires Enumerates(list, s)
    ensures |list| == |s|
  {
    assert |multiset(list)| == |list|;
  }

  lemma RemovedEnumerates<T>(list: seq<T>, s: set<T>, x: T)
    requires Enumerates(list, s) && x in s && x in list
    ensures Enumerates(RemoveFirst(list, x), s - {x})
  {
  }

  lemma PrependedEnumerates<T>(list: seq<T>, s: set<T>, x: T)
    requires Enumerates(list, s) && x !in s
    ensures Enumerates([x] + list, s + {x})
  {
  }
}
