/**
 * The doubly linked lists of graph nodes (graph.c). Taking off the first item leaves the backward
 * pointer of the next one as it is, so this pointer means nothing in the first item of a list.
 */
module LinkedLists {
  import opened Lists

  class ListItem {
    var node: nat
    var next: ListItem?
    var prev: ListItem?

    constructor (node: nat, next: ListItem?)
      ensures this.node == node && this.next == next && prev == null
    {
      this.node, this.next, prev := node, next, null;
    }
  }

  ghost function ItemAt(items: seq<ListItem>, i: nat): ListItem? {
    if i < |items| then items[i] else null
  }

  ghost predicate LinkedAt(items: seq<ListItem>, i: nat)
    requires i < |items|
    reads items[i]
  {
    items[i].next == ItemAt(items, i + 1) && (0 < i ==> items[i].prev == ItemAt(items, i - 1))
  }

  class LinkedList {
    var head: ListItem?
    ghost var items: seq<ListItem>

    /** The items are linked in both directions, but for what is in front of the first one. */
    ghost predicate Valid()
      reads this, set i | i in items
    {
      && head == (if items == [] then null else items[0])
      && (forall i, j :: 0 <= i < j < |items| ==> items[i] != items[j])
      && (forall i :: 0 <= i < |items| ==> LinkedAt(items, i))
    }

    ghost function Nodes(): (r: seq<nat>)
      reads this, set i | i in items
      ensures |r| == |items| && forall i :: 0 <= i < |items| ==> r[i] == items[i].node
    {
      seq(|items|, i requires 0 <= i < |items| reads this, set i | i in items => items[i].node)
    }

    constructor ()
      ensures Valid() && items == []
    {
      head, items := null, [];
    }

    /** A new item comes first. */
    method AddFirst(node: nat)
      requires Valid()
      modifies this, head
      ensures Valid() && Nodes() == [node] + old(Nodes())
      ensures |items| == |old(items)| + 1 && items[1..] == old(items) && fresh(items[0])
    {
      ghost var was := items;
      var item := new ListItem(node, head);
      if head != null {
        head.prev := item;
      }
      head := item;
      items := [item] + items;
      forall i | 0 <= i < |items| ensures LinkedAt(items, i) {
        if 0 < i {
          assert old(LinkedAt(was, i - 1));
        }
      }
    }

    /** Takes off the first item of a node: where it is the first of all, or by its backward pointer. */
    method RemoveNode(node: nat)
      requires Valid() && node in Nodes()
      modifies this, set i | i in items
      ensures Valid() && Nodes() == RemoveFirst(old(Nodes()), node)
      ensures forall i :: i in items ==> i in old(items)
    {
      if head.node == node {
        RemoveFirstAt(Nodes(), node, 0);
        TakeOffFirst();
      } else {
        var item;
        ghost var k;
        item, k := FindNode(node);
        RemoveFirstAt(Nodes(), node, k);
        SpliceOut(item, k);
      }
    }

    method FindNode(node: nat) returns (item: ListItem, ghost k: nat)
      requires Valid() && node in Nodes()
      ensures k < |items| && item == items[k] && item.node == node && node !in Nodes()[..k]
    {
      item, k := head, 0;
      while item.node != node
        invariant 0 <= k < |items| && item == items[k] && node !in Nodes()[..k]
        decreases |items| - k
      {
        FoundLater(k, node);
        item, k := item.next, k + 1;
      }
    }

    lemma FoundLater(k: nat, node: nat)
      requires Valid() && k < |items| && node in Nodes() && node !in Nodes()[..k] && items[k].node != node
      ensures k + 1 < |items| && items[k].next == items[k + 1] && node !in Nodes()[..k + 1]
    {
      assert LinkedAt(items, k);
      assert Nodes()[..k + 1] == Nodes()[..k] + [items[k].node];
    }

    method TakeOffFirst()
      requires Valid() && items != []
      modifies this, items[0]
      ensures Valid() && items == old(items[1..]) && Nodes() == old(Nodes()[1..])
    {
      ghost var was := items;
      var tmp := head;
      assert LinkedAt(was, 0);
      head := head.next;
      items := items[1..];
      tmp.next := null;
      forall i | 0 <= i < |items| ensures LinkedAt(items, i) {
        assert old(LinkedAt(was, i + 1)) && items[i] == was[i + 1] && items[i] != tmp;
      }
    }

    /** The pointer to the previous item is valid in every item but the first one. */
    method SpliceOut(item: ListItem, ghost k: nat)
      requires Valid() && 0 < k < |items| && item == items[k]
      modifies this`items, set i | i in items
      ensures Valid() && items == old(items[..k] + items[k + 1..])
      ensures Nodes() == old(Nodes()[..k] + Nodes()[k + 1..])
    {
      ghost var was := items;
      assert LinkedAt(items, k) && was[k - 1] in items && (k + 1 < |was| ==> was[k + 1] in items);
      item.prev.next := item.next;
      if item.next != null {
        item.next.prev := item.prev;
      }
      items := was[..k] + was[k + 1..];
      item.prev, item.next := null, null;
      forall i | 0 <= i < |items| ensures LinkedAt(items, i) {
        var j := if i < k then i else i + 1;
        assert old(LinkedAt(was, j)) && old(LinkedAt(was, k)) && items[i] == was[j] && was[j] != item;
      }
    }
  }
}
