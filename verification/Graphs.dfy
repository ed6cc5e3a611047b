/** The interference graph as adjacency lists that are spliced in place (graph.c). */
module Graphs {
  import opened Lists

  /** No self-loops, and every edge is known at both ends. */
  ghost predicate SimpleGraph(neighborSet: seq<set<nat>>) {
    forall u: nat, v: nat :: u < |neighborSet| ==> SimpleEdge(neighborSet, u, v)
  }

  ghost predicate SimpleEdge(neighborSet: seq<set<nat>>, u: nat, v: nat)
    requires u < |neighborSet|
  {
    v in neighborSet[u] ==> v < |neighborSet| && v != u && u in neighborSet[v]
  }

  /** The list of neighbours of a node in the graph holds each neighbour in the graph once, and counts them. */
  ghost predicate ListsNeighbors(r: set<nat>, adjacent: set<nat>, list: seq<nat>, count: int) {
    Enumerates(list, adjacent * r) && count == |list|
  }

  /** The lists of the nodes `r` that are still in the graph, `neighborSet` being the edges ever added. */
  ghost predicate Consistent(
      r: set<nat>, nodes: seq<nat>, neighbors: seq<seq<nat>>, numNeighbors: seq<int>, neighborSet: seq<set<nat>>)
  {
    && |neighbors| == |numNeighbors| == |neighborSet|
    && Enumerates(nodes, r) && (forall u :: u in r ==> u < |neighbors|)
    && SimpleGraph(neighborSet)
    && (forall u :: u in r ==> ListsNeighbors(r, neighborSet[u], neighbors[u], numNeighbors[u]))
  }

  ghost function NodeSet(nodes: seq<nat>): set<nat> {
    set u | u in nodes
  }

  class InterferenceGraph {
    var nodes: seq<nat>
    var neighbors: seq<seq<nat>>
    var numNeighbors: seq<int>
    var neighborSet: seq<set<nat>>

    /** The nodes in the graph. */
    ghost function Remaining(): set<nat>
      reads this
    {
      NodeSet(nodes)
    }

    ghost predicate Valid()
      reads this
    {
      Consistent(Remaining(), nodes, neighbors, numNeighbors, neighborSet)
    }

    constructor (size: nat)
      ensures Valid() && Remaining() == {} && |neighborSet| == size
      ensures forall u :: 0 <= u < size ==> neighborSet[u] == {}
    {
      nodes := [];
      neighbors, numNeighbors, neighborSet := seq(size, _ => []), seq(size, _ => 0), seq(size, _ => {});
    }

    /** Puts a node without edges at the head of the list of nodes. */
    method AddNode(u: nat)
      requires Valid() && u < |neighborSet| && u !in Remaining() && neighborSet[u] == {}
      modifies this
      ensures Valid() && Remaining() == old(Remaining()) + {u} && neighborSet == old(neighborSet)
    {
      hide Consistent, ListsNeighbors, SimpleGraph, Enumerates, NodeSet;
      NodeAdded(Remaining(), nodes, neighbors, numNeighbors, neighborSet, u);
      NodeSetGrows(u, nodes);
      nodes := [u] + nodes;
      neighbors, numNeighbors := neighbors[u := []], numNeighbors[u := 0];
    }

    /** Adds the edge at both ends, unless it is there. */
    method AddEdge(u: nat, v: nat)
      requires Valid() && u in Remaining() && v in Remaining() && u != v
      modifies this`neighbors, this`numNeighbors, this`neighborSet
      ensures Valid() && |neighborSet| == |old(neighborSet)|
      ensures forall w :: 0 <= w < |neighborSet| ==>
                neighborSet[w] == old(neighborSet)[w] + (if w == u then {v} else if w == v then {u} else {})
    {
      hide Consistent, ListsNeighbors, SimpleGraph, Enumerates;
      InRange(Remaining(), nodes, neighbors, numNeighbors, neighborSet, u, v);
      if u in neighborSet[v] {
        return;
      }
      EdgeAdded(Remaining(), nodes, neighbors, numNeighbors, neighborSet, u, v);
      AddNeighbor(u, v);
      AddNeighbor(v, u);
    }

    /** Half an edge: `v` comes first among the neighbours of `u`. */
    method AddNeighbor(u: nat, v: nat)
      requires u < |neighbors| == |numNeighbors| == |neighborSet|
      modifies this`neighbors, this`numNeighbors, this`neighborSet
      ensures neighbors == old(neighbors)[u := [v] + old(neighbors)[u]]
      ensures numNeighbors == old(numNeighbors)[u := old(numNeighbors)[u] + 1]
      ensures neighborSet == old(neighborSet)[u := old(neighborSet)[u] + {v}]
    {
      neighbors := neighbors[u := [v] + neighbors[u]];
      numNeighbors := numNeighbors[u := numNeighbors[u] + 1];
      neighborSet := neighborSet[u := neighborSet[u] + {v}];
    }

    /** Takes `x` off the list of each of its neighbours, which are `list`. */
    method SpliceOut(x: nat, list: seq<nat>, ghost s: set<nat>)
      requires |neighbors| == |numNeighbors|
      requires forall k :: 0 <= k < |list| ==> list[k] < |neighbors| && x in neighbors[list[k]]
      requires Enumerates(list, s)
      modifies this`neighbors, this`numNeighbors
      ensures |neighbors| == |numNeighbors| == |old(neighbors)|
      ensures forall u :: 0 <= u < |neighbors| ==>
                (neighbors[u], numNeighbors[u]) == Spliced(old(neighbors)[u], old(numNeighbors)[u], x, u in list)
    {
      for k := 0 to |list|
        invariant |neighbors| == |numNeighbors| == |old(neighbors)|
        invariant forall u :: 0 <= u < |neighbors| ==>
                    (neighbors[u], numNeighbors[u]) == Spliced(old(neighbors)[u], old(numNeighbors)[u], x,
                      u in list[..k])
      {
        hide RemoveFirst;
        var u := list[k];
        OnceInList(list, k, s);
        numNeighbors := numNeighbors[u := numNeighbors[u] - 1];
        var rest := Remove(x, neighbors[u]);
        neighbors := neighbors[u := rest];
        assert list[..k + 1] == list[..k] + [u];
      }
      assert list[..|list|] == list;
    }

    /** Splices a node out of its neighbours' lists and of the list of nodes. */
    method RemoveNode(x: nat)
      requires Valid() && x in Remaining()
      modifies this`nodes, this`neighbors, this`numNeighbors
      ensures Valid() && Remaining() == old(Remaining()) - {x}
    {
      ghost var r := Remaining();
      NeighborsAreInGraph(r, nodes, neighbors, numNeighbors, neighborSet, x);
      hide Consistent, RemovedFrom, Spliced, RemoveFirst, Enumerates;
      SpliceOut(x, neighbors[x], neighborSet[x] * r);
      neighbors := neighbors[x := []];
      nodes := Remove(x, nodes);
      RemovalDone(x, old(nodes), old(neighbors), old(numNeighbors), nodes, neighbors, numNeighbors);
      NodeRemoved(r, old(nodes), old(neighbors), old(numNeighbors), neighborSet, x, nodes, neighbors, numNeighbors);
    }
  }

  /** A neighbour's list and count once `x` has been spliced out of it. */
  ghost function Spliced(list: seq<nat>, count: int, x: nat, isNeighbor: bool): (seq<nat>, int) {
    if isNeighbor && x in list then (RemoveFirst(list, x), count - 1) else (list, count)
  }

  ghost predicate RemovedFrom(
      x: nat, nodes: seq<nat>, neighbors: seq<seq<nat>>, numNeighbors: seq<int>,
      nodes': seq<nat>, neighbors': seq<seq<nat>>, numNeighbors': seq<int>)
  {
    && x in nodes && nodes' == RemoveFirst(nodes, x)
    && |neighbors| == |numNeighbors| == |neighbors'| == |numNeighbors'| && x < |neighbors|
    && (forall u :: 0 <= u < |neighbors| && u != x ==>
          (neighbors'[u], numNeighbors'[u]) == Spliced(neighbors[u], numNeighbors[u], x, u in neighbors[x]))
  }

  lemma RemovalDone(
      x: nat, nodes: seq<nat>, neighbors: seq<seq<nat>>, numNeighbors: seq<int>,
      nodes': seq<nat>, neighbors': seq<seq<nat>>, numNeighbors': seq<int>)
    requires x in nodes && nodes' == RemoveFirst(nodes, x)
    requires |neighbors| == |numNeighbors| == |neighbors'| == |numNeighbors'| && x < |neighbors|
    requires forall u :: 0 <= u < |neighbors| && u != x ==>
               (neighbors'[u], numNeighbors'[u]) == Spliced(neighbors[u], numNeighbors[u], x, u in neighbors[x])
    ensures RemovedFrom(x, nodes, neighbors, numNeighbors, nodes', neighbors', numNeighbors')
  {
  }

  lemma NodesLeft(nodes: seq<nat>, r: set<nat>)
    requires Enumerates(nodes, r)
    ensures NodeSet(nodes) == r
  {
    forall u: nat ensures u in nodes <==> u in r {
      EnumeratedElements(nodes, r, u);
    }
  }

  lemma InRange(
      r: set<nat>, nodes: seq<nat>, neighbors: seq<seq<nat>>, numNeighbors: seq<int>, neighborSet: seq<set<nat>>,
      u: nat, v: nat)
    requires Consistent(r, nodes, neighbors, numNeighbors, neighborSet) && u in r && v in r
    ensures u < |neighbors| && v < |neighbors| && |neighbors| == |numNeighbors| == |neighborSet|
    ensures u in neighborSet[v] <==> v in neighborSet[u]
  {
    assert SimpleEdge(neighborSet, u, v) && SimpleEdge(neighborSet, v, u);
  }

  lemma NodeSetGrows(u: nat, nodes: seq<nat>)
    ensures NodeSet([u] + nodes) == NodeSet(nodes) + {u}
  {
  }

  lemma NodeAdded(
      r: set<nat>, nodes: seq<nat>, neighbors: seq<seq<nat>>, numNeighbors: seq<int>, neighborSet: seq<set<nat>>,
      u: nat)
    requires Consistent(r, nodes, neighbors, numNeighbors, neighborSet)
    requires u < |neighborSet| && u !in r && neighborSet[u] == {}
    ensures |neighbors| == |numNeighbors| == |neighborSet|
    ensures Consistent(r + {u}, [u] + nodes, neighbors[u := []], numNeighbors[u := 0], neighborSet)
  {
    PrependedEnumerates(nodes, r, u);
    forall v | v in r + {u}
      ensures ListsNeighbors(r + {u}, neighborSet[v], neighbors[u := []][v], numNeighbors[u := 0][v]) {
      if v == u {
        assert neighborSet[u] * (r + {u}) == {};
      } else {
        assert ListsNeighbors(r, neighborSet[v], neighbors[v], numNeighbors[v]) && SimpleEdge(neighborSet, v, u);
        assert neighborSet[v] * (r + {u}) == neighborSet[v] * r;
      }
    }
  }

  lemma EdgeAdded(
      r: set<nat>, nodes: seq<nat>, neighbors: seq<seq<nat>>, numNeighbors: seq<int>, neighborSet: seq<set<nat>>,
      u: nat, v: nat)
    requires Consistent(r, nodes, neighbors, numNeighbors, neighborSet)
    requires u in r && v in r && u != v && v !in neighborSet[u] && u !in neighborSet[v]
    ensures Consistent(r, nodes,
              neighbors[u := [v] + neighbors[u]][v := [u] + neighbors[v]],
              numNeighbors[u := numNeighbors[u] + 1][v := numNeighbors[v] + 1],
              neighborSet[u := neighborSet[u] + {v}][v := neighborSet[v] + {u}])
  {
    EdgeKeepsSimple(neighborSet, u, v);
    forall w | w in r ensures
      ListsNeighbors(r, neighborSet[u := neighborSet[u] + {v}][v := neighborSet[v] + {u}][w],
                     neighbors[u := [v] + neighbors[u]][v := [u] + neighbors[v]][w],
                     numNeighbors[u := numNeighbors[u] + 1][v := numNeighbors[v] + 1][w])
    {
      assert ListsNeighbors(r, neighborSet[w], neighbors[w], numNeighbors[w]);
      if w == u {
        NeighborPrepended(r, neighborSet[u], neighbors[u], numNeighbors[u], v);
      } else if w == v {
        NeighborPrepended(r, neighborSet[v], neighbors[v], numNeighbors[v], u);
      }
    }
  }

  lemma EdgeKeepsSimple(neighborSet: seq<set<nat>>, u: nat, v: nat)
    requires SimpleGraph(neighborSet) && u < |neighborSet| && v < |neighborSet| && u != v
    ensures SimpleGraph(neighborSet[u := neighborSet[u] + {v}][v := neighborSet[v] + {u}])
  {
    var neighborSet' := neighborSet[u := neighborSet[u] + {v}][v := neighborSet[v] + {u}];
    forall a: nat, b: nat | a < |neighborSet'| ensures SimpleEdge(neighborSet', a, b) {
      assert SimpleEdge(neighborSet, a, b);
    }
  }

  lemma NeighborPrepended(r: set<nat>, adjacent: set<nat>, list: seq<nat>, count: int, v: nat)
    requires ListsNeighbors(r, adjacent, list, count) && v in r && v !in adjacent
    ensures ListsNeighbors(r, adjacent + {v}, [v] + list, count + 1)
  {
    PrependedEnumerates(list, adjacent * r, v);
    assert (adjacent + {v}) * r == adjacent * r + {v};
  }

  lemma NeighborsAreInGraph(
      r: set<nat>, nodes: seq<nat>, neighbors: seq<seq<nat>>, numNeighbors: seq<int>, neighborSet: seq<set<nat>>,
      x: nat)
    requires Consistent(r, nodes, neighbors, numNeighbors, neighborSet) && x in r
    ensures x in nodes && x < |neighbors| == |numNeighbors|
    ensures x < |neighborSet| && Enumerates(neighbors[x], neighborSet[x] * r)
    ensures forall k :: 0 <= k < |neighbors[x]| ==>
              var u := neighbors[x][k]; u in r && u != x && u < |neighbors| && x in neighbors[u]
  {
    EnumeratedElements(nodes, r, x);
    assert ListsNeighbors(r, neighborSet[x], neighbors[x], numNeighbors[x]);
    forall k | 0 <= k < |neighbors[x]|
      ensures var u := neighbors[x][k]; u in r && u != x && u < |neighbors| && x in neighbors[u]
    {
      var u := neighbors[x][k];
      assert SimpleEdge(neighborSet, x, u);
      EnumeratedElements(neighbors[x], neighborSet[x] * r, u);
      assert ListsNeighbors(r, neighborSet[u], neighbors[u], numNeighbors[u]);
      EnumeratedElements(neighbors[u], neighborSet[u] * r, x);
    }
  }

  lemma OnceInList(list: seq<nat>, k: nat, s: set<nat>)
    requires Enumerates(list, s) && k < |list|
    ensures list[k] !in list[..k]
  {
    assert list == list[..k] + [list[k]] + list[k + 1..];
    assert multiset(list)[list[k]] == multiset(s)[list[k]];
  }

  lemma NodeRemoved(
      r: set<nat>, nodes: seq<nat>, neighbors: seq<seq<nat>>, numNeighbors: seq<int>, neighborSet: seq<set<nat>>,
      x: nat,
      nodes': seq<nat>, neighbors': seq<seq<nat>>, numNeighbors': seq<int>)
    requires Consistent(r, nodes, neighbors, numNeighbors, neighborSet) && x in r
    requires RemovedFrom(x, nodes, neighbors, numNeighbors, nodes', neighbors', numNeighbors')
    ensures Consistent(r - {x}, nodes', neighbors', numNeighbors', neighborSet)
    ensures NodeSet(nodes') == r - {x}
  {
    RemovedEnumerates(nodes, r, x);
    NodesLeft(nodes', r - {x});
    forall w | w in r - {x} ensures ListsNeighbors(r - {x}, neighborSet[w], neighbors'[w], numNeighbors'[w]) {
      NeighborSpliced(r, nodes, neighbors, numNeighbors, neighborSet, x, w);
    }
  }

  lemma NeighborSpliced(
      r: set<nat>, nodes: seq<nat>, neighbors: seq<seq<nat>>, numNeighbors: seq<int>, neighborSet: seq<set<nat>>,
      x: nat, w: nat)
    requires Consistent(r, nodes, neighbors, numNeighbors, neighborSet) && x in r && w in r - {x}
    ensures var (list, count) := Spliced(neighbors[w], numNeighbors[w], x, w in neighbors[x]);
            ListsNeighbors(r - {x}, neighborSet[w], list, count)
  {
    hide RemoveFirst;
    assert SimpleEdge(neighborSet, x, w) && SimpleEdge(neighborSet, w, x);
    assert ListsNeighbors(r, neighborSet[w], neighbors[w], numNeighbors[w]);
    assert ListsNeighbors(r, neighborSet[x], neighbors[x], numNeighbors[x]);
    EnumeratedElements(neighbors[x], neighborSet[x] * r, w);
    EnumeratedElements(neighbors[w], neighborSet[w] * r, x);
    assert neighborSet[w] * (r - {x}) == neighborSet[w] * r - {x};
    if w in neighborSet[x] {
      RemovedEnumerates(neighbors[w], neighborSet[w] * r, x);
    } else {
      assert x !in neighborSet[w];
      assert neighborSet[w] * (r - {x}) == neighborSet[w] * r;
    }
  }
}
