/**
 * Paths in a graph given by successor lists, and the facts that travel along
 * them. Liveness carries uses backwards along children; reaching definitions
 * carry definitions forwards, that is backwards along parents.
 */
module Paths {

  ghost predicate IsPath(next: seq<seq<nat>>, path: seq<nat>) {
    && 0 < |path|
    && (forall i :: 0 <= i < |path| ==> path[i] < |next|)
    && (forall i :: 0 <= i < |path| - 1 ==> path[i + 1] in next[path[i]])
  }

  ghost predicate Connects(next: seq<seq<nat>>, b: nat, c: nat, path: seq<nat>) {
    IsPath(next, path) && path[0] == b && path[|path| - 1] == c
  }

  ghost predicate CanReach(next: seq<seq<nat>>, b: nat, c: nat) {
    exists path :: Connects(next, b, c, path)
  }

  /** The path leads from `b` to a node that generates `v`, and no node before that one kills `v`. */
  ghost predicate Carries(
      next: seq<seq<nat>>, gen: seq<set<nat>>, kill: seq<set<nat>>, b: nat, v: nat, path: seq<nat>)
    requires |gen| == |kill| == |next|
  {
    && IsPath(next, path) && path[0] == b
    && v in gen[path[|path| - 1]]
    && (forall i :: 0 <= i < |path| - 1 ==> v !in kill[path[i]])
  }

  ghost predicate Arrives(next: seq<seq<nat>>, gen: seq<set<nat>>, kill: seq<set<nat>>, b: nat, v: nat)
    requires |gen| == |kill| == |next|
  {
    exists path :: Carries(next, gen, kill, b, v, path)
  }

  lemma ArrivesHere(next: seq<seq<nat>>, gen: seq<set<nat>>, kill: seq<set<nat>>, b: nat, v: nat)
    requires |gen| == |kill| == |next| && b < |next| && v in gen[b]
    ensures Arrives(next, gen, kill, b, v)
  {
    assert Carries(next, gen, kill, b, v, [b]);
  }

  lemma ArrivesThrough(next: seq<seq<nat>>, gen: seq<set<nat>>, kill: seq<set<nat>>, b: nat, c: nat, v: nat)
    requires |gen| == |kill| == |next| && b < |next| && c in next[b]
    requires v !in kill[b] && Arrives(next, gen, kill, c, v)
    ensures Arrives(next, gen, kill, b, v)
  {
    var path :| Carries(next, gen, kill, c, v, path);
    assert ([b] + path)[1..] == path;
    assert Carries(next, gen, kill, b, v, [b] + path);
  }

  /** What arrives is generated here, or arrives further on and is not killed here. */
  lemma ArrivalsUnfold(next: seq<seq<nat>>, gen: seq<set<nat>>, kill: seq<set<nat>>, b: nat, v: nat)
    requires |gen| == |kill| == |next| && b < |next|
    requires forall b, c :: 0 <= b < |next| && c in next[b] ==> c < |next|
    ensures Arrives(next, gen, kill, b, v) <==>
            v in gen[b] || (v !in kill[b] && exists c :: c in next[b] && Arrives(next, gen, kill, c, v))
  {
    if path :| Carries(next, gen, kill, b, v, path) && v !in gen[b] {
      assert Carries(next, gen, kill, path[1], v, path[1..]);
    }
    if v in gen[b] {
      ArrivesHere(next, gen, kill, b, v);
    } else if v !in kill[b] {
      if c :| c in next[b] && Arrives(next, gen, kill, c, v) {
        ArrivesThrough(next, gen, kill, b, c, v);
      }
    }
  }

  /** `sets` is closed under the flow: it holds what is generated and what its successors hold and is not killed. */
  ghost predicate Closed(next: seq<seq<nat>>, gen: seq<set<nat>>, kill: seq<set<nat>>, sets: seq<set<nat>>)
    requires |gen| == |kill| == |next| == |sets|
  {
    && (forall b :: 0 <= b < |next| ==> gen[b] <= sets[b])
    && (forall b, c, v :: 0 <= b < |next| && c in next[b] && c < |next| && v in sets[c] && v !in kill[b] ==>
          v in sets[b])
  }

  /** Every closed family of sets holds all that arrives. */
  lemma {:induction false} ClosedHoldsArrivals(
      next: seq<seq<nat>>, gen: seq<set<nat>>, kill: seq<set<nat>>, sets: seq<set<nat>>, b: nat, v: nat, path: seq<nat>)
    requires |gen| == |kill| == |next| == |sets| && Closed(next, gen, kill, sets)
    requires Carries(next, gen, kill, b, v, path)
    ensures v in sets[b]
    decreases |path|
  {
    if |path| > 1 {
      var rest := path[1..];
      assert Carries(next, gen, kill, path[1], v, rest);
      ClosedHoldsArrivals(next, gen, kill, sets, path[1], v, rest);
    }
  }

  /** A closed family that holds nothing but arrivals is the least one: membership is arrival. */
  lemma LeastIsExact(next: seq<seq<nat>>, gen: seq<set<nat>>, kill: seq<set<nat>>, sets: seq<set<nat>>)
    requires |gen| == |kill| == |next| == |sets| && Closed(next, gen, kill, sets)
    requires forall b, v :: 0 <= b < |next| && v in sets[b] ==> Arrives(next, gen, kill, b, v)
    ensures forall b, v :: 0 <= b < |next| ==> (v in sets[b] <==> Arrives(next, gen, kill, b, v))
  {
    forall b, v | 0 <= b < |next| && Arrives(next, gen, kill, b, v) ensures v in sets[b] {
      var path :| Carries(next, gen, kill, b, v, path);
      ClosedHoldsArrivals(next, gen, kill, sets, b, v, path);
    }
  }

  lemma ExtendPath(next: seq<seq<nat>>, b: nat, c: nat, d: nat)
    requires CanReach(next, b, c) && c < |next| && d in next[c] && d < |next|
    ensures CanReach(next, b, d)
  {
    var path :| Connects(next, b, c, path);
    assert Connects(next, b, d, path + [d]);
  }
}
