/** Finite directed graphs and reachability. */
module Digraph {
  type Graph = map<nat, set<nat>>

  /** Every edge ends at a node. */
  ghost predicate Closed(g: Graph) { forall n: nat, m: nat :: n in g && m in g[n] ==> m in g }

  ghost predicate IsWalk(g: Graph, walk: seq<nat>) {
    |walk| > 0 && (forall i :: 0 <= i < |walk| ==> walk[i] in g) && forall i: nat ::
      i + 1 < |walk| ==> Steps(g, walk, i)
  }

  ghost predicate Steps(g: Graph, walk: seq<nat>, i: nat)
    requires i + 1 < |walk|
  {
    walk[i] in g && walk[i + 1] in g[walk[i]]
  }

  ghost predicate Joins(g: Graph, walk: seq<nat>, u: nat, v: nat) {
    IsWalk(g, walk) && walk[0] == u && walk[|walk| - 1] == v
  }

  ghost predicate Reaches(g: Graph, u: nat, v: nat) { exists walk: seq<nat> :: Joins(g, walk, u, v) }

  /** In the same strongly connected component. */
  ghost predicate Mutual(g: Graph, u: nat, v: nat) { Reaches(g, u, v) && Reaches(g, v, u) }

  lemma {:induction false} ReachesSelf(g: Graph, u: nat)
    requires u in g
    ensures Reaches(g, u, u)
  {
    assert Joins(g, [u], u, u);
  }

  lemma {:induction false} ReachesEnds(g: Graph, u: nat, v: nat)
    requires Reaches(g, u, v)
    ensures u in g && v in g
  {
  }

  lemma {:induction false} EdgeReaches(g: Graph, u: nat, v: nat)
    requires u in g && v in g && v in g[u]
    ensures Reaches(g, u, v)
  {
    var walk := [u, v];
    assert forall i: nat :: i + 1 < |walk| ==> Steps(g, walk, i);
    assert Joins(g, walk, u, v);
  }

  lemma {:induction false} ReachesOn(g: Graph, u: nat, v: nat, w: nat)
    requires Reaches(g, u, v) && Reaches(g, v, w)
    ensures Reaches(g, u, w)
  {
    var p :| Joins(g, p, u, v);
    var q :| Joins(g, q, v, w);
    var walk := p + q[1..];
    forall i: nat | i + 1 < |walk| ensures Steps(g, walk, i) {
      if i + 1 < |p| { assert Steps(g, p, i); } else { assert Steps(g, q, i - |p| + 1); }
    }
    assert Joins(g, walk, u, w);
  }

  lemma {:induction false} MutualOn(g: Graph, u: nat, v: nat, w: nat)
    requires Mutual(g, u, v) && Mutual(g, v, w)
    ensures Mutual(g, u, w)
  {
    ReachesOn(g, u, v, w);
    ReachesOn(g, w, v, u);
  }

  lemma {:induction false} WalkTail(g: Graph, walk: seq<nat>, u: nat, v: nat)
    requires Joins(g, walk, u, v) && |walk| > 1
    ensures walk[1] in g[u] && Joins(g, walk[1..], walk[1], v)
  {
    assert Steps(g, walk, 0);
    forall i: nat | i + 1 < |walk[1..]| ensures Steps(g, walk[1..], i) { assert Steps(g, walk, i + 1); }
  }

  /** A walk that leaves a set takes an edge out of it. */
  lemma {:induction false} LeavesBy(g: Graph, inside: set<nat>, walk: seq<nat>, u: nat, v: nat) returns (a: nat, b: nat)
    requires Joins(g, walk, u, v) && u in inside && v !in inside
    ensures a in inside && b !in inside && a in g && b in g[a] && Reaches(g, u, a) && Reaches(g, b, v)
    decreases |walk|
  {
    assert |walk| > 1;
    WalkTail(g, walk, u, v);
    var next := walk[1];
    if next in inside {
      a, b := LeavesBy(g, inside, walk[1..], next, v);
      EdgeReaches(g, u, next);
      ReachesOn(g, u, next, a);
    } else {
      a, b := u, next;
      ReachesSelf(g, u);
      assert Reaches(g, next, v);
    }
  }
}
