/** Renumbering a graph breadth first from its root, stepping over removed nodes. */
module Relabelling {
  import opened Sequences
  import opened RegisterGraph
  import opened Worklist

  /** The node an edge to `t` means once the nodes of `removed` are gone: a removed node
      stands for its only successor. */
  function Skip(g: Graph, removed: set<nat>, t: nat): nat {
    if t in removed && t < |g| && g[t].edges != [] then g[t].edges[0] else t
  }

  /** No removed node is the root or leads to another removed node. */
  ghost predicate Detachable(g: Graph, removed: set<nat>) {
    && 0 !in removed
    && forall t: nat :: t in removed ==> t < |g| && |g[t].edges| == 1 && g[t].edges[0] !in removed
  }

  ghost predicate EdgesInside(g: Graph) {
    |g| > 0 && forall i, e :: 0 <= i < |g| && 0 <= e < |g[i].edges| ==> g[i].edges[e] < |g|
  }

  /** `output` is `g` without `removed`, node `i` of it being node `order[i]` of `g`. */
  ghost predicate IsRelabelling(g: Graph, removed: set<nat>, order: seq<nat>, output: Graph) {
    && |output| == |order| > 0 && order[0] == 0 && Unrepeated(order)
    && (forall i :: 0 <= i < |order| ==> order[i] < |g| && order[i] !in removed)
    && (forall i: nat :: i < |order| ==> Relabelled(g, removed, order, output, i))
  }

  ghost predicate Relabelled(g: Graph, removed: set<nat>, order: seq<nat>, output: Graph, i: nat)
    requires i < |output| && i < |order| && order[i] < |g|
  {
    && output[i] == g[order[i]].(edges := output[i].edges)
    && |output[i].edges| == |g[order[i]].edges|
    && forall e :: 0 <= e < |output[i].edges| ==> Names(g, removed, order, output[i].edges[e], g[order[i]].edges[e])
  }

  predicate Names(g: Graph, removed: set<nat>, order: seq<nat>, id: nat, target: nat) {
    id < |order| && order[id] == Skip(g, removed, target)
  }

  /** The label of a target: skip what is removed, number it if it is new. */
  method Label(g: Graph, removed: set<nat>, target: nat, order: seq<nat>, labels: map<nat, nat>)
    returns (id: nat, longer: seq<nat>, more: map<nat, nat>)
    requires EdgesInside(g) && Detachable(g, removed) && target < |g|
    requires Numbering(g, removed, order, labels)
    ensures Numbering(g, removed, longer, more) && order <= longer
    ensures Names(g, removed, longer, id, target)
    ensures |longer| <= |order| + 1 && (|longer| > |order| ==> id == |order|)
  {
    var index := target;
    while index in removed
      invariant index < |g| && (index == target || (index == Skip(g, removed, target) && index !in removed))
      decreases index in removed
    {
      index := g[index].edges[0];
    }
    longer, more := order, labels;
    if index !in more {
      longer, more := longer + [index], more[index := |longer|];
    }
    id := more[index];
  }

  /** The two views of the numbering agree: position in `order`, and entry of `labels`. */
  ghost predicate Numbering(g: Graph, removed: set<nat>, order: seq<nat>, labels: map<nat, nat>) {
    && |order| > 0 && order[0] == 0 && Unrepeated(order)
    && (forall i :: 0 <= i < |order| ==> order[i] < |g| && order[i] !in removed)
    && (forall i :: 0 <= i < |order| ==> order[i] in labels && labels[order[i]] == i)
    && (forall n :: n in labels ==> labels[n] < |order| && order[labels[n]] == n)
  }

  method RelabelNode(g: Graph, removed: set<nat>, n: nat, order: seq<nat>, labels: map<nat, nat>)
    returns (node: Node<Reg>, longer: seq<nat>, more: map<nat, nat>)
    requires EdgesInside(g) && Detachable(g, removed) && n < |g| && Numbering(g, removed, order, labels)
    ensures Numbering(g, removed, longer, more) && order <= longer
    ensures node == g[n].(edges := node.edges) && |node.edges| == |g[n].edges|
    ensures forall e :: 0 <= e < |node.edges| ==> Names(g, removed, longer, node.edges[e], g[n].edges[e])
    ensures forall j: nat :: |order| <= j < |longer| ==> j in node.edges
    ensures forall e, k: nat :: 0 <= e < |node.edges| && |order| <= k < node.edges[e] ==> k in node.edges[..e]
  {
    var edges: seq<nat> := [];
    longer, more := order, labels;
    for e := 0 to |g[n].edges|
      invariant Numbering(g, removed, longer, more) && order <= longer
      invariant |edges| == e && forall j: nat :: |order| <= j < |longer| ==> j in edges
      invariant forall f :: 0 <= f < e ==> Names(g, removed, longer, edges[f], g[n].edges[f])
      invariant forall f, k: nat :: 0 <= f < e && |order| <= k < edges[f] ==> k in edges[..f]
    {
      ghost var was := longer;
      var id;
      id, longer, more := Label(g, removed, g[n].edges[e], longer, more);
      forall f, k: nat | 0 <= f < e + 1 && |order| <= k < (edges + [id])[f] ensures k in (edges + [id])[..f] {
        assert f < e ==> (edges + [id])[..f] == edges[..f];
        assert f == e ==> (edges + [id])[..f] == edges && k < |was|;
      }
      edges := edges + [id];
    }
    node := g[n].(edges := edges);
  }

  method Relabel(g: Graph, removed: set<nat>) returns (order: seq<nat>, output: Graph)
    requires EdgesInside(g) && Detachable(g, removed)
    ensures IsRelabelling(g, removed, order, output)
    ensures AllReachable(output) && FirstUse(output)
  {
    var labels := map[0 := 0];
    order, output := [0], [];
    ghost var done: set<nat> := {};
    while |output| < |order|
      invariant Numbering(g, removed, order, labels) && |output| <= |order|
      invariant forall i: nat :: i < |output| ==> Relabelled(g, removed, order, output, i)
      invariant forall j: nat :: 0 < j < |order| ==> HasParent(output, j)
      invariant FirstUse(output)
      invariant done == (set n | n in order[..|output|]) && done <= UpTo(|g|)
      decreases UpTo(|g|) - done
    {
      var n := order[|output|];
      var node, longer, more := RelabelNode(g, removed, n, order, labels);
      assert order[..|output| + 1] == order[..|output|] + [n] == longer[..|output| + 1];
      assert n !in done;
      done := done + {n};
      forall i: nat | i < |output| ensures Relabelled(g, removed, longer, output + [node], i) {
        assert Relabelled(g, removed, order, output, i);
        forall e | 0 <= e < |output[i].edges|
          ensures Names(g, removed, longer, output[i].edges[e], g[order[i]].edges[e])
        {
          assert Names(g, removed, order, output[i].edges[e], g[order[i]].edges[e]);
        }
      }
      forall j: nat | 0 < j < |longer| ensures HasParent(output + [node], j) {
        ParentStays(output, node, j, |order|);
      }
      FirstUseStays(output, node, |order|);
      output, order, labels := output + [node], longer, more;
    }
    forall j: nat | j < |output| ensures Reachable(output, j) { ParentsReach(output, j); }
  }

  /** Node `k` is the target of an edge before edge `e` of node `i`. */
  ghost predicate UsedBefore(output: Graph, i: nat, e: nat, k: nat) {
    exists j: nat, f: nat :: (j < i || (j == i && f < e)) && IsEdge(output, j, f, k)
  }

  /** Breadth first: reading the edges of node 0, node 1 and so on, new nodes turn up in the order
      of their numbers. */
  ghost predicate FirstUse(output: Graph) {
    forall i: nat, e: nat, t: nat, k: nat :: IsEdge(output, i, e, t) && 0 < k < t ==> UsedBefore(output, i, e, k)
  }

  lemma {:induction false} FirstUseStays(output: Graph, node: Node<Reg>, known: nat)
    requires FirstUse(output) && forall j: nat :: 0 < j < known ==> HasParent(output, j)
    requires forall e, k: nat :: 0 <= e < |node.edges| && known <= k < node.edges[e] ==> k in node.edges[..e]
    ensures FirstUse(output + [node])
  {
    var more := output + [node];
    forall i: nat, e: nat, t: nat, k: nat | IsEdge(more, i, e, t) && 0 < k < t ensures UsedBefore(more, i, e, k) {
      if i < |output| {
        assert IsEdge(output, i, e, t) && UsedBefore(output, i, e, k);
        var j: nat, f: nat :| (j < i || (j == i && f < e)) && IsEdge(output, j, f, k);
        assert IsEdge(more, j, f, k);
      } else if k < known {
        assert HasParent(output, k);
        var j: nat, f: nat :| j < k && IsEdge(output, j, f, k);
        assert IsEdge(more, j, f, k);
      } else {
        assert t == node.edges[e] && k in node.edges[..e];
        var f: nat :| f < e && node.edges[..e][f] == k;
        assert IsEdge(more, i, f, k);
      }
    }
  }

  /** Some earlier node leads to `j`. */
  ghost predicate HasParent(output: Graph, j: nat) {
    exists i: nat, e: nat :: i < j && IsEdge(output, i, e, j)
  }

  lemma {:induction false} ParentStays(output: Graph, node: Node<Reg>, j: nat, known: nat)
    requires j < known ==> HasParent(output, j)
    requires j >= known ==> j in node.edges && |output| < known
    ensures HasParent(output + [node], j)
  {
    if j < known {
      var i: nat, e: nat :| i < j && IsEdge(output, i, e, j);
      assert IsEdge(output + [node], i, e, j);
    } else {
      var e: nat :| e < |node.edges| && node.edges[e] == j;
      assert IsEdge(output + [node], |output|, e, j);
    }
  }

  lemma {:induction false} ParentsReach(output: Graph, j: nat)
    requires j < |output| && forall k: nat :: 0 < k < |output| ==> HasParent(output, k)
    ensures Reachable(output, j)
  {
    if j == 0 {
      assert PathTo(output, [], 0);
    } else {
      assert HasParent(output, j);
      var i: nat, e: nat :| i < j && IsEdge(output, i, e, j);
      ParentsReach(output, i);
      var path :| PathTo(output, path, i);
      ExtendPath(output, path, i, e);
    }
  }

  /** A relabelled graph keeps the shape its passes rely on. */
  lemma {:induction false} RelabellingWellFormed(g: Graph, maxStack: nat, removed: set<nat>, order: seq<nat>,
      output: Graph)
    requires WellFormed(g, maxStack) && IsRelabelling(g, removed, order, output) && Detachable(g, removed)
    requires forall t: nat :: t in removed ==> t < |g| && g[t].name == MOVE
    ensures WellFormed(output, maxStack)
  {
    assert Relabelled(g, removed, order, output, 0);
    forall i: nat | i < |output|
      ensures forall k :: 0 <= k < |output[i].operands| ==> FitsFrame(output[i].operands[k], maxStack)
      ensures forall e :: 0 <= e < |output[i].edges| ==> output[i].edges[e] < |output|
      ensures IsLookup(output[i].name) ==> LookupShape(output[i])
      ensures output[i].name == MOVE ==> MoveShape(output[i])
    {
      assert Relabelled(g, removed, order, output, i);
      assert output[i].operands == g[order[i]].operands && output[i].name == g[order[i]].name;
      assert forall e :: output[i].EdgeKills(e) == g[order[i]].EdgeKills(e);
      assert forall e ::
        0 <= e < |output[i].edges| ==> Names(g, removed, order, output[i].edges[e], g[order[i]].edges[e]);
    }
    forall i: nat, e: nat | i < |output| && e < |output[i].edges| &&
      (IsLookup(output[i].name) || output[i].name == MOVE)
      ensures output[i].edges[e] < |output| && output[i].pc < output[output[i].edges[e]].pc
    {
      FallsThroughStill(g, maxStack, removed, order, output, i, e);
    }
  }

  lemma {:induction false} FallsThroughStill(g: Graph, maxStack: nat, removed: set<nat>, order: seq<nat>, output: Graph,
      i: nat, e: nat)
    requires WellFormed(g, maxStack) && IsRelabelling(g, removed, order, output) && Detachable(g, removed)
    requires forall t: nat :: t in removed ==> t < |g| && g[t].name == MOVE
    requires i < |output| && e < |output[i].edges| && (IsLookup(output[i].name) || output[i].name == MOVE)
    ensures output[i].edges[e] < |output| && output[i].pc < output[output[i].edges[e]].pc
  {
    assert Relabelled(g, removed, order, output, i);
    var target := g[order[i]].edges[e];
    assert Names(g, removed, order, output[i].edges[e], target);
    assert Relabelled(g, removed, order, output, output[i].edges[e]);
  }
}
