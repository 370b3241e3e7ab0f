/** Dropping the second read of a closed upvalue: where a read feeds a truthiness test that
    either joins at once or rereads the same cell into the same register first, the test and
    the reread go.  The reduced graph runs in step with the original, up to the removed
    steps, as long as reading a cell changes no cell. */
module ClosedReads {
  import opened Options
  import opened RegisterGraph
  import opened Definitions
  import opened Liveness
  import opened Relabelling
  import opened Grouping
  import opened Renaming
  import opened Sequences
  import opened CopyCertificates
  import opened PrivateCopies

  // ----- the rewrite -----

  /** `i` reads a cell, its sole successor tests that register, and the test's second edge
      rereads the cell before joining the first. */
  predicate IsTriangle(g: Graph, i: nat)
    requires i < |g|
  {
    g[i].name == GETUPVAL && |g[i].edges| == 1 &&
    var branch := g[i].edges[0];
    branch < |g| && g[branch].name in {JUMPIF, JUMPIFNOT} && Sources(g, branch, |g|) == [i] &&
    g[branch].pc == g[i].pc + 1 && |g[branch].edges| == 2 &&
    |g[i].operands| > 0 && g[i].operands[0].Write? && g[branch].operands == [Read(g[i].operands[0].reg)] &&
    var join, reread := g[branch].edges[0], g[branch].edges[1];
    join != i && join != branch && join != reread && reread < |g| && g[reread].name == GETUPVAL &&
    g[reread].pc == g[branch].pc + 1 && g[reread].operands == g[i].operands &&
    Sources(g, reread, |g|) == [branch] && g[reread].edges == [join]
  }

  function ClosedNode(g: Graph, i: nat): Node<Reg>
    requires i < |g|
  {
    if IsTriangle(g, i) && g[i].edges[0] < |g| && |g[g[i].edges[0]].edges| == 2
    then g[i].(edges := [g[g[i].edges[0]].edges[0]]) else g[i]
  }

  function Closed'(g: Graph): Graph { seq(|g|, i requires 0 <= i < |g| => ClosedNode(g, i)) }

  /** The test or the reread of some triangle. */
  ghost predicate Dropped(g: Graph, n: nat) {
    exists i: nat :: i < |g| && IsTriangle(g, i) && DroppedBy(g, i, n)
  }

  predicate DroppedBy(g: Graph, i: nat, n: nat)
    requires i < |g| && IsTriangle(g, i)
  {
    n == g[i].edges[0] || n == g[g[i].edges[0]].edges[1]
  }

  /** What the opcodes involved do besides reading and writing: nothing. */
  ghost predicate PlainShapes(g: Graph) {
    forall n: nat :: n < |g| ==>
      (g[n].name in {JUMPIF, JUMPIFNOT} ==> Plain(g[n])) &&
        (g[n].name == GETUPVAL ==> Plain(g[n]) && UpvalueShape(g[n]))
  }

  ghost predicate Plain(n: Node<Reg>) {
    && n.kills == {} && n.edgeKills == map[] && n.topWrite == Preserve && n.edgeTops == map[] && n.openRead == None
  }

  predicate UpvalueShape(n: Node<Reg>) {
    |n.operands| == 2 && n.operands[0].Write? && n.operands[1].Immediate? && n.operands[1].data.Literal?
  }

  ghost predicate ClosedRemoved(g: Graph, removed: set<nat>) {
    forall n: nat :: n in removed <==> Dropped(g, n)
  }

  /** A triangle's read drops the test below it, and the reread below that. */
  lemma {:induction false} HeadDrops(g: Graph, i: nat)
    requires i < |g| && IsTriangle(g, i)
    ensures Dropped(g, g[i].edges[0]) && Dropped(g, g[g[i].edges[0]].edges[1])
  {
    assert DroppedBy(g, i, g[i].edges[0]) && DroppedBy(g, i, g[g[i].edges[0]].edges[1]);
  }

  /** A dropped node has one way in: from the read above it, or from the test. */
  lemma {:induction false} DroppedHasOneSource(g: Graph, s: nat, e: nat, n: nat, i: nat)
    requires i < |g| && IsTriangle(g, i) && DroppedBy(g, i, n) && IsEdge(g, s, e, n)
    ensures s == i || s == g[i].edges[0]
  {
    var branch := g[i].edges[0];
    if n == branch {
      assert IsEdge(g, i, 0, branch);
      SoleSource(g, n, |g|, s, e, i, 0);
    } else {
      assert IsEdge(g, branch, 1, n);
      SoleSource(g, n, |g|, s, e, branch, 1);
    }
  }

  lemma {:induction false} TwoSourcesStay(g: Graph, n: nat, s: nat, e: nat, s': nat, e': nat, i: nat)
    requires IsEdge(g, s, e, n) && IsEdge(g, s', e', n) && s != s' && i < |g| && IsTriangle(g, i)
    ensures !DroppedBy(g, i, n)
  {
    if DroppedBy(g, i, n) { SoleSource(g, n, |g|, s, e, s', e'); }
  }

  /** A join is entered from the test and from the reread, so no triangle drops it. */
  lemma {:induction false} JoinStays(g: Graph, i: nat)
    requires i < |g| && IsTriangle(g, i)
    ensures !Dropped(g, g[g[i].edges[0]].edges[0])
  {
    var branch := g[i].edges[0];
    var join, reread := g[branch].edges[0], g[branch].edges[1];
    assert IsEdge(g, branch, 0, join) && IsEdge(g, reread, 0, join);
    forall k: nat | k < |g| && IsTriangle(g, k) ensures !DroppedBy(g, k, join) {
      TwoSourcesStay(g, join, branch, 0, reread, 0, k);
    }
  }

  /** Hence the reread of one triangle never heads another, and all can go at once. */
  lemma {:induction false} DroppedIsNoHead(g: Graph, n: nat)
    requires Dropped(g, n) && n < |g|
    ensures !IsTriangle(g, n)
  {
    var i: nat :| i < |g| && IsTriangle(g, i) && DroppedBy(g, i, n);
    if IsTriangle(g, n) {
      HeadDrops(g, n);
      JoinStays(g, i);
    }
  }

  /** No edge of a kept node leads to a dropped one. */
  lemma {:induction false} KeptLeadsToKept(g: Graph, s: nat, e: nat)
    requires s < |g| && !Dropped(g, s) && e < |ClosedNode(g, s).edges|
    ensures !Dropped(g, ClosedNode(g, s).edges[e])
  {
    if IsTriangle(g, s) {
      JoinStays(g, s);
    } else {
      var n := g[s].edges[e];
      assert IsEdge(g, s, e, n);
      forall i: nat | i < |g| && IsTriangle(g, i) ensures !DroppedBy(g, i, n) {
        HeadDrops(g, i);
        if DroppedBy(g, i, n) { DroppedHasOneSource(g, s, e, n, i); }
      }
    }
  }

  ghost predicate DroppedBefore(g: Graph, bound: nat, n: nat) {
    exists i: nat :: i < bound && i < |g| && IsTriangle(g, i) && DroppedBy(g, i, n)
  }

  lemma {:induction false} DroppedNext(g: Graph, i: nat, n: nat)
    requires i < |g|
    ensures DroppedBefore(g, i + 1, n) <==> DroppedBefore(g, i, n) || (IsTriangle(g, i) && DroppedBy(g, i, n))
  {
  }

  method ReduceReads(g: Graph, maxStack: nat) returns (nodes: Graph, removed: set<nat>)
    requires WellFormed(g, maxStack)
    ensures nodes == Closed'(g) && ClosedRemoved(g, removed)
  {
    hide IsTriangle, DroppedBefore, WellFormed, Sources;
    var preds := PredecessorLists(g, maxStack);
    nodes, removed := g, {};
    assert forall n: nat :: !DroppedBefore(g, 0, n) by { NothingDroppedYet(g); }
    for i: nat := 0 to |g|
      invariant |nodes| == |g|
      invariant forall k: nat :: k < |g| ==> nodes[k] == if k < i then ClosedNode(g, k) else g[k]
      invariant forall n: nat :: n in removed <==> DroppedBefore(g, i, n)
    {
      var head := i !in removed;
      if head {
        head := TestTriangle(g, maxStack, preds, i);
      } else {
        AllDropped(g, i, i);
        DroppedIsNoHead(g, i);
      }
      if head {
        TriangleBounds(g, i);
        var branch := g[i].edges[0];
        nodes := nodes[i := g[i].(edges := [g[branch].edges[0]])];
        removed := removed + {branch, g[branch].edges[1]};
      }
      forall n: nat ensures n in removed <==> DroppedBefore(g, i + 1, n) { DroppedNext(g, i, n); }
    }
    forall n: nat ensures n in removed <==> Dropped(g, n) { AllDropped(g, |g|, n); }
  }

  lemma {:induction false} NothingDroppedYet(g: Graph)
    ensures forall n: nat :: !DroppedBefore(g, 0, n)
  {
  }

  lemma {:induction false} AllDropped(g: Graph, bound: nat, n: nat)
    requires bound <= |g|
    ensures DroppedBefore(g, bound, n) ==> Dropped(g, n)
    ensures bound == |g| ==> (DroppedBefore(g, bound, n) <==> Dropped(g, n))
  {
  }

  lemma {:induction false} TriangleBounds(g: Graph, i: nat)
    requires i < |g| && IsTriangle(g, i)
    ensures |g[i].edges| == 1 && g[i].edges[0] < |g| && |g[g[i].edges[0]].edges| == 2
  {
  }

  method TestTriangle(g: Graph, maxStack: nat, preds: seq<seq<nat>>, i: nat) returns (yes: bool)
    requires WellFormed(g, maxStack) && |preds| == |g| && i < |g|
    requires forall n: nat :: n < |g| ==> preds[n] == Sources(g, n, |g|)
    ensures yes == IsTriangle(g, i)
  {
    if g[i].name != GETUPVAL || |g[i].edges| != 1 { return false; }
    var branch := g[i].edges[0];
    if g[branch].name !in {JUMPIF, JUMPIFNOT} || preds[branch] != [i] || g[branch].pc != g[i].pc + 1 { return false; }
    assert LookupShape(g[i]);
    if g[branch].operands != [Read(g[i].operands[0].reg)] || |g[branch].edges| != 2 { return false; }
    var join, reread := g[branch].edges[0], g[branch].edges[1];
    if join == i || join == branch || join == reread || g[reread].name != GETUPVAL { return false; }
    yes := g[reread].pc == g[branch].pc + 1 && g[reread].operands == g[i].operands &&
           preds[reread] == [branch] && g[reread].edges == [join];
  }

  // ----- the reduced graph -----

  lemma {:induction false} ClosedKeepsShape(g: Graph, maxStack: nat)
    requires WellFormed(g, maxStack)
    ensures WellFormed(Closed'(g), maxStack)
  {
    var nodes := Closed'(g);
    forall i: nat | i < |g|
      ensures IsLookup(nodes[i].name) ==> LookupShape(nodes[i])
      ensures nodes[i].name == MOVE ==> MoveShape(nodes[i])
      ensures forall e :: 0 <= e < |nodes[i].edges| ==> nodes[i].edges[e] < |g|
    {
      assert forall f :: nodes[i].EdgeKills(f) == g[i].EdgeKills(f);
    }
    forall i: nat, e: nat | i < |g| && e < |nodes[i].edges| && (IsLookup(nodes[i].name) || nodes[i].name == MOVE)
      ensures nodes[i].pc < nodes[nodes[i].edges[e]].pc
    {
      if IsTriangle(g, i) { JoinIsLater(g, maxStack, i); }
    }
  }

  /** The join follows the reread, which follows the test, which follows the read. */
  lemma {:induction false} JoinIsLater(g: Graph, maxStack: nat, i: nat)
    requires WellFormed(g, maxStack) && i < |g| && IsTriangle(g, i)
    ensures var join := g[g[i].edges[0]].edges[0]; join < |g| && g[i].pc < g[join].pc
  {
    var branch := g[i].edges[0];
    var join, reread := g[branch].edges[0], g[branch].edges[1];
    assert g[reread].edges[0] == join;
  }

  /** Everything the reduction started from and produced. */
  ghost predicate ReducedTo(g: Graph, maxStack: nat, removed: set<nat>, order: seq<nat>, output: Graph) {
    && WellFormed(g, maxStack) && PlainShapes(g) && ClosedRemoved(g, removed)
    && IsRelabelling(Closed'(g), {}, order, output) && AllReachable(output)
  }

  lemma {:induction false} NothingDropsRoot(g: Graph, maxStack: nat)
    requires WellFormed(g, maxStack)
    ensures !Dropped(g, 0)
  {
  }

  /** Nothing dropped is ever numbered. */
  lemma {:induction false} PathStaysKept(g: Graph, maxStack: nat, removed: set<nat>, order: seq<nat>, output: Graph,
      path: seq<nat>)
    requires ReducedTo(g, maxStack, removed, order, output) && IsPath(output, path)
    ensures EndOf(output, path) < |output| && !Dropped(g, order[EndOf(output, path)])
    decreases |path|
  {
    if path == [] {
      NothingDropsRoot(g, maxStack);
    } else {
      var before, e := path[..|path| - 1], path[|path| - 1];
      PathStaysKept(g, maxStack, removed, order, output, before);
      var i := EndOf(output, before);
      assert Relabelled(Closed'(g), {}, order, output, i);
      assert Names(Closed'(g), {}, order, output[i].edges[e], Closed'(g)[order[i]].edges[e]);
      KeptLeadsToKept(g, order[i], e);
    }
  }

  lemma {:induction false} OrderIsKept(g: Graph, maxStack: nat, removed: set<nat>, order: seq<nat>, output: Graph,
      i: nat)
    requires ReducedTo(g, maxStack, removed, order, output) && i < |order|
    ensures !Dropped(g, order[i]) && order[i] !in removed
  {
    assert Reachable(output, i);
    var path :| PathTo(output, path, i);
    PathStaysKept(g, maxStack, removed, order, output, path);
  }

  /** What relabelling the reduced nodes means edge by edge. */
  lemma {:induction false} ReducedEdge(g: Graph, maxStack: nat, removed: set<nat>, order: seq<nat>, output: Graph,
      i: nat, e: nat)
    requires ReducedTo(g, maxStack, removed, order, output) && i < |output| && e < |output[i].edges|
    ensures output[i].operands == g[order[i]].operands && output[i].name == g[order[i]].name
    ensures e < |ClosedNode(g, order[i]).edges|
    ensures output[i].edges[e] < |order| && order[output[i].edges[e]] == ClosedNode(g, order[i]).edges[e]
  {
    assert Relabelled(Closed'(g), {}, order, output, i);
    assert Names(Closed'(g), {}, order, output[i].edges[e], Closed'(g)[order[i]].edges[e]);
  }

  /** The read, the test behind it and the reread behind that: each reached from the one before it
      only, the reread into the same register from the same cell, and joining the test's other edge. */
  ghost predicate HeadsTriangle(g: Graph, i: nat, branch: nat, reread: nat, join: nat) {
    && SoleEdge(g, i, 0, branch) && SoleEdge(g, branch, 1, reread) && branch < |g| && reread < |g|
    && g[i].name == GETUPVAL && (g[branch].name == JUMPIF || g[branch].name == JUMPIFNOT) && g[reread].name == GETUPVAL
    && g[i].edges == [branch] && g[branch].edges == [join, reread] && g[reread].edges == [join]
    && join != i && join != branch && join != reread
    && g[branch].pc == g[i].pc + 1 && g[reread].pc == g[branch].pc + 1
    && g[i].operands == g[reread].operands
    && exists r :: |g[i].operands| > 0 && g[i].operands[0] == Write(r) && g[branch].operands == [Read(r)]
  }

  lemma {:induction false} TriangleIs(g: Graph, i: nat)
    requires i < |g|
    ensures IsTriangle(g, i) <==>
        exists branch: nat, reread: nat, join: nat :: HeadsTriangle(g, i, branch, reread, join)
    ensures forall branch: nat, reread: nat, join: nat :: HeadsTriangle(g, i, branch, reread, join) ==>
      DroppedBy(g, i, branch) && DroppedBy(g, i, reread) && ClosedNode(g, i).edges == [join]
  {
    forall branch: nat, reread: nat, join: nat | HeadsTriangle(g, i, branch, reread, join)
      ensures IsTriangle(g, i) && DroppedBy(g, i, branch) && DroppedBy(g, i, reread)
    {
      SoleEdgeIs(g, i, 0, branch);
      SoleEdgeIs(g, branch, 1, reread);
    }
    if IsTriangle(g, i) {
      var branch := g[i].edges[0];
      var join, reread := g[branch].edges[0], g[branch].edges[1];
      SoleEdgeIs(g, i, 0, branch);
      SoleEdgeIs(g, branch, 1, reread);
      assert HeadsTriangle(g, i, branch, reread, join);
    }
  }

  /** The edges of a node once the triangles are gone: a head leads straight to its join. */
  ghost predicate ReducedNode(g: Graph, order: seq<nat>, reduced: Graph, i: nat)
    requires i < |order| == |reduced| && order[i] < |g|
  {
    var was, now := g[order[i]], reduced[i];
    && now == was.(edges := now.edges) && (forall e :: 0 <= e < |now.edges| ==> now.edges[e] < |order|)
    && (forall branch: nat, reread: nat, join: nat :: HeadsTriangle(g, order[i], branch, reread, join) ==>
          |now.edges| == 1 && order[now.edges[0]] == join)
    && ((forall branch: nat, reread: nat, join: nat :: !HeadsTriangle(g, order[i], branch, reread, join)) ==>
          |now.edges| == |was.edges| && forall e :: 0 <= e < |now.edges| ==> order[now.edges[e]] == was.edges[e])
  }

  /** The graph without the tests and rereads of its triangles, numbered breadth first. */
  ghost predicate IsReduction(g: Graph, order: seq<nat>, reduced: Graph) {
    && |reduced| == |order| > 0 && order[0] == 0 && Unrepeated(order)
    && (forall i: nat :: i < |order| ==> order[i] < |g| && ReducedNode(g, order, reduced, i))
    && (forall i: nat, h: nat, branch: nat, reread: nat, join: nat ::
      i < |order| && HeadsTriangle(g, h, branch, reread, join) ==>
          order[i] != branch && order[i] != reread)
    && FirstUse(reduced) && AllReachable(reduced)
  }

  lemma {:induction false} ReductionIs(g: Graph, maxStack: nat, removed: set<nat>, order: seq<nat>, output: Graph)
    requires ReducedTo(g, maxStack, removed, order, output) && FirstUse(output)
    ensures IsReduction(g, order, output)
  {
    hide WellFormed, PlainShapes, FirstUse, AllReachable, HeadsTriangle, IsTriangle;
    forall i: nat | i < |order| ensures order[i] < |g| && ReducedNode(g, order, output, i) {
      assert Relabelled(Closed'(g), {}, order, output, i);
      TriangleIs(g, order[i]);
      forall e: nat | e < |output[i].edges|
        ensures output[i].edges[e] < |order| && order[output[i].edges[e]] == ClosedNode(g, order[i]).edges[e]
      {
        ReducedEdge(g, maxStack, removed, order, output, i, e);
      }
    }
    forall i: nat, h: nat, branch: nat, reread: nat, join: nat | i < |order| &&
      HeadsTriangle(g, h, branch, reread, join)
      ensures order[i] != branch && order[i] != reread
    {
      HeadInside(g, h, branch, reread, join);
      TriangleIs(g, h);
      OrderIsKept(g, maxStack, removed, order, output, i);
    }
  }

  lemma {:induction false} HeadInside(g: Graph, h: nat, branch: nat, reread: nat, join: nat)
    requires HeadsTriangle(g, h, branch, reread, join)
    ensures h < |g|
  {
  }

  // ----- definitions survive -----

  /** Every path of the reduced graph is, with the dropped tests put back, a path of the
      original that leaves the same definitions and the same top. */
  lemma {:induction false} PathLifts(g: Graph, maxStack: nat, params: nat, removed: set<nat>, order: seq<nat>,
      output: Graph, path: seq<nat>)
    returns (lifted: seq<nat>)
    requires ReducedTo(g, maxStack, removed, order, output) && IsPath(output, path)
    ensures EndOf(output, path) < |output| && PathTo(g, lifted, order[EndOf(output, path)])
    ensures FlowOf(g, params, lifted) == FlowOf(output, params, path)
    decreases |path|
  {
    hide WellFormed, PlainShapes, Sources, AllReachable;
    if path == [] {
      lifted := [];
    } else {
      var before, e := path[..|path| - 1], path[|path| - 1];
      lifted := PathLifts(g, maxStack, params, removed, order, output, before);
      var i := EndOf(output, before);
      var n := order[i];
      ReducedEdge(g, maxStack, removed, order, output, i, e);
      assert Relabelled(Closed'(g), {}, order, output, i);
      assert g[n].EdgeKills(e) == output[i].EdgeKills(e) && g[n].EdgeTop(e) == output[i].EdgeTop(e);
      FlowExtends(g, params, lifted, n, e);
      lifted := lifted + [e];
      if IsTriangle(g, n) {
        var branch := g[n].edges[0];
        FlowExtends(g, params, lifted, branch, 0);
        TestPassesFlow(g, branch, FlowOf(g, params, lifted));
        lifted := lifted + [0];
      }
    }
  }

  lemma {:induction false} TestPassesFlow(g: Graph, branch: nat, f: Flow)
    requires PlainShapes(g) && branch < |g| && g[branch].name in {JUMPIF, JUMPIFNOT}
    requires |g[branch].operands| == 1 && g[branch].operands[0].Read?
    ensures Through(g[branch], 0, f) == f
  {
    assert WriteList(g[branch].operands[1..]) == [];
    assert EdgeWriteList(g[branch].operands[1..], 0) == [];
  }

  lemma {:induction false} ReducedWellDefined(g: Graph, maxStack: nat, params: nat, removed: set<nat>, order: seq<nat>,
      output: Graph)
    requires ReducedTo(g, maxStack, removed, order, output) && WellDefined(g, params)
    ensures WellDefined(output, params)
  {
    forall path, i: nat | PathTo(output, path, i) && i < |output|
      ensures SafeRead(output[i], FlowOf(output, params, path))
    {
      var lifted := PathLifts(g, maxStack, params, removed, order, output, path);
      assert Relabelled(Closed'(g), {}, order, output, i);
      assert SafeRead(g[order[i]], FlowOf(g, params, lifted));
    }
    forall p, q, i: nat | PathTo(output, p, i) && PathTo(output, q, i) && i < |output| && output[i].openRead.Some?
      ensures FlowOf(output, params, p).top == FlowOf(output, params, q).top
    {
      var p' := PathLifts(g, maxStack, params, removed, order, output, p);
      var q' := PathLifts(g, maxStack, params, removed, order, output, q);
      assert Relabelled(Closed'(g), {}, order, output, i);
      assert PathTo(g, p', order[i]) && PathTo(g, q', order[i]);
    }
  }

  // ----- running in step -----

  ghost predicate CellKept(o: Oracle, t: seq<Event>, ev: Event, slot: int) {
    o(t + [ev], GETUPVAL, [Literal(slot)], []).results == o(t, GETUPVAL, [Literal(slot)], []).results
  }

  /** Reading an upvalue changes no cell: the next read of the same cell answers alike. */
  ghost predicate ReadsAreSilent(o: Oracle) {
    forall t: seq<Event>, ev: Event, slot: int :: ev.name == GETUPVAL ==> CellKept(o, t, ev, slot)
  }

  ghost predicate SameStores(order: seq<nat>, a: State<Reg>, b: State<Reg>) {
    match (a, b)
    case (Running(n, s, t), Running(i, s', t')) => i < |order| && order[i] == n && t == t' && s == s'
    case (Returned(t), Returned(t')) => t == t'
    case (Stuck(t), Stuck(t')) => t == t'
    case _ => false
  }

  lemma {:induction false} UpvalueLists(n: Node<Reg>)
    requires UpvalueShape(n)
    ensures ReadList(n.operands) == [] && WriteList(n.operands) == [n.operands[0].reg]
    ensures Immediates(n.operands) == [Literal(n.operands[1].data.code)]
    ensures forall e: nat :: EdgeWriteList(n.operands, e) == []
  {
    var rest := n.operands[1..];
    assert Immediates(rest) == [rest[0].data] + Immediates(rest[1..]);
    assert ReadList(rest) == ReadList(rest[1..]) && WriteList(rest) == WriteList(rest[1..]);
    forall e: nat ensures EdgeWriteList(n.operands, e) == [] {
      assert EdgeWriteList(rest, e) == EdgeWriteList(rest[1..], e);
    }
  }

  lemma {:induction false} TestLists(n: Node<Reg>)
    requires |n.operands| == 1 && n.operands[0].Read?
    ensures ReadList(n.operands) == [n.operands[0].reg] && WriteList(n.operands) == []
    ensures forall e: nat :: EdgeWriteList(n.operands, e) == []
  {
    var rest := n.operands[1..];
    assert ReadList(rest) == [] && WriteList(rest) == [];
    forall e: nat ensures EdgeWriteList(n.operands, e) == [] { assert EdgeWriteList(rest, e) == []; }
  }

  /** A test leaves the store alone. */
  lemma {:induction false} TestStep(g: Graph, o: Oracle, hidden: set<nat>, branch: nat, s: map<Reg, Value>,
      t: seq<Event>)
    returns (e: nat)
    requires PlainShapes(g) && branch < |g| && g[branch].name in {JUMPIF, JUMPIFNOT} && branch in hidden
    requires |g[branch].operands| == 1 && g[branch].operands[0].Read? && g[branch].operands[0].reg in s
    requires |g[branch].edges| == 2
    ensures e < 2 && Step(g, o, hidden, Running(branch, s, t)) == Running(g[branch].edges[e], s, t)
  {
    TestLists(g[branch]);
    var args := Args(s, ReadList(g[branch].operands));
    var reply := Ask(o, g[branch], t, args);
    e := Taken(reply, 2);
    assert s - {} == s;
    assert After(g[branch], s, reply, e) == s;
    assert t + [] == t;
  }

  /** Reading a cell: the register takes what the cell holds. */
  lemma {:induction false} ReadStep(g: Graph, o: Oracle, hidden: set<nat>, n: nat, s: map<Reg, Value>, t: seq<Event>)
    requires PlainShapes(g) && n < |g| && g[n].name == GETUPVAL && |g[n].edges| == 1
    ensures var args: seq<Value> := [];
            var reply := o(t, GETUPVAL, Immediates(g[n].operands), args);
            var log := if n in hidden then [] else [Event(GETUPVAL, Immediates(g[n].operands), args, 0)];
            Step(g, o, hidden, Running(n, s, t)) ==
              Running(g[n].edges[0], s[g[n].operands[0].reg := ValueAt(reply.results, 0)], t + log)
  {
    UpvalueLists(g[n]);
    var reply := o(t, GETUPVAL, Immediates(g[n].operands), []);
    assert Args(s, ReadList(g[n].operands)) == [];
    assert s - {} == s;
    var stored := s[g[n].operands[0].reg := ValueAt(reply.results, 0)];
    assert stored - {} == stored;
    assert StoreAll(s, WriteList(g[n].operands), reply.results) == stored;
  }

  /** Rereading a cell leaves the store and the trace that reading it left. */
  lemma {:induction false} RereadFindsSame(g: Graph, o: Oracle, hidden: set<nat>, i: nat, reread: nat,
      s: map<Reg, Value>, t: seq<Event>)
    requires PlainShapes(g) && ReadsAreSilent(o) && i < |g| && reread < |g| && reread in hidden
    requires g[i].name == GETUPVAL && g[reread].name == GETUPVAL && g[reread].operands == g[i].operands
    requires |g[i].edges| == 1 && |g[reread].edges| == 1
    ensures var next := Step(g, o, hidden, Running(i, s, t));
            next.Running? &&
            Step(g, o, hidden, Running(reread, next.store, next.trace)) ==
              Running(g[reread].edges[0], next.store, next.trace)
  {
    UpvalueLists(g[i]);
    ReadStep(g, o, hidden, i, s, t);
    hide Step, PlainShapes;
    var next := Step(g, o, hidden, Running(i, s, t));
    ReadStep(g, o, hidden, reread, next.store, next.trace);
    assert i !in hidden ==>
      CellKept(o, t, Event(GETUPVAL, Immediates(g[i].operands), [], 0), g[i].operands[1].data.code);
    assert next.trace + [] == next.trace && t + [] == t;
  }

  /** From the test to the join: whichever way the test goes, the store and the trace are
      those the first read left. */
  lemma {:induction false} TriangleSettles(g: Graph, maxStack: nat, o: Oracle, hidden: set<nat>, removed: set<nat>,
      i: nat, s: map<Reg, Value>, t: seq<Event>)
    requires WellFormed(g, maxStack) && PlainShapes(g) && ClosedRemoved(g, removed) && removed <= hidden
    requires ReadsAreSilent(o)
    requires i < |g| && IsTriangle(g, i)
    ensures var branch := g[i].edges[0];
            Step(g, o, hidden, Running(i, s, t)).Running? &&
            StepPast(g, o, hidden, removed, 2, Running(i, s, t)) ==
              Step(g, o, hidden, Running(i, s, t)).(at := g[branch].edges[0])
  {
    hide Step, ReadsAreSilent, WellFormed, PlainShapes, Sources, Dropped;
    var branch := g[i].edges[0];
    var join, reread := g[branch].edges[0], g[branch].edges[1];
    HeadDrops(g, i);
    JoinStays(g, i);
    ReadStep(g, o, hidden, i, s, t);
    var next := Step(g, o, hidden, Running(i, s, t));
    var e := TestStep(g, o, hidden, branch, next.store, next.trace);
    var tested := Step(g, o, hidden, next);
    assert Settle(g, o, hidden, removed, 2, next) == Settle(g, o, hidden, removed, 1, tested);
    if e == 1 {
      RereadFindsSame(g, o, hidden, i, reread, s, t);
      var reread' := Step(g, o, hidden, tested);
      assert reread' == Running(join, next.store, next.trace);
      assert Settle(g, o, hidden, removed, 1, tested) == Settle(g, o, hidden, removed, 0, reread');
    }
  }

  /** Hiding means the same nodes on both sides. */
  ghost predicate HidesAlike(order: seq<nat>, hidden: set<nat>, hidden': set<nat>) {
    forall i: nat :: i < |order| ==> (i in hidden' <==> order[i] in hidden)
  }

  lemma {:induction false} ReducedStep(g: Graph, maxStack: nat, removed: set<nat>, order: seq<nat>, output: Graph,
      o: Oracle, hidden: set<nat>, hidden': set<nat>, a: State<Reg>, b: State<Reg>)
    requires ReducedTo(g, maxStack, removed, order, output) && ReadsAreSilent(o)
    requires removed <= hidden && HidesAlike(order, hidden, hidden') && SameStores(order, a, b)
    ensures SameStores(order, StepPast(g, o, hidden, removed, 2, a), Step(output, o, hidden', b))
  {
    if a.Running? {
      var n, i := a.at, b.at;
      assert Relabelled(Closed'(g), {}, order, output, i);
      forall e: nat | e < |output[i].edges| ensures order[output[i].edges[e]] == ClosedNode(g, n).edges[e] {
        ReducedEdge(g, maxStack, removed, order, output, i, e);
      }
      if IsTriangle(g, n) {
        TriangleSettles(g, maxStack, o, hidden, removed, n, a.store, a.trace);
        OneEdgeStep(g, output, o, hidden, hidden', n, i, a.store, a.trace);
      } else {
        OrderIsKept(g, maxStack, removed, order, output, i);
        KeptStaysKept(g, removed, n);
        SameNodeStep(g, output, order, o, hidden, hidden', removed, n, i, a.store, a.trace);
      }
    }
  }

  lemma {:induction false} KeptStaysKept(g: Graph, removed: set<nat>, n: nat)
    requires n < |g| && ClosedRemoved(g, removed) && !Dropped(g, n) && !IsTriangle(g, n)
    ensures forall e :: 0 <= e < |g[n].edges| ==> g[n].edges[e] !in removed
  {
    forall e: nat | e < |g[n].edges| ensures g[n].edges[e] !in removed { KeptLeadsToKept(g, n, e); }
  }

  lemma {:induction false} OneEdgeStep(g: Graph, output: Graph, o: Oracle, hidden: set<nat>, hidden': set<nat>, n: nat,
      i: nat, s: map<Reg, Value>, t: seq<Event>)
    requires n < |g| && i < |output| && output[i] == g[n].(edges := output[i].edges)
    requires |g[n].edges| == |output[i].edges| == 1
    requires i in hidden' <==> n in hidden
    ensures Step(output, o, hidden', Running(i, s, t)).Running? <==> Step(g, o, hidden, Running(n, s, t)).Running?
    ensures var a, b := Step(g, o, hidden, Running(n, s, t)), Step(output, o, hidden', Running(i, s, t));
            if a.Running? then b == a.(at := output[i].edges[0]) else b == a
  {
    assert forall e :: output[i].EdgeKills(e) == g[n].EdgeKills(e);
  }

  lemma {:induction false} SameNodeStep(g: Graph, output: Graph, order: seq<nat>, o: Oracle, hidden: set<nat>,
      hidden': set<nat>, removed: set<nat>, n: nat, i: nat, s: map<Reg, Value>, t: seq<Event>)
    requires n < |g| && i < |output| && output[i] == g[n].(edges := output[i].edges)
    requires |g[n].edges| == |output[i].edges|
    requires forall e ::
        0 <= e < |g[n].edges| ==>
          output[i].edges[e] < |order| && order[output[i].edges[e]] == g[n].edges[e] && g[n].edges[e] !in removed
    requires i in hidden' <==> n in hidden
    ensures SameStores(order, StepPast(g, o, hidden, removed, 2, Running(n, s, t)),
        Step(output, o, hidden', Running(i, s, t)))
  {
    assert forall e :: output[i].EdgeKills(e) == g[n].EdgeKills(e);
  }

  lemma {:induction false} ReducedRun(g: Graph, maxStack: nat, removed: set<nat>, order: seq<nat>, output: Graph,
      o: Oracle, hidden: set<nat>, hidden': set<nat>, args: seq<Value>, steps: nat)
    requires ReducedTo(g, maxStack, removed, order, output) && ReadsAreSilent(o)
    requires removed <= hidden && HidesAlike(order, hidden, hidden')
    ensures SameStores(order, RunPast(g, o, hidden, removed, 2, Entry(args), steps),
        Run(output, o, hidden', Entry(args), steps))
  {
    hide Step, StepPast;
    if steps > 0 {
      ReducedRun(g, maxStack, removed, order, output, o, hidden, hidden', args, steps - 1);
      ReducedStep(g, maxStack, removed, order, output, o, hidden, hidden',
                  RunPast(g, o, hidden, removed, 2, Entry(args), steps - 1),
                    Run(output, o, hidden', Entry(args), steps - 1));
    }
  }

  // ----- the certificate -----

  lemma {:induction false} TriangleIsShort(g: Graph, removed: set<nat>, i: nat)
    requires ClosedRemoved(g, removed) && i < |g| && IsTriangle(g, i)
    ensures Leaves(g, removed, g[i].edges[0], 2) && Leaves(g, removed, g[g[i].edges[0]].edges[1], 2)
  {
    hide Dropped;
    var branch := g[i].edges[0];
    var join, reread := g[branch].edges[0], g[branch].edges[1];
    JoinStays(g, i);
    assert forall k: nat :: Leaves(g, removed, join, k);
    assert Leaves(g, removed, reread, 1);
    assert Leaves(g, removed, reread, 2);
  }

  lemma {:induction false} DroppedIsShort(g: Graph, removed: set<nat>)
    requires ClosedRemoved(g, removed)
    ensures ShortHidden(g, removed, 2)
  {
    hide Leaves, IsTriangle;
    forall n: nat | n in removed ensures Leaves(g, removed, n, 2) {
      assert Dropped(g, n);
      var i: nat :| i < |g| && IsTriangle(g, i) && DroppedBy(g, i, n);
      TriangleIsShort(g, removed, i);
    }
  }

  /** The MOVEs merged in the reduced graph, under the original's numbering. */
  function Renumbered(order: seq<nat>, moves: set<nat>): set<nat> {
    set m | m in moves && m < |order| :: order[m]
  }

  lemma {:induction false} HidesBoth(g: Graph, maxStack: nat, removed: set<nat>, order: seq<nat>, output: Graph,
      moves: set<nat>)
    requires ReducedTo(g, maxStack, removed, order, output)
    ensures HidesAlike(order, removed + Renumbered(order, moves), moves)
  {
    forall i: nat | i < |order| ensures i in moves <==> order[i] in removed + Renumbered(order, moves) {
      OrderIsKept(g, maxStack, removed, order, output, i);
    }
  }

  lemma {:induction false} ReducedPreserves(g: Graph, maxStack: nat, params: nat, removed: set<nat>, order: seq<nat>,
      reduced: Graph, moves: set<nat>, output: Certificate, o: Oracle)
    requires ReducedTo(g, maxStack, removed, order, reduced) && ReadsAreSilent(o)
    requires PreservesUnder(reduced, params, moves, output, o)
    ensures PreservesUnder(g, params, removed + Renumbered(order, moves), output, o)
  {
    var hidden := removed + Renumbered(order, moves);
    HidesBoth(g, maxStack, removed, order, reduced, moves);
    DroppedIsShort(g, removed);
    NothingDropsRoot(g, maxStack);
    forall args: seq<Value> | |args| == params
      ensures Leads(g, hidden, output, o, args) && Follows(g, hidden, output, o, args)
    {
      hide *;
      forall steps: nat ensures Met(g, hidden, output, o, args, steps) {
        ReducedLeads(g, maxStack, params, removed, order, reduced, moves, output, o, args, steps);
      }
      forall single: nat ensures Reached(g, hidden, output, o, args, single) {
        ReducedFollows(g, maxStack, params, removed, order, reduced, moves, output, o, args, single);
      }
    }
  }

  lemma {:induction false} ReducedLeads(g: Graph, maxStack: nat, params: nat, removed: set<nat>, order: seq<nat>,
      reduced: Graph, moves: set<nat>, output: Certificate, o: Oracle, args: seq<Value>, steps: nat)
    requires ReducedTo(g, maxStack, removed, order, reduced) && ReadsAreSilent(o) && |args| == params
    requires PreservesUnder(reduced, params, moves, output, o)
    requires HidesAlike(order, removed + Renumbered(order, moves), moves)
    ensures Met(g, removed + Renumbered(order, moves), output, o, args, steps)
  {
    hide Run, RunPast, ReducedTo, HidesAlike, ReadsAreSilent;
    var hidden := removed + Renumbered(order, moves);
    assert Met(reduced, moves, output, o, args, steps);
    var middle: nat :| steps <= middle && Meets(reduced, moves, output, o, args, middle, steps);
    ReducedRun(g, maxStack, removed, order, reduced, o, hidden, moves, args, middle);
    var single := GroupedIsRun(g, o, hidden, removed, 2, Entry(args), middle);
    assert Meets(g, hidden, output, o, args, single, steps);
  }

  lemma {:induction false} ReducedFollows(g: Graph, maxStack: nat, params: nat, removed: set<nat>, order: seq<nat>,
      reduced: Graph, moves: set<nat>, output: Certificate, o: Oracle, args: seq<Value>, single: nat)
    requires ReducedTo(g, maxStack, removed, order, reduced) && ReadsAreSilent(o) && |args| == params
    requires PreservesUnder(reduced, params, moves, output, o)
    requires HidesAlike(order, removed + Renumbered(order, moves), moves) && ShortHidden(g, removed, 2) && 0 !in removed
    ensures Reached(g, removed + Renumbered(order, moves), output, o, args, single)
  {
    hide Run, RunPast, ReducedTo, HidesAlike, ReadsAreSilent, Settle, Leaves;
    var hidden := removed + Renumbered(order, moves);
    var middle := RunIsGrouped(g, o, hidden, removed, 2, Entry(args), single);
    ReducedRun(g, maxStack, removed, order, reduced, o, hidden, moves, args, middle);
    assert Reached(reduced, moves, output, o, args, middle);
    var steps: nat :| steps <= middle && Meets(reduced, moves, output, o, args, middle, steps);
    SettlesAlike(g, o, hidden, removed, Run(g, o, hidden, Entry(args), single));
    assert Meets(g, hidden, output, o, args, single, steps);
  }

  lemma {:induction false} SettlesAlike(g: Graph, o: Oracle, hidden: set<nat>, removed: set<nat>, s: State<Reg>)
    requires removed <= hidden && ShortHidden(g, removed, 2)
    ensures var settled := Settle(g, o, hidden, removed, 2, s);
            settled.trace == s.trace && (!settled.Stuck? ==> (s.Running? <==> settled.Running?) && !s.Stuck?)
  {
    if s.Running? { assert s.at in removed ==> Leaves(g, removed, s.at, 2); }
    SettleEnough(g, o, hidden, removed, 2, s);
    HaltedStays(g, o, hidden, removed, s, 2);
  }

  /** The certificate of `g` is that of its reduction. */
  ghost predicate ReducedCertifies(g: Graph, params: nat, output: Certificate) {
    exists order, reduced :: IsReduction(g, order, reduced) && Certifies(reduced, params, output)
  }

  /** Closed reads first, then the private-storage pass, with what each of them did. */
  method ReduceAndRename(g: Graph, maxStack: nat, params: nat)
    returns (output: Certificate, hidden: set<nat>, ghost removed: set<nat>, ghost order: seq<nat>,
        ghost reduced: Graph, ghost moves: set<nat>)
    requires WellFormed(g, maxStack) && PlainShapes(g) && params <= maxStack && AllReachable(g)
    requires WellDefined(g, params)
    ensures ReducedTo(g, maxStack, removed, order, reduced) && hidden == removed + Renumbered(order, moves)
    ensures forall m :: m in moves ==> m < |reduced| && reduced[m].name == MOVE
    ensures forall o :: ReadsAreSilent(o) ==> PreservesUnder(g, params, hidden, output, o)
    ensures ReducedCertifies(g, params, output)
  {
    var nodes, dropped := ReduceReads(g, maxStack);
    ClosedKeepsShape(g, maxStack);
    var numbered, smaller := Relabel(nodes, {});
    RelabellingWellFormed(nodes, maxStack, {}, numbered, smaller);
    ReducedWellDefined(g, maxStack, params, dropped, numbered, smaller);
    var merged;
    output, merged := PrivateCopyGraph(smaller, maxStack, params);
    hidden := dropped + Renumbered(numbered, merged);
    removed, order, reduced, moves := dropped, numbered, smaller, merged;
    ReductionIs(g, maxStack, removed, order, reduced);
    forall o | ReadsAreSilent(o) ensures PreservesUnder(g, params, hidden, output, o) {
      assert PreservesUnder(reduced, params, moves, output, o);
      ReducedPreserves(g, maxStack, params, removed, order, reduced, moves, output, o);
    }
  }

  /** A function without open packs. */
  method ClosedReadCertificate(g: Graph, maxStack: nat, params: nat) returns (output: Certificate, hidden: set<nat>)
    requires WellFormed(g, maxStack) && PlainShapes(g) && params <= maxStack && AllReachable(g)
    requires WellDefined(g, params)
    ensures forall o :: ReadsAreSilent(o) ==> PreservesUnder(g, params, hidden, output, o)
    ensures ReducedCertifies(g, params, output)
  {
    ghost var removed, order, reduced, moves;
    output, hidden, removed, order, reduced, moves := ReduceAndRename(g, maxStack, params);
  }
}
