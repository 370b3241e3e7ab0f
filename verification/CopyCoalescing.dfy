/** Merging a lookup with the MOVE that copies its result, and why the merged, relabelled
    graph runs in step with the input graph. */
module CopyCoalescing {
  import opened RegisterGraph
  import opened Worklist
  import opened Liveness
  import opened Relabelling
  import opened Grouping

  // ----- the rewrite -----

  /** A lookup whose only successor is a MOVE reached from nowhere else, copying exactly the
      looked-up register elsewhere, with the original dead afterwards. */
  predicate Mergeable(g: Graph, outgoing: LiveMap, i: nat)
    requires i < |g| && |outgoing| == |g|
  {
    IsLookup(g[i].name) && |g[i].edges| == 1 &&
    var m := g[i].edges[0];
    m < |g| && g[m].name == MOVE && |g[m].edges| == 1 && Sources(g, m, |g|) == [i] &&
    |g[i].operands| > 0 && g[i].operands[0].Write? &&
    |g[m].operands| == 2 && g[m].operands[0].Write? && g[m].operands[1].Read? &&
    var source, destination, copied := g[i].operands[0].reg, g[m].operands[0].reg, g[m].operands[1].reg;
    source == copied && source != destination && source !in outgoing[m]
  }

  function MergedNode(g: Graph, outgoing: LiveMap, i: nat): Node<Reg>
    requires i < |g| && |outgoing| == |g|
  {
    if Mergeable(g, outgoing, i)
    then g[i].(operands := [g[g[i].edges[0]].operands[0]] + g[i].operands[1..])
    else g[i]
  }

  function Merged(g: Graph, outgoing: LiveMap): Graph
    requires |outgoing| == |g|
  {
    seq(|g|, i requires 0 <= i < |g| => MergedNode(g, outgoing, i))
  }

  ghost predicate IsRemovedMove(g: Graph, outgoing: LiveMap, m: nat)
    requires |outgoing| == |g|
  {
    exists i: nat :: i < |g| && Mergeable(g, outgoing, i) && g[i].edges[0] == m
  }

  ghost predicate MergedBefore(g: Graph, outgoing: LiveMap, bound: nat, m: nat)
    requires |outgoing| == |g|
  {
    exists i: nat :: i < bound && i < |g| && Mergeable(g, outgoing, i) && g[i].edges[0] == m
  }

  method TestMergeable(g: Graph, maxStack: nat, preds: seq<seq<nat>>, outgoing: LiveMap, i: nat) returns (yes: bool)
    requires WellFormed(g, maxStack) && |preds| == |outgoing| == |g| && i < |g|
    requires forall n: nat :: n < |g| ==> preds[n] == Sources(g, n, |g|)
    ensures yes == Mergeable(g, outgoing, i)
  {
    var n := g[i];
    if !IsLookup(n.name) || |n.edges| != 1 { return false; }
    var move := n.edges[0];
    if g[move].name != MOVE || preds[move] != [i] || |g[move].edges| != 1 { return false; }
    assert LookupShape(n) && MoveShape(g[move]);
    var source, destination, copied := n.operands[0].reg, g[move].operands[0].reg, g[move].operands[1].reg;
    yes := source == copied && source != destination && source !in outgoing[move];
  }

  method Coalesce(g: Graph, maxStack: nat, preds: seq<seq<nat>>, outgoing: LiveMap)
    returns (nodes: Graph, removed: set<nat>)
    requires WellFormed(g, maxStack) && |preds| == |outgoing| == |g|
    requires forall n: nat :: n < |g| ==> preds[n] == Sources(g, n, |g|)
    ensures nodes == Merged(g, outgoing)
    ensures RemovedMoves(g, outgoing, removed)
  {
    hide WellFormed, Sources, Mergeable, MergedBefore;
    nodes, removed := g, {};
    forall m: nat ensures !MergedBefore(g, outgoing, 0, m) { MergedNext(g, outgoing, 0, m); }
    for i: nat := 0 to |g|
      invariant |nodes| == |g|
      invariant forall k: nat :: k < |g| ==> nodes[k] == if k < i then MergedNode(g, outgoing, k) else g[k]
      invariant forall m: nat :: m in removed <==> MergedBefore(g, outgoing, i, m)
    {
      var merge := TestMergeable(g, maxStack, preds, outgoing, i);
      if merge {
        MergeableBounds(g, outgoing, i);
        var move := g[i].edges[0];
        nodes := nodes[i := g[i].(operands := [g[move].operands[0]] + g[i].operands[1..])];
        removed := removed + {move};
      }
      forall m: nat
        ensures MergedBefore(g, outgoing, i + 1, m) <==>
            MergedBefore(g, outgoing, i, m) || (merge && m == g[i].edges[0])
      {
        MergedNext(g, outgoing, i, m);
      }
    }
    forall m: nat ensures m in removed <==> IsRemovedMove(g, outgoing, m) { MergedNext(g, outgoing, |g|, m); }
  }

  lemma {:induction false} MergeableBounds(g: Graph, outgoing: LiveMap, i: nat)
    requires i < |g| && |outgoing| == |g| && Mergeable(g, outgoing, i)
    ensures |g[i].edges| == 1 && g[i].edges[0] < |g| && |g[i].operands| > 0 && |g[g[i].edges[0]].operands| == 2
  {
  }

  lemma {:induction false} MergedNext(g: Graph, outgoing: LiveMap, i: nat, m: nat)
    requires |outgoing| == |g|
    ensures i < |g| ==>
      (MergedBefore(g, outgoing, i + 1, m) <==>
        MergedBefore(g, outgoing, i, m) || (Mergeable(g, outgoing, i) && m == g[i].edges[0]))
    ensures !MergedBefore(g, outgoing, 0, m) && (MergedBefore(g, outgoing, |g|, m) <==> IsRemovedMove(g, outgoing, m))
  {
  }

  // ----- what was removed -----

  ghost predicate RemovedMoves(g: Graph, outgoing: LiveMap, removed: set<nat>)
    requires |outgoing| == |g|
  {
    forall m: nat :: m in removed <==> IsRemovedMove(g, outgoing, m)
  }

  /** An edge into a removed MOVE is the single edge of the lookup it merged with. */
  lemma {:induction false} OnlyLookupEnters(g: Graph, outgoing: LiveMap, removed: set<nat>, s: nat, e: nat, m: nat)
    requires |outgoing| == |g| && RemovedMoves(g, outgoing, removed)
    requires IsEdge(g, s, e, m) && m in removed
    ensures Mergeable(g, outgoing, s) && e == 0
  {
    var i: nat :| i < |g| && Mergeable(g, outgoing, i) && g[i].edges[0] == m;
    assert IsEdge(g, i, 0, m);
    SoleSource(g, m, |g|, s, e, i, 0);
  }

  lemma {:induction false} RemovedDetach(g: Graph, maxStack: nat, outgoing: LiveMap, removed: set<nat>)
    requires WellFormed(g, maxStack) && |outgoing| == |g| && RemovedMoves(g, outgoing, removed)
    ensures Detachable(g, removed)
    ensures forall m: nat :: m in removed ==> m < |g| && g[m].name == MOVE
  {
    forall m: nat | m in removed ensures m != 0 && m < |g| && |g[m].edges| == 1 && g[m].edges[0] !in removed {
      assert IsRemovedMove(g, outgoing, m);
      if g[m].edges[0] in removed {
        assert IsEdge(g, m, 0, g[m].edges[0]);
        OnlyLookupEnters(g, outgoing, removed, m, 0, g[m].edges[0]);
      }
    }
  }

  /** Merging keeps every edge, so what was detachable stays so. */
  lemma {:induction false} MergedKeepsEdges(g: Graph, maxStack: nat, outgoing: LiveMap, removed: set<nat>)
    requires WellFormed(g, maxStack) && |outgoing| == |g| && Detachable(g, removed)
    ensures EdgesInside(Merged(g, outgoing)) && Detachable(Merged(g, outgoing), removed)
    ensures forall t: nat :: Skip(g, removed, t) == Skip(Merged(g, outgoing), removed, t)
  {
  }

  /** What merging changes about a lookup: its destination. */
  lemma {:induction false} MergedLookup(g: Graph, maxStack: nat, outgoing: LiveMap, i: nat, e: nat)
    requires WellFormed(g, maxStack) && |outgoing| == |g| && i < |g| && Mergeable(g, outgoing, i)
    ensures LookupShape(MergedNode(g, outgoing, i))
    ensures ReadList(MergedNode(g, outgoing, i).operands) == ReadList(g[i].operands)
    ensures Immediates(MergedNode(g, outgoing, i).operands) == Immediates(g[i].operands)
    ensures WriteList(MergedNode(g, outgoing, i).operands) == [g[g[i].edges[0]].operands[0].reg]
    ensures EdgeWriteList(MergedNode(g, outgoing, i).operands, e) == []
  {
    var n := MergedNode(g, outgoing, i);
    assert n.operands[1..] == g[i].operands[1..];
    assert forall f :: n.EdgeKills(f) == g[i].EdgeKills(f);
    LookupLists(n, e);
  }

  lemma {:induction false} MergedWellFormed(g: Graph, maxStack: nat, outgoing: LiveMap)
    requires WellFormed(g, maxStack) && |outgoing| == |g|
    ensures WellFormed(Merged(g, outgoing), maxStack)
  {
    forall i: nat | i < |g|
      ensures forall k ::
          0 <= k < |MergedNode(g, outgoing, i).operands| ==> FitsFrame(MergedNode(g, outgoing, i).operands[k], maxStack)
      ensures IsLookup(g[i].name) ==> LookupShape(MergedNode(g, outgoing, i))
    {
      if Mergeable(g, outgoing, i) {
        MergedLookup(g, maxStack, outgoing, i, 0);
        var m := g[i].edges[0];
        assert FitsFrame(g[m].operands[0], maxStack);
        var n := MergedNode(g, outgoing, i);
        forall k | 0 <= k < |n.operands| ensures FitsFrame(n.operands[k], maxStack) {
          if k > 0 { assert n.operands[k] == g[i].operands[k] && FitsFrame(g[i].operands[k], maxStack); }
        }
      }
    }
  }

  // ----- running in step -----

  /** Everything the copy pass starts from and everything it produced. */
  ghost predicate Coalesced(g: Graph, maxStack: nat, live: LiveMap, outgoing: LiveMap, removed: set<nat>,
                            order: seq<nat>, output: Graph) {
    && WellFormed(g, maxStack) && IsLeastLive(g, live) && NoLiveKill(g, live)
    && |outgoing| == |g| && (forall n: nat :: n < |g| ==> outgoing[n] == LiveAfter(g, live, n))
    && RemovedMoves(g, outgoing, removed)
    && IsRelabelling(Merged(g, outgoing), removed, order, output)
  }

  ghost predicate AgreeOn(regs: set<Reg>, a: map<Reg, Value>, b: map<Reg, Value>) {
    forall r :: r in regs ==> r in a && r in b && a[r] == b[r]
  }

  ghost predicate InStep(live: LiveMap, order: seq<nat>, a: State<Reg>, b: State<Reg>) {
    match (a, b)
    case (Running(n, s, t), Running(i, s', t')) =>
      i < |order| && order[i] == n && n < |live| && t == t' && AgreeOn(live[n], s, s')
    case (Returned(t), Returned(t')) => t == t'
    case _ => false
  }

  lemma {:induction false} ArgsAgree(regs: seq<Reg>, a: map<Reg, Value>, b: map<Reg, Value>)
    requires forall r :: r in regs ==> r in a && r in b && a[r] == b[r]
    ensures Args(a, regs) == Args(b, regs)
  {
  }

  lemma {:induction false} LiveCoversReads(g: Graph, live: LiveMap, n: nat)
    requires IsLeastLive(g, live) && n < |g|
    ensures forall r :: r in ReadList(g[n].operands) ==> r in live[n]
  {
    assert Solves(g, live, n);
  }

  /** A kept node does the same on both sides. */
  lemma {:induction false} KeptStep(g: Graph, maxStack: nat, live: LiveMap, outgoing: LiveMap, removed: set<nat>,
      order: seq<nat>, output: Graph, o: Oracle, a: State<Reg>, b: State<Reg>)
    requires Coalesced(g, maxStack, live, outgoing, removed, order, output)
    requires InStep(live, order, a, b) && a.Running? && !Mergeable(g, outgoing, a.at)
    ensures InStep(live, order, StepPast(g, o, removed, removed, 1, a), Step(output, o, {}, b))
  {
    var n := a.at;
    assert Relabelled(Merged(g, outgoing), removed, order, output, b.at);
    var before, after := g[n], output[b.at];
    assert after == before.(edges := after.edges);
    LiveCoversReads(g, live, n);
    assert n !in removed;
    ArgsAgree(ReadList(before.operands), a.store, b.store);
    if before.edges != [] {
      var args := Args(a.store, ReadList(before.operands));
      var reply := Ask(o, before, a.trace, args);
      var e := Taken(reply, |before.edges|);
      var t := before.edges[e];
      assert Names(Merged(g, outgoing), removed, order, after.edges[e], t);
      assert IsEdge(g, n, e, t);
      if t in removed { OnlyLookupEnters(g, outgoing, removed, n, e, t); }
      assert t !in removed;
      forall r | r in live[t]
        ensures r in After(before, a.store, reply, e) && r in After(after, b.store, reply, e)
        ensures After(before, a.store, reply, e)[r] == After(after, b.store, reply, e)[r]
      {
        LiveCarries(g, live, n, e, r);
        AfterGets(before, a.store, reply, e, r);
        AfterGets(after, b.store, reply, e, r);
        assert after.EdgeKills(e) == before.EdgeKills(e);
      }
    }
  }

  /** A lookup with its MOVE, as one step of the input graph. */
  lemma {:induction false} LookupThenMove(g: Graph, maxStack: nat, outgoing: LiveMap, removed: set<nat>, o: Oracle,
      a: State<Reg>)
    requires WellFormed(g, maxStack) && |outgoing| == |g| && RemovedMoves(g, outgoing, removed)
    requires a.Running? && a.at < |g| && a.at !in removed && Mergeable(g, outgoing, a.at)
    requires forall r :: r in ReadList(g[a.at].operands) ==> r in a.store
    ensures var n, m := g[a.at], g[a.at].edges[0];
            var args := Args(a.store, ReadList(n.operands));
            var looked := After(n, a.store, Ask(o, n, a.trace, args), 0);
            var source := n.operands[0].reg;
            source in looked && m < |g| &&
            StepPast(g, o, removed, removed, 1, a) ==
              Running(g[m].edges[0], After(g[m], looked, Reply([looked[source]], 0, [], []), 0),
                      a.trace + [Event(n.name, Immediates(n.operands), args, 0)])
  {
    var n, m := g[a.at], g[a.at].edges[0];
    var args := Args(a.store, ReadList(n.operands));
    var reply := Ask(o, n, a.trace, args);
    var source := n.operands[0].reg;
    var looked := After(n, a.store, reply, 0);
    assert IsRemovedMove(g, outgoing, m);
    LookupLists(n, 0);
    MoveLists(g[m], 0);
    AfterGets(n, a.store, reply, 0, source);
    var next := Step(g, o, removed, a);
    assert next == Running(m, looked, a.trace + [Event(n.name, Immediates(n.operands), args, 0)]);
    assert Args(looked, ReadList(g[m].operands)) == [looked[source]];
    assert next.trace + [] == next.trace;
    assert Settle(g, o, removed, removed, 1, next) == Settle(g, o, removed, removed, 0, Step(g, o, removed, next));
  }

  /** A merged lookup does in one step what the lookup and its MOVE did in two. */
  lemma {:induction false} MergedStep(g: Graph, maxStack: nat, live: LiveMap, outgoing: LiveMap, removed: set<nat>,
      order: seq<nat>, output: Graph, o: Oracle, a: State<Reg>, b: State<Reg>)
    requires Coalesced(g, maxStack, live, outgoing, removed, order, output)
    requires InStep(live, order, a, b) && a.Running? && Mergeable(g, outgoing, a.at)
    ensures InStep(live, order, StepPast(g, o, removed, removed, 1, a), Step(output, o, {}, b))
  {
    var n := a.at;
    var m := g[n].edges[0];
    assert IsRemovedMove(g, outgoing, m);
    assert Relabelled(Merged(g, outgoing), removed, order, output, b.at);
    var merged := output[b.at];
    assert Names(Merged(g, outgoing), removed, order, merged.edges[0], m);
    LiveCoversReads(g, live, n);
    LookupThenMove(g, maxStack, outgoing, removed, o, a);
    MergedLookup(g, maxStack, outgoing, n, 0);
    ArgsAgree(ReadList(g[n].operands), a.store, b.store);
    var reply := Ask(o, g[n], a.trace, Args(a.store, ReadList(g[n].operands)));
    MergedStores(g, maxStack, live, outgoing, n, a.store, b.store, reply, merged);
    RunsAs(output, o, b, reply);
    RemovedDetach(g, maxStack, outgoing, removed);
  }

  /** A step with one edge goes along it. */
  lemma {:induction false} RunsAs(g: Graph, o: Oracle, s: State<Reg>, reply: Reply)
    requires s.Running? && s.at < |g| && |g[s.at].edges| == 1
    requires forall r :: r in ReadList(g[s.at].operands) ==> r in s.store
    requires reply == Ask(o, g[s.at], s.trace, Args(s.store, ReadList(g[s.at].operands)))
    ensures Step(g, o, {}, s) ==
      Running(g[s.at].edges[0], After(g[s.at], s.store, reply, 0),
              s.trace + [Event(g[s.at].name, Immediates(g[s.at].operands), Args(s.store, ReadList(g[s.at].operands)),
                0)])
  {
  }

  lemma {:induction false} MergedStores(g: Graph, maxStack: nat, live: LiveMap, outgoing: LiveMap, n: nat,
                     s: map<Reg, Value>, s': map<Reg, Value>, reply: Reply, merged: Node<Reg>)
    requires WellFormed(g, maxStack) && IsLeastLive(g, live) && NoLiveKill(g, live) && |outgoing| == |g|
    requires n < |g| && Mergeable(g, outgoing, n) && outgoing[g[n].edges[0]] == LiveAfter(g, live, g[n].edges[0])
    requires AgreeOn(live[n], s, s') && merged == MergedNode(g, outgoing, n).(edges := merged.edges)
    ensures var m := g[n].edges[0];
            var source := g[n].operands[0].reg;
            var looked := After(g[n], s, reply, 0);
            && source in looked
            && AgreeOn(live[g[m].edges[0]],
                       After(g[m], looked, Reply([looked[source]], 0, [], []), 0), After(merged, s', reply, 0))
  {
    var m := g[n].edges[0];
    var t := g[m].edges[0];
    var source, destination := g[n].operands[0].reg, g[m].operands[0].reg;
    var looked := After(g[n], s, reply, 0);
    MergedLookup(g, maxStack, outgoing, n, 0);
    LookupLists(g[n], 0);
    assert forall f :: merged.EdgeKills(f) == MergedNode(g, outgoing, n).EdgeKills(f);
    LookupLists(merged, 0);
    MoveLists(g[m], 0);
    AfterGets(g[n], s, reply, 0, source);
    var copy := Reply([looked[source]], 0, [], []);
    forall r | r in live[t]
      ensures r in After(g[m], looked, copy, 0) && r in After(merged, s', reply, 0)
      ensures After(g[m], looked, copy, 0)[r] == After(merged, s', reply, 0)[r]
    {
      LiveCarries(g, live, m, 0, r);
      AfterGets(g[m], looked, copy, 0, r);
      AfterGets(g[n], s, reply, 0, r);
      AfterGets(merged, s', reply, 0, r);
      LiveAcrossIff(g, live, m, |g[m].edges|, r);
      assert IsEdge(g, m, 0, t);
      if r != destination { LiveCarries(g, live, n, 0, r); }
    }
  }

  // ----- the coalesced graph asks for no more -----

  /** Liveness of the input graph, read through the renumbering. */
  function LiveThrough(live: LiveMap, order: seq<nat>): LiveMap
    requires forall i :: 0 <= i < |order| ==> order[i] < |live|
  {
    seq(|order|, i requires 0 <= i < |order| => live[order[i]])
  }

  lemma {:induction false} KeptContains(g: Graph, maxStack: nat, live: LiveMap, outgoing: LiveMap, removed: set<nat>,
      order: seq<nat>, output: Graph, i: nat)
    requires Coalesced(g, maxStack, live, outgoing, removed, order, output) && i < |order|
    requires !Mergeable(g, outgoing, order[i])
    ensures Contains(output, LiveThrough(live, order), i)
  {
    var n, through := order[i], LiveThrough(live, order);
    assert Relabelled(Merged(g, outgoing), removed, order, output, i);
    assert Solves(g, live, n);
    forall r | r in LiveBefore(output, through, i) ensures r in live[n] {
      if r !in g[n].Reads() {
        LiveAcrossIff(output, through, i, |output[i].edges|, r);
        var e: nat, t: nat :| e < |output[i].edges| && IsEdge(output, i, e, t) && t < |output| && r in through[t]
                              && r !in output[i].EdgeWrites(e) && r !in output[i].EdgeKills(e);
        var target := g[n].edges[e];
        assert Names(Merged(g, outgoing), removed, order, t, target);
        assert IsEdge(g, n, e, target);
        if target in removed { OnlyLookupEnters(g, outgoing, removed, n, e, target); }
        LiveAcrossIff(g, live, n, |g[n].edges|, r);
      }
    }
  }

  lemma {:induction false} MergedContains(g: Graph, maxStack: nat, live: LiveMap, outgoing: LiveMap, removed: set<nat>,
      order: seq<nat>, output: Graph, i: nat)
    requires Coalesced(g, maxStack, live, outgoing, removed, order, output) && i < |order|
    requires Mergeable(g, outgoing, order[i])
    ensures Contains(output, LiveThrough(live, order), i)
  {
    var n, through := order[i], LiveThrough(live, order);
    var m := g[n].edges[0];
    assert IsRemovedMove(g, outgoing, m);
    assert Relabelled(Merged(g, outgoing), removed, order, output, i);
    assert Names(Merged(g, outgoing), removed, order, output[i].edges[0], m);
    assert Solves(g, live, n);
    MergedLookup(g, maxStack, outgoing, n, 0);
    LookupLists(g[n], 0);
    MoveLists(g[m], 0);
    forall r | r in LiveBefore(output, through, i) ensures r in live[n] {
      if r !in g[n].Reads() {
        LiveAcrossIff(output, through, i, |output[i].edges|, r);
        assert r in live[g[m].edges[0]];
        LiveCarries(g, live, m, 0, r);
        LiveAcrossIff(g, live, m, |g[m].edges|, r);
        assert IsEdge(g, m, 0, g[m].edges[0]);
        LiveCarries(g, live, n, 0, r);
      }
    }
  }

  /** Recomputed liveness is within the old one, so what the old one promised still holds. */
  lemma {:induction false} CoalescedLive(g: Graph, maxStack: nat, live: LiveMap, outgoing: LiveMap, removed: set<nat>,
      order: seq<nat>, output: Graph, live': LiveMap)
    requires Coalesced(g, maxStack, live, outgoing, removed, order, output) && IsLeastLive(output, live')
    ensures Within(live', LiveThrough(live, order))
    ensures NoLiveKill(output, live')
  {
    var through := LiveThrough(live, order);
    forall i: nat | i < |order| ensures Contains(output, through, i) {
      if Mergeable(g, outgoing, order[i]) {
        MergedContains(g, maxStack, live, outgoing, removed, order, output, i);
      } else {
        KeptContains(g, maxStack, live, outgoing, removed, order, output, i);
      }
    }
    assert Closed(output, through);
    forall i: nat, e: nat, r | i < |output| && e < |output[i].edges| && output[i].edges[e] < |output| &&
      r in live'[output[i].edges[e]]
      ensures || r in output[i].EdgeWrites(e)
              || (r !in output[i].EdgeKills(e) && (r in output[i].Writes() || r !in output[i].kills))
    {
      var n := order[i];
      assert Relabelled(Merged(g, outgoing), removed, order, output, i);
      var target := g[n].edges[e];
      assert Names(Merged(g, outgoing), removed, order, output[i].edges[e], target);
      assert IsEdge(g, n, e, target);
      if Mergeable(g, outgoing, n) {
        assert output[i].EdgeKills(e) == g[n].EdgeKills(e);
        LookupLists(g[n], e);
      } else {
        if target in removed { OnlyLookupEnters(g, outgoing, removed, n, e, target); }
        assert r in live[target];
        assert output[i].EdgeKills(e) == g[n].EdgeKills(e);
      }
    }
  }

  // ----- whole runs -----

  lemma {:induction false} GroupedStep(g: Graph, maxStack: nat, live: LiveMap, outgoing: LiveMap, removed: set<nat>,
      order: seq<nat>, output: Graph, o: Oracle, a: State<Reg>, b: State<Reg>)
    requires Coalesced(g, maxStack, live, outgoing, removed, order, output) && InStep(live, order, a, b)
    ensures InStep(live, order, StepPast(g, o, removed, removed, 1, a), Step(output, o, {}, b))
  {
    if a.Running? {
      if Mergeable(g, outgoing, a.at) {
        MergedStep(g, maxStack, live, outgoing, removed, order, output, o, a, b);
      } else {
        KeptStep(g, maxStack, live, outgoing, removed, order, output, o, a, b);
      }
    }
  }

  lemma {:induction false} CoalescedRun(g: Graph, maxStack: nat, live: LiveMap, outgoing: LiveMap, removed: set<nat>,
                     order: seq<nat>, output: Graph, o: Oracle, args: seq<Value>, steps: nat)
    requires Coalesced(g, maxStack, live, outgoing, removed, order, output)
    requires live[0] <= UpTo(|args|)
    ensures InStep(live, order, RunPast(g, o, removed, removed, 1, Entry(args), steps),
        Run(output, o, {}, Entry(args), steps))
  {
    hide Step, StepPast;
    if steps > 0 {
      CoalescedRun(g, maxStack, live, outgoing, removed, order, output, o, args, steps - 1);
      GroupedStep(g, maxStack, live, outgoing, removed, order, output, o,
                  RunPast(g, o, removed, removed, 1, Entry(args), steps - 1),
                    Run(output, o, {}, Entry(args), steps - 1));
    }
  }
}
