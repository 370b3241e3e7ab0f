/** Backward liveness, computed twice by the certifier: once with a worklist over the input
    graph, once by sweeping the coalesced graph until nothing changes.  Both return the
    least solution of the same equations, and on a graph that passed the definition check
    that solution never asks for a register some path has not defined. */
module Liveness {
  import opened RegisterGraph
  import opened Worklist
  import opened Definitions

  type LiveMap = seq<set<Reg>>

  // ----- the equations -----

  /** What the first `k` edges of a node need beyond what they provide themselves. */
  function LiveAcross(g: Graph, live: LiveMap, n: nat, k: nat): set<Reg>
    requires n < |g| && k <= |g[n].edges| && |live| == |g|
  {
    if k == 0 then {}
    else
      var t := g[n].edges[k - 1];
      LiveAcross(g, live, n, k - 1) +
      if t < |g| then live[t] - g[n].EdgeWrites(k - 1) - g[n].EdgeKills(k - 1) else {}
  }

  function LiveAfter(g: Graph, live: LiveMap, n: nat): set<Reg>
    requires n < |g| && |live| == |g|
  {
    LiveAcross(g, live, n, |g[n].edges|)
  }

  function LiveBefore(g: Graph, live: LiveMap, n: nat): set<Reg>
    requires n < |g| && |live| == |g|
  {
    g[n].Reads() + (LiveAfter(g, live, n) - g[n].Writes() - g[n].kills)
  }

  predicate Solves(g: Graph, live: LiveMap, n: nat)
    requires n < |g| && |live| == |g|
  {
    live[n] == LiveBefore(g, live, n)
  }

  predicate Contains(g: Graph, live: LiveMap, n: nat)
    requires n < |g| && |live| == |g|
  {
    LiveBefore(g, live, n) <= live[n]
  }

  predicate Contained(g: Graph, live: LiveMap, n: nat)
    requires n < |g| && |live| == |g|
  {
    live[n] <= LiveBefore(g, live, n)
  }

  /** A map that already contains everything its own equations ask for. */
  ghost predicate Closed(g: Graph, live: LiveMap) {
    |live| == |g| && forall n: nat :: n < |g| ==> Contains(g, live, n)
  }

  ghost predicate Within(live: LiveMap, other: LiveMap) {
    |live| == |other| && forall n :: 0 <= n < |live| ==> live[n] <= other[n]
  }

  ghost predicate IsLeastLive(g: Graph, live: LiveMap) {
    && |live| == |g|
    && (forall n: nat :: n < |g| ==> Solves(g, live, n))
    && (forall other :: Closed(g, other) ==> Within(live, other))
  }

  lemma {:induction false} LiveAcrossIff(g: Graph, live: LiveMap, n: nat, k: nat, r: Reg)
    requires n < |g| && k <= |g[n].edges| && |live| == |g|
    ensures r in LiveAcross(g, live, n, k) <==>
      exists e: nat, t: nat ::
        e < k && IsEdge(g, n, e, t) && t < |g| && r in live[t] && r !in g[n].EdgeWrites(e) && r !in g[n].EdgeKills(e)
  {
    if k > 0 {
      LiveAcrossIff(g, live, n, k - 1, r);
      assert IsEdge(g, n, k - 1, g[n].edges[k - 1]);
    }
  }

  lemma {:induction false} LiveAcrossMonotone(g: Graph, a: LiveMap, b: LiveMap, n: nat, k: nat)
    requires n < |g| && k <= |g[n].edges| && |a| == |g| && Within(a, b)
    ensures LiveAcross(g, a, n, k) <= LiveAcross(g, b, n, k)
  {
    if k > 0 { LiveAcrossMonotone(g, a, b, n, k - 1); }
  }

  lemma {:induction false} LiveAcrossInFrame(g: Graph, live: LiveMap, n: nat, k: nat, all: set<Reg>)
    requires n < |g| && k <= |g[n].edges| && |live| == |g|
    requires forall m :: 0 <= m < |g| ==> live[m] <= all
    ensures LiveAcross(g, live, n, k) <= all
  {
    if k > 0 { LiveAcrossInFrame(g, live, n, k - 1, all); }
  }

  /** Changing one entry matters only to nodes with an edge into it. */
  lemma {:induction false} LiveAcrossLocal(g: Graph, a: LiveMap, m: nat, v: set<Reg>, n: nat, k: nat)
    requires n < |g| && k <= |g[n].edges| && |a| == |g| && m < |g|
    requires m !in g[n].edges
    ensures LiveAcross(g, a[m := v], n, k) == LiveAcross(g, a, n, k)
  {
    if k > 0 {
      assert g[n].edges[k - 1] in g[n].edges;
      LiveAcrossLocal(g, a, m, v, n, k - 1);
    }
  }

  // ----- predecessor lists -----

  /** `s`, once for each of its first `e` edges into `n`. */
  function Hits(g: Graph, s: nat, n: nat, e: nat): seq<nat>
    requires s < |g| && e <= |g[s].edges|
  {
    if e == 0 then [] else Hits(g, s, n, e - 1) + if g[s].edges[e - 1] == n then [s] else []
  }

  /** The sources of the edges into `n`, one entry per edge, from the first `k` nodes. */
  function Sources(g: Graph, n: nat, k: nat): seq<nat>
    requires k <= |g|
  {
    if k == 0 then [] else Sources(g, n, k - 1) + Hits(g, k - 1, n, |g[k - 1].edges|)
  }

  lemma {:induction false} HitsCount(g: Graph, s: nat, n: nat, e: nat)
    requires s < |g| && e <= |g[s].edges|
    ensures forall i :: i in Hits(g, s, n, e) ==> i == s
    ensures s in Hits(g, s, n, e) <==> exists f: nat :: f < e && IsEdge(g, s, f, n)
    ensures |Hits(g, s, n, e)| <= 1 ==>
      forall f: nat, h: nat :: f < e && h < e && IsEdge(g, s, f, n) && IsEdge(g, s, h, n) ==> f == h
    ensures (exists f: nat :: f < e && IsEdge(g, s, f, n)) ==> |Hits(g, s, n, e)| >= 1
  {
    if e > 0 {
      HitsCount(g, s, n, e - 1);
      assert g[s].edges[e - 1] == n <==> IsEdge(g, s, e - 1, n);
    }
  }

  lemma {:induction false} SourcesAre(g: Graph, n: nat, k: nat)
    requires k <= |g|
    ensures forall s: nat :: s in Sources(g, n, k) <==> s < k && exists e: nat :: IsEdge(g, s, e, n)
  {
    if k > 0 {
      SourcesAre(g, n, k - 1);
      HitsCount(g, k - 1, n, |g[k - 1].edges|);
    }
  }

  /** A list of one entry means one edge. */
  lemma {:induction false} SoleSource(g: Graph, n: nat, k: nat, s: nat, e: nat, i: nat, f: nat)
    requires k <= |g| && |Sources(g, n, k)| <= 1
    requires s < k && i < k && IsEdge(g, s, e, n) && IsEdge(g, i, f, n)
    ensures s == i && e == f
  {
    HitsCount(g, k - 1, n, |g[k - 1].edges|);
    SourcesAre(g, n, k - 1);
    if s < k - 1 { assert s in Sources(g, n, k - 1); }
    if i < k - 1 { assert i in Sources(g, n, k - 1); }
    if s < k - 1 && i < k - 1 { SoleSource(g, n, k - 1, s, e, i, f); }
  }

  method PredecessorLists(g: Graph, maxStack: nat) returns (preds: seq<seq<nat>>)
    requires WellFormed(g, maxStack)
    ensures |preds| == |g|
    ensures forall n: nat :: n < |g| ==> preds[n] == Sources(g, n, |g|)
  {
    preds := seq(|g|, i => []);
    for s: nat := 0 to |g|
      invariant |preds| == |g|
      invariant forall n: nat :: n < |g| ==> preds[n] == Sources(g, n, s)
    {
      for e: nat := 0 to |g[s].edges|
        invariant |preds| == |g|
        invariant forall n: nat :: n < |g| ==> preds[n] == Sources(g, n, s) + Hits(g, s, n, e)
      {
        var t := g[s].edges[e];
        preds := preds[t := preds[t] + [s]];
      }
    }
  }

  // ----- the worklist -----

  method BeforeAndAfter(g: Graph, live: LiveMap, n: nat) returns (before: set<Reg>, after: set<Reg>)
    requires n < |g| && |live| == |g| && forall e :: 0 <= e < |g[n].edges| ==> g[n].edges[e] < |g|
    ensures after == LiveAfter(g, live, n) && before == LiveBefore(g, live, n)
  {
    after := {};
    for e: nat := 0 to |g[n].edges|
      invariant after == LiveAcross(g, live, n, e)
    {
      after := after + (live[g[n].edges[e]] - g[n].EdgeWrites(e) - g[n].EdgeKills(e));
    }
    before := g[n].Reads() + (after - g[n].Writes() - g[n].kills);
  }

  /** Everything both loops keep: the map only holds what every closed map holds, stays in
      the frame, and can only grow. */
  ghost predicate Rising(g: Graph, all: set<Reg>, live: LiveMap) {
    && |live| == |g|
    && (forall n: nat :: n < |g| ==> live[n] <= all) && (forall n: nat :: n < |g| ==> Contained(g, live, n))
    && (forall other :: Closed(g, other) ==> Within(live, other))
  }

  lemma {:induction false} RaiseKeepsRising(g: Graph, maxStack: nat, live: LiveMap, n: nat)
    requires WellFormed(g, maxStack) && n < |g| && Rising(g, UpTo(maxStack), live)
    ensures Rising(g, UpTo(maxStack), live[n := LiveBefore(g, live, n)])
  {
    var next := live[n := LiveBefore(g, live, n)];
    assert Contained(g, live, n);
    forall m: nat | m < |g| ensures Contained(g, next, m) && next[m] <= UpTo(maxStack) {
      assert Contained(g, live, m);
      LiveAcrossMonotone(g, live, next, m, |g[m].edges|);
      LiveAcrossInFrame(g, live, m, |g[m].edges|, UpTo(maxStack));
      ReadsFitFrame(g[m].operands, maxStack);
    }
    forall other | Closed(g, other) ensures Within(next, other) {
      LiveAcrossMonotone(g, live, other, n, |g[n].edges|);
      assert Contains(g, other, n);
    }
  }

  lemma {:induction false} NothingLiveIsRising(g: Graph, all: set<Reg>)
    ensures Rising(g, all, seq(|g|, i => {}))
  {
  }

  ghost function Missing(g: Graph, all: set<Reg>, live: LiveMap): set<(nat, Reg)>
    requires |live| == |g|
  {
    set n: nat, r: Reg | n in UpTo(|g|) && r in all && r !in live[n] :: (n, r)
  }

  lemma {:induction false} RaisingFills(g: Graph, all: set<Reg>, live: LiveMap, n: nat)
    requires n < |g| && Rising(g, all, live) && LiveBefore(g, live, n) != live[n] && LiveBefore(g, live, n) <= all
    ensures Missing(g, all, live[n := LiveBefore(g, live, n)]) < Missing(g, all, live)
  {
    var next := live[n := LiveBefore(g, live, n)];
    assert Contained(g, live, n);
    var r :| r in next[n] && r !in live[n];
    assert (n, r) in Missing(g, all, live) && (n, r) !in Missing(g, all, next);
  }

  /** One turn of either loop. */
  lemma {:induction false} Raise(g: Graph, maxStack: nat, live: LiveMap, n: nat, before: set<Reg>)
    requires WellFormed(g, maxStack) && n < |g| && Rising(g, UpTo(maxStack), live) && before == LiveBefore(g, live, n)
    ensures Rising(g, UpTo(maxStack), live[n := before])
    ensures before != live[n] ==> Missing(g, UpTo(maxStack), live[n := before]) < Missing(g, UpTo(maxStack), live)
  {
    RaiseKeepsRising(g, maxStack, live, n);
    assert live[n := before][n] <= UpTo(maxStack);
    if before != live[n] { RaisingFills(g, UpTo(maxStack), live, n); }
  }

  ghost predicate LiveSettled(g: Graph, live: LiveMap, outgoing: LiveMap, queued: set<nat>)
    requires |live| == |outgoing| == |g|
  {
    forall n: nat :: n < |g| && n !in queued ==>
      Solves(g, live, n) && outgoing[n] == LiveAfter(g, live, n)
  }

  lemma {:induction false} RaiseKeepsSettled(g: Graph, live: LiveMap, outgoing: LiveMap, queued: set<nat>, n: nat,
      more: set<nat>)
    requires |live| == |outgoing| == |g| && n < |g| && LiveSettled(g, live, outgoing, queued)
    requires more >= queued - {n}
    requires LiveBefore(g, live, n) != live[n] ==> forall s: nat :: s in Sources(g, n, |g|) ==> s in more
    ensures LiveSettled(g, live[n := LiveBefore(g, live, n)], outgoing[n := LiveAfter(g, live, n)], more)
  {
    var next, out := live[n := LiveBefore(g, live, n)], outgoing[n := LiveAfter(g, live, n)];
    forall m: nat | m < |g| && m !in more
      ensures Solves(g, next, m) && out[m] == LiveAfter(g, next, m)
    {
      if live[n] == LiveBefore(g, live, n) {
        assert next == live;
      } else {
        SourcesAre(g, n, |g|);
        assert n !in g[m].edges by {
          if n in g[m].edges {
            var e: nat :| e < |g[m].edges| && g[m].edges[e] == n;
            assert IsEdge(g, m, e, n);
          }
        }
        LiveAcrossLocal(g, live, n, next[n], m, |g[m].edges|);
      }
    }
  }

  method LiveTurn(g: Graph, maxStack: nat, live: LiveMap, outgoing: LiveMap, preds: seq<nat>, n: nat,
                  rest: seq<nat>, left: set<nat>)
    returns (next: LiveMap, out: LiveMap, pending: seq<nat>, queued: set<nat>)
    requires WellFormed(g, maxStack) && n < |g| && preds == Sources(g, n, |g|)
    requires |outgoing| == |g| && Rising(g, UpTo(maxStack), live) && LiveSettled(g, live, outgoing, left + {n})
    requires IsQueue(rest, left) && left <= UpTo(|g|)
    ensures IsQueue(pending, queued) && queued <= UpTo(|g|)
    ensures |out| == |g| && Rising(g, UpTo(maxStack), next) && LiveSettled(g, next, out, queued)
    ensures Missing(g, UpTo(maxStack), next) < Missing(g, UpTo(maxStack), live) || (next == live && pending == rest)
  {
    var before, after := BeforeAndAfter(g, live, n);
    SourcesAre(g, n, |g|);
    Raise(g, maxStack, live, n, before);
    next, out := live[n := before], outgoing[n := after];
    if before != live[n] {
      pending, queued := Enqueue(rest, left, preds);
    } else {
      pending, queued := rest, left;
    }
    RaiseKeepsSettled(g, live, outgoing, left + {n}, n, queued);
  }

  method LiveByWorklist(g: Graph, maxStack: nat, preds: seq<seq<nat>>) returns (incoming: LiveMap, outgoing: LiveMap)
    requires WellFormed(g, maxStack) && |preds| == |g|
    requires forall n: nat :: n < |g| ==> preds[n] == Sources(g, n, |g|)
    ensures IsLeastLive(g, incoming)
    ensures |outgoing| == |g| && forall n :: 0 <= n < |g| ==> outgoing[n] == LiveAfter(g, incoming, n)
  {
    incoming, outgoing := seq(|g|, i => {}), seq(|g|, i => {});
    NothingLiveIsRising(g, UpTo(maxStack));
    var pending, queued := Worklist.All(|g|);
    while pending != []
      invariant IsQueue(pending, queued) && queued <= UpTo(|g|)
      invariant |outgoing| == |g| && Rising(g, UpTo(maxStack), incoming) && LiveSettled(g, incoming, outgoing, queued)
      decreases Missing(g, UpTo(maxStack), incoming), |pending|
    {
      var n, rest, left := Pop(pending, queued);
      assert left + {n} == queued;
      incoming, outgoing, pending, queued := LiveTurn(g, maxStack, incoming, outgoing, preds[n], n, rest, left);
    }
    assert queued == {};
  }

  ghost predicate SweptFrom(g: Graph, live: LiveMap, n: nat)
    requires |live| == |g|
  {
    forall m: nat :: n <= m < |g| ==> Solves(g, live, m)
  }

  /** One backward sweep; `changed` says whether any node moved. */
  method Sweep(g: Graph, maxStack: nat, live: LiveMap) returns (next: LiveMap, changed: bool)
    requires WellFormed(g, maxStack) && Rising(g, UpTo(maxStack), live)
    ensures Rising(g, UpTo(maxStack), next)
    ensures changed ==> Missing(g, UpTo(maxStack), next) < Missing(g, UpTo(maxStack), live)
    ensures !changed ==> next == live && SweptFrom(g, live, 0)
  {
    next, changed := live, false;
    var n := |g|;
    while n > 0
      invariant 0 <= n <= |g| && Rising(g, UpTo(maxStack), next)
      invariant changed ==> Missing(g, UpTo(maxStack), next) < Missing(g, UpTo(maxStack), live)
      invariant !changed ==> next == live && SweptFrom(g, live, n)
    {
      n := n - 1;
      var before, _ := BeforeAndAfter(g, next, n);
      if before != next[n] {
        Raise(g, maxStack, next, n, before);
        next, changed := next[n := before], true;
      }
    }
  }

  /** The second computation: sweep backwards over all nodes until a whole sweep is idle. */
  method LiveBySweeps(g: Graph, maxStack: nat) returns (incoming: LiveMap)
    requires WellFormed(g, maxStack)
    ensures IsLeastLive(g, incoming)
  {
    incoming := seq(|g|, i => {});
    NothingLiveIsRising(g, UpTo(maxStack));
    var changed := true;
    while changed
      invariant Rising(g, UpTo(maxStack), incoming)
      invariant !changed ==> SweptFrom(g, incoming, 0)
      decreases Missing(g, UpTo(maxStack), incoming), changed
    {
      incoming, changed := Sweep(g, maxStack, incoming);
    }
  }

  // ----- liveness against definitions -----

  /** Everything every path to `n` defines: all of the frame where no path arrives. */
  ghost function MustDefined(g: Graph, params: nat, all: set<Reg>, n: nat): set<Reg>
    requires |g| > 0
  {
    set r | r in all && !LostAt(g, params, n, r)
  }

  lemma {:induction false} MustDefinedIsClosed(g: Graph, params: nat, maxStack: nat)
    requires WellFormed(g, maxStack) && WellDefined(g, params)
    ensures Closed(g, seq(|g|, n requires 0 <= n < |g| => MustDefined(g, params, UpTo(maxStack), n)))
  {
    var all := UpTo(maxStack);
    var must := seq(|g|, n requires 0 <= n < |g| => MustDefined(g, params, all, n));
    forall n: nat, r | n < |g| && r in LiveBefore(g, must, n) ensures r in must[n] {
      ReadsFitFrame(g[n].operands, maxStack);
      LiveAcrossInFrame(g, must, n, |g[n].edges|, all);
      if r in g[n].Reads() {
        NoReadLost(g, params, n, r);
      } else {
        LiveAcrossIff(g, must, n, |g[n].edges|, r);
        var e: nat, t: nat :| e < |g[n].edges| && IsEdge(g, n, e, t) && t < |g| && r in must[t] &&
          r !in g[n].EdgeWrites(e);
        forall path | PathTo(g, path, n) ensures r in FlowOf(g, params, path).defs {
          FlowExtends(g, params, path, n, e);
          assert PathTo(g, path + [e], t);
        }
      }
    }
  }

  /** The two analyses agree: on a graph without undefined reads, whatever is live at a node
      is defined at the end of every path to it. */
  lemma {:induction false} LiveIsDefined(g: Graph, params: nat, maxStack: nat, live: LiveMap, path: seq<nat>, n: nat)
    requires WellFormed(g, maxStack) && WellDefined(g, params) && IsLeastLive(g, live)
    requires PathTo(g, path, n) && n < |g|
    ensures live[n] <= FlowOf(g, params, path).defs
  {
    MustDefinedIsClosed(g, params, maxStack);
    var must := seq(|g|, i requires 0 <= i < |g| => MustDefined(g, params, UpTo(maxStack), i));
    assert Within(live, must);
    forall r | r in live[n] ensures r in FlowOf(g, params, path).defs { assert r in must[n]; }
  }

  /** Hence only parameters are live at the root. */
  lemma {:induction false} LiveAtEntryIsParameter(g: Graph, params: nat, maxStack: nat, live: LiveMap)
    requires WellFormed(g, maxStack) && WellDefined(g, params) && IsLeastLive(g, live)
    ensures live[0] <= UpTo(params)
  {
    LiveIsDefined(g, params, maxStack, live, [], 0);
  }

  /** ... and nothing an instruction clobbers without rewriting is live on the way out. */
  ghost predicate NoLiveKill(g: Graph, live: LiveMap)
    requires |live| == |g|
  {
    forall n: nat, e: nat, r :: n < |g| && e < |g[n].edges| && g[n].edges[e] < |g| && r in live[g[n].edges[e]] ==>
      || r in g[n].EdgeWrites(e)
      || (r !in g[n].EdgeKills(e) && (r in g[n].Writes() || r !in g[n].kills))
  }

  lemma {:induction false} KilledIsDead(g: Graph, params: nat, maxStack: nat, live: LiveMap)
    requires WellFormed(g, maxStack) && WellDefined(g, params) && AllReachable(g) && IsLeastLive(g, live)
    ensures NoLiveKill(g, live)
  {
    forall n: nat, e: nat, r | n < |g| && e < |g[n].edges| && g[n].edges[e] < |g| && r in live[g[n].edges[e]]
      ensures r in g[n].EdgeWrites(e) || (r !in g[n].EdgeKills(e) && (r in g[n].Writes() || r !in g[n].kills))
    {
      assert Reachable(g, n);
      var path :| PathTo(g, path, n);
      FlowExtends(g, params, path, n, e);
      LiveIsDefined(g, params, maxStack, live, path + [e], g[n].edges[e]);
    }
  }

  /** What is live after an edge and not produced on the way was live before the node. */
  lemma {:induction false} LiveCarries(g: Graph, live: LiveMap, n: nat, e: nat, r: Reg)
    requires IsLeastLive(g, live) && NoLiveKill(g, live) && n < |g| && e < |g[n].edges| && g[n].edges[e] < |g|
    requires r in live[g[n].edges[e]]
    ensures || r in g[n].EdgeWrites(e)
            || (r !in g[n].EdgeKills(e) && (r in g[n].Writes() || (r !in g[n].kills && r in live[n])))
  {
    assert Solves(g, live, n);
    LiveAcrossIff(g, live, n, |g[n].edges|, r);
    assert IsEdge(g, n, e, g[n].edges[e]);
  }
}
