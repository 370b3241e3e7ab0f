/** Must-definition analysis: the forward worklist that intersects definitions and joins
    dynamic tops where paths meet, and why its verdict is exact.

    The reference is stated over paths from the root; the analysis never sees a path. */
module Definitions {
  import opened RegisterGraph
  import opened Worklist

  // ----- the reference: what holds at the end of every path -----

  /** What one path leaves behind: the registers that hold something, and the top. */
  datatype Flow = Flow(defs: set<Reg>, top: Top)

  function ApplyTop(effect: TopEffect, top: Top): Top {
    match effect case Preserve => top case Become(t) => t
  }

  function Through(n: Node<Reg>, e: nat, f: Flow): Flow {
    Flow(DefinedAfter(n, f.defs, e), ApplyTop(n.EdgeTop(e), ApplyTop(n.topWrite, f.top)))
  }

  ghost function FlowOf(g: Graph, params: nat, path: seq<nat>): Flow
    requires |g| > 0
    decreases |path|
  {
    if path == [] then Flow(UpTo(params), NoTop)
    else
      var before := path[..|path| - 1];
      var at := EndOf(g, before);
      if at < |g| then Through(g[at], path[|path| - 1], FlowOf(g, params, before)) else Flow({}, NoTop)
  }

  /** Everything the node reads holds something, and its open pack, if it reads one, has a
      base at or above where it starts reading with every register between them defined. */
  ghost predicate SafeRead(n: Node<Reg>, f: Flow) {
    && n.Reads() <= f.defs
    && (n.openRead.Some? ==>
          && f.top.Base? && n.openRead.value <= f.top.reg
          && forall r: nat :: n.openRead.value <= r < f.top.reg ==> r in f.defs)
  }

  /** No path reads an undefined register, no open read has an absent or too low top, and
      no two paths bring different tops to an open read. */
  ghost predicate WellDefined(g: Graph, params: nat)
    requires |g| > 0
  {
    && (forall path, n: nat :: PathTo(g, path, n) && n < |g| ==> SafeRead(g[n], FlowOf(g, params, path)))
    && (forall p, q, n: nat :: PathTo(g, p, n) && PathTo(g, q, n) && n < |g| && g[n].openRead.Some? ==>
          FlowOf(g, params, p).top == FlowOf(g, params, q).top)
  }

  lemma {:induction false} FlowExtends(g: Graph, params: nat, path: seq<nat>, n: nat, e: nat)
    requires |g| > 0 && PathTo(g, path, n) && n < |g| && e < |g[n].edges|
    ensures PathTo(g, path + [e], g[n].edges[e])
    ensures FlowOf(g, params, path + [e]) == Through(g[n], e, FlowOf(g, params, path))
  {
    ExtendPath(g, path, n, e);
    assert (path + [e])[..|path + [e]| - 1] == path;
  }

  // ----- the analysis state -----

  /** Tops along the way: no path seen yet, one top on all of them, or several. */
  datatype Flat = Unseen | Known(top: Top) | Conflict

  predicate Below(a: Flat, b: Flat) { a.Unseen? || a == b || b.Conflict? }

  datatype Analysis = Analysis(
    incoming: seq<set<Reg>>, tops: seq<Flat>, outgoing: seq<seq<set<Reg>>>, topOut: seq<seq<Flat>>)

  predicate Shaped(g: Graph, a: Analysis) {
    && |a.incoming| == |a.tops| == |a.outgoing| == |a.topOut| == |g|
    && forall n :: 0 <= n < |g| ==> |a.outgoing[n]| == |g[n].edges| && |a.topOut[n]| == |g[n].edges|
  }

  /** The registers a node may start from before looking at its predecessors. */
  function Start(n: nat, params: nat, all: set<Reg>): set<Reg> {
    if n == 0 then UpTo(params) else all
  }

  ghost predicate MeetsIn(g: Graph, a: Analysis, n: nat, r: Reg)
    requires Shaped(g, a)
  {
    forall s: nat, e: nat :: IsEdge(g, s, e, n) ==> r in a.outgoing[s][e]
  }

  ghost function MeetDefs(g: Graph, params: nat, all: set<Reg>, a: Analysis, n: nat): set<Reg>
    requires Shaped(g, a)
  {
    set r | r in Start(n, params, all) && MeetsIn(g, a, n, r)
  }

  ghost predicate UpperBound(g: Graph, a: Analysis, n: nat, u: Flat)
    requires Shaped(g, a)
  {
    && (n == 0 ==> Below(Known(NoTop), u))
    && forall s: nat, e: nat :: IsEdge(g, s, e, n) ==> Below(a.topOut[s][e], u)
  }

  ghost predicate IsJoin(g: Graph, a: Analysis, n: nat, v: Flat)
    requires Shaped(g, a)
  {
    UpperBound(g, a, n, v) && forall u :: UpperBound(g, a, n, u) ==> Below(v, u)
  }

  function ApplyFlat(effect: TopEffect, v: Flat): Flat {
    match effect case Preserve => v case Become(t) => Known(t)
  }

  function TopAfter(n: Node<Reg>, e: nat, v: Flat): Flat {
    ApplyFlat(n.EdgeTop(e), ApplyFlat(n.topWrite, v))
  }

  ghost predicate SettledAt(g: Graph, params: nat, all: set<Reg>, a: Analysis, n: nat)
    requires Shaped(g, a) && n < |g|
  {
    && a.incoming[n] == MeetDefs(g, params, all, a, n)
    && IsJoin(g, a, n, a.tops[n])
    && forall e :: 0 <= e < |g[n].edges| ==>
         a.outgoing[n][e] == DefinedAfter(g[n], a.incoming[n], e) && a.topOut[n][e] == TopAfter(g[n], e, a.tops[n])
  }

  /** Every node that is not waiting satisfies its equations. */
  ghost predicate Settled(g: Graph, params: nat, all: set<Reg>, a: Analysis, queued: set<nat>)
    requires Shaped(g, a)
  {
    forall n: nat :: n < |g| && n !in queued ==> SettledAt(g, params, all, a, n)
  }

  /** Processing any node again can only lose definitions and raise tops. */
  ghost predicate Descending(g: Graph, params: nat, all: set<Reg>, a: Analysis)
    requires Shaped(g, a)
  {
    forall n: nat :: n < |g| ==>
      && MeetDefs(g, params, all, a, n) <= a.incoming[n]
      && (forall u :: UpperBound(g, a, n, u) ==> Below(a.tops[n], u))
      && forall e :: 0 <= e < |g[n].edges| ==>
           DefinedAfter(g[n], a.incoming[n], e) <= a.outgoing[n][e] <= all
           && Below(a.topOut[n][e], TopAfter(g[n], e, a.tops[n]))
  }

  // What the analysis gave up, some path really lost.

  ghost predicate LostAt(g: Graph, params: nat, n: nat, r: Reg)
    requires |g| > 0
  {
    exists path :: PathTo(g, path, n) && r !in FlowOf(g, params, path).defs
  }

  ghost predicate LostAlong(g: Graph, params: nat, n: nat, e: nat, r: Reg)
    requires |g| > 0 && n < |g|
  {
    exists path :: PathTo(g, path, n) && r !in Through(g[n], e, FlowOf(g, params, path)).defs
  }

  ghost predicate TopAt(g: Graph, params: nat, n: nat, t: Top)
    requires |g| > 0
  {
    exists path :: PathTo(g, path, n) && FlowOf(g, params, path).top == t
  }

  ghost predicate TopAlong(g: Graph, params: nat, n: nat, e: nat, t: Top)
    requires |g| > 0 && n < |g|
  {
    exists path :: PathTo(g, path, n) && Through(g[n], e, FlowOf(g, params, path)).top == t
  }

  ghost predicate NodeTopSeen(g: Graph, params: nat, n: nat, v: Flat)
    requires |g| > 0
  {
    && (v.Known? ==> TopAt(g, params, n, v.top))
    && (v.Conflict? ==> exists t, u :: t != u && TopAt(g, params, n, t) && TopAt(g, params, n, u))
  }

  ghost predicate EdgeTopSeen(g: Graph, params: nat, n: nat, e: nat, v: Flat)
    requires |g| > 0 && n < |g|
  {
    && (v.Known? ==> TopAlong(g, params, n, e, v.top))
    && (v.Conflict? ==> exists t, u :: t != u && TopAlong(g, params, n, e, t) && TopAlong(g, params, n, e, u))
  }

  ghost predicate DefsWitnessed(g: Graph, params: nat, all: set<Reg>, a: Analysis)
    requires |g| > 0 && Shaped(g, a)
  {
    && (forall n: nat, r :: n < |g| && r in all && r !in a.incoming[n] ==> LostAt(g, params, n, r))
    && (forall n: nat, e: nat, r :: n < |g| && e < |g[n].edges| && r in all && r !in a.outgoing[n][e] ==>
          LostAlong(g, params, n, e, r))
  }

  ghost predicate TopsWitnessed(g: Graph, params: nat, a: Analysis)
    requires |g| > 0 && Shaped(g, a)
  {
    && (forall n: nat :: n < |g| ==> NodeTopSeen(g, params, n, a.tops[n]))
    && (forall n: nat, e: nat :: n < |g| && e < |g[n].edges| ==> EdgeTopSeen(g, params, n, e, a.topOut[n][e]))
  }

  // ----- one node at a time -----

  /** The state after node `n` has been given a new meet and its outputs recomputed. */
  function Processed(g: Graph, a: Analysis, n: nat, defs: set<Reg>, top: Flat): (b: Analysis)
    requires Shaped(g, a) && n < |g|
    ensures Shaped(g, b)
  {
    Analysis(
      a.incoming[n := defs], a.tops[n := top],
      a.outgoing[n := seq(|g[n].edges|, e requires 0 <= e < |g[n].edges| => DefinedAfter(g[n], defs, e))],
      a.topOut[n := seq(|g[n].edges|, e requires 0 <= e < |g[n].edges| => TopAfter(g[n], e, top))])
  }

  lemma {:induction false} LossPasses(g: Graph, params: nat, s: nat, e: nat, n: nat, r: Reg)
    requires |g| > 0 && IsEdge(g, s, e, n) && LostAlong(g, params, s, e, r)
    ensures LostAt(g, params, n, r)
  {
    var path :| PathTo(g, path, s) && r !in Through(g[s], e, FlowOf(g, params, path)).defs;
    FlowExtends(g, params, path, s, e);
    assert PathTo(g, path + [e], n) && r !in FlowOf(g, params, path + [e]).defs;
  }

  lemma {:induction false} TopPasses(g: Graph, params: nat, s: nat, e: nat, n: nat, t: Top)
    requires |g| > 0 && IsEdge(g, s, e, n) && TopAlong(g, params, s, e, t)
    ensures TopAt(g, params, n, t)
  {
    var path :| PathTo(g, path, s) && Through(g[s], e, FlowOf(g, params, path)).top == t;
    FlowExtends(g, params, path, s, e);
    assert PathTo(g, path + [e], n) && FlowOf(g, params, path + [e]).top == t;
  }

  /** A register outside the meet was lost on some path to the node. */
  lemma {:induction false} MeetWitnessed(g: Graph, params: nat, all: set<Reg>, a: Analysis, n: nat, r: Reg)
    requires |g| > 0 && Shaped(g, a) && n < |g| && DefsWitnessed(g, params, all, a)
    requires r in all && r !in MeetDefs(g, params, all, a, n)
    ensures LostAt(g, params, n, r)
  {
    if n == 0 && r >= params {
      assert PathTo(g, [], 0) && r !in FlowOf(g, params, []).defs;
    } else {
      var s: nat, e: nat :| IsEdge(g, s, e, n) && r !in a.outgoing[s][e];
      LossPasses(g, params, s, e, n, r);
    }
  }

  /** ... and a register an edge does not carry was lost along it, provided the node can be
      reached at all: the loss may be the node's own kill. */
  lemma {:induction false} LossAfter(g: Graph, params: nat, n: nat, e: nat, defs: set<Reg>, r: Reg)
    requires |g| > 0 && n < |g| && Reachable(g, n)
    requires r !in defs ==> LostAt(g, params, n, r)
    requires r !in DefinedAfter(g[n], defs, e)
    ensures LostAlong(g, params, n, e, r)
  {
    if r !in defs {
      var path :| PathTo(g, path, n) && r !in FlowOf(g, params, path).defs;
      assert r !in Through(g[n], e, FlowOf(g, params, path)).defs;
    } else {
      var path :| PathTo(g, path, n);
      assert r !in Through(g[n], e, FlowOf(g, params, path)).defs;
    }
  }

  lemma {:induction false} TopWitnessAfter(g: Graph, params: nat, n: nat, e: nat, t: Top)
    requires |g| > 0 && n < |g| && TopAt(g, params, n, t)
    ensures TopAlong(g, params, n, e, ApplyTop(g[n].EdgeTop(e), ApplyTop(g[n].topWrite, t)))
  {
    var path :| PathTo(g, path, n) && FlowOf(g, params, path).top == t;
    assert Through(g[n], e, FlowOf(g, params, path)).top == ApplyTop(g[n].EdgeTop(e), ApplyTop(g[n].topWrite, t));
  }

  lemma {:induction false} EdgeTopAfter(g: Graph, params: nat, n: nat, e: nat, v: Flat)
    requires |g| > 0 && n < |g| && e < |g[n].edges| && Reachable(g, n) && NodeTopSeen(g, params, n, v)
    ensures EdgeTopSeen(g, params, n, e, TopAfter(g[n], e, v))
  {
    var path :| PathTo(g, path, n);
    TopWitnessAfter(g, params, n, e, FlowOf(g, params, path).top);
    if v.Known? { TopWitnessAfter(g, params, n, e, v.top); }
    if v.Conflict? {
      var t, u :| t != u && TopAt(g, params, n, t) && TopAt(g, params, n, u);
      TopWitnessAfter(g, params, n, e, t);
      TopWitnessAfter(g, params, n, e, u);
    }
  }

  lemma {:induction false} MeetShrinks(g: Graph, params: nat, all: set<Reg>, a: Analysis, b: Analysis, m: nat)
    requires Shaped(g, a) && Shaped(g, b)
    requires forall n: nat, e: nat :: n < |g| && e < |g[n].edges| ==> b.outgoing[n][e] <= a.outgoing[n][e]
    ensures MeetDefs(g, params, all, b, m) <= MeetDefs(g, params, all, a, m)
  {
    forall r | r in MeetDefs(g, params, all, b, m) ensures MeetsIn(g, a, m, r) {
      forall s: nat, e: nat | IsEdge(g, s, e, m) ensures r in a.outgoing[s][e] { assert r in b.outgoing[s][e]; }
    }
  }

  lemma {:induction false} BelowTransitive(a: Flat, b: Flat, c: Flat)
    requires Below(a, b) && Below(b, c)
    ensures Below(a, c)
  {
  }

  lemma {:induction false} UpperBoundsShrink(g: Graph, a: Analysis, b: Analysis, m: nat, u: Flat)
    requires Shaped(g, a) && Shaped(g, b) && UpperBound(g, b, m, u)
    requires forall n: nat, e: nat :: n < |g| && e < |g[n].edges| ==> Below(a.topOut[n][e], b.topOut[n][e])
    ensures UpperBound(g, a, m, u)
  {
    forall s: nat, e: nat | IsEdge(g, s, e, m) ensures Below(a.topOut[s][e], u) {
      assert Below(b.topOut[s][e], u) && Below(a.topOut[s][e], b.topOut[s][e]);
    }
  }

  /** Recomputing a node never gains a definition nor lowers a top. */
  lemma {:induction false} OutputsDescend(g: Graph, params: nat, all: set<Reg>, a: Analysis, n: nat, defs: set<Reg>,
      top: Flat)
    requires Shaped(g, a) && n < |g| && Descending(g, params, all, a)
    requires defs == MeetDefs(g, params, all, a, n) && IsJoin(g, a, n, top)
    ensures var b := Processed(g, a, n, defs, top);
            forall m: nat, e: nat :: m < |g| && e < |g[m].edges| ==>
              b.outgoing[m][e] <= a.outgoing[m][e] && Below(a.topOut[m][e], b.topOut[m][e])
  {
    var b := Processed(g, a, n, defs, top);
    assert Below(a.tops[n], top);
    forall e: nat | e < |g[n].edges|
      ensures b.outgoing[n][e] <= a.outgoing[n][e] && Below(a.topOut[n][e], b.topOut[n][e])
    {
      assert DefinedAfter(g[n], defs, e) <= DefinedAfter(g[n], a.incoming[n], e) <= a.outgoing[n][e];
      assert Below(TopAfter(g[n], e, a.tops[n]), TopAfter(g[n], e, top));
      BelowTransitive(a.topOut[n][e], TopAfter(g[n], e, a.tops[n]), TopAfter(g[n], e, top));
    }
  }

  lemma {:induction false} ProcessedDescends(g: Graph, params: nat, all: set<Reg>, a: Analysis, n: nat, defs: set<Reg>,
      top: Flat)
    requires Shaped(g, a) && n < |g| && Descending(g, params, all, a)
    requires defs == MeetDefs(g, params, all, a, n) && IsJoin(g, a, n, top)
    ensures Descending(g, params, all, Processed(g, a, n, defs, top))
  {
    var b := Processed(g, a, n, defs, top);
    OutputsDescend(g, params, all, a, n, defs, top);
    forall m: nat | m < |g|
      ensures MeetDefs(g, params, all, b, m) <= b.incoming[m]
      ensures forall u :: UpperBound(g, b, m, u) ==> Below(b.tops[m], u)
    {
      MeetShrinks(g, params, all, a, b, m);
      forall u | UpperBound(g, b, m, u) ensures Below(b.tops[m], u) { UpperBoundsShrink(g, a, b, m, u); }
    }
    forall m: nat, e: nat | m < |g| && e < |g[m].edges|
      ensures DefinedAfter(g[m], b.incoming[m], e) <= b.outgoing[m][e] <= all
      ensures Below(b.topOut[m][e], TopAfter(g[m], e, b.tops[m]))
    {
      assert b.outgoing[m][e] <= a.outgoing[m][e];
    }
  }

  /** Only the successors of a node whose outputs changed lose their equations. */
  lemma {:induction false} ProcessedSettles(g: Graph, params: nat, all: set<Reg>, a: Analysis, queued: set<nat>,
      more: set<nat>, n: nat, defs: set<Reg>, top: Flat)
    requires Shaped(g, a) && n < |g| && Settled(g, params, all, a, queued)
    requires defs == MeetDefs(g, params, all, a, n) && IsJoin(g, a, n, top)
    requires more >= queued - {n}
    requires var b := Processed(g, a, n, defs, top);
             (b.outgoing[n] != a.outgoing[n] || b.topOut[n] != a.topOut[n]) ==>
               forall t :: t in g[n].edges ==> t in more
    ensures Settled(g, params, all, Processed(g, a, n, defs, top), more)
  {
    var b := Processed(g, a, n, defs, top);
    forall m: nat | m < |g| && m !in more ensures SettledAt(g, params, all, b, m) {
      assert forall s: nat, e: nat :: IsEdge(g, s, e, m) ==>
        a.outgoing[s][e] == b.outgoing[s][e] && a.topOut[s][e] == b.topOut[s][e];
      assert forall r :: MeetsIn(g, a, m, r) <==> MeetsIn(g, b, m, r);
      assert MeetDefs(g, params, all, a, m) == MeetDefs(g, params, all, b, m);
      assert forall u :: UpperBound(g, a, m, u) <==> UpperBound(g, b, m, u);
      if m != n { assert SettledAt(g, params, all, a, m); }
    }
  }

  lemma {:induction false} ProcessedWitnessed(g: Graph, params: nat, all: set<Reg>, a: Analysis, n: nat, defs: set<Reg>,
      top: Flat)
    requires |g| > 0 && Shaped(g, a) && n < |g| && AllReachable(g)
    requires DefsWitnessed(g, params, all, a) && TopsWitnessed(g, params, a)
    requires defs == MeetDefs(g, params, all, a, n) && NodeTopSeen(g, params, n, top)
    ensures DefsWitnessed(g, params, all, Processed(g, a, n, defs, top))
    ensures TopsWitnessed(g, params, Processed(g, a, n, defs, top))
  {
    var b := Processed(g, a, n, defs, top);
    forall r | r in all && r !in defs ensures LostAt(g, params, n, r) {
      MeetWitnessed(g, params, all, a, n, r);
    }
    forall e: nat, r | e < |g[n].edges| && r in all && r !in b.outgoing[n][e] ensures LostAlong(g, params, n, e, r) {
      LossAfter(g, params, n, e, defs, r);
    }
    forall e: nat | e < |g[n].edges| ensures EdgeTopSeen(g, params, n, e, b.topOut[n][e]) {
      EdgeTopAfter(g, params, n, e, top);
    }
  }

  // ----- the settled state is exact -----

  ghost predicate Finished(g: Graph, params: nat, all: set<Reg>, a: Analysis)
    requires |g| > 0
  {
    Shaped(g, a) && Settled(g, params, all, a, {}) && DefsWitnessed(g, params, all, a) && TopsWitnessed(g, params, a)
  }

  /** Along every path the analysis promises no more than the path delivers. */
  lemma {:induction false} AnalysisSound(g: Graph, params: nat, all: set<Reg>, a: Analysis, path: seq<nat>)
    requires |g| > 0 && Finished(g, params, all, a) && IsPath(g, path) && EndOf(g, path) < |g|
    requires UpTo(params) <= all
    ensures a.incoming[EndOf(g, path)] <= FlowOf(g, params, path).defs
    ensures Below(Known(FlowOf(g, params, path).top), a.tops[EndOf(g, path)])
    decreases |path|
  {
    assert SettledAt(g, params, all, a, EndOf(g, path));
    if path != [] {
      var before, e := path[..|path| - 1], path[|path| - 1];
      var at := EndOf(g, before);
      AnalysisSound(g, params, all, a, before);
      assert SettledAt(g, params, all, a, at);
      assert IsEdge(g, at, e, EndOf(g, path));
      assert a.incoming[EndOf(g, path)] <= a.outgoing[at][e];
    }
  }

  /** The final test of one node. */
  predicate Accepts(n: Node<Reg>, defs: set<Reg>, top: Flat) {
    && n.Reads() <= defs
    && (n.openRead.Some? ==>
          && top.Known? && top.top.Base? && n.openRead.value <= top.top.reg
          && forall r: nat :: n.openRead.value <= r < top.top.reg ==> r in defs)
  }

  lemma {:induction false} AcceptedIsWellDefined(g: Graph, params: nat, all: set<Reg>, a: Analysis)
    requires |g| > 0 && Finished(g, params, all, a) && UpTo(params) <= all
    requires forall n: nat :: n < |g| ==> Accepts(g[n], a.incoming[n], a.tops[n])
    ensures WellDefined(g, params)
  {
    forall path, n: nat | PathTo(g, path, n) && n < |g| ensures SafeRead(g[n], FlowOf(g, params, path)) {
      AnalysisSound(g, params, all, a, path);
      assert Accepts(g[n], a.incoming[n], a.tops[n]);
    }
    forall p, q, n: nat | PathTo(g, p, n) && PathTo(g, q, n) && n < |g| && g[n].openRead.Some?
      ensures FlowOf(g, params, p).top == FlowOf(g, params, q).top
    {
      AnalysisSound(g, params, all, a, p);
      AnalysisSound(g, params, all, a, q);
      assert Accepts(g[n], a.incoming[n], a.tops[n]);
    }
  }

  lemma {:induction false} NoReadLost(g: Graph, params: nat, n: nat, r: Reg)
    requires |g| > 0 && WellDefined(g, params) && n < |g| && r in g[n].Reads()
    ensures !LostAt(g, params, n, r)
  {
    forall path | PathTo(g, path, n) ensures r in FlowOf(g, params, path).defs {
      assert SafeRead(g[n], FlowOf(g, params, path));
    }
  }

  lemma {:induction false} NoPackLost(g: Graph, params: nat, n: nat, r: Reg, top: nat)
    requires |g| > 0 && WellDefined(g, params) && n < |g| && g[n].openRead.Some?
    requires TopAt(g, params, n, Base(top)) && g[n].openRead.value <= r < top
    ensures !LostAt(g, params, n, r)
  {
    var p :| PathTo(g, p, n) && FlowOf(g, params, p).top == Base(top);
    forall path | PathTo(g, path, n) ensures r in FlowOf(g, params, path).defs {
      assert SafeRead(g[n], FlowOf(g, params, path));
      assert FlowOf(g, params, path).top == Base(top);
    }
  }

  lemma {:induction false} OpenTopKnown(g: Graph, params: nat, all: set<Reg>, a: Analysis, n: nat) returns (top: nat)
    requires |g| > 0 && AllReachable(g) && WellDefined(g, params) && Finished(g, params, all, a) && UpTo(params) <= all
    requires n < |g| && g[n].openRead.Some?
    ensures a.tops[n] == Known(Base(top)) && g[n].openRead.value <= top && TopAt(g, params, n, Base(top))
  {
    assert Reachable(g, n);
    var reach :| PathTo(g, reach, n);
    AnalysisSound(g, params, all, a, reach);
    assert SafeRead(g[n], FlowOf(g, params, reach));
    top := FlowOf(g, params, reach).top.reg;
    assert NodeTopSeen(g, params, n, a.tops[n]);
  }

  lemma {:induction false} WellDefinedIsAccepted(g: Graph, params: nat, maxStack: nat, a: Analysis, n: nat)
    requires WellFormed(g, maxStack) && AllReachable(g) && WellDefined(g, params)
    requires Finished(g, params, UpTo(maxStack), a) && params <= maxStack && n < |g|
    ensures Accepts(g[n], a.incoming[n], a.tops[n])
  {
    ReadsFitFrame(g[n].operands, maxStack);
    forall r | r in g[n].Reads() ensures r in a.incoming[n] { NoReadLost(g, params, n, r); }
    if g[n].openRead.Some? {
      var top := OpenTopKnown(g, params, UpTo(maxStack), a, n);
      var p :| PathTo(g, p, n) && FlowOf(g, params, p).top == Base(top);
      FlowInFrame(g, params, maxStack, p);
      assert SafeRead(g[n], FlowOf(g, params, p));
      forall r: nat | g[n].openRead.value <= r < top ensures r in a.incoming[n] { NoPackLost(g, params, n, r, top); }
    }
  }

  /** No path defines a register outside the frame. */
  lemma {:induction false} FlowInFrame(g: Graph, params: nat, maxStack: nat, path: seq<nat>)
    requires WellFormed(g, maxStack) && params <= maxStack
    ensures FlowOf(g, params, path).defs <= UpTo(maxStack)
    decreases |path|
  {
    if path != [] {
      var before := path[..|path| - 1];
      FlowInFrame(g, params, maxStack, before);
      if EndOf(g, before) < |g| { ReadsFitFrame(g[EndOf(g, before)].operands, maxStack); }
    }
  }

  // ----- the algorithm -----

  /** Every incoming edge of every node, in source order. */
  method Predecessors(g: Graph, maxStack: nat) returns (preds: seq<seq<(nat, nat)>>)
    requires WellFormed(g, maxStack)
    ensures |preds| == |g|
    ensures forall n, s: nat, e: nat :: 0 <= n < |g| ==> ((s, e) in preds[n] <==> IsEdge(g, s, e, n))
  {
    preds := seq(|g|, i => []);
    for s: nat := 0 to |g|
      invariant |preds| == |g|
      invariant forall n, i: nat, e: nat :: 0 <= n < |g| ==> ((i, e) in preds[n] <==> i < s && IsEdge(g, i, e, n))
    {
      for e: nat := 0 to |g[s].edges|
        invariant |preds| == |g|
        invariant forall n, i: nat, f: nat :: 0 <= n < |g| ==>
          ((i, f) in preds[n] <==> (i < s || (i == s && f < e)) && IsEdge(g, i, f, n))
      {
        var t := g[s].edges[e];
        preds := preds[t := preds[t] + [(s, e)]];
      }
    }
  }

  /** The meet at one node: definitions that every incoming edge carries, and the join of
      the tops seen so far. */
  method Meet(g: Graph, params: nat, all: set<Reg>, a: Analysis, preds: seq<(nat, nat)>, n: nat)
    returns (defs: set<Reg>, top: Flat)
    requires |g| > 0 && Shaped(g, a) && n < |g| && TopsWitnessed(g, params, a)
    requires forall s: nat, e: nat :: (s, e) in preds <==> IsEdge(g, s, e, n)
    ensures defs == MeetDefs(g, params, all, a, n)
    ensures IsJoin(g, a, n, top)
    ensures NodeTopSeen(g, params, n, top)
  {
    defs, top := Start(n, params, all), if n == 0 then Known(NoTop) else Unseen;
    if n == 0 { assert PathTo(g, [], 0) && FlowOf(g, params, []).top == NoTop; }
    for i := 0 to |preds|
      invariant forall r :: r in defs <==>
        r in Start(n, params, all) && forall k :: 0 <= k < i ==> r in Carried(g, a, preds[k], n)
      invariant n == 0 ==> Below(Known(NoTop), top)
      invariant forall k :: 0 <= k < i ==> Below(TopCarried(g, a, preds[k], n), top)
      invariant forall u :: UpperBound(g, a, n, u) ==> Below(top, u)
      invariant NodeTopSeen(g, params, n, top)
    {
      var (s, e) := preds[i];
      assert (s, e) in preds;
      defs := defs * a.outgoing[s][e];
      var seen := a.topOut[s][e];
      JoinSeen(g, params, a, s, e, n, top);
      top := if seen.Unseen? then top else if top.Unseen? then seen else if top == seen then top else Conflict;
    }
    MeetCovers(g, params, all, a, preds, n, defs, top);
  }

  function Carried(g: Graph, a: Analysis, p: (nat, nat), n: nat): set<Reg>
    requires Shaped(g, a)
  {
    if IsEdge(g, p.0, p.1, n) then a.outgoing[p.0][p.1] else {}
  }

  function TopCarried(g: Graph, a: Analysis, p: (nat, nat), n: nat): Flat
    requires Shaped(g, a)
  {
    if IsEdge(g, p.0, p.1, n) then a.topOut[p.0][p.1] else Unseen
  }

  lemma {:induction false} JoinSeen(g: Graph, params: nat, a: Analysis, s: nat, e: nat, n: nat, top: Flat)
    requires |g| > 0 && Shaped(g, a) && n < |g| && TopsWitnessed(g, params, a) && IsEdge(g, s, e, n)
    requires NodeTopSeen(g, params, n, top)
    ensures var seen := a.topOut[s][e];
            NodeTopSeen(g, params, n, seen) &&
              (seen.Known? && top.Known? && seen != top ==> NodeTopSeen(g, params, n, Conflict))
  {
    var seen := a.topOut[s][e];
    assert EdgeTopSeen(g, params, s, e, seen);
    if seen.Known? { TopPasses(g, params, s, e, n, seen.top); }
    if seen.Conflict? {
      var t, u :| t != u && TopAlong(g, params, s, e, t) && TopAlong(g, params, s, e, u);
      TopPasses(g, params, s, e, n, t);
      TopPasses(g, params, s, e, n, u);
    }
  }

  lemma {:induction false} MeetCovers(g: Graph, params: nat, all: set<Reg>, a: Analysis, preds: seq<(nat, nat)>, n: nat,
                   defs: set<Reg>, top: Flat)
    requires Shaped(g, a) && n < |g|
    requires forall s: nat, e: nat :: (s, e) in preds <==> IsEdge(g, s, e, n)
    requires forall r :: r in defs <==>
      r in Start(n, params, all) && forall k :: 0 <= k < |preds| ==> r in Carried(g, a, preds[k], n)
    requires n == 0 ==> Below(Known(NoTop), top)
    requires forall k :: 0 <= k < |preds| ==> Below(TopCarried(g, a, preds[k], n), top)
    ensures defs == MeetDefs(g, params, all, a, n)
    ensures UpperBound(g, a, n, top)
  {
    forall r: Reg ensures r in defs <==> r in MeetDefs(g, params, all, a, n) {
      if r in defs {
        forall s: nat, e: nat | IsEdge(g, s, e, n) ensures r in a.outgoing[s][e] {
          assert (s, e) in preds;
          var k :| 0 <= k < |preds| && preds[k] == (s, e);
          assert r in Carried(g, a, preds[k], n);
        }
      } else if r in Start(n, params, all) {
        var k :| 0 <= k < |preds| && r !in Carried(g, a, preds[k], n);
        assert preds[k] in preds && (preds[k].0, preds[k].1) == preds[k];
        assert IsEdge(g, preds[k].0, preds[k].1, n);
      }
    }
    forall s: nat, e: nat | IsEdge(g, s, e, n) ensures Below(a.topOut[s][e], top) {
      assert (s, e) in preds;
      var k :| 0 <= k < |preds| && preds[k] == (s, e);
      assert Below(TopCarried(g, a, preds[k], n), top);
    }
  }

  // The two things that only shrink: definitions still carried, and levels tops can rise.

  ghost function CarriedBits(g: Graph, a: Analysis): set<(nat, nat, Reg)>
    requires Shaped(g, a)
  {
    set n: nat, e: nat, r: Reg | n in UpTo(|g|) && e in UpTo(|g[n].edges|) && r in a.outgoing[n][e] :: (n, e, r)
  }

  function Rise(v: Flat): nat { match v case Unseen => 2 case Known(_) => 1 case Conflict => 0 }

  ghost function TopRoom(g: Graph, a: Analysis): set<(nat, nat, nat)>
    requires Shaped(g, a)
  {
    set n: nat, e: nat, k: nat | n in UpTo(|g|) && e in UpTo(|g[n].edges|) && k in UpTo(Rise(a.topOut[n][e])) ::
      (n, e, k)
  }

  lemma {:induction false} CarriedShrinks(g: Graph, a: Analysis, b: Analysis, n: nat)
    requires Shaped(g, a) && Shaped(g, b) && n < |g|
    requires forall m: nat, e: nat :: m < |g| && e < |g[m].edges| ==> b.outgoing[m][e] <= a.outgoing[m][e]
    ensures CarriedBits(g, b) <= CarriedBits(g, a)
    ensures b.outgoing[n] != a.outgoing[n] ==> CarriedBits(g, b) < CarriedBits(g, a)
  {
    if b.outgoing[n] != a.outgoing[n] {
      var e: nat :| e < |g[n].edges| && b.outgoing[n][e] != a.outgoing[n][e];
      var r :| r in a.outgoing[n][e] && r !in b.outgoing[n][e];
      assert (n, e, r) in CarriedBits(g, a) && (n, e, r) !in CarriedBits(g, b);
    }
  }

  lemma {:induction false} RoomShrinks(g: Graph, a: Analysis, b: Analysis, n: nat)
    requires Shaped(g, a) && Shaped(g, b) && n < |g|
    requires forall m: nat, e: nat :: m < |g| && e < |g[m].edges| ==> Below(a.topOut[m][e], b.topOut[m][e])
    ensures TopRoom(g, b) <= TopRoom(g, a)
    ensures b.topOut[n] != a.topOut[n] ==> TopRoom(g, b) < TopRoom(g, a)
  {
    forall m: nat, e: nat | m < |g| && e < |g[m].edges|
      ensures UpTo(Rise(b.topOut[m][e])) <= UpTo(Rise(a.topOut[m][e]))
    {
      assert Below(a.topOut[m][e], b.topOut[m][e]);
    }
    if b.topOut[n] != a.topOut[n] {
      var e: nat :| e < |g[n].edges| && b.topOut[n][e] != a.topOut[n][e];
      var k := Rise(b.topOut[n][e]);
      assert (n, e, k) in TopRoom(g, a) && (n, e, k) !in TopRoom(g, b);
    }
  }

  method Initial(g: Graph, params: nat, maxStack: nat) returns (a: Analysis)
    requires WellFormed(g, maxStack) && params <= maxStack
    ensures Shaped(g, a) && Settled(g, params, UpTo(maxStack), a, UpTo(|g|))
    ensures Descending(g, params, UpTo(maxStack), a)
    ensures DefsWitnessed(g, params, UpTo(maxStack), a) && TopsWitnessed(g, params, a)
  {
    var all := UpTo(maxStack);
    a := Analysis(
      seq(|g|, i => all), seq(|g|, i => Unseen),
      seq(|g|, i requires 0 <= i < |g| => seq(|g[i].edges|, e => all)),
      seq(|g|, i requires 0 <= i < |g| => seq(|g[i].edges|, e => Unseen)));
    forall n: nat, e: nat | n < |g| && e < |g[n].edges| ensures DefinedAfter(g[n], all, e) <= all {
      ReadsFitFrame(g[n].operands, maxStack);
    }
  }

  ghost predicate Invariant(g: Graph, params: nat, all: set<Reg>, a: Analysis, queued: set<nat>)
    requires |g| > 0
  {
    && Shaped(g, a) && Settled(g, params, all, a, queued) && Descending(g, params, all, a)
    && DefsWitnessed(g, params, all, a) && TopsWitnessed(g, params, a)
  }

  /** One turn of the worklist: recompute a node, wake its successors if it changed. */
  method Turn(g: Graph, params: nat, all: set<Reg>, a: Analysis, preds: seq<(nat, nat)>, n: nat,
              rest: seq<nat>, left: set<nat>) returns (b: Analysis, pending: seq<nat>, queued: set<nat>)
    requires |g| > 0 && n < |g| && AllReachable(g) && Invariant(g, params, all, a, left + {n})
    requires forall m, e :: 0 <= m < |g| && 0 <= e < |g[m].edges| ==> g[m].edges[e] < |g|
    requires forall s: nat, e: nat :: (s, e) in preds <==> IsEdge(g, s, e, n)
    requires IsQueue(rest, left) && left <= UpTo(|g|)
    ensures IsQueue(pending, queued) && queued <= UpTo(|g|)
    ensures Invariant(g, params, all, b, queued)
    ensures CarriedBits(g, b) <= CarriedBits(g, a) && TopRoom(g, b) <= TopRoom(g, a)
    ensures CarriedBits(g, b) < CarriedBits(g, a) || TopRoom(g, b) < TopRoom(g, a) ||
        (b == a.(incoming := b.incoming, tops := b.tops) && pending == rest)
  {
    var defs, top := Meet(g, params, all, a, preds, n);
    b := Processed(g, a, n, defs, top);
    OutputsDescend(g, params, all, a, n, defs, top);
    CarriedShrinks(g, a, b, n);
    RoomShrinks(g, a, b, n);
    if b.outgoing[n] != a.outgoing[n] || b.topOut[n] != a.topOut[n] {
      pending, queued := Enqueue(rest, left, g[n].edges);
    } else {
      pending, queued := rest, left;
    }
    ProcessedDescends(g, params, all, a, n, defs, top);
    ProcessedWitnessed(g, params, all, a, n, defs, top);
    ProcessedSettles(g, params, all, a, left + {n}, queued, n, defs, top);
  }

  method AcceptAll(g: Graph, a: Analysis) returns (ok: bool)
    requires Shaped(g, a)
    ensures ok <==> forall n: nat :: n < |g| ==> Accepts(g[n], a.incoming[n], a.tops[n])
  {
    for n := 0 to |g|
      invariant forall m: nat :: m < n ==> Accepts(g[m], a.incoming[m], a.tops[m])
    {
      if !Accepts(g[n], a.incoming[n], a.tops[n]) { return false; }
    }
    ok := true;
  }

  /** Accepts exactly the graphs on which every read is defined on every path. */
  method ValidateDefinitions(g: Graph, maxStack: nat, params: nat) returns (ok: bool)
    requires WellFormed(g, maxStack) && params <= maxStack && AllReachable(g)
    ensures ok <==> WellDefined(g, params)
  {
    hide Settled, Descending, DefsWitnessed, TopsWitnessed, Accepts;
    var preds := Predecessors(g, maxStack);
    var all := UpTo(maxStack);
    var a := Initial(g, params, maxStack);
    var pending, queued := Worklist.All(|g|);
    while pending != []
      invariant IsQueue(pending, queued) && queued <= UpTo(|g|)
      invariant Invariant(g, params, all, a, queued)
      decreases CarriedBits(g, a), TopRoom(g, a), |pending|
    {
      var n, rest, left := Pop(pending, queued);
      assert left + {n} == queued;
      a, pending, queued := Turn(g, params, all, a, preds[n], n, rest, left);
    }
    assert queued == {};
    ok := AcceptAll(g, a);
    if ok {
      AcceptedIsWellDefined(g, params, all, a);
    } else if WellDefined(g, params) {
      forall m: nat | m < |g| ensures Accepts(g[m], a.incoming[m], a.tops[m]) {
        WellDefinedIsAccepted(g, params, maxStack, a, m);
      }
    }
  }
}
