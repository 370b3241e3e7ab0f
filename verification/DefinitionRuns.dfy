/** What the definition check promises about runs: on every path every read is safe exactly when no
    environment, on any arguments, brings the frame to a fault. */
module DefinitionRuns {
  import opened RegisterGraph
  import opened Worklist
  import opened Definitions
  import opened AdjacentPacks

  ghost predicate SafeEverywhere(g: Graph, params: nat)
    requires |g| > 0
  {
    forall path, n: nat :: PathTo(g, path, n) && n < |g| ==> SafeRead(g[n], FlowOf(g, params, path))
  }

  ghost predicate NeverFaults(g: Graph, params: nat) {
    forall o: Oracle, args: seq<Value>, steps: nat :: |args| == params ==>
      !PackRun(g, o, {}, PackEntry(args), steps).Faulted?
  }

  /** A copy goes one way. */
  ghost predicate CopiesGoOn(g: Graph) { forall n: nat :: n < |g| && g[n].name == MOVE ==> |g[n].edges| <= 1 }

  ghost predicate SameTop(t: Top, top: OpenTop) {
    match t
    case NoTop => top.Closed?
    case Base(b) => top.Open? && top.base == b
  }

  /** The frame holds what the path leaves behind. */
  ghost predicate Holds(s: PackState, n: nat, f: Flow) {
    s.Active? && s.at == n && s.store.Keys == f.defs && SameTop(f.top, s.top)
  }

  lemma {:induction false} OpenReadsHold(ops: seq<Operand<Reg>>, base: Reg, r: Reg)
    ensures r in ReadList(ops) ==> r in OpenReads(ops, base)
    ensures (exists k :: 0 <= k < |ops| && IsOpenFrom(ops[k]) && ops[k].data.start <= r < base) ==>
      r in OpenReads(ops, base)
  {
    if ops != [] {
      OpenReadsHold(ops[1..], base, r);
      if IsOpenFrom(ops[0]) {
        SpanIs(ops[0].data.start, base);
        if ops[0].data.start <= r < base { assert Span(ops[0].data.start, base)[r - ops[0].data.start] == r; }
      }
      if k :| 0 < k < |ops| && IsOpenFrom(ops[k]) && ops[k].data.start <= r < base {
        assert IsOpenFrom(ops[1..][k - 1]) && ops[1..][k - 1].data.start <= r < base;
      }
    }
  }

  /** The frame can read exactly what the analysis calls safe. */
  lemma {:induction false} CanReadIsSafe(n: Node<Reg>, store: map<Reg, Value>, top: OpenTop, f: Flow)
    requires PackShape(n) && store.Keys == f.defs && SameTop(f.top, top)
    ensures CanRead(n, store, top) <==> SafeRead(n, f)
  {
    var base := TopBase(top);
    if SafeRead(n, f) {
      forall r | r in OpenReads(n.operands, base) ensures r in store {
        OpenReadsAre(n.operands, base, r);
        assert r in ReadList(n.operands) ==> r in n.Reads();
      }
    }
    if CanRead(n, store, top) {
      forall r | r in n.Reads() ensures r in f.defs { OpenReadsHold(n.operands, base, r); }
      if n.openRead.Some? {
        var k :| 0 <= k < |n.operands| && IsOpenFrom(n.operands[k]);
        forall r: nat | n.openRead.value <= r < base ensures r in f.defs { OpenReadsHold(n.operands, base, r); }
      }
    }
  }

  /** Whatever is asked after this history, the environment takes edge `k`. */
  ghost predicate Steers(o: Oracle, trace: seq<Event>, k: nat) {
    forall name, data, args :: o(trace, name, data, args).edge == k
  }

  /** The edge a step takes leads to what the path, one edge longer, leaves behind. */
  lemma {:induction false} StepHolds(g: Graph, params: nat, o: Oracle, s: PackState, path: seq<nat>, n: nat)
    returns (e: nat)
    requires |g| > 0 && PathTo(g, path, n) && n < |g| && Holds(s, n, FlowOf(g, params, path)) && PackShape(g[n])
    requires CanRead(g[n], s.store, s.top) && g[n].edges != []
    ensures e < |g[n].edges| && PathTo(g, path + [e], g[n].edges[e])
    ensures var s' := PackStep(g, o, {}, s);
            Holds(s', g[n].edges[e], FlowOf(g, params, path + [e])) && |s'.trace| == |s.trace| + 1
    ensures forall k: nat ::
        k < |g[n].edges| && Steers(o, s.trace, k) && (g[n].name == MOVE ==> |g[n].edges| == 1) ==> e == k
  {
    hide IsPath, EndOf, FlowOf, After, DefinedAfter, OpenReads, PackShape, EraseAll;
    var node := g[n];
    var data := EraseAll(Immediates(node.operands));
    var args := Args(s.store, OpenReads(node.operands, TopBase(s.top)));
    var received := if node.openRead.Some? then args + s.top.pack else args;
    var reply := if node.name == MOVE then Reply([ValueAt(args, 0)], 0, [], [])
      else o(s.trace, node.name, data, received);
    e := Taken(reply, |node.edges|);
    AfterKeys(node, s.store, reply, e);
    FlowExtends(g, params, path, n, e);
  }

  /** A run that has not faulted is at the end of a path and holds what that leaves behind. */
  lemma {:induction false} RunHolds(g: Graph, maxStack: nat, params: nat, o: Oracle, args: seq<Value>, steps: nat)
    returns (path: seq<nat>)
    requires WellFormed(g, maxStack) && PackShapes(g) && |args| == params
    ensures var s := PackRun(g, o, {}, PackEntry(args), steps);
            s.Active? ==> PathTo(g, path, s.at) && s.at < |g| && Holds(s, s.at, FlowOf(g, params, path))
  {
    if steps == 0 {
      path := [];
      EntryHolds(g, params, args);
    } else {
      path := RunHolds(g, maxStack, params, o, args, steps - 1);
      var s := PackRun(g, o, {}, PackEntry(args), steps - 1);
      if s.Active? && CanRead(g[s.at], s.store, s.top) && g[s.at].edges != [] {
        assert PackShape(g[s.at]);
        var e := StepHolds(g, params, o, s, path, s.at);
        path := path + [e];
      }
    }
  }

  lemma {:induction false} EntryHolds(g: Graph, params: nat, args: seq<Value>)
    requires |g| > 0 && |args| == params
    ensures PathTo(g, [], 0) && Holds(PackEntry(args), 0, FlowOf(g, params, []))
  {
    assert PackEntry(args).store.Keys == UpTo(params);
  }

  /** The environment that takes the edges of a path, one after another. */
  ghost function Along(path: seq<nat>): Oracle {
    (trace, name, data, args) => Reply([], if |trace| < |path| then path[|trace|] else 0, [], [])
  }

  lemma {:induction false} StartsAtRoot(g: Graph, args: seq<Value>)
    requires |g| > 0
    ensures EndOf(g, []) == 0 && PackEntry(args).trace == []
  {
  }

  /** A fault is for good, and an unsafe read is one. */
  lemma {:induction false} FaultStays(g: Graph, o: Oracle, s: PackState)
    ensures s.Faulted? || (s.Active? && (s.at >= |g| || !CanRead(g[s.at], s.store, s.top))) ==>
      PackStep(g, o, {}, s).Faulted?
  {
  }

  lemma {:induction false} HeldAtIs(s: PackState, n: nat, f: Flow)
    requires Holds(s, n, f)
    ensures s.Active? && s.at == n
  {
  }

  /** Led along a path, a run faults on the way or reaches its end. */
  lemma {:induction false} LedAlong(g: Graph, maxStack: nat, params: nat, whole: seq<nat>, i: nat, args: seq<Value>)
    requires WellFormed(g, maxStack) && PackShapes(g) && CopiesGoOn(g) && |args| == params
    requires i <= |whole| && IsPath(g, whole[..i])
    ensures var s := PackRun(g, Along(whole), {}, PackEntry(args), i);
            s.Faulted? || (|s.trace| == i && Holds(s, EndOf(g, whole[..i]), FlowOf(g, params, whole[..i])))
  {
    hide PackStep, CanRead, FlowOf, PackShape, Holds;
    if i == 0 { StartsAtRoot(g, args); }
    if i == 0 {
      EntryHolds(g, params, args);
    } else {
      var before := whole[..i - 1];
      assert whole[..i][..i - 1] == before;
      LedAlong(g, maxStack, params, whole, i - 1, args);
      var s, n := PackRun(g, Along(whole), {}, PackEntry(args), i - 1), EndOf(g, before);
      assert n < |g| && PackShape(g[n]) && PathTo(g, before, n);
      FaultStays(g, Along(whole), s);
      if !s.Faulted? { HeldAtIs(s, n, FlowOf(g, params, before)); }
      if s.Active? && CanRead(g[n], s.store, s.top) {
        var e := StepHolds(g, params, Along(whole), s, before, n);
        assert Steers(Along(whole), s.trace, whole[i - 1]);
        assert e == whole[i - 1] && before + [e] == whole[..i];
      }
    }
  }

  /** Safe reads on all paths and runs without faults are the same. */
  lemma {:induction false} SafeIffNeverFaults(g: Graph, maxStack: nat, params: nat)
    requires WellFormed(g, maxStack) && PackShapes(g) && CopiesGoOn(g)
    ensures SafeEverywhere(g, params) <==> NeverFaults(g, params)
  {
    if SafeEverywhere(g, params) {
      forall o: Oracle, args: seq<Value>, steps: nat | |args| == params
        ensures !PackRun(g, o, {}, PackEntry(args), steps).Faulted?
      {
        SafeRunsOn(g, maxStack, params, o, args, steps);
      }
    }
    if NeverFaults(g, params) {
      forall path, n: nat | PathTo(g, path, n) && n < |g| ensures SafeRead(g[n], FlowOf(g, params, path)) {
        RunsOnIsSafe(g, maxStack, params, path, n);
      }
    }
  }

  /** A step faults only where the frame cannot read. */
  lemma {:induction false} OneFault(g: Graph, o: Oracle, s: PackState)
    ensures !s.Faulted? && (s.Active? ==> s.at < |g| && CanRead(g[s.at], s.store, s.top)) ==>
      !PackStep(g, o, {}, s).Faulted?
  {
  }

  lemma {:induction false} SafeRunsOn(g: Graph, maxStack: nat, params: nat, o: Oracle, args: seq<Value>, steps: nat)
    requires WellFormed(g, maxStack) && PackShapes(g) && |args| == params && SafeEverywhere(g, params)
    ensures !PackRun(g, o, {}, PackEntry(args), steps).Faulted?
  {
    hide PackStep, CanRead, SafeRead, FlowOf, Holds, IsPath, EndOf, PackShape;
    if steps > 0 {
      SafeRunsOn(g, maxStack, params, o, args, steps - 1);
      var s := PackRun(g, o, {}, PackEntry(args), steps - 1);
      OneFault(g, o, s);
      if s.Active? {
        var path := RunHolds(g, maxStack, params, o, args, steps - 1);
        HeldIsRead(g, params, s, path);
      }
    }
  }

  lemma {:induction false} HeldIsRead(g: Graph, params: nat, s: PackState, path: seq<nat>)
    requires |g| > 0 && PackShapes(g) && SafeEverywhere(g, params) && s.Active? && s.at < |g|
    requires PathTo(g, path, s.at) && Holds(s, s.at, FlowOf(g, params, path))
    ensures CanRead(g[s.at], s.store, s.top)
  {
    assert PackShape(g[s.at]);
    CanReadIsSafe(g[s.at], s.store, s.top, FlowOf(g, params, path));
  }

  lemma {:induction false} RunsOnIsSafe(g: Graph, maxStack: nat, params: nat, path: seq<nat>, n: nat)
    requires WellFormed(g, maxStack) && PackShapes(g) && CopiesGoOn(g) && NeverFaults(g, params)
    requires PathTo(g, path, n) && n < |g|
    ensures SafeRead(g[n], FlowOf(g, params, path))
  {
    var args: seq<Value> := seq(params, i => Nil);
    assert path[..|path|] == path && PackShape(g[n]);
    LedAlong(g, maxStack, params, path, |path|, args);
    var s := PackRun(g, Along(path), {}, PackEntry(args), |path|);
    assert !s.Faulted? && Holds(s, n, FlowOf(g, params, path));
    CanReadIsSafe(g[n], s.store, s.top, FlowOf(g, params, path));
    assert !PackRun(g, Along(path), {}, PackEntry(args), |path| + 1).Faulted?;
  }

  /** What the check accepts: no environment makes a run fault, and all paths to an open read bring it
      one top. */
  lemma {:induction false} AcceptedNeverFaults(g: Graph, maxStack: nat, params: nat)
    requires WellFormed(g, maxStack) && PackShapes(g) && CopiesGoOn(g)
    ensures WellDefined(g, params) <==> NeverFaults(g, params) && forall p, q, n: nat ::
        PathTo(g, p, n) && PathTo(g, q, n) && n < |g| && g[n].openRead.Some? ==>
          FlowOf(g, params, p).top == FlowOf(g, params, q).top
  {
    SafeIffNeverFaults(g, maxStack, params);
  }
}
