/** The private-storage certificate of one prototype, end to end: liveness, copy
    coalescing, relabelling, liveness again, webs, names.  The certificate performs the
    operations of the graph it came from, on the same values and along the same edges,
    except for the MOVEs that were merged away. */
module PrivateCopies {
  import opened RegisterGraph
  import opened Worklist
  import opened Definitions
  import opened Liveness
  import opened Relabelling
  import opened CopyCoalescing
  import opened Grouping
  import opened Renaming
  import opened CopyCertificates

  /** Both machines are at the same point: both running or both returned, and the same
      operations behind them.  Neither is ever stuck on an undefined register. */
  ghost predicate SamePoint<R, S>(a: State<R>, b: State<S>) {
    ((a.Running? && b.Running?) || (a.Returned? && b.Returned?)) && a.trace == b.trace
  }

  /** In one environment, on any arguments, each point of either run is met by the other. */
  ghost predicate PreservesUnder(g: Graph, params: nat, removed: set<nat>, output: Certificate, o: Oracle) {
    forall args: seq<Value> :: |args| == params ==>
      Leads(g, removed, output, o, args) && Follows(g, removed, output, o, args)
  }

  ghost predicate Preserves(g: Graph, params: nat, removed: set<nat>, output: Certificate) {
    forall o: Oracle :: PreservesUnder(g, params, removed, output, o)
  }

  /** Every point of the certificate is a point of the graph. */
  ghost predicate Leads(g: Graph, removed: set<nat>, output: Certificate, o: Oracle, args: seq<Value>) {
    forall steps: nat :: Met(g, removed, output, o, args, steps)
  }

  /** Every point of the graph, between a lookup and its removed MOVE included, is a point
      of the certificate. */
  ghost predicate Follows(g: Graph, removed: set<nat>, output: Certificate, o: Oracle, args: seq<Value>) {
    forall single: nat :: Reached(g, removed, output, o, args, single)
  }

  ghost predicate Meets(g: Graph, removed: set<nat>, output: Certificate, o: Oracle, args: seq<Value>, single: nat,
      steps: nat)
  {
    SamePoint(Run(g, o, removed, Entry(args), single), Run(output, o, {}, NamedEntry(args), steps))
  }

  ghost predicate Met(g: Graph, removed: set<nat>, output: Certificate, o: Oracle, args: seq<Value>, steps: nat) {
    exists single: nat :: steps <= single && Meets(g, removed, output, o, args, single, steps)
  }

  ghost predicate Reached(g: Graph, removed: set<nat>, output: Certificate, o: Oracle, args: seq<Value>, single: nat) {
    exists steps: nat :: steps <= single && Meets(g, removed, output, o, args, single, steps)
  }

  lemma {:induction false} LiveInFrame(g: Graph, maxStack: nat, live: LiveMap)
    requires WellFormed(g, maxStack) && IsLeastLive(g, live)
    ensures forall n :: 0 <= n < |g| ==> live[n] <= UpTo(maxStack)
  {
    var frame := seq(|g|, i => UpTo(maxStack));
    forall n: nat | n < |g| ensures Contains(g, frame, n) {
      LiveAcrossInFrame(g, frame, n, |g[n].edges|, UpTo(maxStack));
      ReadsFitFrame(g[n].operands, maxStack);
    }
    assert Closed(g, frame) && Within(live, frame);
  }

  /** The steps of the pass fit together: the certificate in step with the grouped run. */
  lemma {:induction false} GroupedPoint(g: Graph, maxStack: nat, live: LiveMap, outgoing: LiveMap, removed: set<nat>,
      order: seq<nat>, merged: Graph, live': LiveMap, root: map<Webs.Cell, Webs.Cell>, names: map<Webs.Cell, Name>,
      output: Certificate, o: Oracle, args: seq<Value>, steps: nat)
    requires Coalesced(g, maxStack, live, outgoing, removed, order, merged) && live[0] <= UpTo(|args|)
    requires WellFormed(merged, maxStack) && IsLeastLive(merged, live')
    requires IsRenaming(merged, live', |args|, root, names, output)
    ensures SamePoint(RunPast(g, o, removed, removed, 1, Entry(args), steps),
        Run(output, o, {}, NamedEntry(args), steps))
  {
    hide Run, RunPast, IsRenaming, IsRelabelling, NoLiveKill;
    CoalescedLive(g, maxStack, live, outgoing, removed, order, merged, live');
    CoalescedRun(g, maxStack, live, outgoing, removed, order, merged, o, args, steps);
    assert live'[0] <= live[0] by { RootIsFirst(g, maxStack, live, outgoing, removed, order, merged, live'); }
    RenamedRun(merged, maxStack, live', root, names, output, o, args, steps);
  }

  lemma {:induction false} RootIsFirst(g: Graph, maxStack: nat, live: LiveMap, outgoing: LiveMap, removed: set<nat>,
      order: seq<nat>, merged: Graph, live': LiveMap)
    requires Coalesced(g, maxStack, live, outgoing, removed, order, merged) && Within(live', LiveThrough(live, order))
    ensures |live'| > 0 && live'[0] <= live[0]
  {
  }

  lemma {:induction false} RemovedMovesAreShort(g: Graph, removed: set<nat>)
    requires Detachable(g, removed)
    ensures ShortHidden(g, removed, 1)
  {
    forall n: nat | n in removed ensures Leaves(g, removed, n, 1) {
      assert Leaves(g, removed, g[n].edges[0], 0);
    }
  }

  /** A run stopped between a lookup and its removed MOVE has the trace of the next point. */
  lemma {:induction false} MoveSettles(g: Graph, o: Oracle, removed: set<nat>, s: State<Reg>)
    requires ShortHidden(g, removed, 1)
    ensures Settle(g, o, removed, removed, 1, s).trace == s.trace
    ensures !Settle(g, o, removed, removed, 1, s).Stuck? ==>
        (s.Running? <==> Settle(g, o, removed, removed, 1, s).Running?)
  {
    if s.Running? && s.at in removed { assert Leaves(g, removed, s.at, 1); }
    SettleEnough(g, o, removed, removed, 1, s);
  }

  lemma {:induction false} PassPreserves(g: Graph, maxStack: nat, params: nat, live: LiveMap, outgoing: LiveMap,
      removed: set<nat>, order: seq<nat>, merged: Graph, live': LiveMap, root: map<Webs.Cell, Webs.Cell>,
      names: map<Webs.Cell, Name>, output: Certificate)
    requires Coalesced(g, maxStack, live, outgoing, removed, order, merged) && live[0] <= UpTo(params)
    requires Detachable(g, removed)
    requires WellFormed(merged, maxStack) && IsLeastLive(merged, live')
    requires IsRenaming(merged, live', params, root, names, output)
    ensures Preserves(g, params, removed, output)
  {
    hide Run, RunPast, Coalesced, IsRenaming, IsLeastLive, WellFormed, Step;
    RemovedMovesAreShort(g, removed);
    forall o: Oracle, args: seq<Value> | |args| == params
      ensures Leads(g, removed, output, o, args) && Follows(g, removed, output, o, args)
    {
      forall steps: nat ensures Met(g, removed, output, o, args, steps) {
        var single := GroupedIsRun(g, o, removed, removed, 1, Entry(args), steps);
        GroupedPoint(g, maxStack, live, outgoing, removed, order, merged, live', root, names, output, o, args, steps);
        assert Meets(g, removed, output, o, args, single, steps);
      }
      forall single: nat ensures Reached(g, removed, output, o, args, single) {
        var steps := RunIsGrouped(g, o, removed, removed, 1, Entry(args), single);
        GroupedPoint(g, maxStack, live, outgoing, removed, order, merged, live', root, names, output, o, args, steps);
        var at := Run(g, o, removed, Entry(args), single);
        MoveSettles(g, o, removed, at);
        assert Meets(g, removed, output, o, args, single, steps);
      }
    }
  }

  /** The pass itself, on a graph that has passed the definition check. */
  method PrivateCopyGraph(g: Graph, maxStack: nat, params: nat) returns (output: Certificate, removed: set<nat>)
    requires WellFormed(g, maxStack) && params <= maxStack && AllReachable(g) && WellDefined(g, params)
    ensures Preserves(g, params, removed, output) && Certifies(g, params, output)
    ensures forall m: nat :: m in removed <==> Folded(g, m)
    ensures forall m :: m in removed ==> m < |g| && g[m].name == MOVE
  {
    var preds := PredecessorLists(g, maxStack);
    var live, outgoing := LiveByWorklist(g, maxStack, preds);
    var nodes;
    nodes, removed := Coalesce(g, maxStack, preds, outgoing);
    RemovedDetach(g, maxStack, outgoing, removed);
    MergedKeepsEdges(g, maxStack, outgoing, removed);
    MergedWellFormed(g, maxStack, outgoing);
    var order, merged := Relabel(nodes, removed);
    RelabellingWellFormed(nodes, maxStack, removed, order, merged);
    KilledIsDead(g, params, maxStack, live);
    LiveAtEntryIsParameter(g, params, maxStack, live);
    var live' := LiveBySweeps(merged, maxStack);
    LiveInFrame(merged, maxStack, live');
    var names;
    ghost var root;
    ghost var pairs;
    output, names, root, pairs := RenameWebs(merged, maxStack, params, live');
    PassPreserves(g, maxStack, params, live, outgoing, removed, order, merged, live', root, names, output);
    assert forall m :: m in removed ==> IsRemovedMove(g, outgoing, m);
    FoldingIs(g, maxStack, live, outgoing, removed, order, merged);
    CertificateIs(merged, live', params, root, pairs, names, output);
  }

  /** Two graphs with one certificate behave alike: what a "proved" verdict means. */
  lemma {:induction false} EqualCertificatesBehaveAlike(g: Graph, g': Graph, params: nat, removed: set<nat>,
      removed': set<nat>, output: Certificate, o: Oracle, args: seq<Value>, single: nat)
    returns (single': nat)
    requires PreservesUnder(g, params, removed, output, o) && PreservesUnder(g', params, removed', output, o)
    requires |args| == params
    ensures SamePoint(Run(g, o, removed, Entry(args), single), Run(g', o, removed', Entry(args), single'))
  {
    hide Run, Meets;
    assert Follows(g, removed, output, o, args) && Leads(g', removed', output, o, args);
    assert Reached(g, removed, output, o, args, single);
    var steps: nat :| Meets(g, removed, output, o, args, single, steps);
    assert Met(g', removed', output, o, args, steps);
    single' :| Meets(g', removed', output, o, args, single', steps);
    MeetTwice(g, g', removed, removed', output, o, args, single, single', steps);
  }

  lemma {:induction false} MeetTwice(g: Graph, g': Graph, removed: set<nat>, removed': set<nat>, output: Certificate,
      o: Oracle, args: seq<Value>, single: nat, single': nat, steps: nat)
    requires Meets(g, removed, output, o, args, single, steps) && Meets(g', removed', output, o, args, single', steps)
    ensures SamePoint(Run(g, o, removed, Entry(args), single), Run(g', o, removed', Entry(args), single'))
  {
    hide Run;
  }
}
