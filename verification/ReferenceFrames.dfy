/** Guarding call frames: which registers may be open, captured by reference and not closed
    since, when each node runs; and the check that they all lie below the frames called there. */
module ReferenceFrames {
  import opened Options
  import opened Worklist

  datatype Kind =
    | Build(refs: set<nat>)
    | CloseUpvals(closed: set<nat>)
    | Call(base: nat)
    | ForGPrep(a: nat)
    | ForGLoop(a: nat)
    | FastCall
    | Plain

  datatype Node = Node(kind: Kind, edges: seq<nat>)

  type Flow = seq<Node>

  predicate WellFormed(g: Flow) { forall n: nat, t: nat :: n < |g| && t in g[n].edges ==> t < |g| }

  // ----- open registers along a path -----

  function Transfer(kind: Kind, open: set<nat>): set<nat> {
    match kind
    case Build(refs) => open + refs
    case CloseUpvals(closed) => open - closed
    case _ => open
  }

  ghost predicate IsPath(g: Flow, path: seq<nat>) {
    |path| > 0 && (forall i :: 0 <= i < |path| ==> path[i] < |g|) && forall i: nat ::
      i + 1 < |path| ==> Follows(g, path, i)
  }

  ghost predicate Follows(g: Flow, path: seq<nat>, i: nat)
    requires i + 1 < |path|
  {
    path[i] < |g| && path[i + 1] in g[path[i]].edges
  }

  /** The registers open after the nodes of a path have run. */
  function OpenAfter(g: Flow, path: seq<nat>): set<nat>
    requires forall i :: 0 <= i < |path| ==> path[i] < |g|
  {
    if path == [] then {} else Transfer(g[path[|path| - 1]].kind, OpenAfter(g, path[..|path| - 1]))
  }

  ghost predicate OpensOn(g: Flow, path: seq<nat>, n: nat, r: nat) {
    IsPath(g, path) && path[|path| - 1] == n && r in OpenAfter(g, path[..|path| - 1])
  }

  /** On some path, `r` is open when `n` is about to run. */
  ghost predicate MayBeOpen(g: Flow, n: nat, r: nat) { exists path: seq<nat> :: OpensOn(g, path, n, r) }

  /** On some path, `r` is open when `n` has run. */
  ghost predicate StaysOpen(g: Flow, n: nat, r: nat) { exists path: seq<nat> :: StaysOn(g, path, n, r) }

  ghost predicate StaysOn(g: Flow, path: seq<nat>, n: nat, r: nat) {
    IsPath(g, path) && path[|path| - 1] == n && r in OpenAfter(g, path)
  }

  /** Some node of the path captures `r`, and no later one closes it. */
  ghost predicate LeftOpen(g: Flow, path: seq<nat>, r: nat)
    requires forall i :: 0 <= i < |path| ==> path[i] < |g|
  {
    exists i: nat :: i < |path| && Captures(g[path[i]], r) && forall j :: i < j < |path| ==> !ClosesReg(g[path[j]], r)
  }

  ghost predicate Captures(n: Node, r: nat) { exists refs :: n.kind == Build(refs) && r in refs }

  ghost predicate ClosesReg(n: Node, r: nat) { exists closed :: n.kind == CloseUpvals(closed) && r in closed }

  lemma {:induction false} OpenIsLeftOpen(g: Flow, path: seq<nat>, r: nat)
    requires forall i :: 0 <= i < |path| ==> path[i] < |g|
    ensures r in OpenAfter(g, path) <==> LeftOpen(g, path, r)
  {
    if path != [] {
      var before, last := path[..|path| - 1], g[path[|path| - 1]];
      OpenIsLeftOpen(g, before, r);
      if LeftOpen(g, before, r) && !ClosesReg(last, r) {
        var i: nat :| i < |before| && Captures(g[before[i]], r) &&
          forall j :: i < j < |before| ==> !ClosesReg(g[before[j]], r);
        assert Captures(g[path[i]], r);
      }
      if LeftOpen(g, path, r) && !Captures(last, r) {
        var i: nat :| i < |path| && Captures(g[path[i]], r) && forall j :: i < j < |path| ==> !ClosesReg(g[path[j]], r);
        assert Captures(g[before[i]], r);
      }
      if last.kind.Build? { assert last.kind == Build(last.kind.refs); }
      if last.kind.CloseUpvals? { assert last.kind == CloseUpvals(last.kind.closed); }
    }
  }

  /** Some path to the node leaves the register open. */
  ghost predicate OpenOnTheWay(g: Flow, n: nat, r: nat) {
    exists path: seq<nat> :: IsPath(g, path) && path[|path| - 1] == n && LeftOpen(g, path[..|path| - 1], r)
  }

  lemma {:induction false} MayBeOpenIs(g: Flow, n: nat, r: nat)
    ensures MayBeOpen(g, n, r) <==> OpenOnTheWay(g, n, r)
  {
    forall path: seq<nat> | IsPath(g, path) && path[|path| - 1] == n
      ensures OpensOn(g, path, n, r) <==> LeftOpen(g, path[..|path| - 1], r)
    {
      OpenIsLeftOpen(g, path[..|path| - 1], r);
    }
    if MayBeOpen(g, n, r) { var path: seq<nat> :| OpensOn(g, path, n, r); }
    if OpenOnTheWay(g, n, r) {
      var path: seq<nat> :| IsPath(g, path) && path[|path| - 1] == n && LeftOpen(g, path[..|path| - 1], r);
      assert OpensOn(g, path, n, r);
    }
  }

  // ----- the frames a node may start -----

  /** A register is out of the way of the frame that a node may put on the stack. */
  predicate Clear(kind: Kind, r: nat) {
    match kind
    case Call(base) => r < base
    case ForGPrep(a) => r < a
    case ForGLoop(a) => r < a + 3
    case FastCall => false
    case _ => true
  }

  ghost predicate FrameSafe(g: Flow) { forall n: nat, r: nat :: n < |g| && MayBeOpen(g, n, r) ==> Clear(g[n].kind, r) }

  // ----- the fixpoint -----

  type Sets = seq<set<nat>>

  function Preds(g: Flow, n: nat, k: nat): seq<nat>
    requires k <= |g|
  {
    if k == 0 then [] else Preds(g, n, k - 1) + if n in g[k - 1].edges then [k - 1] else []
  }

  lemma {:induction false} PredsAre(g: Flow, n: nat, k: nat, m: nat)
    requires k <= |g|
    ensures m in Preds(g, n, k) <==> m < k && n in g[m].edges
  {
    if k > 0 { PredsAre(g, n, k - 1, m); }
  }

  ghost predicate Joins(g: Flow, outgoing: Sets, n: nat, active: set<nat>)
    requires |outgoing| == |g|
  {
    forall r: nat :: r in active <==> exists m: nat :: Passes(g, outgoing, m, n, r)
  }

  ghost predicate Passes(g: Flow, outgoing: Sets, m: nat, n: nat, r: nat)
    requires |outgoing| == |g|
  {
    m < |g| && n in g[m].edges && r in outgoing[m]
  }

  method JoinPreds(g: Flow, outgoing: Sets, n: nat, preds: seq<nat>) returns (active: set<nat>)
    requires |outgoing| == |g| && preds == Preds(g, n, |g|)
    ensures Joins(g, outgoing, n, active)
  {
    forall m: nat ensures m in preds <==> m < |g| && n in g[m].edges { PredsAre(g, n, |g|, m); }
    active := {};
    for i := 0 to |preds|
      invariant forall r: nat :: r in active <==> exists k :: 0 <= k < i && preds[k] < |g| && r in outgoing[preds[k]]
    {
      assert preds[i] in preds;
      active := active + outgoing[preds[i]];
    }
    forall r: nat ensures r in active <==> exists m: nat :: Passes(g, outgoing, m, n, r) {
      if r in active {
        var k :| 0 <= k < |preds| && preds[k] < |g| && r in outgoing[preds[k]];
        assert preds[k] in preds && Passes(g, outgoing, preds[k], n, r);
      }
      if m: nat :| Passes(g, outgoing, m, n, r) {
        assert m in preds;
        var k :| 0 <= k < |preds| && preds[k] == m;
      }
    }
  }

  /** A node that is not waiting has passed on everything it was given. */
  ghost predicate Settled(g: Flow, incoming: Sets, outgoing: Sets, n: nat)
    requires |incoming| == |outgoing| == |g| && n < |g|
  {
    Joins(g, outgoing, n, incoming[n]) && outgoing[n] == Transfer(g[n].kind, incoming[n])
  }

  /** Everything passed on is open on some path, and would be passed on again. */
  ghost predicate Grounded(g: Flow, outgoing: Sets)
    requires |outgoing| == |g|
  {
    && (forall n: nat, r: nat :: n < |g| && r in outgoing[n] ==> StaysOpen(g, n, r) && r in AllRefs(g, |g|))
    && forall n: nat, active: set<nat> ::
      n < |g| && Joins(g, outgoing, n, active) ==> outgoing[n] <= Transfer(g[n].kind, active)
  }

  function AllRefs(g: Flow, k: nat): set<nat>
    requires k <= |g|
  {
    if k == 0 then {} else AllRefs(g, k - 1) + if g[k - 1].kind.Build? then g[k - 1].kind.refs else {}
  }

  lemma {:induction false} RefsWithin(g: Flow, k: nat, n: nat)
    requires n < k <= |g| && g[n].kind.Build?
    ensures g[n].kind.refs <= AllRefs(g, k)
  {
    if n < k - 1 { RefsWithin(g, k - 1, n); }
  }

  ghost function Missing(g: Flow, outgoing: Sets): set<(nat, nat)>
    requires |outgoing| == |g|
  {
    set n, r | n in UpTo(|g|) && r in AllRefs(g, |g|) && r !in outgoing[n] :: (n, r)
  }

  lemma {:induction false} PathOn(g: Flow, path: seq<nat>, n: nat)
    requires IsPath(g, path) && n < |g| && n in g[path[|path| - 1]].edges
    ensures IsPath(g, path + [n]) && (path + [n])[..|path|] == path
  {
    var longer := path + [n];
    forall i: nat | i + 1 < |longer| ensures Follows(g, longer, i) { if i + 1 < |path| { assert Follows(g, path, i); } }
  }

  /** What a node passes on really is open after it. */
  lemma {:induction false} PassedIsOpen(g: Flow, outgoing: Sets, n: nat, active: set<nat>, r: nat)
    requires |outgoing| == |g| && n < |g| && Grounded(g, outgoing) && Joins(g, outgoing, n, active)
    requires r in Transfer(g[n].kind, active)
    ensures StaysOpen(g, n, r) && r in AllRefs(g, |g|)
  {
    hide Joins;
    if r in active {
      var path := JoinedPath(g, outgoing, n, active, r);
      assert StaysOn(g, path, n, r);
    } else {
      assert g[n].kind.Build? && r in g[n].kind.refs;
      RefsWithin(g, |g|, n);
      var alone: seq<nat> := [n];
      assert IsPath(g, alone) && alone[..0] == [];
      assert StaysOn(g, alone, n, r);
    }
  }

  lemma {:induction false} JoinedPath(g: Flow, outgoing: Sets, n: nat, active: set<nat>, r: nat)
    returns (path: seq<nat>)
    requires |outgoing| == |g| && n < |g| && Grounded(g, outgoing) && Joins(g, outgoing, n, active) && r in active
    ensures r in AllRefs(g, |g|) && OpensOn(g, path, n, r)
    ensures path[..|path| - 1] + [n] == path
    ensures OpenAfter(g, path) == Transfer(g[n].kind, OpenAfter(g, path[..|path| - 1]))
  {
    var m: nat :| Passes(g, outgoing, m, n, r);
    assert StaysOpen(g, m, r);
    var before: seq<nat> :| StaysOn(g, before, m, r);
    PathOn(g, before, n);
    path := before + [n];
  }

  lemma {:induction false} RaiseOne(g: Flow, outgoing: Sets, n: nat, active: set<nat>, out: set<nat>)
    requires |outgoing| == |g| && n < |g| && Grounded(g, outgoing) && Joins(g, outgoing, n, active)
    requires out == Transfer(g[n].kind, active)
    ensures outgoing[n] <= out && Grounded(g, outgoing[n := out])
    ensures out != outgoing[n] ==> Missing(g, outgoing[n := out]) < Missing(g, outgoing)
  {
    hide StaysOpen;
    var more := outgoing[n := out];
    forall r | r in out ensures StaysOpen(g, n, r) && r in AllRefs(g, |g|) { PassedIsOpen(g, outgoing, n, active, r); }
    assert forall m :: 0 <= m < |g| ==> outgoing[m] <= more[m];
    forall m: nat, wider: set<nat> | m < |g| && Joins(g, more, m, wider) ensures more[m] <= Transfer(g[m].kind, wider) {
      WiderJoin(g, outgoing, more, m, if m == n then active else Joined(g, outgoing, m), wider);
    }
    if out != outgoing[n] {
      var r :| r in out && r !in outgoing[n];
      assert (n, r) in Missing(g, outgoing) && (n, r) !in Missing(g, more);
    }
  }

  ghost function Joined(g: Flow, outgoing: Sets, n: nat): (active: set<nat>)
    requires |outgoing| == |g|
    ensures Joins(g, outgoing, n, active)
  {
    var active := set m, r | m in UpTo(|g|) && n in g[m].edges && r in outgoing[m] :: r;
    assert Joins(g, outgoing, n, active) by {
      forall r: nat ensures r in active <==> exists m: nat :: Passes(g, outgoing, m, n, r) {
        if m: nat :| Passes(g, outgoing, m, n, r) { assert m in UpTo(|g|); }
        if r in active {
          var m: nat :| m in UpTo(|g|) && n in g[m].edges && r in outgoing[m];
          assert Passes(g, outgoing, m, n, r);
        }
      }
    }
    active
  }

  lemma {:induction false} WiderJoin(g: Flow, outgoing: Sets, more: Sets, m: nat, active: set<nat>, wider: set<nat>)
    requires |outgoing| == |more| == |g| && m < |g| && forall k :: 0 <= k < |g| ==> outgoing[k] <= more[k]
    requires Joins(g, outgoing, m, active) && Joins(g, more, m, wider)
    ensures active <= wider && Transfer(g[m].kind, active) <= Transfer(g[m].kind, wider)
  {
    forall r: nat | r in active ensures r in wider {
      var k: nat :| Passes(g, outgoing, k, m, r);
      assert Passes(g, more, k, m, r);
    }
  }

  /** Only successors of a node notice what it passes on. */
  lemma {:induction false} OthersSettled(g: Flow, incoming: Sets, outgoing: Sets, outgoing': Sets, n: nat, m: nat)
    requires |incoming| == |outgoing| == |outgoing'| == |g| && n < |g| && m < |g| && m !in g[n].edges
    requires forall k :: 0 <= k < |g| && k != n ==> outgoing'[k] == outgoing[k]
    requires Joins(g, outgoing, m, incoming[m])
    ensures Joins(g, outgoing', m, incoming[m])
  {
    forall k: nat, r: nat ensures Passes(g, outgoing, k, m, r) <==> Passes(g, outgoing', k, m, r) { }
  }

  /** A path's open registers have all been passed on, once everything is settled. */
  lemma {:induction false} PathPassed(g: Flow, incoming: Sets, outgoing: Sets, path: seq<nat>)
    requires |incoming| == |outgoing| == |g| && IsPath(g, path)
    requires forall n: nat :: n < |g| ==> Settled(g, incoming, outgoing, n)
    ensures OpenAfter(g, path) <= outgoing[path[|path| - 1]]
    ensures OpenAfter(g, path[..|path| - 1]) <= incoming[path[|path| - 1]]
  {
    var last := path[|path| - 1];
    assert Settled(g, incoming, outgoing, last);
    if |path| > 1 {
      var before := path[..|path| - 1];
      forall i: nat | i + 1 < |before| ensures Follows(g, before, i) { assert Follows(g, path, i); }
      PathPassed(g, incoming, outgoing, before);
      assert Follows(g, path, |path| - 2);
      forall r: nat | r in OpenAfter(g, before)
        ensures r in incoming[last]
      {
        assert Passes(g, outgoing, before[|before| - 1], last, r);
      }
    }
  }

  ghost predicate FlowState(g: Flow, incoming: Sets, outgoing: Sets, queued: set<nat>) {
    && |incoming| == |outgoing| == |g| && Grounded(g, outgoing) && queued <= UpTo(|g|)
    && forall n: nat :: n < |g| && n !in queued ==> Settled(g, incoming, outgoing, n)
  }

  /** For each node, exactly the registers open on some path to it. */
  method OpenRegisters(g: Flow) returns (incoming: Sets)
    requires WellFormed(g)
    ensures |incoming| == |g| && forall n: nat, r: nat :: n < |g| ==> (r in incoming[n] <==> MayBeOpen(g, n, r))
    ensures forall n: nat, r: nat :: n < |g| ==> (r in incoming[n] <==> OpenOnTheWay(g, n, r))
  {
    hide OpenOnTheWay;
    hide Grounded, Settled, Joins, MayBeOpen;
    incoming := seq(|g|, i => {});
    var outgoing: Sets := seq(|g|, i => {});
    NothingPassed(g, outgoing);
    var pending, queued := Worklist.All(|g|);
    while pending != []
      invariant IsQueue(pending, queued) && FlowState(g, incoming, outgoing, queued)
      decreases Missing(g, outgoing), |pending|
    {
      var n, rest, left := Pop(pending, queued);
      pending := rest;
      var given := JoinPreds(g, outgoing, n, Preds(g, n, |g|));
      var out := Transfer(g[n].kind, given);
      RaiseOne(g, outgoing, n, given, out);
      ghost var was, had, waiting := incoming, outgoing, queued;
      incoming := incoming[n := given];
      queued := left;
      if out != outgoing[n] {
        outgoing := outgoing[n := out];
        pending, queued := Enqueue(pending, queued, g[n].edges);
      }
      TurnSettles(g, was, had, waiting, n, given, incoming, outgoing, queued);
    }
    assert queued == {};
    AllSettled(g, incoming, outgoing);
    forall n: nat, r: nat | n < |g| ensures r in incoming[n] <==> OpenOnTheWay(g, n, r) { MayBeOpenIs(g, n, r); }
  }

  lemma {:induction false} NothingPassed(g: Flow, outgoing: Sets)
    requires |outgoing| == |g| && forall n :: 0 <= n < |g| ==> outgoing[n] == {}
    ensures Grounded(g, outgoing)
  {
  }

  lemma {:induction false} TurnSettles(g: Flow, incoming: Sets, outgoing: Sets, queued: set<nat>, n: nat,
      given: set<nat>, incoming': Sets, outgoing': Sets, queued': set<nat>)
    requires WellFormed(g) && FlowState(g, incoming, outgoing, queued) && n in queued && Joins(g, outgoing, n, given)
    requires incoming' == incoming[n := given]
    requires var out := Transfer(g[n].kind, given);
             outgoing' == outgoing[n := out] && Grounded(g, outgoing')
             && queued' == queued - {n} + if out != outgoing[n] then set t | t in g[n].edges else {}
    ensures FlowState(g, incoming', outgoing', queued')
  {
    hide Grounded, Joins;
    forall m: nat | m < |g| && m !in queued' ensures Settled(g, incoming', outgoing', m) {
      if outgoing' == outgoing {
        if m != n { assert Settled(g, incoming, outgoing, m); }
      } else {
        if m != n { assert Settled(g, incoming, outgoing, m); }
        OthersSettled(g, incoming', outgoing, outgoing', n, m);
      }
    }
  }

  lemma {:induction false} AllSettled(g: Flow, incoming: Sets, outgoing: Sets)
    requires FlowState(g, incoming, outgoing, {})
    ensures forall n: nat, r: nat :: n < |g| ==> (r in incoming[n] <==> MayBeOpen(g, n, r))
  {
    hide Grounded, Joins;
    forall n: nat, r: nat | n < |g| ensures r in incoming[n] <==> MayBeOpen(g, n, r) {
      if r in incoming[n] {
        assert Settled(g, incoming, outgoing, n);
        var path := JoinedPath(g, outgoing, n, incoming[n], r);
      }
      if MayBeOpen(g, n, r) {
        var path: seq<nat> :| OpensOn(g, path, n, r);
        PathPassed(g, incoming, outgoing, path);
      }
    }
  }

  // ----- the certificate -----

  /** Instructions of the original function, as far as open packs are concerned. */
  datatype Row = CallRow(args: nat,
    results: nat) | GetVarargsRow(count: nat) | ReturnRow(count: nat) | SetListRow(count: nat) | OtherRow

  predicate UsesOpenPack(row: Row) {
    match row
    case CallRow(args, results) => args == 0 || results == 0
    case GetVarargsRow(count) => count == 0
    case ReturnRow(count) => count == 0
    case SetListRow(count) => count == 0
    case OtherRow => false
  }

  datatype Body = Body(rows: seq<Row>, flow: Flow)

  predicate OwnsReference(g: Flow) { exists i :: 0 <= i < |g| && g[i].kind.Build? && g[i].kind.refs != {} }

  method FramesClear(g: Flow) returns (clear: bool)
    requires WellFormed(g)
    ensures clear == FrameSafe(g)
  {
    hide MayBeOpen;
    var incoming := OpenRegisters(g);
    for n := 0 to |g|
      invariant forall m: nat, r: nat :: m < n && MayBeOpen(g, m, r) ==> Clear(g[m].kind, r)
    {
      if exists r | r in incoming[n] :: !Clear(g[n].kind, r) { return false; }
    }
    clear := true;
  }

  /** What is certified about a function that owns references, and trivially about any other. */
  ghost predicate Certified(b: Body) {
    FrameSafe(b.flow) &&
    ((exists i: nat, r: nat :: i < |b.flow| && Captures(b.flow[i], r)) ==> forall row :: row in b.rows ==> Fixed(row))
  }

  /** All counts are given: none is left to the dynamic top. */
  ghost predicate Fixed(row: Row) {
    && row != GetVarargsRow(0) && row != ReturnRow(0) && row != SetListRow(0)
    && forall n: nat :: row != CallRow(0, n) && row != CallRow(n, 0)
  }

  lemma {:induction false} FixedIs(row: Row)
    ensures Fixed(row) <==> !UsesOpenPack(row)
  {
    if row.CallRow? { assert row == CallRow(row.args, row.results); }
  }

  lemma {:induction false} OwnerIs(g: Flow)
    ensures OwnsReference(g) <==> exists i: nat, r: nat :: i < |g| && Captures(g[i], r)
  {
    if i :| 0 <= i < |g| && g[i].kind.Build? && g[i].kind.refs != {} {
      var r :| r in g[i].kind.refs;
      assert g[i].kind == Build(g[i].kind.refs);
      assert Captures(g[i], r);
    }
  }

  /** Every owner is free of open packs and keeps its open registers below every frame. */
  method CertifyReferences(bodies: seq<Body>) returns (ok: bool)
    requires forall b :: b in bodies ==> WellFormed(b.flow)
    ensures ok <==> forall b :: b in bodies ==> Certified(b)
  {
    hide FrameSafe, OwnsReference, Fixed, Captures, UsesOpenPack;
    forall row ensures Fixed(row) <==> !UsesOpenPack(row) { FixedIs(row); }
    for i := 0 to |bodies|
      invariant forall j :: 0 <= j < i ==> Certified(bodies[j])
    {
      var body := bodies[i];
      assert body in bodies;
      OwnerIs(body.flow);
      if !OwnsReference(body.flow) {
        NobodyOpens(body.flow);
        continue;
      }
      if exists row | row in body.rows :: UsesOpenPack(row) { return false; }
      var clear := FramesClear(body.flow);
      if !clear { return false; }
    }
    ok := true;
  }

  lemma {:induction false} NothingOpens(g: Flow, path: seq<nat>)
    requires !OwnsReference(g) && forall i :: 0 <= i < |path| ==> path[i] < |g|
    ensures OpenAfter(g, path) == {}
  {
    if path != [] { NothingOpens(g, path[..|path| - 1]); }
  }

  lemma {:induction false} NobodyOpens(g: Flow)
    requires !OwnsReference(g)
    ensures FrameSafe(g)
  {
    forall n: nat, r: nat | n < |g| ensures !MayBeOpen(g, n, r) {
      forall path: seq<nat> ensures !OpensOn(g, path, n, r) {
        if IsPath(g, path) { NothingOpens(g, path[..|path| - 1]); }
      }
    }
  }

  // ----- runs from the entry -----

  ghost predicate FromEntry(g: Flow, path: seq<nat>) { IsPath(g, path) && path[0] == 0 }

  ghost predicate EntryReaches(g: Flow, n: nat) { exists path: seq<nat> :: EntryTo(g, path, n) }

  ghost predicate EntryTo(g: Flow, path: seq<nat>, n: nat) { FromEntry(g, path) && path[|path| - 1] == n }

  /** On every execution path of a certified function, what is open when a node runs is clear of
      the frame it may start. */
  lemma {:induction false} RunsStayClear(b: Body, path: seq<nat>, r: nat)
    requires Certified(b) && FromEntry(b.flow, path) && r in OpenAfter(b.flow, path[..|path| - 1])
    ensures Clear(b.flow[path[|path| - 1]].kind, r)
  {
    assert OpensOn(b.flow, path, path[|path| - 1], r);
  }

  // ----- a machine of stack frames -----

  /** The stack of one activation and of what it calls, by distance from the activation's base.  While
      `calling`, the frame that the node at `at` has started runs, with all that it starts itself. */
  datatype Frames = Frames(at: nat, calling: bool, open: set<nat>, stack: nat -> int)

  /** Where the frame begins that a node may start. */
  function FrameOf(kind: Kind): Option<nat> {
    match kind
    case Call(base) => Some(base)
    case ForGPrep(a) => Some(a)
    case ForGLoop(a) => Some(a + 3)
    case FastCall => Some(0)
    case _ => None
  }

  /** Whatever runs in a frame may write any cell from its base up, and no other. */
  ghost predicate WritesAbove(base: nat, stack: nat -> int, stack': nat -> int) {
    forall r: nat :: r < base ==> stack'(r) == stack(r)
  }

  /** A frame is started, runs on, or the node is done: then references open and close as it says,
      and it writes what it writes itself. */
  ghost predicate FramesStep(g: Flow, s: Frames, s': Frames) {
    s.at < |g| &&
    if s'.calling
    then FrameOf(g[s.at].kind).Some? && s'.at == s.at && s'.open == s.open &&
      WritesAbove(FrameOf(g[s.at].kind).value, s.stack, s'.stack)
    else s'.at in g[s.at].edges && s'.open == Transfer(g[s.at].kind, s.open)
  }

  ghost predicate IsRun(g: Flow, states: seq<Frames>) {
    && |states| > 0 && states[0].at == 0 && !states[0].calling && states[0].open == {} && |g| > 0
    && forall i: nat :: i + 1 < |states| ==> StepsOn(g, states, i)
  }

  ghost predicate StepsOn(g: Flow, states: seq<Frames>, i: nat)
    requires i + 1 < |states|
  {
    FramesStep(g, states[i], states[i + 1])
  }

  ghost predicate OpenedBy(g: Flow, path: seq<nat>, s: Frames) {
    FromEntry(g, path) && path[|path| - 1] == s.at && s.open == OpenAfter(g, path[..|path| - 1])
  }

  /** What the machine has open is what the path it took has opened. */
  lemma {:induction false} RunFollows(g: Flow, states: seq<Frames>, i: nat) returns (path: seq<nat>)
    requires WellFormed(g) && IsRun(g, states) && i < |states|
    ensures OpenedBy(g, path, states[i])
  {
    if i == 0 {
      path := [0];
      assert path[..0] == [];
    } else {
      path := RunFollows(g, states, i - 1);
      assert StepsOn(g, states, i - 1);
      if !states[i].calling {
        var longer := path + [states[i].at];
        forall j: nat | j + 1 < |longer|
          ensures Follows(g, longer, j)
        {
          if j + 1 < |path| { assert Follows(g, path, j); }
        }
        assert longer[..|longer| - 1] == path;
        path := longer;
      }
    }
  }

  /** In every run of a certified function, nothing that runs in a frame it starts changes the cell
      behind an open reference. */
  lemma {:induction false} CallsKeepReferences(b: Body, states: seq<Frames>, i: nat, r: nat)
    requires WellFormed(b.flow) && Certified(b) && IsRun(b.flow, states) && i + 1 < |states|
    requires states[i + 1].calling && r in states[i].open
    ensures states[i + 1].stack(r) == states[i].stack(r)
  {
    var path := RunFollows(b.flow, states, i);
    assert StepsOn(b.flow, states, i);
    RunsStayClear(b, path, r);
  }

  /** And only certified functions are that safe: where an open register is not clear of a frame that
      control can reach, some run changes the cell behind it. */
  lemma {:induction false} UnclearFrameWrites(g: Flow, path: seq<nat>, n: nat, r: nat) returns (states: seq<Frames>)
    requires WellFormed(g) && FromEntry(g, path) && OpensOn(g, path, n, r) && !Clear(g[n].kind, r)
    ensures IsRun(g, states) && |states| > 1
    ensures var i := |states| - 2;
            states[i + 1].calling && states[i].at == n && r in states[i].open &&
              states[i + 1].stack(r) != states[i].stack(r)
  {
    states := Walk(g, path, |path| - 1);
    var last := states[|states| - 1];
    var hit := last.(calling := true, stack := (x: nat) => if x == r then last.stack(r) + 1 else last.stack(x));
    var longer := states + [hit];
    forall i: nat | i + 1 < |longer|
      ensures StepsOn(g, longer, i)
    {
      if i + 1 < |states| { assert StepsOn(g, states, i); }
    }
    states := longer;
  }

  /** The run that walks along a path and starts no frame. */
  lemma {:induction false} Walk(g: Flow, path: seq<nat>, i: nat) returns (states: seq<Frames>)
    requires WellFormed(g) && FromEntry(g, path) && i < |path|
    ensures IsRun(g, states) && |states| == i + 1
    ensures states[i].at == path[i] && !states[i].calling && states[i].open == OpenAfter(g, path[..i])
  {
    if i == 0 {
      states := [Frames(0, false, {}, (r: nat) => 0)];
    } else {
      var before := Walk(g, path, i - 1);
      assert Follows(g, path, i - 1);
      assert path[..i][..|path[..i]| - 1] == path[..i - 1];
      var next := Frames(path[i], false, OpenAfter(g, path[..i]), before[i - 1].stack);
      states := before + [next];
      forall j: nat | j + 1 < |states|
        ensures StepsOn(g, states, j)
      {
        if j + 1 < |before| { assert StepsOn(g, before, j); }
      }
    }
  }

  lemma {:induction false} OpenMonotone(g: Flow, front: seq<nat>, path: seq<nat>)
    requires (forall i :: 0 <= i < |front| ==> front[i] < |g|) && forall i :: 0 <= i < |path| ==> path[i] < |g|
    ensures OpenAfter(g, path) <= OpenAfter(g, front + path)
  {
    if path != [] {
      OpenMonotone(g, front, path[..|path| - 1]);
      assert (front + path)[..|front + path| - 1] == front + path[..|path| - 1];
    }
  }

  /** The set is not only a bound: when every node can be reached, whatever it holds is open on
      some execution path, so a refusal over open frames has a run to blame. */
  lemma {:induction false} OpenOnARun(g: Flow, n: nat, r: nat) returns (path: seq<nat>)
    requires n < |g| && MayBeOpen(g, n, r)
    requires forall m: nat :: m < |g| ==> EntryReaches(g, m)
    ensures FromEntry(g, path) && OpensOn(g, path, n, r)
  {
    var tail: seq<nat> :| OpensOn(g, tail, n, r);
    assert EntryReaches(g, tail[0]);
    var front: seq<nat> :| EntryTo(g, front, tail[0]);
    path := front[..|front| - 1] + tail;
    forall i: nat | i + 1 < |path| ensures Follows(g, path, i) {
      if i + 1 < |front| { assert Follows(g, front, i); } else { assert Follows(g, tail, i - |front| + 1); }
    }
    OpenMonotone(g, front[..|front| - 1], tail[..|tail| - 1]);
    assert path[..|path| - 1] == front[..|front| - 1] + tail[..|tail| - 1];
  }
}
