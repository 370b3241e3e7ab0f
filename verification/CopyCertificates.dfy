/** What the private-storage certificate of a graph is, said without the passes that compute it:
    liveness by walks, folded lookups, breadth-first numbers, webs by chains, names by first
    occurrence.  Hence the certificate does not depend on which registers hold the values. */
module CopyCertificates {
  import opened Options
  import opened Sequences
  import opened RegisterGraph
  import opened Liveness
  import opened Relabelling
  import opened CopyCoalescing
  import opened Webs
  import opened Renaming

  // ----- liveness by walks -----

  /** Going along edge `e`, the instruction writes or forgets `r`. */
  ghost predicate Ends(n: Node<Reg>, e: nat, r: Reg) {
    || Write(r) in n.operands || EdgeWrite(e, r) in n.operands
    || r in n.kills || (e in n.edgeKills && r in n.edgeKills[e])
  }

  /** The walk leads from `n` to a read of `r`, and nothing on the way ends the value `r` has at `n`. */
  ghost predicate WantedBy(g: Graph, n: nat, r: Reg, walk: seq<nat>)
    decreases |walk|
  {
    n < |g| &&
    if walk == [] then Read(r) in g[n].operands
    else walk[0] < |g[n].edges| && !Ends(g[n], walk[0], r) && WantedBy(g, g[n].edges[walk[0]], r, walk[1..])
  }

  ghost predicate Wanted(g: Graph, n: nat, r: Reg) { exists walk :: WantedBy(g, n, r, walk) }

  /** The register lists hold exactly the registers of the operands of their kind. */
  lemma {:induction false} ListsAreOperands(ops: seq<Operand<Reg>>, e: nat, r: Reg)
    ensures r in ReadList(ops) <==> Read(r) in ops
    ensures r in WriteList(ops) <==> Write(r) in ops
    ensures r in EdgeWriteList(ops, e) <==> EdgeWrite(e, r) in ops
  {
    if ops != [] {
      ListsAreOperands(ops[1..], e, r);
      assert forall op :: op in ops <==> op == ops[0] || op in ops[1..];
    }
  }

  lemma {:induction false} EndsIs(n: Node<Reg>, e: nat, r: Reg)
    ensures Ends(n, e, r) <==> r in n.Writes() || r in n.EdgeWrites(e) || r in n.kills || r in n.EdgeKills(e)
    ensures r in n.Reads() <==> Read(r) in n.operands
  {
    ListsAreOperands(n.operands, e, r);
  }

  lemma {:induction false} WalkIsLive(g: Graph, live: LiveMap, n: nat, r: Reg, walk: seq<nat>)
    requires IsLeastLive(g, live) && WantedBy(g, n, r, walk)
    ensures r in live[n]
    decreases |walk|
  {
    assert Solves(g, live, n);
    if walk == [] {
      EndsIs(g[n], 0, r);
    } else {
      WalkIsLive(g, live, g[n].edges[walk[0]], r, walk[1..]);
      EndsIs(g[n], walk[0], r);
      assert IsEdge(g, n, walk[0], g[n].edges[walk[0]]);
      LiveAcrossIff(g, live, n, |g[n].edges|, r);
    }
  }

  lemma {:induction false} StepWanted(g: Graph, n: nat, e: nat, r: Reg)
    requires n < |g| && e < |g[n].edges| && !Ends(g[n], e, r) && Wanted(g, g[n].edges[e], r)
    ensures Wanted(g, n, r)
  {
    var walk :| WantedBy(g, g[n].edges[e], r, walk);
    assert ([e] + walk)[1..] == walk;
    assert WantedBy(g, n, r, [e] + walk);
  }

  /** Live is what some walk asks for: the least solution holds nothing else. */
  lemma {:induction false} LiveIsWanted(g: Graph, live: LiveMap)
    requires IsLeastLive(g, live)
    ensures forall n: nat, r :: n < |g| ==> (r in live[n] <==> Wanted(g, n, r))
  {
    var wanted := seq(|g|, n requires 0 <= n < |g| => set r | r in live[n] && Wanted(g, n, r));
    forall n: nat, r | n < |g| && r in LiveBefore(g, wanted, n) ensures r in wanted[n] {
      LiveAcrossMonotone(g, wanted, live, n, |g[n].edges|);
      assert Solves(g, live, n);
      EndsIs(g[n], 0, r);
      if r in g[n].Reads() {
        assert WantedBy(g, n, r, []);
      } else {
        LiveAcrossIff(g, wanted, n, |g[n].edges|, r);
        var e: nat, t: nat :| e < |g[n].edges| && IsEdge(g, n, e, t) && t < |g| && r in wanted[t] &&
          r !in g[n].EdgeWrites(e) && r !in g[n].EdgeKills(e);
        EndsIs(g[n], e, r);
        StepWanted(g, n, e, r);
      }
    }
    assert Closed(g, wanted) && Within(live, wanted);
    forall n: nat, r | n < |g| ensures r in live[n] <==> Wanted(g, n, r) {
      if Wanted(g, n, r) {
        var walk :| WantedBy(g, n, r, walk);
        WalkIsLive(g, live, n, r, walk);
      }
      assert live[n] <= wanted[n];
    }
  }

  // ----- folding a lookup with its MOVE -----

  /** The edge is the only one into its target. */
  ghost predicate SoleEdge(g: Graph, s: nat, e: nat, n: nat) {
    IsEdge(g, s, e, n) && forall s': nat, e': nat :: IsEdge(g, s', e', n) ==> s' == s && e' == e
  }

  /** Node `i` looks a value up for the sake of the one MOVE behind it: the MOVE is entered from `i`
      only, copies what was looked up to another register, and no one wants the first register
      afterwards. */
  ghost predicate Folds(g: Graph, i: nat) {
    && i < |g| && g[i].name in {GETGLOBAL, GETIMPORT, GETUPVAL, GETTABLE, GETTABLEKS, GETTABLEN}
    && |g[i].edges| == 1
    && var m := g[i].edges[0];
       m < |g| && g[m].name == MOVE && |g[m].edges| == 1 && SoleEdge(g, i, 0, m)
       && |g[i].operands| > 0 && g[i].operands[0].Write?
       && var source := g[i].operands[0].reg;
          |g[m].operands| == 2 && g[m].operands[0].Write? && g[m].operands[0].reg != source
          && g[m].operands[1] == Read(source) && !Wanted(g, g[m].edges[0], source)
  }

  /** The MOVE of a folded lookup. */
  ghost predicate Folded(g: Graph, m: nat) {
    exists i: nat :: Folds(g, i) && g[i].edges[0] == m
  }

  ghost predicate LeadsTo(g: Graph, t: nat, x: nat) {
    if Folded(g, t) && t < |g| then g[t].edges == [x] else x == t
  }

  ghost predicate FoldedNode(g: Graph, order: seq<nat>, merged: Graph, i: nat)
    requires i < |order| == |merged| && order[i] < |g|
  {
    var was, now := g[order[i]], merged[i];
    && now == was.(operands := now.operands, edges := now.edges)
    && now.operands == (if Folds(g, order[i]) then [g[was.edges[0]].operands[0]] + was.operands[1..] else was.operands)
    && |now.edges| == |was.edges|
    && forall e :: 0 <= e < |now.edges| ==> now.edges[e] < |order| && LeadsTo(g, was.edges[e], order[now.edges[e]])
  }

  /** The graph without the MOVEs of folded lookups, each such lookup writing where its MOVE wrote,
      numbered breadth first. */
  ghost predicate IsFolding(g: Graph, order: seq<nat>, merged: Graph) {
    && |merged| == |order| > 0 && order[0] == 0 && Unrepeated(order)
    && (forall i: nat :: i < |order| ==> order[i] < |g| && !Folded(g, order[i]) && FoldedNode(g, order, merged, i))
    && FirstUse(merged) && AllReachable(merged)
  }

  lemma {:induction false} SoleHits(g: Graph, s: nat, e: nat, n: nat, s': nat, k: nat)
    requires SoleEdge(g, s, e, n) && s' < |g| && k <= |g[s'].edges|
    ensures Hits(g, s', n, k) == if s' == s && e < k then [s] else []
  {
    if k > 0 {
      SoleHits(g, s, e, n, s', k - 1);
      assert g[s'].edges[k - 1] == n <==> IsEdge(g, s', k - 1, n);
    }
  }

  lemma {:induction false} SoleSources(g: Graph, s: nat, e: nat, n: nat, k: nat)
    requires SoleEdge(g, s, e, n) && k <= |g|
    ensures Sources(g, n, k) == if s < k then [s] else []
  {
    hide Hits;
    if k > 0 {
      SoleSources(g, s, e, n, k - 1);
      SoleHits(g, s, e, n, k - 1, |g[k - 1].edges|);
    }
  }

  /** A predecessor list with one entry is a sole edge. */
  lemma {:induction false} SoleEdgeIs(g: Graph, s: nat, e: nat, n: nat)
    requires IsEdge(g, s, e, n)
    ensures SoleEdge(g, s, e, n) <==> Sources(g, n, |g|) == [s]
  {
    if Sources(g, n, |g|) == [s] {
      forall s': nat, e': nat | IsEdge(g, s', e', n) ensures s' == s && e' == e { SoleSource(g, n, |g|, s, e, s', e'); }
    }
    if SoleEdge(g, s, e, n) { SoleSources(g, s, e, n, |g|); }
  }

  lemma {:induction false} OutOfMove(g: Graph, live: LiveMap, m: nat, r: Reg)
    requires IsLeastLive(g, live) && m < |g| && MoveShape(g[m]) && |g[m].edges| == 1
    ensures r in LiveAfter(g, live, m) <==> Wanted(g, g[m].edges[0], r)
  {
    LiveIsWanted(g, live);
    LiveAcrossIff(g, live, m, 1, r);
    MoveLists(g[m], 0);
    assert IsEdge(g, m, 0, g[m].edges[0]);
  }

  lemma {:induction false} FoldsIsMergeable(g: Graph, maxStack: nat, live: LiveMap, outgoing: LiveMap, i: nat)
    requires WellFormed(g, maxStack) && IsLeastLive(g, live) && i < |g|
    requires |outgoing| == |g| && forall n: nat :: n < |g| ==> outgoing[n] == LiveAfter(g, live, n)
    ensures Folds(g, i) <==> Mergeable(g, outgoing, i)
  {
    if |g[i].edges| == 1 && g[i].edges[0] < |g| && g[g[i].edges[0]].name == MOVE && |g[g[i].edges[0]].edges| == 1 {
      var m := g[i].edges[0];
      SoleEdgeIs(g, i, 0, m);
      assert MoveShape(g[m]);
      if |g[i].operands| > 0 && g[i].operands[0].Write? { OutOfMove(g, live, m, g[i].operands[0].reg); }
    }
  }

  /** What the coalescing loop and the relabelling produce is the folding. */
  lemma {:induction false} FoldingIs(g: Graph, maxStack: nat, live: LiveMap, outgoing: LiveMap, removed: set<nat>,
      order: seq<nat>, merged: Graph)
    requires Coalesced(g, maxStack, live, outgoing, removed, order, merged)
    requires FirstUse(merged) && AllReachable(merged)
    ensures IsFolding(g, order, merged) && forall m: nat :: m in removed <==> Folded(g, m)
  {
    forall i: nat | i < |g| ensures Folds(g, i) <==> Mergeable(g, outgoing, i) {
      FoldsIsMergeable(g, maxStack, live, outgoing, i);
    }
    forall m: nat ensures m in removed <==> Folded(g, m) {
      assert m in removed <==> IsRemovedMove(g, outgoing, m);
    }
    RemovedDetach(g, maxStack, outgoing, removed);
    forall i: nat | i < |order| ensures order[i] < |g| && !Folded(g, order[i]) && FoldedNode(g, order, merged, i) {
      FoldedNodeIs(g, maxStack, live, outgoing, removed, order, merged, i);
    }
  }

  lemma {:induction false} FoldedNodeIs(g: Graph, maxStack: nat, live: LiveMap, outgoing: LiveMap, removed: set<nat>,
      order: seq<nat>, merged: Graph, i: nat)
    requires Coalesced(g, maxStack, live, outgoing, removed, order, merged) && i < |order| && Detachable(g, removed)
    requires forall i: nat :: i < |g| ==> (Folds(g, i) <==> Mergeable(g, outgoing, i))
    requires forall m: nat :: m in removed <==> Folded(g, m)
    ensures order[i] < |g| && !Folded(g, order[i]) && FoldedNode(g, order, merged, i)
  {
    hide Folds, Mergeable, Folded, IsLeastLive, WellFormed, NoLiveKill;
    var nodes := Merged(g, outgoing);
    var n := order[i];
    assert Relabelled(nodes, removed, order, merged, i) && nodes[n] == MergedNode(g, outgoing, n);
    forall e | 0 <= e < |merged[i].edges|
      ensures merged[i].edges[e] < |order| && LeadsTo(g, g[n].edges[e], order[merged[i].edges[e]])
    {
      assert Names(nodes, removed, order, merged[i].edges[e], nodes[n].edges[e]);
      var t := g[n].edges[e];
      if t in removed { assert g[t].edges == [g[t].edges[0]] && nodes[t].edges == g[t].edges; }
    }
  }

  // ----- webs by chains -----

  /** The cell in which `r` leaves the node: what a lookup writes is a cell apart from what it reads. */
  ghost function LeftIn(g: Graph, n: nat, r: Reg): Cell
    requires n < |g|
  {
    if g[n].name in {GETGLOBAL, GETIMPORT, GETUPVAL, GETTABLE, GETTABLEKS, GETTABLEN} && Write(r) in g[n].operands
    then Result(n, r) else At(n, r)
  }

  /** A wanted register flows along an edge from the cell it left the source in. */
  ghost predicate FlowsInto(g: Graph, c: Cell, d: Cell) {
    && d.At? && d.node < |g| && Wanted(g, d.node, d.reg)
    && exists n: nat, e: nat :: IsEdge(g, n, e, d.node) && c == LeftIn(g, n, d.reg)
  }

  ghost predicate Touch(g: Graph, c: Cell, d: Cell) { FlowsInto(g, c, d) || FlowsInto(g, d, c) }

  ghost predicate WebChain(g: Graph, chain: seq<Cell>, c: Cell, d: Cell) {
    && |chain| > 0 && chain[0] == c && chain[|chain| - 1] == d
    && forall i: nat :: i + 1 < |chain| ==> Touch(g, chain[i], chain[i + 1])
  }

  ghost predicate OneWeb(g: Graph, c: Cell, d: Cell) { exists chain :: WebChain(g, chain, c, d) }

  predicate IsSlot(g: Graph, n: nat, k: nat) { n < |g| && k < |g[n].operands| && !g[n].operands[k].Immediate? }

  ghost function CellAt(g: Graph, n: nat, k: nat): Cell
    requires IsSlot(g, n, k)
  {
    var op := g[n].operands[k];
    if op.Write? then LeftIn(g, n, op.reg) else At(n, op.reg)
  }

  ghost predicate SameKind<R, S>(op: Operand<R>, out: Operand<S>) {
    match op
    case Read(_) => out.Read?
    case Write(_) => out.Write?
    case EdgeWrite(e, _) => out.EdgeWrite? && out.edge == e
    case Immediate(d) => out == Immediate(d)
  }

  ghost predicate SameSkeleton(g: Graph, output: Certificate) {
    && |output| == |g|
    && forall n: nat :: n < |g| ==>
        && output[n] == Node(0, g[n].name, output[n].operands, g[n].edges, {}, map[], Preserve, map[], None)
        && |output[n].operands| == |g[n].operands|
        && forall k: nat :: k < |g[n].operands| ==> SameKind(g[n].operands[k], output[n].operands[k])
  }

  /** Two slots have one name exactly when their cells are in one web. */
  ghost predicate NamedByWeb(g: Graph, output: Certificate, n: nat, k: nat, m: nat, l: nat)
    requires SameSkeleton(g, output) && IsSlot(g, n, k) && IsSlot(g, m, l)
  {
    output[n].operands[k].reg == output[m].operands[l].reg <==> OneWeb(g, CellAt(g, n, k), CellAt(g, m, l))
  }

  /** A slot has a parameter's name exactly when its web is that of a parameter wanted at the root. */
  ghost predicate NamedByParameter(g: Graph, params: nat, output: Certificate, n: nat, k: nat, r: nat)
    requires SameSkeleton(g, output) && IsSlot(g, n, k)
  {
    output[n].operands[k].reg == Parameter(r) <==>
      r < params && Wanted(g, 0, r) && OneWeb(g, At(0, r), CellAt(g, n, k))
  }

  ghost predicate IsCertificate(g: Graph, params: nat, output: Certificate) {
    && SameSkeleton(g, output)
    && (forall n: nat, k: nat, m: nat, l: nat ::
          IsSlot(g, n, k) && IsSlot(g, m, l) ==> NamedByWeb(g, output, n, k, m, l))
    && (forall n: nat, k: nat, r: nat :: IsSlot(g, n, k) ==> NamedByParameter(g, params, output, n, k, r))
    && FirstNames(output)
  }

  lemma {:induction false} CellsAgree(g: Graph, n: nat, r: Reg)
    requires n < |g|
    ensures LeftIn(g, n, r) == AfterCell(g, n, r)
  {
    ListsAreOperands(g[n].operands, 0, r);
  }

  lemma {:induction false} LinkedIsOneWeb(g: Graph, live: LiveMap, pairs: Pairs, c: Cell, d: Cell)
    requires IsLeastLive(g, live) && forall p :: p in pairs <==> Flows(g, live, p)
    ensures Linked(pairs, c, d) <==> OneWeb(g, c, d)
  {
    forall a, b ensures (a, b) in pairs <==> FlowsInto(g, a, b) {
      LiveIsWanted(g, live);
      forall n: nat | n < |g| ensures LeftIn(g, n, b.reg) == AfterCell(g, n, b.reg) { CellsAgree(g, n, b.reg); }
      assert (a, b) in pairs <==> Flows(g, live, (a, b));
    }
    hide FlowsInto, Flows, IsLeastLive;
    if Linked(pairs, c, d) {
      var chain :| ChainFrom(pairs, chain, c, d);
      forall i: nat | i + 1 < |chain| ensures Touch(g, chain[i], chain[i + 1]) {
        assert Adjacent(pairs, chain[i], chain[i + 1]);
      }
      assert WebChain(g, chain, c, d);
    }
    if OneWeb(g, c, d) {
      var chain :| WebChain(g, chain, c, d);
      forall i: nat | i + 1 < |chain| ensures Adjacent(pairs, chain[i], chain[i + 1]) {
        assert Touch(g, chain[i], chain[i + 1]);
      }
      assert ChainFrom(pairs, chain, c, d);
    }
  }

  lemma {:induction false} SlotName(g: Graph, live: LiveMap, params: nat, root: map<Cell, Cell>,
      names: map<Cell, Name>, output: Certificate, n: nat, k: nat)
    requires |live| == |g| > 0 && IsRenaming(g, live, params, root, names, output) && IsSlot(g, n, k)
    ensures |output| == |g| && |output[n].operands| == |g[n].operands| && !output[n].operands[k].Immediate?
    ensures Named(root, names, CellAt(g, n, k))
    ensures output[n].operands[k].reg == names[RepOf(root, CellAt(g, n, k))]
  {
    assert RenamedNode(g, n, root, names, output[n]);
    assert OperandDone(g, n, root, names, k, output[n].operands[k]);
    CellsAgree(g, n, g[n].operands[k].reg);
  }

  /** What the renaming returns is the certificate. */
  lemma {:induction false} CertificateIs(g: Graph, live: LiveMap, params: nat, root: map<Cell, Cell>, pairs: Pairs,
      names: map<Cell, Name>, output: Certificate)
    requires |g| > 0 && IsLeastLive(g, live) && IsRenaming(g, live, params, root, names, output) && FirstNames(output)
    requires ClassesAre(pairs, root) && forall p :: p in pairs <==> Flows(g, live, p)
    ensures IsCertificate(g, params, output)
  {
    assert |live| == |g|;
    hide FirstNames, IsLeastLive;
    assert SameSkeleton(g, output) by { SkeletonIs(g, live, params, root, names, output); }
    forall n: nat, k: nat, m: nat, l: nat | IsSlot(g, n, k) && IsSlot(g, m, l)
      ensures NamedByWeb(g, output, n, k, m, l)
    {
      SlotName(g, live, params, root, names, output, n, k);
      SlotName(g, live, params, root, names, output, m, l);
      LinkedIsOneWeb(g, live, pairs, CellAt(g, n, k), CellAt(g, m, l));
    }
    forall n: nat, k: nat, r: nat | IsSlot(g, n, k) ensures NamedByParameter(g, params, output, n, k, r) {
      SlotName(g, live, params, root, names, output, n, k);
      ParameterSlot(g, live, params, root, pairs, names, output, CellAt(g, n, k), r);
    }
  }

  lemma {:induction false} SkeletonIs(g: Graph, live: LiveMap, params: nat, root: map<Cell, Cell>,
      names: map<Cell, Name>, output: Certificate)
    requires |live| == |g| > 0 && IsRenaming(g, live, params, root, names, output)
    ensures SameSkeleton(g, output)
  {
    forall n: nat | n < |g|
      ensures output[n] == Node(0, g[n].name, output[n].operands, g[n].edges, {}, map[], Preserve, map[], None)
      ensures |output[n].operands| == |g[n].operands|
      ensures forall k: nat :: k < |g[n].operands| ==> SameKind(g[n].operands[k], output[n].operands[k])
    {
      assert RenamedNode(g, n, root, names, output[n]);
      assert forall k: nat :: k < |g[n].operands| ==> OperandDone(g, n, root, names, k, output[n].operands[k]);
    }
  }

  lemma {:induction false} ParameterSlot(g: Graph, live: LiveMap, params: nat, root: map<Cell, Cell>, pairs: Pairs,
      names: map<Cell, Name>, output: Certificate, c: Cell, r: nat)
    requires |g| > 0 && IsLeastLive(g, live) && IsRenaming(g, live, params, root, names, output)
    requires ClassesAre(pairs, root) && forall p :: p in pairs <==> Flows(g, live, p)
    requires Named(root, names, c)
    ensures names[RepOf(root, c)] == Parameter(r) <==> r < params && Wanted(g, 0, r) && OneWeb(g, At(0, r), c)
  {
    LiveIsWanted(g, live);
    LinkedIsOneWeb(g, live, pairs, At(0, r), c);
    if names[RepOf(root, c)] == Parameter(r) { assert OwnParameter(root, live[0], params, RepOf(root, c), r); }
  }

  /** The certificate of `g` is that of its folding. */
  ghost predicate Certifies(g: Graph, params: nat, output: Certificate) {
    exists order, merged :: IsFolding(g, order, merged) && IsCertificate(merged, params, output)
  }

  // ----- one certificate, and which graphs share it -----

  /** Two slots are in one web on both sides or on neither. */
  ghost predicate WebsCorrespond(g: Graph, g': Graph, n: nat, k: nat, m: nat, l: nat)
    requires IsSlot(g, n, k) && IsSlot(g', n, k) && IsSlot(g, m, l) && IsSlot(g', m, l)
  {
    OneWeb(g, CellAt(g, n, k), CellAt(g, m, l)) <==> OneWeb(g', CellAt(g', n, k), CellAt(g', m, l))
  }

  /** A slot belongs to a wanted parameter on both sides or on neither. */
  ghost predicate ParametersCorrespond(g: Graph, g': Graph, n: nat, k: nat, r: nat)
    requires |g| > 0 && IsSlot(g, n, k) && IsSlot(g', n, k)
  {
    (Wanted(g, 0, r) && OneWeb(g, At(0, r), CellAt(g, n, k))) <==>
      (Wanted(g', 0, r) && OneWeb(g', At(0, r), CellAt(g', n, k)))
  }

  ghost predicate SameShape(g: Graph, g': Graph) {
    && |g| == |g'|
    && forall n: nat :: n < |g| ==>
        && g[n].name == g'[n].name && g[n].edges == g'[n].edges && |g[n].operands| == |g'[n].operands|
        && forall k: nat :: k < |g[n].operands| ==> SameKind(g[n].operands[k], g'[n].operands[k])
  }

  lemma {:induction false} SameSlots(g: Graph, g': Graph, n: nat, k: nat)
    requires SameShape(g, g')
    ensures IsSlot(g, n, k) <==> IsSlot(g', n, k)
  {
    if n < |g| && k < |g[n].operands| { assert SameKind(g[n].operands[k], g'[n].operands[k]); }
  }

  ghost predicate SameWebs(g: Graph, g': Graph, params: nat) {
    && SameShape(g, g') && |g| > 0
    && (forall n: nat, k: nat, m: nat, l: nat ::
          IsSlot(g, n, k) && IsSlot(g', n, k) && IsSlot(g, m, l) && IsSlot(g', m, l) ==>
            WebsCorrespond(g, g', n, k, m, l))
    && (forall n: nat, k: nat, r: nat ::
          IsSlot(g, n, k) && IsSlot(g', n, k) && r < params ==> ParametersCorrespond(g, g', n, k, r))
  }

  /** The slots before a slot, node by node and operand by operand. */
  predicate Before(m: nat, l: nat, n: nat, k: nat) { m < n || (m == n && l < k) }

  ghost predicate AgreeBefore(output: Certificate, output': Certificate, n: nat, k: nat) {
    forall m: nat, l: nat, name :: Before(m, l, n, k) ==> (IsName(output, m, l, name) <==> IsName(output', m, l, name))
  }

  lemma {:induction false} SlotIsName(g: Graph, output: Certificate, n: nat, k: nat)
    requires SameSkeleton(g, output)
    ensures IsSlot(g, n, k) ==>
      n < |output| && k < |output[n].operands| && !output[n].operands[k].Immediate? &&
      IsName(output, n, k, output[n].operands[k].reg)
    ensures forall name :: IsName(output, n, k, name) ==> IsSlot(g, n, k) && output[n].operands[k].reg == name
  {
    if n < |g| && k < |g[n].operands| { assert SameKind(g[n].operands[k], output[n].operands[k]); }
  }

  /** The name of a web that occurs in no earlier slot occurs in no earlier slot. */
  lemma {:induction false} FreshSlot(g: Graph, params: nat, output: Certificate, n: nat, k: nat)
    requires IsCertificate(g, params, output) && IsSlot(g, n, k) && !output[n].operands[k].Immediate?
    requires forall m: nat, l: nat ::
        Before(m, l, n, k) && IsSlot(g, m, l) ==> !OneWeb(g, CellAt(g, m, l), CellAt(g, n, k))
    ensures !NamedBefore(output, n, k, output[n].operands[k].reg)
  {
    var name := output[n].operands[k].reg;
    forall m: nat, l: nat | m < n || (m == n && l < k) ensures !IsName(output, m, l, name) {
      SlotIsName(g, output, m, l);
      assert Before(m, l, n, k);
      if IsSlot(g, m, l) { assert NamedByWeb(g, output, m, l, n, k); }
    }
  }

  /** A temporary that is new at a slot is the first one not used before it. */
  lemma {:induction false} FirstNew(output: Certificate, output': Certificate, n: nat, k: nat, t: nat, t': nat)
    requires FirstNames(output') && AgreeBefore(output, output', n, k)
    requires IsName(output', n, k, Temporary(t')) && !NamedBefore(output, n, k, Temporary(t))
    ensures t' <= t
  {
    if t < t' {
      forall m: nat, l: nat | m < n || (m == n && l < k) ensures !IsName(output', m, l, Temporary(t)) {
        assert Before(m, l, n, k);
        assert !IsName(output, m, l, Temporary(t));
      }
    }
  }

  lemma {:induction false} SameParameter(g: Graph, g': Graph, params: nat, output: Certificate, output': Certificate,
      n: nat, k: nat, r: nat)
    requires IsCertificate(g, params, output) && IsCertificate(g', params, output') && SameWebs(g, g', params)
    requires IsSlot(g, n, k) && IsSlot(g', n, k)
    ensures output[n].operands[k].Immediate? || output'[n].operands[k].Immediate? ||
      (output[n].operands[k].reg == Parameter(r) <==> output'[n].operands[k].reg == Parameter(r))
  {
    SlotIsName(g, output, n, k);
    SlotIsName(g', output', n, k);
    assert NamedByParameter(g, params, output, n, k, r) && NamedByParameter(g', params, output', n, k, r);
    if r < params { assert ParametersCorrespond(g, g', n, k, r); }
  }

  lemma {:induction false} SlotsAgree(g: Graph, g': Graph, params: nat, output: Certificate, output': Certificate,
      n: nat, k: nat)
    requires IsCertificate(g, params, output) && IsCertificate(g', params, output') && SameWebs(g, g', params)
    requires IsSlot(g, n, k) && AgreeBefore(output, output', n, k)
    ensures forall name :: IsName(output, n, k, name) <==> IsName(output', n, k, name)
  {
    hide AgreeBefore, FirstNames, SameShape, WebsCorrespond;
    SameSlots(g, g', n, k);
    SlotIsName(g, output, n, k);
    SlotIsName(g', output', n, k);
    var x, x' := output[n].operands[k].reg, output'[n].operands[k].reg;
    if x.Parameter? {
      SameParameter(g, g', params, output, output', n, k, x.index);
    } else if x'.Parameter? {
      SameParameter(g, g', params, output, output', n, k, x'.index);
    } else if m: nat, l: nat :| Before(m, l, n, k) && IsSlot(g, m, l) && OneWeb(g, CellAt(g, m, l), CellAt(g, n, k)) {
      EarlierSlot(g, g', params, output, output', n, k, m, l);
    } else {
      NoEarlierSlot(g, g', params, n, k);
      FreshSlot(g, params, output, n, k);
      FreshSlot(g', params, output', n, k);
      FirstNew(output, output', n, k, x.index, x'.index);
      AgreeSymmetric(output, output', n, k);
      FirstNew(output', output, n, k, x'.index, x.index);
    }
  }

  lemma {:induction false} AgreeSymmetric(output: Certificate, output': Certificate, n: nat, k: nat)
    requires AgreeBefore(output, output', n, k)
    ensures AgreeBefore(output', output, n, k)
  {
  }

  lemma {:induction false} EarlierSlot(g: Graph, g': Graph, params: nat, output: Certificate, output': Certificate,
      n: nat, k: nat, m: nat, l: nat)
    requires IsCertificate(g, params, output) && IsCertificate(g', params, output') && SameWebs(g, g', params)
    requires IsSlot(g, n, k) && AgreeBefore(output, output', n, k) && Before(m, l, n, k) && IsSlot(g, m, l)
    requires OneWeb(g, CellAt(g, m, l), CellAt(g, n, k))
    ensures forall name :: IsName(output, n, k, name) <==> IsName(output', n, k, name)
  {
    SameSlots(g, g', n, k);
    SameSlots(g, g', m, l);
    assert WebsCorrespond(g, g', m, l, n, k);
    SlotIsName(g, output, n, k);
    SlotIsName(g', output', n, k);
    SlotIsName(g, output, m, l);
    SlotIsName(g', output', m, l);
    assert NamedByWeb(g, output, m, l, n, k) && NamedByWeb(g', output', m, l, n, k);
    assert IsName(output', m, l, output[m].operands[l].reg);
  }

  lemma {:induction false} NoEarlierSlot(g: Graph, g': Graph, params: nat, n: nat, k: nat)
    requires SameWebs(g, g', params) && IsSlot(g, n, k) && IsSlot(g', n, k)
    requires forall m: nat, l: nat ::
        Before(m, l, n, k) && IsSlot(g, m, l) ==> !OneWeb(g, CellAt(g, m, l), CellAt(g, n, k))
    ensures forall m: nat, l: nat ::
        Before(m, l, n, k) && IsSlot(g', m, l) ==> !OneWeb(g', CellAt(g', m, l), CellAt(g', n, k))
  {
    forall m: nat, l: nat | Before(m, l, n, k) && IsSlot(g', m, l)
      ensures !OneWeb(g', CellAt(g', m, l), CellAt(g', n, k))
    {
      SameSlots(g, g', m, l);
      assert WebsCorrespond(g, g', m, l, n, k);
    }
  }

  lemma {:induction false} AllAgree(g: Graph, g': Graph, params: nat, output: Certificate, output': Certificate,
      n: nat, k: nat)
    requires IsCertificate(g, params, output) && IsCertificate(g', params, output') && SameWebs(g, g', params)
    ensures AgreeBefore(output, output', n, k)
    decreases n, k
  {
    if k > 0 {
      AllAgree(g, g', params, output, output', n, k - 1);
      SlotIsName(g, output, n, k - 1);
      SlotIsName(g', output', n, k - 1);
      SameSlots(g, g', n, k - 1);
      if IsSlot(g, n, k - 1) { SlotsAgree(g, g', params, output, output', n, k - 1); }
      assert forall m: nat, l: nat :: Before(m, l, n, k) ==> Before(m, l, n, k - 1) || (m == n && l == k - 1);
    } else if n > 0 {
      var all := if n - 1 < |output| then |output[n - 1].operands| else 0;
      AllAgree(g, g', params, output, output', n - 1, all);
      forall m: nat, l: nat, name | Before(m, l, n, 0)
        ensures IsName(output, m, l, name) <==> IsName(output', m, l, name)
      {
        SlotIsName(g, output, m, l);
        SlotIsName(g', output', m, l);
        SameSlots(g, g', m, l);
        if IsSlot(g, m, l) { assert Before(m, l, n - 1, all); }
      }
    }
  }

  /** The certificate is a function of the skeleton and the webs: graphs with the same opcodes,
      immediates and edges, whose slots fall into corresponding webs, with each parameter in its
      place, get the same certificate. */
  lemma {:induction false} SameWebsSameCertificate(g: Graph, g': Graph, params: nat, output: Certificate,
      output': Certificate)
    requires IsCertificate(g, params, output) && IsCertificate(g', params, output') && SameWebs(g, g', params)
    ensures output == output'
  {
    AllAgree(g, g', params, output, output', |g|, 0);
    forall n: nat | n < |g| ensures output[n] == output'[n] {
      forall k: nat | k < |output[n].operands| ensures output[n].operands[k] == output'[n].operands[k] {
        SlotIsName(g, output, n, k);
        SlotIsName(g', output', n, k);
        SameSlots(g, g', n, k);
        assert SameKind(g[n].operands[k], g'[n].operands[k]) && Before(n, k, |g|, 0);
        assert SameKind(g[n].operands[k], output[n].operands[k]) && SameKind(g'[n].operands[k], output'[n].operands[k]);
      }
      assert output[n].operands == output'[n].operands;
    }
  }
}
