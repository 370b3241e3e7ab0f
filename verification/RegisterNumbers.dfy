/** The private-storage certificate does not depend on the numbers of the registers: renaming them,
    with the parameters left in place, changes nothing. */
module RegisterNumbers {
  import opened Sequences
  import opened RegisterGraph
  import opened Relabelling
  import opened Webs
  import opened Renaming
  import opened CopyCertificates

  ghost predicate MovedOperand(rho: Reg -> Reg, op: Operand<Reg>, op': Operand<Reg>) {
    match op
    case Read(r) => op' == Read(rho(r))
    case Write(r) => op' == Write(rho(r))
    case EdgeWrite(e, r) => op' == EdgeWrite(e, rho(r))
    case Immediate(d) => op' == Immediate(d)
  }

  ghost predicate Forgets(n: Node<Reg>, e: nat, r: Reg) { e in n.edgeKills && r in n.edgeKills[e] }

  /** The same instruction on registers renamed by `rho`. */
  ghost predicate MovedNode(rho: Reg -> Reg, n: Node<Reg>, n': Node<Reg>) {
    && n.name == n'.name && n.edges == n'.edges && |n.operands| == |n'.operands|
    && (forall k: nat :: k < |n.operands| ==> MovedOperand(rho, n.operands[k], n'.operands[k]))
    && (forall r :: r in n.kills <==> rho(r) in n'.kills)
    && (forall e: nat, r :: Forgets(n, e, r) <==> Forgets(n', e, rho(r)))
  }

  ghost predicate OneToOne(rho: Reg -> Reg) { forall a, b :: rho(a) == rho(b) ==> a == b }

  /** `g'` is `g` on other registers; the parameters stay where they are. */
  ghost predicate Renumbers(rho: Reg -> Reg, g: Graph, g': Graph, params: nat) {
    && OneToOne(rho) && (forall r: nat :: r < params ==> rho(r) == r)
    && |g| == |g'| && forall n: nat :: n < |g| ==> MovedNode(rho, g[n], g'[n])
  }

  lemma {:induction false} OperandsMove(rho: Reg -> Reg, n: Node<Reg>, n': Node<Reg>, e: nat, r: Reg)
    requires OneToOne(rho) && MovedNode(rho, n, n')
    ensures Read(r) in n.operands <==> Read(rho(r)) in n'.operands
    ensures Write(r) in n.operands <==> Write(rho(r)) in n'.operands
    ensures Ends(n, e, r) <==> Ends(n', e, rho(r))
  {
    forall op: Operand<Reg>, op' | MovedOperand(rho, op, op') ensures op in n.operands <==> op' in n'.operands {
      if op in n.operands {
        var k: nat :| k < |n.operands| && n.operands[k] == op;
        assert MovedOperand(rho, n.operands[k], n'.operands[k]);
      }
      if op' in n'.operands {
        var k: nat :| k < |n'.operands| && n'.operands[k] == op';
        assert MovedOperand(rho, n.operands[k], n'.operands[k]);
      }
    }
    assert MovedOperand(rho, Read(r), Read(rho(r))) && MovedOperand(rho, Write(r), Write(rho(r)));
    assert MovedOperand(rho, EdgeWrite(e, r), EdgeWrite(e, rho(r)));
    assert Forgets(n, e, r) <==> Forgets(n', e, rho(r));
  }

  lemma {:induction false} WalkMoves(rho: Reg -> Reg, g: Graph, g': Graph, params: nat, n: nat, r: Reg, walk: seq<nat>)
    requires Renumbers(rho, g, g', params)
    ensures WantedBy(g, n, r, walk) <==> WantedBy(g', n, rho(r), walk)
    decreases |walk|
  {
    if n < |g| {
      assert MovedNode(rho, g[n], g'[n]);
      if walk == [] {
        OperandsMove(rho, g[n], g'[n], 0, r);
      } else if walk[0] < |g[n].edges| {
        OperandsMove(rho, g[n], g'[n], walk[0], r);
        WalkMoves(rho, g, g', params, g[n].edges[walk[0]], r, walk[1..]);
      }
    }
  }

  lemma {:induction false} WantedMoves(rho: Reg -> Reg, g: Graph, g': Graph, params: nat, n: nat, r: Reg)
    requires Renumbers(rho, g, g', params)
    ensures Wanted(g, n, r) <==> Wanted(g', n, rho(r))
  {
    forall walk ensures WantedBy(g, n, r, walk) <==> WantedBy(g', n, rho(r), walk) {
      WalkMoves(rho, g, g', params, n, r, walk);
    }
  }

  lemma {:induction false} EdgesMove(rho: Reg -> Reg, g: Graph, g': Graph, params: nat)
    requires Renumbers(rho, g, g', params)
    ensures forall s: nat, e: nat, n: nat :: IsEdge(g, s, e, n) <==> IsEdge(g', s, e, n)
  {
    forall s: nat, e: nat, n: nat ensures IsEdge(g, s, e, n) <==> IsEdge(g', s, e, n) {
      if s < |g| { assert MovedNode(rho, g[s], g'[s]); }
    }
  }

  lemma {:induction false} FoldsMoves(rho: Reg -> Reg, g: Graph, g': Graph, params: nat, i: nat)
    requires Renumbers(rho, g, g', params)
    ensures Folds(g, i) <==> Folds(g', i)
  {
    EdgesMove(rho, g, g', params);
    if i < |g| {
      assert MovedNode(rho, g[i], g'[i]);
      if |g[i].edges| == 1 && g[i].edges[0] < |g| && |g[i].operands| > 0 && |g[g[i].edges[0]].operands| == 2 {
        var m := g[i].edges[0];
        assert MovedNode(rho, g[m], g'[m]);
        assert MovedOperand(rho, g[i].operands[0], g'[i].operands[0]);
        assert MovedOperand(rho, g[m].operands[0], g'[m].operands[0]);
        assert MovedOperand(rho, g[m].operands[1], g'[m].operands[1]);
        if g[i].operands[0].Write? && |g[m].edges| == 1 {
          WantedMoves(rho, g, g', params, g[m].edges[0], g[i].operands[0].reg);
        }
      }
    }
  }

  /** The same edges, and the same MOVEs folded away. */
  ghost predicate SameLayout(g: Graph, g': Graph) {
    && |g| == |g'| && (forall n: nat :: n < |g| ==> g[n].edges == g'[n].edges)
    && forall m: nat :: Folded(g, m) <==> Folded(g', m)
  }

  lemma {:induction false} LayoutStays(rho: Reg -> Reg, g: Graph, g': Graph, params: nat)
    requires Renumbers(rho, g, g', params)
    ensures SameLayout(g, g')
  {
    forall i: nat ensures Folds(g, i) <==> Folds(g', i) { FoldsMoves(rho, g, g', params, i); }
    forall n: nat | n < |g| ensures g[n].edges == g'[n].edges { assert MovedNode(rho, g[n], g'[n]); }
    forall m: nat ensures Folded(g, m) <==> Folded(g', m) { FoldedAlike(g, g', m); }
  }

  lemma {:induction false} FoldedAlike(g: Graph, g': Graph, m: nat)
    requires |g| == |g'| && forall n: nat :: n < |g| ==> g[n].edges == g'[n].edges
    requires forall i: nat :: Folds(g, i) <==> Folds(g', i)
    ensures Folded(g, m) <==> Folded(g', m)
  {
    if Folded(g, m) {
      var i: nat :| Folds(g, i) && g[i].edges[0] == m;
      assert Folds(g', i);
    }
    if Folded(g', m) {
      var i: nat :| Folds(g', i) && g'[i].edges[0] == m;
      assert Folds(g, i);
    }
  }

  // ----- the breadth-first numbers -----

  /** Both foldings agree on the first `j` nodes. */
  ghost predicate SameUpTo(order: seq<nat>, order': seq<nat>, j: nat) {
    j <= |order| && j <= |order'| && forall i: nat :: i < j ==> order[i] == order'[i]
  }

  /** What edge `e` of node `i` means has a number on the other side too. */
  lemma {:induction false} OtherNumber(g: Graph, g': Graph, order: seq<nat>, merged: Graph, order': seq<nat>,
      merged': Graph, j: nat, i: nat, e: nat, t: nat)
    returns (t': nat)
    requires SameLayout(g, g') && IsFolding(g, order, merged) && IsFolding(g', order', merged')
    requires SameUpTo(order, order', j) && i < j && IsEdge(merged, i, e, t)
    ensures IsEdge(merged', i, e, t') && t < |order| && t' < |order'| && order[t] == order'[t']
  {
    hide Folded, Folds, FirstUse, AllReachable;
    var n := order[i];
    assert FoldedNode(g, order, merged, i) && FoldedNode(g', order', merged', i);
    t' := merged'[i].edges[e];
    var target := g[n].edges[e];
    assert LeadsTo(g, target, order[t]) && LeadsTo(g', target, order'[t']);
    if Folded(g, target) && target < |g| { assert [order[t]][0] == [order'[t']][0]; }
  }

  lemma {:induction false} NumberOnce(order: seq<nat>, order': seq<nat>, j: nat, t: nat, t': nat)
    requires Unrepeated(order) && SameUpTo(order, order', j) && t < |order| && t' < |order'| && order[t] == order'[t']
    requires t >= j
    ensures t' >= j
  {
  }

  lemma {:induction false} NextNumber(g: Graph, g': Graph, order: seq<nat>, merged: Graph, order': seq<nat>,
      merged': Graph, j: nat, i: nat, e: nat)
    requires SameLayout(g, g') && IsFolding(g, order, merged) && IsFolding(g', order', merged')
    requires SameUpTo(order, order', j) && 0 < j < |order| && i < j && IsEdge(merged, i, e, j)
    ensures SameUpTo(order, order', j + 1)
    decreases i, e
  {
    hide FoldedNode, Folded, AllReachable;
    var j' := OtherNumber(g, g', order, merged, order', merged', j, i, e, j);
    NumberOnce(order, order', j, j, j');
    if j < j' {
      assert UsedBefore(merged', i, e, j);
      var i2: nat, e2: nat :| (i2 < i || (i2 == i && e2 < e)) && IsEdge(merged', i2, e2, j);
      var j2 := OtherNumber(g', g, order', merged', order, merged, j, i2, e2, j);
      NumberOnce(order', order, j, j, j2);
      if j < j2 {
        assert UsedBefore(merged, i2, e2, j);
        var i3: nat, e3: nat :| (i3 < i2 || (i3 == i2 && e3 < e2)) && IsEdge(merged, i3, e3, j);
        NextNumber(g, g', order, merged, order', merged', j, i3, e3);
      }
    }
  }

  /** Some edge from below `j` leads to `j`. */
  lemma {:induction false} EnteredFromBelow(merged: Graph, j: nat, path: seq<nat>, n: nat) returns (i: nat, e: nat)
    requires FirstUse(merged) && 0 < j <= n && n < |merged| && PathTo(merged, path, n)
    ensures i < j && IsEdge(merged, i, e, j)
    decreases |path|
  {
    var before, last := path[..|path| - 1], path[|path| - 1];
    var at := EndOf(merged, before);
    assert IsEdge(merged, at, last, n);
    if at >= j {
      i, e := EnteredFromBelow(merged, j, before, at);
    } else if n == j {
      i, e := at, last;
    } else {
      assert UsedBefore(merged, at, last, j);
      i, e :| (i < at || (i == at && e < last)) && IsEdge(merged, i, e, j);
    }
  }

  lemma {:induction false} OrdersAgree(g: Graph, g': Graph, order: seq<nat>, merged: Graph, order': seq<nat>,
      merged': Graph, j: nat)
    requires SameLayout(g, g') && IsFolding(g, order, merged) && IsFolding(g', order', merged') && j <= |order|
    ensures SameUpTo(order, order', j)
  {
    hide FoldedNode, Folded;
    if j == 1 {
      assert order[0] == order'[0];
    } else if j > 1 {
      OrdersAgree(g, g', order, merged, order', merged', j - 1);
      assert Reachable(merged, j - 1);
      var path :| PathTo(merged, path, j - 1);
      var i, e := EnteredFromBelow(merged, j - 1, path, j - 1);
      NextNumber(g, g', order, merged, order', merged', j - 1, i, e);
    }
  }

  /** The folded graphs are numbered alike and again differ in their registers only. */
  lemma {:induction false} FoldingMoves(rho: Reg -> Reg, g: Graph, g': Graph, params: nat, order: seq<nat>,
      merged: Graph, order': seq<nat>, merged': Graph)
    requires Renumbers(rho, g, g', params) && IsFolding(g, order, merged) && IsFolding(g', order', merged')
    ensures order == order' && Renumbers(rho, merged, merged', params)
  {
    hide Folds, Folded, FirstUse, AllReachable;
    LayoutStays(rho, g, g', params);
    OrdersAgree(g, g', order, merged, order', merged', |order|);
    OrdersAgree(g', g, order', merged', order, merged, |order'|);
    assert order == order';
    forall i: nat | i < |merged| ensures MovedNode(rho, merged[i], merged'[i]) {
      FoldedNodeMoves(rho, g, g', params, order, merged, merged', i);
    }
  }

  /** The operands of a node of the folded graph. */
  ghost function FoldedOperands(g: Graph, n: nat): seq<Operand<Reg>>
    requires n < |g|
  {
    if Folds(g, n) then [g[g[n].edges[0]].operands[0]] + g[n].operands[1..] else g[n].operands
  }

  lemma {:induction false} FoldedOperandsMove(rho: Reg -> Reg, g: Graph, g': Graph, params: nat, n: nat)
    requires Renumbers(rho, g, g', params) && n < |g|
    ensures |FoldedOperands(g, n)| == |FoldedOperands(g', n)|
    ensures forall k: nat :: k < |FoldedOperands(g, n)| ==>
      MovedOperand(rho, FoldedOperands(g, n)[k], FoldedOperands(g', n)[k])
  {
    FoldsMoves(rho, g, g', params, n);
    assert MovedNode(rho, g[n], g'[n]);
    if Folds(g, n) {
      var m := g[n].edges[0];
      assert MovedNode(rho, g[m], g'[m]) && MovedOperand(rho, g[m].operands[0], g'[m].operands[0]);
    }
  }

  lemma {:induction false} FoldedEdgesMove(g: Graph, g': Graph, order: seq<nat>, merged: Graph, merged': Graph, i: nat)
    requires SameLayout(g, g') && i < |order|
    requires IsFolding(g, order, merged) && IsFolding(g', order, merged')
    ensures merged[i].edges == merged'[i].edges
  {
    hide Folds, Folded, FirstUse, AllReachable;
    assert FoldedNode(g, order, merged, i) && FoldedNode(g', order, merged', i);
    assert SameUpTo(order, order, |order|);
    forall e | 0 <= e < |merged[i].edges| ensures merged[i].edges[e] == merged'[i].edges[e] {
      assert IsEdge(merged, i, e, merged[i].edges[e]);
      var t := OtherNumber(g, g', order, merged, order, merged', |order|, i, e, merged[i].edges[e]);
    }
  }

  lemma {:induction false} FoldedNodeMoves(rho: Reg -> Reg, g: Graph, g': Graph, params: nat, order: seq<nat>,
      merged: Graph, merged': Graph, i: nat)
    requires Renumbers(rho, g, g', params) && SameLayout(g, g') && i < |order|
    requires IsFolding(g, order, merged) && IsFolding(g', order, merged')
    ensures MovedNode(rho, merged[i], merged'[i])
  {
    hide Folds, Folded, FirstUse, AllReachable, MovedOperand, SameLayout, LeadsTo;
    var n, now, now' := order[i], merged[i], merged'[i];
    assert FoldedNode(g, order, merged, i) && FoldedNode(g', order, merged', i) && MovedNode(rho, g[n], g'[n]);
    FoldedOperandsMove(rho, g, g', params, n);
    FoldedEdgesMove(g, g', order, merged, merged', i);
    assert now.operands == FoldedOperands(g, n) && now'.operands == FoldedOperands(g', n);
    forall e: nat, r ensures Forgets(now, e, r) <==> Forgets(now', e, rho(r)) {
      assert Forgets(g[n], e, r) <==> Forgets(g'[n], e, rho(r));
    }
  }

  // ----- the webs -----

  function MovedCell(rho: Reg -> Reg, c: Cell): Cell {
    match c case At(n, r) => At(n, rho(r)) case Result(n, r) => Result(n, rho(r))
  }

  lemma {:induction false} LeftInMoves(rho: Reg -> Reg, g: Graph, g': Graph, params: nat, n: nat, r: Reg)
    requires Renumbers(rho, g, g', params) && n < |g|
    ensures LeftIn(g', n, rho(r)) == MovedCell(rho, LeftIn(g, n, r))
  {
    assert MovedNode(rho, g[n], g'[n]);
    OperandsMove(rho, g[n], g'[n], 0, r);
  }

  lemma {:induction false} FlowMoves(rho: Reg -> Reg, g: Graph, g': Graph, params: nat, c: Cell, d: Cell)
    requires Renumbers(rho, g, g', params)
    ensures FlowsInto(g, c, d) <==> FlowsInto(g', MovedCell(rho, c), MovedCell(rho, d))
  {
    EdgesMove(rho, g, g', params);
    WantedMoves(rho, g, g', params, d.node, d.reg);
    forall n: nat | n < |g|
      ensures c == LeftIn(g, n, d.reg) <==> MovedCell(rho, c) == LeftIn(g', n, rho(d.reg))
    {
      LeftInMoves(rho, g, g', params, n, d.reg);
    }
  }

  lemma {:induction false} ChainKeepsRegister(g: Graph, chain: seq<Cell>, c: Cell, d: Cell, i: nat)
    requires WebChain(g, chain, c, d) && i < |chain|
    ensures chain[i].reg == c.reg
  {
    if i > 0 {
      ChainKeepsRegister(g, chain, c, d, i - 1);
      assert Touch(g, chain[i - 1], chain[i - 1 + 1]);
    }
  }

  lemma {:induction false} WebsMove(rho: Reg -> Reg, g: Graph, g': Graph, params: nat, c: Cell, d: Cell)
    requires Renumbers(rho, g, g', params)
    ensures OneWeb(g, c, d) <==> OneWeb(g', MovedCell(rho, c), MovedCell(rho, d))
  {
    hide FlowsInto;
    forall a, b ensures Touch(g, a, b) <==> Touch(g', MovedCell(rho, a), MovedCell(rho, b)) {
      FlowMoves(rho, g, g', params, a, b);
      FlowMoves(rho, g, g', params, b, a);
    }
    if OneWeb(g, c, d) {
      var chain :| WebChain(g, chain, c, d);
      var moved := seq(|chain|, i requires 0 <= i < |chain| => MovedCell(rho, chain[i]));
      forall i: nat | i + 1 < |moved| ensures Touch(g', moved[i], moved[i + 1]) {
        assert Touch(g, chain[i], chain[i + 1]);
      }
      assert WebChain(g', moved, MovedCell(rho, c), MovedCell(rho, d));
    }
    if OneWeb(g', MovedCell(rho, c), MovedCell(rho, d)) {
      var moved: seq<Cell> :| WebChain(g', moved, MovedCell(rho, c), MovedCell(rho, d));
      var chain := seq(|moved|, i requires 0 <= i < |moved| =>
        if moved[i].At? then At(moved[i].node, c.reg) else Result(moved[i].node, c.reg));
      forall i | 0 <= i < |moved| ensures MovedCell(rho, chain[i]) == moved[i] {
        ChainKeepsRegister(g', moved, MovedCell(rho, c), MovedCell(rho, d), i);
      }
      forall i: nat | i + 1 < |chain| ensures Touch(g, chain[i], chain[i + 1]) {
        assert Touch(g', moved[i], moved[i + 1]);
      }
      assert WebChain(g, chain, c, d);
    }
  }

  lemma {:induction false} CellsMove(rho: Reg -> Reg, g: Graph, g': Graph, params: nat, n: nat, k: nat)
    requires Renumbers(rho, g, g', params) && IsSlot(g, n, k)
    ensures IsSlot(g', n, k) && CellAt(g', n, k) == MovedCell(rho, CellAt(g, n, k))
  {
    assert MovedNode(rho, g[n], g'[n]) && MovedOperand(rho, g[n].operands[k], g'[n].operands[k]);
    LeftInMoves(rho, g, g', params, n, g[n].operands[k].reg);
  }

  lemma {:induction false} WebsCorrespondAlways(rho: Reg -> Reg, g: Graph, g': Graph, params: nat)
    requires Renumbers(rho, g, g', params) && |g| > 0
    ensures SameWebs(g, g', params)
  {
    forall n: nat | n < |g|
      ensures g[n].name == g'[n].name && g[n].edges == g'[n].edges && |g[n].operands| == |g'[n].operands|
      ensures forall k: nat :: k < |g[n].operands| ==> SameKind(g[n].operands[k], g'[n].operands[k])
    {
      assert MovedNode(rho, g[n], g'[n]);
      forall k: nat | k < |g[n].operands| ensures SameKind(g[n].operands[k], g'[n].operands[k]) {
        assert MovedOperand(rho, g[n].operands[k], g'[n].operands[k]);
      }
    }
    hide Wanted, OneWeb, MovedNode;
    forall n: nat, k: nat, m: nat, l: nat | IsSlot(g, n, k) && IsSlot(g', n, k) && IsSlot(g, m, l) && IsSlot(g', m, l)
      ensures WebsCorrespond(g, g', n, k, m, l)
    {
      CellsMove(rho, g, g', params, n, k);
      CellsMove(rho, g, g', params, m, l);
      WebsMove(rho, g, g', params, CellAt(g, n, k), CellAt(g, m, l));
    }
    forall n: nat, k: nat, r: nat | IsSlot(g, n, k) && IsSlot(g', n, k) && r < params
      ensures ParametersCorrespond(g, g', n, k, r)
    {
      CellsMove(rho, g, g', params, n, k);
      WantedMoves(rho, g, g', params, 0, r);
      WebsMove(rho, g, g', params, At(0, r), CellAt(g, n, k));
    }
  }

  /** Renaming the registers, parameters aside, leaves the certificate alone; and a graph has one. */
  lemma {:induction false} RegistersDoNotMatter(rho: Reg -> Reg, g: Graph, g': Graph, params: nat,
      output: Certificate, output': Certificate)
    requires Renumbers(rho, g, g', params) && Certifies(g, params, output) && Certifies(g', params, output')
    ensures output == output'
  {
    var order, merged :| IsFolding(g, order, merged) && IsCertificate(merged, params, output);
    var order', merged' :| IsFolding(g', order', merged') && IsCertificate(merged', params, output');
    FoldingMoves(rho, g, g', params, order, merged, order', merged');
    WebsCorrespondAlways(rho, merged, merged', params);
    SameWebsSameCertificate(merged, merged', params, output, output');
  }
}
