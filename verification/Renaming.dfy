/** Naming the live webs of a graph and rewriting every operand, and why the renamed graph
    runs in lockstep with the registers it came from. */
module Renaming {
  import opened Options
  import opened RegisterGraph
  import opened Worklist
  import opened Liveness
  import opened Webs

  datatype Name = Parameter(index: nat) | Temporary(index: nat)

  type Certificate = seq<Node<Name>>

  /** The cell in which `r` leaves node `n`. */
  function AfterCell(g: Graph, n: nat, r: Reg): Cell
    requires n < |g|
  {
    if IsLookup(g[n].name) && r in g[n].Writes() then Result(n, r) else At(n, r)
  }

  function OperandCell(g: Graph, n: nat, op: Operand<Reg>): Cell
    requires n < |g| && !op.Immediate?
  {
    if op.Write? then AfterCell(g, n, op.reg) else At(n, op.reg)
  }

  // ----- joining -----

  /** A register live into `t` is one web with the cell it left each predecessor in. */
  ghost predicate Flows(g: Graph, live: LiveMap, p: (Cell, Cell))
    requires |live| == |g|
  {
    p.1.At? && p.1.node < |g| && p.1.reg in live[p.1.node] &&
    exists n: nat, e: nat :: IsEdge(g, n, e, p.1.node) && p.0 == AfterCell(g, n, p.1.reg)
  }

  method JoinEdge(g: Graph, maxStack: nat, live: LiveMap, n: nat, e: nat, forest: Forest)
    requires |live| == |g| && n < |g| && e < |g[n].edges| && g[n].edges[e] < |g| && forest.Valid()
    requires live[g[n].edges[e]] <= UpTo(maxStack)
    modifies forest
    ensures forest.Valid()
    ensures forall p :: p in forest.joined <==>
      (p in old(forest.joined) || exists r ::
        r in live[g[n].edges[e]] && p == (AfterCell(g, n, r), At(g[n].edges[e], r)))
  {
    var t := g[n].edges[e];
    for r: nat := 0 to maxStack
      invariant forest.Valid()
      invariant forall p :: p in forest.joined <==>
        (p in old(forest.joined) || exists q: nat :: q < r && q in live[t] && p == (AfterCell(g, n, q), At(t, q)))
    {
      if r in live[t] { forest.Union(AfterCell(g, n, r), At(t, r)); }
    }
  }

  ghost predicate EdgeJoined(g: Graph, live: LiveMap, joined: Pairs, n: nat, e: nat)
    requires |live| == |g| && n < |g| && e < |g[n].edges| && g[n].edges[e] < |g|
  {
    forall r :: r in live[g[n].edges[e]] ==> (AfterCell(g, n, r), At(g[n].edges[e], r)) in joined
  }

  method JoinWebs(g: Graph, maxStack: nat, live: LiveMap) returns (forest: Forest)
    requires WellFormed(g, maxStack) && |live| == |g| && forall n :: 0 <= n < |g| ==> live[n] <= UpTo(maxStack)
    ensures fresh(forest) && forest.Valid()
    ensures forall p :: p in forest.joined ==> Flows(g, live, p)
    ensures forall n: nat, e: nat :: n < |g| && e < |g[n].edges| ==> EdgeJoined(g, live, forest.joined, n, e)
  {
    forest := new Forest();
    for n: nat := 0 to |g|
      invariant fresh(forest) && forest.Valid()
      invariant forall p :: p in forest.joined ==> Flows(g, live, p)
      invariant forall i: nat, f: nat :: i < n && f < |g[i].edges| ==> EdgeJoined(g, live, forest.joined, i, f)
    {
      for e: nat := 0 to |g[n].edges|
        invariant fresh(forest) && forest.Valid()
        invariant forall p :: p in forest.joined ==> Flows(g, live, p)
        invariant forall i: nat, f: nat ::
            (i < n && f < |g[i].edges|) || (i == n && f < e) ==> EdgeJoined(g, live, forest.joined, i, f)
      {
        ghost var was := forest.joined;
        JoinEdge(g, maxStack, live, n, e, forest);
        assert IsEdge(g, n, e, g[n].edges[e]);
        forall i: nat, f: nat | (i < n && f < |g[i].edges|) || (i == n && f < e)
          ensures EdgeJoined(g, live, forest.joined, i, f)
        {
          assert EdgeJoined(g, live, was, i, f);
        }
      }
    }
  }

  // ----- naming -----

  ghost predicate Injective(names: map<Cell, Name>) {
    forall c, d :: c in names && d in names && names[c] == names[d] ==> c == d
  }

  /** What holds of the names given so far. */
  ghost predicate Naming(root: map<Cell, Cell>, live: set<Reg>, params: nat, names: map<Cell, Name>, next: nat) {
    && Injective(names)
    && (forall c :: c in names ==> RepOf(root, c) == c)
    && (forall c :: c in names && names[c].Temporary? ==> names[c].index < next)
    && (forall r: nat ::
      r < params && r in live ==> RepOf(root, At(0, r)) in names && names[RepOf(root, At(0, r))] == Parameter(r))
    && (forall c :: c in names && names[c].Parameter? ==> OwnParameter(root, live, params, c, names[c].index))
  }

  /** The class of a parameter that is live at the root. */
  ghost predicate OwnParameter(root: map<Cell, Cell>, live: set<Reg>, params: nat, c: Cell, r: nat) {
    r < params && r in live && RepOf(root, At(0, r)) == c
  }

  predicate HasName(op: Operand<Name>, name: Name) { !op.Immediate? && op.reg == name }

  ghost predicate NameAmong(ops: seq<Operand<Name>>, k: nat, name: Name) {
    exists i: nat :: i < k && i < |ops| && HasName(ops[i], name)
  }

  /** Within one list of operands, temporaries from `next` on turn up in the order of their numbers. */
  ghost predicate InOrder(ops: seq<Operand<Name>>, next: nat) {
    forall i: nat, t: nat, u: nat ::
      i < |ops| && HasName(ops[i], Temporary(u)) && next <= t < u ==> NameAmong(ops, i, Temporary(t))
  }

  lemma {:induction false} InOrderStays(ops: seq<Operand<Name>>, op: Operand<Name>, next: nat, after: nat)
    requires InOrder(ops, next) && forall t: nat :: next <= t < after ==> NameAmong(ops, |ops|, Temporary(t))
    requires forall u: nat :: HasName(op, Temporary(u)) ==> u <= after
    ensures InOrder(ops + [op], next)
    ensures forall t: nat :: next <= t < after ==> NameAmong(ops + [op], |ops|, Temporary(t))
  {
    var more := ops + [op];
    forall i: nat, name | i <= |ops| && NameAmong(ops, i, name) ensures NameAmong(more, i, name) {
      var j: nat :| j < i && j < |ops| && HasName(ops[j], name);
      assert HasName(more[j], name);
    }
    forall i: nat, t: nat, u: nat | i < |more| && HasName(more[i], Temporary(u)) && next <= t < u
      ensures NameAmong(more, i, Temporary(t))
    {
      if i < |ops| { assert HasName(ops[i], Temporary(u)); }
    }
  }

  ghost predicate Extends(names: map<Cell, Name>, more: map<Cell, Name>) {
    forall c :: c in names ==> c in more && more[c] == names[c]
  }

  ghost predicate SameClasses(root: map<Cell, Cell>, root': map<Cell, Cell>) {
    forall c :: RepOf(root, c) == RepOf(root', c)
  }

  function NameOf(root: map<Cell, Cell>, names: map<Cell, Name>, c: Cell): Name {
    if RepOf(root, c) in names then names[RepOf(root, c)] else Temporary(0)
  }

  predicate Named(root: map<Cell, Cell>, names: map<Cell, Name>, c: Cell) { RepOf(root, c) in names }

  function RenamedOperand(g: Graph, n: nat, root: map<Cell, Cell>, names: map<Cell, Name>,
      op: Operand<Reg>): Operand<Name>
    requires n < |g|
  {
    match op
    case Read(r) => Read(NameOf(root, names, At(n, r)))
    case Write(r) => Write(NameOf(root, names, AfterCell(g, n, r)))
    case EdgeWrite(e, r) => EdgeWrite(e, NameOf(root, names, At(n, r)))
    case Immediate(d) => Immediate(d)
  }

  method NameCell(forest: Forest, names: map<Cell, Name>, next: nat, cell: Cell, ghost root: map<Cell, Cell>,
                  ghost live: set<Reg>, ghost params: nat)
    returns (name: Name, more: map<Cell, Name>, after: nat)
    requires forest.Valid() && SameClasses(forest.root, root) && Naming(root, live, params, names, next)
    modifies forest
    ensures forest.Valid() && SameClasses(forest.root, root) && Naming(root, live, params, more, after)
    ensures Extends(names, more) && Named(root, more, cell) && name == NameOf(root, more, cell)
    ensures after == next || (after == next + 1 && name == Temporary(next))
  {
    var found := forest.Find(cell);
    assert RepOf(forest.root, found) == found && RepOf(forest.root, cell) == found;
    more, after := names, next;
    if found !in more {
      more, after := more[found := Temporary(next)], next + 1;
    }
    name := more[found];
  }

  method RenameOperand(g: Graph, n: nat, op: Operand<Reg>, forest: Forest, names: map<Cell, Name>, next: nat,
                       ghost root: map<Cell, Cell>, ghost live: set<Reg>, ghost params: nat)
    returns (renamed: Operand<Name>, more: map<Cell, Name>, after: nat)
    requires n < |g| && forest.Valid() && SameClasses(forest.root, root) && Naming(root, live, params, names, next)
    modifies forest
    ensures forest.Valid() && SameClasses(forest.root, root) && Naming(root, live, params, more, after)
    ensures Extends(names, more) && (op.Immediate? || Named(root, more, OperandCell(g, n, op)))
    ensures renamed == RenamedOperand(g, n, root, more, op)
    ensures after == next || (after == next + 1 && HasName(renamed, Temporary(next)))
    ensures forall u: nat :: HasName(renamed, Temporary(u)) ==> u < after
  {
    if op.Immediate? { return Immediate(op.data), names, next; }
    var name;
    name, more, after := NameCell(forest, names, next, OperandCell(g, n, op), root, live, params);
    renamed := match op
      case Read(_) => Read(name) case Write(_) => Write(name) case EdgeWrite(e, _) => EdgeWrite(e, name);
  }

  /** A node with each operand replaced by the name of its cell.  The certificate keeps no
      pc and no facts, only opcode, operands and edges. */
  ghost predicate RenamedNode(g: Graph, n: nat, root: map<Cell, Cell>, names: map<Cell, Name>, out: Node<Name>)
    requires n < |g|
  {
    && out == Node(0, g[n].name, out.operands, g[n].edges, {}, map[], Preserve, map[], None)
    && |out.operands| == |g[n].operands|
    && forall k :: 0 <= k < |out.operands| ==> OperandDone(g, n, root, names, k, out.operands[k])
  }

  ghost predicate OperandDone(g: Graph, n: nat, root: map<Cell, Cell>, names: map<Cell, Name>, k: nat,
      out: Operand<Name>)
    requires n < |g| && k < |g[n].operands|
  {
    var op := g[n].operands[k];
    (op.Immediate? || Named(root, names, OperandCell(g, n, op))) && out == RenamedOperand(g, n, root, names, op)
  }

  lemma {:induction false} DoneStays(g: Graph, n: nat, root: map<Cell, Cell>, names: map<Cell, Name>,
      more: map<Cell, Name>, k: nat, out: Operand<Name>)
    requires n < |g| && k < |g[n].operands| && OperandDone(g, n, root, names, k, out) && Extends(names, more)
    ensures OperandDone(g, n, root, more, k, out)
  {
  }

  method RenameNode(g: Graph, n: nat, forest: Forest, names: map<Cell, Name>, next: nat,
                    ghost root: map<Cell, Cell>, ghost live: set<Reg>, ghost params: nat)
    returns (out: Node<Name>, more: map<Cell, Name>, after: nat)
    requires n < |g| && forest.Valid() && SameClasses(forest.root, root) && Naming(root, live, params, names, next)
    modifies forest
    ensures forest.Valid() && SameClasses(forest.root, root) && Naming(root, live, params, more, after)
    ensures Extends(names, more) && RenamedNode(g, n, root, more, out)
    ensures InOrder(out.operands, next) && after >= next
    ensures forall t: nat :: next <= t < after ==> NameAmong(out.operands, |out.operands|, Temporary(t))
  {
    var operands: seq<Operand<Name>> := [];
    more, after := names, next;
    for k: nat := 0 to |g[n].operands|
      invariant forest.Valid() && SameClasses(forest.root, root) && Naming(root, live, params, more, after)
      invariant Extends(names, more) && |operands| == k && after >= next && InOrder(operands, next)
      invariant forall t: nat :: next <= t < after ==> NameAmong(operands, k, Temporary(t))
      invariant forall i: nat :: i < k ==> OperandDone(g, n, root, more, i, operands[i])
    {
      ghost var was, reached := more, after;
      var renamed;
      renamed, more, after := RenameOperand(g, n, g[n].operands[k], forest, more, after, root, live, params);
      forall i: nat | i < k
        ensures OperandDone(g, n, root, more, i, operands[i])
      {
        DoneStays(g, n, root, was, more, i, operands[i]);
      }
      InOrderStays(operands, renamed, next, reached);
      assert HasName((operands + [renamed])[k], Temporary(reached)) || after == reached;
      operands := operands + [renamed];
    }
    out := Node(0, g[n].name, operands, g[n].edges, {}, map[], Preserve, map[], None);
  }

  ghost predicate ParametersOnly(names: map<Cell, Name>, params: nat) {
    forall c :: c in names ==> c.reg < params && names[c] == Parameter(c.reg)
  }

  lemma {:induction false} OneMoreParameter(root: map<Cell, Cell>, live: set<Reg>, r: nat, names: map<Cell, Name>,
      more: map<Cell, Name>, found: Cell)
    requires Naming(root, live, r, names, 0) && ParametersOnly(names, r)
    requires r in live ==>
      found == RepOf(root, At(0, r)) && RepOf(root, found) == found && found.reg == r &&
      more == names[found := Parameter(r)]
    requires r !in live ==> more == names
    ensures Naming(root, live, r + 1, more, 0) && ParametersOnly(more, r + 1)
  {
    forall c | c in more && more[c].Parameter? ensures OwnParameter(root, live, r + 1, c, more[c].index) {
      if c in names && more[c] == names[c] { assert OwnParameter(root, live, r, c, names[c].index); }
    }
    forall q: nat | q < r + 1 && q in live
      ensures RepOf(root, At(0, q)) in more && more[RepOf(root, At(0, q))] == Parameter(q)
    {
      if q < r { assert names[RepOf(root, At(0, q))] == Parameter(q); }
    }
  }

  /** Parameters that are live at the root keep their own names. */
  method NameParameters(forest: Forest, live: set<Reg>, params: nat, ghost root: map<Cell, Cell>)
    returns (names: map<Cell, Name>)
    requires forest.Valid() && SameClasses(forest.root, root) && KeepsRegisters(root)
    modifies forest
    ensures forest.Valid() && SameClasses(forest.root, root) && Naming(root, live, params, names, 0)
  {
    hide OwnParameter;
    names := map[];
    for r: nat := 0 to params
      invariant forest.Valid() && SameClasses(forest.root, root) && Naming(root, live, r, names, 0)
      invariant ParametersOnly(names, r)
    {
      hide Naming, ParametersOnly;
      ghost var was := names;
      ghost var found := At(0, r);
      if r in live {
        var rep := forest.Find(At(0, r));
        assert RepOf(forest.root, At(0, r)) == rep && RepOf(forest.root, rep) == rep;
        assert RepOf(root, rep) == RepOf(root, At(0, r));
        found, names := rep, names[rep := Parameter(r)];
      }
      OneMoreParameter(root, live, r, was, names, found);
    }
  }

  /** No class mixes two physical registers. */
  ghost predicate KeepsRegisters(root: map<Cell, Cell>) {
    forall c, d :: RepOf(root, c) == RepOf(root, d) ==> c.reg == d.reg
  }

  lemma {:induction false} ClassesKeepRegisters(g: Graph, live: LiveMap, pairs: Pairs, root: map<Cell, Cell>)
    requires |live| == |g| && ClassesAre(pairs, root) && forall p :: p in pairs ==> Flows(g, live, p)
    ensures KeepsRegisters(root)
  {
    forall c, d | RepOf(root, c) == RepOf(root, d) ensures c.reg == d.reg {
      assert Linked(pairs, c, d);
      var chain :| ChainFrom(pairs, chain, c, d);
      ChainSameRegister(pairs, chain);
    }
  }

  /** Some operand before operand `k` of node `n` has the name. */
  ghost predicate NamedBefore(output: Certificate, n: nat, k: nat, name: Name) {
    exists j: nat, i: nat :: (j < n || (j == n && i < k)) && IsName(output, j, i, name)
  }

  predicate IsName(output: Certificate, n: nat, k: nat, name: Name) {
    n < |output| && k < |output[n].operands| && HasName(output[n].operands[k], name)
  }

  /** Temporaries are numbered from 0 in the order in which they first occur, node by node and
      operand by operand. */
  ghost predicate FirstNames(output: Certificate) {
    forall n: nat, k: nat, u: nat, t: nat ::
      IsName(output, n, k, Temporary(u)) && t < u ==> NamedBefore(output, n, k, Temporary(t))
  }

  /** The temporaries below `next` have all occurred. */
  ghost predicate Spent(output: Certificate, next: nat) {
    forall t: nat :: t < next ==> NamedBefore(output, |output|, 0, Temporary(t))
  }

  lemma {:induction false} FirstNamesStay(output: Certificate, out: Node<Name>, next: nat, after: nat)
    requires FirstNames(output) && Spent(output, next) && InOrder(out.operands, next) && after >= next
    requires forall t: nat :: next <= t < after ==> NameAmong(out.operands, |out.operands|, Temporary(t))
    ensures FirstNames(output + [out]) && Spent(output + [out], after)
  {
    var more := output + [out];
    forall n: nat, k: nat, name | NamedBefore(output, n, k, name) ensures NamedBefore(more, n, k, name) {
      var j: nat, i: nat :| (j < n || (j == n && i < k)) && IsName(output, j, i, name);
      assert IsName(more, j, i, name);
    }
    forall k: nat, t: nat | t < next ensures NamedBefore(more, |output|, k, Temporary(t)) {
      assert NamedBefore(output, |output|, 0, Temporary(t));
      var j: nat, i: nat :| (j < |output| || (j == |output| && i < 0)) && IsName(output, j, i, Temporary(t));
      assert IsName(more, j, i, Temporary(t));
    }
    forall k: nat, name | NameAmong(out.operands, k, name) ensures NamedBefore(more, |output|, k, name) {
      var i: nat :| i < k && i < |out.operands| && HasName(out.operands[i], name);
      assert IsName(more, |output|, i, name);
    }
    forall n: nat, k: nat, u: nat, t: nat | IsName(more, n, k, Temporary(u)) && t < u
      ensures NamedBefore(more, n, k, Temporary(t))
    {
      if n < |output| { assert IsName(output, n, k, Temporary(u)); }
    }
    forall t: nat | t < after ensures NamedBefore(more, |more|, 0, Temporary(t)) {
      var k := if t < next then 0 else |out.operands|;
      assert NamedBefore(more, |output|, k, Temporary(t));
      var j: nat, i: nat :| (j < |output| || (j == |output| && i < k)) && IsName(more, j, i, Temporary(t));
    }
  }

  /** The whole result: names that keep registers apart, follow live registers along every
      edge, call the live parameters by their own names, and cover every operand. */
  ghost predicate IsRenaming(g: Graph, live: LiveMap, params: nat, root: map<Cell, Cell>, names: map<Cell, Name>,
                             output: Certificate)
    requires |live| == |g| > 0
  {
    && |output| == |g| && Injective(names) && KeepsRegisters(root)
    && (forall n: nat, e: nat, r :: n < |g| && e < |g[n].edges| && g[n].edges[e] < |g| && r in live[g[n].edges[e]] ==>
          RepOf(root, AfterCell(g, n, r)) == RepOf(root, At(g[n].edges[e], r)))
    && (forall r: nat ::
      r < params && r in live[0] ==> Named(root, names, At(0, r)) && NameOf(root, names, At(0, r)) == Parameter(r))
    && (forall c :: c in names && names[c].Parameter? ==> OwnParameter(root, live[0], params, c, names[c].index))
    && (forall n: nat :: n < |g| ==> RenamedNode(g, n, root, names, output[n]))
  }

  method RenameWebs(g: Graph, maxStack: nat, params: nat, live: LiveMap)
    returns (output: Certificate, names: map<Cell, Name>, ghost root: map<Cell, Cell>, ghost pairs: Pairs)
    requires WellFormed(g, maxStack) && |live| == |g| && forall n :: 0 <= n < |g| ==> live[n] <= UpTo(maxStack)
    ensures IsRenaming(g, live, params, root, names, output) && FirstNames(output)
    ensures ClassesAre(pairs, root) && forall p :: p in pairs <==> Flows(g, live, p)
  {
    var forest := JoinWebs(g, maxStack, live);
    root, pairs := forest.root, forest.joined;
    forall p | Flows(g, live, p) ensures p in pairs {
      var n: nat, e: nat :| IsEdge(g, n, e, p.1.node) && p.0 == AfterCell(g, n, p.1.reg);
      assert EdgeJoined(g, live, pairs, n, e);
    }
    ClassesKeepRegisters(g, live, forest.joined, root);
    forall n: nat, e: nat, r | n < |g| && e < |g[n].edges| && r in live[g[n].edges[e]]
      ensures RepOf(root, AfterCell(g, n, r)) == RepOf(root, At(g[n].edges[e], r))
    {
      assert EdgeJoined(g, live, forest.joined, n, e);
      PairLinked(forest.joined, AfterCell(g, n, r), At(g[n].edges[e], r));
    }
    names := NameParameters(forest, live[0], params, root);
    hide FirstNames, Spent, ClassesAre, Flows;
    var next: nat := 0;
    output := [];
    for n: nat := 0 to |g|
      invariant forest.Valid() && fresh(forest) && SameClasses(forest.root, root)
      invariant Naming(root, live[0], params, names, next)
      invariant |output| == n && forall i: nat :: i < n ==> RenamedNode(g, i, root, names, output[i])
      invariant FirstNames(output) && Spent(output, next)
    {
      ghost var was, reached := names, next;
      var out;
      out, names, next := RenameNode(g, n, forest, names, next, root, live[0], params);
      forall i: nat | i < n ensures RenamedNode(g, i, root, names, output[i]) {
        assert RenamedNode(g, i, root, was, output[i]);
        forall k: nat | k < |output[i].operands| ensures OperandDone(g, i, root, names, k, output[i].operands[k]) {
          DoneStays(g, i, root, was, names, k, output[i].operands[k]);
        }
      }
      FirstNamesStay(output, out, reached, next);
      output := output + [out];
    }
  }

  // ----- running the certificate -----

  /** Whatever is live at the node and has a named web is stored under that name. */
  ghost predicate StoredAs(root: map<Cell, Cell>, names: map<Cell, Name>, live: set<Reg>, n: nat,
                           regs: map<Reg, Value>, store: map<Name, Value>) {
    forall r :: r in live && Named(root, names, At(n, r)) ==>
      r in regs && NameOf(root, names, At(n, r)) in store && store[NameOf(root, names, At(n, r))] == regs[r]
  }

  ghost predicate Mirrors(root: map<Cell, Cell>, names: map<Cell, Name>, live: LiveMap, a: State<Reg>, b: State<Name>) {
    match (a, b)
    case (Running(n, regs, t), Running(n', store, t')) =>
      n == n' && n < |live| && t == t' && StoredAs(root, names, live[n], n, regs, store)
    case (Returned(t), Returned(t')) => t == t'
    case _ => false
  }

  /** Two cells share a name only when they hold the same register. */
  lemma {:induction false} NamesSeparate(root: map<Cell, Cell>, names: map<Cell, Name>, c: Cell, d: Cell)
    requires Injective(names) && KeepsRegisters(root) && Named(root, names, c) && Named(root, names, d)
    requires NameOf(root, names, c) == NameOf(root, names, d)
    ensures c.reg == d.reg
  {
  }

  ghost predicate RenamedOperands(g: Graph, n: nat, root: map<Cell, Cell>, names: map<Cell, Name>,
                                  ops: seq<Operand<Reg>>, out: seq<Operand<Name>>)
    requires n < |g|
  {
    |ops| == |out| && forall k :: 0 <= k < |ops| ==> out[k] == RenamedOperand(g, n, root, names, ops[k])
  }

  lemma {:induction false} RenamedReads(g: Graph, n: nat, root: map<Cell, Cell>, names: map<Cell, Name>,
                                        ops: seq<Operand<Reg>>, out: seq<Operand<Name>>)
    requires n < |g| && RenamedOperands(g, n, root, names, ops, out)
    ensures Immediates(out) == Immediates(ops)
    ensures var rs, rs' := ReadList(ops), ReadList(out);
            |rs'| == |rs| && forall i :: 0 <= i < |rs| ==> rs'[i] == NameOf(root, names, At(n, rs[i]))
  {
    if ops != [] { RenamedReads(g, n, root, names, ops[1..], out[1..]); }
  }

  lemma {:induction false} RenamedWrites(g: Graph, n: nat, root: map<Cell, Cell>, names: map<Cell, Name>,
                                         ops: seq<Operand<Reg>>, out: seq<Operand<Name>>)
    requires n < |g| && RenamedOperands(g, n, root, names, ops, out)
    ensures var ws, ws' := WriteList(ops), WriteList(out);
            |ws'| == |ws| && forall i :: 0 <= i < |ws| ==> ws'[i] == NameOf(root, names, AfterCell(g, n, ws[i]))
  {
    if ops != [] { RenamedWrites(g, n, root, names, ops[1..], out[1..]); }
  }

  lemma {:induction false} RenamedEdgeWrites(g: Graph, n: nat, root: map<Cell, Cell>, names: map<Cell, Name>,
                                             ops: seq<Operand<Reg>>, out: seq<Operand<Name>>, e: nat)
    requires n < |g| && RenamedOperands(g, n, root, names, ops, out)
    ensures var es, es' := EdgeWriteList(ops, e), EdgeWriteList(out, e);
            |es'| == |es| && forall i :: 0 <= i < |es| ==> es'[i] == NameOf(root, names, At(n, es[i]))
  {
    if ops != [] { RenamedEdgeWrites(g, n, root, names, ops[1..], out[1..], e); }
  }

  /** The operand lists of a renamed node are the renamed lists. */
  lemma {:induction false} RenamedLists(g: Graph, n: nat, root: map<Cell, Cell>, names: map<Cell, Name>,
      out: Node<Name>, e: nat)
    requires n < |g| && RenamedNode(g, n, root, names, out)
    ensures Immediates(out.operands) == Immediates(g[n].operands)
    ensures var rs, rs' := ReadList(g[n].operands), ReadList(out.operands);
            |rs'| == |rs| && forall i :: 0 <= i < |rs| ==> rs'[i] == NameOf(root, names, At(n, rs[i]))
    ensures var ws, ws' := WriteList(g[n].operands), WriteList(out.operands);
            |ws'| == |ws| && forall i :: 0 <= i < |ws| ==> ws'[i] == NameOf(root, names, AfterCell(g, n, ws[i]))
    ensures var es, es' := EdgeWriteList(g[n].operands, e), EdgeWriteList(out.operands, e);
            |es'| == |es| && forall i :: 0 <= i < |es| ==> es'[i] == NameOf(root, names, At(n, es[i]))
  {
    var ops := g[n].operands;
    forall k | 0 <= k < |ops| ensures out.operands[k] == RenamedOperand(g, n, root, names, ops[k]) {
      assert OperandDone(g, n, root, names, k, out.operands[k]);
    }
    RenamedReads(g, n, root, names, ops, out.operands);
    RenamedWrites(g, n, root, names, ops, out.operands);
    RenamedEdgeWrites(g, n, root, names, ops, out.operands, e);
  }

  lemma {:induction false} ListsInOperands(ops: seq<Operand<Reg>>, e: nat, r: Reg)
    ensures r in ReadList(ops) ==> Read(r) in ops
    ensures r in WriteList(ops) ==> Write(r) in ops
    ensures r in EdgeWriteList(ops, e) ==> EdgeWrite(e, r) in ops
  {
    if ops != [] { ListsInOperands(ops[1..], e, r); }
  }

  /** A list of writes leaves the same value in a register and in its name, when no two
      registers of the list share a name. */
  lemma {:induction false} WrittenRenamed(regs: seq<Reg>, names: seq<Name>, vs: seq<Value>, r: Reg, name: Name)
    requires |regs| == |names| && forall i :: 0 <= i < |regs| ==> (regs[i] == r <==> names[i] == name)
    ensures r in regs <==> name in names
    ensures r in regs ==> Written(names, vs, name) == Written(regs, vs, r)
  {
    if regs != [] { WrittenRenamed(regs[1..], names[1..], if vs == [] then [] else vs[1..], r, name); }
  }

  /** Every read, write and edge write of the node has a named cell. */
  lemma {:induction false} ListedCellsNamed(g: Graph, n: nat, root: map<Cell, Cell>, names: map<Cell, Name>,
      out: Node<Name>, e: nat, r: Reg)
    requires n < |g| && RenamedNode(g, n, root, names, out)
    ensures r in ReadList(g[n].operands) ==> Named(root, names, At(n, r))
    ensures r in WriteList(g[n].operands) ==> Named(root, names, AfterCell(g, n, r))
    ensures r in EdgeWriteList(g[n].operands, e) ==> Named(root, names, At(n, r))
  {
    var ops := g[n].operands;
    ListsInOperands(ops, e, r);
    forall op | op in ops ensures op.Immediate? || Named(root, names, OperandCell(g, n, op)) {
      var k :| 0 <= k < |ops| && ops[k] == op;
      assert OperandDone(g, n, root, names, k, out.operands[k]);
    }
    assert Read(r) in ops ==> Named(root, names, OperandCell(g, n, Read(r)));
    assert Write(r) in ops ==> Named(root, names, OperandCell(g, n, Write(r)));
    assert EdgeWrite(e, r) in ops ==> Named(root, names, OperandCell(g, n, EdgeWrite(e, r)));
  }

  /** Along an edge, a live register's value lands under the name its web has there. */
  lemma {:induction false} StoredAfter(g: Graph, maxStack: nat, params: nat, live: LiveMap, root: map<Cell, Cell>,
      names: map<Cell, Name>, output: Certificate, n: nat, e: nat, regs: map<Reg, Value>, store: map<Name, Value>,
      reply: Reply, r: Reg)
    requires WellFormed(g, maxStack) && IsLeastLive(g, live) && NoLiveKill(g, live)
    requires IsRenaming(g, live, params, root, names, output)
    requires n < |g| && e < |g[n].edges| && StoredAs(root, names, live[n], n, regs, store)
    requires r in live[g[n].edges[e]] && Named(root, names, At(g[n].edges[e], r))
    ensures var name := NameOf(root, names, At(g[n].edges[e], r));
            var regs', store' := After(g[n], regs, reply, e), After(output[n], store, reply, e);
            r in regs' && name in store' && store'[name] == regs'[r]
  {
    var node, out := g[n], output[n];
    var name := NameOf(root, names, At(node.edges[e], r));
    assert RenamedNode(g, n, root, names, out);
    RenamedLists(g, n, root, names, out, e);
    assert name == NameOf(root, names, AfterCell(g, n, r)) && Named(root, names, AfterCell(g, n, r));
    LiveCarries(g, live, n, e, r);
    AfterGets(node, regs, reply, e, r);
    AfterGets(out, store, reply, e, name);
    if IsLookup(node.name) { LookupLists(node, e); }
    var es, es' := EdgeWriteList(node.operands, e), EdgeWriteList(out.operands, e);
    forall i | 0 <= i < |es| ensures es[i] == r <==> es'[i] == name {
      ListedCellsNamed(g, n, root, names, out, e, es[i]);
      if es'[i] == name { NamesSeparate(root, names, At(n, es[i]), AfterCell(g, n, r)); }
    }
    WrittenRenamed(es, es', reply.edgeResults, r, name);
    var ws, ws' := WriteList(node.operands), WriteList(out.operands);
    forall i | 0 <= i < |ws| ensures ws[i] == r <==> ws'[i] == name {
      ListedCellsNamed(g, n, root, names, out, e, ws[i]);
      if ws'[i] == name { NamesSeparate(root, names, AfterCell(g, n, ws[i]), AfterCell(g, n, r)); }
    }
    WrittenRenamed(ws, ws', reply.results, r, name);
  }

  lemma {:induction false} MirrorStep(g: Graph, maxStack: nat, params: nat, live: LiveMap, root: map<Cell, Cell>,
      names: map<Cell, Name>, output: Certificate, o: Oracle, a: State<Reg>, b: State<Name>)
    requires WellFormed(g, maxStack) && IsLeastLive(g, live) && NoLiveKill(g, live)
    requires IsRenaming(g, live, params, root, names, output) && Mirrors(root, names, live, a, b)
    ensures Mirrors(root, names, live, Step(g, o, {}, a), Step(output, o, {}, b))
  {
    if a.Running? {
      var n, node, out := a.at, g[a.at], output[a.at];
      assert RenamedNode(g, n, root, names, out);
      RenamedLists(g, n, root, names, out, 0);
      assert Solves(g, live, n);
      var rs, rs' := ReadList(node.operands), ReadList(out.operands);
      forall i | 0 <= i < |rs|
        ensures rs[i] in a.store && rs'[i] in b.store && a.store[rs[i]] == b.store[rs'[i]]
      {
        ListedCellsNamed(g, n, root, names, out, 0, rs[i]);
        assert rs[i] in live[n];
      }
      assert Args(a.store, rs) == Args(b.store, rs');
      if node.edges != [] {
        var reply := Ask(o, node, a.trace, Args(a.store, rs));
        var e := Taken(reply, |node.edges|);
        forall r | r in live[node.edges[e]] && Named(root, names, At(node.edges[e], r))
          ensures var name := NameOf(root, names, At(node.edges[e], r));
                  var regs', store' := After(node, a.store, reply, e), After(out, b.store, reply, e);
                  r in regs' && name in store' && store'[name] == regs'[r]
        {
          StoredAfter(g, maxStack, params, live, root, names, output, n, e, a.store, b.store, reply, r);
        }
      }
    }
  }

  /** The certificate starts with each argument under its parameter's name. */
  function NamedEntry(args: seq<Value>): State<Name> {
    Running(0, map i: nat | i < |args| :: Parameter(i) := args[i], [])
  }

  lemma {:induction false} RenamedRun(g: Graph, maxStack: nat, live: LiveMap, root: map<Cell, Cell>,
      names: map<Cell, Name>, output: Certificate, o: Oracle, args: seq<Value>, steps: nat)
    requires WellFormed(g, maxStack) && IsLeastLive(g, live) && NoLiveKill(g, live) && live[0] <= UpTo(|args|)
    requires IsRenaming(g, live, |args|, root, names, output)
    ensures Mirrors(root, names, live, Run(g, o, {}, Entry(args), steps), Run(output, o, {}, NamedEntry(args), steps))
  {
    hide Step;
    if steps > 0 {
      RenamedRun(g, maxStack, live, root, names, output, o, args, steps - 1);
      MirrorStep(g, maxStack, |args|, live, root, names, output, o,
                 Run(g, o, {}, Entry(args), steps - 1), Run(output, o, {}, NamedEntry(args), steps - 1));
    }
  }
}
