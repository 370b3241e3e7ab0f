/** The register control-flow graph of one prototype, the facts every pass reads off it,
    and a machine that runs it.

    An instruction is a list of operands with a role each, so what it reads and writes is
    derived from the operands; only the opcodes the passes inspect are named.  The values
    an instruction computes and the edge it takes come from an oracle that sees the
    history of earlier operations, the opcode, its immediates and the values it reads. */
module RegisterGraph {
  import opened Options

  type Reg = nat

  datatype Opcode =
    | GETGLOBAL | GETIMPORT | GETUPVAL | GETTABLE | GETTABLEKS | GETTABLEN
    | MOVE | JUMPIF | JUMPIFNOT | CALL | GETVARARGS | SETLIST | RETURN
    | Other(code: nat)

  predicate IsLookup(name: Opcode) {
    name in {GETGLOBAL, GETIMPORT, GETUPVAL, GETTABLE, GETTABLEKS, GETTABLEN}
  }

  /** The part of an operand that is no register.  Two forms mention the open pack: where
      it starts being read, and where its results start; the last two are what is left of
      them once the pack no longer depends on the frame layout. */
  datatype Datum = Literal(code: int) | OpenFrom(start: Reg) | OpenResultAt(base: Reg) | OpenPack | OpenResult

  /** One slot of an instruction.  `EdgeWrite` is a result that exists on one edge only
      (the success edge of a FASTCALL, the body edge of a FORGLOOP). */
  datatype Operand<R> =
    | Read(reg: R)
    | Write(reg: R)
    | EdgeWrite(edge: nat, reg: R)
    | Immediate(data: Datum)

  /** The dynamic stack top: none, or the register at which an open pack starts. */
  datatype Top = NoTop | Base(reg: nat)
  datatype TopEffect = Preserve | Become(top: Top)

  datatype Node<R(==)> = Node(
    pc: nat, name: Opcode, operands: seq<Operand<R>>, edges: seq<nat>,
    kills: set<R>, edgeKills: map<nat, set<R>>,
    topWrite: TopEffect, edgeTops: map<nat, TopEffect>, openRead: Option<nat>)
  {
    function EdgeKills(e: nat): set<R> { if e in edgeKills then edgeKills[e] else {} }
    function EdgeTop(e: nat): TopEffect { if e in edgeTops then edgeTops[e] else Preserve }
    function Reads(): set<R> { set r | r in ReadList(operands) }
    function Writes(): set<R> { set r | r in WriteList(operands) }
    function EdgeWrites(e: nat): set<R> { set r | r in EdgeWriteList(operands, e) }
  }

  type Graph = seq<Node<Reg>>

  function ReadList<R>(ops: seq<Operand<R>>): seq<R> {
    if ops == [] then []
    else if ops[0].Read? then [ops[0].reg] + ReadList(ops[1..]) else ReadList(ops[1..])
  }

  function WriteList<R>(ops: seq<Operand<R>>): seq<R> {
    if ops == [] then []
    else if ops[0].Write? then [ops[0].reg] + WriteList(ops[1..]) else WriteList(ops[1..])
  }

  function EdgeWriteList<R>(ops: seq<Operand<R>>, e: nat): seq<R> {
    if ops == [] then []
    else if ops[0].EdgeWrite? && ops[0].edge == e then [ops[0].reg] + EdgeWriteList(ops[1..], e)
    else EdgeWriteList(ops[1..], e)
  }

  function Immediates<R>(ops: seq<Operand<R>>): seq<Datum> {
    if ops == [] then []
    else if ops[0].Immediate? then [ops[0].data] + Immediates(ops[1..]) else Immediates(ops[1..])
  }

  lemma {:induction false} ReadsAppend<R>(a: seq<Operand<R>>, b: seq<Operand<R>>)
    ensures ReadList(a + b) == ReadList(a) + ReadList(b)
  {
    if a == [] { assert a + b == b; } else {
      ReadsAppend(a[1..], b);
      assert (a + b)[0] == a[0] && (a + b)[1..] == a[1..] + b;
    }
  }

  lemma {:induction false} WritesAppend<R>(a: seq<Operand<R>>, b: seq<Operand<R>>)
    ensures WriteList(a + b) == WriteList(a) + WriteList(b)
  {
    if a == [] { assert a + b == b; } else {
      WritesAppend(a[1..], b);
      assert (a + b)[0] == a[0] && (a + b)[1..] == a[1..] + b;
    }
  }

  lemma {:induction false} EdgeWritesAppend<R>(a: seq<Operand<R>>, b: seq<Operand<R>>, e: nat)
    ensures EdgeWriteList(a + b, e) == EdgeWriteList(a, e) + EdgeWriteList(b, e)
  {
    if a == [] {
      assert a + b == b;
    } else {
      EdgeWritesAppend(a[1..], b, e);
      assert (a + b)[0] == a[0] && (a + b)[1..] == a[1..] + b;
      if a[0].EdgeWrite? && a[0].edge == e {
        assert EdgeWriteList(a + b, e) == [a[0].reg] + (EdgeWriteList(a[1..], e) + EdgeWriteList(b, e));
      }
    }
  }

  lemma {:induction false} ImmediatesAppend<R>(a: seq<Operand<R>>, b: seq<Operand<R>>)
    ensures Immediates(a + b) == Immediates(a) + Immediates(b)
  {
    if a == [] { assert a + b == b; } else {
      ImmediatesAppend(a[1..], b);
      assert (a + b)[0] == a[0] && (a + b)[1..] == a[1..] + b;
    }
  }

  /** What every graph built from bytecode satisfies: edges stay inside, registers fit the
      frame, the root is at pc 0, and the two opcodes the copy pass rewrites have the
      shape their encoding gives them: a lookup writes its first operand only, a MOVE is one
      write then one read, and both clobber nothing and fall through to a later pc. */
  ghost predicate WellFormed(g: Graph, maxStack: nat) {
    && |g| > 0
    && g[0].pc == 0
    && (forall i, e :: 0 <= i < |g| && 0 <= e < |g[i].edges| ==> g[i].edges[e] < |g|)
    && (forall i, k :: 0 <= i < |g| && 0 <= k < |g[i].operands| ==> FitsFrame(g[i].operands[k], maxStack))
    && (forall i :: 0 <= i < |g| && IsLookup(g[i].name) ==> LookupShape(g[i]))
    && (forall i :: 0 <= i < |g| && g[i].name == MOVE ==> MoveShape(g[i]))
    && (forall i, e :: 0 <= i < |g| && 0 <= e < |g[i].edges| && (IsLookup(g[i].name) || g[i].name == MOVE) ==>
          g[i].edges[e] < |g| && g[i].pc < g[g[i].edges[e]].pc)
  }

  predicate FitsFrame(op: Operand<Reg>, maxStack: nat) { op.Immediate? || op.reg < maxStack }

  ghost predicate LookupShape<R(!new)>(n: Node<R>) {
    && |n.operands| > 0 && n.operands[0].Write?
    && (forall k :: 0 < k < |n.operands| ==> n.operands[k].Read? || n.operands[k].Immediate?)
    && n.kills == {} && (forall e :: n.EdgeKills(e) == {})
  }

  ghost predicate MoveShape<R(!new)>(n: Node<R>) {
    && |n.operands| == 2 && n.operands[0].Write? && n.operands[1].Read?
    && n.kills == {} && (forall e :: n.EdgeKills(e) == {})
  }

  predicate IsEdge(g: Graph, s: nat, e: nat, n: nat) {
    s < |g| && e < |g[s].edges| && g[s].edges[e] == n
  }

  lemma {:induction false} ReadsFitFrame(ops: seq<Operand<Reg>>, maxStack: nat)
    requires forall k :: 0 <= k < |ops| ==> FitsFrame(ops[k], maxStack)
    ensures forall r :: r in ReadList(ops) || r in WriteList(ops) ==> r < maxStack
    ensures forall e: nat, r :: r in EdgeWriteList(ops, e) ==> r < maxStack
  {
    if ops != [] { ReadsFitFrame(ops[1..], maxStack); assert FitsFrame(ops[0], maxStack); }
  }

  lemma {:induction false} ReadsOnly(ops: seq<Operand<Reg>>, e: nat)
    requires forall k :: 0 <= k < |ops| ==> ops[k].Read? || ops[k].Immediate?
    ensures WriteList(ops) == [] && EdgeWriteList(ops, e) == []
  {
    if ops != [] { ReadsOnly(ops[1..], e); }
  }

  /** A lookup writes its first operand and nothing else, on any edge. */
  lemma {:induction false} LookupLists(n: Node<Reg>, e: nat)
    requires LookupShape(n)
    ensures WriteList(n.operands) == [n.operands[0].reg] && EdgeWriteList(n.operands, e) == []
    ensures n.EdgeKills(e) == {}
  {
    ReadsOnly(n.operands[1..], e);
  }

  lemma {:induction false} MoveLists(n: Node<Reg>, e: nat)
    requires MoveShape(n)
    ensures WriteList(n.operands) == [n.operands[0].reg] && ReadList(n.operands) == [n.operands[1].reg]
    ensures EdgeWriteList(n.operands, e) == [] && n.EdgeKills(e) == {} && Immediates(n.operands) == []
  {
    var rest := n.operands[1..];
    ReadsOnly(rest, e);
    assert ReadList(rest) == [rest[0].reg] + ReadList(rest[1..]);
    assert Immediates(rest) == Immediates(rest[1..]);
  }

  // ----- paths from the root -----

  /** A path is the list of edge indexes taken from node 0. */
  ghost predicate IsPath(g: Graph, path: seq<nat>)
    requires |g| > 0
    decreases |path|
  {
    path == [] ||
    (IsPath(g, path[..|path| - 1]) &&
     var at := EndOf(g, path[..|path| - 1]);
     at < |g| && path[|path| - 1] < |g[at].edges|)
  }

  /** The node a path ends at (an arbitrary in-range node when the list is no path). */
  ghost function EndOf(g: Graph, path: seq<nat>): nat
    requires |g| > 0
    decreases |path|
  {
    if path == [] then 0
    else
      var at := EndOf(g, path[..|path| - 1]);
      if at < |g| && path[|path| - 1] < |g[at].edges| then g[at].edges[path[|path| - 1]] else 0
  }

  ghost predicate PathTo(g: Graph, path: seq<nat>, n: nat)
    requires |g| > 0
  {
    IsPath(g, path) && EndOf(g, path) == n
  }

  ghost predicate Reachable(g: Graph, n: nat)
    requires |g| > 0
  {
    exists path :: PathTo(g, path, n)
  }

  ghost predicate AllReachable(g: Graph)
    requires |g| > 0
  {
    forall n: nat :: n < |g| ==> Reachable(g, n)
  }

  lemma {:induction false} ExtendPath(g: Graph, path: seq<nat>, n: nat, e: nat)
    requires |g| > 0 && PathTo(g, path, n) && n < |g| && e < |g[n].edges|
    ensures PathTo(g, path + [e], g[n].edges[e])
  {
    assert (path + [e])[..|path + [e]| - 1] == path;
  }

  // ----- the machine -----

  datatype Value = Nil | Data(id: int)
  datatype Event = Event(name: Opcode, data: seq<Datum>, args: seq<Value>, edge: nat)
  datatype Reply = Reply(results: seq<Value>, edge: nat, edgeResults: seq<Value>, pack: seq<Value>)

  /** The environment: any function of what has happened so far and what is asked now. */
  type Oracle = (seq<Event>, Opcode, seq<Datum>, seq<Value>) -> Reply

  datatype State<R(==)> =
    | Running(at: nat, store: map<R, Value>, trace: seq<Event>)
    | Returned(trace: seq<Event>)
    | Stuck(trace: seq<Event>)

  function ValueAt(vs: seq<Value>, i: nat): Value { if i < |vs| then vs[i] else Nil }

  function Args<R(==)>(store: map<R, Value>, regs: seq<R>): (vs: seq<Value>)
    requires forall r :: r in regs ==> r in store
  {
    seq(|regs|, i requires 0 <= i < |regs| => store[regs[i]])
  }

  function StoreAll<R(==)>(store: map<R, Value>, regs: seq<R>, vs: seq<Value>): map<R, Value>
    decreases |regs|
  {
    if regs == [] then store
    else StoreAll(store[regs[0] := ValueAt(vs, 0)], regs[1..], if vs == [] then [] else vs[1..])
  }

  /** The store along edge `e`: kills forget, then writes; then the same for the edge. */
  function After<R(==)>(n: Node<R>, store: map<R, Value>, reply: Reply, e: nat): map<R, Value> {
    var written := StoreAll(store - n.kills, WriteList(n.operands), reply.results);
    StoreAll(written - n.EdgeKills(e), EdgeWriteList(n.operands, e), reply.edgeResults)
  }

  /** A MOVE copies its operand; everything else asks the oracle. */
  function Ask<R(==)>(o: Oracle, n: Node<R>, trace: seq<Event>, args: seq<Value>): Reply {
    if n.name == MOVE then Reply([ValueAt(args, 0)], 0, [], [])
    else o(trace, n.name, Immediates(n.operands), args)
  }

  function Taken(reply: Reply, edges: nat): (e: nat)
    requires edges > 0
    ensures e < edges
  {
    reply.edge % edges
  }

  /** One instruction.  Reading a register that holds nothing is being stuck.  Nodes in
      `hidden` run without leaving a trace. */
  function Step<R(==)>(g: seq<Node<R>>, o: Oracle, hidden: set<nat>, s: State<R>): State<R> {
    match s
    case Returned(_) => s
    case Stuck(_) => s
    case Running(at, store, trace) =>
      if at >= |g| || exists r :: r in ReadList(g[at].operands) && r !in store then Stuck(trace)
      else
        var n := g[at];
        var args := Args(store, ReadList(n.operands));
        var reply := Ask(o, n, trace, args);
        if n.edges == [] then Returned(trace + [Event(n.name, Immediates(n.operands), args, 0)])
        else
          var e := Taken(reply, |n.edges|);
          var log := if at in hidden then [] else [Event(n.name, Immediates(n.operands), args, e)];
          Running(n.edges[e], After(n, store, reply, e), trace + log)
  }

  function Run<R(==)>(g: seq<Node<R>>, o: Oracle, hidden: set<nat>, s: State<R>, steps: nat): State<R> {
    if steps == 0 then s else Step(g, o, hidden, Run(g, o, hidden, s, steps - 1))
  }

  /** Registers 0 .. params-1 hold the arguments; the rest hold nothing. */
  function Entry(args: seq<Value>): State<Reg> {
    Running(0, map i: nat | i < |args| :: args[i], [])
  }

  // ----- what stores look like after an instruction -----

  /** The value the list of writes leaves in `r`: that of its last occurrence. */
  function Written<R(==)>(regs: seq<R>, vs: seq<Value>, r: R): Value
    requires r in regs
  {
    var rest := if vs == [] then [] else vs[1..];
    if r in regs[1..] then Written(regs[1..], rest, r) else ValueAt(vs, 0)
  }

  lemma {:induction false} StoreAllGets<R>(store: map<R, Value>, regs: seq<R>, vs: seq<Value>, r: R)
    ensures r in StoreAll(store, regs, vs) <==> r in store || r in regs
    ensures r in regs ==> StoreAll(store, regs, vs)[r] == Written(regs, vs, r)
    ensures r !in regs && r in store ==> StoreAll(store, regs, vs)[r] == store[r]
    decreases |regs|
  {
    if regs != [] {
      StoreAllGets(store[regs[0] := ValueAt(vs, 0)], regs[1..], if vs == [] then [] else vs[1..], r);
    }
  }

  /** The registers that hold something after the instruction. */
  function DefinedAfter<R(==)>(n: Node<R>, defs: set<R>, e: nat): set<R> {
    (((defs - n.kills) + n.Writes()) - n.EdgeKills(e)) + n.EdgeWrites(e)
  }

  /** Where a register's value comes from after an instruction: the edge, the instruction,
      or before it. */
  lemma {:induction false} AfterGets<R>(n: Node<R>, store: map<R, Value>, reply: Reply, e: nat, r: R)
    ensures r in EdgeWriteList(n.operands, e) ==>
      r in After(n, store, reply, e) &&
        After(n, store, reply, e)[r] == Written(EdgeWriteList(n.operands, e), reply.edgeResults, r)
    ensures r !in EdgeWriteList(n.operands, e) && r !in n.EdgeKills(e) && r in WriteList(n.operands) ==>
      r in After(n, store, reply, e) && After(n, store, reply, e)[r] == Written(WriteList(n.operands), reply.results, r)
    ensures (&& r !in EdgeWriteList(n.operands, e) && r !in n.EdgeKills(e)
             && r !in WriteList(n.operands) && r !in n.kills && r in store) ==>
              r in After(n, store, reply, e) && After(n, store, reply, e)[r] == store[r]
  {
    var written := StoreAll(store - n.kills, WriteList(n.operands), reply.results);
    StoreAllGets(store - n.kills, WriteList(n.operands), reply.results, r);
    StoreAllGets(written - n.EdgeKills(e), EdgeWriteList(n.operands, e), reply.edgeResults, r);
  }

  lemma {:induction false} StoreAllKeys(store: map<Reg, Value>, regs: seq<Reg>, vs: seq<Value>)
    ensures StoreAll(store, regs, vs).Keys == store.Keys + (set r | r in regs)
  {
    var target := set r | r in regs;
    forall r ensures r in StoreAll(store, regs, vs).Keys <==> r in store.Keys + target {
      StoreAllGets(store, regs, vs, r);
    }
  }

  /** The definition analysis follows the machine: what an instruction defines along an edge is
      what the store then holds. */
  lemma {:induction false} AfterKeys(n: Node<Reg>, store: map<Reg, Value>, reply: Reply, e: nat)
    ensures After(n, store, reply, e).Keys == DefinedAfter(n, store.Keys, e)
  {
    var written := StoreAll(store - n.kills, WriteList(n.operands), reply.results);
    StoreAllKeys(store - n.kills, WriteList(n.operands), reply.results);
    StoreAllKeys(written - n.EdgeKills(e), EdgeWriteList(n.operands, e), reply.edgeResults);
  }
}
