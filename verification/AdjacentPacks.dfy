/** Open packs between neighbours.  In the frame, a producer leaves an unbounded suffix of
    results above its base and the consumer reads from a fixed register up to the dynamic
    top.  When every producer's only successor is its consumer, the consumer's operand can
    name the registers below the base and leave the pack implicit; this file shows that the
    consumer then receives the same values. */
module AdjacentPacks {
  import opened Options
  import opened RegisterGraph
  import opened Definitions
  import opened Liveness
  import opened Renaming
  import opened PrivateCopies
  import opened CopyCertificates

  // ----- running with a dynamic top -----

  datatype OpenTop = Closed | Open(base: Reg, pack: seq<Value>)

  datatype PackState =
    | Active(at: nat, store: map<Reg, Value>, top: OpenTop, trace: seq<Event>)
    | Finished(trace: seq<Event>)
    | Faulted(trace: seq<Event>)

  function Span(low: nat, high: nat): seq<Reg>
    decreases high - low
  {
    if low < high then [low] + Span(low + 1, high) else []
  }

  /** Every register from `low` on and below `high`, each once, in order. */
  lemma {:induction false} SpanIs(low: nat, high: nat)
    ensures Span(low, high) == seq(if low < high then high - low else 0, i requires 0 <= i => low + i)
    decreases high - low
  {
    if low < high { SpanIs(low + 1, high); }
  }

  /** The registers an instruction reads when the open pack's base is `base`. */
  function OpenReads(ops: seq<Operand<Reg>>, base: Reg): seq<Reg> {
    if ops == [] then []
    else (match ops[0]
          case Read(r) => [r]
          case Immediate(OpenFrom(s)) => Span(s, base)
          case _ => []) + OpenReads(ops[1..], base)
  }

  /** What an event keeps of an operand: not where in the frame a pack sits. */
  function Erase(d: Datum): Datum {
    match d case OpenFrom(_) => OpenPack case OpenResultAt(_) => OpenResult case _ => d
  }

  function EraseAll(ds: seq<Datum>): seq<Datum> {
    if ds == [] then [] else [Erase(ds[0])] + EraseAll(ds[1..])
  }

  function TopBase(top: OpenTop): Reg { if top.Open? then top.base else 0 }

  function TopAfterEffect(effect: TopEffect, top: OpenTop, pack: seq<Value>): OpenTop {
    match effect
    case Preserve => top
    case Become(NoTop) => Closed
    case Become(Base(b)) => Open(b, pack)
  }

  /** Reading an open pack needs one, based no lower than where the read starts. */
  predicate CanRead(n: Node<Reg>, store: map<Reg, Value>, top: OpenTop) {
    && (n.openRead.Some? ==> top.Open? && n.openRead.value <= top.base)
    && (forall r :: r in OpenReads(n.operands, TopBase(top)) ==> r in store)
  }

  /** One instruction of the frame: the consumer is handed the named registers, the
      registers up to the base, and then the whole pack. */
  function PackStep(g: Graph, o: Oracle, hidden: set<nat>, s: PackState): PackState {
    match s
    case Finished(_) => s
    case Faulted(_) => s
    case Active(at, store, top, trace) =>
      if at >= |g| || !CanRead(g[at], store, top) then Faulted(trace)
      else
        var n := g[at];
        var data := EraseAll(Immediates(n.operands));
        var args := Args(store, OpenReads(n.operands, TopBase(top)));
        var received := if n.openRead.Some? then args + top.pack else args;
        var reply := if n.name == MOVE then Reply([ValueAt(args, 0)], 0, [], []) else o(trace, n.name, data, received);
        if n.edges == [] then Finished(trace + [Event(n.name, data, args, 0)])
        else
          var e := Taken(reply, |n.edges|);
          var log := if at in hidden then [] else [Event(n.name, data, args, e)];
          var top' := TopAfterEffect(n.EdgeTop(e), TopAfterEffect(n.topWrite, top, reply.pack), reply.pack);
          Active(n.edges[e], After(n, store, reply, e), top', trace + log)
  }

  function PackRun(g: Graph, o: Oracle, hidden: set<nat>, s: PackState, steps: nat): PackState {
    if steps == 0 then s else PackStep(g, o, hidden, PackRun(g, o, hidden, s, steps - 1))
  }

  function PackEntry(args: seq<Value>): PackState {
    Active(0, map i: nat | i < |args| :: args[i], Closed, [])
  }

  // ----- the same environment without a top -----

  /** What an operation was handed, read off the history: an open consumer also gets the
      pack of the operation right before it. */
  function Received(o: Oracle, trace: seq<Event>, data: seq<Datum>, args: seq<Value>): seq<Value>
    decreases |trace|, 1
  {
    if OpenPack in data then args + PackOf(o, trace) else args
  }

  /** The pack the last operation of a history produced. */
  function PackOf(o: Oracle, trace: seq<Event>): seq<Value>
    decreases |trace|, 0
  {
    if trace == [] then []
    else
      var before, last := trace[..|trace| - 1], trace[|trace| - 1];
      o(before, last.name, last.data, Received(o, before, last.data, last.args)).pack
  }

  /** The environment as the rewritten graph sees it. */
  function Implicit(o: Oracle): Oracle {
    (trace, name, data, args) => o(trace, name, data, Received(o, trace, data, args))
  }

  // ----- the rewrite -----

  predicate IsProducer(n: Node<Reg>) {
    n.name in {CALL, GETVARARGS} && n.topWrite.Become? && n.topWrite.top.Base?
  }

  /** A producer whose single successor is its own consumer, right behind it. */
  predicate GoodProducer(g: Graph, maxStack: nat, p: nat)
    requires p < |g|
  {
    IsProducer(g[p]) && |g[p].edges| == 1 && g[p].topWrite.top.reg < maxStack &&
    var c := g[p].edges[0];
    c < |g| && Sources(g, c, |g|) == [p] && g[c].name in {CALL, RETURN, SETLIST} && g[c].pc == g[p].pc + 1 &&
    g[c].openRead.Some? && g[c].openRead.value <= g[p].topWrite.top.reg
  }

  ghost predicate Feeds(g: Graph, maxStack: nat, p: nat, c: nat) {
    p < |g| && GoodProducer(g, maxStack, p) && g[p].edges[0] == c
  }

  /** All producers are good, nothing else consumes, and no edge opens a pack by itself. */
  ghost predicate Paired(g: Graph, maxStack: nat) {
    && (forall n: nat :: n < |g| && IsProducer(g[n]) ==> GoodProducer(g, maxStack, n))
    && (forall n: nat :: n < |g| && g[n].openRead.Some? ==> exists p: nat :: Feeds(g, maxStack, p, n))
    && (forall n: nat, e: nat :: n < |g| && e in g[n].edgeTops ==> !OpensPack(g[n].edgeTops[e]))
  }

  predicate OpensPack(effect: TopEffect) { effect.Become? && effect.top.Base? }

  function ReadAll(regs: seq<Reg>): seq<Operand<Reg>> {
    if regs == [] then [] else [Read(regs[0])] + ReadAll(regs[1..])
  }

  /** An operand list with the pack made implicit, the registers below `base` named. */
  function Explicit(ops: seq<Operand<Reg>>, base: Reg): seq<Operand<Reg>> {
    if ops == [] then [] else ExplicitOperand(ops[0], base) + Explicit(ops[1..], base)
  }

  /** The open pack a node reads, if it reads one, is the one its operand names. */
  ghost predicate PackShape(n: Node<Reg>) {
    && (n.openRead.None? ==> forall k :: 0 <= k < |n.operands| ==> !IsOpenFrom(n.operands[k]))
    && (n.openRead.Some? ==> exists k :: 0 <= k < |n.operands| && IsOpenFrom(n.operands[k]))
    && (forall k :: 0 <= k < |n.operands| && IsOpenFrom(n.operands[k]) ==> n.openRead == Some(n.operands[k].data.start))
    && (forall k :: 0 <= k < |n.operands| && n.operands[k].Immediate? ==> !n.operands[k].data.OpenPack?)
  }

  predicate IsOpenFrom(op: Operand<Reg>) { op.Immediate? && op.data.OpenFrom? }

  lemma {:induction false} ReadAllLists(regs: seq<Reg>, e: nat)
    ensures ReadList(ReadAll(regs)) == regs && WriteList(ReadAll(regs)) == []
    ensures EdgeWriteList(ReadAll(regs), e) == [] && Immediates(ReadAll(regs)) == []
  {
    if regs != [] {
      ReadAllLists(regs[1..], e);
      assert ReadAll(regs)[1..] == ReadAll(regs[1..]);
    }
  }

  function ExplicitOperand(op: Operand<Reg>, base: Reg): seq<Operand<Reg>> {
    match op
    case Immediate(OpenFrom(s)) => ReadAll(Span(s, base)) + [Immediate(OpenPack)]
    case Immediate(OpenResultAt(_)) => [Immediate(OpenResult)]
    case op => [op]
  }

  lemma {:induction false} ExplicitOne(op: Operand<Reg>, base: Reg, e: nat)
    ensures ReadList(ExplicitOperand(op, base)) == OpenReads([op], base)
    ensures WriteList(ExplicitOperand(op, base)) == WriteList([op])
    ensures EdgeWriteList(ExplicitOperand(op, base), e) == EdgeWriteList([op], e)
    ensures Immediates(ExplicitOperand(op, base)) == EraseAll(Immediates([op]))
  {
    if IsOpenFrom(op) {
      var span, mark := Span(op.data.start, base), [Immediate(OpenPack)];
      ReadAllLists(span, e);
      ReadsAppend(ReadAll(span), mark);
      WritesAppend(ReadAll(span), mark);
      EdgeWritesAppend(ReadAll(span), mark, e);
      ImmediatesAppend(ReadAll(span), mark);
      assert [op][1..] == [];
    }
  }

  /** The rewritten operands read what the frame would have read ... */
  lemma {:induction false} ExplicitReads(ops: seq<Operand<Reg>>, base: Reg)
    ensures ReadList(Explicit(ops, base)) == OpenReads(ops, base)
  {
    if ops != [] {
      ExplicitReads(ops[1..], base);
      assert [ops[0]][1..] == [];
      ExplicitOne(ops[0], base, 0);
      ReadsAppend(ExplicitOperand(ops[0], base), Explicit(ops[1..], base));
    }
  }

  /** ... write what it wrote ... */
  lemma {:induction false} ExplicitWrites(ops: seq<Operand<Reg>>, base: Reg, e: nat)
    ensures WriteList(Explicit(ops, base)) == WriteList(ops)
    ensures EdgeWriteList(Explicit(ops, base), e) == EdgeWriteList(ops, e)
  {
    if ops != [] {
      ExplicitWrites(ops[1..], base, e);
      assert [ops[0]][1..] == [];
      ExplicitOne(ops[0], base, e);
      WritesAppend(ExplicitOperand(ops[0], base), Explicit(ops[1..], base));
      EdgeWritesAppend(ExplicitOperand(ops[0], base), Explicit(ops[1..], base), e);
    }
  }

  /** ... and carry the same data without its place in the frame. */
  lemma {:induction false} ExplicitData(ops: seq<Operand<Reg>>, base: Reg)
    ensures Immediates(Explicit(ops, base)) == EraseAll(Immediates(ops))
  {
    if ops != [] {
      ExplicitData(ops[1..], base);
      assert [ops[0]][1..] == [];
      ExplicitOne(ops[0], base, 0);
      ImmediatesAppend(ExplicitOperand(ops[0], base), Explicit(ops[1..], base));
      if ops[0].Immediate? { assert Immediates(ops)[1..] == Immediates(ops[1..]); }
    }
  }

  function ExplicitNode(g: Graph, consumers: map<nat, Reg>, n: nat): Node<Reg>
    requires n < |g|
  {
    g[n].(operands := Explicit(g[n].operands, if n in consumers then consumers[n] else 0), openRead := None)
  }

  function ExplicitGraph(g: Graph, consumers: map<nat, Reg>): Graph {
    seq(|g|, n requires 0 <= n < |g| => ExplicitNode(g, consumers, n))
  }

  /** `consumers` records, for exactly the nodes that read an open pack, its base. */
  ghost predicate RecordsConsumers(g: Graph, maxStack: nat, consumers: map<nat, Reg>) {
    && (forall c: nat :: c in consumers <==> exists p: nat :: Feeds(g, maxStack, p, c))
    && (forall p: nat, c: nat :: Feeds(g, maxStack, p, c) ==> consumers[c] == g[p].topWrite.top.reg)
  }

  method TestProducer(g: Graph, maxStack: nat, preds: seq<seq<nat>>, p: nat) returns (yes: bool)
    requires WellFormed(g, maxStack) && |preds| == |g| && p < |g|
    requires forall n: nat :: n < |g| ==> preds[n] == Sources(g, n, |g|)
    ensures yes == GoodProducer(g, maxStack, p)
  {
    if !IsProducer(g[p]) || |g[p].edges| != 1 { return false; }
    var c, base := g[p].edges[0], g[p].topWrite.top.reg;
    yes := base < maxStack && preds[c] == [p] && g[c].name in {CALL, RETURN, SETLIST} && g[c].pc == g[p].pc + 1 &&
           g[c].openRead.Some? && g[c].openRead.value <= base;
  }

  /** Nodes of which the first `n` have no edge that opens a pack, and only good producers. */
  ghost predicate GoodSoFar(g: Graph, maxStack: nat, n: nat) {
    && (forall i: nat :: i < n && i < |g| && IsProducer(g[i]) ==> GoodProducer(g, maxStack, i))
    && (forall i: nat, e: nat :: i < n && i < |g| && e in g[i].edgeTops ==> !OpensPack(g[i].edgeTops[e]))
  }

  ghost predicate RecordedSoFar(g: Graph, maxStack: nat, consumers: map<nat, Reg>, n: nat) {
    && (forall c: nat :: c in consumers ==> exists p: nat :: p < n && Feeds(g, maxStack, p, c))
    && (forall p: nat, c: nat ::
      p < n && Feeds(g, maxStack, p, c) ==> c in consumers && consumers[c] == g[p].topWrite.top.reg)
  }

  /** One consumer has one producer. */
  lemma {:induction false} OneProducer(g: Graph, maxStack: nat, p: nat, q: nat, c: nat)
    requires Feeds(g, maxStack, p, c) && Feeds(g, maxStack, q, c)
    ensures p == q
  {
    assert IsEdge(g, p, 0, c) && IsEdge(g, q, 0, c);
    SoleSource(g, c, |g|, p, 0, q, 0);
  }

  lemma {:induction false} RecordNext(g: Graph, maxStack: nat, consumers: map<nat, Reg>, i: nat)
    requires i < |g| && RecordedSoFar(g, maxStack, consumers, i)
    ensures !IsProducer(g[i]) ==> RecordedSoFar(g, maxStack, consumers, i + 1)
  {
  }

  lemma {:induction false} RecordProducer(g: Graph, maxStack: nat, consumers: map<nat, Reg>, i: nat)
    requires i < |g| && RecordedSoFar(g, maxStack, consumers, i) && GoodProducer(g, maxStack, i)
    ensures RecordedSoFar(g, maxStack, consumers[g[i].edges[0] := g[i].topWrite.top.reg], i + 1)
  {
    var c := g[i].edges[0];
    var more := consumers[c := g[i].topWrite.top.reg];
    assert Feeds(g, maxStack, i, c);
    forall d: nat | d in more ensures exists p: nat :: p < i + 1 && Feeds(g, maxStack, p, d) {
      if d != c { var p: nat :| p < i && Feeds(g, maxStack, p, d); }
    }
    forall p: nat, d: nat | p < i + 1 && Feeds(g, maxStack, p, d)
      ensures d in more && more[d] == g[p].topWrite.top.reg
    {
      if d == c { OneProducer(g, maxStack, p, i, c); }
    }
  }

  lemma {:induction false} AllRecorded(g: Graph, maxStack: nat, consumers: map<nat, Reg>)
    requires GoodSoFar(g, maxStack, |g|) && RecordedSoFar(g, maxStack, consumers, |g|)
    ensures RecordsConsumers(g, maxStack, consumers)
    ensures (forall n: nat :: n < |g| ==> (g[n].openRead.Some? <==> n in consumers)) <==> Paired(g, maxStack)
  {
    forall c: nat ensures c in consumers <==> exists p: nat :: Feeds(g, maxStack, p, c) {
      if p: nat :| Feeds(g, maxStack, p, c) { assert p < |g|; }
    }
    forall n: nat | n < |g| && n in consumers ensures g[n].openRead.Some? {
      var p: nat :| Feeds(g, maxStack, p, n);
    }
  }

  /** Either the pairing of every producer with its consumer, or nothing to rewrite. */
  method PairPacks(g: Graph, maxStack: nat) returns (paired: bool, consumers: map<nat, Reg>)
    requires WellFormed(g, maxStack)
    ensures paired ==> RecordsConsumers(g, maxStack, consumers)
    ensures paired <==> Paired(g, maxStack) && exists n: nat :: n < |g| && IsProducer(g[n])
  {
    hide WellFormed, GoodProducer, RecordedSoFar, RecordsConsumers, Sources;
    var preds := PredecessorLists(g, maxStack);
    consumers := map[];
    assert RecordedSoFar(g, maxStack, map[], 0) by { NothingRecordedYet(g, maxStack); }
    for i: nat := 0 to |g|
      invariant GoodSoFar(g, maxStack, i) && RecordedSoFar(g, maxStack, consumers, i)
      invariant consumers == map[] <==> forall n: nat :: n < i ==> !IsProducer(g[n])
    {
      if exists e :: e in g[i].edgeTops && OpensPack(g[i].edgeTops[e]) { return false, consumers; }
      RecordNext(g, maxStack, consumers, i);
      if IsProducer(g[i]) {
        var good := TestProducer(g, maxStack, preds, i);
        if !good { return false, consumers; }
        GoodBounds(g, maxStack, i);
        RecordProducer(g, maxStack, consumers, i);
        consumers := consumers[g[i].edges[0] := g[i].topWrite.top.reg];
        assert g[i].edges[0] in consumers;
      }
    }
    AllRecorded(g, maxStack, consumers);
    paired := consumers != map[] && forall n: nat :: n < |g| ==> (g[n].openRead.Some? <==> n in consumers);
  }

  lemma {:induction false} NothingRecordedYet(g: Graph, maxStack: nat)
    ensures RecordedSoFar(g, maxStack, map[], 0)
  {
  }

  lemma {:induction false} GoodBounds(g: Graph, maxStack: nat, p: nat)
    requires p < |g| && GoodProducer(g, maxStack, p)
    ensures IsProducer(g[p]) && |g[p].edges| == 1
  {
  }

  /** `p` leaves an open pack from `base` on, and `c` right behind it, reached from nowhere else, reads
      one that starts no higher. */
  ghost predicate Hands(g: Graph, maxStack: nat, p: nat, c: nat, base: nat) {
    && p < |g| && c < |g| && LeavesPack(g[p]) && g[p].topWrite == Become(Base(base)) && base < maxStack
    && g[p].edges == [c] && SoleEdge(g, p, 0, c) && g[c].pc == g[p].pc + 1
    && (g[c].name == CALL || g[c].name == RETURN || g[c].name == SETLIST)
    && exists start: nat :: g[c].openRead == Some(start) && start <= base
  }

  ghost predicate LeavesPack(n: Node<Reg>) {
    (n.name == CALL || n.name == GETVARARGS) && exists base: nat :: n.topWrite == Become(Base(base))
  }

  ghost predicate HandsOver(g: Graph, maxStack: nat, p: nat) {
    exists c: nat, base: nat :: Hands(g, maxStack, p, c, base)
  }

  ghost predicate IsHanded(g: Graph, maxStack: nat, c: nat) {
    exists p: nat, base: nat :: Hands(g, maxStack, p, c, base)
  }

  /** Every open pack goes to the neighbour that reads it. */
  ghost predicate PairsUp(g: Graph, maxStack: nat) {
    && (forall p: nat :: p < |g| && LeavesPack(g[p]) ==> HandsOver(g, maxStack, p))
    && (forall c: nat :: c < |g| && g[c].openRead != None ==> IsHanded(g, maxStack, c))
    && (forall n: nat, e: nat, base: nat :: n < |g| && e in g[n].edgeTops ==> g[n].edgeTops[e] != Become(Base(base)))
  }

  lemma {:induction false} HandsIs(g: Graph, maxStack: nat, p: nat, c: nat)
    ensures (exists base: nat :: Hands(g, maxStack, p, c, base)) <==> Feeds(g, maxStack, p, c)
    ensures forall base: nat :: Hands(g, maxStack, p, c, base) ==> g[p].topWrite == Become(Base(base))
    ensures p < |g| ==> (LeavesPack(g[p]) <==> IsProducer(g[p]))
  {
    if IsEdge(g, p, 0, c) { SoleEdgeIs(g, p, 0, c); }
    if p < |g| && IsProducer(g[p]) {
      var base := g[p].topWrite.top.reg;
      assert g[p].topWrite == Become(Base(base));
      if Feeds(g, maxStack, p, c) {
        assert g[c].openRead == Some(g[c].openRead.value);
        assert Hands(g, maxStack, p, c, base);
      }
    }
  }

  lemma {:induction false} HandsOverIs(g: Graph, maxStack: nat, p: nat)
    requires p < |g|
    ensures HandsOver(g, maxStack, p) <==> GoodProducer(g, maxStack, p)
    ensures LeavesPack(g[p]) <==> IsProducer(g[p])
  {
    HandsIs(g, maxStack, p, 0);
    if HandsOver(g, maxStack, p) {
      var c: nat, base: nat :| Hands(g, maxStack, p, c, base);
      HandsIs(g, maxStack, p, c);
    }
    if GoodProducer(g, maxStack, p) {
      HandsIs(g, maxStack, p, g[p].edges[0]);
      assert Feeds(g, maxStack, p, g[p].edges[0]);
    }
  }

  lemma {:induction false} IsHandedIs(g: Graph, maxStack: nat, c: nat)
    ensures IsHanded(g, maxStack, c) <==> exists p: nat :: Feeds(g, maxStack, p, c)
  {
    if IsHanded(g, maxStack, c) {
      var p: nat, base: nat :| Hands(g, maxStack, p, c, base);
      HandsIs(g, maxStack, p, c);
    }
    if p: nat :| Feeds(g, maxStack, p, c) { HandsIs(g, maxStack, p, c); }
  }

  lemma {:induction false} PairedIs(g: Graph, maxStack: nat)
    ensures Paired(g, maxStack) <==> PairsUp(g, maxStack)
    ensures (exists n: nat :: n < |g| && IsProducer(g[n])) <==> (exists n: nat :: n < |g| && LeavesPack(g[n]))
  {
    forall p: nat | p < |g|
      ensures HandsOver(g, maxStack, p) <==> GoodProducer(g, maxStack, p)
      ensures LeavesPack(g[p]) <==> IsProducer(g[p])
    {
      HandsOverIs(g, maxStack, p);
    }
    forall c: nat ensures IsHanded(g, maxStack, c) <==> exists p: nat :: Feeds(g, maxStack, p, c) {
      IsHandedIs(g, maxStack, c);
    }
    hide Hands, LeavesPack, IsProducer, HandsOver, IsHanded, GoodProducer, Feeds;
    forall n: nat, e: nat | n < |g| && e in g[n].edgeTops
      ensures OpensPack(g[n].edgeTops[e]) <==> exists base: nat :: Become(Base(base)) == g[n].edgeTops[e]
    {
      if OpensPack(g[n].edgeTops[e]) { assert Become(Base(g[n].edgeTops[e].top.reg)) == g[n].edgeTops[e]; }
    }
  }

  /** The operands with the pack opened: the registers below the base one by one, and then the pack
      itself, no longer tied to a place in the frame. */
  ghost predicate Opened(ops: seq<Operand<Reg>>, base: nat, out: seq<Operand<Reg>>)
    decreases |ops|
  {
    if ops == [] then out == []
    else
      var first := OpenedOne(ops[0], base);
      first <= out && Opened(ops[1..], base, out[|first|..])
  }

  ghost function OpenedOne(op: Operand<Reg>, base: nat): seq<Operand<Reg>> {
    match op
    case Immediate(OpenFrom(start)) =>
      seq(if start < base then base - start else 0, i requires 0 <= i => Read(start + i)) + [Immediate(OpenPack)]
    case Immediate(OpenResultAt(_)) => [Immediate(OpenResult)]
    case op => [op]
  }

  lemma {:induction false} ReadAllIs(regs: seq<Reg>)
    ensures |ReadAll(regs)| == |regs| && forall i :: 0 <= i < |regs| ==> ReadAll(regs)[i] == Read(regs[i])
  {
    if regs != [] { ReadAllIs(regs[1..]); }
  }

  lemma {:induction false} ReadSpanIs(low: nat, high: nat)
    ensures ReadAll(Span(low, high)) ==
      seq(if low < high then high - low else 0, i requires 0 <= i => Operand<Reg>.Read(low + i))
  {
    hide ReadAll, Span;
    SpanIs(low, high);
    ReadAllIs(Span(low, high));
  }

  lemma {:induction false} OpenedOneIs(op: Operand<Reg>, base: nat)
    ensures OpenedOne(op, base) == ExplicitOperand(op, base)
  {
    hide ReadAll, Span;
    if IsOpenFrom(op) { ReadSpanIs(op.data.start, base); }
  }

  lemma {:induction false} OpenedIs(ops: seq<Operand<Reg>>, base: nat)
    ensures Opened(ops, base, Explicit(ops, base))
  {
    if ops != [] {
      hide ExplicitOperand, OpenedOne;
      OpenedIs(ops[1..], base);
      OpenedOneIs(ops[0], base);
      var first := OpenedOne(ops[0], base);
      assert Explicit(ops, base) == first + Explicit(ops[1..], base);
      assert Explicit(ops, base)[|first|..] == Explicit(ops[1..], base);
    }
  }

  /** `out` is `g` with every open pack that is read named by its neighbour's base. */
  ghost predicate IsOpened(g: Graph, maxStack: nat, out: Graph) {
    |out| == |g| && forall n: nat :: n < |g| ==>
      && out[n] == g[n].(operands := out[n].operands, openRead := None)
      && (g[n].openRead == None ==> exists any: nat :: Opened(g[n].operands, any, out[n].operands))
      && (forall p: nat, base: nat :: Hands(g, maxStack, p, n, base) ==> Opened(g[n].operands, base, out[n].operands))
  }

  lemma {:induction false} ExplicitIsOpened(g: Graph, maxStack: nat, consumers: map<nat, Reg>)
    requires RecordsConsumers(g, maxStack, consumers)
    ensures IsOpened(g, maxStack, ExplicitGraph(g, consumers))
  {
    forall n: nat | n < |g|
      ensures g[n].openRead == None ==>
        exists any: nat :: Opened(g[n].operands, any, ExplicitNode(g, consumers, n).operands)
      ensures forall p: nat, base: nat :: Hands(g, maxStack, p, n, base) ==>
        Opened(g[n].operands, base, ExplicitNode(g, consumers, n).operands)
    {
      var base := if n in consumers then consumers[n] else 0;
      OpenedIs(g[n].operands, base);
      assert Opened(g[n].operands, base, ExplicitNode(g, consumers, n).operands);
      forall p: nat, base: nat | Hands(g, maxStack, p, n, base) ensures n in consumers && consumers[n] == base {
        HandsIs(g, maxStack, p, n);
      }
    }
  }

  /** The certificate of `g` is that of the graph with its packs opened. */
  ghost predicate OpenedCertifies(g: Graph, maxStack: nat, params: nat, output: Certificate) {
    exists out :: IsOpened(g, maxStack, out) && Certifies(out, params, output)
  }

  // ----- the frame and the rewritten graph side by side -----

  ghost predicate PackShapes(g: Graph) {
    forall n: nat :: n < |g| ==> PackShape(g[n]) && (g[n].name in {CALL, GETVARARGS} ==> g[n].edgeTops == map[])
  }

  /** Everything the rewrite starts from. */
  ghost predicate Packed(g: Graph, maxStack: nat, consumers: map<nat, Reg>) {
    && WellFormed(g, maxStack) && PackShapes(g) && Paired(g, maxStack) && RecordsConsumers(g, maxStack, consumers)
  }

  ghost predicate InPace(consumers: map<nat, Reg>, o: Oracle, a: PackState, b: State<Reg>) {
    match (a, b)
    case (Active(n, s, top, t), Running(n', s', t')) =>
      n == n' && s == s' && t == t' && (n in consumers ==> top == Open(consumers[n], PackOf(o, t)))
    case (Finished(t), Returned(t')) => t == t'
    case (Faulted(t), Stuck(t')) => t == t'
    case _ => false
  }

  lemma {:induction false} PlainReads(ops: seq<Operand<Reg>>, base: Reg, base': Reg)
    requires forall k :: 0 <= k < |ops| ==> !IsOpenFrom(ops[k])
    ensures OpenReads(ops, base) == OpenReads(ops, base')
  {
    if ops != [] { PlainReads(ops[1..], base, base'); }
  }

  lemma {:induction false} ErasedPack(ops: seq<Operand<Reg>>)
    requires forall k :: 0 <= k < |ops| && ops[k].Immediate? ==> !ops[k].data.OpenPack?
    ensures OpenPack in EraseAll(Immediates(ops)) <==> exists k :: 0 <= k < |ops| && IsOpenFrom(ops[k])
  {
    if ops != [] {
      ErasedPack(ops[1..]);
      if ops[0].Immediate? { assert Immediates(ops)[1..] == Immediates(ops[1..]); }
      assert forall k :: 0 < k < |ops| ==> ops[k] == ops[1..][k - 1];
      if k :| 0 <= k < |ops[1..]| && IsOpenFrom(ops[1..][k]) { assert IsOpenFrom(ops[k + 1]); }
      if k :| 0 < k < |ops| && IsOpenFrom(ops[k]) { assert IsOpenFrom(ops[1..][k - 1]); }
    }
  }

  lemma {:induction false} ConsumerIffOpenRead(g: Graph, maxStack: nat, consumers: map<nat, Reg>, n: nat)
    requires Packed(g, maxStack, consumers) && n < |g|
    ensures n in consumers <==> g[n].openRead.Some?
    ensures n in consumers ==> g[n].openRead.value <= consumers[n] < maxStack
    ensures n in consumers ==> g[n].name in {CALL, RETURN, SETLIST} && g[n].pc > 0
  {
    if n in consumers { var p: nat :| Feeds(g, maxStack, p, n); }
  }

  /** What a node is handed is the same on both sides: a consumer gets the registers below
      its producer's base, then that producer's pack. */
  lemma {:induction false} HandedAlike(g: Graph, maxStack: nat, consumers: map<nat, Reg>, o: Oracle, n: nat,
      s: map<Reg, Value>, top: OpenTop, t: seq<Event>)
    requires Packed(g, maxStack, consumers) && n < |g|
    requires n in consumers ==> top == Open(consumers[n], PackOf(o, t))
    ensures var regs, data := OpenReads(g[n].operands, TopBase(top)), EraseAll(Immediates(g[n].operands));
            && ReadList(ExplicitNode(g, consumers, n).operands) == regs
            && Immediates(ExplicitNode(g, consumers, n).operands) == data
            && (CanRead(g[n], s, top) <==> forall r :: r in regs ==> r in s)
            && (CanRead(g[n], s, top) ==>
                  Received(o, t, data, Args(s, regs)) ==
                    if g[n].openRead.Some? then Args(s, regs) + top.pack else Args(s, regs))
  {
    var ops := g[n].operands;
    var base := if n in consumers then consumers[n] else 0;
    ExplicitReads(ops, base);
    ExplicitData(ops, base);
    ConsumerIffOpenRead(g, maxStack, consumers, n);
    ErasedPack(ops);
    if n !in consumers { PlainReads(ops, base, TopBase(top)); }
  }

  lemma {:induction false} AfterAlike(g: Graph, consumers: map<nat, Reg>, n: nat, s: map<Reg, Value>, reply: Reply,
      e: nat)
    requires n < |g|
    ensures After(ExplicitNode(g, consumers, n), s, reply, e) == After(g[n], s, reply, e)
  {
    ExplicitWrites(g[n].operands, if n in consumers then consumers[n] else 0, e);
    assert ExplicitNode(g, consumers, n).EdgeKills(e) == g[n].EdgeKills(e);
  }

  /** What leaves no trace produces no pack. */
  ghost predicate HidesNoProducer(g: Graph, hidden: set<nat>) {
    forall n: nat :: n in hidden && n < |g| ==> !IsProducer(g[n])
  }

  /** A step into a consumer comes from its producer and brings the producer's pack. */
  lemma {:induction false} PackArrives(g: Graph, maxStack: nat, consumers: map<nat, Reg>, o: Oracle, hidden: set<nat>,
      n: nat, e: nat, top: OpenTop, t: seq<Event>, data: seq<Datum>, args: seq<Value>, reply: Reply)
    requires Packed(g, maxStack, consumers) && n < |g| && e < |g[n].edges| && g[n].edges[e] in consumers
    requires HidesNoProducer(g, hidden)
    requires reply == o(t, g[n].name, data, Received(o, t, data, args))
    ensures n !in hidden
    ensures TopAfterEffect(g[n].EdgeTop(e), TopAfterEffect(g[n].topWrite, top, reply.pack), reply.pack) ==
            Open(consumers[g[n].edges[e]], PackOf(o, t + [Event(g[n].name, data, args, e)]))
  {
    var c := g[n].edges[e];
    var p: nat :| Feeds(g, maxStack, p, c);
    assert IsEdge(g, n, e, c) && IsEdge(g, p, 0, c);
    SoleSource(g, c, |g|, n, e, p, 0);
    var longer := t + [Event(g[n].name, data, args, e)];
    assert longer[..|longer| - 1] == t;
  }

  lemma {:induction false} PackLockstep(g: Graph, maxStack: nat, consumers: map<nat, Reg>, o: Oracle, hidden: set<nat>,
      a: PackState, b: State<Reg>)
    requires Packed(g, maxStack, consumers) && InPace(consumers, o, a, b)
    requires HidesNoProducer(g, hidden)
    ensures InPace(consumers, o, PackStep(g, o, hidden, a), Step(ExplicitGraph(g, consumers), Implicit(o), hidden, b))
  {
    hide Packed, HidesNoProducer, Received, PackOf;
    if a.Active? && a.at < |g| {
      var n, node, out := a.at, g[a.at], ExplicitNode(g, consumers, a.at);
      HandedAlike(g, maxStack, consumers, o, n, a.store, a.top, a.trace);
      if CanRead(node, a.store, a.top) && node.edges != [] {
        var args := Args(a.store, OpenReads(node.operands, TopBase(a.top)));
        var data := EraseAll(Immediates(node.operands));
        var reply := Ask(Implicit(o), out, a.trace, args);
        var e := Taken(reply, |node.edges|);
        AfterAlike(g, consumers, n, a.store, reply, e);
        if node.edges[e] in consumers {
          if node.name == MOVE {
            MoveIsNoProducer(g, maxStack, consumers, n, e);
          } else {
            PackArrives(g, maxStack, consumers, o, hidden, n, e, a.top, a.trace, data, args, reply);
          }
        }
      }
    }
  }

  lemma {:induction false} MoveIsNoProducer(g: Graph, maxStack: nat, consumers: map<nat, Reg>, n: nat, e: nat)
    requires Packed(g, maxStack, consumers) && n < |g| && e < |g[n].edges| && g[n].name == MOVE
    ensures g[n].edges[e] !in consumers
  {
    if g[n].edges[e] in consumers {
      var p: nat :| Feeds(g, maxStack, p, g[n].edges[e]);
      assert IsEdge(g, n, e, g[n].edges[e]) && IsEdge(g, p, 0, g[n].edges[e]);
      SoleSource(g, g[n].edges[e], |g|, n, e, p, 0);
    }
  }

  lemma {:induction false} PackRuns(g: Graph, maxStack: nat, consumers: map<nat, Reg>, o: Oracle, hidden: set<nat>,
                 args: seq<Value>, steps: nat)
    requires Packed(g, maxStack, consumers)
    requires HidesNoProducer(g, hidden)
    ensures InPace(consumers, o, PackRun(g, o, hidden, PackEntry(args), steps),
                   Run(ExplicitGraph(g, consumers), Implicit(o), hidden, Entry(args), steps))
  {
    hide Step, PackStep;
    if steps > 0 {
      PackRuns(g, maxStack, consumers, o, hidden, args, steps - 1);
      PackLockstep(g, maxStack, consumers, o, hidden, PackRun(g, o, hidden, PackEntry(args), steps - 1),
                   Run(ExplicitGraph(g, consumers), Implicit(o), hidden, Entry(args), steps - 1));
    } else {
      RootConsumesNothing(g, maxStack, consumers);
    }
  }

  lemma {:induction false} RootConsumesNothing(g: Graph, maxStack: nat, consumers: map<nat, Reg>)
    requires Packed(g, maxStack, consumers)
    ensures 0 !in consumers
  {
    ConsumerIffOpenRead(g, maxStack, consumers, 0);
  }

  // ----- the rewritten graph is fit for the private-storage pass -----

  lemma {:induction false} ReadAllFits(regs: seq<Reg>, maxStack: nat)
    requires forall r :: r in regs ==> r < maxStack
    ensures forall op :: op in ReadAll(regs) ==> FitsFrame(op, maxStack)
  {
    if regs != [] {
      assert forall r :: r in regs[1..] ==> r in regs;
      ReadAllFits(regs[1..], maxStack);
      assert ReadAll(regs) == [Read(regs[0])] + ReadAll(regs[1..]);
      assert regs[0] in regs;
    }
  }

  lemma {:induction false} SpanBelow(low: nat, high: nat)
    ensures forall r :: r in Span(low, high) <==> low <= r < high
    decreases high - low
  {
    if low < high { SpanBelow(low + 1, high); }
  }

  lemma {:induction false} ExplicitFits(ops: seq<Operand<Reg>>, base: Reg, maxStack: nat)
    requires base <= maxStack && forall op :: op in ops ==> FitsFrame(op, maxStack)
    ensures forall op :: op in Explicit(ops, base) ==> FitsFrame(op, maxStack)
  {
    if ops != [] {
      ExplicitFits(ops[1..], base, maxStack);
      assert ops[0] in ops;
      if IsOpenFrom(ops[0]) {
        SpanBelow(ops[0].data.start, base);
        ReadAllFits(Span(ops[0].data.start, base), maxStack);
      }
    }
  }

  /** Operands without a pack are rewritten to themselves, up to an erased result base. */
  lemma {:induction false} ExplicitPlain(ops: seq<Operand<Reg>>, base: Reg)
    requires forall k :: 0 <= k < |ops| ==> !IsOpenFrom(ops[k])
    ensures |Explicit(ops, base)| == |ops|
    ensures forall k :: 0 <= k < |ops| ==>
      if ops[k].Immediate? then Explicit(ops, base)[k].Immediate? else Explicit(ops, base)[k] == ops[k]
  {
    if ops != [] {
      ExplicitPlain(ops[1..], base);
      assert Explicit(ops, base) == ExplicitOperand(ops[0], base) + Explicit(ops[1..], base);
      assert |ExplicitOperand(ops[0], base)| == 1;
    }
  }

  lemma {:induction false} ExplicitShape(g: Graph, maxStack: nat, consumers: map<nat, Reg>, n: nat)
    requires Packed(g, maxStack, consumers) && n < |g|
    ensures forall k ::
        0 <= k < |ExplicitNode(g, consumers, n).operands| ==>
          FitsFrame(ExplicitNode(g, consumers, n).operands[k], maxStack)
    ensures IsLookup(g[n].name) ==> LookupShape(ExplicitNode(g, consumers, n))
    ensures g[n].name == MOVE ==> MoveShape(ExplicitNode(g, consumers, n))
  {
    var ops, out := g[n].operands, ExplicitNode(g, consumers, n);
    ConsumerIffOpenRead(g, maxStack, consumers, n);
    forall op | op in ops ensures FitsFrame(op, maxStack) {
      var k :| 0 <= k < |ops| && ops[k] == op;
      assert FitsFrame(ops[k], maxStack);
    }
    ExplicitFits(ops, if n in consumers then consumers[n] else 0, maxStack);
    assert forall e :: out.EdgeKills(e) == g[n].EdgeKills(e);
    if IsLookup(g[n].name) || g[n].name == MOVE {
      ExplicitPlain(ops, 0);
    }
  }

  lemma {:induction false} ExplicitWellFormed(g: Graph, maxStack: nat, consumers: map<nat, Reg>)
    requires Packed(g, maxStack, consumers)
    ensures WellFormed(ExplicitGraph(g, consumers), maxStack)
  {
    hide ExplicitOperand, Explicit, Paired, RecordsConsumers;
    forall n: nat | n < |g|
      ensures forall k ::
          0 <= k < |ExplicitNode(g, consumers, n).operands| ==>
            FitsFrame(ExplicitNode(g, consumers, n).operands[k], maxStack)
      ensures IsLookup(g[n].name) ==> LookupShape(ExplicitNode(g, consumers, n))
      ensures g[n].name == MOVE ==> MoveShape(ExplicitNode(g, consumers, n))
    {
      ExplicitShape(g, maxStack, consumers, n);
    }
  }

  /** The same paths lead to the same nodes with the same definitions and tops. */
  lemma {:induction false} ExplicitPaths(g: Graph, params: nat, consumers: map<nat, Reg>, path: seq<nat>)
    requires |g| > 0
    ensures IsPath(ExplicitGraph(g, consumers), path) <==> IsPath(g, path)
    ensures EndOf(ExplicitGraph(g, consumers), path) == EndOf(g, path)
    ensures FlowOf(ExplicitGraph(g, consumers), params, path) == FlowOf(g, params, path)
    decreases |path|
  {
    if path != [] {
      var before, e := path[..|path| - 1], path[|path| - 1];
      ExplicitPaths(g, params, consumers, before);
      var n := EndOf(g, before);
      if n < |g| {
        ExplicitWrites(g[n].operands, if n in consumers then consumers[n] else 0, e);
        var out := ExplicitNode(g, consumers, n);
        assert out.EdgeKills(e) == g[n].EdgeKills(e) && out.EdgeTop(e) == g[n].EdgeTop(e);
      }
    }
  }

  /** On every path a consumer's top is its producer's base. */
  lemma {:induction false} ConsumerTop(g: Graph, maxStack: nat, params: nat, consumers: map<nat, Reg>, path: seq<nat>,
      c: nat)
    requires Packed(g, maxStack, consumers) && PathTo(g, path, c) && c in consumers
    ensures FlowOf(g, params, path).top == Base(consumers[c])
  {
    RootConsumesNothing(g, maxStack, consumers);
    var before, e := path[..|path| - 1], path[|path| - 1];
    var n := EndOf(g, before);
    var p: nat :| Feeds(g, maxStack, p, c);
    assert IsEdge(g, n, e, c) && IsEdge(g, p, 0, c);
    SoleSource(g, c, |g|, n, e, p, 0);
  }

  lemma {:induction false} OpenReadsAre(ops: seq<Operand<Reg>>, base: Reg, r: Reg)
    requires r in OpenReads(ops, base)
    ensures r in ReadList(ops) || exists k :: 0 <= k < |ops| && IsOpenFrom(ops[k]) && ops[k].data.start <= r < base
  {
    if r !in ReadList(ops) {
      if IsOpenFrom(ops[0]) && r in Span(ops[0].data.start, base) {
        SpanBelow(ops[0].data.start, base);
      } else {
        OpenReadsAre(ops[1..], base, r);
        var k :| 0 <= k < |ops[1..]| && IsOpenFrom(ops[1..][k]) && ops[1..][k].data.start <= r < base;
        assert IsOpenFrom(ops[k + 1]);
      }
    }
  }

  lemma {:induction false} ExplicitSafe(g: Graph, maxStack: nat, params: nat, consumers: map<nat, Reg>, path: seq<nat>,
      n: nat)
    requires Packed(g, maxStack, consumers) && PathTo(g, path, n) && n < |g| && SafeRead(g[n], FlowOf(g, params, path))
    ensures SafeRead(ExplicitNode(g, consumers, n), FlowOf(g, params, path))
  {
    assert PackShape(g[n]);
    hide Packed, FlowOf, IsPath, EndOf, Explicit, OpenReads;
    var base := if n in consumers then consumers[n] else 0;
    ExplicitReads(g[n].operands, base);
    ConsumerIffOpenRead(g, maxStack, consumers, n);
    if n in consumers { ConsumerTop(g, maxStack, params, consumers, path, n); }
    forall r | r in OpenReads(g[n].operands, base) ensures r in FlowOf(g, params, path).defs {
      OpenReadIsDefined(g[n], base, FlowOf(g, params, path), r);
    }
  }

  lemma {:induction false} OpenReadIsDefined(n: Node<Reg>, base: Reg, f: Flow, r: Reg)
    requires PackShape(n) && SafeRead(n, f) && r in OpenReads(n.operands, base)
    requires n.openRead.Some? ==> f.top == Base(base)
    ensures r in f.defs
  {
    OpenReadsAre(n.operands, base, r);
    assert r in ReadList(n.operands) ==> r in n.Reads();
  }

  lemma {:induction false} ExplicitWellDefined(g: Graph, maxStack: nat, params: nat, consumers: map<nat, Reg>)
    requires Packed(g, maxStack, consumers) && WellDefined(g, params)
    ensures WellDefined(ExplicitGraph(g, consumers), params)
  {
    assert |g| > 0;
    hide Packed, SafeRead, FlowOf, IsPath, EndOf;
    var out := ExplicitGraph(g, consumers);
    forall path, n: nat | PathTo(out, path, n) && n < |out| ensures SafeRead(out[n], FlowOf(out, params, path)) {
      ExplicitPaths(g, params, consumers, path);
      assert PathTo(g, path, n);
      ExplicitSafe(g, maxStack, params, consumers, path, n);
    }
  }

  lemma {:induction false} ExplicitReachable(g: Graph, params: nat, consumers: map<nat, Reg>)
    requires |g| > 0 && AllReachable(g)
    ensures AllReachable(ExplicitGraph(g, consumers))
  {
    forall n: nat | n < |g| ensures Reachable(ExplicitGraph(g, consumers), n) {
      assert Reachable(g, n);
      var path :| PathTo(g, path, n);
      ExplicitPaths(g, params, consumers, path);
      assert PathTo(ExplicitGraph(g, consumers), path, n);
    }
  }

  // ----- the certificate -----

  ghost predicate PackMeets(g: Graph, hidden: set<nat>, output: Certificate, o: Oracle, args: seq<Value>, single: nat,
      steps: nat)
  {
    var a := PackRun(g, o, hidden, PackEntry(args), single);
    var b := Run(output, Implicit(o), {}, NamedEntry(args), steps);
    ((a.Active? && b.Running?) || (a.Finished? && b.Returned?)) && a.trace == b.trace
  }

  ghost predicate PackMet(g: Graph, hidden: set<nat>, output: Certificate, o: Oracle, args: seq<Value>, steps: nat) {
    exists single: nat :: PackMeets(g, hidden, output, o, args, single, steps)
  }

  ghost predicate PackReached(g: Graph, hidden: set<nat>, output: Certificate, o: Oracle, args: seq<Value>, single: nat)
  {
    exists steps: nat :: PackMeets(g, hidden, output, o, args, single, steps)
  }

  /** The frame with its dynamic top and the certificate without one meet at every point. */
  ghost predicate PreservesPacks(g: Graph, params: nat, hidden: set<nat>, output: Certificate, o: Oracle) {
    forall args: seq<Value> :: |args| == params ==>
      && (forall steps: nat :: PackMet(g, hidden, output, o, args, steps))
      && (forall single: nat :: PackReached(g, hidden, output, o, args, single))
  }

  lemma {:induction false} MeetsInPace(g: Graph, maxStack: nat, consumers: map<nat, Reg>, hidden: set<nat>,
      output: Certificate, o: Oracle, args: seq<Value>, single: nat, steps: nat)
    requires Packed(g, maxStack, consumers)
    requires HidesNoProducer(g, hidden)
    requires Meets(ExplicitGraph(g, consumers), hidden, output, Implicit(o), args, single, steps)
    ensures PackMeets(g, hidden, output, o, args, single, steps)
  {
    hide Packed, Run, PackRun, PackOf, Implicit;
    PackRuns(g, maxStack, consumers, o, hidden, args, single);
  }

  lemma {:induction false} PacksPreserved(g: Graph, maxStack: nat, params: nat, consumers: map<nat, Reg>,
      hidden: set<nat>, output: Certificate, o: Oracle)
    requires Packed(g, maxStack, consumers)
    requires HidesNoProducer(g, hidden)
    requires PreservesUnder(ExplicitGraph(g, consumers), params, hidden, output, Implicit(o))
    ensures PreservesPacks(g, params, hidden, output, o)
  {
    hide Packed, Meets, PackMeets;
    var out := ExplicitGraph(g, consumers);
    forall args: seq<Value> | |args| == params
      ensures forall steps: nat :: PackMet(g, hidden, output, o, args, steps)
      ensures forall single: nat :: PackReached(g, hidden, output, o, args, single)
    {
      forall steps: nat ensures PackMet(g, hidden, output, o, args, steps) {
        assert Met(out, hidden, output, Implicit(o), args, steps);
        var single: nat :| Meets(out, hidden, output, Implicit(o), args, single, steps);
        MeetsInPace(g, maxStack, consumers, hidden, output, o, args, single, steps);
      }
      forall single: nat ensures PackReached(g, hidden, output, o, args, single) {
        assert Reached(out, hidden, output, Implicit(o), args, single);
        var steps: nat :| Meets(out, hidden, output, Implicit(o), args, single, steps);
        MeetsInPace(g, maxStack, consumers, hidden, output, o, args, single, steps);
      }
    }
  }

  lemma {:induction false} MovesAreNoProducers(g: Graph, consumers: map<nat, Reg>, hidden: set<nat>)
    requires forall m ::
        m in hidden ==> m < |ExplicitGraph(g, consumers)| && ExplicitGraph(g, consumers)[m].name == MOVE
    ensures HidesNoProducer(g, hidden)
  {
  }

  /** Pair the packs, make them implicit, then the private-storage pass; nothing when some
      pack has no adjacent consumer. */
  method AdjacentPackCertificate(g: Graph, maxStack: nat, params: nat)
    returns (paired: bool, output: Certificate, hidden: set<nat>)
    requires WellFormed(g, maxStack) && PackShapes(g) && params <= maxStack && AllReachable(g) && WellDefined(g, params)
    ensures paired <==> PairsUp(g, maxStack) && exists n: nat :: n < |g| && LeavesPack(g[n])
    ensures paired ==> OpenedCertifies(g, maxStack, params, output)
    ensures paired ==> forall o :: PreservesPacks(g, params, hidden, output, o)
  {
    PairedIs(g, maxStack);
    hide PairsUp, LeavesPack, IsOpened, Certifies;
    hide WellFormed, PackShapes, AllReachable, WellDefined, Paired, RecordsConsumers, ExplicitGraph, PreservesPacks,
      PreservesUnder;
    var consumers;
    paired, consumers := PairPacks(g, maxStack);
    if !paired { return false, [], {}; }
    ExplicitWellFormed(g, maxStack, consumers);
    ExplicitWellDefined(g, maxStack, params, consumers);
    ExplicitReachable(g, params, consumers);
    output, hidden := PrivateCopyGraph(ExplicitGraph(g, consumers), maxStack, params);
    ExplicitIsOpened(g, maxStack, consumers);
    MovesAreNoProducers(g, consumers, hidden);
    forall o ensures PreservesPacks(g, params, hidden, output, o) {
      assert PreservesUnder(ExplicitGraph(g, consumers), params, hidden, output, Implicit(o));
      PacksPreserved(g, maxStack, params, consumers, hidden, output, o);
    }
  }
}
