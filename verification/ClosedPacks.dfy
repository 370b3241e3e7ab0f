/** All rewrites of the widest certificate in their order: packs between neighbours are made
    implicit, closed reads are dropped from what that leaves, and private storage is renamed. */
module ClosedPacks {
  import opened Options
  import opened RegisterGraph
  import opened Definitions
  import opened Relabelling
  import opened Renaming
  import opened PrivateCopies
  import opened AdjacentPacks
  import opened ClosedReads

  /** Some instruction leaves or reads an open pack. */
  ghost predicate Opens(g: Graph) {
    exists n: nat :: n < |g| && (LeavesPack(g[n]) || g[n].openRead != None)
  }

  /** An environment in which reads change nothing is one without a dynamic top, too: reading a cell
      hands over no pack. */
  lemma {:induction false} SilentImplicit(o: Oracle)
    requires ReadsAreSilent(o)
    ensures ReadsAreSilent(Implicit(o))
  {
    forall t: seq<Event>, ev: Event, slot: int | ev.name == GETUPVAL ensures CellKept(Implicit(o), t, ev, slot) {
      assert CellKept(o, t, ev, slot);
      var data, none: seq<Value> := [Literal(slot)], [];
      assert OpenPack !in data;
      assert Received(o, t, data, none) == none && Received(o, t + [ev], data, none) == none;
    }
  }

  lemma {:induction false} ExplicitUpvalue(ops: seq<Operand<Reg>>, base: Reg)
    requires |ops| == 2 && ops[0].Write? && ops[1].Immediate? && ops[1].data.Literal?
    ensures Explicit(ops, base) == ops
  {
    var rest := ops[1..];
    assert rest[1..] == [] && Explicit(rest, base) == ExplicitOperand(rest[0], base) + Explicit(rest[1..], base);
    assert Explicit(ops, base) == ExplicitOperand(ops[0], base) + Explicit(rest, base);
  }

  /** Tests and reads look the same once the packs are implicit. */
  lemma {:induction false} ExplicitKeepsPlain(g: Graph, consumers: map<nat, Reg>)
    requires PlainShapes(g)
    ensures PlainShapes(ExplicitGraph(g, consumers))
  {
    forall n: nat | n < |g| && g[n].name == GETUPVAL ensures UpvalueShape(ExplicitNode(g, consumers, n)) {
      ExplicitUpvalue(g[n].operands, if n in consumers then consumers[n] else 0);
    }
  }

  /** What the later passes drop are tests, reads and moves. */
  lemma {:induction false} DroppedAreNoProducers(g: Graph, maxStack: nat, consumers: map<nat, Reg>, removed: set<nat>,
      order: seq<nat>, reduced: Graph, moves: set<nat>)
    requires ReducedTo(ExplicitGraph(g, consumers), maxStack, removed, order, reduced)
    requires forall m :: m in moves ==> m < |reduced| && reduced[m].name == MOVE
    ensures HidesNoProducer(g, removed + Renumbered(order, moves))
  {
    var out := ExplicitGraph(g, consumers);
    forall n: nat | n in removed + Renumbered(order, moves) && n < |g| ensures !IsProducer(g[n]) {
      assert out[n].name == g[n].name;
      if n in removed {
        assert Dropped(out, n);
        var i: nat :| i < |out| && IsTriangle(out, i) && DroppedBy(out, i, n);
      } else {
        var m :| m in moves && m < |order| && order[m] == n;
        assert Relabelled(Closed'(out), {}, order, reduced, m);
      }
    }
  }

  /** The certificate of `g` is that of the reduction of the graph with its packs opened. */
  ghost predicate OpenedReducedCertifies(g: Graph, maxStack: nat, params: nat, output: Certificate) {
    exists out :: IsOpened(g, maxStack, out) && ReducedCertifies(out, params, output)
  }

  /** The passes after the packs have been made implicit. */
  method ReduceExplicit(g: Graph, maxStack: nat, params: nat, consumers: map<nat, Reg>)
    returns (output: Certificate, hidden: set<nat>)
    requires Packed(g, maxStack, consumers) && PlainShapes(g) && params <= maxStack && AllReachable(g)
    requires WellDefined(g, params)
    ensures forall o :: ReadsAreSilent(o) ==> PreservesPacks(g, params, hidden, output, o)
    ensures OpenedReducedCertifies(g, maxStack, params, output)
  {
    var out := ExplicitGraph(g, consumers);
    ExplicitWellFormed(g, maxStack, consumers);
    ExplicitWellDefined(g, maxStack, params, consumers);
    ExplicitReachable(g, params, consumers);
    ExplicitKeepsPlain(g, consumers);
    ExplicitIsOpened(g, maxStack, consumers);
    ghost var removed, order, reduced, moves;
    output, hidden, removed, order, reduced, moves := ReduceAndRename(out, maxStack, params);
    DroppedAreNoProducers(g, maxStack, consumers, removed, order, reduced, moves);
    forall o | ReadsAreSilent(o) ensures PreservesPacks(g, params, hidden, output, o) {
      SilentImplicit(o);
      assert PreservesUnder(out, params, hidden, output, Implicit(o));
      PacksPreserved(g, maxStack, params, consumers, hidden, output, o);
    }
  }

  lemma {:induction false} ConsumersNeedProducers(g: Graph, maxStack: nat)
    ensures Opens(g) && Paired(g, maxStack) ==> exists n: nat :: n < |g| && IsProducer(g[n])
  {
  }

  /** The widest certificate, or none where an open pack has no neighbour to go to: then the exact
      storage of the function is kept. */
  method ClosedPackCertificate(g: Graph, maxStack: nat, params: nat)
    returns (rewritten: bool, output: Certificate, hidden: set<nat>)
    requires WellFormed(g, maxStack) && PackShapes(g) && PlainShapes(g)
    requires params <= maxStack && AllReachable(g) && WellDefined(g, params)
    ensures rewritten <==> (Opens(g) ==> PairsUp(g, maxStack))
    ensures rewritten && Opens(g) ==> OpenedReducedCertifies(g, maxStack, params, output)
    ensures rewritten && !Opens(g) ==> ReducedCertifies(g, params, output)
    ensures rewritten && Opens(g) ==> forall o :: ReadsAreSilent(o) ==> PreservesPacks(g, params, hidden, output, o)
    ensures rewritten && !Opens(g) ==> forall o :: ReadsAreSilent(o) ==> PreservesUnder(g, params, hidden, output, o)
  {
    PairedIs(g, maxStack);
    var open := exists n :: 0 <= n < |g| && (IsProducer(g[n]) || g[n].openRead.Some?);
    forall n: nat | n < |g| ensures LeavesPack(g[n]) <==> IsProducer(g[n]) { HandsIs(g, maxStack, n, 0); }
    assert open == Opens(g);
    if !open {
      output, hidden := ClosedReadCertificate(g, maxStack, params);
      return true, output, hidden;
    }
    var paired, consumers := PairPacks(g, maxStack);
    if !paired {
      ConsumersNeedProducers(g, maxStack);
      return false, [], {};
    }
    rewritten := true;
    output, hidden := ReduceExplicit(g, maxStack, params, consumers);
  }
}
