/** What a proof by symbolic trees means: the machine runs each function exactly as its tree
    says, and functions with equal trees behave alike in every environment. */
module AcyclicProof {
  import opened Options
  import opened Events
  import opened Bytecode
  import opened SymbolicTree
  import opened TreeRuns
  import opened RegisterMachine
  import opened Supplies
  import opened TreeNormal
  import opened Lockstep
  import opened ExecSound
  import opened ExecNormal

  // ----- the trees of closures do not depend on nesting -----

  function WithBodies(ctx: Context, bodies: nat -> Option<Tree>): Context { ctx.(bodies := bodies) }

  ghost predicate Extends(bodies: nat -> Option<Tree>, more: nat -> Option<Tree>) {
    forall id: nat :: bodies(id).Some? ==> more(id) == bodies(id)
  }

  lemma {:induction false} ClosureMonotone(ctx: Context, more: nat -> Option<Tree>, sym: Sym, offset: nat, a: nat,
      child: nat, shared: bool, key: nat, next: int)
    requires ValidContext(ctx) && Extends(ctx.bodies, more)
    requires !SymClosure(ctx, sym, offset, a, child, shared, key, next).Refuse?
    ensures SymClosure(WithBodies(ctx, more), sym, offset, a, child, shared, key, next)
        == SymClosure(ctx, sym, offset, a, child, shared, key, next)
  {
    hide CapturesAt, Write, EmitTo, SymCaptures;
  }

  lemma {:induction false} StepMonotone(ctx: Context, more: nat -> Option<Tree>, sym: Sym, offset: nat, pc: int)
    requires ValidContext(ctx) && pc in ProtoOf(ctx).code && Extends(ctx.bodies, more)
    requires !SymStep(ctx, sym, offset, pc).Refuse?
    ensures SymStep(WithBodies(ctx, more), sym, offset, pc) == SymStep(ctx, sym, offset, pc)
  {
    hide PackAt, SymClosure, Read, Assign, OperandTerms, OperandTerm, Emit, EmitTo, EmitOnly, SymResults, SymFastCall;
    var insn, next := ProtoOf(ctx).code[pc].insn, ProtoOf(ctx).code[pc].next;
    if insn.NewClosure? { ClosureMonotone(ctx, more, sym, offset, insn.a, insn.child, false, 0, next); }
    if insn.DupClosure? { ClosureMonotone(ctx, more, sym, offset, insn.a, insn.child, true, insn.constant, next); }
  }

  /** More known children only turn refusals into trees. */
  lemma {:induction false} ExecMonotone(ctx: Context, more: nat -> Option<Tree>, pc: int, sym: Sym, offset: nat,
      seen: set<int>)
    requires ValidContext(ctx) && Extends(ctx.bodies, more) && Exec(ctx, true, pc, sym, offset, seen).Some?
    ensures Exec(WithBodies(ctx, more), true, pc, sym, offset, seen) == Exec(ctx, true, pc, sym, offset, seen)
    decreases ProtoOf(ctx).code.Keys - seen
  {
    hide SymStep, NativeFrame, Joined, Extends;
    OneFewer(ProtoOf(ctx).code, seen, pc);
    var plan := SymStep(ctx, sym, offset, pc);
    StepMonotone(ctx, more, sym, offset, pc);
    match plan
    case Continue(next, after) => ExecMonotone(ctx, more, next, after, offset, seen + {pc});
    case Fork(cond, yes, no, after) =>
      var start, now := Sym(after.frame, after.shared, []), offset + |after.events|;
      ExecMonotone(ctx, more, yes, start, now, seen + {pc});
      ExecMonotone(ctx, more, no, start, now, seen + {pc});
    case Attempt(site, next, builtin, immediates, args, after) =>
      var now := offset + |after.events|;
      ExecMonotone(ctx, more, site.after, Sym(NativeFrame(after.frame, site, now), map[], []), now + 1, seen + {pc});
      ExecMonotone(ctx, more, next, Sym(after.frame, map[], []), now, seen + {pc});
    case Finish(pack, after) =>
  }

  lemma {:induction false} DepthIrrelevant(chunk: Chunk, names: Names, p: nat, depth: nat)
    requires ValidChunk(chunk) && p < |chunk.protos| && TreeOf(chunk, names, p, depth + 1).Some?
    ensures TreeOf(chunk, names, p, depth) == TreeOf(chunk, names, p, depth + 1)
    decreases 33 - depth, 0
  {
    hide Exec, Extends, StartSym;
    var deep, shallow := ContextAt(chunk, names, p, depth + 1), BodiesAt(chunk, names, depth + 1);
    BodiesExtend(chunk, names, depth + 1);
    ExecMonotone(deep, shallow, 0, StartSym(chunk.protos[p]), 0, {});
  }

  lemma {:induction false} BodiesExtend(chunk: Chunk, names: Names, depth: nat)
    requires ValidChunk(chunk)
    ensures Extends(BodiesAt(chunk, names, depth + 1), BodiesAt(chunk, names, depth))
    decreases 33 - depth, 1
  {
    forall id: nat | BodiesAt(chunk, names, depth + 1)(id).Some?
      ensures BodiesAt(chunk, names, depth)(id) == BodiesAt(chunk, names, depth + 1)(id)
    {
      DepthIrrelevant(chunk, names, id, depth);
    }
  }

  lemma {:induction false} DepthZero(chunk: Chunk, names: Names, p: nat, depth: nat)
    requires ValidChunk(chunk) && p < |chunk.protos| && TreeOf(chunk, names, p, depth).Some?
    ensures TreeOf(chunk, names, p, 0) == TreeOf(chunk, names, p, depth)
  {
    hide TreeOf;
    if depth > 0 {
      DepthIrrelevant(chunk, names, p, depth - 1);
      DepthZero(chunk, names, p, depth - 1);
    }
  }

  // ----- soundness of whole functions -----

  /** What a closure of prototype `id` is, to whoever holds it. */
  ghost function Meaning(chunk: Chunk, names: Names): nat -> Tree
    requires ValidChunk(chunk)
  {
    (id: nat) =>
      if id < |chunk.protos| && TreeOf(chunk, names, id, 0).Some? then TreeOf(chunk, names, id, 0).value
      else Tree(0, 0, false, Segment([], Return(Pack([], None))))
  }

  ghost function MachineOf(chunk: Chunk, names: Names, p: nat): Running
    requires ValidChunk(chunk)
  {
    Running(chunk, p, names, Meaning(chunk, names))
  }

  /** When nothing can reach an upvalue cell except through events, cells keep still between them. */
  ghost predicate Trusted(chunk: Chunk, w: World)
    requires ValidChunk(chunk)
  {
    ClosedCaptures(chunk) ==> w.steady
  }

  lemma {:induction false} BeginningFree(s: Supply)
    requires NeverReused(s)
    ensures Free(Beginning, s) && Ready(Beginning, 0)
  {
  }

  lemma {:induction false} BodyIs(chunk: Chunk, names: Names, depth: nat, id: nat)
    requires ValidChunk(chunk) && BodiesAt(chunk, names, depth)(id).Some?
    ensures id < |chunk.protos| && TreeOf(chunk, names, id, depth) == BodiesAt(chunk, names, depth)(id)
  {
  }

  lemma {:induction false} ContextFits(chunk: Chunk, names: Names, p: nat, depth: nat, w: World)
    requires ValidChunk(chunk) && p < |chunk.protos| && depth <= 32 && Trusted(chunk, w)
    ensures Fits(ContextAt(chunk, names, p, depth), MachineOf(chunk, names, p), w)
  {
    hide TreeOf;
    var ctx, m := ContextAt(chunk, names, p, depth), MachineOf(chunk, names, p);
    assert ctx.bodies == BodiesAt(chunk, names, depth + 1);
    forall id: nat | ctx.bodies(id).Some? ensures m.meaning(id) == ctx.bodies(id).value {
      BodyIs(chunk, names, depth + 1, id);
      DepthZero(chunk, names, id, depth + 1);
    }
  }

  lemma {:induction false} StartRel(proto: Proto, w: World, params: seq<Val>)
    ensures SymRel(w, params, StartSym(proto), 0, Entry(proto, params), Beginning) && SymLive(StartSym(proto), 0)
  {
    var f, g := StartSym(proto).frame, Entry(proto, params).frame;
    forall r | r in f.regs ensures HoldsAt(params, map[], f, g, r) { }
  }

  /** The tree before any segment is normalised or arms are merged. */
  ghost function RawTree(chunk: Chunk, names: Names, p: nat, depth: nat): Option<Segment>
    requires ValidChunk(chunk) && p < |chunk.protos|
  {
    if depth > 32 then None else Exec(ContextAt(chunk, names, p, depth), false, 0, StartSym(chunk.protos[p]), 0, {})
  }

  lemma {:induction false} RawTreeEquivalent(chunk: Chunk, names: Names, p: nat, depth: nat, w: World, params: seq<Val>)
    requires ValidChunk(chunk) && p < |chunk.protos| && TreeOf(chunk, names, p, depth).Some?
    ensures depth <= 32 && RawTree(chunk, names, p, depth).Some?
    ensures Equivalent(w, params, RawTree(chunk, names, p, depth).value, TreeOf(chunk, names, p, depth).value.body, 0)
  {
    hide Exec, Equivalent, SymLive, StartSym, SymRel;
    StartRel(chunk.protos[p], w, params);
    ExecEquivalent(ContextAt(chunk, names, p, depth), w, params, 0, StartSym(chunk.protos[p]), 0, {});
  }

  /** The machine does, step for step, what the tree before normalisation says. */
  lemma {:induction false} RawTreeSound(chunk: Chunk, names: Names, p: nat, depth: nat, w: World, supply: Supply,
      params: seq<Val>, n: nat)
    requires ValidChunk(chunk) && p < |chunk.protos| && depth <= 32 && RawTree(chunk, names, p, depth).Some?
    requires Trusted(chunk, w)
    requires n >= |chunk.protos[p].code|
    ensures RunFor(MachineOf(chunk, names, p), w, supply, Entry(chunk.protos[p], params), n)
         == Some(RunSegment(w, supply, params, Beginning, RawTree(chunk, names, p, depth).value, 0))
  {
    hide Exec, RunFor, RunSegment, SymRel, SymLive, StartSym, Entry, Fits, TreeOf;
    var proto, ctx, m := chunk.protos[p], ContextAt(chunk, names, p, depth), MachineOf(chunk, names, p);
    StartRel(proto, w, params);
    ContextFits(chunk, names, p, depth, w);
    assert proto.code.Keys - {} == proto.code.Keys && |proto.code.Keys| == |proto.code|;
    StartEvents(proto, w, supply, params);
    RawSound(ctx, m, w, supply, params, Beginning, 0, 0, StartSym(proto), {}, Entry(proto, params), n);
  }

  lemma {:induction false} StartEvents(proto: Proto, w: World, supply: Supply, params: seq<Val>)
    ensures StartSym(proto).events == [] && Spotted(w, supply, params, Beginning, StartSym(proto), 0) == Beginning
    ensures Entry(proto, params).pc == 0
  {
  }

  lemma {:induction false} FreeApart(c: Spot, s: Supply)
    requires Free(c, s)
    ensures NeverReused(s)
  {
  }

  lemma {:induction false} SomeSupply(w: World, params: seq<Val>, one: Segment, other: Segment, supply: Supply)
    returns (supply': Supply)
    requires Covers(w, params, one, other, 0) && NeverReused(supply)
    ensures NeverReused(supply')
    ensures RunSegment(w, supply, params, Beginning, one, 0) == RunSegment(w, supply', params, Beginning, other, 0)
  {
    hide RunSegment, Free, Ready, Agree, NeverReused;
    BeginningFree(supply);
    assert Covered(w, params, one, other, 0, Beginning, supply);
    supply' :| Alternative(w, params, one, other, 0, Beginning, supply, supply');
    FreeApart(Beginning, supply');
  }

  /** Whatever the machine does, the tree says. */
  lemma {:induction false} TreeSound(chunk: Chunk, names: Names, p: nat, depth: nat, w: World, supply: Supply,
      params: seq<Val>, n: nat)
    returns (supply': Supply)
    requires ValidChunk(chunk) && p < |chunk.protos| && TreeOf(chunk, names, p, depth).Some? && Trusted(chunk, w)
    requires n >= |chunk.protos[p].code| && NeverReused(supply)
    ensures NeverReused(supply')
    ensures RunFor(MachineOf(chunk, names, p), w, supply, Entry(chunk.protos[p], params), n)
         == Some(RunTree(w, supply', params, TreeOf(chunk, names, p, depth).value))
  {
    hide RawTree, RunFor, RunSegment, TreeOf, Entry, Covers, NeverReused;
    RawTreeEquivalent(chunk, names, p, depth, w, params);
    RawTreeSound(chunk, names, p, depth, w, supply, params, n);
    supply' := SomeSupply(w, params, RawTree(chunk, names, p, depth).value, TreeOf(chunk, names, p, depth).value.body,
      supply);
  }

  /** Whatever the tree says, the machine does. */
  lemma {:induction false} TreeComplete(chunk: Chunk, names: Names, p: nat, depth: nat, w: World, supply: Supply,
      params: seq<Val>, n: nat)
    returns (supply': Supply)
    requires ValidChunk(chunk) && p < |chunk.protos| && TreeOf(chunk, names, p, depth).Some? && Trusted(chunk, w)
    requires n >= |chunk.protos[p].code| && NeverReused(supply)
    ensures NeverReused(supply')
    ensures RunFor(MachineOf(chunk, names, p), w, supply', Entry(chunk.protos[p], params), n)
         == Some(RunTree(w, supply, params, TreeOf(chunk, names, p, depth).value))
  {
    hide RawTree, RunFor, RunSegment, TreeOf, Entry, Covers, NeverReused;
    RawTreeEquivalent(chunk, names, p, depth, w, params);
    supply' := SomeSupply(w, params, TreeOf(chunk, names, p, depth).value.body, RawTree(chunk, names, p, depth).value,
      supply);
    RawTreeSound(chunk, names, p, depth, w, supply', params, n);
  }

  /** The machine never gets stuck on a function that has a tree, and always returns. */
  lemma {:induction false} TreeReturns(w: World, supply: Supply, params: seq<Val>, c: Spot, seg: Segment, offset: nat)
    ensures RunSegment(w, supply, params, c, seg, offset).Returned?
    decreases seg
  {
    hide RunEvents, Judge, TryNative;
    var after, now := RunEvents(w, supply, params, c, seg.events, offset), offset + |seg.events|;
    match seg.end
    case Return(_) =>
    case Branch(cond, yes, no) =>
      var next := Judge(w, params, after, cond).0;
      TreeReturns(w, supply, params, next, yes, now);
      TreeReturns(w, supply, params, next, no, now);
    case FastCall(builtin, immediates, args, native, fallback) =>
      var next := TryNative(w, params, after, builtin, immediates, args).0;
      TreeReturns(w, supply, params, next, native, now);
      TreeReturns(w, supply, params, next, fallback, now);
  }

  /** Two functions with equal trees: every behaviour of the one, in any environment and on any
      arguments, is a behaviour of the other. */
  lemma {:induction false} EqualTreesBehaveAlike(one: Chunk, names: Names, p: nat, depth: nat, other: Chunk,
      names': Names, q: nat, depth': nat, w: World, supply: Supply, params: seq<Val>, n: nat)
    returns (supply': Supply)
    requires ValidChunk(one) && p < |one.protos| && ValidChunk(other) && q < |other.protos|
    requires TreeOf(one, names, p, depth).Some? && TreeOf(other, names', q, depth') == TreeOf(one, names, p, depth)
    requires Trusted(one, w) && Trusted(other, w) && NeverReused(supply)
    requires n >= |one.protos[p].code| && n >= |other.protos[q].code|
    ensures NeverReused(supply')
    ensures var run := RunFor(MachineOf(one, names, p), w, supply, Entry(one.protos[p], params), n);
            run.Some? && run.value.Returned?
            && run == RunFor(MachineOf(other, names', q), w, supply', Entry(other.protos[q], params), n)
  {
    hide RunFor, TreeOf, Entry, RunSegment;
    var between := TreeSound(one, names, p, depth, w, supply, params, n);
    supply' := TreeComplete(other, names', q, depth', w, between, params, n);
    TreeReturns(w, between, params, Beginning, TreeOf(one, names, p, depth).value.body, 0);
  }
}
