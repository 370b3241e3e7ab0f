/** Symbolic execution: acyclic bytecode becomes a register-free tree of ordered events. */
module SymbolicTree {
  import opened Options
  import opened Worklist
  import opened Events
  import opened PrivateTables
  import opened Bytecode

  type SymFrame = Frame<Term, nat>

  /** The registers, the upvalue reads that may be shared, and the events so far. */
  datatype Sym = Sym(frame: SymFrame, shared: map<nat, nat>, events: seq<Event>)

  type Names = map<(nat, nat), nat>

  /** What one prototype is executed against: closed captures, template numbers, and the
      trees of the chunk's prototypes. */
  datatype Context = Context(chunk: Chunk, p: nat, closed: bool, names: Names, bodies: nat -> Option<Tree>)

  predicate ValidContext(ctx: Context) { ctx.p < |ctx.chunk.protos| }

  function ProtoOf(ctx: Context): Proto
    requires ValidContext(ctx)
  {
    ctx.chunk.protos[ctx.p]
  }

  datatype Plan =
    | Refuse
    | Continue(pc: int, sym: Sym)
    | Fork(cond: Condition, yes: int, no: int, sym: Sym)
    | Attempt(site: FastSite, next: int, builtin: string, immediates: seq<int>, args: Pack, sym: Sym)
    | Finish(pack: Pack, sym: Sym)

  function OperandTerm(f: SymFrame, stack: nat, x: Operand): Option<Term> {
    match x case Lit(k) => Some(Const(k)) case Reg(r) => Read(f, stack, r)
  }

  function OperandTerms(f: SymFrame, stack: nat, xs: seq<Operand>): Option<seq<Term>> {
    if xs == [] then Some([])
    else
      match OperandTerms(f, stack, xs[..|xs| - 1])
      case None => None
      case Some(before) =>
        match OperandTerm(f, stack, xs[|xs| - 1]) case None => None case Some(t) => Some(before + [t])
  }

  /** Events that run no callback, so a pending open pack survives them. */
  predicate KeepsTop(name: string) {
    name in {"GETUPVAL", "SETUPVAL", "NEWTABLE", "DUPTABLE", "NEWCLOSURE", "DUPCLOSURE", "NOT", "AND", "OR", "CALL",
             "GETVARARGS", "SETLIST"}
  }

  /** Record an event; anything but an upvalue read ends the sharing of upvalue reads. */
  function Emit(closed: bool, sym: Sym, name: string, ev: Event): Option<Sym> {
    if sym.frame.top.Some? && !KeepsTop(name) && !(name == "NAMECALL" && closed) then None
    else Some(sym.(shared := if ev.GetUpvalue? then sym.shared else map[], events := sym.events + [ev]))
  }

  function Assign(sym: Sym, stack: nat, a: nat, t: Term, next: int): Plan {
    match Write(sym.frame, stack, a, t) case None => Refuse case Some(f) => Continue(next, sym.(frame := f))
  }

  /** Record an event and keep its value in a register. */
  function EmitTo(closed: bool, sym: Sym, offset: nat, stack: nat, a: nat, name: string, ev: Event, next: int): Plan {
    match Emit(closed, sym, name, ev)
    case None => Refuse
    case Some(after) => Assign(after, stack, a, Value(offset + |sym.events|), next)
  }

  function EmitOnly(closed: bool, sym: Sym, name: string, ev: Event, next: int): Plan {
    match Emit(closed, sym, name, ev) case None => Refuse case Some(after) => Continue(next, after)
  }

  function SymCapture(closed: bool, proto: Proto, sym: Sym, a: nat, shared: bool, capture: (nat, nat)): Option<Capture>
  {
    var (kind, source) := capture;
    if kind == 0 then
      if source == a then (if shared then None else Some(Itself))
      else match Read(sym.frame, proto.stack, source) case None => None case Some(t) => Some(Copied(t))
    else if kind == 2 && closed && source < proto.upvalues then Some(Forwarded(source))
    else None
  }

  function SymCaptures(closed: bool, proto: Proto, sym: Sym, a: nat, shared: bool,
      captures: seq<(nat, nat)>): Option<seq<Capture>>
  {
    if captures == [] then Some([])
    else
      match SymCaptures(closed, proto, sym, a, shared, captures[..|captures| - 1])
      case None => None
      case Some(before) =>
        match SymCapture(closed, proto, sym, a, shared, captures[|captures| - 1])
          case None => None case Some(c) => Some(before + [c])
  }

  function SymClosure(ctx: Context, sym: Sym, offset: nat, a: nat, child: nat, shared: bool, key: nat, next: int): Plan
    requires ValidContext(ctx)
  {
    var stack := ProtoOf(ctx).stack;
    if child >= |ctx.chunk.protos| || ctx.bodies(child).None? then Refuse
    else if shared && (ctx.p, key) !in ctx.names then Refuse
    // The machine stores the new closure before it reads the captures.
    else if !shared && Write(sym.frame, stack, a, Value(0)).None? then Refuse
    else
      var n := ctx.chunk.protos[child].upvalues;
      match CapturesAt(ProtoOf(ctx).code, next, n)
      case None => Refuse
      case Some(found) =>
        match SymCaptures(ctx.closed, ProtoOf(ctx), sym, a, shared, found)
        case None => Refuse
        case Some(captures) =>
          var template := if shared then Some(ctx.names[(ctx.p, key)]) else None;
          EmitTo(ctx.closed, sym, offset, stack, a, if shared then "DUPCLOSURE" else "NEWCLOSURE",
                 MakeClosure(shared, template, ctx.bodies(child).value, captures), next + n)
  }

  function SymFastCall(proto: Proto, sym: Sym, pc: int, kind: FastKind, builtin: int, skip: int): Plan
    requires pc in proto.code
  {
    match FastCallSite(proto, pc, builtin, skip)
    case None => Refuse
    case Some(site) =>
      var args :=
        if kind.Whole? then
          match PackAt(sym.frame, proto.stack, site.a + 1, site.args)
            case None => None case Some(p) => Some(Pack(p.0, p.1))
        else
          match FastOperands(kind)
          case None => None
          case Some(xs) => match OperandTerms(sym.frame, proto.stack, xs)
            case None => None case Some(ts) => Some(Pack(ts, None));
      if args.None? || (sym.frame.top.Some? && (kind.Three? || (!kind.Whole? && site.count != 0))) then Refuse
      else Attempt(site, proto.code[pc].next, FastName(kind), [builtin, site.args, site.count], args.value, sym)
  }

  /** One instruction other than a closure. */
  function PlainStep(proto: Proto, closed: bool, sym: Sym, offset: nat, pc: int): Plan
    requires pc in proto.code
  {
    var stack, next, f := proto.stack, proto.code[pc].next, sym.frame;
    var now := offset + |sym.events|;
    match proto.code[pc].insn
    case Nop => Continue(next, sym)
    case PrepVarargs(a) => if !proto.vararg || pc != 0 || a != proto.params then Refuse else Continue(next, sym)
    case Load(a, k) => Assign(sym, stack, a, Const(k), next)
    case LoadBool(a, flag, skip) => Assign(sym, stack, a, Const(Bool(flag)), pc + 1 + skip)
    case MoveReg(a, b) => (match Read(f, stack, b) case None => Refuse case Some(t) => Assign(sym, stack, a, t, next))
    case Operate(name, dest, args) =>
      (match OperandTerms(f, stack, args)
       case None => Refuse
       case Some(ts) =>
         var ev := Operation(name, [], Pack(ts, None));
         if dest.Some? then EmitTo(closed, sym, offset, stack, dest.value, name, ev, next)
           else EmitOnly(closed, sym, name, ev, next))
    case GetUpval(a, slot) =>
      if slot >= proto.upvalues then Refuse
      else if slot in sym.shared && closed then Assign(sym, stack, a, Value(sym.shared[slot]), next)
      else
        var after := sym.(shared := sym.shared[slot := now], events := sym.events + [GetUpvalue(slot)]);
        Assign(after, stack, a, Value(now), next)
    case SetUpval(a, slot) =>
      if slot >= proto.upvalues then Refuse
      else (match Read(f, stack, a)
            case None => Refuse
            case Some(t) => EmitOnly(closed, sym, "SETUPVAL", Operation("SETUPVAL", [slot], Pack([t], None)), next))
    case PutTable(a, table, key) =>
      (match (Read(f, stack, table), OperandTerm(f, stack, key), Read(f, stack, a))
       case (Some(t), Some(k), Some(v)) => EmitOnly(closed, sym, "SETTABLE", SetTable(t, k, v), next)
       case _ => Refuse)
    case NameCall(a, b, key) =>
      if next !in proto.code || !proto.code[next].insn.CallFn? then Refuse
      else if f.top.Some? && (a + 1 >= f.top.value.0 || b >= f.top.value.0) then Refuse
      else (match Read(f, stack, b)
            case None => Refuse
            case Some(receiver) =>
              match EmitTo(closed, sym, offset, stack, a, "NAMECALL",
                Operation("NAMECALL", [], Pack([receiver, Const(key)], None)), next)
              case Continue(_, after) => Assign(after, stack, a + 1, receiver, next)
              case _ => Refuse)
    case MakeTable(a, hash, slots) => EmitTo(closed, sym, offset, stack, a, "NEWTABLE", NewTable(hash, slots), next)
    case CopyTable(a, keyed, fields) => EmitTo(closed, sym, offset, stack, a, "DUPTABLE", DupTable(keyed, fields), next)
    case SetList(a, b, count, index) =>
      (match (Read(f, stack, a), PackAt(f, stack, b, count))
       case (Some(t), Some(p)) =>
         (match Emit(closed, sym, "SETLIST", Operation("SETLIST", [index], Pack([t] + p.0, p.1)))
          case None => Refuse
          case Some(after) => Continue(next, if count == 0 then after.(frame := after.frame.(top := None)) else after))
       case _ => Refuse)
    case TryFast(kind, builtin, skip) => SymFastCall(proto, sym, pc, kind, builtin, skip)
    case CallFn(a, args, count) =>
      (match (Read(f, stack, a), PackAt(f, stack, a + 1, args))
       case (Some(t), Some(p)) =>
         SymResults(closed, stack, sym, offset, a, count, "CALL", Operation("CALL", [count], Pack([t] + p.0, p.1)),
           next)
       case _ => Refuse)
    case GetVarargs(a, count) =>
      if !proto.vararg || (count != 0 && f.top.Some?) then Refuse
      else SymResults(closed, stack, sym, offset, a, count, "GETVARARGS",
        Operation("GETVARARGS", [count], Pack([], None)), next)
    case Jump(skip) => Continue(pc + 1 + skip, sym)
    case JumpTruthy(a, skip, invert) =>
      (match Read(f, stack, a)
       case None => Refuse
       case Some(t) => Fork(Truthy(t), if invert then next
         else pc + 1 + skip, if invert then pc + 1 + skip else next, sym))
    case JumpCompare(op, left, right, skip, invert) =>
      (match (Read(f, stack, left), OperandTerm(f, stack, right))
       case (Some(l), Some(r)) =>
         if f.top.Some? then Refuse
         else Fork(Compare(op, l, r), if invert then next
           else pc + 1 + skip, if invert then pc + 1 + skip else next, sym.(shared := map[]))
       case _ => Refuse)
    case ReturnInsn(a, count) =>
      (match PackAt(f, stack, a, count) case None => Refuse case Some(p) => Finish(Pack(p.0, p.1), sym))
    case _ => Refuse
  }

  /** One instruction. */
  function SymStep(ctx: Context, sym: Sym, offset: nat, pc: int): Plan
    requires ValidContext(ctx) && pc in ProtoOf(ctx).code
  {
    var next := ProtoOf(ctx).code[pc].next;
    match ProtoOf(ctx).code[pc].insn
    case NewClosure(a, child) => SymClosure(ctx, sym, offset, a, child, false, 0, next)
    case DupClosure(a, child, constant) => SymClosure(ctx, sym, offset, a, child, true, constant, next)
    case _ => PlainStep(ProtoOf(ctx), ctx.closed, sym, offset, pc)
  }

  /** Record an event and hand out its results. */
  function SymResults(closed: bool, stack: nat, sym: Sym, offset: nat, a: nat, count: nat, name: string, ev: Event,
      next: int): Plan
  {
    match Emit(closed, sym, name, ev)
    case None => Refuse
    case Some(after) =>
      var now := offset + |sym.events|;
      match Place(after.frame, stack, a, count, (i: nat) => Result(now, i), now)
      case None => Refuse
      case Some(f) => Continue(next, after.(frame := f))
  }

  /** Registers when a fast call at `site` has succeeded with event `now`. */
  function NativeFrame(f: SymFrame, site: FastSite, now: nat): SymFrame {
    if site.count == 0 then Frame(Below(f.regs, site.a), Some((site.a, now)))
    else Frame(Fill(Below(f.regs, site.a), site.a, site.count - 1, (i: nat) => Result(now, i)), None)
  }

  function FastSuccess(builtin: string, immediates: seq<int>, args: Pack): Event {
    Operation("FASTCALL_SUCCESS " + builtin, immediates, args)
  }

  predicate AnyTable(events: seq<Event>) { exists i :: 0 <= i < |events| && Allocates(events[i]) }

  /** A returned segment, normalised when it allocates and the captures are closed. */
  function Leaf(closed: bool, normal: bool, events: seq<Event>, pack: Pack, offset: nat): Segment {
    if normal && closed &&
      AnyTable(events) then Segment(NormalEvents(events, offset), Return(NormalPack(events, pack, offset)))
    else Segment(events, Return(pack))
  }

  /** A branch; one on truthiness with equal arms is no branch at all. */
  function Joined(closed: bool, normal: bool, events: seq<Event>, cond: Condition, yes: Segment, no: Segment): Segment {
    if normal && cond.Truthy? && yes == no && closed then Segment(events + yes.events, yes.end)
    else Segment(events, Branch(cond, yes, no))
  }

  function Forked(closed: bool, normal: bool, cond: Condition, events: seq<Event>, yes: Option<Segment>,
      no: Option<Segment>): Option<Segment>
  {
    if yes.None? || no.None? then None else Some(Joined(closed, normal, events, cond, yes.value, no.value))
  }

  /** A fast call that succeeds leaves an event of its own before the rest. */
  function Attempted(builtin: string, immediates: seq<int>, args: Pack, events: seq<Event>, native: Option<Segment>,
      fallback: Option<Segment>):
    Option<Segment>
  {
    if native.None? || fallback.None? then None
    else
      var success := Segment([FastSuccess(builtin, immediates, args)] + native.value.events, native.value.end);
      Some(Segment(events, FastCall(builtin, immediates, args, success, fallback.value)))
  }

  /** Execution from `pc` with the events of this segment so far; `seen` is the path.  Without
      `normal`, segments are left as they were recorded and arms are never merged. */
  function Exec(ctx: Context, normal: bool, pc: int, sym: Sym, offset: nat, seen: set<int>): Option<Segment>
    requires ValidContext(ctx)
    decreases ProtoOf(ctx).code.Keys - seen
  {
    if pc in seen || pc !in ProtoOf(ctx).code then None
    else
      assert ProtoOf(ctx).code.Keys - (seen + {pc}) < ProtoOf(ctx).code.Keys - seen by {
        assert pc in ProtoOf(ctx).code.Keys - seen;
      }
      match SymStep(ctx, sym, offset, pc)
      case Refuse => None
      case Continue(next, after) => Exec(ctx, normal, next, after, offset, seen + {pc})
      case Fork(cond, yes, no, after) =>
        var start, now := Sym(after.frame, after.shared, []), offset + |after.events|;
        Forked(ctx.closed, normal, cond, after.events, Exec(ctx, normal, yes, start, now, seen + {pc}),
          Exec(ctx, normal, no, start, now, seen + {pc}))
      case Attempt(site, next, builtin, immediates, args, after) =>
        var now := offset + |after.events|;
        Attempted(builtin, immediates, args, after.events,
                  Exec(ctx, normal, site.after, Sym(NativeFrame(after.frame, site, now), map[], []), now + 1,
                    seen + {pc}),
                  Exec(ctx, normal, next, Sym(after.frame, map[], []), now, seen + {pc}))
      case Finish(pack, after) => Some(Leaf(ctx.closed, normal, after.events, pack, offset))
  }

  /** A frame for variable arguments needs its preparation first. */
  predicate EntryPrepared(proto: Proto) {
    proto.vararg ==> 0 in proto.code && proto.code[0].insn == PrepVarargs(proto.params)
  }

  function StartSym(proto: Proto): Sym { Sym(Frame(map i: nat | i in UpTo(proto.params) :: Param(i), None), map[], []) }

  /** The trees of the children of a prototype, at a nesting depth. */
  ghost function BodiesAt(chunk: Chunk, names: Names, depth: nat): nat -> Option<Tree>
    requires ValidChunk(chunk)
    decreases 33 - depth, 1
  {
    (id: nat) => if id < |chunk.protos| then TreeOf(chunk, names, id, depth) else None
  }

  ghost function ContextAt(chunk: Chunk, names: Names, p: nat, depth: nat): Context
    requires ValidChunk(chunk) && depth <= 32
    decreases 33 - depth, -1
  {
    Context(chunk, p, ClosedCaptures(chunk), names, BodiesAt(chunk, names, depth + 1))
  }

  /** The tree of a prototype at a nesting depth. */
  ghost function TreeOf(chunk: Chunk, names: Names, p: nat, depth: nat): Option<Tree>
    requires ValidChunk(chunk) && p < |chunk.protos|
    decreases 33 - depth, 0
  {
    if chunk.protos[chunk.main].upvalues != 0 || depth > 32 || !EntryPrepared(chunk.protos[p]) then None
    else
      var proto := chunk.protos[p];
      match Exec(ContextAt(chunk, names, p, depth), true, 0, StartSym(proto), 0, {})
      case None => None
      case Some(body) => Some(Tree(proto.params, proto.upvalues, proto.vararg, body))
  }
}
