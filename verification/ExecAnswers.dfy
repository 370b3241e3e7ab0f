/** When symbolic execution answers, and what shape its answer has: it refuses for no other
    reason than the ones listed here, reads no upvalue twice where one read will do, and leaves
    neither equal arms nor segments that normalisation would change. */
module ExecAnswers {
  import opened Options
  import opened Events
  import opened PrivateTables
  import opened Bytecode
  import opened SymbolicTree
  import opened FrameMeaning
  import opened NormalTwice

  // ----- which instructions are accepted -----

  ghost predicate PackReady(f: SymFrame, stack: nat, start: nat, count: nat) {
    if count > 0 then AllDefined(f, stack, start, start + count - 1)
    else f.top.Some? && start <= f.top.value.0 && AllDefined(f, stack, start, f.top.value.0)
  }

  ghost predicate OperandReady(f: SymFrame, stack: nat, x: Operand) { x.Reg? ==> Defined(f, stack, x.r) }

  /** The event may be recorded: with an open pack pending, only what runs no callback. */
  ghost predicate Recordable(closed: bool, f: SymFrame, name: string) {
    f.top.None? || (name == "NAMECALL" && closed) ||
    name in {"GETUPVAL", "SETUPVAL", "NEWTABLE", "DUPTABLE", "NEWCLOSURE", "DUPCLOSURE", "NOT", "AND", "OR", "CALL",
             "GETVARARGS", "SETLIST"}
  }

  ghost predicate Room(stack: nat, a: nat, count: nat) { count >= 2 ==> a + count - 1 <= stack }

  ghost predicate FastReady(f: SymFrame, stack: nat, kind: FastKind, call: Insn)
    requires call.CallFn?
  {
    match kind
    case Whole => PackReady(f, stack, call.a + 1, call.args)
    case One(b) => Defined(f, stack, b)
    case Two(b, second) => Defined(f, stack, b) && Defined(f, stack, second)
    case TwoK(b, _) => Defined(f, stack, b)
    case Three(b, packed) =>
      packed < 65536 && Defined(f, stack, b) && Defined(f, stack, packed % 256) && Defined(f, stack, packed / 256)
  }

  ghost predicate CaptureReady(closed: bool, proto: Proto, f: SymFrame, a: nat, shared: bool, insn: Insn) {
    insn.CaptureInsn? &&
    if insn.kind == 0 then (if insn.source == a then !shared else Defined(f, proto.stack, insn.source))
    else insn.kind == 2 && closed && insn.source < proto.upvalues
  }

  ghost predicate CaptureReadyAt(closed: bool, proto: Proto, f: SymFrame, a: nat, shared: bool, at: int) {
    at in proto.code && CaptureReady(closed, proto, f, a, shared, proto.code[at].insn)
  }

  ghost predicate ClosureReady(ctx: Context, f: SymFrame, a: nat, child: nat, shared: bool, key: nat, next: int)
    requires ValidContext(ctx)
  {
    && child < |ctx.chunk.protos| && ctx.bodies(child).Some? && (shared ==> (ctx.p, key) in ctx.names)
    && Free(f, ProtoOf(ctx).stack, a)
    && forall at :: next <= at < next + ctx.chunk.protos[child].upvalues ==>
         CaptureReadyAt(ctx.closed, ProtoOf(ctx), f, a, shared, at)
  }

  /** Everything that an instruction may be refused for. */
  ghost predicate Accepts(ctx: Context, f: SymFrame, pc: int)
    requires ValidContext(ctx) && pc in ProtoOf(ctx).code
  {
    var proto := ProtoOf(ctx);
    var stack, next := proto.stack, proto.code[pc].next;
    match proto.code[pc].insn
    case Nop => true
    case PrepVarargs(a) => proto.vararg && pc == 0 && a == proto.params
    case Load(a, _) => Free(f, stack, a)
    case LoadBool(a, _, _) => Free(f, stack, a)
    case MoveReg(a, b) => Defined(f, stack, b) && Free(f, stack, a)
    case Operate(name, dest, args) =>
      && (forall x :: x in args ==> OperandReady(f, stack, x)) && Recordable(ctx.closed, f, name)
      && (dest.Some? ==> Free(f, stack, dest.value))
    case GetUpval(a, slot) => slot < proto.upvalues && Free(f, stack, a)
    case SetUpval(a, slot) => slot < proto.upvalues && Defined(f, stack, a)
    case PutTable(a, table, key) =>
      && Defined(f, stack, a) && Defined(f, stack, table) && OperandReady(f, stack, key)
      && Recordable(ctx.closed, f, "SETTABLE")
    case NameCall(a, b, _) =>
      && next in proto.code && proto.code[next].insn.CallFn? && Defined(f, stack, b)
      && (f.top.Some? ==> ctx.closed && b < f.top.value.0) && Free(f, stack, a) && Free(f, stack, a + 1)
    case MakeTable(a, _, _) => Free(f, stack, a)
    case CopyTable(a, _, _) => Free(f, stack, a)
    case SetList(a, b, count, _) => Defined(f, stack, a) && PackReady(f, stack, b, count)
    case TryFast(kind, builtin, skip) =>
      var target := pc + 1 + skip;
      && builtin != 0 && next <= target && target in proto.code && proto.code[target].insn.CallFn?
      && var call := proto.code[target].insn;
         && call.a < stack && Room(stack, call.a, call.count) && FastReady(f, stack, kind, call)
         && (f.top.Some? ==> !kind.Three? && (kind.Whole? || call.count == 0))
    case CallFn(a, args, count) => Defined(f, stack, a) && PackReady(f, stack, a + 1, args) && Room(stack, a, count)
    case GetVarargs(a, count) => proto.vararg && (count != 0 ==> f.top.None?) && Room(stack, a, count)
    case NewClosure(a, child) => ClosureReady(ctx, f, a, child, false, 0, next)
    case DupClosure(a, child, constant) => ClosureReady(ctx, f, a, child, true, constant, next)
    case CaptureInsn(_, _) => false
    case Jump(_) => true
    case JumpTruthy(a, _, _) => Defined(f, stack, a)
    case JumpCompare(_, left, right, _, _) => f.top.None? && Defined(f, stack, left) && OperandReady(f, stack, right)
    case ReturnInsn(a, count) => PackReady(f, stack, a, count)
    case Unsupported => false
  }

  lemma {:induction false} OperandIsReady(f: SymFrame, stack: nat, x: Operand)
    ensures OperandTerm(f, stack, x).Some? <==> OperandReady(f, stack, x)
  {
  }

  lemma {:induction false} OperandsAreReady(f: SymFrame, stack: nat, xs: seq<Operand>)
    ensures OperandTerms(f, stack, xs).Some? <==> forall x :: x in xs ==> OperandReady(f, stack, x)
  {
    if xs != [] {
      var n := |xs| - 1;
      OperandsAreReady(f, stack, xs[..n]);
      OperandIsReady(f, stack, xs[n]);
      assert xs == xs[..n] + [xs[n]];
    }
  }

  lemma {:induction false} SymCaptureReady(closed: bool, proto: Proto, sym: Sym, a: nat, shared: bool,
      capture: (nat, nat))
    ensures SymCapture(closed, proto, sym, a, shared, capture).Some? <==>
      CaptureReady(closed, proto, sym.frame, a, shared, CaptureInsn(capture.0, capture.1))
  {
  }

  lemma {:induction false} SymCapturesReady(closed: bool, proto: Proto, sym: Sym, a: nat, shared: bool,
      captures: seq<(nat, nat)>)
    ensures SymCaptures(closed, proto, sym, a, shared, captures).Some? <==>
      forall c :: c in captures ==> CaptureReady(closed, proto, sym.frame, a, shared, CaptureInsn(c.0, c.1))
  {
    hide SymCapture, CaptureReady;
    if captures != [] {
      var n := |captures| - 1;
      SymCapturesReady(closed, proto, sym, a, shared, captures[..n]);
      SymCaptureReady(closed, proto, sym, a, shared, captures[n]);
      assert captures == captures[..n] + [captures[n]];
    }
  }

  lemma {:induction false} ClosureAccepts(ctx: Context, sym: Sym, offset: nat, a: nat, child: nat, shared: bool,
      key: nat, next: int)
    requires ValidContext(ctx)
    ensures !SymClosure(ctx, sym, offset, a, child, shared, key, next).Refuse? <==>
      ClosureReady(ctx, sym.frame, a, child, shared, key, next)
  {
    hide CapturesAt, SymCaptures;
    if child < |ctx.chunk.protos| {
      var proto, n := ProtoOf(ctx), ctx.chunk.protos[child].upvalues;
      CapturesAre(proto.code, next, n);
      var found := CapturesAt(proto.code, next, n);
      if found.Some? {
        SymCapturesReady(ctx.closed, proto, sym, a, shared, found.value);
        forall at | next <= at < next + n
          ensures CaptureAt(proto.code, at) && Captures(proto.code, at, found.value[at - next])
        {
          assert Captures(proto.code, next + (at - next), found.value[at - next]);
        }
        if forall at :: next <= at < next + n ==> CaptureReadyAt(ctx.closed, proto, sym.frame, a, shared, at) {
          forall c | c in found.value
            ensures CaptureReady(ctx.closed, proto, sym.frame, a, shared, CaptureInsn(c.0, c.1))
          {
            var i :| 0 <= i < n && found.value[i] == c;
            assert CaptureReadyAt(ctx.closed, proto, sym.frame, a, shared, next + i);
          }
        }
        if forall c ::
            c in found.value ==> CaptureReady(ctx.closed, proto, sym.frame, a, shared, CaptureInsn(c.0, c.1)) {
          forall at | next <= at < next + n ensures CaptureReadyAt(ctx.closed, proto, sym.frame, a, shared, at) {
            assert found.value[at - next] in found.value;
          }
        }
      } else {
        var at :| next <= at < next + n && !CaptureAt(proto.code, at);
        assert !CaptureReadyAt(ctx.closed, proto, sym.frame, a, shared, at);
      }
    }
  }

  lemma {:induction false} FastAccepts(ctx: Context, sym: Sym, offset: nat, pc: int)
    requires ValidContext(ctx) && pc in ProtoOf(ctx).code && ProtoOf(ctx).code[pc].insn.TryFast?
    ensures !SymStep(ctx, sym, offset, pc).Refuse? <==> Accepts(ctx, sym.frame, pc)
  {
    var proto := ProtoOf(ctx);
    var insn := proto.code[pc].insn;
    var target := pc + 1 + insn.skip;
    if target in proto.code && proto.code[target].insn.CallFn? {
      var call := proto.code[target].insn;
      PackIs(sym.frame, proto.stack, call.a + 1, call.args);
      hide PackAt;
      var xs := FastOperands(insn.fast);
      if xs.Some? { OperandsAreReady(sym.frame, proto.stack, xs.value); }
      match insn.fast
      case Whole =>
      case One(b) => assert Reg(b) in xs.value;
      case Two(b, second) => assert Reg(b) in xs.value && Reg(second) in xs.value;
      case TwoK(b, _) => assert Reg(b) in xs.value;
      case Three(b, packed) =>
        if packed < 65536 {
          assert Reg(b) in xs.value && Reg(packed % 256) in xs.value && Reg(packed / 256) in xs.value;
        }
    }
  }

  predicate IsSimple(insn: Insn) {
    insn.Nop? || insn.PrepVarargs? || insn.Load? || insn.LoadBool? || insn.MoveReg? || insn.GetUpval? ||
      insn.SetUpval? ||
    insn.MakeTable? || insn.CopyTable? || insn.CaptureInsn? || insn.Jump? || insn.JumpTruthy? || insn.Unsupported?
  }

  lemma {:induction false} SimpleAccepts(ctx: Context, sym: Sym, offset: nat, pc: int)
    requires ValidContext(ctx) && pc in ProtoOf(ctx).code && IsSimple(ProtoOf(ctx).code[pc].insn)
    ensures !SymStep(ctx, sym, offset, pc).Refuse? <==> Accepts(ctx, sym.frame, pc)
  {
    hide PackAt, OperandTerms, SymFastCall, SymClosure, SymResults;
  }

  lemma {:induction false} OperateAccepts(ctx: Context, sym: Sym, offset: nat, pc: int)
    requires ValidContext(ctx) && pc in ProtoOf(ctx).code
    requires var insn := ProtoOf(ctx).code[pc].insn;
             insn.Operate? || insn.PutTable? || insn.NameCall? || insn.JumpCompare?
    ensures !SymStep(ctx, sym, offset, pc).Refuse? <==> Accepts(ctx, sym.frame, pc)
  {
    var insn := ProtoOf(ctx).code[pc].insn;
    if insn.Operate? { OperandsAreReady(sym.frame, ProtoOf(ctx).stack, insn.operands); }
    hide PackAt, OperandTerms, SymFastCall, SymClosure, SymResults;
  }

  lemma {:induction false} PackAccepts(ctx: Context, sym: Sym, offset: nat, pc: int)
    requires ValidContext(ctx) && pc in ProtoOf(ctx).code
    requires var insn := ProtoOf(ctx).code[pc].insn;
             insn.SetList? || insn.CallFn? || insn.GetVarargs? || insn.ReturnInsn?
    ensures !SymStep(ctx, sym, offset, pc).Refuse? <==> Accepts(ctx, sym.frame, pc)
  {
    var stack, f := ProtoOf(ctx).stack, sym.frame;
    match ProtoOf(ctx).code[pc].insn
    case SetList(a, b, count, _) => PackIs(f, stack, b, count);
    case CallFn(a, args, count) => PackIs(f, stack, a + 1, args);
    case ReturnInsn(a, count) => PackIs(f, stack, a, count);
    case _ =>
    hide PackAt, OperandTerms, SymFastCall, SymClosure, Fill, Below;
  }

  /** An instruction is refused for exactly the reasons listed. */
  lemma {:induction false} StepAccepts(ctx: Context, sym: Sym, offset: nat, pc: int)
    requires ValidContext(ctx) && pc in ProtoOf(ctx).code
    ensures !SymStep(ctx, sym, offset, pc).Refuse? <==> Accepts(ctx, sym.frame, pc)
  {
    var insn, next := ProtoOf(ctx).code[pc].insn, ProtoOf(ctx).code[pc].next;
    if insn.NewClosure? {
      ClosureAccepts(ctx, sym, offset, insn.a, insn.child, false, 0, next);
      hide SymClosure, ClosureReady;
    } else if insn.DupClosure? {
      ClosureAccepts(ctx, sym, offset, insn.a, insn.child, true, insn.constant, next);
      hide SymClosure, ClosureReady;
    } else {
      hide SymStep, Accepts;
      if insn.TryFast? {
        FastAccepts(ctx, sym, offset, pc);
      } else if IsSimple(insn) {
        SimpleAccepts(ctx, sym, offset, pc);
      } else if insn.SetList? || insn.CallFn? || insn.GetVarargs? || insn.ReturnInsn? {
        PackAccepts(ctx, sym, offset, pc);
      } else {
        OperateAccepts(ctx, sym, offset, pc);
      }
    }
  }

  // ----- when a tree exists -----

  /** A point of symbolic execution. */
  datatype Point = Point(pc: int, sym: Sym, offset: nat)

  ghost predicate Follows(ctx: Context, a: Point, b: Point)
    requires ValidContext(ctx)
  {
    a.pc in ProtoOf(ctx).code &&
    match SymStep(ctx, a.sym, a.offset, a.pc)
    case Refuse => false
    case Finish(_, _) => false
    case Continue(next, after) => b == Point(next, after, a.offset)
    case Fork(_, yes, no, after) =>
      (b.pc == yes || b.pc == no) && b.sym == Sym(after.frame, after.shared, []) &&
        b.offset == a.offset + |after.events|
    case Attempt(site, next, _, _, _, after) =>
      var now := a.offset + |after.events|;
      b == Point(site.after, Sym(NativeFrame(after.frame, site, now), map[], []), now + 1) ||
      b == Point(next, Sym(after.frame, map[], []), now)
  }

  ghost predicate IsPath(ctx: Context, path: seq<Point>)
    requires ValidContext(ctx)
  {
    |path| > 0 && forall i: nat :: i + 1 < |path| ==> FollowsAt(ctx, path, i)
  }

  ghost predicate FollowsAt(ctx: Context, path: seq<Point>, i: nat)
    requires ValidContext(ctx) && i + 1 < |path|
  {
    Follows(ctx, path[i], path[i + 1])
  }

  /** The path has come to an accepted instruction that it has not been at before. */
  ghost predicate GoesWell(ctx: Context, seen: set<int>, path: seq<Point>)
    requires ValidContext(ctx) && |path| > 0
  {
    var last := path[|path| - 1];
    && last.pc in ProtoOf(ctx).code && Accepts(ctx, last.sym.frame, last.pc) && last.pc !in seen
    && forall i :: 0 <= i < |path| - 1 ==> path[i].pc != last.pc
  }

  lemma {:induction false} PathTail(ctx: Context, path: seq<Point>)
    requires ValidContext(ctx) && IsPath(ctx, path) && |path| > 1
    ensures IsPath(ctx, path[1..]) && Follows(ctx, path[0], path[1])
  {
    assert FollowsAt(ctx, path, 0);
    forall i: nat | i + 1 < |path[1..]| ensures FollowsAt(ctx, path[1..], i) { assert FollowsAt(ctx, path, i + 1); }
  }

  lemma {:induction false} PathFrom(ctx: Context, a: Point, path: seq<Point>)
    requires ValidContext(ctx) && IsPath(ctx, path) && Follows(ctx, a, path[0])
    ensures IsPath(ctx, [a] + path)
  {
    var longer := [a] + path;
    forall i: nat | i + 1 < |longer| ensures FollowsAt(ctx, longer, i) {
      if i > 0 { assert FollowsAt(ctx, path, i - 1); }
    }
  }

  /** An answer takes answers wherever the instruction leads. */
  lemma {:induction false} AnswersFollow(ctx: Context, normal: bool, seen: set<int>, a: Point, b: Point)
    requires ValidContext(ctx) && Exec(ctx, normal, a.pc, a.sym, a.offset, seen).Some? && Follows(ctx, a, b)
    ensures Exec(ctx, normal, b.pc, b.sym, b.offset, seen + {a.pc}).Some?
  {
    hide SymStep, NativeFrame, Leaf, Joined;
  }

  lemma {:induction false} AnswerAccepts(ctx: Context, normal: bool, seen: set<int>, a: Point)
    requires ValidContext(ctx) && Exec(ctx, normal, a.pc, a.sym, a.offset, seen).Some?
    ensures a.pc in ProtoOf(ctx).code && a.pc !in seen && Accepts(ctx, a.sym.frame, a.pc)
  {
    hide SymStep, Accepts;
    if a.pc in ProtoOf(ctx).code { StepAccepts(ctx, a.sym, a.offset, a.pc); }
  }

  /** Where there is an answer, every path goes well. */
  lemma {:induction false} AnsweredGoesWell(ctx: Context, normal: bool, seen: set<int>, path: seq<Point>)
    requires ValidContext(ctx) && IsPath(ctx, path)
    requires Exec(ctx, normal, path[0].pc, path[0].sym, path[0].offset, seen).Some?
    ensures GoesWell(ctx, seen, path)
    decreases |path|
  {
    var a := path[0];
    hide Exec, Accepts, IsPath, Follows;
    AnswerAccepts(ctx, normal, seen, a);
    if |path| > 1 {
      PathTail(ctx, path);
      var rest := path[1..];
      AnswersFollow(ctx, normal, seen, a, rest[0]);
      AnsweredGoesWell(ctx, normal, seen + {a.pc}, rest);
      assert rest[|rest| - 1] == path[|path| - 1];
      forall i | 0 <= i < |path| - 1 ensures path[i].pc != path[|path| - 1].pc {
        if i > 0 { assert rest[i - 1] == path[i]; }
      }
    }
  }

  /** Where there is none, some path does not. */
  lemma {:induction false} RefusedGoesBadly(ctx: Context, normal: bool, seen: set<int>, a: Point)
    returns (path: seq<Point>)
    requires ValidContext(ctx) && Exec(ctx, normal, a.pc, a.sym, a.offset, seen).None?
    ensures IsPath(ctx, path) && path[0] == a && !GoesWell(ctx, seen, path)
    decreases ProtoOf(ctx).code.Keys - seen, 0
  {
    hide Accepts, Exec, Follows;
    path := [a];
    if a.pc in ProtoOf(ctx).code && a.pc !in seen && Accepts(ctx, a.sym.frame, a.pc) {
      assert a.pc in ProtoOf(ctx).code.Keys - seen;
      var b := SomeRefused(ctx, normal, seen, a);
      path := BadFrom(ctx, normal, seen, a, b);
    }
  }

  /** A refusal that is not the instruction's own comes from where it leads. */
  lemma {:induction false} SomeRefused(ctx: Context, normal: bool, seen: set<int>, a: Point) returns (b: Point)
    requires ValidContext(ctx) && Exec(ctx, normal, a.pc, a.sym, a.offset, seen).None?
    requires a.pc in ProtoOf(ctx).code && a.pc !in seen && Accepts(ctx, a.sym.frame, a.pc)
    ensures Follows(ctx, a, b) && Exec(ctx, normal, b.pc, b.sym, b.offset, seen + {a.pc}).None?
  {
    hide SymStep, Accepts, NativeFrame, Leaf, Joined;
    StepAccepts(ctx, a.sym, a.offset, a.pc);
    var plan, seen' := SymStep(ctx, a.sym, a.offset, a.pc), seen + {a.pc};
    if plan.Continue? {
      b := Point(plan.pc, plan.sym, a.offset);
    } else if plan.Fork? {
      b := ArmRefused(ctx, normal, seen, a);
    } else {
      b := OutcomeRefused(ctx, normal, seen, a);
    }
  }

  lemma {:induction false} ArmRefused(ctx: Context, normal: bool, seen: set<int>, a: Point) returns (b: Point)
    requires ValidContext(ctx) && Exec(ctx, normal, a.pc, a.sym, a.offset, seen).None?
    requires a.pc in ProtoOf(ctx).code && a.pc !in seen && SymStep(ctx, a.sym, a.offset, a.pc).Fork?
    ensures Follows(ctx, a, b) && Exec(ctx, normal, b.pc, b.sym, b.offset, seen + {a.pc}).None?
  {
    hide SymStep, Joined;
    var plan, seen' := SymStep(ctx, a.sym, a.offset, a.pc), seen + {a.pc};
    var start, now := Sym(plan.sym.frame, plan.sym.shared, []), a.offset + |plan.sym.events|;
    b := if Exec(ctx, normal, plan.yes, start, now, seen').None? then Point(plan.yes, start, now)
         else Point(plan.no, start, now);
  }

  lemma {:induction false} OutcomeRefused(ctx: Context, normal: bool, seen: set<int>, a: Point) returns (b: Point)
    requires ValidContext(ctx) && Exec(ctx, normal, a.pc, a.sym, a.offset, seen).None?
    requires a.pc in ProtoOf(ctx).code && a.pc !in seen
    requires SymStep(ctx, a.sym, a.offset, a.pc).Attempt? || SymStep(ctx, a.sym, a.offset, a.pc).Finish?
    ensures Follows(ctx, a, b) && Exec(ctx, normal, b.pc, b.sym, b.offset, seen + {a.pc}).None?
  {
    hide SymStep, NativeFrame, Leaf;
    var plan, seen' := SymStep(ctx, a.sym, a.offset, a.pc), seen + {a.pc};
    var now := a.offset + |plan.sym.events|;
    var native := Sym(NativeFrame(plan.sym.frame, plan.site, now), map[], []);
    b := if Exec(ctx, normal, plan.site.after, native, now + 1, seen').None?
      then Point(plan.site.after, native, now + 1)
         else Point(plan.next, Sym(plan.sym.frame, map[], []), now);
  }

  lemma {:induction false} BadFrom(ctx: Context, normal: bool, seen: set<int>, a: Point, b: Point)
    returns (path: seq<Point>)
    requires ValidContext(ctx) && Follows(ctx, a, b) && a.pc in ProtoOf(ctx).code && a.pc !in seen
    requires Exec(ctx, normal, b.pc, b.sym, b.offset, seen + {a.pc}).None?
    ensures IsPath(ctx, path) && path[0] == a && !GoesWell(ctx, seen, path)
    decreases ProtoOf(ctx).code.Keys - (seen + {a.pc}), 1
  {
    hide Exec, Accepts, Follows, GoesWell;
    var rest := RefusedGoesBadly(ctx, normal, seen + {a.pc}, b);
    PathFrom(ctx, a, rest);
    path := [a] + rest;
    if GoesWell(ctx, seen, path) { GoesWellFrom(ctx, seen, a, rest); }
  }

  lemma {:induction false} GoesWellFrom(ctx: Context, seen: set<int>, a: Point, rest: seq<Point>)
    requires ValidContext(ctx) && |rest| > 0 && GoesWell(ctx, seen, [a] + rest)
    ensures GoesWell(ctx, seen + {a.pc}, rest)
  {
    hide Accepts;
    var path := [a] + rest;
    assert path[|path| - 1] == rest[|rest| - 1] && path[0].pc != path[|path| - 1].pc;
    forall i | 0 <= i < |rest| - 1 ensures rest[i].pc != rest[|rest| - 1].pc { assert path[i + 1] == rest[i]; }
  }

  ghost predicate AllGoWell(ctx: Context, a: Point)
    requires ValidContext(ctx)
  {
    forall path :: IsPath(ctx, path) && path[0] == a ==> GoesWell(ctx, {}, path)
  }

  /** A function has a tree exactly when the main function has no upvalues, nesting is within its
      bound, a frame for variable arguments is prepared, and no path comes back to an
      instruction, leaves the code, or meets an instruction that is refused. */
  lemma {:induction false} TreeExists(chunk: Chunk, names: Names, p: nat, depth: nat)
    requires ValidChunk(chunk) && p < |chunk.protos|
    ensures TreeOf(chunk, names, p, depth).Some? <==>
      && chunk.protos[chunk.main].upvalues == 0 && depth <= 32
      && (chunk.protos[p].vararg ==>
           0 in chunk.protos[p].code && chunk.protos[p].code[0].insn == PrepVarargs(chunk.protos[p].params))
      && AllGoWell(ContextAt(chunk, names, p, depth), Point(0, StartSym(chunk.protos[p]), 0))
  {
    if depth <= 32 {
      var ctx, start := ContextAt(chunk, names, p, depth), Point(0, StartSym(chunk.protos[p]), 0);
      if Exec(ctx, true, 0, start.sym, 0, {}).Some? {
        forall path | IsPath(ctx, path) && path[0] == start ensures GoesWell(ctx, {}, path) {
          AnsweredGoesWell(ctx, true, {}, path);
        }
      } else {
        var path := RefusedGoesBadly(ctx, true, {}, start);
      }
    }
  }

  // ----- the shape of the answer -----

  /** A segment with every return normalised and equal arms of a truthiness test merged, from the
      leaves up; the success event of a fast call stays in front of what follows it. */
  ghost function Normalised(events: seq<Event>, end: Terminal, offset: nat): Segment
    decreases end
  {
    var now := offset + |events|;
    match end
    case Return(pack) => Segment(NormalEvents(events, offset), Return(NormalPack(events, pack, offset)))
    case Branch(cond, yes, no) =>
      var y, n := Normalised(yes.events, yes.end, now), Normalised(no.events, no.end, now);
      if cond.Truthy? && y == n then Segment(events + y.events, y.end) else Segment(events, Branch(cond, y, n))
    case FastCall(builtin, immediates, args, native, fallback) =>
      var n := Normalised(fallback.events, fallback.end, now);
      if native.events == [] then Segment(events, end)
      else
        var y := Normalised(native.events[1..], native.end, now + 1);
        Segment(events, FastCall(builtin, immediates, args, Segment([native.events[0]] + y.events, y.end), n))
  }

  lemma {:induction false} NothingPrivate(events: seq<Event>, offset: nat)
    requires !AnyTable(events)
    ensures ScanAll(events, offset).private == map[] && ScanAll(events, offset).allocations == {}
    ensures |ScanAll(events, offset).kept| == |events|
    ensures forall k: nat :: k < |events| ==> ScanAll(events, offset).kept[k] == (offset + k, events[k])
  {
    if events != [] {
      var n := |events| - 1;
      NothingPrivate(events[..n], offset);
      assert events[..n] + [events[n]] == events;
      assert !Allocates(events[n]);
    }
  }

  lemma {:induction false} OnlyNone(items: Items)
    ensures Only(items, {}, true) == [] && Only(items, {}, false) == items
  {
    if items != [] {
      OnlyNone(items[..|items| - 1]);
      assert items == items[..|items| - 1] + [items[|items| - 1]];
    }
  }

  /** Without a table there is nothing to normalise. */
  lemma {:induction false} NothingToNormalise(events: seq<Event>, pack: Pack, offset: nat)
    requires !AnyTable(events)
    ensures NormalEvents(events, offset) == events && NormalPack(events, pack, offset) == pack
  {
    NothingPrivate(events, offset);
    var kept := ScanAll(events, offset).kept;
    OnlyNone(kept);
    assert [] + kept == kept;
    hide ScanAll, Only;
    var m := NumberFrom(kept, offset);
    forall id: nat ensures NewId(m, id) == id { NumberedAlready(kept, offset, id); }
    forall k: nat | k < |events| ensures RemapEvent(m, kept[k].1) == events[k] { RemapNothing(m, events[k], pack); }
    RemapNothing(m, GetUpvalue(0), pack);
  }

  ghost function Whole(ctx: Context, normal: bool, plan: Plan, offset: nat, seen: set<int>): Option<Segment>
    requires ValidContext(ctx)
  {
    match plan
    case Refuse => None
    case Continue(next, after) => Exec(ctx, normal, next, after, offset, seen)
    case Fork(cond, yes, no, after) =>
      var start, now := Sym(after.frame, after.shared, []), offset + |after.events|;
      Forked(ctx.closed, normal, cond, after.events, Exec(ctx, normal, yes, start, now, seen),
        Exec(ctx, normal, no, start, now, seen))
    case Attempt(site, next, builtin, immediates, args, after) =>
      var now := offset + |after.events|;
      Attempted(builtin, immediates, args, after.events,
                Exec(ctx, normal, site.after, Sym(NativeFrame(after.frame, site, now), map[], []), now + 1, seen),
                Exec(ctx, normal, next, Sym(after.frame, map[], []), now, seen))
    case Finish(pack, after) => Some(Leaf(ctx.closed, normal, after.events, pack, offset))
  }

  lemma {:induction false} ExecIs(ctx: Context, normal: bool, pc: int, sym: Sym, offset: nat, seen: set<int>)
    requires ValidContext(ctx) && pc in ProtoOf(ctx).code && pc !in seen
    ensures Exec(ctx, normal, pc, sym, offset, seen)
        == Whole(ctx, normal, SymStep(ctx, sym, offset, pc), offset, seen + {pc})
  {
    hide SymStep, NativeFrame, Leaf, Forked, Attempted;
  }

  /** The answer is the bare recording of what is done on each path, normalised. */
  lemma {:induction false} AnswerIsNormal(ctx: Context, pc: int, sym: Sym, offset: nat, seen: set<int>)
    requires ValidContext(ctx)
    ensures NormalAt(ctx, Exec(ctx, false, pc, sym, offset, seen), Exec(ctx, true, pc, sym, offset, seen), offset)
    decreases ProtoOf(ctx).code.Keys - seen, 0, 0
  {
    hide SymStep, NormalAt, Whole;
    NothingIsNormal(ctx, pc, sym, offset, seen);
    hide Exec;
    if pc in ProtoOf(ctx).code && pc !in seen {
      assert pc in ProtoOf(ctx).code.Keys - seen;
      ExecIs(ctx, false, pc, sym, offset, seen);
      ExecIs(ctx, true, pc, sym, offset, seen);
      WholeIsNormal(ctx, SymStep(ctx, sym, offset, pc), offset, seen + {pc});
    }
  }

  lemma {:induction false} NothingIsNormal(ctx: Context, pc: int, sym: Sym, offset: nat, seen: set<int>)
    requires ValidContext(ctx)
    ensures pc !in ProtoOf(ctx).code || pc in seen ==>
      NormalAt(ctx, Exec(ctx, false, pc, sym, offset, seen), Exec(ctx, true, pc, sym, offset, seen), offset)
  {
    hide SymStep;
  }

  lemma {:induction false} NoneIsNormal(ctx: Context, offset: nat)
    ensures NormalAt(ctx, None, None, offset)
  {
  }

  lemma {:induction false} WholeIsNormal(ctx: Context, plan: Plan, offset: nat, seen: set<int>)
    requires ValidContext(ctx)
    ensures NormalAt(ctx, Whole(ctx, false, plan, offset, seen), Whole(ctx, true, plan, offset, seen), offset)
    decreases ProtoOf(ctx).code.Keys - seen, 1
  {
    hide Exec, NativeFrame, NormalAt, Leaf, Forked, Attempted, ProtoOf;
    NoneIsNormal(ctx, offset);
    if !plan.Refuse? {
      if plan.Continue? {
        AnswerIsNormal(ctx, plan.pc, plan.sym, offset, seen);
      } else if plan.Fork? {
        var start, now := Sym(plan.sym.frame, plan.sym.shared, []), offset + |plan.sym.events|;
        ForkAt(ctx, plan.cond, plan.sym.events, offset, plan.yes, plan.no, start, now, seen);
      } else if plan.Attempt? {
        var now := offset + |plan.sym.events|;
        var native, again := Sym(NativeFrame(plan.sym.frame, plan.site, now), map[], []),
          Sym(plan.sym.frame, map[], []);
        FastAt(ctx, plan, offset, native, again, now, seen);
      } else {
        LeafIsNormal(ctx, plan.sym.events, plan.pack, offset);
      }
    }
  }

  lemma {:induction false} ForkAt(ctx: Context, cond: Condition, events: seq<Event>, offset: nat, yes: int, no: int,
      start: Sym, now: nat, seen: set<int>)
    requires ValidContext(ctx) && now == offset + |events|
    ensures NormalAt(ctx,
      Forked(ctx.closed, false, cond, events, Exec(ctx, false, yes, start, now, seen),
        Exec(ctx, false, no, start, now, seen)),
      Forked(ctx.closed, true, cond, events, Exec(ctx, true, yes, start, now, seen),
        Exec(ctx, true, no, start, now, seen)),
      offset)
    decreases ProtoOf(ctx).code.Keys - seen, 0, 1
  {
    hide Exec, NormalAt, Forked;
    AnswerIsNormal(ctx, yes, start, now, seen);
    AnswerIsNormal(ctx, no, start, now, seen);
    ForkIsNormal(ctx, cond, events, offset, Exec(ctx, false, yes, start, now, seen),
      Exec(ctx, false, no, start, now, seen),
      Exec(ctx, true, yes, start, now, seen), Exec(ctx, true, no, start, now, seen));
  }

  lemma {:induction false} FastAt(ctx: Context, plan: Plan, offset: nat, native: Sym, again: Sym, now: nat,
      seen: set<int>)
    requires ValidContext(ctx) && plan.Attempt? && now == offset + |plan.sym.events|
    ensures NormalAt(ctx,
      Attempted(plan.builtin, plan.immediates, plan.args, plan.sym.events,
                Exec(ctx, false, plan.site.after, native, now + 1, seen),
                  Exec(ctx, false, plan.next, again, now, seen)),
      Attempted(plan.builtin, plan.immediates, plan.args, plan.sym.events,
                Exec(ctx, true, plan.site.after, native, now + 1, seen), Exec(ctx, true, plan.next, again, now, seen)),
      offset)
    decreases ProtoOf(ctx).code.Keys - seen, 0, 1
  {
    hide Exec, NormalAt, Attempted;
    AnswerIsNormal(ctx, plan.site.after, native, now + 1, seen);
    AnswerIsNormal(ctx, plan.next, again, now, seen);
    FastIsNormal(ctx, plan.builtin, plan.immediates, plan.args, plan.sym.events, offset,
      Exec(ctx, false, plan.site.after, native, now + 1, seen), Exec(ctx, false, plan.next, again, now, seen),
      Exec(ctx, true, plan.site.after, native, now + 1, seen), Exec(ctx, true, plan.next, again, now, seen));
  }

  ghost predicate NormalAt(ctx: Context, raw: Option<Segment>, normal: Option<Segment>, offset: nat) {
    && (raw.Some? <==> normal.Some?)
    && (raw.Some? ==>
         normal.value == if ctx.closed then Normalised(raw.value.events, raw.value.end, offset) else raw.value)
  }

  lemma {:induction false} LeafIsNormal(ctx: Context, events: seq<Event>, pack: Pack, offset: nat)
    ensures NormalAt(ctx, Some(Leaf(ctx.closed, false, events, pack, offset)),
                     Some(Leaf(ctx.closed, true, events, pack, offset)), offset)
  {
    if !AnyTable(events) { NothingToNormalise(events, pack, offset); }
    hide NormalEvents, NormalPack;
  }

  lemma {:induction false} ForkIsNormal(ctx: Context, cond: Condition, events: seq<Event>, offset: nat,
      y: Option<Segment>, n: Option<Segment>, y': Option<Segment>, n': Option<Segment>)
    requires NormalAt(ctx, y, y', offset + |events|) && NormalAt(ctx, n, n', offset + |events|)
    ensures NormalAt(ctx, Forked(ctx.closed, false, cond, events, y, n), Forked(ctx.closed, true, cond, events, y', n'),
                     offset)
  {
    hide NormalEvents, NormalPack;
  }

  lemma {:induction false} FastIsNormal(ctx: Context, builtin: string, immediates: seq<int>, args: Pack,
      events: seq<Event>, offset: nat, y: Option<Segment>, n: Option<Segment>, y': Option<Segment>, n': Option<Segment>)
    requires NormalAt(ctx, y, y', offset + |events| + 1) && NormalAt(ctx, n, n', offset + |events|)
    ensures NormalAt(ctx, Attempted(builtin, immediates, args, events, y, n),
        Attempted(builtin, immediates, args, events, y', n'),
                     offset)
  {
    hide NormalEvents, NormalPack;
    if y.Some? {
      var first := FastSuccess(builtin, immediates, args);
      assert ([first] + y.value.events)[1..] == y.value.events;
    }
  }

  // ----- upvalues are read once -----

  /** The slots whose last read still stands after these events. */
  ghost function StillRead(events: seq<Event>, before: set<nat>): set<nat> {
    if events == [] then before
    else
      var last := events[|events| - 1];
      if last.GetUpvalue? then StillRead(events[..|events| - 1], before) + {last.slot} else {}
  }

  /** No event reads an upvalue that was read before with only reads in between. */
  ghost predicate ReadsOnce(events: seq<Event>, before: set<nat>) {
    forall k: nat :: k < |events| && events[k].GetUpvalue? ==> events[k].slot !in StillRead(events[..k], before)
  }

  /** The same on every path of a tree: a truthiness test changes nothing, everything else may. */
  ghost predicate PathsReadOnce(seg: Segment, before: set<nat>)
    decreases seg
  {
    ReadsOnce(seg.events, before) &&
    match seg.end
    case Return(_) => true
    case Branch(cond, yes, no) =>
      var still := if cond.Truthy? then StillRead(seg.events, before) else {};
      PathsReadOnce(yes, still) && PathsReadOnce(no, still)
    case FastCall(_, _, _, native, fallback) => PathsReadOnce(native, {}) && PathsReadOnce(fallback, {})
  }

  lemma {:induction false} OneMoreEvent(events: seq<Event>, ev: Event, before: set<nat>)
    requires ReadsOnce(events, before) && (ev.GetUpvalue? ==> ev.slot !in StillRead(events, before))
    ensures ReadsOnce(events + [ev], before)
    ensures StillRead(events + [ev], before) == if ev.GetUpvalue? then StillRead(events, before) + {ev.slot} else {}
  {
    var more := events + [ev];
    assert more[..|events|] == events;
    forall k: nat | k < |more| && more[k].GetUpvalue? ensures more[k].slot !in StillRead(more[..k], before) {
      if k < |events| { assert more[..k] == events[..k]; }
    }
  }

  /** What is recorded so far reads nothing twice, and the reads that still stand can be shared. */
  ghost predicate SharesReads(sym: Sym, before: set<nat>) {
    ReadsOnce(sym.events, before) && sym.shared.Keys == StillRead(sym.events, before)
  }

  ghost predicate Records(sym: Sym, plan: Plan)
    requires !plan.Refuse?
  {
    var after := plan.sym;
    || (after.events == sym.events && after.shared == if plan.Fork? && plan.cond.Compare? then map[] else sym.shared)
    || (|after.events| == |sym.events| + 1 && after.events == sym.events + [after.events[|sym.events|]] &&
         !plan.Fork? &&
         var ev := after.events[|sym.events|];
         if ev.GetUpvalue? then ev.slot !in sym.shared && after.shared.Keys == sym.shared.Keys + {ev.slot}
         else after.shared == map[])
  }

  /** A step records nothing, or one event that is no read and ends all sharing, or one read of an
      upvalue that could not be shared. */
  lemma {:induction false} StepRecords(ctx: Context, sym: Sym, offset: nat, pc: int)
    requires ValidContext(ctx) && pc in ProtoOf(ctx).code && ctx.closed
    requires !SymStep(ctx, sym, offset, pc).Refuse?
    ensures Records(sym, SymStep(ctx, sym, offset, pc))
  {
    hide PackAt, OperandTerms, CapturesAt, SymCaptures, Place, SymFastCall;
    var insn := ProtoOf(ctx).code[pc].insn;
    if insn.TryFast? { FastRecords(ctx, sym, offset, pc); }
  }

  lemma {:induction false} FastRecords(ctx: Context, sym: Sym, offset: nat, pc: int)
    requires ValidContext(ctx) && pc in ProtoOf(ctx).code && ProtoOf(ctx).code[pc].insn.TryFast?
    requires !SymStep(ctx, sym, offset, pc).Refuse?
    ensures SymStep(ctx, sym, offset, pc).Attempt? && SymStep(ctx, sym, offset, pc).sym == sym
  {
    hide PackAt, OperandTerms;
  }

  lemma {:induction false} StepSharesReads(ctx: Context, sym: Sym, offset: nat, pc: int, before: set<nat>)
    requires ValidContext(ctx) && pc in ProtoOf(ctx).code && ctx.closed && SharesReads(sym, before)
    requires !SymStep(ctx, sym, offset, pc).Refuse?
    ensures var plan := SymStep(ctx, sym, offset, pc);
            ReadsOnce(plan.sym.events, before)
            && if plan.Fork? && plan.cond.Compare? then plan.sym.shared == map[] else SharesReads(plan.sym, before)
  {
    hide SymStep, ReadsOnce, StillRead;
    StepRecords(ctx, sym, offset, pc);
    RecordsShare(sym, SymStep(ctx, sym, offset, pc), before);
  }

  lemma {:induction false} RecordsShare(sym: Sym, plan: Plan, before: set<nat>)
    requires !plan.Refuse? && Records(sym, plan) && SharesReads(sym, before)
    ensures ReadsOnce(plan.sym.events, before)
    ensures if plan.Fork? && plan.cond.Compare? then plan.sym.shared == map[] else SharesReads(plan.sym, before)
  {
    hide ReadsOnce, StillRead;
    if plan.sym.events != sym.events { OneMoreEvent(sym.events, plan.sym.events[|sym.events|], before); }
  }

  lemma {:induction false} AfterNoRead(events: seq<Event>, ev: Event)
    requires ReadsOnce(events, {}) && !ev.GetUpvalue?
    ensures ReadsOnce([ev] + events, {}) && StillRead([ev] + events, {}) == StillRead(events, {})
  {
    var more := [ev] + events;
    StillAfter(events, ev);
    forall k: nat | k < |more| && more[k].GetUpvalue? ensures more[k].slot !in StillRead(more[..k], {}) {
      assert more[..k] == [ev] + events[..k - 1];
      StillAfter(events[..k - 1], ev);
      assert more[k] == events[k - 1];
    }
  }

  lemma {:induction false} StillAfter(events: seq<Event>, ev: Event)
    requires !ev.GetUpvalue?
    ensures StillRead([ev] + events, {}) == StillRead(events, {})
  {
    if events == [] {
      assert [ev] + events == [ev];
    } else {
      StillAfter(events[..|events| - 1], ev);
      assert ([ev] + events)[..|events|] == [ev] + events[..|events| - 1];
    }
  }

  /** In a chunk with closed captures no path reads an upvalue again that it has read before with
      only reads and truthiness tests in between. */
  lemma {:induction false} ReadsAreShared(ctx: Context, pc: int, sym: Sym, offset: nat, seen: set<int>,
      before: set<nat>)
    requires ValidContext(ctx) && ctx.closed && SharesReads(sym, before)
    requires Exec(ctx, false, pc, sym, offset, seen).Some?
    ensures PathsReadOnce(Exec(ctx, false, pc, sym, offset, seen).value, before)
    decreases ProtoOf(ctx).code.Keys - seen
  {
    hide SymStep, NativeFrame, SharesReads, ReadsOnce, StillRead;
    assert pc in ProtoOf(ctx).code.Keys - seen;
    var seen' := seen + {pc};
    StepSharesReads(ctx, sym, offset, pc, before);
    match SymStep(ctx, sym, offset, pc)
    case Continue(next, after) => ReadsAreShared(ctx, next, after, offset, seen', before);
    case Fork(cond, yes, no, after) =>
      var start, now := Sym(after.frame, after.shared, []), offset + |after.events|;
      var still := if cond.Truthy? then StillRead(after.events, before) else {};
      FreshShares(cond, after, before, start);
      ReadsAreShared(ctx, yes, start, now, seen', still);
      ReadsAreShared(ctx, no, start, now, seen', still);
    case Attempt(site, next, builtin, immediates, args, after) =>
      var now := offset + |after.events|;
      var native, again := Sym(NativeFrame(after.frame, site, now), map[], []), Sym(after.frame, map[], []);
      assert SharesReads(native, {}) && SharesReads(again, {}) by { NothingShared(native); NothingShared(again); }
      ReadsAreShared(ctx, site.after, native, now + 1, seen', {});
      ReadsAreShared(ctx, next, again, now, seen', {});
      var y := Exec(ctx, false, site.after, native, now + 1, seen').value;
      var success := Segment([FastSuccess(builtin, immediates, args)] + y.events, y.end);
      AfterNoRead(y.events, FastSuccess(builtin, immediates, args));
      assert PathsReadOnce(success, {});
    case Finish(pack, after) =>
  }

  lemma {:induction false} FreshShares(cond: Condition, after: Sym, before: set<nat>, start: Sym)
    requires start.events == [] && start.shared == after.shared
    requires if cond.Compare? then after.shared == map[] else SharesReads(after, before)
    ensures SharesReads(start, if cond.Truthy? then StillRead(after.events, before) else {})
  {
  }

  lemma {:induction false} NothingShared(sym: Sym)
    requires sym.events == [] && sym.shared == map[]
    ensures SharesReads(sym, {})
  {
  }
}
