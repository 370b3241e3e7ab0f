/** What symbolic registers mention always exists, so every return segment may be normalised;
    and the tree symbolic execution returns means the same as the tree without normalisation. */
module ExecNormal {
  import opened Options
  import opened Events
  import opened PrivateTables
  import opened SegmentRuns
  import opened Bytecode
  import opened SymbolicTree
  import opened TreeNormal
  import opened ExecSound

  predicate Live(events: seq<Event>, offset: nat, id: nat) { Mentionable(events, offset, |events|, id) }

  ghost predicate TermLive(events: seq<Event>, offset: nat, t: Term) {
    forall id: nat :: id in TermRefs(t) ==> Live(events, offset, id)
  }

  ghost predicate TermsLive(events: seq<Event>, offset: nat, ts: seq<Term>) {
    forall t :: t in ts ==> TermLive(events, offset, t)
  }

  ghost predicate FrameLive(events: seq<Event>, offset: nat, f: SymFrame) {
    && RegsLive(events, offset, f.regs)
    && (f.top.Some? ==> Live(events, offset, f.top.value.1))
  }

  /** Every event, register, open pack and shared read mentions earlier events with values. */
  ghost predicate SymLive(sym: Sym, offset: nat) {
    && RefsEarlier(sym.events, offset) && FrameLive(sym.events, offset, sym.frame)
    && forall slot :: slot in sym.shared ==> Live(sym.events, offset, sym.shared[slot])
  }

  lemma {:induction false} LiveNext(events: seq<Event>, offset: nat, ev: Event, id: nat)
    ensures Live(events, offset, id) ==> Live(events + [ev], offset, id)
    ensures !ev.SetTable? ==> Live(events + [ev], offset, offset + |events|)
  {
  }

  lemma {:induction false} FrameLiveNext(events: seq<Event>, offset: nat, ev: Event, f: SymFrame)
    requires FrameLive(events, offset, f)
    ensures FrameLive(events + [ev], offset, f)
  {
    forall id: nat
      ensures Live(events, offset, id) ==> Live(events + [ev], offset, id)
    {
      LiveNext(events, offset, ev, id);
    }
    hide Live;
  }

  lemma {:induction false} EarlierMore(events: seq<Event>, offset: nat, ev: Event)
    requires RefsEarlier(events, offset) && forall id: nat :: id in EventRefs(ev) ==> Live(events, offset, id)
    ensures RefsEarlier(events + [ev], offset)
  {
    var longer := events + [ev];
    forall i: nat, id: nat | i < |longer| && id in EventRefs(longer[i]) ensures Mentionable(longer, offset, i, id) {
      if i < |events| { assert Mentionable(events, offset, i, id); } else { assert Live(events, offset, id); }
    }
  }

  // ----- frame operations -----

  lemma {:induction false} WriteLive(events: seq<Event>, offset: nat, f: SymFrame, stack: nat, r: nat, t: Term)
    requires FrameLive(events, offset, f) && TermLive(events, offset, t) && Write(f, stack, r, t).Some?
    ensures FrameLive(events, offset, Write(f, stack, r, t).value)
  {
    hide TermLive, Live;
  }

  lemma {:induction false} OperandsLive(events: seq<Event>, offset: nat, f: SymFrame, stack: nat, xs: seq<Operand>)
    requires FrameLive(events, offset, f) && OperandTerms(f, stack, xs).Some?
    ensures TermsLive(events, offset, OperandTerms(f, stack, xs).value)
  {
    if xs != [] { OperandsLive(events, offset, f, stack, xs[..|xs| - 1]); }
  }

  lemma {:induction false} RangeLive(events: seq<Event>, offset: nat, f: SymFrame, stack: nat, start: nat, end: int)
    requires FrameLive(events, offset, f) && ReadRange(f, stack, start, end).Some?
    ensures TermsLive(events, offset, ReadRange(f, stack, start, end).value)
    decreases end - start
  {
    if start < end {
      RangeLive(events, offset, f, stack, start, end - 1);
      assert ReadRange(f, stack, start, end).value
        == ReadRange(f, stack, start, end - 1).value + [Read(f, stack, end - 1).value];
    }
  }

  ghost predicate PackLive(events: seq<Event>, offset: nat, p: Pack) {
    forall id: nat :: id in PackRefs(p) ==> Live(events, offset, id)
  }

  lemma {:induction false} PackIsLive(events: seq<Event>, offset: nat, p: Pack)
    requires TermsLive(events, offset, p.items) && (p.tail.Some? ==> Live(events, offset, p.tail.value))
    ensures PackLive(events, offset, p)
  {
    hide Live;
  }

  lemma {:induction false} PackAtLive(events: seq<Event>, offset: nat, f: SymFrame, stack: nat, start: nat, count: nat)
    requires FrameLive(events, offset, f) && PackAt(f, stack, start, count).Some?
    ensures var p := PackAt(f, stack, start, count).value;
            TermsLive(events, offset, p.0) && (p.1.Some? ==> Live(events, offset, p.1.value)) &&
              PackLive(events, offset, Pack(p.0, p.1))
  {
    hide TermsLive, Live, PackLive, TermLive;
    RangeLive(events, offset, f, stack, start, if count != 0 then start + count - 1 else f.top.value.0);
    var p := PackAt(f, stack, start, count).value;
    PackIsLive(events, offset, Pack(p.0, p.1));
  }

  ghost predicate RegsLive(events: seq<Event>, offset: nat, regs: map<nat, Term>) {
    forall r :: r in regs ==> TermLive(events, offset, regs[r])
  }

  lemma {:induction false} FillLive(events: seq<Event>, offset: nat, regs: map<nat, Term>, a: nat, n: nat,
      results: nat -> Term)
    requires RegsLive(events, offset, regs) && forall i: nat :: TermLive(events, offset, results(i))
    ensures RegsLive(events, offset, Fill(regs, a, n, results))
  {
    hide TermLive;
    if n > 0 {
      FillLive(events, offset, regs, a, n - 1, results);
      assert TermLive(events, offset, results(n - 1));
    }
  }

  lemma {:induction false} PlaceLive(events: seq<Event>, offset: nat, f: SymFrame, a: nat, count: nat, now: nat)
    requires FrameLive(events, offset, f) && Live(events, offset, now)
    ensures FrameLive(events, offset, Frame(Below(f.regs, a), Some((a, now))))
    ensures FrameLive(events, offset, Frame(Fill(Below(f.regs, a), a, count, (i: nat) => Result(now, i)), None))
  {
    hide Live;
    var results := (i: nat) => Result(now, i);
    forall i: nat ensures TermLive(events, offset, results(i)) { assert results(i) == Result(now, i); }
    FillLive(events, offset, Below(f.regs, a), a, count, results);
  }

  // ----- steps -----

  lemma {:induction false} AssignLive(sym: Sym, offset: nat, stack: nat, a: nat, t: Term, next: int)
    requires SymLive(sym, offset) && TermLive(sym.events, offset, t) && Assign(sym, stack, a, t, next).Continue?
    ensures SymLive(Assign(sym, stack, a, t, next).sym, offset)
  {
    hide FrameLive, TermLive, Live, RefsEarlier, Write;
    WriteLive(sym.events, offset, sym.frame, stack, a, t);
  }

  lemma {:induction false} EmitLive(ctx: Context, sym: Sym, offset: nat, name: string, ev: Event)
    requires SymLive(sym, offset) && Emit(ctx.closed, sym, name, ev).Some?
    requires forall id: nat :: id in EventRefs(ev) ==> Live(sym.events, offset, id)
    requires !ev.GetUpvalue?
    ensures var after := Emit(ctx.closed, sym, name, ev).value;
            SymLive(after, offset) && after.events == sym.events + [ev] && after.frame == sym.frame
            && (!ev.SetTable? ==> Live(after.events, offset, offset + |sym.events|))
  {
    hide FrameLive, RefsEarlier, EventRefs;
    EarlierMore(sym.events, offset, ev);
    FrameLiveNext(sym.events, offset, ev, sym.frame);
    LiveNext(sym.events, offset, ev, offset);
  }

  lemma {:induction false} EmitToLive(ctx: Context, sym: Sym, offset: nat, stack: nat, a: nat, name: string, ev: Event,
      next: int)
    requires SymLive(sym, offset) && forall id: nat :: id in EventRefs(ev) ==> Live(sym.events, offset, id)
    requires !ev.GetUpvalue? && !ev.SetTable? && EmitTo(ctx.closed, sym, offset, stack, a, name, ev, next).Continue?
    ensures SymLive(EmitTo(ctx.closed, sym, offset, stack, a, name, ev, next).sym, offset)
    ensures EmitTo(ctx.closed, sym, offset, stack, a, name, ev, next).sym.events == sym.events + [ev]
  {
    hide SymLive, Live, Emit, EventRefs;
    EmitLive(ctx, sym, offset, name, ev);
    AssignLive(Emit(ctx.closed, sym, name, ev).value, offset, stack, a, Value(offset + |sym.events|), next);
  }

  lemma {:induction false} ResultsLive(ctx: Context, sym: Sym, offset: nat, a: nat, count: nat, name: string, ev: Event,
      next: int)
    requires ValidContext(ctx) && SymLive(sym, offset)
    requires forall id: nat :: id in EventRefs(ev) ==> Live(sym.events, offset, id)
    requires !ev.GetUpvalue? && !ev.SetTable?
    requires SymResults(ctx.closed, ProtoOf(ctx).stack, sym, offset, a, count, name, ev, next).Continue?
    ensures SymLive(SymResults(ctx.closed, ProtoOf(ctx).stack, sym, offset, a, count, name, ev, next).sym, offset)
  {
    hide FrameLive, Live, Emit, EventRefs, RefsEarlier, Fill, Below;
    EmitLive(ctx, sym, offset, name, ev);
    var after := Emit(ctx.closed, sym, name, ev).value;
    PlaceLive(after.events, offset, after.frame, a, if count == 0 then 0 else count - 1, offset + |sym.events|);
  }

  lemma {:induction false} CapturesLive(ctx: Context, sym: Sym, offset: nat, a: nat, shared: bool,
      captures: seq<(nat, nat)>)
    requires ValidContext(ctx) && FrameLive(sym.events, offset, sym.frame)
    requires SymCaptures(ctx.closed, ProtoOf(ctx), sym, a, shared, captures).Some?
    ensures forall id: nat ::
        id in CaptureRefs(SymCaptures(ctx.closed, ProtoOf(ctx), sym, a, shared, captures).value) ==>
          Live(sym.events, offset, id)
  {
    hide Live;
    if captures != [] {
      var n := |captures| - 1;
      CapturesLive(ctx, sym, offset, a, shared, captures[..n]);
      var before, last := SymCaptures(ctx.closed, ProtoOf(ctx), sym, a, shared, captures[..n]).value,
        SymCapture(ctx.closed, ProtoOf(ctx), sym, a, shared, captures[n]).value;
      forall id: nat | id in CaptureRefs(before + [last]) ensures Live(sym.events, offset, id) {
        var x :| x in before + [last] && x.Copied? && id in TermRefs(x.t);
        if x in before { assert id in CaptureRefs(before); } else { assert TermLive(sym.events, offset, x.t); }
      }
    }
  }

  lemma {:induction false} ClosureLive(ctx: Context, sym: Sym, offset: nat, a: nat, child: nat, shared: bool, key: nat,
      next: int)
    requires ValidContext(ctx) && SymLive(sym, offset)
    requires SymClosure(ctx, sym, offset, a, child, shared, key, next).Continue?
    ensures SymLive(SymClosure(ctx, sym, offset, a, child, shared, key, next).sym, offset)
  {
    hide FrameLive, Live, EmitTo, SymCaptures, RefsEarlier, CapturesAt, Write;
    var n := ctx.chunk.protos[child].upvalues;
    var captures :=
      SymCaptures(ctx.closed, ProtoOf(ctx), sym, a, shared, CapturesAt(ProtoOf(ctx).code, next, n).value).value;
    CapturesLive(ctx, sym, offset, a, shared, CapturesAt(ProtoOf(ctx).code, next, n).value);
    var template := if shared then Some(ctx.names[(ctx.p, key)]) else None;
    var ev := MakeClosure(shared, template, ctx.bodies(child).value, captures);
    EmitToLive(ctx, sym, offset, ProtoOf(ctx).stack, a, if shared then "DUPCLOSURE" else "NEWCLOSURE", ev, next + n);
  }

  lemma {:induction false} GetUpvalLive(ctx: Context, sym: Sym, offset: nat, pc: int)
    requires ValidContext(ctx) && pc in ProtoOf(ctx).code && SymLive(sym, offset)
    requires ProtoOf(ctx).code[pc].insn.GetUpval? && SymStep(ctx, sym, offset, pc).Continue?
    ensures SymLive(SymStep(ctx, sym, offset, pc).sym, offset)
  {
    hide FrameLive, RefsEarlier, Write;
    var insn, now := ProtoOf(ctx).code[pc].insn, offset + |sym.events|;
    var ev := GetUpvalue(insn.slot);
    if insn.slot in sym.shared && ctx.closed {
      AssignLive(sym, offset, ProtoOf(ctx).stack, insn.a, Value(sym.shared[insn.slot]), ProtoOf(ctx).code[pc].next);
    } else {
      EarlierMore(sym.events, offset, ev);
      FrameLiveNext(sym.events, offset, ev, sym.frame);
      var after := sym.(shared := sym.shared[insn.slot := now], events := sym.events + [ev]);
      forall slot | slot in after.shared ensures Live(after.events, offset, after.shared[slot]) {
        LiveNext(sym.events, offset, ev, after.shared[slot]);
      }
      AssignLive(after, offset, ProtoOf(ctx).stack, insn.a, Value(now), ProtoOf(ctx).code[pc].next);
    }
  }

  lemma {:induction false} OneTerm(events: seq<Event>, offset: nat, f: SymFrame, stack: nat, r: nat)
    requires FrameLive(events, offset, f) && Read(f, stack, r).Some?
    ensures TermLive(events, offset, Read(f, stack, r).value)
  {
  }

  lemma {:induction false} OperandLive(events: seq<Event>, offset: nat, f: SymFrame, stack: nat, x: Operand)
    requires FrameLive(events, offset, f) && OperandTerm(f, stack, x).Some?
    ensures TermLive(events, offset, OperandTerm(f, stack, x).value)
  {
  }

  lemma {:induction false} SilentLive(ctx: Context, sym: Sym, offset: nat, pc: int)
    requires ValidContext(ctx) && pc in ProtoOf(ctx).code && SymLive(sym, offset)
    requires SymStep(ctx, sym, offset, pc).Continue?
    requires var insn := ProtoOf(ctx).code[pc].insn;
        insn.Nop? || insn.PrepVarargs? || insn.Load? || insn.LoadBool? || insn.MoveReg? || insn.Jump?
    ensures SymLive(SymStep(ctx, sym, offset, pc).sym, offset)
  {
    hide SymLive, Live, Write;
    var insn, stack, next := ProtoOf(ctx).code[pc].insn, ProtoOf(ctx).stack, ProtoOf(ctx).code[pc].next;
    LiveParts(sym, offset);
    if insn.Load? { AssignLive(sym, offset, stack, insn.a, Const(insn.k), next); }
    else if insn.LoadBool? { AssignLive(sym, offset, stack, insn.a, Const(Bool(insn.flag)), pc + 1 + insn.skip); }
    else if insn.MoveReg? {
      OneTerm(sym.events, offset, sym.frame, stack, insn.b);
      AssignLive(sym, offset, stack, insn.a, Read(sym.frame, stack, insn.b).value, next);
    }
  }

  lemma {:induction false} LiveParts(sym: Sym, offset: nat)
    requires SymLive(sym, offset)
    ensures FrameLive(sym.events, offset, sym.frame)
  {
  }

  lemma {:induction false} OperateLive(ctx: Context, sym: Sym, offset: nat, pc: int)
    requires ValidContext(ctx) && pc in ProtoOf(ctx).code && SymLive(sym, offset)
    requires SymStep(ctx, sym, offset, pc).Continue?
    requires var insn := ProtoOf(ctx).code[pc].insn;
        insn.Operate? || insn.SetUpval? || insn.PutTable? || insn.MakeTable? || insn.CopyTable?
    ensures SymLive(SymStep(ctx, sym, offset, pc).sym, offset)
  {
    hide SymLive, Live, Emit, OperandTerms, Write, FrameLive;
    var insn, stack, next, f := ProtoOf(ctx).code[pc].insn, ProtoOf(ctx).stack, ProtoOf(ctx).code[pc].next, sym.frame;
    LiveParts(sym, offset);
    if insn.Operate? {
      OperandsLive(sym.events, offset, f, stack, insn.operands);
      var p := Pack(OperandTerms(f, stack, insn.operands).value, None);
      PackIsLive(sym.events, offset, p);
      var ev := Operation(insn.name, [], p);
      if insn.dest.Some? {
        EmitToLive(ctx, sym, offset, stack, insn.dest.value, insn.name, ev, next);
      } else {
        EmitLive(ctx, sym, offset, insn.name, ev);
      }
    } else if insn.SetUpval? {
      OneTerm(sym.events, offset, f, stack, insn.a);
      var p := Pack([Read(f, stack, insn.a).value], None);
      PackIsLive(sym.events, offset, p);
      EmitLive(ctx, sym, offset, "SETUPVAL", Operation("SETUPVAL", [insn.slot], p));
    } else if insn.PutTable? {
      OneTerm(sym.events, offset, f, stack, insn.a);
      OneTerm(sym.events, offset, f, stack, insn.table);
      OperandLive(sym.events, offset, f, stack, insn.field);
      EmitLive(ctx, sym, offset, "SETTABLE",
               SetTable(Read(f, stack, insn.table).value, OperandTerm(f, stack, insn.field).value,
                 Read(f, stack, insn.a).value));
    } else if insn.MakeTable? {
      EmitToLive(ctx, sym, offset, stack, insn.a, "NEWTABLE", NewTable(insn.hash, insn.slots), next);
    } else {
      EmitToLive(ctx, sym, offset, stack, insn.a, "DUPTABLE", DupTable(insn.keyed, insn.fields), next);
    }
  }

  lemma {:induction false} TermLiveNext(events: seq<Event>, offset: nat, ev: Event, t: Term)
    requires TermLive(events, offset, t)
    ensures TermLive(events + [ev], offset, t)
  {
    forall id: nat
      ensures Live(events, offset, id) ==> Live(events + [ev], offset, id)
    {
      LiveNext(events, offset, ev, id);
    }
    hide Live;
  }

  lemma {:induction false} CallingLive(ctx: Context, sym: Sym, offset: nat, pc: int)
    requires ValidContext(ctx) && pc in ProtoOf(ctx).code && SymLive(sym, offset)
    requires SymStep(ctx, sym, offset, pc).Continue?
    requires var insn := ProtoOf(ctx).code[pc].insn; insn.NameCall? || insn.SetList? || insn.CallFn? || insn.GetVarargs?
    ensures SymLive(SymStep(ctx, sym, offset, pc).sym, offset)
  {
    hide SymLive, Live, Emit, EmitTo, OperandTerms, Write, FrameLive, PackAt, SymResults, TermsLive, TermLive, PackRefs;
    var insn, stack, next, f := ProtoOf(ctx).code[pc].insn, ProtoOf(ctx).stack, ProtoOf(ctx).code[pc].next, sym.frame;
    LiveParts(sym, offset);
    if insn.NameCall? {
      NameCallLive(ctx, sym, offset, pc);
    } else if insn.GetVarargs? {
      NothingLive(sym.events, offset);
      ResultsLive(ctx, sym, offset, insn.a, insn.count, "GETVARARGS",
        Operation("GETVARARGS", [insn.count], Pack([], None)), next);
    } else {
      var start, count := if insn.CallFn? then insn.a + 1 else insn.b, if insn.CallFn? then insn.args else insn.count;
      OneTerm(sym.events, offset, f, stack, insn.a);
      PackAtLive(sym.events, offset, f, stack, start, count);
      var t, p := Read(f, stack, insn.a).value, PackAt(f, stack, start, count).value;
      HeadLive(sym.events, offset, t, p.0, p.1);
      if insn.CallFn? {
        ResultsLive(ctx, sym, offset, insn.a, insn.count, "CALL", Operation("CALL", [insn.count], Pack([t] + p.0, p.1)),
          next);
      } else {
        EmitLive(ctx, sym, offset, "SETLIST", Operation("SETLIST", [insn.index], Pack([t] + p.0, p.1)));
        ClosedTop(Emit(ctx.closed, sym, "SETLIST", Operation("SETLIST", [insn.index], Pack([t] + p.0, p.1))).value,
          offset);
      }
    }
  }

  lemma {:induction false} NothingLive(events: seq<Event>, offset: nat)
    ensures PackLive(events, offset, Pack([], None))
  {
  }

  lemma {:induction false} HeadLive(events: seq<Event>, offset: nat, t: Term, items: seq<Term>, tail: Option<nat>)
    requires TermLive(events, offset, t) && TermsLive(events, offset, items)
    requires (tail.Some? ==> Live(events, offset, tail.value))
    ensures PackLive(events, offset, Pack([t] + items, tail))
  {
    hide Live, TermLive;
    PackIsLive(events, offset, Pack([t] + items, tail));
  }

  lemma {:induction false} ClosedTop(sym: Sym, offset: nat)
    requires SymLive(sym, offset)
    ensures SymLive(sym.(frame := sym.frame.(top := None)), offset)
  {
  }

  lemma {:induction false} NameCallLive(ctx: Context, sym: Sym, offset: nat, pc: int)
    requires ValidContext(ctx) && pc in ProtoOf(ctx).code && SymLive(sym, offset)
    requires SymStep(ctx, sym, offset, pc).Continue?
    requires ProtoOf(ctx).code[pc].insn.NameCall?
    ensures SymLive(SymStep(ctx, sym, offset, pc).sym, offset)
  {
    hide SymLive, Live, EmitTo, Write, FrameLive;
    var insn, stack, next, f := ProtoOf(ctx).code[pc].insn, ProtoOf(ctx).stack, ProtoOf(ctx).code[pc].next, sym.frame;
    LiveParts(sym, offset);
    OneTerm(sym.events, offset, f, stack, insn.b);
    var t := Read(f, stack, insn.b).value;
    var ev := Operation("NAMECALL", [], Pack([t, Const(insn.key)], None));
    PackIsLive(sym.events, offset, Pack([t, Const(insn.key)], None));
    EmitToLive(ctx, sym, offset, stack, insn.a, "NAMECALL", ev, next);
    TermLiveNext(sym.events, offset, ev, t);
    AssignLive(EmitTo(ctx.closed, sym, offset, stack, insn.a, "NAMECALL", ev, next).sym, offset, stack, insn.a + 1, t,
      next);
  }

  /** Every step keeps mentions live. */
  lemma {:induction false} ContinueLive(ctx: Context, sym: Sym, offset: nat, pc: int)
    requires ValidContext(ctx) && pc in ProtoOf(ctx).code && SymLive(sym, offset)
    requires SymStep(ctx, sym, offset, pc).Continue?
    ensures SymLive(SymStep(ctx, sym, offset, pc).sym, offset)
  {
    hide SymLive;
    var insn, next := ProtoOf(ctx).code[pc].insn, ProtoOf(ctx).code[pc].next;
    if insn.GetUpval? { GetUpvalLive(ctx, sym, offset, pc); }
    else if insn.NewClosure? { ClosureLive(ctx, sym, offset, insn.a, insn.child, false, 0, next); }
    else if insn.DupClosure? { ClosureLive(ctx, sym, offset, insn.a, insn.child, true, insn.constant, next); }
    else if insn.NameCall? || insn.SetList? || insn.CallFn? || insn.GetVarargs? { CallingLive(ctx, sym, offset, pc); }
    else if insn.Operate? || insn.SetUpval? || insn.PutTable? || insn.MakeTable? ||
      insn.CopyTable? { OperateLive(ctx, sym, offset, pc); }
    else { SilentLive(ctx, sym, offset, pc); }
  }

  lemma {:induction false} PlanLive(ctx: Context, sym: Sym, offset: nat, pc: int)
    requires ValidContext(ctx) && pc in ProtoOf(ctx).code && SymLive(sym, offset)
    ensures var plan := SymStep(ctx, sym, offset, pc);
            (plan.Fork? ==>
              plan.sym.events == sym.events && SymLive(Sym(plan.sym.frame, plan.sym.shared, []), offset + |sym.events|))
            && (plan.Attempt? ==> plan.sym == sym) &&
              (plan.Finish? ==> plan.sym == sym && PackLive(sym.events, offset, plan.pack))
  {
    hide PackLive, FrameLive, Live, RefsEarlier, PackAt, SymFastCall;
    NotAFork(ctx, sym, offset, pc);
    var insn := ProtoOf(ctx).code[pc].insn;
    NewSegment(sym, offset, sym.frame, sym.shared);
    NewSegment(sym, offset, sym.frame, map[]);
    if insn.ReturnInsn? && SymStep(ctx, sym, offset, pc).Finish? {
      PackAtLive(sym.events, offset, sym.frame, ProtoOf(ctx).stack, insn.a, insn.count);
    } else if insn.TryFast? {
      AttemptKeeps(ctx, sym, pc, insn.fast, insn.builtin, insn.skip);
    }
  }

  lemma {:induction false} AttemptKeeps(ctx: Context, sym: Sym, pc: int, kind: FastKind, builtin: int, skip: int)
    requires ValidContext(ctx) && pc in ProtoOf(ctx).code
    ensures var plan := SymFastCall(ProtoOf(ctx), sym, pc, kind, builtin, skip);
        plan.Refuse? || (plan.Attempt? && plan.sym == sym)
  {
  }

  /** What was live in a finished segment is live at the start of the next. */
  lemma {:induction false} NewSegment(sym: Sym, offset: nat, f: SymFrame, shared: map<nat, nat>)
    requires SymLive(sym, offset) && f == sym.frame
    requires forall slot :: slot in shared ==> slot in sym.shared && shared[slot] == sym.shared[slot]
    ensures SymLive(Sym(f, shared, []), offset + |sym.events|)
  {
    var now := offset + |sym.events|;
    forall id: nat ensures Live(sym.events, offset, id) ==> Live([], now, id) { }
    hide Live;
    forall r | r in f.regs ensures TermLive([], now, f.regs[r]) { assert TermLive(sym.events, offset, f.regs[r]); }
  }

  lemma {:induction false} NativeLive(sym: Sym, offset: nat, site: FastSite)
    requires SymLive(sym, offset)
    ensures var now := offset + |sym.events|;
            SymLive(Sym(NativeFrame(sym.frame, site, now), map[], []), now + 1) &&
              SymLive(Sym(sym.frame, map[], []), now)
  {
    hide RefsEarlier;
    var now := offset + |sym.events|;
    NewSegment(sym, offset, sym.frame, map[]);
    forall id: nat ensures Live([], now, id) ==> Live([], now + 1, id) { }
    assert Live([], now + 1, now);
    hide Live;
    var f := sym.frame;
    forall r | r in f.regs ensures TermLive([], now + 1, f.regs[r]) { assert TermLive([], now, f.regs[r]); }
    PlaceLive([], now + 1, f, site.a, if site.count == 0 then 0 else site.count - 1, now);
    NoMentions(now + 1);
  }

  lemma {:induction false} NoMentions(offset: nat)
    ensures RefsEarlier([], offset)
  {
  }

  // ----- the tree with and without normalisation -----

  /** A leaf and its raw form. */
  lemma {:induction false} LeavesEquivalent(ctx: Context, w: World, params: seq<Val>, sym: Sym, pack: Pack, offset: nat)
    requires SymLive(sym, offset) && PackLive(sym.events, offset, pack)
    ensures Equivalent(w, params, Leaf(ctx.closed, false, sym.events, pack, offset),
        Leaf(ctx.closed, true, sym.events, pack, offset), offset)
  {
    hide Equivalent, NormalEvents, NormalPack, RefsEarlier, PackRefs;
    if ctx.closed && AnyTable(sym.events) {
      LeafEquivalent(w, params, sym.events, pack, offset);
    } else {
      SameTree(w, params, Leaf(ctx.closed, true, sym.events, pack, offset), offset);
    }
  }

  lemma {:induction false} JoinEquivalent(ctx: Context, w: World, params: seq<Val>, events: seq<Event>, cond: Condition,
      yes: Segment, no: Segment, yes': Segment, no': Segment, offset: nat)
    requires Equivalent(w, params, yes, yes', offset + |events|) && Equivalent(w, params, no, no', offset + |events|)
    ensures Equivalent(w, params, Joined(ctx.closed, false, events, cond, yes, no),
        Joined(ctx.closed, true, events, cond, yes', no'), offset)
  {
    hide Covers;
    if cond.Truthy? && yes' == no' && ctx.closed {
      CollapseCovers(w, params, events, cond.t, yes, no, yes', offset);
      ExpandCovers(w, params, events, cond.t, yes, no, yes', offset);
    } else {
      BranchCovers(w, params, events, cond, yes, no, yes', no', offset);
      BranchCovers(w, params, events, cond, yes', no', yes, no, offset);
    }
  }

  lemma {:induction false} AttemptEquivalent(w: World, params: seq<Val>, events: seq<Event>, builtin: string,
      immediates: seq<int>, args: Pack, native: Segment, fallback: Segment, native': Segment, fallback': Segment,
      offset: nat)
    requires Equivalent(w, params, native, native', offset + |events| + 1)
    requires Equivalent(w, params, fallback, fallback', offset + |events|)
    ensures var ev := FastSuccess(builtin, immediates, args);
            Equivalent(w, params,
              Segment(events, FastCall(builtin, immediates, args, Segment([ev] + native.events, native.end), fallback)),
              Segment(events,
                FastCall(builtin, immediates, args, Segment([ev] + native'.events, native'.end), fallback')), offset)
  {
    hide Covers;
    var ev, now := FastSuccess(builtin, immediates, args), offset + |events|;
    var one, other := Segment([ev] + native.events, native.end), Segment([ev] + native'.events, native'.end);
    PrefixCovers(w, params, [ev], native, native', now);
    PrefixCovers(w, params, [ev], native', native, now);
    FastCovers(w, params, events, builtin, immediates, args, one, fallback, other, fallback', offset);
    FastCovers(w, params, events, builtin, immediates, args, other, fallback', one, fallback, offset);
  }

  /** Normalising and merging on the way up changes no outcome. */
  lemma {:induction false} ExecEquivalent(ctx: Context, w: World, params: seq<Val>, pc: int, sym: Sym, offset: nat,
      seen: set<int>)
    requires ValidContext(ctx) && SymLive(sym, offset) && Exec(ctx, true, pc, sym, offset, seen).Some?
    ensures Exec(ctx, false, pc, sym, offset, seen).Some?
    ensures Equivalent(w, params, Exec(ctx, false, pc, sym, offset, seen).value,
        Exec(ctx, true, pc, sym, offset, seen).value, offset)
    decreases ProtoOf(ctx).code.Keys - seen
  {
    hide SymStep, SymLive, Equivalent, Joined, Leaf, NativeFrame;
    var plan := SymStep(ctx, sym, offset, pc);
    PlanLive(ctx, sym, offset, pc);
    OneFewer(ProtoOf(ctx).code, seen, pc);
    if plan.Continue? {
      ContinueLive(ctx, sym, offset, pc);
      ExecEquivalent(ctx, w, params, plan.pc, plan.sym, offset, seen + {pc});
    } else if plan.Fork? {
      ForkEquivalent(ctx, w, params, pc, sym, offset, seen);
    } else if plan.Attempt? {
      FastEquivalent(ctx, w, params, pc, sym, offset, seen);
    } else {
      LeavesEquivalent(ctx, w, params, sym, plan.pack, offset);
    }
  }

  lemma {:induction false} ForkEquivalent(ctx: Context, w: World, params: seq<Val>, pc: int, sym: Sym, offset: nat,
      seen: set<int>)
    requires ValidContext(ctx) && SymLive(sym, offset) && Exec(ctx, true, pc, sym, offset, seen).Some?
    requires pc !in seen && pc in ProtoOf(ctx).code && SymStep(ctx, sym, offset, pc).Fork?
    ensures Exec(ctx, false, pc, sym, offset, seen).Some?
    ensures Equivalent(w, params, Exec(ctx, false, pc, sym, offset, seen).value,
        Exec(ctx, true, pc, sym, offset, seen).value, offset)
    decreases ProtoOf(ctx).code.Keys - seen, 0
  {
    hide SymStep, SymLive, Equivalent, Joined, Leaf, NativeFrame;
    var plan, now := SymStep(ctx, sym, offset, pc), offset + |sym.events|;
    PlanLive(ctx, sym, offset, pc);
    OneFewer(ProtoOf(ctx).code, seen, pc);
    var start := Sym(plan.sym.frame, plan.sym.shared, []);
    ExecEquivalent(ctx, w, params, plan.yes, start, now, seen + {pc});
    ExecEquivalent(ctx, w, params, plan.no, start, now, seen + {pc});
    JoinEquivalent(ctx, w, params, sym.events, plan.cond,
                   Exec(ctx, false, plan.yes, start, now, seen + {pc}).value,
                     Exec(ctx, false, plan.no, start, now, seen + {pc}).value,
                   Exec(ctx, true, plan.yes, start, now, seen + {pc}).value,
                     Exec(ctx, true, plan.no, start, now, seen + {pc}).value, offset);
  }

  lemma {:induction false} FastEquivalent(ctx: Context, w: World, params: seq<Val>, pc: int, sym: Sym, offset: nat,
      seen: set<int>)
    requires ValidContext(ctx) && SymLive(sym, offset) && Exec(ctx, true, pc, sym, offset, seen).Some?
    requires pc !in seen && pc in ProtoOf(ctx).code && SymStep(ctx, sym, offset, pc).Attempt?
    ensures Exec(ctx, false, pc, sym, offset, seen).Some?
    ensures Equivalent(w, params, Exec(ctx, false, pc, sym, offset, seen).value,
        Exec(ctx, true, pc, sym, offset, seen).value, offset)
    decreases ProtoOf(ctx).code.Keys - seen, 0
  {
    hide SymStep, SymLive, Equivalent, Joined, Leaf, NativeFrame, Exec, FastSuccess;
    var plan, now := SymStep(ctx, sym, offset, pc), offset + |sym.events|;
    PlanLive(ctx, sym, offset, pc);
    OneFewer(ProtoOf(ctx).code, seen, pc);
    NativeLive(sym, offset, plan.site);
    var start, again := Sym(NativeFrame(sym.frame, plan.site, now), map[], []), Sym(sym.frame, map[], []);
    var native, fallback := Exec(ctx, true, plan.site.after, start, now + 1, seen + {pc}),
      Exec(ctx, true, plan.next, again, now, seen + {pc});
    AttemptSegment(ctx, true, offset, pc, sym, seen, plan, Exec(ctx, true, pc, sym, offset, seen), native, fallback);
    ExecEquivalent(ctx, w, params, plan.site.after, start, now + 1, seen + {pc});
    ExecEquivalent(ctx, w, params, plan.next, again, now, seen + {pc});
    var native', fallback' := Exec(ctx, false, plan.site.after, start, now + 1, seen + {pc}),
      Exec(ctx, false, plan.next, again, now, seen + {pc});
    AttemptSegment(ctx, false, offset, pc, sym, seen, plan, Exec(ctx, false, pc, sym, offset, seen), native',
      fallback');
    AttemptEquivalent(w, params, sym.events, plan.builtin, plan.immediates, plan.args,
                      native'.value, fallback'.value, native.value, fallback.value, offset);
  }
}
