/** One symbolic step and one machine step: if the symbolic registers name what the machine's
    registers hold, they still do afterwards. */
module Lockstep {
  import opened Options
  import opened Events
  import opened PrivateTables
  import opened Bytecode
  import opened SymbolicTree
  import opened TreeRuns
  import opened RegisterMachine

  // ----- frames -----

  ghost predicate Named(env: Env, t: Term) { TermRefs(t) <= env.Keys }

  ghost predicate HoldsAt(params: seq<Val>, env: Env, f: SymFrame, g: Frame<Val, seq<Val>>, r: nat)
    requires r in f.regs && r in g.regs
  {
    Named(env, f.regs[r]) && g.regs[r] == Eval(params, env, f.regs[r])
  }

  ghost predicate FrameRel(params: seq<Val>, env: Env, f: SymFrame, g: Frame<Val, seq<Val>>) {
    && f.regs.Keys == g.regs.Keys && (forall r :: r in f.regs ==> HoldsAt(params, env, f, g, r))
    && (f.top.Some? <==> g.top.Some?)
    && (f.top.Some? ==>
      f.top.value.0 == g.top.value.0 && f.top.value.1 in env && g.top.value.1 == env[f.top.value.1].results)
  }

  lemma {:induction false} ReadRel(params: seq<Val>, env: Env, f: SymFrame, g: Frame<Val, seq<Val>>, stack: nat, r: nat)
    requires FrameRel(params, env, f, g)
    ensures match Read(f, stack, r)
            case None => Read(g, stack, r).None?
            case Some(t) => Named(env, t) && Read(g, stack, r) == Some(Eval(params, env, t))
  {
    if r in f.regs { assert HoldsAt(params, env, f, g, r); }
  }

  lemma {:induction false} WriteRel(params: seq<Val>, env: Env, f: SymFrame, g: Frame<Val, seq<Val>>, stack: nat,
      r: nat, t: Term)
    requires FrameRel(params, env, f, g) && Named(env, t) && Write(f, stack, r, t).Some?
    ensures var g' := Write(g, stack, r, Eval(params, env, t));
            g'.Some? && FrameRel(params, env, Write(f, stack, r, t).value, g'.value)
  {
    hide Eval;
    var f', g' := Write(f, stack, r, t).value, Write(g, stack, r, Eval(params, env, t)).value;
    forall q | q in f'.regs ensures HoldsAt(params, env, f', g', q) {
      if q != r { assert HoldsAt(params, env, f, g, q); }
    }
  }

  lemma {:induction false} OperandRel(params: seq<Val>, env: Env, f: SymFrame, g: Frame<Val, seq<Val>>, stack: nat,
      x: Operand)
    requires FrameRel(params, env, f, g) && OperandTerm(f, stack, x).Some?
    ensures var t := OperandTerm(f, stack, x).value;
            Named(env, t) && OperandVal(g, stack, x) == Some(Eval(params, env, t))
  {
    if x.Reg? { ReadRel(params, env, f, g, stack, x.r); }
  }

  lemma {:induction false} EvalAllNext(params: seq<Val>, env: Env, ts: seq<Term>, t: Term)
    ensures EvalAll(params, env, ts + [t]) == EvalAll(params, env, ts) + [Eval(params, env, t)]
  {
  }

  lemma {:induction false} OperandsRel(params: seq<Val>, env: Env, f: SymFrame, g: Frame<Val, seq<Val>>, stack: nat,
      xs: seq<Operand>)
    requires FrameRel(params, env, f, g) && OperandTerms(f, stack, xs).Some?
    ensures OperandVals(g, stack, xs) == Some(EvalAll(params, env, OperandTerms(f, stack, xs).value))
  {
    hide FrameRel, Eval;
    if xs != [] {
      var n := |xs| - 1;
      OperandsRel(params, env, f, g, stack, xs[..n]);
      OperandRel(params, env, f, g, stack, xs[n]);
      EvalAllNext(params, env, OperandTerms(f, stack, xs[..n]).value, OperandTerm(f, stack, xs[n]).value);
    } else {
      assert EvalAll(params, env, []) == [];
    }
  }

  lemma {:induction false} RangeRel(params: seq<Val>, env: Env, f: SymFrame, g: Frame<Val, seq<Val>>, stack: nat,
      start: nat, end: int)
    requires FrameRel(params, env, f, g) && ReadRange(f, stack, start, end).Some?
    ensures ReadRange(g, stack, start, end) == Some(EvalAll(params, env, ReadRange(f, stack, start, end).value))
    decreases end - start
  {
    hide FrameRel, Eval;
    if start < end {
      var before, last := ReadRange(f, stack, start, end - 1), Read(f, stack, end - 1);
      assert before.Some? && last.Some? && ReadRange(f, stack, start, end) == Some(before.value + [last.value]);
      RangeRel(params, env, f, g, stack, start, end - 1);
      ReadRel(params, env, f, g, stack, end - 1);
      EvalAllNext(params, env, before.value, last.value);
    } else {
      assert EvalAll(params, env, []) == [];
    }
  }

  /** The values of a pack on the machine. */
  function Whole(p: (seq<Val>, Option<seq<Val>>)): seq<Val> { p.0 + Opened(p.1) }

  lemma {:induction false} PackRel(params: seq<Val>, env: Env, f: SymFrame, g: Frame<Val, seq<Val>>, stack: nat,
      start: nat, count: nat)
    requires FrameRel(params, env, f, g) && PackAt(f, stack, start, count).Some?
    ensures var p := PackAt(f, stack, start, count).value;
            PackAt(g, stack, start, count).Some? &&
              Whole(PackAt(g, stack, start, count).value) == EvalPack(params, env, Pack(p.0, p.1))
  {
    hide Eval;
    if count != 0 {
      RangeRel(params, env, f, g, stack, start, start + count - 1);
    } else {
      RangeRel(params, env, f, g, stack, start, f.top.value.0);
    }
  }

  lemma {:induction false} FillHas<V>(regs: map<nat, V>, a: nat, n: nat, results: nat -> V, r: nat)
    ensures r in Fill(regs, a, n, results) <==> r in regs || a <= r < a + n
    ensures a <= r < a + n ==> Fill(regs, a, n, results)[r] == results(r - a)
    ensures r in regs && !(a <= r < a + n) ==> Fill(regs, a, n, results)[r] == regs[r]
  {
    if n > 0 { FillHas(regs, a, n - 1, results, r); }
  }

  lemma {:induction false} FilledRel(params: seq<Val>, env: Env, f: SymFrame, g: Frame<Val, seq<Val>>, a: nat, n: nat,
      now: nat)
    requires FrameRel(params, env, f, g) && now in env
    ensures FrameRel(params, env, Frame(Fill(Below(f.regs, a), a, n, (i: nat) => Result(now, i)), None),
                     Frame(Fill(Below(g.regs, a), a, n, (i: nat) => ResultAt(env[now].results, i)), None))
  {
    var terms, vals := (i: nat) => Result(now, i), (i: nat) => ResultAt(env[now].results, i);
    var f': SymFrame := Frame(Fill(Below(f.regs, a), a, n, terms), None);
    var g': Frame<Val, seq<Val>> := Frame(Fill(Below(g.regs, a), a, n, vals), None);
    forall r: nat ensures r in f'.regs <==> r in g'.regs {
      FillHas(Below(f.regs, a), a, n, terms, r);
      FillHas(Below(g.regs, a), a, n, vals, r);
    }
    forall r | r in f'.regs ensures HoldsAt(params, env, f', g', r) {
      FillHas(Below(f.regs, a), a, n, terms, r);
      FillHas(Below(g.regs, a), a, n, vals, r);
      if r < a { assert HoldsAt(params, env, f, g, r); }
    }
  }

  lemma {:induction false} OpenedRel(params: seq<Val>, env: Env, f: SymFrame, g: Frame<Val, seq<Val>>, a: nat, now: nat)
    requires FrameRel(params, env, f, g) && now in env
    ensures FrameRel(params, env, Frame(Below(f.regs, a), Some((a, now))),
        Frame(Below(g.regs, a), Some((a, env[now].results))))
  {
    var f', g' := Frame(Below(f.regs, a), Some((a, now))), Frame(Below(g.regs, a), Some((a, env[now].results)));
    forall r | r in f'.regs ensures HoldsAt(params, env, f', g', r) { assert HoldsAt(params, env, f, g, r); }
  }

  lemma {:induction false} PlaceRel(params: seq<Val>, env: Env, f: SymFrame, g: Frame<Val, seq<Val>>, stack: nat,
      a: nat, count: nat, now: nat)
    requires FrameRel(params, env, f, g) && now in env
    requires Place(f, stack, a, count, (i: nat) => Result(now, i), now).Some?
    ensures var g' := Place(g, stack, a, count, (i: nat) => ResultAt(env[now].results, i), env[now].results);
            g'.Some? && FrameRel(params, env, Place(f, stack, a, count, (i: nat) => Result(now, i), now).value,
              g'.value)
  {
    hide FrameRel, Fill, Below;
    if count == 0 { OpenedRel(params, env, f, g, a, now); } else { FilledRel(params, env, f, g, a, count - 1, now); }
  }

  /** A frame does not notice a new event. */
  lemma {:induction false} FrameLater(params: seq<Val>, env: Env, f: SymFrame, g: Frame<Val, seq<Val>>, id: nat,
      reply: Reply)
    requires FrameRel(params, env, f, g) && id !in env
    ensures FrameRel(params, env[id := reply], f, g)
  {
    var later := env[id := reply];
    forall r | r in f.regs ensures HoldsAt(params, later, f, g, r) { assert HoldsAt(params, env, f, g, r); }
  }

  // ----- whole states -----

  ghost predicate SharedAt(w: World, c: Spot, shared: map<nat, nat>, slot: nat)
    requires slot in shared
  {
    shared[slot] in c.env && (w.steady ==> c.env[shared[slot]].value == Clean(c.mem.known, w.cell(c.mem.history, slot)))
  }

  /** The machine is where the symbolic state says, and every shared read is still current. */
  ghost predicate SymRel(w: World, params: seq<Val>, sym: Sym, now: nat, st: State, c: Spot) {
    && st.mem == c.mem && st.born == c.born && (forall id: nat :: id in c.env <==> id < now)
    && FrameRel(params, c.env, sym.frame, st.frame)
    && (forall slot :: slot in sym.shared ==> SharedAt(w, c, sym.shared, slot))
  }

  /** The machine runs the function the context describes, in a world the context may trust. */
  ghost predicate Fits(ctx: Context, m: Running, w: World) {
    && ValidContext(ctx) && m.chunk == ctx.chunk && m.p == ctx.p && m.names == ctx.names && (ctx.closed ==> w.steady)
    && forall id: nat :: ctx.bodies(id).Some? ==> m.meaning(id) == ctx.bodies(id).value
  }

  /** The spot after the events a step added, none or one. */
  ghost predicate Advanced(w: World, supply: Supply, params: seq<Val>, sym: Sym, now: nat, c: Spot, after: Sym,
      st: State)
  {
    if after.events == sym.events then SymRel(w, params, after, now, st, c)
    else
      && |after.events| == |sym.events| + 1 && after.events[..|sym.events|] == sym.events
      && SymRel(w, params, after, now + 1, st, StepEvent(w, supply, params, c, now, after.events[|sym.events|]))
  }

  lemma {:induction false} KeepRel(m: Running, w: World, supply: Supply, params: seq<Val>, sym: Sym, now: nat,
      st: State, c: Spot, a: nat, t: Term, next: int)
    requires ValidRunning(m) && SymRel(w, params, sym, now, st, c) && Named(c.env, t)
    requires Assign(sym, CodeOf(m).stack, a, t, next).Continue?
    ensures var after := Assign(sym, CodeOf(m).stack, a, t, next);
            var moved := Keep(m, st, a, Eval(params, c.env, t), next);
            after.pc == next && after.sym.events == sym.events && after.sym.shared == sym.shared
            && moved.Moved? && moved.st.pc == next && SymRel(w, params, after.sym, now, moved.st, c)
  {
    hide FrameRel, Eval, SharedAt, Write;
    WriteRel(params, c.env, sym.frame, st.frame, CodeOf(m).stack, a, t);
  }

  /** An event and the request it stands for. */
  lemma {:induction false} EmitRel(w: World, supply: Supply, params: seq<Val>, sym: Sym, now: nat, st: State, c: Spot,
      ev: Event, shared: map<nat, nat>)
    requires SymRel(w, params, sym, now, st, c)
    requires forall slot :: slot in shared ==> SharedAt(w, StepEvent(w, supply, params, c, now, ev), shared, slot)
    ensures var c' := StepEvent(w, supply, params, c, now, ev);
            var (st', reply) := Send(w, supply, st, RequestOf(params, c.env, ev));
            SymRel(w, params, Sym(sym.frame, shared, sym.events + [ev]), now + 1, st', c') && now in c'.env &&
              c'.env[now] == reply
            && st'.pc == st.pc && st'.frame == st.frame
  {
    hide FrameRel, Perform, SharedAt;
    var (mem, reply) := Perform(w, supply(c.born), c.mem, RequestOf(params, c.env, ev));
    assert RequestOf(params, c.env, ev).Allocate? <==> Allocates(ev);
    FrameLater(params, c.env, sym.frame, st.frame, now, reply);
  }

  /** An event that ends the sharing of upvalue reads, and nothing else yet. */
  lemma {:induction false} QuietRel(ctx: Context, w: World, supply: Supply, params: seq<Val>, sym: Sym, now: nat,
      st: State, c: Spot, name: string, ev: Event)
    requires SymRel(w, params, sym, now, st, c) && Emit(ctx.closed, sym, name, ev).Some? && !ev.GetUpvalue?
    ensures var after := Emit(ctx.closed, sym, name, ev).value;
            var c' := StepEvent(w, supply, params, c, now, ev);
            var (st', reply) := Send(w, supply, st, RequestOf(params, c.env, ev));
            after.events == sym.events + [ev] && after.frame == sym.frame && SymRel(w, params, after, now + 1, st', c')
            && now in c'.env && c'.env[now] == reply && st'.pc == st.pc && st'.frame == st.frame
  {
    hide StepEvent, RequestOf, SymRel;
    EmitRel(w, supply, params, sym, now, st, c, ev, map[]);
  }

  lemma {:induction false} AdvancedOne(w: World, supply: Supply, params: seq<Val>, sym: Sym, now: nat, c: Spot,
      after: Sym, st: State, ev: Event)
    requires after.events == sym.events + [ev]
    requires SymRel(w, params, after, now + 1, st, StepEvent(w, supply, params, c, now, ev))
    ensures Advanced(w, supply, params, sym, now, c, after, st)
  {
  }

  lemma {:induction false} EmitToRel(ctx: Context, m: Running, w: World, supply: Supply, params: seq<Val>, sym: Sym,
      offset: nat, st: State, c: Spot, a: nat, name: string, ev: Event, next: int)
    requires Fits(ctx, m, w) && SymRel(w, params, sym, offset + |sym.events|, st, c) && !ev.GetUpvalue?
    requires EmitTo(ctx.closed, sym, offset, CodeOf(m).stack, a, name, ev, next).Continue?
    ensures var now := offset + |sym.events|;
            var after := EmitTo(ctx.closed, sym, offset, CodeOf(m).stack, a, name, ev, next);
            var moved := RequestTo(m, w, supply, st, a, RequestOf(params, c.env, ev), next);
            after.pc == next && after.sym.events == sym.events + [ev] && moved.Moved? && moved.st.pc == next
            && SymRel(w, params, after.sym, now + 1, moved.st, StepEvent(w, supply, params, c, now, ev))
            && Advanced(w, supply, params, sym, now, c, after.sym, moved.st)
  {
    hide StepEvent, RequestOf, SymRel, Emit, Send, Advanced;
    var now := offset + |sym.events|;
    QuietRel(ctx, w, supply, params, sym, now, st, c, name, ev);
    var c' := StepEvent(w, supply, params, c, now, ev);
    KeepRel(m, w, supply, params, Emit(ctx.closed, sym, name, ev).value, now + 1,
      Send(w, supply, st, RequestOf(params, c.env, ev)).0, c', a, Value(now), next);
    AdvancedOne(w, supply, params, sym, now, c, EmitTo(ctx.closed, sym, offset, CodeOf(m).stack, a, name, ev, next).sym,
                RequestTo(m, w, supply, st, a, RequestOf(params, c.env, ev), next).st, ev);
  }

  lemma {:induction false} ResultsRel(ctx: Context, m: Running, w: World, supply: Supply, params: seq<Val>, sym: Sym,
      offset: nat, st: State, c: Spot, a: nat, count: nat, name: string, ev: Event, next: int)
    requires Fits(ctx, m, w) && SymRel(w, params, sym, offset + |sym.events|, st, c) && !ev.GetUpvalue?
    requires SymResults(ctx.closed, ProtoOf(ctx).stack, sym, offset, a, count, name, ev, next).Continue?
    ensures var now := offset + |sym.events|;
            var after := SymResults(ctx.closed, ProtoOf(ctx).stack, sym, offset, a, count, name, ev, next);
            var (sent, reply) := Send(w, supply, st, RequestOf(params, c.env, ev));
            var moved := GiveResults(m, sent, a, count, reply.results, next);
            after.pc == next && moved.Moved? && moved.st.pc == next
            && Advanced(w, supply, params, sym, now, c, after.sym, moved.st)
  {
    hide StepEvent, RequestOf, Emit, Send, Advanced, Place, FrameRel, SharedAt;
    var now := offset + |sym.events|;
    QuietRel(ctx, w, supply, params, sym, now, st, c, name, ev);
    var c' := StepEvent(w, supply, params, c, now, ev);
    PlaceRel(params, c'.env, sym.frame, st.frame, CodeOf(m).stack, a, count, now);
    var after := SymResults(ctx.closed, ProtoOf(ctx).stack, sym, offset, a, count, name, ev, next);
    var (sent, reply) := Send(w, supply, st, RequestOf(params, c.env, ev));
    AdvancedOne(w, supply, params, sym, now, c, after.sym, GiveResults(m, sent, a, count, reply.results, next).st, ev);
  }

  // ----- closures -----

  lemma {:induction false} CaptureRel(ctx: Context, m: Running, w: World, params: seq<Val>, sym: Sym, now: nat,
      st: State, c: Spot, a: nat, shared: bool, capture: (nat, nat))
    requires Fits(ctx, m, w) && SymRel(w, params, sym, now, st, c)
    requires SymCapture(ctx.closed, ProtoOf(ctx), sym, a, shared, capture).Some?
    ensures CaughtAt(m, st, a, capture)
        == Some(EvalCapture(params, c.env, SymCapture(ctx.closed, ProtoOf(ctx), sym, a, shared, capture).value))
  {
    hide FrameRel, Eval, SharedAt;
    ReadRel(params, c.env, sym.frame, st.frame, CodeOf(m).stack, capture.1);
  }

  lemma {:induction false} EvalCapturesNext(params: seq<Val>, env: Env, cs: seq<Capture>, x: Capture)
    ensures EvalCaptures(params, env, cs + [x]) == EvalCaptures(params, env, cs) + [EvalCapture(params, env, x)]
  {
  }

  lemma {:induction false} CapturesRel(ctx: Context, m: Running, w: World, params: seq<Val>, sym: Sym, now: nat,
      st: State, c: Spot, a: nat, shared: bool, captures: seq<(nat, nat)>)
    requires Fits(ctx, m, w) && SymRel(w, params, sym, now, st, c)
    requires SymCaptures(ctx.closed, ProtoOf(ctx), sym, a, shared, captures).Some?
    ensures CaughtAll(m, st, a, captures)
        == Some(EvalCaptures(params, c.env, SymCaptures(ctx.closed, ProtoOf(ctx), sym, a, shared, captures).value))
  {
    hide SymRel, SymCapture, CaughtAt;
    if captures == [] {
      assert EvalCaptures(params, c.env, []) == [];
    } else {
      var n := |captures| - 1;
      var before, last := SymCaptures(ctx.closed, ProtoOf(ctx), sym, a, shared, captures[..n]),
        SymCapture(ctx.closed, ProtoOf(ctx), sym, a, shared, captures[n]);
      assert before.Some? && last.Some? &&
        SymCaptures(ctx.closed, ProtoOf(ctx), sym, a, shared, captures) == Some(before.value + [last.value]);
      CapturesRel(ctx, m, w, params, sym, now, st, c, a, shared, captures[..n]);
      CaptureRel(ctx, m, w, params, sym, now, st, c, a, shared, captures[n]);
      EvalCapturesNext(params, c.env, before.value, last.value);
    }
  }

  lemma {:induction false} ClosureRel(ctx: Context, m: Running, w: World, supply: Supply, params: seq<Val>, sym: Sym,
      offset: nat, st: State, c: Spot, a: nat, child: nat, shared: bool, key: nat, next: int)
    requires Fits(ctx, m, w) && SymRel(w, params, sym, offset + |sym.events|, st, c)
    requires SymClosure(ctx, sym, offset, a, child, shared, key, next).Continue?
    ensures var after := SymClosure(ctx, sym, offset, a, child, shared, key, next);
            var moved := MakeClosureAt(m, w, supply, st, a, child, shared, key, next);
            moved.Moved? && moved.st.pc == after.pc &&
              Advanced(w, supply, params, sym, offset + |sym.events|, c, after.sym, moved.st)
  {
    hide SymRel, SymCaptures, CaughtAll, EmitTo, RequestTo, Advanced, CapturesAt, Write;
    var now, n := offset + |sym.events|, ctx.chunk.protos[child].upvalues;
    var found := CapturesAt(ProtoOf(ctx).code, next, n).value;
    var captures := SymCaptures(ctx.closed, ProtoOf(ctx), sym, a, shared, found).value;
    CapturesRel(ctx, m, w, params, sym, now, st, c, a, shared, found);
    var template := if shared then Some(ctx.names[(ctx.p, key)]) else None;
    var ev := MakeClosure(shared, template, ctx.bodies(child).value, captures);
    EmitToRel(ctx, m, w, supply, params, sym, offset, st, c, a, if shared then "DUPCLOSURE"
      else "NEWCLOSURE", ev, next + n);
  }

  // ----- upvalue reads -----

  lemma {:induction false} SharedNow(w: World, supply: Supply, params: seq<Val>, sym: Sym, now: nat, st: State, c: Spot,
      slot: nat, shared: map<nat, nat>)
    requires SymRel(w, params, sym, now, st, c) && shared == sym.shared[slot := now]
    ensures forall other ::
        other in shared ==> SharedAt(w, StepEvent(w, supply, params, c, now, GetUpvalue(slot)), shared, other)
  {
    hide FrameRel;
    var c' := StepEvent(w, supply, params, c, now, GetUpvalue(slot));
    forall other | other in shared ensures SharedAt(w, c', shared, other) {
      if other != slot { assert SharedAt(w, c, sym.shared, other); }
    }
  }

  /** Reading an upvalue: a new read, or one that nothing since has invalidated. */
  lemma {:induction false} GetUpvalRel(ctx: Context, m: Running, w: World, supply: Supply, params: seq<Val>, sym: Sym,
      offset: nat, st: State, c: Spot, pc: int)
    requires Fits(ctx, m, w) && SymRel(w, params, sym, offset + |sym.events|, st, c) && st.pc == pc
    requires pc in ProtoOf(ctx).code && ProtoOf(ctx).code[pc].insn.GetUpval? && SymStep(ctx, sym, offset, pc).Continue?
    ensures StepRel(m, w, supply, params, sym, offset, st, c, SymStep(ctx, sym, offset, pc))
  {
    hide SymRel, Advanced, FrameRel, StepEvent, Write;
    var insn, next, now := ProtoOf(ctx).code[pc].insn, ProtoOf(ctx).code[pc].next, offset + |sym.events|;
    var slot := insn.slot;
    if slot in sym.shared && ctx.closed {
      SharedIsCurrent(w, supply, params, sym, now, st, c, slot);
      KeepRel(m, w, supply, params, sym, now, st, c, insn.a, Value(sym.shared[slot]), next);
      AdvancedNone(w, supply, params, sym, now, c, SymStep(ctx, sym, offset, pc).sym, StepAt(m, w, supply, st).st);
    } else {
      var ev, shared := GetUpvalue(slot), sym.shared[slot := now];
      SharedNow(w, supply, params, sym, now, st, c, slot, shared);
      EmitRel(w, supply, params, sym, now, st, c, ev, shared);
      var c', after := StepEvent(w, supply, params, c, now, ev), Sym(sym.frame, shared, sym.events + [ev]);
      KeepRel(m, w, supply, params, after, now + 1, Send(w, supply, st, Cell(slot)).0, c', insn.a, Value(now), next);
      AdvancedOne(w, supply, params, sym, now, c, SymStep(ctx, sym, offset, pc).sym, StepAt(m, w, supply, st).st, ev);
    }
  }

  lemma {:induction false} AdvancedNone(w: World, supply: Supply, params: seq<Val>, sym: Sym, now: nat, c: Spot,
      after: Sym, st: State)
    requires after.events == sym.events && SymRel(w, params, after, now, st, c)
    ensures Advanced(w, supply, params, sym, now, c, after, st)
  {
  }

  /** Reading the cell again would give what the shared read gave, and change nothing. */
  lemma {:induction false} SharedIsCurrent(w: World, supply: Supply, params: seq<Val>, sym: Sym, now: nat, st: State,
      c: Spot, slot: nat)
    requires SymRel(w, params, sym, now, st, c) && slot in sym.shared && w.steady
    ensures sym.shared[slot] in c.env
    ensures Send(w, supply, st, Cell(slot)) == (st, Reply(c.env[sym.shared[slot]].value, []))
  {
    assert SharedAt(w, c, sym.shared, slot);
  }

  /** The machine made the step the plan says, and the states still correspond. */
  ghost predicate StepRel(m: Running, w: World, supply: Supply, params: seq<Val>, sym: Sym, offset: nat, st: State,
      c: Spot, plan: Plan)
    requires ValidRunning(m) && plan.Continue?
  {
    var moved := StepAt(m, w, supply, st);
    moved.Moved? && moved.st.pc == plan.pc &&
      Advanced(w, supply, params, sym, offset + |sym.events|, c, plan.sym, moved.st)
  }

  // ----- one lemma for each kind of instruction -----

  lemma {:induction false} SilentRel(ctx: Context, m: Running, w: World, supply: Supply, params: seq<Val>, sym: Sym,
      offset: nat, st: State, c: Spot)
    requires Fits(ctx, m, w) && SymRel(w, params, sym, offset + |sym.events|, st, c) && st.pc in ProtoOf(ctx).code
    requires SymStep(ctx, sym, offset, st.pc).Continue?
    requires var insn := ProtoOf(ctx).code[st.pc].insn;
        insn.Nop? || insn.PrepVarargs? || insn.Load? || insn.LoadBool? || insn.MoveReg? || insn.Jump?
    ensures StepRel(m, w, supply, params, sym, offset, st, c, SymStep(ctx, sym, offset, st.pc))
  {
    hide SymRel, Advanced, FrameRel, Write;
    var insn, next, now := ProtoOf(ctx).code[st.pc].insn, ProtoOf(ctx).code[st.pc].next, offset + |sym.events|;
    if insn.Load? {
      ConstantEval(params, c.env, insn.k);
      KeepRel(m, w, supply, params, sym, now, st, c, insn.a, Const(insn.k), next);
    } else if insn.LoadBool? {
      ConstantEval(params, c.env, Bool(insn.flag));
      KeepRel(m, w, supply, params, sym, now, st, c, insn.a, Const(Bool(insn.flag)), st.pc + 1 + insn.skip);
    } else if insn.MoveReg? {
      FrameOf(w, params, sym, now, st, c);
      ReadRel(params, c.env, sym.frame, st.frame, CodeOf(m).stack, insn.b);
      KeepRel(m, w, supply, params, sym, now, st, c, insn.a, Read(sym.frame, CodeOf(m).stack, insn.b).value, next);
    } else {
      PcMoves(w, params, sym, now, st, c, SymStep(ctx, sym, offset, st.pc).pc);
    }
    AdvancedNone(w, supply, params, sym, now, c, SymStep(ctx, sym, offset, st.pc).sym, StepAt(m, w, supply, st).st);
  }

  lemma {:induction false} FrameOf(w: World, params: seq<Val>, sym: Sym, now: nat, st: State, c: Spot)
    requires SymRel(w, params, sym, now, st, c)
    ensures FrameRel(params, c.env, sym.frame, st.frame) && now !in c.env && st.mem == c.mem
  {
  }

  lemma {:induction false} PcMoves(w: World, params: seq<Val>, sym: Sym, now: nat, st: State, c: Spot, pc: int)
    requires SymRel(w, params, sym, now, st, c)
    ensures SymRel(w, params, sym, now, st.(pc := pc), c)
  {
    hide FrameRel, SharedAt;
  }

  lemma {:induction false} EmitOnlyRel(ctx: Context, m: Running, w: World, supply: Supply, params: seq<Val>, sym: Sym,
      offset: nat, st: State, c: Spot, name: string, ev: Event, next: int)
    requires Fits(ctx, m, w) && SymRel(w, params, sym, offset + |sym.events|, st, c) && !ev.GetUpvalue?
    requires EmitOnly(ctx.closed, sym, name, ev, next).Continue?
    ensures var plan := EmitOnly(ctx.closed, sym, name, ev, next);
            plan.pc == next && Advanced(w, supply, params, sym, offset + |sym.events|, c, plan.sym,
                                        Send(w, supply, st, RequestOf(params, c.env, ev)).0.(pc := next))
  {
    hide SymRel, Advanced, StepEvent, RequestOf, Send, Emit;
    var now := offset + |sym.events|;
    QuietRel(ctx, w, supply, params, sym, now, st, c, name, ev);
    var sent := Send(w, supply, st, RequestOf(params, c.env, ev)).0;
    var after := Emit(ctx.closed, sym, name, ev).value;
    PcMoves(w, params, after, now + 1, sent, StepEvent(w, supply, params, c, now, ev), next);
    AdvancedOne(w, supply, params, sym, now, c, after, sent.(pc := next), ev);
  }

  /** What may be recorded below an open pack leaves the pack alone. */
  lemma {:induction false} NotDisturbed(params: seq<Val>, env: Env, closed: bool, sym: Sym, g: Frame<Val, seq<Val>>,
      name: string, ev: Event)
    requires FrameRel(params, env, sym.frame, g) && Emit(closed, sym, name, ev).Some?
    ensures !Disturbs(g, name)
  {
  }

  lemma {:induction false} OperateRel(ctx: Context, m: Running, w: World, supply: Supply, params: seq<Val>, sym: Sym,
      offset: nat, st: State, c: Spot)
    requires Fits(ctx, m, w) && SymRel(w, params, sym, offset + |sym.events|, st, c) && st.pc in ProtoOf(ctx).code
    requires SymStep(ctx, sym, offset, st.pc).Continue?
    requires ProtoOf(ctx).code[st.pc].insn.Operate?
    ensures StepRel(m, w, supply, params, sym, offset, st, c, SymStep(ctx, sym, offset, st.pc))
  {
    hide SymRel, Advanced, FrameRel, Send, Emit, EvalAll, Disturbs;
    var insn, next := ProtoOf(ctx).code[st.pc].insn, ProtoOf(ctx).code[st.pc].next;
    FrameOf(w, params, sym, offset + |sym.events|, st, c);
    OperandsRel(params, c.env, sym.frame, st.frame, CodeOf(m).stack, insn.operands);
    var ts := OperandTerms(sym.frame, CodeOf(m).stack, insn.operands).value;
    var ev := Operation(insn.name, [], Pack(ts, None));
    NotDisturbed(params, c.env, ctx.closed, sym, st.frame, insn.name, ev);
    assert RequestOf(params, c.env, ev)
      == Ask(Did(insn.name, [], EvalAll(params, c.env, ts))) by { NoTail(params, c.env, ts); }
    if insn.dest.Some? {
      EmitToRel(ctx, m, w, supply, params, sym, offset, st, c, insn.dest.value, insn.name, ev, next);
    } else {
      EmitOnlyRel(ctx, m, w, supply, params, sym, offset, st, c, insn.name, ev, next);
    }
  }

  lemma {:induction false} NoTail(params: seq<Val>, env: Env, ts: seq<Term>)
    ensures EvalPack(params, env, Pack(ts, None)) == EvalAll(params, env, ts)
  {
    hide EvalAll;
    assert EvalAll(params, env, ts) + [] == EvalAll(params, env, ts);
  }

  /** A pack whose first value is given separately. */
  lemma {:induction false} HeadedPack(params: seq<Val>, env: Env, t: Term, p: Pack)
    ensures EvalPack(params, env, Pack([t] + p.items, p.tail)) == [Eval(params, env, t)] + EvalPack(params, env, p)
  {
    hide Eval;
    assert EvalAll(params, env, [t] + p.items) == [Eval(params, env, t)] + EvalAll(params, env, p.items);
  }

  lemma {:induction false} StoreRel(ctx: Context, m: Running, w: World, supply: Supply, params: seq<Val>, sym: Sym,
      offset: nat, st: State, c: Spot)
    requires Fits(ctx, m, w) && SymRel(w, params, sym, offset + |sym.events|, st, c) && st.pc in ProtoOf(ctx).code
    requires SymStep(ctx, sym, offset, st.pc).Continue?
    requires var insn := ProtoOf(ctx).code[st.pc].insn; insn.PutTable? || insn.SetUpval?
    ensures StepRel(m, w, supply, params, sym, offset, st, c, SymStep(ctx, sym, offset, st.pc))
  {
    hide SymRel, Advanced, FrameRel, Send, Emit, Eval, Disturbs;
    var insn, next, stack := ProtoOf(ctx).code[st.pc].insn, ProtoOf(ctx).code[st.pc].next, CodeOf(m).stack;
    FrameOf(w, params, sym, offset + |sym.events|, st, c);
    ReadRel(params, c.env, sym.frame, st.frame, stack, insn.a);
    var v := Read(sym.frame, stack, insn.a).value;
    if insn.PutTable? {
      ReadRel(params, c.env, sym.frame, st.frame, stack, insn.table);
      OperandRel(params, c.env, sym.frame, st.frame, stack, insn.field);
      var t, k := Read(sym.frame, stack, insn.table).value, OperandTerm(sym.frame, stack, insn.field).value;
      NotDisturbed(params, c.env, ctx.closed, sym, st.frame, "SETTABLE", SetTable(t, k, v));
      EmitOnlyRel(ctx, m, w, supply, params, sym, offset, st, c, "SETTABLE", SetTable(t, k, v), next);
    } else {
      var ev := Operation("SETUPVAL", [insn.slot], Pack([v], None));
      NoTail(params, c.env, [v]);
      assert EvalAll(params, c.env, [v]) == [Eval(params, c.env, v)];
      EmitOnlyRel(ctx, m, w, supply, params, sym, offset, st, c, "SETUPVAL", ev, next);
    }
  }

  lemma {:induction false} MakeRel(ctx: Context, m: Running, w: World, supply: Supply, params: seq<Val>, sym: Sym,
      offset: nat, st: State, c: Spot)
    requires Fits(ctx, m, w) && SymRel(w, params, sym, offset + |sym.events|, st, c) && st.pc in ProtoOf(ctx).code
    requires SymStep(ctx, sym, offset, st.pc).Continue?
    requires var insn := ProtoOf(ctx).code[st.pc].insn;
        insn.MakeTable? || insn.CopyTable? || insn.NewClosure? || insn.DupClosure?
    ensures StepRel(m, w, supply, params, sym, offset, st, c, SymStep(ctx, sym, offset, st.pc))
  {
    hide SymRel, Advanced, EmitTo, RequestTo, SymClosure, MakeClosureAt;
    var insn, next := ProtoOf(ctx).code[st.pc].insn, ProtoOf(ctx).code[st.pc].next;
    match insn
    case MakeTable(a, hash, slots) => EmitToRel(ctx, m, w, supply, params, sym, offset, st, c, a, "NEWTABLE",
      NewTable(hash, slots), next);
    case CopyTable(a, keyed, fields) => EmitToRel(ctx, m, w, supply, params, sym, offset, st, c, a, "DUPTABLE",
      DupTable(keyed, fields), next);
    case NewClosure(a, child) => ClosureRel(ctx, m, w, supply, params, sym, offset, st, c, a, child, false, 0, next);
    case DupClosure(a, child, constant) => ClosureRel(ctx, m, w, supply, params, sym, offset, st, c, a, child, true,
      constant, next);
  }

  lemma {:induction false} NameCallRel(ctx: Context, m: Running, w: World, supply: Supply, params: seq<Val>, sym: Sym,
      offset: nat, st: State, c: Spot)
    requires Fits(ctx, m, w) && SymRel(w, params, sym, offset + |sym.events|, st, c) && st.pc in ProtoOf(ctx).code
    requires SymStep(ctx, sym, offset, st.pc).Continue?
    requires ProtoOf(ctx).code[st.pc].insn.NameCall?
    ensures StepRel(m, w, supply, params, sym, offset, st, c, SymStep(ctx, sym, offset, st.pc))
  {
    hide SymRel, Advanced, FrameRel, EmitTo, RequestTo, Eval, StepEvent;
    var insn, next, stack := ProtoOf(ctx).code[st.pc].insn, ProtoOf(ctx).code[st.pc].next, CodeOf(m).stack;
    var now := offset + |sym.events|;
    FrameOf(w, params, sym, now, st, c);
    ReadRel(params, c.env, sym.frame, st.frame, stack, insn.b);
    var t := Read(sym.frame, stack, insn.b).value;
    var ev := Operation("NAMECALL", [], Pack([t, Const(insn.key)], None));
    NoTail(params, c.env, [t, Const(insn.key)]);
    assert EvalAll(params, c.env, [t, Const(insn.key)])
      == [Eval(params, c.env, t), Atom(insn.key)] by { ConstantEval(params, c.env, insn.key); }
    EmitToRel(ctx, m, w, supply, params, sym, offset, st, c, insn.a, "NAMECALL", ev, next);
    var after := EmitTo(ctx.closed, sym, offset, stack, insn.a, "NAMECALL", ev, next).sym;
    var moved := RequestTo(m, w, supply, st, insn.a, RequestOf(params, c.env, ev), next).st;
    var c' := StepEvent(w, supply, params, c, now, ev);
    EvalLater(w, supply, params, c, now, ev, t);
    KeepRel(m, w, supply, params, after, now + 1, moved, c', insn.a + 1, t, next);
    AdvancedOne(w, supply, params, sym, now, c, Assign(after, stack, insn.a + 1, t, next).sym,
                Keep(m, moved, insn.a + 1, Eval(params, c'.env, t), next).st, ev);
  }

  lemma {:induction false} ConstantEval(params: seq<Val>, env: Env, k: Constant)
    ensures Eval(params, env, Const(k)) == Atom(k)
  {
  }

  /** A named term keeps its value. */
  lemma {:induction false} EvalLater(w: World, supply: Supply, params: seq<Val>, c: Spot, now: nat, ev: Event, t: Term)
    requires Named(c.env, t) && now !in c.env
    ensures var c' := StepEvent(w, supply, params, c, now, ev);
            Named(c'.env, t) && Eval(params, c'.env, t) == Eval(params, c.env, t)
  {
    hide Perform, RequestOf;
  }

  lemma {:induction false} SetListRel(ctx: Context, m: Running, w: World, supply: Supply, params: seq<Val>, sym: Sym,
      offset: nat, st: State, c: Spot)
    requires Fits(ctx, m, w) && SymRel(w, params, sym, offset + |sym.events|, st, c) && st.pc in ProtoOf(ctx).code
    requires SymStep(ctx, sym, offset, st.pc).Continue?
    requires ProtoOf(ctx).code[st.pc].insn.SetList?
    ensures StepRel(m, w, supply, params, sym, offset, st, c, SymStep(ctx, sym, offset, st.pc))
  {
    hide SymRel, Advanced, FrameRel, Emit, Send, Eval, StepEvent, EvalPack, PackAt;
    var insn, next, stack := ProtoOf(ctx).code[st.pc].insn, ProtoOf(ctx).code[st.pc].next, CodeOf(m).stack;
    var now := offset + |sym.events|;
    FrameOf(w, params, sym, now, st, c);
    ReadRel(params, c.env, sym.frame, st.frame, stack, insn.a);
    PackRel(params, c.env, sym.frame, st.frame, stack, insn.b, insn.count);
    var t, p := Read(sym.frame, stack, insn.a).value, PackAt(sym.frame, stack, insn.b, insn.count).value;
    HeadedPack(params, c.env, t, Pack(p.0, p.1));
    var ev := Operation("SETLIST", [insn.index], Pack([t] + p.0, p.1));
    QuietRel(ctx, w, supply, params, sym, now, st, c, "SETLIST", ev);
    var q := PackAt(st.frame, stack, insn.b, insn.count).value;
    assert [Eval(params, c.env, t)] + q.0 + Opened(q.1) == [Eval(params, c.env, t)] + Whole(q);
    var sent := Send(w, supply, st, RequestOf(params, c.env, ev)).0;
    var after := Emit(ctx.closed, sym, "SETLIST", ev).value;
    PcMoves(w, params, after, now + 1, sent, StepEvent(w, supply, params, c, now, ev), next);
    if insn.count == 0 {
      TopClosed(w, params, after, now + 1, sent.(pc := next), StepEvent(w, supply, params, c, now, ev));
    }
    AdvancedOne(w, supply, params, sym, now, c, SymStep(ctx, sym, offset, st.pc).sym, StepAt(m, w, supply, st).st, ev);
  }

  lemma {:induction false} TopClosed(w: World, params: seq<Val>, sym: Sym, now: nat, st: State, c: Spot)
    requires SymRel(w, params, sym, now, st, c)
    ensures SymRel(w, params, sym.(frame := sym.frame.(top := None)), now, st.(frame := st.frame.(top := None)), c)
  {
    hide SharedAt;
    var f, g := sym.frame.(top := None), st.frame.(top := None);
    forall r | r in f.regs
      ensures HoldsAt(params, c.env, f, g, r)
    {
      assert HoldsAt(params, c.env, sym.frame, st.frame, r);
    }
    var after := sym.(frame := f);
    forall slot | slot in after.shared
      ensures SharedAt(w, c, after.shared, slot)
    {
      assert SharedAt(w, c, sym.shared, slot);
    }
  }

  lemma {:induction false} CallRel(ctx: Context, m: Running, w: World, supply: Supply, params: seq<Val>, sym: Sym,
      offset: nat, st: State, c: Spot)
    requires Fits(ctx, m, w) && SymRel(w, params, sym, offset + |sym.events|, st, c) && st.pc in ProtoOf(ctx).code
    requires SymStep(ctx, sym, offset, st.pc).Continue?
    requires var insn := ProtoOf(ctx).code[st.pc].insn; insn.CallFn? || insn.GetVarargs?
    ensures StepRel(m, w, supply, params, sym, offset, st, c, SymStep(ctx, sym, offset, st.pc))
  {
    hide SymRel, Advanced, FrameRel, SymResults, Send, Eval, EvalPack, PackAt, GiveResults;
    var insn, next, stack := ProtoOf(ctx).code[st.pc].insn, ProtoOf(ctx).code[st.pc].next, CodeOf(m).stack;
    FrameOf(w, params, sym, offset + |sym.events|, st, c);
    if insn.CallFn? {
      ReadRel(params, c.env, sym.frame, st.frame, stack, insn.a);
      PackRel(params, c.env, sym.frame, st.frame, stack, insn.a + 1, insn.args);
      var t, p := Read(sym.frame, stack, insn.a).value, PackAt(sym.frame, stack, insn.a + 1, insn.args).value;
      HeadedPack(params, c.env, t, Pack(p.0, p.1));
      var q := PackAt(st.frame, stack, insn.a + 1, insn.args).value;
      assert [Eval(params, c.env, t)] + q.0 + Opened(q.1) == [Eval(params, c.env, t)] + Whole(q);
      ResultsRel(ctx, m, w, supply, params, sym, offset, st, c, insn.a, insn.count, "CALL",
        Operation("CALL", [insn.count], Pack([t] + p.0, p.1)), next);
    } else {
      NoTail(params, c.env, []);
      assert EvalAll(params, c.env, []) == [];
      ResultsRel(ctx, m, w, supply, params, sym, offset, st, c, insn.a, insn.count, "GETVARARGS",
        Operation("GETVARARGS", [insn.count], Pack([], None)), next);
    }
  }

  /** Every instruction that neither branches nor returns. */
  lemma {:induction false} ContinueRel(ctx: Context, m: Running, w: World, supply: Supply, params: seq<Val>, sym: Sym,
      offset: nat, st: State, c: Spot)
    requires Fits(ctx, m, w) && SymRel(w, params, sym, offset + |sym.events|, st, c) && st.pc in ProtoOf(ctx).code
    requires SymStep(ctx, sym, offset, st.pc).Continue?
    ensures StepRel(m, w, supply, params, sym, offset, st, c, SymStep(ctx, sym, offset, st.pc))
  {
    hide SymRel, StepRel;
    var insn := ProtoOf(ctx).code[st.pc].insn;
    if insn.Operate? { OperateRel(ctx, m, w, supply, params, sym, offset, st, c); }
    else if insn.GetUpval? { GetUpvalRel(ctx, m, w, supply, params, sym, offset, st, c, st.pc); }
    else if insn.SetUpval? || insn.PutTable? { StoreRel(ctx, m, w, supply, params, sym, offset, st, c); }
    else if insn.NameCall? { NameCallRel(ctx, m, w, supply, params, sym, offset, st, c); }
    else if insn.MakeTable? || insn.CopyTable? || insn.NewClosure? ||
      insn.DupClosure? { MakeRel(ctx, m, w, supply, params, sym, offset, st, c); }
    else if insn.SetList? { SetListRel(ctx, m, w, supply, params, sym, offset, st, c); }
    else if insn.CallFn? || insn.GetVarargs? { CallRel(ctx, m, w, supply, params, sym, offset, st, c); }
    else { SilentRel(ctx, m, w, supply, params, sym, offset, st, c); }
  }
}
