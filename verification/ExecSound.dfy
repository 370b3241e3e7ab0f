/** Symbolic execution is sound: what the machine does from a state is what the tree says,
    whatever the environment, and it always finishes. */
module ExecSound {
  import opened Options
  import opened Events
  import opened Bytecode
  import opened SymbolicTree
  import opened TreeRuns
  import opened RegisterMachine
  import opened Lockstep

  // ----- branches, fast calls and returns -----

  /** A symbolic state at the start of a segment. */
  ghost predicate StartsAt(w: World, params: seq<Val>, frame: SymFrame, shared: map<nat, nat>, now: nat, st: State,
      c: Spot)
  {
    SymRel(w, params, Sym(frame, shared, []), now, st, c)
  }

  lemma {:induction false} Restart(w: World, params: seq<Val>, sym: Sym, now: nat, st: State, c: Spot, pc: int)
    requires SymRel(w, params, sym, now, st, c)
    ensures StartsAt(w, params, sym.frame, sym.shared, now, st.(pc := pc), c)
    ensures FrameRel(params, c.env, sym.frame, st.frame) && now !in c.env && st.mem == c.mem
  {
    hide FrameRel;
    var start := Sym(sym.frame, sym.shared, []);
    forall slot | slot in start.shared
      ensures SharedAt(w, c, start.shared, slot)
    {
      assert SharedAt(w, c, sym.shared, slot);
    }
  }

  /** Another memory, when no read is shared across the change. */
  lemma {:induction false} RestartIn(w: World, params: seq<Val>, sym: Sym, now: nat, st: State, c: Spot, pc: int,
      mem: Memory)
    requires SymRel(w, params, sym, now, st, c)
    ensures StartsAt(w, params, sym.frame, map[], now, st.(pc := pc, mem := mem), c.(mem := mem))
  {
    hide FrameRel;
  }

  ghost predicate ForkRel(m: Running, w: World, supply: Supply, params: seq<Val>, now: nat, st: State, c: Spot,
      plan: Plan)
    requires ValidRunning(m) && plan.Fork?
  {
    var (c', holds) := Judge(w, params, c, plan.cond);
    var moved := StepAt(m, w, supply, st);
    moved.Moved? && moved.st.pc == (if holds then plan.yes else plan.no)
    && StartsAt(w, params, plan.sym.frame, plan.sym.shared, now, moved.st, c')
  }

  lemma {:induction false} ForkStep(ctx: Context, m: Running, w: World, supply: Supply, params: seq<Val>, sym: Sym,
      offset: nat, st: State, c: Spot)
    requires Fits(ctx, m, w) && SymRel(w, params, sym, offset + |sym.events|, st, c) && st.pc in ProtoOf(ctx).code
    requires SymStep(ctx, sym, offset, st.pc).Fork?
    ensures SymStep(ctx, sym, offset, st.pc).sym.events == sym.events
    ensures ForkRel(m, w, supply, params, offset + |sym.events|, st, c, SymStep(ctx, sym, offset, st.pc))
  {
    hide SymRel, FrameRel, StartsAt, Eval, ActOn, AnswerOf, IsTrue;
    var insn, next, now, stack := ProtoOf(ctx).code[st.pc].insn, ProtoOf(ctx).code[st.pc].next, offset + |sym.events|,
      CodeOf(m).stack;
    if insn.JumpTruthy? {
      FrameOf(w, params, sym, now, st, c);
      ReadRel(params, c.env, sym.frame, st.frame, stack, insn.a);
      Restart(w, params, sym, now, st, c, StepAt(m, w, supply, st).st.pc);
    } else if insn.JumpCompare? {
      FrameOf(w, params, sym, now, st, c);
      NoTop(params, c.env, sym.frame, st.frame);
      ReadRel(params, c.env, sym.frame, st.frame, stack, insn.left);
      OperandRel(params, c.env, sym.frame, st.frame, stack, insn.right);
      var l, r := Read(sym.frame, stack, insn.left).value, OperandTerm(sym.frame, stack, insn.right).value;
      var mem := Decide(w, c.mem, Compared(insn.op, Eval(params, c.env, l), Eval(params, c.env, r))).0;
      RestartIn(w, params, sym, now, st, c, StepAt(m, w, supply, st).st.pc, mem);
    } else {
      NotAFork(ctx, sym, offset, st.pc);
    }
  }

  lemma {:induction false} NoTop(params: seq<Val>, env: Env, f: SymFrame, g: Frame<Val, seq<Val>>)
    requires FrameRel(params, env, f, g)
    ensures f.top.None? ==> g.top.None?
  {
  }

  lemma {:induction false} NotAFork(ctx: Context, sym: Sym, offset: nat, pc: int)
    requires ValidContext(ctx) && pc in ProtoOf(ctx).code
    ensures SymStep(ctx, sym, offset, pc).Fork? ==>
        var insn := ProtoOf(ctx).code[pc].insn; insn.JumpTruthy? || insn.JumpCompare?
    ensures SymStep(ctx, sym, offset, pc).Attempt? ==> ProtoOf(ctx).code[pc].insn.TryFast?
    ensures SymStep(ctx, sym, offset, pc).Finish? ==> ProtoOf(ctx).code[pc].insn.ReturnInsn?
  {
  }

  lemma {:induction false} FinishStep(ctx: Context, m: Running, w: World, supply: Supply, params: seq<Val>, sym: Sym,
      offset: nat, st: State, c: Spot)
    requires Fits(ctx, m, w) && SymRel(w, params, sym, offset + |sym.events|, st, c) && st.pc in ProtoOf(ctx).code
    requires SymStep(ctx, sym, offset, st.pc).Finish?
    ensures var plan := SymStep(ctx, sym, offset, st.pc);
            plan.sym == sym && StepAt(m, w, supply, st) == Halted(Returned(c.mem, EvalPack(params, c.env, plan.pack)))
  {
    NotAFork(ctx, sym, offset, st.pc);
    hide FrameRel, PackAt, EvalPack, SharedAt, SymClosure, SymFastCall, SymResults;
    var insn := ProtoOf(ctx).code[st.pc].insn;
    PackRel(params, c.env, sym.frame, st.frame, CodeOf(m).stack, insn.a, insn.count);
  }

  ghost predicate AttemptRel(m: Running, w: World, supply: Supply, params: seq<Val>, now: nat, st: State, c: Spot,
      plan: Plan)
    requires ValidRunning(m) && plan.Attempt?
  {
    var (c', holds) := TryNative(w, params, c, plan.builtin, plan.immediates, plan.args);
    var moved := StepAt(m, w, supply, st);
    && moved.Moved? && moved.st.pc == (if holds then plan.site.after else plan.next)
    && if holds then
         StartsAt(w, params, NativeFrame(plan.sym.frame, plan.site, now), map[], now + 1, moved.st,
                  StepEvent(w, supply, params, c', now, FastSuccess(plan.builtin, plan.immediates, plan.args)))
       else StartsAt(w, params, plan.sym.frame, map[], now, moved.st, c')
  }

  /** The arguments of a fast call are the same on both sides. */
  lemma {:induction false} FastArgs(ctx: Context, m: Running, w: World, params: seq<Val>, sym: Sym, now: nat, st: State,
      c: Spot, kind: FastKind, site: FastSite, args: Pack)
    requires Fits(ctx, m, w) && SymRel(w, params, sym, now, st, c)
    requires kind.Whole? ==> PackAt(sym.frame, CodeOf(m).stack, site.a + 1, site.args) == Some((args.items, args.tail))
    requires !kind.Whole? ==> FastOperands(kind).Some? && args.tail.None?
                              && OperandTerms(sym.frame, CodeOf(m).stack, FastOperands(kind).value) == Some(args.items)
    ensures kind.Whole? ==> PackAt(st.frame, CodeOf(m).stack, site.a + 1, site.args).Some?
                            && Lockstep.Whole(PackAt(st.frame, CodeOf(m).stack, site.a + 1, site.args).value)
                              == EvalPack(params, c.env, args)
    ensures !kind.Whole? ==>
        OperandVals(st.frame, CodeOf(m).stack, FastOperands(kind).value) == Some(EvalPack(params, c.env, args))
  {
    hide FrameRel, PackAt, EvalAll;
    if kind.Whole? {
      PackRel(params, c.env, sym.frame, st.frame, CodeOf(m).stack, site.a + 1, site.args);
    } else {
      OperandsRel(params, c.env, sym.frame, st.frame, CodeOf(m).stack, FastOperands(kind).value);
      NoTail(params, c.env, args.items);
    }
  }

  lemma {:induction false} NativeRel(m: Running, w: World, supply: Supply, params: seq<Val>, frame: SymFrame, now: nat,
      st: State, c: Spot, site: FastSite, ev: Event)
    requires ValidRunning(m) && StartsAt(w, params, frame, map[], now, st, c) && !ev.GetUpvalue?
    requires site.count >= 2 ==> site.a + site.count - 1 <= CodeOf(m).stack
    ensures var (sent, reply) := Send(w, supply, st, RequestOf(params, c.env, ev));
            var moved := GiveResults(m, sent, site.a, site.count, reply.results, site.after);
            moved.Moved? && moved.st.pc == site.after
            && StartsAt(w, params, NativeFrame(frame, site, now), map[], now + 1, moved.st,
              StepEvent(w, supply, params, c, now, ev))
  {
    hide FrameRel, StepEvent, RequestOf, Send, Fill, Below;
    EmitRel(w, supply, params, Sym(frame, map[], []), now, st, c, ev, map[]);
    var c' := StepEvent(w, supply, params, c, now, ev);
    assert Place(frame, CodeOf(m).stack, site.a, site.count, (i: nat) => Result(now, i), now)
      == Some(NativeFrame(frame, site, now));
    PlaceRel(params, c'.env, frame, st.frame, CodeOf(m).stack, site.a, site.count, now);
  }

  /** What a planned fast call was decoded from. */
  predicate AttemptFrom(ctx: Context, sym: Sym, pc: int, plan: Plan)
    requires ValidContext(ctx) && pc in ProtoOf(ctx).code && plan.Attempt?
  {
    var insn, stack := ProtoOf(ctx).code[pc].insn, ProtoOf(ctx).stack;
    && insn.TryFast? && plan.sym == sym && plan.next == ProtoOf(ctx).code[pc].next
    && FastCallSite(ProtoOf(ctx), pc, insn.builtin, insn.skip) == Some(plan.site)
    && plan.builtin == FastName(insn.fast) && plan.immediates == [insn.builtin, plan.site.args, plan.site.count]
    && (plan.site.count >= 2 ==> plan.site.a + plan.site.count - 1 <= stack)
    && if insn.fast.Whole? then PackAt(sym.frame, stack, plan.site.a + 1, plan.site.args)
      == Some((plan.args.items, plan.args.tail))
       else FastOperands(insn.fast).Some? && plan.args.tail.None?
            && OperandTerms(sym.frame, stack, FastOperands(insn.fast).value) == Some(plan.args.items)
  }

  lemma {:induction false} AttemptDecoded(ctx: Context, sym: Sym, offset: nat, pc: int)
    requires ValidContext(ctx) && pc in ProtoOf(ctx).code && SymStep(ctx, sym, offset, pc).Attempt?
    ensures AttemptFrom(ctx, sym, pc, SymStep(ctx, sym, offset, pc))
  {
    NotAFork(ctx, sym, offset, pc);
    hide PackAt, OperandTerms, FastOperands;
  }

  /** The machine's side of a fast call with the given arguments. */
  lemma {:induction false} MachineAttempt(m: Running, w: World, supply: Supply, st: State, site: FastSite,
      args: seq<Val>)
    requires ValidRunning(m) && st.pc in CodeOf(m).code && CodeOf(m).code[st.pc].insn.TryFast?
    requires var insn := CodeOf(m).code[st.pc].insn;
             FastCallSite(CodeOf(m), st.pc, insn.builtin, insn.skip) == Some(site)
    requires var insn := CodeOf(m).code[st.pc].insn;
             if insn.fast.Whole? then
               && PackAt(st.frame, CodeOf(m).stack, site.a + 1, site.args).Some?
               && Lockstep.Whole(PackAt(st.frame, CodeOf(m).stack, site.a + 1, site.args).value) == args
             else
               && FastOperands(insn.fast).Some?
               && OperandVals(st.frame, CodeOf(m).stack, FastOperands(insn.fast).value) == Some(args)
    ensures var kind, imms := CodeOf(m).code[st.pc].insn.fast,
        [CodeOf(m).code[st.pc].insn.builtin, site.args as int, site.count as int];
            var (mem, holds) := Decide(w, st.mem, Tried(FastName(kind), imms, args));
            var (sent, reply) :=
              Send(w, supply, st.(mem := mem), Ask(Did("FASTCALL_SUCCESS " + FastName(kind), imms, args)));
            StepAt(m, w, supply, st)
              == if holds then GiveResults(m, sent, site.a, site.count, reply.results, site.after)
                                        else Moved(st.(mem := mem, pc := CodeOf(m).code[st.pc].next))
  {
    hide PackAt, OperandVals, FastOperands, Send, GiveResults, ActOn, AnswerOf;
  }

  lemma {:induction false} AttemptStep(ctx: Context, m: Running, w: World, supply: Supply, params: seq<Val>, sym: Sym,
      offset: nat, st: State, c: Spot)
    requires Fits(ctx, m, w) && SymRel(w, params, sym, offset + |sym.events|, st, c) && st.pc in ProtoOf(ctx).code
    requires SymStep(ctx, sym, offset, st.pc).Attempt?
    ensures SymStep(ctx, sym, offset, st.pc).sym == sym
    ensures AttemptRel(m, w, supply, params, offset + |sym.events|, st, c, SymStep(ctx, sym, offset, st.pc))
  {
    hide SymRel, StartsAt, FrameRel, PackAt, EvalPack, ActOn, AnswerOf, OperandTerms, OperandVals, NativeFrame, Send,
      GiveResults, SymStep,
         StepAt, StepEvent, FastOperands;
    AttemptDecoded(ctx, sym, offset, st.pc);
    var plan, now := SymStep(ctx, sym, offset, st.pc), offset + |sym.events|;
    var insn := ProtoOf(ctx).code[st.pc].insn;
    Restart(w, params, sym, now, st, c, 0);
    FastArgs(ctx, m, w, params, sym, now, st, c, insn.fast, plan.site, plan.args);
    MachineAttempt(m, w, supply, st, plan.site, EvalPack(params, c.env, plan.args));
    var mem := TryNative(w, params, c, plan.builtin, plan.immediates, plan.args).0.mem;
    RestartIn(w, params, sym, now, st, c, plan.next, mem);
    RestartIn(w, params, sym, now, st, c, st.pc, mem);
    assert st.(pc := st.pc, mem := mem) == st.(mem := mem);
    NativeRel(m, w, supply, params, sym.frame, now, st.(mem := mem), c.(mem := mem), plan.site,
      FastSuccess(plan.builtin, plan.immediates, plan.args));
  }

  // ----- whole runs -----

  lemma {:induction false} OneFewer(code: Code, seen: set<int>, pc: int)
    requires pc in code && pc !in seen
    ensures |code.Keys - seen| == |code.Keys - (seen + {pc})| + 1 && code.Keys - (seen + {pc}) < code.Keys - seen
  {
    assert code.Keys - seen == (code.Keys - (seen + {pc})) + {pc};
  }

  /** The machine has enough steps left for the instructions not yet on the path. */
  ghost predicate Enough(ctx: Context, seen: set<int>, n: nat)
    requires ValidContext(ctx)
  {
    n >= |ProtoOf(ctx).code.Keys - seen|
  }

  lemma {:induction false} EnoughNext(ctx: Context, seen: set<int>, pc: int, n: nat)
    requires ValidContext(ctx) && pc in ProtoOf(ctx).code && pc !in seen && Enough(ctx, seen, n)
    ensures n > 0 && Enough(ctx, seen + {pc}, n - 1)
    ensures ProtoOf(ctx).code.Keys - (seen + {pc}) < ProtoOf(ctx).code.Keys - seen
  {
    OneFewer(ProtoOf(ctx).code, seen, pc);
  }

  lemma {:induction false} RunStep(m: Running, w: World, supply: Supply, st: State, n: nat)
    requires ValidRunning(m) && n > 0
    ensures RunFor(m, w, supply, st, n) ==
      match StepAt(m, w, supply, st) case Halted(o) => Some(o) case Moved(after) => RunFor(m, w, supply, after, n - 1)
  {
  }

  /** Where the events of a state have led. */
  function Spotted(w: World, supply: Supply, params: seq<Val>, c0: Spot, sym: Sym, offset: nat): Spot {
    RunEvents(w, supply, params, c0, sym.events, offset)
  }

  lemma {:induction false} SpottedStart(w: World, supply: Supply, params: seq<Val>, c: Spot, frame: SymFrame,
      shared: map<nat, nat>, now: nat, st: State)
    requires StartsAt(w, params, frame, shared, now, st, c)
    ensures var start := Sym(frame, shared, []);
            SymRel(w, params, start, now + |start.events|, st, Spotted(w, supply, params, c, start, now))
  {
    hide SymRel;
  }

  lemma {:induction false} AdvancedSpot(w: World, supply: Supply, params: seq<Val>, c0: Spot, sym: Sym, offset: nat,
      after: Sym, st: State)
    requires Advanced(w, supply, params, sym, offset + |sym.events|, Spotted(w, supply, params, c0, sym, offset), after,
        st)
    ensures SymRel(w, params, after, offset + |after.events|, st, Spotted(w, supply, params, c0, after, offset))
  {
    hide SymRel, StepEvent;
    if after.events != sym.events {
      assert after.events == sym.events + [after.events[|sym.events|]];
      RunMore(w, supply, params, c0, sym.events, after.events[|sym.events|], offset);
    }
  }

  /** Soundness without normalisation: step for step. */
  lemma {:induction false} RawSound(ctx: Context, m: Running, w: World, supply: Supply, params: seq<Val>, c0: Spot,
      offset: nat, pc: int, sym: Sym, seen: set<int>, st: State, n: nat)
    requires Fits(ctx, m, w) && Exec(ctx, false, pc, sym, offset, seen).Some? && st.pc == pc && Enough(ctx, seen, n)
    requires SymRel(w, params, sym, offset + |sym.events|, st, Spotted(w, supply, params, c0, sym, offset))
    ensures RunFor(m, w, supply, st, n)
        == Some(RunSegment(w, supply, params, c0, Exec(ctx, false, pc, sym, offset, seen).value, offset))
    decreases ProtoOf(ctx).code.Keys - seen
  {
    hide SymRel, StepAt, SymStep, Advanced, RunEvents, StartsAt, Judge, TryNative, StepEvent, RunFor, Enough,
      NativeFrame, ForkRel, AttemptRel;
    var plan, c, now := SymStep(ctx, sym, offset, pc), Spotted(w, supply, params, c0, sym, offset),
      offset + |sym.events|;
    EnoughNext(ctx, seen, pc, n);
    RunStep(m, w, supply, st, n);
    if plan.Continue? {
      ContinueRel(ctx, m, w, supply, params, sym, offset, st, c);
      AdvancedSpot(w, supply, params, c0, sym, offset, plan.sym, StepAt(m, w, supply, st).st);
      RawSound(ctx, m, w, supply, params, c0, offset, plan.pc, plan.sym, seen + {pc}, StepAt(m, w, supply, st).st,
        n - 1);
    } else if plan.Fork? {
      RawFork(ctx, m, w, supply, params, c0, offset, pc, sym, seen, st, n);
    } else if plan.Attempt? {
      RawAttempt(ctx, m, w, supply, params, c0, offset, pc, sym, seen, st, n);
    } else {
      FinishStep(ctx, m, w, supply, params, sym, offset, st, c);
    }
  }

  lemma {:induction false} RawFork(ctx: Context, m: Running, w: World, supply: Supply, params: seq<Val>, c0: Spot,
      offset: nat, pc: int, sym: Sym, seen: set<int>, st: State, n: nat)
    requires Fits(ctx, m, w) && Exec(ctx, false, pc, sym, offset, seen).Some? && st.pc == pc && Enough(ctx, seen, n)
    requires SymRel(w, params, sym, offset + |sym.events|, st, Spotted(w, supply, params, c0, sym, offset))
    requires pc !in seen && pc in ProtoOf(ctx).code && SymStep(ctx, sym, offset, pc).Fork?
    ensures RunFor(m, w, supply, st, n)
        == Some(RunSegment(w, supply, params, c0, Exec(ctx, false, pc, sym, offset, seen).value, offset))
    decreases ProtoOf(ctx).code.Keys - seen, 0
  {
    hide SymRel, StepAt, SymStep, RunEvents, StartsAt, Judge, RunFor, Enough;
    var plan, c, now := SymStep(ctx, sym, offset, pc), Spotted(w, supply, params, c0, sym, offset),
      offset + |sym.events|;
    EnoughNext(ctx, seen, pc, n);
    RunStep(m, w, supply, st, n);
    ForkStep(ctx, m, w, supply, params, sym, offset, st, c);
    var (next, holds) := Judge(w, params, c, plan.cond);
    var moved, start := StepAt(m, w, supply, st).st, Sym(plan.sym.frame, plan.sym.shared, []);
    SpottedStart(w, supply, params, next, start.frame, start.shared, now, moved);
    var yes, no := Exec(ctx, false, plan.yes, start, now, seen + {pc}),
      Exec(ctx, false, plan.no, start, now, seen + {pc});
    ForkMeaning(ctx, w, supply, params, c0, offset, pc, sym, seen, plan, yes, no,
      Exec(ctx, false, pc, sym, offset, seen));
    RawSound(ctx, m, w, supply, params, next, now, moved.pc, start, seen + {pc}, moved, n - 1);
  }

  lemma {:induction false} ForkMeaning(ctx: Context, w: World, supply: Supply, params: seq<Val>, c0: Spot, offset: nat,
      pc: int, sym: Sym, seen: set<int>, plan: Plan, yes: Option<Segment>, no: Option<Segment>, whole: Option<Segment>)
    requires plan.Fork? && plan.sym.events == sym.events && ValidContext(ctx) && pc !in seen && pc in ProtoOf(ctx).code
    requires var start, now := Sym(plan.sym.frame, plan.sym.shared, []), offset + |sym.events|;
             && yes == Exec(ctx, false, plan.yes, start, now, seen + {pc}) &&
               no == Exec(ctx, false, plan.no, start, now, seen + {pc})
             && whole == Exec(ctx, false, pc, sym, offset, seen) && whole.Some? && plan == SymStep(ctx, sym, offset, pc)
    ensures yes.Some? && no.Some?
    ensures var (next, holds) := Judge(w, params, Spotted(w, supply, params, c0, sym, offset), plan.cond);
            RunSegment(w, supply, params, c0, whole.value, offset)
              == RunSegment(w, supply, params, next, if holds then yes.value else no.value, offset + |sym.events|)
  {
    hide SymStep, RunEvents, Judge;
  }

  lemma {:induction false} RawAttempt(ctx: Context, m: Running, w: World, supply: Supply, params: seq<Val>, c0: Spot,
      offset: nat, pc: int, sym: Sym, seen: set<int>, st: State, n: nat)
    requires Fits(ctx, m, w) && Exec(ctx, false, pc, sym, offset, seen).Some? && st.pc == pc && Enough(ctx, seen, n)
    requires SymRel(w, params, sym, offset + |sym.events|, st, Spotted(w, supply, params, c0, sym, offset))
    requires pc !in seen && pc in ProtoOf(ctx).code && SymStep(ctx, sym, offset, pc).Attempt?
    ensures RunFor(m, w, supply, st, n)
        == Some(RunSegment(w, supply, params, c0, Exec(ctx, false, pc, sym, offset, seen).value, offset))
    decreases ProtoOf(ctx).code.Keys - seen, 0
  {
    hide SymRel, StepAt, SymStep, RunEvents, RunSegment, StartsAt, TryNative, RunFor, Enough, NativeFrame, StepEvent,
      FastSuccess, Exec;
    var plan, c, now := SymStep(ctx, sym, offset, pc), Spotted(w, supply, params, c0, sym, offset),
      offset + |sym.events|;
    EnoughNext(ctx, seen, pc, n);
    RunStep(m, w, supply, st, n);
    AttemptStep(ctx, m, w, supply, params, sym, offset, st, c);
    var (next, holds) := TryNative(w, params, c, plan.builtin, plan.immediates, plan.args);
    var moved, ev := StepAt(m, w, supply, st).st, FastSuccess(plan.builtin, plan.immediates, plan.args);
    var start, again := Sym(NativeFrame(sym.frame, plan.site, now), map[], []), Sym(sym.frame, map[], []);
    var native, fallback := Exec(ctx, false, plan.site.after, start, now + 1, seen + {pc}),
      Exec(ctx, false, plan.next, again, now, seen + {pc});
    AttemptSegment(ctx, false, offset, pc, sym, seen, plan, Exec(ctx, false, pc, sym, offset, seen), native, fallback);
    FastCallRun(w, supply, params, c0, sym.events, offset, plan.builtin, plan.immediates, plan.args, ev, native.value,
      fallback.value);
    if holds {
      var after := StepEvent(w, supply, params, next, now, ev);
      SpottedStart(w, supply, params, after, start.frame, map[], now + 1, moved);
      RawSound(ctx, m, w, supply, params, after, now + 1, moved.pc, start, seen + {pc}, moved, n - 1);
    } else {
      SpottedStart(w, supply, params, next, sym.frame, map[], now, moved);
      RawSound(ctx, m, w, supply, params, next, now, moved.pc, again, seen + {pc}, moved, n - 1);
    }
  }

  lemma {:induction false} AttemptUnfolds(ctx: Context, normal: bool, offset: nat, pc: int, sym: Sym, seen: set<int>,
      plan: Plan)
    requires ValidContext(ctx) && pc !in seen && pc in ProtoOf(ctx).code && plan.Attempt?
    requires plan == SymStep(ctx, sym, offset, pc)
    ensures var now := offset + |plan.sym.events|;
            Exec(ctx, normal, pc, sym, offset, seen)
              == Attempted(plan.builtin, plan.immediates, plan.args, plan.sym.events,
                   Exec(ctx, normal, plan.site.after, Sym(NativeFrame(plan.sym.frame, plan.site, now), map[], []),
                     now + 1, seen + {pc}),
                   Exec(ctx, normal, plan.next, Sym(plan.sym.frame, map[], []), now, seen + {pc}))
  {
    hide SymStep, NativeFrame, Attempted, Forked, Leaf;
  }

  lemma {:induction false} AttemptedIs(builtin: string, immediates: seq<int>, args: Pack, events: seq<Event>,
      native: Option<Segment>, fallback: Option<Segment>)
    ensures Attempted(builtin, immediates, args, events, native, fallback).Some? <==> native.Some? && fallback.Some?
    ensures native.Some? && fallback.Some? ==>
      Attempted(builtin, immediates, args, events, native, fallback).value
        == Segment(events, FastCall(builtin, immediates, args,
        Segment([FastSuccess(builtin, immediates, args)] + native.value.events, native.value.end), fallback.value))
  {
    hide FastSuccess;
  }

  /** The segment a fast call makes. */
  lemma {:induction false} AttemptSegment(ctx: Context, normal: bool, offset: nat, pc: int, sym: Sym, seen: set<int>,
      plan: Plan, whole: Option<Segment>, native: Option<Segment>, fallback: Option<Segment>)
    requires plan.Attempt? && plan.sym == sym
    requires ValidContext(ctx) && pc !in seen && pc in ProtoOf(ctx).code
    requires var now := offset + |sym.events|;
             && native == Exec(ctx, normal, plan.site.after, Sym(NativeFrame(sym.frame, plan.site, now), map[], []),
               now + 1, seen + {pc})
             && fallback == Exec(ctx, normal, plan.next, Sym(sym.frame, map[], []), now, seen + {pc})
             && whole == Exec(ctx, normal, pc, sym, offset, seen) && plan == SymStep(ctx, sym, offset, pc)
    ensures whole.Some? <==> native.Some? && fallback.Some?
    ensures whole.Some? ==> whole.value == Segment(sym.events, FastCall(plan.builtin, plan.immediates, plan.args,
              Segment([FastSuccess(plan.builtin, plan.immediates, plan.args)] + native.value.events, native.value.end),
                fallback.value))
  {
    hide SymStep, NativeFrame, FastSuccess, Exec, Attempted;
    AttemptUnfolds(ctx, normal, offset, pc, sym, seen, plan);
    AttemptedIs(plan.builtin, plan.immediates, plan.args, sym.events, native, fallback);
  }

  lemma {:induction false} FastCallRun(w: World, supply: Supply, params: seq<Val>, c0: Spot, events: seq<Event>,
      offset: nat, builtin: string, immediates: seq<int>, args: Pack, ev: Event, native: Segment, fallback: Segment)
    ensures var c, now := RunEvents(w, supply, params, c0, events, offset), offset + |events|;
            var (next, holds) := TryNative(w, params, c, builtin, immediates, args);
            RunSegment(w, supply, params, c0,
              Segment(events, FastCall(builtin, immediates, args, Segment([ev] + native.events, native.end), fallback)),
                offset)
            == if holds then RunSegment(w, supply, params, StepEvent(w, supply, params, next, now, ev), native, now + 1)
               else RunSegment(w, supply, params, next, fallback, now)
  {
    hide RunEvents, TryNative, StepEvent;
    var c, now := RunEvents(w, supply, params, c0, events, offset), offset + |events|;
    var next := TryNative(w, params, c, builtin, immediates, args).0;
    RunOne(w, supply, params, next, ev, now);
    RunPrefixed(w, supply, params, next, [ev], native, now);
  }
}
