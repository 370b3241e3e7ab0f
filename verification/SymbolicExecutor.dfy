/** The executor itself: a loop over instructions that updates the registers and the event
    list, one recursive call for each arm, each fast-call outcome and each closure body, and
    template numbers handed out on first use. */
module SymbolicExecutor {
  import opened Options
  import opened Worklist
  import opened Events
  import opened PrivateTables
  import opened Bytecode
  import opened SymbolicTree

  ghost predicate Includes(names: Names, templates: Names) {
    forall k :: k in templates ==> k in names && names[k] == templates[k]
  }

  /** Template numbers are handed out from zero, each to one template. */
  ghost predicate Numbered(templates: Names) {
    && (forall k :: k in templates ==> templates[k] < |templates|)
    && (forall k, l :: k in templates && l in templates && templates[k] == templates[l] ==> k == l)
  }

  lemma {:induction false} OneMoreTemplate(templates: Names, key: (nat, nat))
    requires Numbered(templates) && key !in templates
    ensures var more := templates[key := |templates|]; Numbered(more) && Includes(more, templates)
  {
    var more := templates[key := |templates|];
    assert more.Keys == templates.Keys + {key} && |more| == |more.Keys| && |templates| == |templates.Keys|;
  }

  lemma {:induction false} IncludesChain(a: Names, b: Names, c: Names)
    requires Includes(b, a) && Includes(c, b)
    ensures Includes(c, a)
  {
  }

  /** The segment agrees with the specification under every numbering that includes this one. */
  ghost predicate Agrees(chunk: Chunk, p: nat, depth: nat, templates: Names, pc: int, sym: Sym, offset: nat,
      seen: set<int>, result: Option<Segment>)
    requires ValidChunk(chunk) && p < |chunk.protos| && depth <= 32
  {
    forall names: Names ::
      Includes(names, templates) ==> Exec(ContextAt(chunk, names, p, depth), true, pc, sym, offset, seen) == result
  }

  /** Executing from one state is executing from the other. */
  ghost predicate Leads(chunk: Chunk, p: nat, depth: nat, templates: Names, pc: int, sym: Sym, offset: nat,
      seen: set<int>, pc': int, sym': Sym, seen': set<int>)
    requires ValidChunk(chunk) && p < |chunk.protos| && depth <= 32
  {
    forall names: Names :: Includes(names, templates) ==>
      Exec(ContextAt(chunk, names, p, depth), true, pc, sym, offset, seen)
        == Exec(ContextAt(chunk, names, p, depth), true, pc', sym', offset, seen')
  }

  ghost predicate TreeAgrees(chunk: Chunk, p: nat, depth: nat, templates: Names, result: Option<Tree>)
    requires ValidChunk(chunk) && p < |chunk.protos|
  {
    forall names: Names :: Includes(names, templates) ==> TreeOf(chunk, names, p, depth) == result
  }

  lemma {:induction false} LeadsOn(chunk: Chunk, p: nat, depth: nat, templates: Names, more: Names, pc: int, sym: Sym,
      offset: nat, seen: set<int>, pc': int, sym': Sym, seen': set<int>, pc'': int, sym'': Sym, seen'': set<int>)
    requires ValidChunk(chunk) && p < |chunk.protos| && depth <= 32 && Includes(more, templates)
    requires Leads(chunk, p, depth, templates, pc, sym, offset, seen, pc', sym', seen')
    requires Leads(chunk, p, depth, more, pc', sym', offset, seen', pc'', sym'', seen'')
    ensures Leads(chunk, p, depth, more, pc, sym, offset, seen, pc'', sym'', seen'')
  {
    hide Exec, Includes;
    forall names: Names | Includes(names, more)
      ensures Exec(ContextAt(chunk, names, p, depth), true, pc, sym, offset, seen)
           == Exec(ContextAt(chunk, names, p, depth), true, pc'', sym'', offset, seen'')
    {
      IncludesChain(templates, more, names);
    }
  }

  lemma {:induction false} LeadsAgree(chunk: Chunk, p: nat, depth: nat, templates: Names, more: Names, pc: int,
      sym: Sym, offset: nat, seen: set<int>, pc': int, sym': Sym, seen': set<int>, result: Option<Segment>)
    requires ValidChunk(chunk) && p < |chunk.protos| && depth <= 32 && Includes(more, templates)
    requires Leads(chunk, p, depth, templates, pc, sym, offset, seen, pc', sym', seen')
    requires Agrees(chunk, p, depth, more, pc', sym', offset, seen', result)
    ensures Agrees(chunk, p, depth, more, pc, sym, offset, seen, result)
  {
    hide Exec, Includes;
    forall names: Names | Includes(names, more)
      ensures Exec(ContextAt(chunk, names, p, depth), true, pc, sym, offset, seen) == result
    {
      IncludesChain(templates, more, names);
    }
  }

  lemma {:induction false} LongerAgrees(chunk: Chunk, p: nat, depth: nat, templates: Names, more: Names, pc: int,
      sym: Sym, offset: nat, seen: set<int>, result: Option<Segment>)
    requires ValidChunk(chunk) && p < |chunk.protos| && depth <= 32 && Includes(more, templates)
    requires Agrees(chunk, p, depth, templates, pc, sym, offset, seen, result)
    ensures Agrees(chunk, p, depth, more, pc, sym, offset, seen, result)
  {
    hide Exec, Includes;
    forall names: Names | Includes(names, more)
      ensures Exec(ContextAt(chunk, names, p, depth), true, pc, sym, offset, seen) == result
    {
      IncludesChain(templates, more, names);
    }
  }

  lemma {:induction false} LeafIs(closed: bool, events: seq<Event>, pack: Pack, offset: nat)
    ensures Leaf(closed, true, events, pack, offset) ==
      if closed && AnyTable(events) then Segment(NormalEvents(events, offset), Return(NormalPack(events, pack, offset)))
        else Segment(events, Return(pack))
  {
  }

  lemma {:induction false} Same(templates: Names)
    ensures Includes(templates, templates)
  {
  }

  lemma {:induction false} Standing(chunk: Chunk, p: nat, depth: nat, templates: Names, pc: int, sym: Sym, offset: nat,
      seen: set<int>)
    requires ValidChunk(chunk) && p < |chunk.protos| && depth <= 32
    ensures Leads(chunk, p, depth, templates, pc, sym, offset, seen, pc, sym, seen) && Includes(templates, templates)
  {
    hide Exec;
  }

  lemma {:induction false} NoPath(chunk: Chunk, p: nat, depth: nat, templates: Names, pc: int, sym: Sym, offset: nat,
      seen: set<int>)
    requires ValidChunk(chunk) && p < |chunk.protos| && depth <= 32 && (pc in seen || pc !in chunk.protos[p].code)
    ensures Agrees(chunk, p, depth, templates, pc, sym, offset, seen, None)
  {
  }

  // ----- what one step of the loop means -----

  predicate IsClosure(insn: Insn) { insn.NewClosure? || insn.DupClosure? }

  /** An ordinary instruction's plan, the same under every numbering. */
  lemma {:induction false} PlainIs(chunk: Chunk, names: Names, p: nat, depth: nat, closed: bool, sym: Sym, offset: nat,
      pc: int)
    requires ValidChunk(chunk) && p < |chunk.protos| && depth <= 32 && closed == ClosedCaptures(chunk)
    requires pc in chunk.protos[p].code && !IsClosure(chunk.protos[p].code[pc].insn)
    ensures SymStep(ContextAt(chunk, names, p, depth), sym, offset, pc)
        == PlainStep(chunk.protos[p], closed, sym, offset, pc)
  {
    hide PlainStep;
  }

  lemma {:induction false} PlainEnds(chunk: Chunk, p: nat, depth: nat, templates: Names, closed: bool, sym: Sym,
      offset: nat, pc: int, seen: set<int>)
    requires ValidChunk(chunk) && p < |chunk.protos| && depth <= 32 && closed == ClosedCaptures(chunk)
    requires pc in chunk.protos[p].code && pc !in seen && !IsClosure(chunk.protos[p].code[pc].insn)
    ensures var plan := PlainStep(chunk.protos[p], closed, sym, offset, pc);
            (plan.Refuse? ==> Agrees(chunk, p, depth, templates, pc, sym, offset, seen, None))
            && (plan.Continue? ==>
              Leads(chunk, p, depth, templates, pc, sym, offset, seen, plan.pc, plan.sym, seen + {pc}))
            && (plan.Finish? ==>
              Agrees(chunk, p, depth, templates, pc, sym, offset, seen,
                Some(Leaf(closed, true, plan.sym.events, plan.pack, offset))))
  {
    hide PlainStep, SymStep, Leaf, Forked, Attempted, NativeFrame;
    forall names: Names
      ensures SymStep(ContextAt(chunk, names, p, depth), sym, offset, pc)
          == PlainStep(chunk.protos[p], closed, sym, offset, pc)
    {
      PlainIs(chunk, names, p, depth, closed, sym, offset, pc);
    }
  }

  lemma {:induction false} ForkEnds(chunk: Chunk, p: nat, depth: nat, templates: Names, closed: bool, sym: Sym,
      offset: nat, pc: int, seen: set<int>, plan: Plan, yes: Option<Segment>, no: Option<Segment>)
    requires ValidChunk(chunk) && p < |chunk.protos| && depth <= 32 && closed == ClosedCaptures(chunk) && plan.Fork?
    requires pc in chunk.protos[p].code && pc !in seen && !IsClosure(chunk.protos[p].code[pc].insn)
    requires plan == PlainStep(chunk.protos[p], closed, sym, offset, pc)
    requires var start, now := Sym(plan.sym.frame, plan.sym.shared, []), offset + |plan.sym.events|;
             && Agrees(chunk, p, depth, templates, plan.yes, start, now, seen + {pc}, yes)
             && (yes.Some? ==> Agrees(chunk, p, depth, templates, plan.no, start, now, seen + {pc}, no))
    ensures Agrees(chunk, p, depth, templates, pc, sym, offset, seen,
                   if yes.None? then None else Forked(closed, true, plan.cond, plan.sym.events, yes, no))
  {
    hide PlainStep, SymStep, Joined, Includes;
    forall names: Names | Includes(names, templates)
      ensures Exec(ContextAt(chunk, names, p, depth), true, pc, sym, offset, seen)
           == if yes.None? then None else Forked(closed, true, plan.cond, plan.sym.events, yes, no)
    {
      PlainIs(chunk, names, p, depth, closed, sym, offset, pc);
    }
  }

  lemma {:induction false} AttemptEnds(chunk: Chunk, p: nat, depth: nat, templates: Names, closed: bool, sym: Sym,
      offset: nat, pc: int, seen: set<int>, plan: Plan, native: Option<Segment>, fallback: Option<Segment>)
    requires ValidChunk(chunk) && p < |chunk.protos| && depth <= 32 && closed == ClosedCaptures(chunk) && plan.Attempt?
    requires pc in chunk.protos[p].code && pc !in seen && !IsClosure(chunk.protos[p].code[pc].insn)
    requires plan == PlainStep(chunk.protos[p], closed, sym, offset, pc)
    requires var now := offset + |plan.sym.events|;
             && Agrees(chunk, p, depth, templates, plan.site.after,
               Sym(NativeFrame(plan.sym.frame, plan.site, now), map[], []), now + 1, seen + {pc}, native)
             && (native.Some? ==>
               Agrees(chunk, p, depth, templates, plan.next, Sym(plan.sym.frame, map[], []), now, seen + {pc},
                 fallback))
    ensures Agrees(chunk, p, depth, templates, pc, sym, offset, seen,
                   if native.None? then None
                     else Attempted(plan.builtin, plan.immediates, plan.args, plan.sym.events, native, fallback))
  {
    hide PlainStep, SymStep, NativeFrame, FastSuccess, Includes;
    forall names: Names | Includes(names, templates)
      ensures Exec(ContextAt(chunk, names, p, depth), true, pc, sym, offset, seen)
           == if native.None? then None
             else Attempted(plan.builtin, plan.immediates, plan.args, plan.sym.events, native, fallback)
    {
      PlainIs(chunk, names, p, depth, closed, sym, offset, pc);
    }
  }

  // ----- closures -----

  /** A closure's plan once its captures and its child's tree are known. */
  function ClosurePlan(chunk: Chunk, p: nat, closed: bool, template: Option<nat>, body: Tree, captures: seq<Capture>,
      sym: Sym, offset: nat, pc: int): Plan
    requires p < |chunk.protos| && pc in chunk.protos[p].code && IsClosure(chunk.protos[p].code[pc].insn)
    requires chunk.protos[p].code[pc].insn.child < |chunk.protos|
  {
    var insn, next := chunk.protos[p].code[pc].insn, chunk.protos[p].code[pc].next;
    var shared := insn.DupClosure?;
    EmitTo(closed, sym, offset, chunk.protos[p].stack, insn.a, if shared then "DUPCLOSURE" else "NEWCLOSURE",
           MakeClosure(shared, template, body, captures), next + chunk.protos[insn.child].upvalues)
  }

  /** What the loop finds out about a closure instruction before it looks at the child. */
  function FoundCaptures(chunk: Chunk, p: nat, closed: bool, sym: Sym, pc: int): (captures: Option<seq<Capture>>)
    requires p < |chunk.protos| && pc in chunk.protos[p].code && IsClosure(chunk.protos[p].code[pc].insn)
    ensures captures.Some? ==> chunk.protos[p].code[pc].insn.child < |chunk.protos|
  {
    var proto := chunk.protos[p];
    var insn, next := proto.code[pc].insn, proto.code[pc].next;
    if insn.child >= |chunk.protos| ||
      (insn.NewClosure? && Write(sym.frame, proto.stack, insn.a, Value(0)).None?) then None
    else
      match CapturesAt(proto.code, next, chunk.protos[insn.child].upvalues)
      case None => None
      case Some(found) => SymCaptures(closed, proto, sym, insn.a, insn.DupClosure?, found)
  }

  function TemplateKey(p: nat, insn: Insn): (nat, nat)
    requires insn.DupClosure?
  {
    (p, insn.constant)
  }

  lemma {:induction false} ClosureIs(chunk: Chunk, names: Names, p: nat, depth: nat, closed: bool, sym: Sym,
      offset: nat, pc: int)
    requires ValidChunk(chunk) && p < |chunk.protos| && depth <= 32 && closed == ClosedCaptures(chunk)
    requires pc in chunk.protos[p].code && IsClosure(chunk.protos[p].code[pc].insn)
    ensures var insn, captures := chunk.protos[p].code[pc].insn, FoundCaptures(chunk, p, closed, sym, pc);
            var body := BodiesAt(chunk, names, depth + 1)(insn.child);
            SymStep(ContextAt(chunk, names, p, depth), sym, offset, pc)
              == if captures.None? || body.None? || (insn.DupClosure? && TemplateKey(p, insn) !in names) then Refuse
                 else ClosurePlan(chunk, p, closed, if insn.DupClosure? then Some(names[TemplateKey(p, insn)])
                   else None, body.value, captures.value, sym, offset, pc)
  {
    hide CapturesAt, SymCaptures, Write, EmitTo, BodiesAt;
  }

  lemma {:induction false} ClosureEnds(chunk: Chunk, p: nat, depth: nat, templates: Names, closed: bool, sym: Sym,
      offset: nat, pc: int, seen: set<int>, body: Option<Tree>)
    requires ValidChunk(chunk) && p < |chunk.protos| && depth <= 32 && closed == ClosedCaptures(chunk)
    requires pc in chunk.protos[p].code && pc !in seen && IsClosure(chunk.protos[p].code[pc].insn)
    requires var insn := chunk.protos[p].code[pc].insn;
             FoundCaptures(chunk, p, closed, sym, pc).Some? ==>
               TreeAgrees(chunk, insn.child, depth + 1, templates, body)
               && (body.Some? && insn.DupClosure? ==> TemplateKey(p, insn) in templates)
    ensures var insn, captures := chunk.protos[p].code[pc].insn, FoundCaptures(chunk, p, closed, sym, pc);
            if captures.None? || body.None? then Agrees(chunk, p, depth, templates, pc, sym, offset, seen, None)
            else
              var plan := ClosurePlan(chunk, p, closed,
                if insn.DupClosure? then Some(templates[TemplateKey(p, insn)])
                else None, body.value, captures.value, sym, offset, pc);
              (plan.Refuse? ==> Agrees(chunk, p, depth, templates, pc, sym, offset, seen, None))
              && (plan.Continue? ==>
                Leads(chunk, p, depth, templates, pc, sym, offset, seen, plan.pc, plan.sym, seen + {pc}))
              && (plan.Refuse? || plan.Continue?)
  {
    hide FoundCaptures, SymStep, TreeOf, Leaf, Forked, Attempted, NativeFrame, Emit, Write;
    forall names: Names | Includes(names, templates) ensures
      var insn, captures := chunk.protos[p].code[pc].insn, FoundCaptures(chunk, p, closed, sym, pc);
      SymStep(ContextAt(chunk, names, p, depth), sym, offset, pc)
        == if captures.None? || body.None? then Refuse
           else ClosurePlan(chunk, p, closed, if insn.DupClosure? then Some(templates[TemplateKey(p, insn)])
             else None, body.value, captures.value, sym, offset, pc)
    {
      ClosureIs(chunk, names, p, depth, closed, sym, offset, pc);
      if FoundCaptures(chunk, p, closed, sym, pc).Some? {
        ChildTree(chunk, names, chunk.protos[p].code[pc].insn.child, depth + 1);
      }
    }
  }

  lemma {:induction false} ChildTree(chunk: Chunk, names: Names, child: nat, depth: nat)
    requires ValidChunk(chunk) && child < |chunk.protos|
    ensures BodiesAt(chunk, names, depth)(child) == TreeOf(chunk, names, child, depth)
  {
  }

  // ----- the executor -----

  class Executor {
    const chunk: Chunk
    var templates: Names
    var domain: Option<bool>

    ghost predicate Valid()
      reads this
    {
      ValidChunk(chunk) && Numbered(templates) && (domain.Some? ==> domain.value == ClosedCaptures(chunk))
    }

    constructor (chunk: Chunk)
      requires ValidChunk(chunk)
      ensures Valid() && this.chunk == chunk && templates == map[]
    {
      this.chunk := chunk;
      templates := map[];
      domain := None;
    }

    /** Whether no upvalue can change behind the events' back; looked up once. */
    method ClosedDomain() returns (closed: bool)
      requires Valid()
      modifies `domain
      ensures Valid() && closed == ClosedCaptures(chunk)
    {
      if domain.Some? { return domain.value; }
      closed := chunk.protos[chunk.main].upvalues == 0;
      for p := 0 to |chunk.protos|
        invariant closed <==> (chunk.protos[chunk.main].upvalues == 0 &&
          forall q: nat, pc: int ::
            q < p && pc in chunk.protos[q].code ==> CapturesNoRegister(chunk.protos[q].code[pc].insn))
      {
        var code := chunk.protos[p].code;
        if exists pc :: pc in code && !CapturesNoRegister(code[pc].insn) { closed := false; }
      }
      domain := Some(closed);
    }

    /** A closure instruction: its captures, then its child's tree, then its template number. */
    method CloseOver(p: nat, depth: nat, closed: bool, sym: Sym, offset: nat, pc: int, ghost seen: set<int>)
      returns (plan: Plan)
      requires Valid() && p < |chunk.protos| && depth <= 32 && closed == ClosedCaptures(chunk)
      requires pc in chunk.protos[p].code && pc !in seen && IsClosure(chunk.protos[p].code[pc].insn)
      modifies this
      ensures Valid() && Includes(templates, old(templates)) && (plan.Refuse? || plan.Continue?)
      ensures plan.Refuse? ==> Agrees(chunk, p, depth, templates, pc, sym, offset, seen, None)
      ensures plan.Continue? ==>
          Leads(chunk, p, depth, templates, pc, sym, offset, seen, plan.pc, plan.sym, seen + {pc})
      decreases 33 - depth, 0
    {
      hide Agrees, Leads, ClosurePlan, FoundCaptures, ClosedCaptures;
      var insn := chunk.protos[p].code[pc].insn;
      var captures := FoundCaptures(chunk, p, closed, sym, pc);
      var body: Option<Tree> := None;
      if captures.Some? {
        body := SymbolicTree(insn.child, depth + 1);
        if body.Some? && insn.DupClosure? && TemplateKey(p, insn) !in templates {
          ghost var fewer := templates;
          OneMoreTemplate(templates, TemplateKey(p, insn));
          templates := templates[TemplateKey(p, insn) := |templates|];
          IncludesChain(old(templates), fewer, templates);
          LongerTree(chunk, insn.child, depth + 1, fewer, templates, body);
        }
      }
      ClosureEnds(chunk, p, depth, templates, closed, sym, offset, pc, seen, body);
      if captures.None? || body.None? { return Refuse; }
      var template := if insn.DupClosure? then Some(templates[TemplateKey(p, insn)]) else None;
      plan := ClosurePlan(chunk, p, closed, template, body.value, captures.value, sym, offset, pc);
    }

    /** Both arms of a branch. */
    method Arms(p: nat, depth: nat, closed: bool, sym: Sym, offset: nat, pc: int, seen: set<int>, plan: Plan)
      returns (result: Option<Segment>)
      requires Valid() && p < |chunk.protos| && depth <= 32 && closed == ClosedCaptures(chunk) && plan.Fork?
      requires pc in chunk.protos[p].code && pc !in seen && !IsClosure(chunk.protos[p].code[pc].insn)
      requires plan == PlainStep(chunk.protos[p], closed, sym, offset, pc)
      modifies this
      ensures Valid() && Includes(templates, old(templates))
      ensures Agrees(chunk, p, depth, templates, pc, sym, offset, seen, result)
      decreases 33 - depth, 1, chunk.protos[p].code.Keys - seen, 0
    {
      hide Includes, Agrees, ClosedCaptures, PlainStep, NativeFrame, Attempted, Forked, Numbered;
      assert pc in chunk.protos[p].code.Keys - seen;
      var after, now := plan.sym, offset + |plan.sym.events|;
      var first := Execute(p, depth, plan.yes, after.frame, after.shared, now, seen + {pc});
      ghost var middle := templates;
      var second: Option<Segment> := None;
      if first.Some? {
        second := Execute(p, depth, plan.no, after.frame, after.shared, now, seen + {pc});
        LongerAgrees(chunk, p, depth, middle, templates, plan.yes, Sym(after.frame, after.shared, []), now, seen + {pc},
          first);
      }
      result := if first.None? then None else Forked(closed, true, plan.cond, after.events, first, second);
      IncludesChain(old(templates), middle, templates);
      ForkEnds(chunk, p, depth, templates, closed, sym, offset, pc, seen, plan, first, second);
    }

    /** Both outcomes of a fast call: the builtin, and the call it stands for. */
    method Outcomes(p: nat, depth: nat, closed: bool, sym: Sym, offset: nat, pc: int, seen: set<int>, plan: Plan)
      returns (result: Option<Segment>)
      requires Valid() && p < |chunk.protos| && depth <= 32 && closed == ClosedCaptures(chunk) && plan.Attempt?
      requires pc in chunk.protos[p].code && pc !in seen && !IsClosure(chunk.protos[p].code[pc].insn)
      requires plan == PlainStep(chunk.protos[p], closed, sym, offset, pc)
      modifies this
      ensures Valid() && Includes(templates, old(templates))
      ensures Agrees(chunk, p, depth, templates, pc, sym, offset, seen, result)
      decreases 33 - depth, 1, chunk.protos[p].code.Keys - seen, 0
    {
      hide Includes, Agrees, ClosedCaptures, PlainStep, NativeFrame, Attempted, Forked, Numbered;
      assert pc in chunk.protos[p].code.Keys - seen;
      var after, now := plan.sym, offset + |plan.sym.events|;
      var registers := NativeFrame(after.frame, plan.site, now);
      var native := Execute(p, depth, plan.site.after, registers, map[], now + 1, seen + {pc});
      ghost var middle := templates;
      var fallback: Option<Segment> := None;
      if native.Some? {
        fallback := Execute(p, depth, plan.next, after.frame, map[], now, seen + {pc});
        LongerAgrees(chunk, p, depth, middle, templates, plan.site.after, Sym(registers, map[], []), now + 1,
          seen + {pc}, native);
      }
      result := if native.None? then None
        else Attempted(plan.builtin, plan.immediates, plan.args, after.events, native, fallback);
      IncludesChain(old(templates), middle, templates);
      AttemptEnds(chunk, p, depth, templates, closed, sym, offset, pc, seen, plan, native, fallback);
    }

    /** The loop of one path. */
    method Execute(p: nat, depth: nat, entry: int, frame: SymFrame, shared: map<nat, nat>, offset: nat, path: set<int>)
      returns (result: Option<Segment>)
      requires Valid() && p < |chunk.protos| && depth <= 32
      modifies this
      ensures Valid() && Includes(templates, old(templates))
      ensures Agrees(chunk, p, depth, templates, entry, Sym(frame, shared, []), offset, path, result)
      decreases 33 - depth, 1, chunk.protos[p].code.Keys - path, 1
    {
      hide Includes, Agrees, Leads, ClosedCaptures, PlainStep, NormalEvents, NormalPack, Numbered, Leaf, AnyTable;
      var proto := chunk.protos[p];
      var closed := ClosedDomain();
      var pc, seen, sym := entry, path, Sym(frame, shared, []);
      ghost var start := sym;
      Standing(chunk, p, depth, templates, entry, start, offset, path);
      while true
        invariant Valid() && Includes(templates, old(templates)) && path <= seen
        invariant Leads(chunk, p, depth, templates, entry, start, offset, path, pc, sym, seen)
        decreases proto.code.Keys - seen
      {
        ghost var before := templates;
        if pc in seen || pc !in proto.code {
          NoPath(chunk, p, depth, templates, pc, sym, offset, seen);
          Same(templates);
          LeadsAgree(chunk, p, depth, templates, templates, entry, start, offset, path, pc, sym, seen, None);
          return None;
        }
        assert pc in proto.code.Keys - seen && proto.code.Keys - (seen + {pc}) < proto.code.Keys - seen;
        var plan: Plan;
        if IsClosure(proto.code[pc].insn) {
          plan := CloseOver(p, depth, closed, sym, offset, pc, seen);
        } else {
          plan := PlainStep(proto, closed, sym, offset, pc);
          Same(templates);
          PlainEnds(chunk, p, depth, templates, closed, sym, offset, pc, seen);
        }
        match plan {
          case Refuse => result := None;
          case Continue(next, after) =>
            LeadsOn(chunk, p, depth, before, templates, entry, start, offset, path, pc, sym, seen, next, after,
              seen + {pc});
            IncludesChain(old(templates), before, templates);
            pc, sym, seen := next, after, seen + {pc};
            continue;
          case Fork(_, _, _, _) => result := Arms(p, depth, closed, sym, offset, pc, seen, plan);
          case Attempt(_, _, _, _, _, _) => result := Outcomes(p, depth, closed, sym, offset, pc, seen, plan);
          case Finish(pack, after) =>
            result := Some(Segment(after.events, Return(pack)));
            if closed && AnyTable(after.events) {
              result := NormalizePrivateTables(after.events, Return(pack), offset);
            }
            LeafIs(closed, after.events, pack, offset);
        }
        IncludesChain(old(templates), before, templates);
        LeadsAgree(chunk, p, depth, before, templates, entry, start, offset, path, pc, sym, seen, result);
        return;
      }
    }

    /** The tree of a prototype, or nothing where the model or its limits do not reach. */
    method SymbolicTree(p: nat, depth: nat) returns (tree: Option<Tree>)
      requires Valid() && p < |chunk.protos|
      modifies this
      ensures Valid() && Includes(templates, old(templates))
      ensures TreeAgrees(chunk, p, depth, templates, tree)
      decreases 33 - depth, 2
    {
      var proto := chunk.protos[p];
      if chunk.protos[chunk.main].upvalues != 0 || depth > 32 || !EntryPrepared(proto) { return None; }
      var registers: map<nat, Term> := map i: nat | i in UpTo(proto.params) :: Param(i);
      var body := Execute(p, depth, 0, Frame(registers, None), map[], 0, {});
      assert StartSym(proto) == Sym(Frame(registers, None), map[], []);
      if body.None? { return None; }
      tree := Some(Tree(proto.params, proto.upvalues, proto.vararg, body.value));
    }
  }

  lemma {:induction false} LongerTree(chunk: Chunk, p: nat, depth: nat, templates: Names, more: Names,
      result: Option<Tree>)
    requires ValidChunk(chunk) && p < |chunk.protos| && Includes(more, templates)
    requires TreeAgrees(chunk, p, depth, templates, result)
    ensures TreeAgrees(chunk, p, depth, more, result)
  {
    hide TreeOf, Includes;
    forall names: Names | Includes(names, more)
      ensures TreeOf(chunk, names, p, depth) == result
    {
      IncludesChain(templates, more, names);
    }
  }

  // ----- comparing two chunks -----

  datatype Status = Proved | Different | Unknown

  /** What there is to say about two chunks whose templates are numbered so. */
  ghost function Verdict(original: Chunk, names: Names, rebuilt: Chunk, names': Names): Status
    requires ValidChunk(original) && ValidChunk(rebuilt)
  {
    var a, b := TreeOf(original, names, original.main, 0), TreeOf(rebuilt, names', rebuilt.main, 0);
    if a.None? || b.None? then Unknown else if a == b then Proved else Different
  }

  /** Both main functions are executed, each with its own template numbers. */
  method CompareAcyclic(original: Chunk, rebuilt: Chunk) returns (status: Status, names: Names, names': Names)
    requires ValidChunk(original) && ValidChunk(rebuilt)
    ensures Numbered(names) && Numbered(names') && status == Verdict(original, names, rebuilt, names')
  {
    hide TreeOf;
    var first := new Executor(original);
    var one := first.SymbolicTree(original.main, 0);
    var second := new Executor(rebuilt);
    var other := second.SymbolicTree(rebuilt.main, 0);
    names, names' := first.templates, second.templates;
    assert Includes(names, names) && Includes(names', names');
    status := if one.None? || other.None? then Unknown else if one == other then Proved else Different;
  }
}
