/** The concrete register machine that bytecode runs on.  Registers the machine has never
    written, or that a call has given up, are undefined; reading one is stuck. */
module RegisterMachine {
  import opened Options
  import opened Worklist
  import opened Events
  import opened Bytecode
  import opened TreeRuns

  /** A pending open pack holds its values. */
  datatype State = State(pc: int, frame: Frame<Val, seq<Val>>, mem: Memory, born: nat)

  /** The running function, what its closures are, and how shared templates are named. */
  datatype Running = Running(chunk: Chunk, p: nat, names: map<(nat, nat), nat>, meaning: nat -> Tree)

  predicate ValidRunning(m: Running) { m.p < |m.chunk.protos| }

  function CodeOf(m: Running): Proto
    requires ValidRunning(m)
  {
    m.chunk.protos[m.p]
  }

  datatype Next = Moved(st: State) | Halted(outcome: Outcome)

  function OperandVal(f: Frame<Val, seq<Val>>, stack: nat, x: Operand): Option<Val> {
    match x case Lit(k) => Some(Atom(k)) case Reg(r) => Read(f, stack, r)
  }

  function OperandVals(f: Frame<Val, seq<Val>>, stack: nat, xs: seq<Operand>): Option<seq<Val>> {
    if xs == [] then Some([])
    else
      match OperandVals(f, stack, xs[..|xs| - 1])
      case None => None
      case Some(before) =>
        match OperandVal(f, stack, xs[|xs| - 1]) case None => None case Some(v) => Some(before + [v])
  }

  function Opened(tail: Option<seq<Val>>): seq<Val> { if tail.Some? then tail.value else [] }

  function Keep(m: Running, st: State, a: nat, v: Val, next: int): Next
    requires ValidRunning(m)
  {
    match Write(st.frame, CodeOf(m).stack, a, v)
    case None => Halted(Stuck)
    case Some(f) => Moved(st.(frame := f, pc := next))
  }

  /** Make a request of the environment. */
  function Send(w: World, supply: Supply, st: State, request: Request): (State, Reply) {
    var (mem, reply) := Perform(w, supply(st.born), st.mem, request);
    (st.(mem := mem, born := if request.Allocate? then st.born + 1 else st.born), reply)
  }

  function RequestTo(m: Running, w: World, supply: Supply, st: State, a: nat, request: Request, next: int): Next
    requires ValidRunning(m)
  {
    var (after, reply) := Send(w, supply, st, request);
    Keep(m, after, a, reply.value, next)
  }

  function GiveResults(m: Running, st: State, a: nat, count: nat, results: seq<Val>, next: int): Next
    requires ValidRunning(m)
  {
    match Place(st.frame, CodeOf(m).stack, a, count, (i: nat) => ResultAt(results, i), results)
    case None => Halted(Stuck)
    case Some(f) => Moved(st.(frame := f, pc := next))
  }

  function CaughtAt(m: Running, st: State, a: nat, capture: (nat, nat)): Option<Caught>
    requires ValidRunning(m)
  {
    var (kind, source) := capture;
    if kind == 0 then
      if source == a then Some(CaughtItself)
      else match Read(st.frame, CodeOf(m).stack, source) case None => None case Some(v) => Some(CaughtVal(v))
    else if kind == 2 && source < CodeOf(m).upvalues then Some(CaughtSlot(source))
    else None
  }

  function CaughtAll(m: Running, st: State, a: nat, captures: seq<(nat, nat)>): Option<seq<Caught>>
    requires ValidRunning(m)
  {
    if captures == [] then Some([])
    else
      match CaughtAll(m, st, a, captures[..|captures| - 1])
      case None => None
      case Some(before) =>
        match CaughtAt(m, st, a, captures[|captures| - 1]) case None => None case Some(c) => Some(before + [c])
  }

  function MakeClosureAt(m: Running, w: World, supply: Supply, st: State, a: nat, child: nat, shared: bool, key: nat,
      next: int): Next
    requires ValidRunning(m)
  {
    if child >= |m.chunk.protos| then Halted(Stuck)
    else
      var n := m.chunk.protos[child].upvalues;
      match CapturesAt(CodeOf(m).code, next, n)
      case None => Halted(Stuck)
      case Some(found) =>
        match CaughtAll(m, st, a, found)
        case None => Halted(Stuck)
        case Some(caught) =>
          var template := if shared && (m.p, key) in m.names then Some(m.names[(m.p, key)]) else None;
          RequestTo(m, w, supply, st, a, Ask(Closed(shared, template, m.meaning(child), caught)), next + n)
  }

  /** The builtin runs when the environment says it can; otherwise the call itself will. */
  function FastCallStep(m: Running, w: World, supply: Supply, st: State, kind: FastKind, builtin: int, skip: int): Next
    requires ValidRunning(m) && st.pc in CodeOf(m).code
  {
    var proto := CodeOf(m);
    match FastCallSite(proto, st.pc, builtin, skip)
    case None => Halted(Stuck)
    case Some(site) =>
      var args :=
        if kind.Whole? then
          match PackAt(st.frame, proto.stack, site.a + 1, site.args)
            case None => None case Some(p) => Some(p.0 + Opened(p.1))
        else match FastOperands(kind) case None => None case Some(xs) => OperandVals(st.frame, proto.stack, xs);
      if args.None? then Halted(Stuck)
      else
        var (mem, holds) := Decide(w, st.mem, Tried(FastName(kind), [builtin, site.args, site.count], args.value));
        if !holds then Moved(st.(mem := mem, pc := proto.code[st.pc].next))
        else
          var done := Ask(Did("FASTCALL_SUCCESS " + FastName(kind), [builtin, site.args, site.count], args.value));
          var (after, reply) := Send(w, supply, st.(mem := mem), done);
          GiveResults(m, after, site.a, site.count, reply.results, site.after)
  }

  /** A callback's frame starts at the top of the stack and would overwrite an open pack that is still
      pending there; these run none, or put the top back. */
  predicate Disturbs(f: Frame<Val, seq<Val>>, name: string) {
    f.top.Some? &&
    name !in {"NOT", "AND", "OR", "NAMECALL", "CALL", "GETVARARGS", "SETLIST", "GETUPVAL", "SETUPVAL", "NEWTABLE",
              "DUPTABLE", "NEWCLOSURE", "DUPCLOSURE"}
  }

  function StepAt(m: Running, w: World, supply: Supply, st: State): Next
    requires ValidRunning(m)
  {
    var proto, pc, f := CodeOf(m), st.pc, st.frame;
    if pc !in proto.code then Halted(Stuck)
    else
      var stack, next := proto.stack, proto.code[pc].next;
      match proto.code[pc].insn
      case Nop => Moved(st.(pc := next))
      case PrepVarargs(_) => Moved(st.(pc := next))
      case Load(a, k) => Keep(m, st, a, Atom(k), next)
      case LoadBool(a, flag, skip) => Keep(m, st, a, Atom(Bool(flag)), pc + 1 + skip)
      case MoveReg(a, b) => (match Read(f, stack, b) case None => Halted(Stuck) case Some(v) => Keep(m, st, a, v, next))
      case Operate(name, dest, operands) =>
        (match OperandVals(f, stack, operands)
         case None => Halted(Stuck)
         case Some(vs) =>
           var request := Ask(Did(name, [], vs));
           if Disturbs(f, name) then Halted(Stuck) else
           if dest.Some? then RequestTo(m, w, supply, st, dest.value, request, next)
           else Moved(Send(w, supply, st, request).0.(pc := next)))
      case GetUpval(a, slot) => RequestTo(m, w, supply, st, a, Cell(slot), next)
      case SetUpval(a, slot) =>
        (match Read(f, stack, a)
         case None => Halted(Stuck)
         case Some(v) => Moved(Send(w, supply, st, Ask(Did("SETUPVAL", [slot], [v]))).0.(pc := next)))
      case PutTable(a, table, key) =>
        (match (Read(f, stack, table), OperandVal(f, stack, key), Read(f, stack, a))
         case (Some(t), Some(k), Some(v)) =>
           if Disturbs(f, "SETTABLE") then Halted(Stuck) else Moved(Send(w, supply, st, Put(t, k, v)).0.(pc := next))
         case _ => Halted(Stuck))
      case NameCall(a, b, key) =>
        (match Read(f, stack, b)
         case None => Halted(Stuck)
         case Some(receiver) =>
           match RequestTo(m, w, supply, st, a, Ask(Did("NAMECALL", [], [receiver, Atom(key)])), next)
           case Moved(after) => Keep(m, after, a + 1, receiver, next)
           case Halted(o) => Halted(o))
      case MakeTable(a, hash, slots) => RequestTo(m, w, supply, st, a, Allocate(Fresh(hash, slots)), next)
      case CopyTable(a, _, fields) => RequestTo(m, w, supply, st, a, Allocate(Copy(fields)), next)
      case SetList(a, b, count, index) =>
        (match (Read(f, stack, a), PackAt(f, stack, b, count))
         case (Some(t), Some(p)) =>
           var after := Send(w, supply, st, Ask(Did("SETLIST", [index], [t] + p.0 + Opened(p.1)))).0.(pc := next);
           Moved(if count == 0 then after.(frame := after.frame.(top := None)) else after)
         case _ => Halted(Stuck))
      case TryFast(kind, builtin, skip) => FastCallStep(m, w, supply, st, kind, builtin, skip)
      case CallFn(a, args, count) =>
        (match (Read(f, stack, a), PackAt(f, stack, a + 1, args))
         case (Some(fn), Some(p)) =>
           var (after, reply) := Send(w, supply, st, Ask(Did("CALL", [count], [fn] + p.0 + Opened(p.1))));
           GiveResults(m, after, a, count, reply.results, next)
         case _ => Halted(Stuck))
      case GetVarargs(a, count) =>
        var (after, reply) := Send(w, supply, st, Ask(Did("GETVARARGS", [count], [])));
        GiveResults(m, after, a, count, reply.results, next)
      case NewClosure(a, child) => MakeClosureAt(m, w, supply, st, a, child, false, 0, next)
      case DupClosure(a, child, constant) => MakeClosureAt(m, w, supply, st, a, child, true, constant, next)
      case CaptureInsn(_, _) => Halted(Stuck)
      case Jump(skip) => Moved(st.(pc := pc + 1 + skip))
      case JumpTruthy(a, skip, invert) =>
        (match Read(f, stack, a)
         case None => Halted(Stuck)
         case Some(v) => Moved(st.(pc := if IsTrue(v) != invert then pc + 1 + skip else next)))
      case JumpCompare(op, left, right, skip, invert) =>
        (match (Read(f, stack, left), OperandVal(f, stack, right))
         case (Some(l), Some(r)) =>
           if Disturbs(f, op) then Halted(Stuck) else
           var (mem, holds) := Decide(w, st.mem, Compared(op, l, r));
           Moved(st.(mem := mem, pc := if holds != invert then pc + 1 + skip else next))
         case _ => Halted(Stuck))
      case ReturnInsn(a, count) =>
        (match PackAt(f, stack, a, count)
         case None => Halted(Stuck)
         case Some(p) => Halted(Returned(st.mem, p.0 + Opened(p.1))))
      case Unsupported => Halted(Stuck)
  }

  /** At most `n` steps. */
  function RunFor(m: Running, w: World, supply: Supply, st: State, n: nat): Option<Outcome>
    requires ValidRunning(m)
    decreases n
  {
    if n == 0 then None
    else match StepAt(m, w, supply, st)
      case Halted(o) => Some(o) case Moved(after) => RunFor(m, w, supply, after, n - 1)
  }

  function Entry(proto: Proto, params: seq<Val>): State {
    State(0, Frame(map i: nat | i in UpTo(proto.params) :: Clean({}, ResultAt(params, i)), None), Memory(map[], {}, []),
      0)
  }
}
