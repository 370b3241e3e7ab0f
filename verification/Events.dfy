/** What symbolic execution produces and what it means: register-free trees of ordered
    events over symbolic terms, and an environment that answers concrete requests.

    A table is invisible to the environment until a reference to it has been passed in a
    request or stored in a table; the environment can neither see, change nor name it
    before that.  Reading an upvalue changes nothing; what cells hold depends on the
    history of everything else. */
module Events {
  import opened Options

  // ----- symbolic trees -----

  datatype Constant = NilK | Bool(flag: bool) | Num(bits: int) | Str(text: string) | Vec(bits: int)

  /** A value as the symbolic executor knows it; `Value` and `Result` name events. */
  datatype Term = Const(k: Constant) | Param(i: nat) | Value(ev: nat) | Result(ev: nat, i: nat)

  /** Finitely many terms, then, for an open pack, all results of an event. */
  datatype Pack = Pack(items: seq<Term>, tail: Option<nat>)

  /** `Itself` is a closure capturing the register that receives it. */
  datatype Capture = Copied(t: Term) | Forwarded(slot: nat) | Itself

  datatype Event =
    | NewTable(hash: int, slots: int)
    | DupTable(keyed: bool, fields: seq<(Constant, Constant)>)
    | SetTable(table: Term, key: Term, value: Term)
    | GetUpvalue(slot: nat)
    | MakeClosure(shared: bool, template: Option<nat>, body: Tree, captures: seq<Capture>)
    | Operation(op: string, immediates: seq<int>, args: Pack)

  datatype Condition = Truthy(t: Term) | Compare(op: string, left: Term, right: Term)

  datatype Terminal =
    | Return(pack: Pack)
    | Branch(cond: Condition, yes: Segment, no: Segment)
    | FastCall(builtin: string, immediates: seq<int>, args: Pack, native: Segment, fallback: Segment)

  datatype Segment = Segment(events: seq<Event>, end: Terminal)

  datatype Tree = Tree(params: nat, upvalues: nat, vararg: bool, body: Segment)

  // ----- concrete values, tables, memory -----

  datatype Val = Atom(k: Constant) | Ref(loc: int) | Foreign(id: int)

  const Nil := Atom(NilK)

  datatype Template = Fresh(hash: int, slots: int) | Copy(fields: seq<(Constant, Constant)>)

  /** A table with the history of its stores: contents, insertion order and dead keys are
      all determined by it. */
  datatype Table = Table(origin: Template, stores: seq<(Constant, Val)>)

  function LastField(fields: seq<(Constant, Constant)>, key: Constant): Constant {
    if fields == [] then NilK
    else if fields[|fields| - 1].0 == key then fields[|fields| - 1].1 else LastField(fields[..|fields| - 1], key)
  }

  function LastStore(stores: seq<(Constant, Val)>, key: Constant): Option<Val> {
    if stores == [] then None
    else if stores[|stores| - 1].0 == key then Some(stores[|stores| - 1].1) else LastStore(stores[..|stores| - 1], key)
  }

  function Field(t: Table, key: Constant): Val {
    match LastStore(t.stores, key)
    case Some(v) => v
    case None => if t.origin.Copy? then Atom(LastField(t.origin.fields, key)) else Nil
  }

  /** Writing the value a key already has leaves the table as it was; every other store,
      a nil above all, is part of its history. */
  function Stored(t: Table, key: Constant, v: Val): Table {
    if v != Nil && Field(t, key) == v then t else t.(stores := t.stores + [(key, v)])
  }

  lemma {:induction false} FieldAfterStore(t: Table, key: Constant, v: Val, other: Constant)
    ensures Field(Stored(t, key, v), other) == if other == key then v else Field(t, other)
  {
    var s := t.stores + [(key, v)];
    assert s[..|s| - 1] == t.stores;
  }

  datatype Caught = CaughtVal(v: Val) | CaughtSlot(slot: nat) | CaughtItself

  /** What the environment observes. */
  datatype Act =
    | Did(op: string, immediates: seq<int>, args: seq<Val>)
    | Closed(shared: bool, template: Option<nat>, body: Tree, captures: seq<Caught>)
    | Compared(op: string, left: Val, right: Val)
    | Tried(builtin: string, immediates: seq<int>, args: seq<Val>)

  datatype Answer = Answer(value: Val, results: seq<Val>, tables: map<int, Table>, holds: bool)

  /** The environment: any answers to acts, given the history and the visible tables, and
      any contents of upvalue cells.  In a `steady` world the cells depend on the history
      alone; in any other a read is an act like the rest, and may itself change things. */
  datatype World = World(act: (seq<Act>, map<int, Table>, Act) -> Answer, cell: (seq<Act>, nat) -> Val, steady: bool)

  datatype Memory = Memory(heap: map<int, Table>, known: set<int>, history: seq<Act>)

  datatype Reply = Reply(value: Val, results: seq<Val>)

  const Silent := Reply(Nil, [])

  // ----- requests -----

  datatype Request =
    | Allocate(origin: Template)
    | Put(table: Val, key: Val, value: Val)
    | Cell(slot: nat)
    | Ask(act: Act)

  function RefsIn(vs: seq<Val>): set<int> { set v | v in vs && v.Ref? :: v.loc }

  function CaughtVals(cs: seq<Caught>): seq<Val> {
    if cs == [] then [] else (if cs[0].CaughtVal? then [cs[0].v] else []) + CaughtVals(cs[1..])
  }

  function ActVals(act: Act): seq<Val> {
    match act
    case Did(_, _, args) => args
    case Closed(_, _, _, captures) => CaughtVals(captures)
    case Compared(_, l, r) => [l, r]
    case Tried(_, _, args) => args
  }

  /** The environment cannot forge a reference it was never given. */
  function Clean(known: set<int>, v: Val): Val { if v.Ref? && v.loc !in known then Nil else v }

  function CleanAll(known: set<int>, vs: seq<Val>): seq<Val> {
    seq(|vs|, i requires 0 <= i < |vs| => Clean(known, vs[i]))
  }

  function Visible(heap: map<int, Table>, known: set<int>): map<int, Table> {
    map l | l in heap && l in known :: heap[l]
  }

  function Told(mem: Memory, act: Act): set<int> { mem.known + RefsIn(ActVals(act)) }

  function AnswerOf(w: World, mem: Memory, act: Act): Answer {
    w.act(mem.history, Visible(mem.heap, Told(mem, act)), act)
  }

  /** The environment acts: it sees and may rewrite the tables it has been told of. */
  function ActOn(w: World, mem: Memory, act: Act): (Memory, Reply) {
    var known := Told(mem, act);
    var answer := AnswerOf(w, mem, act);
    var heap := map l | l in mem.heap :: if l in known && l in answer.tables then answer.tables[l] else mem.heap[l];
    (Memory(heap, known, mem.history + [act]), Reply(Clean(known, answer.value), CleanAll(known, answer.results)))
  }

  /** A string-keyed store into a table nobody else has seen. */
  predicate IsDirect(mem: Memory, table: Val, key: Val) {
    table.Ref? && table.loc in mem.heap && table.loc !in mem.known && key.Atom? && key.k.Str?
  }

  /** One request; `loc` is the address a new table gets. */
  function Perform(w: World, loc: int, mem: Memory, request: Request): (Memory, Reply) {
    match request
    case Allocate(origin) => (mem.(heap := mem.heap[loc := Table(origin, [])]), Reply(Ref(loc), []))
    case Put(t, k, v) =>
      if IsDirect(mem, t, k)
      then (mem.(heap := mem.heap[t.loc := Stored(mem.heap[t.loc], k.k, v)], known := mem.known + RefsIn([v])), Silent)
      else (ActOn(w, mem, Did("SETTABLE", [], [t, k, v])).0, Silent)
    case Cell(slot) =>
      if w.steady then (mem, Reply(Clean(mem.known, w.cell(mem.history, slot)), []))
      else ActOn(w, mem, Did("GETUPVAL", [slot], []))
    case Ask(act) => ActOn(w, mem, act)
  }

  // ----- what a tree's events request -----

  type Env = map<nat, Reply>

  function ResultAt(vs: seq<Val>, i: nat): Val { if i < |vs| then vs[i] else Nil }

  function Eval(params: seq<Val>, env: Env, t: Term): Val {
    match t
    case Const(k) => Atom(k)
    case Param(i) => Clean({}, ResultAt(params, i))
    case Value(ev) => if ev in env then env[ev].value else Nil
    case Result(ev, i) => if ev in env then ResultAt(env[ev].results, i) else Nil
  }

  function EvalAll(params: seq<Val>, env: Env, ts: seq<Term>): seq<Val> {
    seq(|ts|, i requires 0 <= i < |ts| => Eval(params, env, ts[i]))
  }

  function Tail(env: Env, tail: Option<nat>): seq<Val> {
    if tail.Some? && tail.value in env then env[tail.value].results else []
  }

  function EvalPack(params: seq<Val>, env: Env, p: Pack): seq<Val> {
    EvalAll(params, env, p.items) + Tail(env, p.tail)
  }

  function EvalCapture(params: seq<Val>, env: Env, c: Capture): Caught {
    match c
    case Copied(t) => CaughtVal(Eval(params, env, t))
    case Forwarded(slot) => CaughtSlot(slot)
    case Itself => CaughtItself
  }

  function EvalCaptures(params: seq<Val>, env: Env, cs: seq<Capture>): seq<Caught> {
    seq(|cs|, i requires 0 <= i < |cs| => EvalCapture(params, env, cs[i]))
  }

  function RequestOf(params: seq<Val>, env: Env, ev: Event): Request {
    match ev
    case NewTable(hash, slots) => Allocate(Fresh(hash, slots))
    case DupTable(_, fields) => Allocate(Copy(fields))
    case SetTable(t, k, v) => Put(Eval(params, env, t), Eval(params, env, k), Eval(params, env, v))
    case GetUpvalue(slot) => Cell(slot)
    case MakeClosure(shared, template, body, captures) =>
      Ask(Closed(shared, template, body, EvalCaptures(params, env, captures)))
    case Operation(op, immediates, args) => Ask(Did(op, immediates, EvalPack(params, env, args)))
  }

  predicate Allocates(ev: Event) { ev.NewTable? || ev.DupTable? }
}
