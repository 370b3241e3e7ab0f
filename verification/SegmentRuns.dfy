/** Running a segment of events against an environment, and why normalising the segment
    changes nothing the environment can see: the same history, the same final tables at the
    same addresses, the same returned values. */
module SegmentRuns {
  import opened Events
  import opened PrivateTables

  datatype Config = Config(env: Env, mem: Memory)

  /** Events with their identities, in the given order; a table allocated by event `id` is
      born at `loc(id)`. */
  function RunItems(w: World, loc: nat -> int, params: seq<Val>, c: Config, items: Items): Config {
    if items == [] then c
    else
      var before := RunItems(w, loc, params, c, items[..|items| - 1]);
      ItemStep(w, loc, params, before, items[|items| - 1])
  }

  function ItemStep(w: World, loc: nat -> int, params: seq<Val>, c: Config, item: (nat, Event)): Config {
    var (mem, reply) := Perform(w, loc(item.0), c.mem, RequestOf(params, c.env, item.1));
    Config(c.env[item.0 := reply], mem)
  }

  function Numbered(events: seq<Event>, offset: nat): Items {
    seq(|events|, i requires 0 <= i < |events| => (offset + i, events[i]))
  }

  // ----- what makes a segment and its start sensible -----

  /** The events an event may mention: earlier ones that have a value. */
  predicate Mentionable(events: seq<Event>, offset: nat, bound: nat, id: nat) {
    id < offset + bound && (id >= offset ==> id - offset < |events| && !events[id - offset].SetTable?)
  }

  ghost predicate RefsEarlier(events: seq<Event>, offset: nat) {
    forall i: nat, id: nat :: i < |events| && id in EventRefs(events[i]) ==> Mentionable(events, offset, i, id)
  }

  function ReplyRefs(r: Reply): set<int> { RefsIn([r.value]) + RefsIn(r.results) }

  /** Addresses of this segment's events are distinct, and unused so far. */
  ghost predicate FreshStart(c: Config, loc: nat -> int, offset: nat, count: nat) {
    && (forall i: nat, j: nat ::
      offset <= i < offset + count && offset <= j < offset + count && loc(i) == loc(j) ==> i == j)
    && (forall i: nat :: offset <= i < offset + count ==> loc(i) !in c.mem.heap && loc(i) !in c.mem.known)
    && (forall s: nat, i: nat :: s in c.env && offset <= i < offset + count ==> loc(i) !in ReplyRefs(c.env[s]))
    && (forall s: nat :: s in c.env <==> s < offset)
  }

  /** The address of an event occurs in its own reply only, until the environment knows it. */
  ghost predicate Sealed(c: Config, loc: nat -> int, offset: nat, count: nat) {
    forall s: nat, i: nat :: s in c.env && offset <= i < offset + count && loc(i) in ReplyRefs(c.env[s]) ==>
      i == s || loc(i) in c.mem.known
  }

  // ----- requests -----

  function RequestVals(r: Request): seq<Val> {
    match r
    case Allocate(_) => []
    case Put(t, k, v) => [t, k, v]
    case Cell(_) => []
    case Ask(act) => ActVals(act)
  }

  lemma {:induction false} CaughtValsAre(cs: seq<Caught>, v: Val)
    ensures v in CaughtVals(cs) <==> CaughtVal(v) in cs
  {
    if cs != [] { CaughtValsAre(cs[1..], v); assert cs == [cs[0]] + cs[1..]; }
  }

  /** Where a reference in a term's value comes from. */
  lemma {:induction false} TermRefsCover(params: seq<Val>, env: Env, t: Term, l: int)
    requires Eval(params, env, t) == Ref(l)
    ensures exists s :: s in TermRefs(t) && s in env && l in ReplyRefs(env[s])
  {
    if t.Value? {
      assert t.ev in TermRefs(t) && l in ReplyRefs(env[t.ev]);
    } else {
      assert t.ev in TermRefs(t) && env[t.ev].results[t.i] in env[t.ev].results;
    }
  }

  lemma {:induction false} PackRefsCover(params: seq<Val>, env: Env, p: Pack, l: int)
    requires Ref(l) in EvalPack(params, env, p)
    ensures exists s :: s in PackRefs(p) && s in env && l in ReplyRefs(env[s])
  {
    if Ref(l) in EvalAll(params, env, p.items) {
      var i :| 0 <= i < |p.items| && Eval(params, env, p.items[i]) == Ref(l);
      TermRefsCover(params, env, p.items[i], l);
      var s :| s in TermRefs(p.items[i]) && s in env && l in ReplyRefs(env[s]);
      assert p.items[i] in p.items && s in TermsRefs(p.items);
    } else {
      assert Ref(l) in Tail(env, p.tail);
      assert p.tail.value in PackRefs(p) && l in ReplyRefs(env[p.tail.value]);
    }
  }

  /** Every reference in a request was in the reply of an event the request mentions. */
  lemma {:induction false} RequestRefsCover(params: seq<Val>, env: Env, ev: Event, l: int)
    requires l in RefsIn(RequestVals(RequestOf(params, env, ev)))
    ensures exists s :: s in EventRefs(ev) && s in env && l in ReplyRefs(env[s])
  {
    match ev
    case SetTable(t, k, v) =>
      var x :| x in [t, k, v] && Eval(params, env, x) == Ref(l);
      TermRefsCover(params, env, x, l);
    case MakeClosure(_, _, _, captures) =>
      var caught := EvalCaptures(params, env, captures);
      CaughtValsAre(caught, Ref(l));
      var i :| 0 <= i < |caught| && caught[i] == CaughtVal(Ref(l));
      TermRefsCover(params, env, captures[i].t, l);
      var s :| s in TermRefs(captures[i].t) && s in env && l in ReplyRefs(env[s]);
      assert captures[i] in captures && s in CaptureRefs(captures);
    case Operation(_, _, args) => PackRefsCover(params, env, args, l);
    case _ =>
  }

  lemma {:induction false} EvalSame(params: seq<Val>, env: Env, env': Env, t: Term)
    requires forall s :: s in TermRefs(t) ==> s in env && s in env' && env[s] == env'[s]
    ensures Eval(params, env, t) == Eval(params, env', t)
  {
    if t.Value? || t.Result? { assert t.ev in TermRefs(t); }
  }

  /** A request depends only on the events it mentions. */
  lemma {:induction false} RequestSame(params: seq<Val>, env: Env, env': Env, ev: Event)
    requires forall s :: s in EventRefs(ev) ==> s in env && s in env' && env[s] == env'[s]
    ensures RequestOf(params, env, ev) == RequestOf(params, env', ev)
  {
    match ev
    case SetTable(t, k, v) =>
      EvalSame(params, env, env', t);
      EvalSame(params, env, env', k);
      EvalSame(params, env, env', v);
    case MakeClosure(_, _, _, captures) =>
      forall i | 0 <= i < |captures|
        ensures EvalCapture(params, env, captures[i]) == EvalCapture(params, env', captures[i])
      {
        assert captures[i] in captures;
        if captures[i].Copied? { EvalSame(params, env, env', captures[i].t); }
      }
      assert EvalCaptures(params, env, captures) == EvalCaptures(params, env', captures);
    case Operation(_, _, args) => PackSame(params, env, env', args);
    case _ =>
  }

  lemma {:induction false} PackSame(params: seq<Val>, env: Env, env': Env, p: Pack)
    requires forall s :: s in PackRefs(p) ==> s in env && s in env' && env[s] == env'[s]
    ensures EvalPack(params, env, p) == EvalPack(params, env', p)
  {
    forall i | 0 <= i < |p.items| ensures Eval(params, env, p.items[i]) == Eval(params, env', p.items[i]) {
      assert p.items[i] in p.items;
      EvalSame(params, env, env', p.items[i]);
    }
    assert EvalAll(params, env, p.items) == EvalAll(params, env', p.items);
    if p.tail.Some? { assert p.tail.value in PackRefs(p); }
  }

  // ----- what one request can touch -----

  /** A table the environment has not been told of, not even now, is left alone. */
  lemma {:induction false} Untouched(w: World, loc: int, mem: Memory, r: Request, l: int)
    requires !r.Allocate? && l in mem.heap && l !in mem.known && l !in RefsIn(RequestVals(r))
    ensures var (mem', _) := Perform(w, loc, mem, r);
            l in mem'.heap && mem'.heap[l] == mem.heap[l] && l !in mem'.known
  {
    if r.Put? { assert r.table in RequestVals(r) && r.value in RequestVals(r); }
  }

  lemma {:induction false} KnownGrows(w: World, loc: int, mem: Memory, r: Request)
    ensures var (mem', _) := Perform(w, loc, mem, r);
            mem.known <= mem'.known <= mem.known + RefsIn(RequestVals(r))
            && mem'.heap.Keys == if r.Allocate? then mem.heap.Keys + {loc} else mem.heap.Keys
  {
    if r.Put? { assert r.value in RequestVals(r); }
  }

  /** A reply mentions only what the environment knows, or the table just born. */
  lemma {:induction false} ReplyIsClean(w: World, loc: int, mem: Memory, r: Request)
    ensures var (mem', reply) := Perform(w, loc, mem, r);
            forall l :: l in ReplyRefs(reply) ==> l in mem'.known || (r.Allocate? && l == loc)
  {
  }

  // ----- two memories that differ in tables not born yet -----

  /** `ahead` already holds the tables at `pending`; otherwise the memories are equal. */
  ghost predicate AheadBy(mem: Memory, ahead: Memory, pending: set<int>) {
    && mem.known == ahead.known && mem.history == ahead.history && mem.known !! pending
    && mem.heap.Keys !! pending && ahead.heap.Keys == mem.heap.Keys + pending
    && forall l :: l in mem.heap ==> ahead.heap[l] == mem.heap[l]
  }

  lemma {:induction false} VisibleSame(mem: Memory, ahead: Memory, pending: set<int>, known: set<int>)
    requires AheadBy(mem, ahead, pending) && known !! pending
    ensures Visible(mem.heap, known) == Visible(ahead.heap, known)
  {
    var a, b := Visible(mem.heap, known), Visible(ahead.heap, known);
    forall l ensures l in a <==> l in b { }
    forall l | l in a ensures a[l] == b[l] { }
  }

  lemma {:induction false} ActAhead(w: World, mem: Memory, ahead: Memory, pending: set<int>, act: Act)
    requires AheadBy(mem, ahead, pending) && RefsIn(ActVals(act)) !! pending
    ensures var (mem', reply) := ActOn(w, mem, act);
            var (ahead', reply') := ActOn(w, ahead, act);
            reply == reply' && AheadBy(mem', ahead', pending)
  {
    VisibleSame(mem, ahead, pending, Told(mem, act));
  }

  lemma {:induction false} PerformAhead(w: World, loc: int, mem: Memory, ahead: Memory, pending: set<int>, r: Request)
    requires AheadBy(mem, ahead, pending) && RefsIn(RequestVals(r)) !! pending && (r.Allocate? ==> loc !in pending)
    ensures var (mem', reply) := Perform(w, loc, mem, r);
            var (ahead', reply') := Perform(w, loc, ahead, r);
            reply == reply' && AheadBy(mem', ahead', pending)
  {
    match r
    case Ask(act) => ActAhead(w, mem, ahead, pending, act);
    case Cell(slot) => if !w.steady { ActAhead(w, mem, ahead, pending, Did("GETUPVAL", [slot], [])); }
    case Put(t, k, v) =>
      assert t in RequestVals(r) && v in RequestVals(r);
      if IsDirect(mem, t, k) {
        assert RefsIn([v]) <= RefsIn(RequestVals(r));
      } else {
        ActAhead(w, mem, ahead, pending, Did("SETTABLE", [], [t, k, v]));
      }
    case _ =>
  }
}
