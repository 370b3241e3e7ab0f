/** What a tree means: its events are requests to the environment in order, its conditions
    choose an arm, and its returned pack is the result.  The `n`th table allocated on a path
    is born at the address `supply(n)`. */
module TreeRuns {
  import opened Events

  /** Replies to the events so far, memory, and how many tables have been allocated. */
  datatype Spot = Spot(env: Env, mem: Memory, born: nat)

  datatype Outcome = Returned(mem: Memory, values: seq<Val>) | Stuck

  type Supply = nat -> int

  function StepEvent(w: World, supply: Supply, params: seq<Val>, c: Spot, id: nat, ev: Event): Spot {
    var (mem, reply) := Perform(w, supply(c.born), c.mem, RequestOf(params, c.env, ev));
    Spot(c.env[id := reply], mem, if Allocates(ev) then c.born + 1 else c.born)
  }

  function RunEvents(w: World, supply: Supply, params: seq<Val>, c: Spot, events: seq<Event>, offset: nat): Spot {
    if events == [] then c
    else
      var n := |events| - 1;
      StepEvent(w, supply, params, RunEvents(w, supply, params, c, events[..n], offset), offset + n, events[n])
  }

  predicate IsTrue(v: Val) { v != Nil && v != Atom(Bool(false)) }

  /** An environment's decision, and the memory it leaves. */
  function Decide(w: World, mem: Memory, act: Act): (Memory, bool) {
    (ActOn(w, mem, act).0, AnswerOf(w, mem, act).holds)
  }

  function Judge(w: World, params: seq<Val>, c: Spot, cond: Condition): (Spot, bool) {
    match cond
    case Truthy(t) => (c, IsTrue(Eval(params, c.env, t)))
    case Compare(op, l, r) =>
      var (mem, holds) := Decide(w, c.mem, Compared(op, Eval(params, c.env, l), Eval(params, c.env, r)));
      (c.(mem := mem), holds)
  }

  function TryNative(w: World, params: seq<Val>, c: Spot, builtin: string, immediates: seq<int>,
      args: Pack): (Spot, bool)
  {
    var (mem, holds) := Decide(w, c.mem, Tried(builtin, immediates, EvalPack(params, c.env, args)));
    (c.(mem := mem), holds)
  }

  function RunSegment(w: World, supply: Supply, params: seq<Val>, c: Spot, seg: Segment, offset: nat): Outcome
    decreases seg
  {
    RunEnd(w, supply, params, RunEvents(w, supply, params, c, seg.events, offset), seg.end, offset + |seg.events|)
  }

  function RunEnd(w: World, supply: Supply, params: seq<Val>, c: Spot, end: Terminal, now: nat): Outcome
    decreases end
  {
    match end
    case Return(pack) => Returned(c.mem, EvalPack(params, c.env, pack))
    case Branch(cond, yes, no) =>
      var (next, holds) := Judge(w, params, c, cond);
      if holds then RunSegment(w, supply, params, next, yes, now) else RunSegment(w, supply, params, next, no, now)
    case FastCall(builtin, immediates, args, native, fallback) =>
      var (next, holds) := TryNative(w, params, c, builtin, immediates, args);
      if holds then RunSegment(w, supply, params, next, native, now)
        else RunSegment(w, supply, params, next, fallback, now)
  }

  const Beginning := Spot(map[], Memory(map[], {}, []), 0)

  function RunTree(w: World, supply: Supply, params: seq<Val>, tree: Tree): Outcome {
    RunSegment(w, supply, params, Beginning, tree.body, 0)
  }

  // ----- runs of concatenated events -----

  lemma {:induction false} RunAppend(w: World, supply: Supply, params: seq<Val>, c: Spot, xs: seq<Event>,
      ys: seq<Event>, offset: nat)
    ensures RunEvents(w, supply, params, c, xs + ys, offset)
         == RunEvents(w, supply, params, RunEvents(w, supply, params, c, xs, offset), ys, offset + |xs|)
  {
    hide StepEvent;
    if ys == [] {
      assert xs + ys == xs;
    } else {
      var n := |ys| - 1;
      RunAppend(w, supply, params, c, xs, ys[..n], offset);
      assert (xs + ys)[..|xs| + n] == xs + ys[..n];
    }
  }

  lemma {:induction false} RunOne(w: World, supply: Supply, params: seq<Val>, c: Spot, ev: Event, offset: nat)
    ensures RunEvents(w, supply, params, c, [ev], offset) == StepEvent(w, supply, params, c, offset, ev)
  {
    assert RunEvents(w, supply, params, c, [ev][..0], offset) == c;
  }

  lemma {:induction false} RunMore(w: World, supply: Supply, params: seq<Val>, c: Spot, events: seq<Event>, ev: Event,
      offset: nat)
    ensures RunEvents(w, supply, params, c, events + [ev], offset)
         == StepEvent(w, supply, params, RunEvents(w, supply, params, c, events, offset), offset + |events|, ev)
  {
    hide StepEvent;
    assert (events + [ev])[..|events|] == events;
  }

  /** A segment that begins with other events. */
  lemma {:induction false} RunPrefixed(w: World, supply: Supply, params: seq<Val>, c: Spot, events: seq<Event>,
      seg: Segment, offset: nat)
    ensures RunSegment(w, supply, params, c, Segment(events + seg.events, seg.end), offset)
         == RunSegment(w, supply, params, RunEvents(w, supply, params, c, events, offset), seg, offset + |events|)
  {
    hide RunEvents, RunEnd;
    RunAppend(w, supply, params, c, events, seg.events, offset);
  }

  // ----- supplies -----

  ghost predicate Agree(s: Supply, s': Supply, born: nat) { forall n: nat :: n < born ==> s(n) == s'(n) }

  lemma {:induction false} RunAgrees(w: World, s: Supply, s': Supply, params: seq<Val>, c: Spot, events: seq<Event>,
      offset: nat)
    requires Agree(s, s', RunEvents(w, s, params, c, events, offset).born)
    ensures RunEvents(w, s, params, c, events, offset) == RunEvents(w, s', params, c, events, offset)
  {
    if events != [] {
      var n := |events| - 1;
      var before := RunEvents(w, s, params, c, events[..n], offset);
      RunAgrees(w, s, s', params, c, events[..n], offset);
      var request := RequestOf(params, before.env, events[n]);
      if !Allocates(events[n]) { AddressUnused(w, s(before.born), s'(before.born), before.mem, request); }
    }
  }

  lemma {:induction false} AddressUnused(w: World, l: int, l': int, mem: Memory, request: Request)
    requires !request.Allocate?
    ensures Perform(w, l, mem, request) == Perform(w, l', mem, request)
  {
  }
}
