/** Dropping redundant stores and hoisting allocations, followed event by event: the
    original order on one side, the normalised order on the other. */
module NormalSound {
  import opened Events
  import opened PrivateTables
  import opened SegmentRuns

  function OriginOf(ev: Event): Template
    requires Allocates(ev)
  {
    if ev.NewTable? then Fresh(ev.hash, ev.slots) else Copy(ev.fields)
  }

  predicate HoistedAt(events: seq<Event>, offset: nat, id: nat) {
    offset <= id < offset + |events| && Hoistable(events[id - offset])
  }

  lemma {:induction false} AllocationsAre(events: seq<Event>, offset: nat)
    ensures forall id: nat :: id in ScanAll(events, offset).allocations <==> HoistedAt(events, offset, id)
    ensures forall it ::
        it in ScanAll(events, offset).kept ==>
          offset <= it.0 < offset + |events| && it.1 == Canonical(events[it.0 - offset])
  {
    if events != [] {
      var before := events[..|events| - 1];
      AllocationsAre(before, offset);
      assert forall i :: 0 <= i < |before| ==> before[i] == events[i];
    }
  }

  /** The prefix of a segment behaves like the segment so far. */
  function Before(events: seq<Event>, i: nat): seq<Event>
    requires i <= |events|
  {
    events[..i]
  }

  lemma {:induction false} ScanNext(events: seq<Event>, offset: nat, i: nat)
    requires i < |events|
    ensures ScanAll(Before(events, i + 1), offset)
        == ScanStep(ScanAll(Before(events, i), offset), offset + i, events[i])
  {
    assert Before(events, i + 1)[..i] == Before(events, i);
  }

  /** The event with identity `id`. */
  function EventAt(events: seq<Event>, offset: nat, id: nat): Event
    requires offset <= id < offset + |events|
  {
    events[id - offset]
  }

  /** Distinct addresses for the events of the segment. */
  ghost predicate Apart(loc: nat -> int, offset: nat, count: nat) {
    forall i: nat, j: nat :: offset <= i < offset + count && offset <= j < offset + count && loc(i) == loc(j) ==> i == j
  }

  // ----- everything allocated first -----

  /** A hoisted event among those with identities below `now`. */
  predicate BornBy(events: seq<Event>, offset: nat, now: nat, id: nat) { id < now && HoistedAt(events, offset, id) }

  ghost predicate BornTable(events: seq<Event>, offset: nat, loc: nat -> int, d: Config, id: nat)
    requires HoistedAt(events, offset, id)
  {
    && loc(id) in d.mem.heap && d.mem.heap[loc(id)] == Table(OriginOf(EventAt(events, offset, id)), [])
    && id in d.env && d.env[id] == Reply(Ref(loc(id)), [])
  }

  ghost function Locations(events: seq<Event>, offset: nat, low: nat, high: nat, loc: nat -> int): set<int> {
    set id: nat | low <= id < high && HoistedAt(events, offset, id) :: loc(id)
  }

  /** The tables of the hoisted events before `now`, and nothing else, are new. */
  ghost predicate Born(c: Config, events: seq<Event>, offset: nat, now: nat, loc: nat -> int, d: Config) {
    && d.mem.known == c.mem.known && d.mem.history == c.mem.history
    && d.mem.heap.Keys == c.mem.heap.Keys + Locations(events, offset, offset, now, loc)
    && (forall l :: l in c.mem.heap ==> d.mem.heap[l] == c.mem.heap[l])
    && (forall id: nat :: BornBy(events, offset, now, id) ==> BornTable(events, offset, loc, d, id))
    && (forall s :: s in c.env ==> s in d.env && d.env[s] == c.env[s])
  }

  lemma {:induction false} OneMoreBorn(c: Config, events: seq<Event>, offset: nat, now: nat, loc: nat -> int,
      before: Config, w: World, params: seq<Val>)
    requires HoistedAt(events, offset, now) && FreshStart(c, loc, offset, |events|)
    requires Born(c, events, offset, now, loc, before)
    ensures Born(c, events, offset, now + 1, loc,
        ItemStep(w, loc, params, before, (now, Canonical(EventAt(events, offset, now)))))
  {
    var after := ItemStep(w, loc, params, before, (now, Canonical(EventAt(events, offset, now))));
    assert after.mem.heap == before.mem.heap[loc(now) := Table(OriginOf(EventAt(events, offset, now)), [])];
    assert Locations(events, offset, offset, now + 1, loc) == Locations(events, offset, offset, now, loc) + {loc(now)};
    forall id: nat | BornBy(events, offset, now + 1, id) ensures BornTable(events, offset, loc, after, id) {
      if id < now { assert BornBy(events, offset, now, id); assert loc(id) != loc(now); }
    }
  }

  lemma {:induction false} NoneMoreBorn(c: Config, events: seq<Event>, offset: nat, now: nat, loc: nat -> int,
      d: Config)
    requires !HoistedAt(events, offset, now) && Born(c, events, offset, now, loc, d)
    ensures Born(c, events, offset, now + 1, loc, d)
  {
    assert Locations(events, offset, offset, now + 1, loc) == Locations(events, offset, offset, now, loc);
    forall id: nat | BornBy(events, offset, now + 1, id) ensures BornTable(events, offset, loc, d, id) {
      assert BornBy(events, offset, now, id);
    }
  }

  lemma {:induction false} OnlyNext(items: Items, item: (nat, Event), ids: set<nat>, inside: bool)
    ensures Only(items + [item], ids, inside) == Only(items, ids, inside) + if (item.0 in ids) == inside then [item]
        else []
  {
    var longer := items + [item];
    assert longer[..|longer| - 1] == items;
  }

  lemma {:induction false} RunNext(w: World, loc: nat -> int, params: seq<Val>, c: Config, items: Items,
      item: (nat, Event))
    ensures RunItems(w, loc, params, c, items + [item])
        == ItemStep(w, loc, params, RunItems(w, loc, params, c, items), item)
  {
    var longer := items + [item];
    assert longer[..|longer| - 1] == items;
  }

  lemma {:induction false} AllBornFirst(w: World, loc: nat -> int, params: seq<Val>, c: Config, events: seq<Event>,
      offset: nat, i: nat, ids: set<nat>)
    requires i <= |events| && FreshStart(c, loc, offset, |events|)
    requires forall id: nat :: id in ids <==> HoistedAt(events, offset, id)
    ensures Born(c, events, offset, offset + i, loc,
        RunItems(w, loc, params, c, Only(ScanAll(Before(events, i), offset).kept, ids, true)))
  {
    hide Born, ItemStep, ScanStep, RunItems;
    if i == 0 {
      NothingBorn(w, loc, params, c, events, offset);
    } else {
      AllBornFirst(w, loc, params, c, events, offset, i - 1, ids);
      ScanNext(events, offset, i - 1);
      var now := offset + i - 1;
      var s := ScanAll(Before(events, i - 1), offset);
      var before := RunItems(w, loc, params, c, Only(s.kept, ids, true));
      var item := (now, Canonical(events[i - 1]));
      ScanKeeps(s, now, events[i - 1]);
      OnlyNext(s.kept, item, ids, true);
      RunNext(w, loc, params, c, Only(s.kept, ids, true), item);
      if HoistedAt(events, offset, now) {
        OneMoreBorn(c, events, offset, now, loc, before, w, params);
      } else {
        NoneMoreBorn(c, events, offset, now, loc, before);
        assert Only(s.kept, ids, true) + [] == Only(s.kept, ids, true);
      }
    }
  }

  lemma {:induction false} NothingBorn(w: World, loc: nat -> int, params: seq<Val>, c: Config, events: seq<Event>,
      offset: nat)
    ensures RunItems(w, loc, params, c, Only(ScanAll(Before(events, 0), offset).kept, {}, true)) == c
    ensures forall ids :: Only(ScanAll(Before(events, 0), offset).kept, ids, true) == []
    ensures RunItems(w, loc, params, c, []) == c
    ensures Born(c, events, offset, offset, loc, c)
  {
    assert Locations(events, offset, offset, offset, loc) == {};
  }

  lemma {:induction false} ScanKeeps(s: Scan, id: nat, ev: Event)
    ensures ScanStep(s, id, ev).kept == if IsRedundant(s.private, ev) then s.kept else s.kept + [(id, Canonical(ev))]
    ensures Hoistable(ev) ==> !IsRedundant(s.private, ev)
  {
  }

  // ----- the two runs side by side -----

  ghost predicate MemoryTracks(events: seq<Event>, offset: nat, now: nat, loc: nat -> int, a: Config, b: Config) {
    && AheadBy(a.mem, b.mem, Locations(events, offset, now, offset + |events|, loc))
    && (forall id: nat :: now <= id < offset + |events| ==> loc(id) !in a.mem.heap && loc(id) !in a.mem.known)
    && (forall id: nat :: Upcoming(events, offset, now, id) ==> BornTable(events, offset, loc, b, id))
  }

  predicate Upcoming(events: seq<Event>, offset: nat, now: nat, id: nat) { now <= id && HoistedAt(events, offset, id) }

  ghost predicate EnvTracks(events: seq<Event>, offset: nat, now: nat, loc: nat -> int, a: Config, b: Config) {
    && offset <= now && (forall s: nat :: s in a.env <==> s < now)
    && (forall s: nat :: Mentionable(events, offset, now - offset, s) ==> s in b.env && b.env[s] == a.env[s])
    && Sealed(a, loc, offset, |events|)
  }

  /** An event that does not name a table nobody knows cannot pass on its address. */
  lemma {:induction false} RequestAvoids(events: seq<Event>, offset: nat, loc: nat -> int, params: seq<Val>, a: Config,
      ev: Event, t: nat)
    requires Sealed(a, loc, offset, |events|) && offset <= t < offset + |events|
    requires loc(t) !in a.mem.known && t !in EventRefs(ev)
    ensures loc(t) !in RefsIn(RequestVals(RequestOf(params, a.env, ev)))
  {
    if loc(t) in RefsIn(RequestVals(RequestOf(params, a.env, ev))) {
      RequestRefsCover(params, a.env, ev, loc(t));
    }
  }

  lemma {:induction false} RequestsAgree(events: seq<Event>, offset: nat, now: nat, loc: nat -> int, params: seq<Val>,
      a: Config, b: Config)
    requires offset <= now < offset + |events| && RefsEarlier(events, offset)
    requires MemoryTracks(events, offset, now, loc, a, b) && EnvTracks(events, offset, now, loc, a, b)
    ensures RequestOf(params, a.env, EventAt(events, offset, now))
        == RequestOf(params, b.env, EventAt(events, offset, now))
    ensures forall id: nat :: now <= id < offset + |events| ==>
      loc(id) !in RefsIn(RequestVals(RequestOf(params, a.env, EventAt(events, offset, now))))
  {
    var ev := EventAt(events, offset, now);
    forall s | s in EventRefs(ev) ensures s < now && s in a.env && s in b.env && a.env[s] == b.env[s] {
      assert Mentionable(events, offset, now - offset, s);
    }
    RequestSame(params, a.env, b.env, ev);
    forall id: nat | now <= id < offset + |events|
      ensures loc(id) !in RefsIn(RequestVals(RequestOf(params, a.env, ev)))
    {
      RequestAvoids(events, offset, loc, params, a, ev, id);
    }
  }

  lemma {:induction false} SealedStep(w: World, events: seq<Event>, offset: nat, now: nat, loc: nat -> int,
      params: seq<Val>, a: Config, ev: Event)
    requires Sealed(a, loc, offset, |events|) && (forall s: nat :: s in a.env <==> s < now)
    requires offset <= now < offset + |events| && Apart(loc, offset, |events|)
    ensures Sealed(ItemStep(w, loc, params, a, (now, ev)), loc, offset, |events|)
  {
    var r := RequestOf(params, a.env, ev);
    KnownGrows(w, loc(now), a.mem, r);
    ReplyIsClean(w, loc(now), a.mem, r);
  }

  /** A hoisted allocation: the original order catches up with what the other already has. */
  lemma {:induction false} StepHoisted(w: World, events: seq<Event>, offset: nat, now: nat, loc: nat -> int,
      params: seq<Val>, a: Config, b: Config)
    requires HoistedAt(events, offset, now) && Apart(loc, offset, |events|)
    requires MemoryTracks(events, offset, now, loc, a, b) && EnvTracks(events, offset, now, loc, a, b)
    ensures var a' := ItemStep(w, loc, params, a, (now, EventAt(events, offset, now)));
            MemoryTracks(events, offset, now + 1, loc, a', b) && EnvTracks(events, offset, now + 1, loc, a', b)
  {
    var ev := EventAt(events, offset, now);
    var a' := ItemStep(w, loc, params, a, (now, ev));
    SealedStep(w, events, offset, now, loc, params, a, ev);
    assert Upcoming(events, offset, now, now);
    assert a'.mem.heap == a.mem.heap[loc(now) := Table(OriginOf(ev), [])];
    assert Locations(events, offset, now, offset + |events|, loc)
      == Locations(events, offset, now + 1, offset + |events|, loc) + {loc(now)};
    assert loc(now) !in Locations(events, offset, now + 1, offset + |events|, loc);
    forall id: nat | Upcoming(events, offset, now + 1, id) ensures BornTable(events, offset, loc, b, id) {
      assert Upcoming(events, offset, now, id);
    }
  }

  /** Any other kept event happens on both sides at once. */
  lemma {:induction false} KeptMemory(w: World, events: seq<Event>, offset: nat, now: nat, loc: nat -> int,
      params: seq<Val>, a: Config, b: Config)
    requires offset <= now < offset + |events| && !HoistedAt(events, offset, now) && RefsEarlier(events, offset)
    requires Apart(loc, offset, |events|)
    requires MemoryTracks(events, offset, now, loc, a, b) && EnvTracks(events, offset, now, loc, a, b)
    ensures var item := (now, EventAt(events, offset, now));
            MemoryTracks(events, offset, now + 1, loc, ItemStep(w, loc, params, a, item),
              ItemStep(w, loc, params, b, item))
  {
    hide Perform, EnvTracks, RequestOf, AheadBy;
    var ev := EventAt(events, offset, now);
    var r := RequestOf(params, a.env, ev);
    var later := Locations(events, offset, now, offset + |events|, loc);
    RequestsAgree(events, offset, now, loc, params, a, b);
    assert Locations(events, offset, now + 1, offset + |events|, loc) == later;
    PerformAhead(w, loc(now), a.mem, b.mem, later, r);
    KnownGrows(w, loc(now), a.mem, r);
    forall id: nat | Upcoming(events, offset, now + 1, id)
      ensures BornTable(events, offset, loc, ItemStep(w, loc, params, b, (now, ev)), id)
    {
      BornStays(w, events, offset, now, loc, params, a, b, id);
    }
  }

  lemma {:induction false} BornStays(w: World, events: seq<Event>, offset: nat, now: nat, loc: nat -> int,
      params: seq<Val>, a: Config, b: Config, id: nat)
    requires offset <= now < offset + |events| && RefsEarlier(events, offset) && Apart(loc, offset, |events|)
    requires MemoryTracks(events, offset, now, loc, a, b) && EnvTracks(events, offset, now, loc, a, b)
    requires Upcoming(events, offset, now + 1, id)
    ensures BornTable(events, offset, loc, ItemStep(w, loc, params, b, (now, EventAt(events, offset, now))), id)
  {
    var r := RequestOf(params, b.env, EventAt(events, offset, now));
    RequestsAgree(events, offset, now, loc, params, a, b);
    assert Upcoming(events, offset, now, id) && loc(id) != loc(now);
    if !r.Allocate? { Untouched(w, loc(now), b.mem, r, loc(id)); }
  }

  lemma {:induction false} KeptEnv(w: World, events: seq<Event>, offset: nat, now: nat, loc: nat -> int,
      params: seq<Val>, a: Config, b: Config)
    requires offset <= now < offset + |events| && !HoistedAt(events, offset, now) && RefsEarlier(events, offset)
    requires Apart(loc, offset, |events|)
    requires MemoryTracks(events, offset, now, loc, a, b) && EnvTracks(events, offset, now, loc, a, b)
    ensures var item := (now, EventAt(events, offset, now));
            EnvTracks(events, offset, now + 1, loc, ItemStep(w, loc, params, a, item),
              ItemStep(w, loc, params, b, item))
  {
    hide Perform, RequestOf, RefsEarlier;
    var ev := EventAt(events, offset, now);
    SealedStep(w, events, offset, now, loc, params, a, ev);
    RequestsAgree(events, offset, now, loc, params, a, b);
    PerformAhead(w, loc(now), a.mem, b.mem, Locations(events, offset, now, offset + |events|, loc),
      RequestOf(params, a.env, ev))
      by { RequestAllocates(params, a.env, ev); }
    var i, j := now - offset, now + 1 - offset;
    assert forall s: nat :: Mentionable(events, offset, j, s) && s < now ==> Mentionable(events, offset, i, s);
  }

  lemma {:induction false} RequestAllocates(params: seq<Val>, env: Env, ev: Event)
    ensures RequestOf(params, env, ev).Allocate? <==> Allocates(ev)
  {
  }

  lemma {:induction false} StepKept(w: World, events: seq<Event>, offset: nat, now: nat, loc: nat -> int,
      params: seq<Val>, a: Config, b: Config)
    requires offset <= now < offset + |events| && !HoistedAt(events, offset, now) && RefsEarlier(events, offset)
    requires Apart(loc, offset, |events|)
    requires MemoryTracks(events, offset, now, loc, a, b) && EnvTracks(events, offset, now, loc, a, b)
    ensures var item := (now, EventAt(events, offset, now));
            MemoryTracks(events, offset, now + 1, loc, ItemStep(w, loc, params, a, item),
              ItemStep(w, loc, params, b, item))
            && EnvTracks(events, offset, now + 1, loc, ItemStep(w, loc, params, a, item),
              ItemStep(w, loc, params, b, item))
  {
    hide MemoryTracks, EnvTracks, ItemStep;
    KeptMemory(w, events, offset, now, loc, params, a, b);
    KeptEnv(w, events, offset, now, loc, params, a, b);
  }

  // ----- what the scan believes -----

  ghost predicate FieldTracks(events: seq<Event>, offset: nat, now: nat, params: seq<Val>, env: Env, table: Table,
      k: Term, v: Term)
  {
    && k.Const? && k.k.Str? && Field(table, k.k) == Eval(params, env, v)
    && forall s :: s in TermRefs(v) ==> offset <= now && Mentionable(events, offset, now - offset, s)
  }

  /** What the scan believes about a private table is true, and nobody else knows the table. */
  ghost predicate TableTracks(events: seq<Event>, offset: nat, now: nat, loc: nat -> int, params: seq<Val>,
                              fields: Fields, a: Config, t: nat) {
    && offset <= t < now && t in a.env && a.env[t].value == Ref(loc(t))
    && loc(t) in a.mem.heap && loc(t) !in a.mem.known
    && forall k :: k in fields ==> FieldTracks(events, offset, now, params, a.env, a.mem.heap[loc(t)], k, fields[k])
  }

  ghost predicate PrivateTracks(events: seq<Event>, offset: nat, now: nat, loc: nat -> int, params: seq<Val>,
                                private: map<nat, Fields>, a: Config) {
    forall t: nat :: t in private ==> TableTracks(events, offset, now, loc, params, private[t], a, t)
  }

  lemma {:induction false} TemplateFieldsAre(fields: seq<(Constant, Constant)>, k: Term)
    requires ZeroTemplate(fields)
    ensures k in TemplateFields(fields) ==>
        k.Const? && k.k.Str? && TemplateFields(fields)[k] == Const(LastField(fields, k.k))
  {
    if fields != [] {
      var n := |fields| - 1;
      assert fields[n] in fields;
      assert forall f :: f in fields[..n] ==> f in fields;
      TemplateFieldsAre(fields[..n], k);
    }
  }

  /** A fresh table has exactly the fields of its template. */
  lemma {:induction false} FreshTracks(w: World, events: seq<Event>, offset: nat, now: nat, loc: nat -> int,
      params: seq<Val>, private: map<nat, Fields>, a: Config)
    requires HoistedAt(events, offset, now) && Apart(loc, offset, |events|)
    requires PrivateTracks(events, offset, now, loc, params, private, a)
    requires loc(now) !in a.mem.known && forall s: nat :: s in a.env <==> s < now
    ensures var ev := EventAt(events, offset, now);
            PrivateTracks(events, offset, now + 1, loc, params, PrivateAfter(private, now, ev),
              ItemStep(w, loc, params, a, (now, ev)))
  {
    var ev := EventAt(events, offset, now);
    var a' := ItemStep(w, loc, params, a, (now, ev));
    var after := PrivateAfter(private, now, ev);
    forall t: nat | t in after ensures TableTracks(events, offset, now + 1, loc, params, after[t], a', t) {
      if t == now {
        forall k | k in after[t]
          ensures FieldTracks(events, offset, now + 1, params, a'.env, a'.mem.heap[loc(t)], k, after[t][k])
        {
          if ev.DupTable? { TemplateFieldsAre(ev.fields, k); }
        }
      } else {
        assert TableTracks(events, offset, now, loc, params, private[t], a, t);
        assert loc(t) != loc(now);
        FieldsCarry(events, offset, now, loc, params, private[t], a, a', t);
      }
    }
  }

  /** Beliefs about a table that did not change stay true. */
  lemma {:induction false} FieldsCarry(events: seq<Event>, offset: nat, now: nat, loc: nat -> int, params: seq<Val>,
      fields: Fields, a: Config, a': Config, t: nat)
    requires TableTracks(events, offset, now, loc, params, fields, a, t)
    requires loc(t) in a'.mem.heap && a'.mem.heap[loc(t)] == a.mem.heap[loc(t)] && loc(t) !in a'.mem.known
    requires forall s :: s in a.env ==> s in a'.env && (s < now ==> a'.env[s] == a.env[s])
    requires forall s: nat :: s in a.env <==> s < now
    ensures TableTracks(events, offset, now + 1, loc, params, fields, a', t)
  {
    forall k | k in fields
      ensures FieldTracks(events, offset, now + 1, params, a'.env, a'.mem.heap[loc(t)], k, fields[k])
    {
      FieldCarries(events, offset, now, params, a.env, a'.env, a.mem.heap[loc(t)], k, fields[k]);
    }
  }

  lemma {:induction false} FieldCarries(events: seq<Event>, offset: nat, now: nat, params: seq<Val>, env: Env,
      env': Env, table: Table, k: Term, v: Term)
    requires FieldTracks(events, offset, now, params, env, table, k, v)
    requires forall s: nat :: s < now ==> s in env && s in env' && env'[s] == env[s]
    ensures FieldTracks(events, offset, now + 1, params, env', table, k, v)
  {
    EvalSame(params, env, env', v);
  }

  /** A redundant store changes nothing at all. */
  lemma {:induction false} RedundantStep(w: World, events: seq<Event>, offset: nat, now: nat, loc: nat -> int,
      params: seq<Val>, private: map<nat, Fields>, a: Config)
    requires offset <= now < offset + |events| && IsRedundant(private, EventAt(events, offset, now))
    requires PrivateTracks(events, offset, now, loc, params, private, a)
    ensures ItemStep(w, loc, params, a, (now, EventAt(events, offset, now))) == Config(a.env[now := Silent], a.mem)
  {
    var ev := EventAt(events, offset, now);
    var t := ev.table.ev;
    assert TableTracks(events, offset, now, loc, params, private[t], a, t);
    assert FieldTracks(events, offset, now, params, a.env, a.mem.heap[loc(t)], ev.key, private[t][ev.key]);
    var v := Eval(params, a.env, ev.value);
    assert Stored(a.mem.heap[loc(t)], ev.key.k, v) == a.mem.heap[loc(t)];
    assert a.mem.heap[loc(t) := a.mem.heap[loc(t)]] == a.mem.heap;
    assert a.mem.known + RefsIn([v]) == a.mem.known;
  }

  /** A private table the event does not mention is as it was. */
  lemma {:induction false} OthersCarry(w: World, events: seq<Event>, offset: nat, now: nat, loc: nat -> int,
      params: seq<Val>, fields: Fields, a: Config, t: nat)
    requires offset <= now < offset + |events| && !HoistedAt(events, offset, now) && Apart(loc, offset, |events|)
    requires TableTracks(events, offset, now, loc, params, fields, a, t)
    requires t !in EventRefs(EventAt(events, offset, now))
    requires Sealed(a, loc, offset, |events|) && (forall s: nat :: s in a.env <==> s < now)
    ensures TableTracks(events, offset, now + 1, loc, params, fields,
        ItemStep(w, loc, params, a, (now, EventAt(events, offset, now))), t)
  {
    var ev := EventAt(events, offset, now);
    var r := RequestOf(params, a.env, ev);
    RequestAvoids(events, offset, loc, params, a, ev, t);
    assert loc(t) != loc(now);
    if !r.Allocate? { Untouched(w, loc(now), a.mem, r, loc(t)); }
    FieldsCarry(events, offset, now, loc, params, fields, a, ItemStep(w, loc, params, a, (now, ev)), t);
  }

  /** A store into a private table is recorded. */
  lemma {:induction false} StoreTracks(w: World, events: seq<Event>, offset: nat, now: nat, loc: nat -> int,
      params: seq<Val>, fields: Fields, a: Config)
    requires offset <= now < offset + |events| && RefsEarlier(events, offset) && Apart(loc, offset, |events|)
    requires var ev := EventAt(events, offset, now);
             ev.SetTable? && ev.table.Value? && ev.key.Const? && ev.key.k.Str? && ev.table.ev !in TermRefs(ev.value)
             && TableTracks(events, offset, now, loc, params, fields, a, ev.table.ev)
    requires Sealed(a, loc, offset, |events|) && (forall s: nat :: s in a.env <==> s < now)
    ensures var ev := EventAt(events, offset, now);
            TableTracks(events, offset, now + 1, loc, params, fields[ev.key := ev.value],
              ItemStep(w, loc, params, a, (now, ev)), ev.table.ev)
  {
    var ev := EventAt(events, offset, now);
    var t := ev.table.ev;
    var a' := ItemStep(w, loc, params, a, (now, ev));
    var v := Eval(params, a.env, ev.value);
    var was, stored := a.mem.heap[loc(t)], Stored(a.mem.heap[loc(t)], ev.key.k, v);
    assert IsDirect(a.mem, Ref(loc(t)), Atom(ev.key.k));
    assert loc(t) !in RefsIn([v]) by {
      if loc(t) in RefsIn([v]) { TermRefsCover(params, a.env, ev.value, loc(t)); }
    }
    assert a'.mem.heap[loc(t)] == stored;
    var i := now - offset;
    forall s: nat | s in TermRefs(ev.value) ensures Mentionable(events, offset, i, s) {
      assert s in EventRefs(events[i]);
    }
    EvalSame(params, a.env, a'.env, ev.value);
    var updated := fields[ev.key := ev.value];
    forall k | k in updated ensures FieldTracks(events, offset, now + 1, params, a'.env, stored, k, updated[k])
    {
      FieldAfterStore(was, ev.key.k, v, if k == ev.key then ev.key.k else if k.Const? then k.k else NilK);
      if k != ev.key {
        FieldCarries(events, offset, now, params, a.env, a'.env, was, k, fields[k]);
      }
    }
  }

  /** One kept event other than a hoisted allocation keeps every belief that remains. */
  lemma {:induction false} KeptTracks(w: World, events: seq<Event>, offset: nat, now: nat, loc: nat -> int,
      params: seq<Val>, private: map<nat, Fields>, a: Config)
    requires offset <= now < offset + |events| && !HoistedAt(events, offset, now) && RefsEarlier(events, offset)
    requires Apart(loc, offset, |events|)
    requires PrivateTracks(events, offset, now, loc, params, private, a)
    requires Sealed(a, loc, offset, |events|) && (forall s: nat :: s in a.env <==> s < now)
    ensures var ev := EventAt(events, offset, now);
            PrivateTracks(events, offset, now + 1, loc, params, PrivateAfter(private, now, ev),
              ItemStep(w, loc, params, a, (now, ev)))
  {
    hide TableTracks, Sealed, ItemStep;
    var ev := EventAt(events, offset, now);
    var after := PrivateAfter(private, now, ev);
    forall t: nat | t in after
      ensures TableTracks(events, offset, now + 1, loc, params, after[t], ItemStep(w, loc, params, a, (now, ev)), t)
    {
      if t in EventRefs(ev) {
        StoreTracks(w, events, offset, now, loc, params, private[t], a);
      } else {
        OthersCarry(w, events, offset, now, loc, params, private[t], a, t);
      }
    }
  }

  // ----- the whole segment -----

  ghost predicate SideBySide(events: seq<Event>, offset: nat, i: nat, loc: nat -> int, params: seq<Val>,
                             private: map<nat, Fields>, a: Config, b: Config) {
    && MemoryTracks(events, offset, offset + i, loc, a, b) && EnvTracks(events, offset, offset + i, loc, a, b)
    && PrivateTracks(events, offset, offset + i, loc, params, private, a)
  }

  lemma {:induction false} SideBySideStart(w: World, loc: nat -> int, params: seq<Val>, c: Config, events: seq<Event>,
      offset: nat, first: Items)
    requires FreshStart(c, loc, offset, |events|)
    requires Born(c, events, offset, offset + |events|, loc, RunItems(w, loc, params, c, first))
    ensures SideBySide(events, offset, 0, loc, params, map[], c, RunItems(w, loc, params, c, first))
  {
    var d := RunItems(w, loc, params, c, first);
    forall id: nat | Upcoming(events, offset, offset, id) ensures BornTable(events, offset, loc, d, id) {
      assert BornBy(events, offset, offset + |events|, id);
    }
  }

  lemma {:induction false} TracksNow(events: seq<Event>, offset: nat, now: nat, loc: nat -> int, a: Config, b: Config)
    requires offset <= now < offset + |events|
    requires MemoryTracks(events, offset, now, loc, a, b) && EnvTracks(events, offset, now, loc, a, b)
    ensures loc(now) !in a.mem.known && Sealed(a, loc, offset, |events|) && forall s: nat :: s in a.env <==> s < now
  {
  }

  lemma {:induction false} SideBySideStep(w: World, loc: nat -> int, params: seq<Val>, events: seq<Event>, offset: nat,
      i: nat, private: map<nat, Fields>, a: Config, b: Config)
    requires i < |events| && RefsEarlier(events, offset) && Apart(loc, offset, |events|)
    requires SideBySide(events, offset, i, loc, params, private, a, b)
    ensures var item := (offset + i, events[i]);
            var a' := ItemStep(w, loc, params, a, item);
            if IsRedundant(private, events[i]) then SideBySide(events, offset, i + 1, loc, params, private, a', b)
            else if Hoistable(events[i])
              then SideBySide(events, offset, i + 1, loc, params, PrivateAfter(private, offset + i, events[i]), a', b)
            else SideBySide(events, offset, i + 1, loc, params, PrivateAfter(private, offset + i, events[i]), a',
              ItemStep(w, loc, params, b, item))
  {
    hide ItemStep, PrivateAfter, IsRedundant, MemoryTracks, EnvTracks, PrivateTracks, RefsEarlier, Apart, Sealed;
    var now := offset + i;
    TracksNow(events, offset, now, loc, a, b);
    assert EventAt(events, offset, now) == events[i];
    if IsRedundant(private, events[i]) {
      StepRedundant(w, loc, params, events, offset, now, private, a, b);
    } else if Hoistable(events[i]) {
      StepHoisted(w, events, offset, now, loc, params, a, b);
      FreshTracks(w, events, offset, now, loc, params, private, a);
    } else {
      StepKept(w, events, offset, now, loc, params, a, b);
      KeptTracks(w, events, offset, now, loc, params, private, a);
    }
  }

  lemma {:induction false} RedundantTables(events: seq<Event>, offset: nat, now: nat, loc: nat -> int, params: seq<Val>,
                        private: map<nat, Fields>, a: Config)
    requires PrivateTracks(events, offset, now, loc, params, private, a) && forall s: nat :: s in a.env <==> s < now
    ensures PrivateTracks(events, offset, now + 1, loc, params, private, Config(a.env[now := Silent], a.mem))
  {
    var a' := Config(a.env[now := Silent], a.mem);
    forall t: nat | t in private ensures TableTracks(events, offset, now + 1, loc, params, private[t], a', t) {
      assert TableTracks(events, offset, now, loc, params, private[t], a, t);
      FieldsCarry(events, offset, now, loc, params, private[t], a, a', t);
    }
  }

  lemma {:induction false} RedundantRuns(events: seq<Event>, offset: nat, now: nat, loc: nat -> int, a: Config,
      b: Config)
    requires offset <= now < offset + |events| && EventAt(events, offset, now).SetTable?
    requires MemoryTracks(events, offset, now, loc, a, b) && EnvTracks(events, offset, now, loc, a, b)
    ensures var a' := Config(a.env[now := Silent], a.mem);
            MemoryTracks(events, offset, now + 1, loc, a', b) && EnvTracks(events, offset, now + 1, loc, a', b)
  {
    assert Locations(events, offset, now + 1, offset + |events|, loc)
      == Locations(events, offset, now, offset + |events|, loc);
    forall id: nat | Upcoming(events, offset, now + 1, id) ensures BornTable(events, offset, loc, b, id) {
      assert Upcoming(events, offset, now, id);
    }
    var i, j := now - offset, now + 1 - offset;
    assert forall s: nat :: Mentionable(events, offset, j, s) ==> Mentionable(events, offset, i, s);
  }

  lemma {:induction false} StepRedundant(w: World, loc: nat -> int, params: seq<Val>, events: seq<Event>, offset: nat,
      now: nat, private: map<nat, Fields>, a: Config, b: Config)
    requires offset <= now < offset + |events| && IsRedundant(private, EventAt(events, offset, now))
    requires MemoryTracks(events, offset, now, loc, a, b) && EnvTracks(events, offset, now, loc, a, b)
    requires PrivateTracks(events, offset, now, loc, params, private, a)
    ensures var a' := ItemStep(w, loc, params, a, (now, EventAt(events, offset, now)));
            MemoryTracks(events, offset, now + 1, loc, a', b) && EnvTracks(events, offset, now + 1, loc, a', b)
            && PrivateTracks(events, offset, now + 1, loc, params, private, a')
  {
    RedundantStep(w, events, offset, now, loc, params, private, a);
    RedundantTables(events, offset, now, loc, params, private, a);
    RedundantRuns(events, offset, now, loc, a, b);
  }

  lemma {:induction false} NumberedNext(events: seq<Event>, offset: nat, i: nat)
    requires i < |events|
    ensures Numbered(Before(events, i + 1), offset) == Numbered(Before(events, i), offset) + [(offset + i, events[i])]
  {
  }

  lemma {:induction false} ScanPrivate(s: Scan, id: nat, ev: Event)
    ensures ScanStep(s, id, ev).private == if IsRedundant(s.private, ev) then s.private
        else PrivateAfter(s.private, id, ev)
  {
  }

  lemma {:induction false} EmptyScan(w: World, loc: nat -> int, params: seq<Val>, c: Config, events: seq<Event>,
      offset: nat, ids: set<nat>)
    ensures ScanAll(Before(events, 0), offset).private == map[]
    ensures Only(ScanAll(Before(events, 0), offset).kept, ids, false) == []
    ensures RunItems(w, loc, params, c, Numbered(Before(events, 0), offset)) == c
  {
  }

  lemma {:induction false} RunsSideBySide(w: World, loc: nat -> int, params: seq<Val>, c: Config, events: seq<Event>,
      offset: nat, i: nat, ids: set<nat>, first: Items)
    requires i <= |events| && RefsEarlier(events, offset) && FreshStart(c, loc, offset, |events|)
    requires forall id: nat :: id in ids <==> HoistedAt(events, offset, id)
    requires first == Only(ScanAll(events, offset).kept, ids, true)
    ensures SideBySide(events, offset, i, loc, params, ScanAll(Before(events, i), offset).private,
                       RunItems(w, loc, params, c, Numbered(Before(events, i), offset)),
                       RunItems(w, loc, params, c, first + Only(ScanAll(Before(events, i), offset).kept, ids, false)))
  {
    hide SideBySide, ItemStep, Born, RunItems, ScanAll, ScanStep, Only, PrivateAfter, RefsEarlier, Numbered;
    if i == 0 {
      AllBornFirst(w, loc, params, c, events, offset, |events|, ids);
      assert Before(events, |events|) == events;
      SideBySideStart(w, loc, params, c, events, offset, first);
      EmptyScan(w, loc, params, c, events, offset, ids);
      assert first + [] == first;
    } else {
      var k := i - 1;
      RunsSideBySide(w, loc, params, c, events, offset, k, ids, first);
      var s, item := ScanAll(Before(events, k), offset), (offset + k, events[k]);
      var rest := first + Only(s.kept, ids, false);
      ScanNext(events, offset, k);
      ScanPrivate(s, offset + k, events[k]);
      ScanKeeps(s, offset + k, events[k]);
      NumberedNext(events, offset, k);
      RunNext(w, loc, params, c, Numbered(Before(events, k), offset), item);
      SideBySideStep(w, loc, params, events, offset, k, s.private,
                     RunItems(w, loc, params, c, Numbered(Before(events, k), offset)),
                       RunItems(w, loc, params, c, rest));
      RestNext(w, loc, params, c, events, offset, k, ids, first, s);
    }
  }

  /** How the normalised order grows with the scan. */
  lemma {:induction false} RestNext(w: World, loc: nat -> int, params: seq<Val>, c: Config, events: seq<Event>,
      offset: nat, k: nat, ids: set<nat>, first: Items, s: Scan)
    requires k < |events| && forall id: nat :: id in ids <==> HoistedAt(events, offset, id)
    ensures var before := RunItems(w, loc, params, c, first + Only(s.kept, ids, false));
            RunItems(w, loc, params, c, first + Only(ScanStep(s, offset + k, events[k]).kept, ids, false)) ==
              if IsRedundant(s.private, events[k]) || Hoistable(events[k]) then before
              else ItemStep(w, loc, params, before, (offset + k, events[k]))
  {
    hide ItemStep, RunItems;
    var item := (offset + k, Canonical(events[k]));
    ScanKeeps(s, offset + k, events[k]);
    if !IsRedundant(s.private, events[k]) {
      OnlyNext(s.kept, item, ids, false);
      assert (offset + k in ids) <==> Hoistable(events[k]);
      if Hoistable(events[k]) {
        assert Only(s.kept, ids, false) + [] == Only(s.kept, ids, false);
      } else {
        var rest := first + Only(s.kept, ids, false);
        assert first + (Only(s.kept, ids, false) + [item]) == rest + [item];
        RunNext(w, loc, params, c, rest, item);
      }
    }
  }

  /** Same observations: one history, the same tables at the same places, the same tables
      known, the same returned values. */
  ghost predicate SameOutcome(params: seq<Val>, a: Config, pack: Pack, b: Config, pack': Pack) {
    a.mem == b.mem && EvalPack(params, a.env, pack) == EvalPack(params, b.env, pack')
  }

  lemma {:induction false} SameHeaps<K, V>(m: map<K, V>, m': map<K, V>)
    requires forall k :: k in m <==> k in m'
    requires forall k :: k in m ==> m'[k] == m[k]
    ensures m == m'
  {
  }

  lemma {:induction false} OutcomeOf(events: seq<Event>, offset: nat, loc: nat -> int, params: seq<Val>,
      private: map<nat, Fields>, a: Config, b: Config, pack: Pack)
    requires SideBySide(events, offset, |events|, loc, params, private, a, b)
    requires forall id: nat :: id in PackRefs(pack) ==> Mentionable(events, offset, |events|, id)
    ensures SameOutcome(params, a, pack, b, pack)
  {
    assert Locations(events, offset, offset + |events|, offset + |events|, loc) == {};
    assert AheadBy(a.mem, b.mem, Locations(events, offset, offset + |events|, offset + |events|, loc));
    assert forall l :: l in a.mem.heap ==> b.mem.heap[l] == a.mem.heap[l];
    SameHeaps(a.mem.heap, b.mem.heap);
    forall s | s in PackRefs(pack) ensures s in a.env && s in b.env && a.env[s] == b.env[s] {
      assert Mentionable(events, offset, |events|, s);
    }
    PackSame(params, a.env, b.env, pack);
  }

  /** In the normalised order, with the original identities, nothing observable differs. */
  lemma {:induction false} HoistedSound(w: World, loc: nat -> int, params: seq<Val>, c: Config, events: seq<Event>,
      pack: Pack, offset: nat)
    requires RefsEarlier(events, offset) && FreshStart(c, loc, offset, |events|)
    requires forall id: nat :: id in PackRefs(pack) ==> Mentionable(events, offset, |events|, id)
    ensures SameOutcome(params, RunItems(w, loc, params, c, Numbered(events, offset)), pack,
                        RunItems(w, loc, params, c, Hoisted(ScanAll(events, offset))), pack)
  {
    hide SideBySide, RunItems, SameOutcome, RefsEarlier, FreshStart;
    var s := ScanAll(events, offset);
    AllocationsAre(events, offset);
    assert Before(events, |events|) == events;
    RunsSideBySide(w, loc, params, c, events, offset, |events|, s.allocations, Only(s.kept, s.allocations, true));
    OutcomeOf(events, offset, loc, params, s.private, RunItems(w, loc, params, c, Numbered(events, offset)),
              RunItems(w, loc, params, c, Hoisted(s)), pack);
  }
}
