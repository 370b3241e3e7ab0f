/** Renumbering the kept events: every mention still points to an earlier event, and the
    renumbered segment behaves like the original, table addresses permuted along. */
module NormalForm {
  import opened Events
  import opened PrivateTables
  import opened SegmentRuns
  import opened NormalSound

  // ----- order of the kept events -----

  ghost predicate HasId(items: Items, id: nat) { exists j: nat :: j < |items| && items[j].0 == id }

  /** Each item mentions only earlier items, or what was there before the segment. */
  ghost predicate ItemsEarlier(items: Items, offset: nat) {
    forall k: nat, id: nat :: k < |items| && id in EventRefs(items[k].1) ==> id < offset || HasId(items[..k], id)
  }

  ghost predicate DistinctIds(items: Items, offset: nat) {
    && (forall i: nat, j: nat :: i < j < |items| ==> items[i].0 != items[j].0)
    && (forall i: nat :: i < |items| ==> items[i].0 >= offset)
  }

  lemma {:induction false} HasIdNext(items: Items, item: (nat, Event), id: nat)
    ensures HasId(items + [item], id) <==> HasId(items, id) || id == item.0
  {
    if HasId(items, id) {
      var j: nat :| j < |items| && items[j].0 == id;
      assert (items + [item])[j].0 == id;
    }
    if id == item.0 { assert (items + [item])[|items|].0 == id; }
  }

  lemma {:induction false} EarlierNext(items: Items, item: (nat, Event), offset: nat)
    requires ItemsEarlier(items, offset)
    requires forall id: nat :: id in EventRefs(item.1) ==> id < offset || HasId(items, id)
    ensures ItemsEarlier(items + [item], offset)
  {
    var longer := items + [item];
    forall k: nat, id: nat | k < |longer| && id in EventRefs(longer[k].1)
      ensures id < offset || HasId(longer[..k], id)
    {
      assert longer[..k] == items[..k];
      if k == |items| { assert items[..k] == items; }
    }
  }

  /** What the hoisted prefix holds once `i` events have been scanned. */
  ghost predicate FirstIs(events: seq<Event>, offset: nat, i: nat, ids: set<nat>, items: Items) {
    && DistinctIds(items, offset)
    && (forall k: nat ::
      k < |items| ==>
        items[k].0 < offset + i && items[k].0 in ids && EventRefs(items[k].1) == {} && Allocates(items[k].1))
    && (forall id: nat :: id in ids && id < offset + i ==> HasId(items, id))
  }

  lemma {:induction false} FirstNext(events: seq<Event>, offset: nat, i: nat, ids: set<nat>, items: Items)
    requires i < |events| && forall id: nat :: id in ids <==> HoistedAt(events, offset, id)
    requires FirstIs(events, offset, i, ids, items)
    ensures FirstIs(events, offset, i + 1, ids,
        if Hoistable(events[i]) then items + [(offset + i, Canonical(events[i]))] else items)
  {
    var now, item := offset + i, (offset + i, Canonical(events[i]));
    assert now in ids <==> Hoistable(events[i]);
    if Hoistable(events[i]) {
      forall id: nat | id in ids && id < offset + i + 1 ensures HasId(items + [item], id) {
        HasIdNext(items, item, id);
      }
    }
  }

  lemma {:induction false} HoistedNow(events: seq<Event>, offset: nat, i: nat)
    requires i < |events|
    ensures HoistedAt(events, offset, offset + i) <==> Hoistable(events[i])
  {
  }

  lemma {:induction false} FirstPart(events: seq<Event>, offset: nat, i: nat, ids: set<nat>)
    requires i <= |events| && forall id: nat :: id in ids <==> HoistedAt(events, offset, id)
    ensures FirstIs(events, offset, i, ids, Only(ScanAll(Before(events, i), offset).kept, ids, true))
  {
    hide FirstIs, ScanStep, ScanAll, Only, HoistedAt;
    if i == 0 {
      NoFirstYet(events, offset, ids);
    } else {
      FirstPart(events, offset, i - 1, ids);
      ScanNext(events, offset, i - 1);
      var now, ev := offset + i - 1, events[i - 1];
      var s := ScanAll(Before(events, i - 1), offset);
      ScanKeeps(s, now, ev);
      OnlyNext(s.kept, (now, Canonical(ev)), ids, true);
      FirstNext(events, offset, i - 1, ids, Only(s.kept, ids, true));
      HoistedNow(events, offset, i - 1);
      assert Only(s.kept, ids, true) + [] == Only(s.kept, ids, true);
    }
  }

  lemma {:induction false} NoFirstYet(events: seq<Event>, offset: nat, ids: set<nat>)
    requires forall id: nat :: id in ids <==> HoistedAt(events, offset, id)
    ensures FirstIs(events, offset, 0, ids, Only(ScanAll(Before(events, 0), offset).kept, ids, true))
  {
  }

  /** What the whole normalised order holds once `i` events have been scanned. */
  ghost predicate OrderIs(events: seq<Event>, offset: nat, i: nat, ids: set<nat>, items: Items) {
    && DistinctIds(items, offset) && ItemsEarlier(items, offset)
    && (forall k: nat :: k < |items| ==> items[k].0 in ids || items[k].0 < offset + i)
    && (forall id: nat :: id in ids ==> HasId(items, id))
    && (forall id: nat :: Mentionable(events, offset, i, id) && id >= offset ==> HasId(items, id))
  }

  lemma {:induction false} WholeOrder(events: seq<Event>, offset: nat, i: nat, ids: set<nat>, first: Items)
    requires i <= |events| && RefsEarlier(events, offset)
    requires forall id: nat :: id in ids <==> HoistedAt(events, offset, id)
    requires FirstIs(events, offset, |events|, ids, first)
    ensures OrderIs(events, offset, i, ids, first + Only(ScanAll(Before(events, i), offset).kept, ids, false))
  {
    hide ScanAll, Only, ScanStep, OrderIs, FirstIs, HoistedAt, RefsEarlier, IsRedundant;
    if i == 0 {
      NoRestYet(events, offset, ids, first);
      assert first + [] == first;
    } else {
      WholeOrder(events, offset, i - 1, ids, first);
      ScanNext(events, offset, i - 1);
      var now, ev := offset + i - 1, events[i - 1];
      var s := ScanAll(Before(events, i - 1), offset);
      ScanKeeps(s, now, ev);
      OnlyNext(s.kept, (now, Canonical(ev)), ids, false);
      HoistedNow(events, offset, i - 1);
      var rest := Only(s.kept, ids, false);
      var items := first + rest;
      if IsRedundant(s.private, ev) || Hoistable(ev) {
        assert rest + [] == rest;
        PrefixMentions(events, offset, i, s.private, ids, items);
      } else {
        OrderNext(events, offset, i - 1, ids, items);
        assert first + (rest + [(now, ev)]) == items + [(now, ev)];
      }
    }
  }

  lemma {:induction false} NoRestYet(events: seq<Event>, offset: nat, ids: set<nat>, first: Items)
    requires forall id: nat :: id in ids <==> HoistedAt(events, offset, id)
    requires FirstIs(events, offset, |events|, ids, first)
    ensures Only(ScanAll(Before(events, 0), offset).kept, ids, false) == [] && OrderIs(events, offset, 0, ids, first)
  {
  }

  lemma {:induction false} PrefixMentions(events: seq<Event>, offset: nat, i: nat, private: map<nat, Fields>,
      ids: set<nat>, items: Items)
    requires 0 < i <= |events| && (IsRedundant(private, events[i - 1]) || Hoistable(events[i - 1]))
    requires forall id: nat :: id in ids <==> HoistedAt(events, offset, id)
    requires OrderIs(events, offset, i - 1, ids, items)
    ensures OrderIs(events, offset, i, ids, items)
  {
    forall id: nat | Mentionable(events, offset, i, id) && id >= offset ensures HasId(items, id) {
      if id < offset + i - 1 { assert Mentionable(events, offset, i - 1, id); }
    }
  }

  lemma {:induction false} OrderNext(events: seq<Event>, offset: nat, i: nat, ids: set<nat>, items: Items)
    requires i < |events| && RefsEarlier(events, offset) && !Hoistable(events[i])
    requires forall id: nat :: id in ids <==> HoistedAt(events, offset, id)
    requires OrderIs(events, offset, i, ids, items)
    ensures OrderIs(events, offset, i + 1, ids, items + [(offset + i, events[i])])
  {
    var item := (offset + i, events[i]);
    var longer := items + [item];
    forall id: nat ensures HasId(longer, id) <==> HasId(items, id) || id == offset + i { HasIdNext(items, item, id); }
    forall id: nat | id in EventRefs(item.1) ensures id < offset || HasId(items, id) {
      assert Mentionable(events, offset, i, id);
    }
    EarlierNext(items, item, offset);
    forall id: nat | Mentionable(events, offset, i + 1, id) && id >= offset ensures HasId(longer, id) {
      if id < offset + i { assert Mentionable(events, offset, i, id); }
    }
    assert offset + i !in ids;
  }

  /** The normalised order of a sensible segment. */
  lemma {:induction false} HoistedOrder(events: seq<Event>, offset: nat)
    requires RefsEarlier(events, offset)
    ensures OrderIs(events, offset, |events|, ScanAll(events, offset).allocations, Hoisted(ScanAll(events, offset)))
  {
    AllocationsAre(events, offset);
    assert Before(events, |events|) == events;
    FirstPart(events, offset, |events|, ScanAll(events, offset).allocations);
    WholeOrder(events, offset, |events|, ScanAll(events, offset).allocations,
               Only(ScanAll(events, offset).kept, ScanAll(events, offset).allocations, true));
  }

  lemma {:induction false} OnlyFrom(items: Items, ids: set<nat>, inside: bool, it: (nat, Event))
    requires it in Only(items, ids, inside)
    ensures it in items && (it.0 in ids) == inside
  {
    if items != [] {
      var n := |items| - 1;
      if it in Only(items[..n], ids, inside) { OnlyFrom(items[..n], ids, inside, it); }
    }
  }

  // ----- the numbering -----

  lemma {:induction false} NumberIs(items: Items, offset: nat, k: nat)
    requires DistinctIds(items, offset) && k < |items|
    ensures items[k].0 in NumberFrom(items, offset) && NumberFrom(items, offset)[items[k].0] == offset + k
  {
    var n := |items| - 1;
    if k < n {
      assert DistinctIds(items[..n], offset);
      NumberIs(items[..n], offset, k);
    }
  }

  lemma {:induction false} NumberedIds(items: Items, offset: nat, id: nat)
    ensures id in NumberFrom(items, offset) <==> HasId(items, id)
  {
    if items != [] {
      var n := |items| - 1;
      NumberedIds(items[..n], offset, id);
      HasIdNext(items[..n], items[n], id);
      assert items == items[..n] + [items[n]];
    }
  }

  /** After renumbering, the event at a place mentions only earlier places. */
  lemma {:induction false} RenumberedEarlier(items: Items, offset: nat, k: nat, id: nat)
    requires DistinctIds(items, offset) && ItemsEarlier(items, offset) && k < |items|
    requires id in EventRefs(items[k].1)
    ensures id < offset ==> NewId(NumberFrom(items, offset), id) == id
    ensures id >= offset ==>
        exists j: nat :: j < k && items[j].0 == id && NewId(NumberFrom(items, offset), id) == offset + j
  {
    NumberedIds(items, offset, id);
    if id >= offset {
      assert HasId(items[..k], id);
      var j: nat :| j < |items[..k]| && items[..k][j].0 == id;
      assert items[j].0 == id;
      NumberIs(items, offset, j);
    }
  }

  // ----- renumbered runs -----

  ghost predicate EnvsMatch(items: Items, offset: nat, k: nat, env: Env, env': Env) {
    && (forall s: nat :: s < offset ==> (s in env <==> s in env') && (s in env ==> env[s] == env'[s]))
    && (forall j: nat ::
      j < k && j < |items| ==> items[j].0 in env && offset + j in env' && env[items[j].0] == env'[offset + j])
  }

  /** A term's value under the new numbering. */
  lemma {:induction false} RemapEval(params: seq<Val>, env: Env, env': Env, m: Numbering, t: Term)
    requires forall s: nat :: s in TermRefs(t) ==>
      (s in env <==> NewId(m, s) in env') && (s in env ==> env[s] == env'[NewId(m, s)])
    ensures Eval(params, env, t) == Eval(params, env', RemapTerm(m, t))
  {
    if t.Value? || t.Result? { assert t.ev in TermRefs(t); }
  }

  lemma {:induction false} RemapEvalPack(params: seq<Val>, env: Env, env': Env, m: Numbering, p: Pack)
    requires forall s: nat :: s in PackRefs(p) ==>
      (s in env <==> NewId(m, s) in env') && (s in env ==> env[s] == env'[NewId(m, s)])
    ensures EvalPack(params, env, p) == EvalPack(params, env', RemapPack(m, p))
  {
    forall i | 0 <= i < |p.items|
      ensures Eval(params, env, p.items[i]) == Eval(params, env', RemapTerm(m, p.items[i]))
    {
      assert p.items[i] in p.items;
      RemapEval(params, env, env', m, p.items[i]);
    }
    assert EvalAll(params, env, p.items) == EvalAll(params, env', RemapTerms(m, p.items));
    if p.tail.Some? { assert p.tail.value in PackRefs(p); }
  }

  lemma {:induction false} RemapRequest(params: seq<Val>, env: Env, env': Env, m: Numbering, ev: Event)
    requires forall s: nat :: s in EventRefs(ev) ==>
      (s in env <==> NewId(m, s) in env') && (s in env ==> env[s] == env'[NewId(m, s)])
    ensures RequestOf(params, env, ev) == RequestOf(params, env', RemapEvent(m, ev))
  {
    match ev
    case SetTable(t, k, v) =>
      RemapEval(params, env, env', m, t);
      RemapEval(params, env, env', m, k);
      RemapEval(params, env, env', m, v);
    case MakeClosure(_, _, _, captures) =>
      var renamed := RemapCaptures(m, captures);
      forall i | 0 <= i < |captures|
        ensures EvalCapture(params, env, captures[i]) == EvalCapture(params, env', renamed[i])
      {
        assert captures[i] in captures;
        if captures[i].Copied? { RemapEval(params, env, env', m, captures[i].t); }
      }
      assert EvalCaptures(params, env, captures) == EvalCaptures(params, env', renamed);
    case Operation(_, _, args) => RemapEvalPack(params, env, env', m, args);
    case _ =>
  }

  /** The address a renumbered event uses: that of the event it was. */
  function Moved(loc: nat -> int, items: Items, offset: nat): nat -> int {
    (id: nat) => if offset <= id < offset + |items| then loc(items[id - offset].0) else loc(id)
  }

  lemma {:induction false} MatchNext(items: Items, offset: nat, i: nat, env: Env, env': Env, reply: Reply)
    requires i < |items| && DistinctIds(items, offset) && EnvsMatch(items, offset, i, env, env')
    ensures EnvsMatch(items, offset, i + 1, env[items[i].0 := reply], env'[offset + i := reply])
  {
    var next, next' := env[items[i].0 := reply], env'[offset + i := reply];
    forall j: nat | j < i + 1
      ensures items[j].0 in next && offset + j in next' && next[items[j].0] == next'[offset + j]
    {
      if j < i { assert items[j].0 != items[i].0; }
    }
  }

  lemma {:induction false} RenumberedStep(w: World, loc: nat -> int, params: seq<Val>, items: Items, offset: nat,
      i: nat, a: Config, b: Config)
    requires i < |items| && DistinctIds(items, offset) && ItemsEarlier(items, offset)
    requires a.mem == b.mem && EnvsMatch(items, offset, i, a.env, b.env)
    ensures var a' := ItemStep(w, loc, params, a, items[i]);
            var b' := ItemStep(w, Moved(loc, items, offset), params, b,
              (offset + i, RemapEvent(NumberFrom(items, offset), items[i].1)));
            a'.mem == b'.mem && EnvsMatch(items, offset, i + 1, a'.env, b'.env)
  {
    hide Perform, RequestOf, RemapEvent, ItemsEarlier, EnvsMatch, DistinctIds, NumberFrom, EventRefs;
    var m := NumberFrom(items, offset);
    assert Moved(loc, items, offset)(offset + i) == loc(items[i].0);
    forall s: nat | s in EventRefs(items[i].1)
      ensures (s in a.env <==> NewId(m, s) in b.env) && (s in a.env ==> a.env[s] == b.env[NewId(m, s)])
    {
      MentionsMatch(items, offset, i, a.env, b.env, s);
    }
    RemapRequest(params, a.env, b.env, m, items[i].1);
    var request := RequestOf(params, a.env, items[i].1);
    MatchNext(items, offset, i, a.env, b.env, Perform(w, loc(items[i].0), a.mem, request).1);
  }

  lemma {:induction false} MentionsMatch(items: Items, offset: nat, i: nat, env: Env, env': Env, s: nat)
    requires i < |items| && DistinctIds(items, offset) && ItemsEarlier(items, offset)
    requires EnvsMatch(items, offset, i, env, env') && s in EventRefs(items[i].1)
    ensures var n := NewId(NumberFrom(items, offset), s); (s in env <==> n in env') && (s in env ==> env[s] == env'[n])
  {
    hide ItemsEarlier, NumberFrom;
    RenumberedEarlier(items, offset, i, s);
  }

  lemma {:induction false} RenumberedRun(w: World, loc: nat -> int, params: seq<Val>, c: Config, items: Items,
      offset: nat, k: nat)
    requires k <= |items| && DistinctIds(items, offset) && ItemsEarlier(items, offset)
    ensures var m := NumberFrom(items, offset);
            var a := RunItems(w, loc, params, c, items[..k]);
            var b := RunItems(w, Moved(loc, items, offset), params, c, Numbered(RemapItems(m, items), offset)[..k]);
            a.mem == b.mem && EnvsMatch(items, offset, k, a.env, b.env)
  {
    hide ItemStep, RemapEvent, ItemsEarlier, DistinctIds, NumberFrom;
    var items' := Numbered(RemapItems(NumberFrom(items, offset), items), offset);
    if k > 0 {
      var i := k - 1;
      RenumberedRun(w, loc, params, c, items, offset, i);
      assert items[..k] == items[..i] + [items[i]] && items'[..k] == items'[..i] + [items'[i]];
      RunNext(w, loc, params, c, items[..i], items[i]);
      RunNext(w, Moved(loc, items, offset), params, c, items'[..i], items'[i]);
      RenumberedStep(w, loc, params, items, offset, i, RunItems(w, loc, params, c, items[..i]),
                     RunItems(w, Moved(loc, items, offset), params, c, items'[..i]));
    }
  }

  /** Every mention in a normalised segment points to an earlier event that has a value. */
  lemma {:induction false} NormalRefsEarlier(events: seq<Event>, offset: nat)
    requires RefsEarlier(events, offset)
    ensures forall k: nat, id: nat ::
        k < |NormalEvents(events, offset)| && id in EventRefs(NormalEvents(events, offset)[k]) ==> id < offset + k
  {
    HoistedOrder(events, offset);
    var items := Hoisted(ScanAll(events, offset));
    var m := NumberFrom(items, offset);
    forall k: nat, id: nat | k < |items| && id in EventRefs(RemapEvent(m, items[k].1)) ensures id < offset + k {
      var s := RemappedFrom(m, items[k].1, id);
      RenumberedEarlier(items, offset, k, s);
    }
  }

  lemma {:induction false} RemappedTermFrom(m: Numbering, t: Term, id: nat) returns (s: nat)
    requires id in TermRefs(RemapTerm(m, t))
    ensures s in TermRefs(t) && NewId(m, s) == id
  {
    s := t.ev;
  }

  lemma {:induction false} RemappedFrom(m: Numbering, ev: Event, id: nat) returns (s: nat)
    requires id in EventRefs(RemapEvent(m, ev))
    ensures s in EventRefs(ev) && NewId(m, s) == id
  {
    match ev
    case SetTable(t, k, v) =>
      if id in TermRefs(RemapTerm(m, t)) { s := RemappedTermFrom(m, t, id); }
      else if id in TermRefs(RemapTerm(m, k)) { s := RemappedTermFrom(m, k, id); }
      else { s := RemappedTermFrom(m, v, id); }
    case MakeClosure(_, _, _, captures) =>
      var renamed := RemapCaptures(m, captures);
      var c :| c in renamed && c.Copied? && id in TermRefs(c.t);
      var i :| 0 <= i < |renamed| && renamed[i] == c;
      s := RemappedTermFrom(m, captures[i].t, id);
      assert captures[i] in captures;
    case Operation(_, _, args) =>
      if args.tail.Some? && id == NewId(m, args.tail.value) {
        s := args.tail.value;
      } else {
        var renamed := RemapTerms(m, args.items);
        var t :| t in renamed && id in TermRefs(t);
        var i :| 0 <= i < |renamed| && renamed[i] == t;
        s := RemappedTermFrom(m, args.items[i], id);
        assert args.items[i] in args.items;
      }
    case _ => s := id;
  }

  /** Normalisation is sound: from any start the segment and its normal form leave the same
      history, tables and returned values, when each table is born at the address its event
      had before. */
  lemma {:induction false} NormalizeSound(w: World, loc: nat -> int, params: seq<Val>, c: Config, events: seq<Event>,
      pack: Pack, offset: nat)
    requires RefsEarlier(events, offset) && FreshStart(c, loc, offset, |events|)
    requires forall id: nat :: id in PackRefs(pack) ==> Mentionable(events, offset, |events|, id)
    ensures var items := Hoisted(ScanAll(events, offset));
            SameOutcome(params, RunItems(w, loc, params, c, Numbered(events, offset)), pack,
                        RunItems(w, Moved(loc, items, offset), params, c,
                          Numbered(NormalEvents(events, offset), offset)),
                        NormalPack(events, pack, offset))
  {
    hide RunItems, ScanAll, RemapEvent, NumberFrom, ItemsEarlier, FreshStart, RefsEarlier;
    var items := Hoisted(ScanAll(events, offset));
    var m := NumberFrom(items, offset);
    HoistedSound(w, loc, params, c, events, pack, offset);
    HoistedOrder(events, offset);
    RenumberedRun(w, loc, params, c, items, offset, |items|);
    assert items[..|items|] == items;
    var normal := Numbered(RemapItems(m, items), offset);
    assert normal[..|items|] == normal;
    var a, b := RunItems(w, loc, params, c, items), RunItems(w, Moved(loc, items, offset), params, c, normal);
    forall s: nat | s in PackRefs(pack)
      ensures (s in a.env <==> NewId(m, s) in b.env) && (s in a.env ==> a.env[s] == b.env[NewId(m, s)])
    {
      if s >= offset { assert Mentionable(events, offset, |events|, s); }
      ItemMatches(items, offset, a.env, b.env, s);
    }
    RemapEvalPack(params, a.env, b.env, m, pack);
  }

  lemma {:induction false} ItemMatches(items: Items, offset: nat, env: Env, env': Env, s: nat)
    requires DistinctIds(items, offset) && EnvsMatch(items, offset, |items|, env, env')
    requires s < offset || HasId(items, s)
    ensures var n := NewId(NumberFrom(items, offset), s); (s in env <==> n in env') && (s in env ==> env[s] == env'[n])
  {
    hide NumberFrom;
    NumberedIds(items, offset, s);
    if s >= offset {
      var j: nat :| j < |items| && items[j].0 == s;
      NumberIs(items, offset, j);
    }
  }
}
