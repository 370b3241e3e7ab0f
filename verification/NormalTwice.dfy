/** Normalising a second time changes nothing: the scan of a normal form drops no store,
    moves no allocation and renumbers every event to itself. */
module NormalTwice {
  import opened Options
  import opened Events
  import opened PrivateTables
  import opened SegmentRuns
  import opened NormalSound
  import opened NormalForm

  // ----- renumbering keeps identities apart -----

  predicate Placed(items: Items, offset: nat, id: nat) {
    id < offset || exists j :: 0 <= j < |items| && items[j].0 == id
  }

  lemma {:induction false} NumberingApart(items: Items, offset: nat, a: nat, b: nat)
    requires DistinctIds(items, offset) && Placed(items, offset, a) && Placed(items, offset, b)
    requires NewId(NumberFrom(items, offset), a) == NewId(NumberFrom(items, offset), b)
    ensures a == b
  {
    hide NumberFrom;
    NumberedIds(items, offset, a);
    NumberedIds(items, offset, b);
    if HasId(items, a) { var j: nat :| j < |items| && items[j].0 == a; NumberIs(items, offset, j); }
    if HasId(items, b) { var j: nat :| j < |items| && items[j].0 == b; NumberIs(items, offset, j); }
  }

  // ----- private fields in the two scans -----

  ghost predicate FieldsMatch(m: Numbering, f: Fields, f': Fields) {
    f.Keys == f'.Keys && forall k :: k in f ==> k.Const? && f'[k] == RemapTerm(m, f[k])
  }

  function InitialFields(ev: Event): Fields { if ev.DupTable? then TemplateFields(ev.fields) else map[] }

  lemma {:induction false} TemplateConstant(fields: seq<(Constant, Constant)>)
    ensures forall k :: k in TemplateFields(fields) ==> k.Const? && TemplateFields(fields)[k].Const?
  {
    if fields != [] { TemplateConstant(fields[..|fields| - 1]); }
  }

  lemma {:induction false} InitialMatch(m: Numbering, ev: Event)
    ensures FieldsMatch(m, InitialFields(ev), InitialFields(ev))
  {
    if ev.DupTable? { TemplateConstant(ev.fields); }
  }

  /** How the table born by `id` stands in the two scans: alike once both have passed its
      birth, and untouched in the second, where it was born at once, until then. */
  ghost predicate SlotMatches(m: Numbering, events: seq<Event>, offset: nat, now: nat, private: map<nat, Fields>,
                              private': map<nat, Fields>, id: nat)
    requires HoistedAt(events, offset, id)
  {
    if id < now then (id in private <==> NewId(m, id) in private') &&
      (id in private ==> FieldsMatch(m, private[id], private'[NewId(m, id)]))
    else NewId(m, id) in private' && FieldsMatch(m, InitialFields(EventAt(events, offset, id)), private'[NewId(m, id)])
  }

  predicate HoistedTo(m: Numbering, events: seq<Event>, offset: nat, n: nat, id: nat) {
    HoistedAt(events, offset, id) && NewId(m, id) == n
  }

  ghost predicate PrivateMatches(m: Numbering, events: seq<Event>, offset: nat, now: nat, private: map<nat, Fields>,
      private': map<nat, Fields>)
  {
    && (forall id: nat :: id in private ==> id < now && HoistedAt(events, offset, id))
    && (forall n: nat :: n in private' ==> exists id: nat :: HoistedTo(m, events, offset, n, id))
    && (forall id: nat :: HoistedAt(events, offset, id) ==> SlotMatches(m, events, offset, now, private, private', id))
  }

  /** Nothing renumbers onto a hoisted table but that table. */
  ghost predicate Separate(m: Numbering, events: seq<Event>, offset: nat, now: nat) {
    forall id: nat, s: nat ::
      HoistedAt(events, offset, id) && MayMention(events, offset, now, s) && NewId(m, s) == NewId(m, id) ==> s == id
  }

  predicate MayMention(events: seq<Event>, offset: nat, now: nat, s: nat) {
    now >= offset && Mentionable(events, offset, now - offset, s)
  }

  lemma {:induction false} PrivateAlike(m: Numbering, events: seq<Event>, offset: nat, now: nat,
      private: map<nat, Fields>, private': map<nat, Fields>, t: nat)
    requires PrivateMatches(m, events, offset, now, private, private') && Separate(m, events, offset, now)
    requires MayMention(events, offset, now, t)
    ensures NewId(m, t) in private' <==> t in private
    ensures t in private ==> FieldsMatch(m, private[t], private'[NewId(m, t)])
  {
    if NewId(m, t) in private' {
      var id: nat :| HoistedTo(m, events, offset, NewId(m, t), id);
      assert t == id && SlotMatches(m, events, offset, now, private, private', t);
    }
    if t in private { assert SlotMatches(m, events, offset, now, private, private', t); }
  }

  /** A store is redundant in the second scan just when it is in the first. */
  lemma {:induction false} RedundantAlike(m: Numbering, events: seq<Event>, offset: nat, now: nat,
      private: map<nat, Fields>, private': map<nat, Fields>, ev: Event)
    requires PrivateMatches(m, events, offset, now, private, private') && Separate(m, events, offset, now)
    requires forall s: nat :: s in EventRefs(ev) ==> MayMention(events, offset, now, s)
    ensures IsRedundant(private', RemapEvent(m, ev)) <==> IsRedundant(private, ev)
    ensures ev.SetTable? && ev.table.Value? ==> (NewId(m, ev.table.ev) in private' <==> ev.table.ev in private)
  {
    hide PrivateMatches, Separate, MayMention, NewId;
    if ev.SetTable? && ev.table.Value? {
      assert ev.table.ev in EventRefs(ev);
      PrivateAlike(m, events, offset, now, private, private', ev.table.ev);
    }
  }

  // ----- one event, in both scans -----

  lemma {:induction false} RemapRefs(m: Numbering, ev: Event, n: nat)
    ensures n in EventRefs(RemapEvent(m, ev)) <==> exists s: nat :: s in EventRefs(ev) && NewId(m, s) == n
  {
    if n in EventRefs(RemapEvent(m, ev)) { var s := RemappedFrom(m, ev, n); }
    if s: nat :| s in EventRefs(ev) && NewId(m, s) == n { RemappedTo(m, ev, s); }
  }

  lemma {:induction false} RemapTermRefs(m: Numbering, t: Term, n: nat)
    ensures n in TermRefs(RemapTerm(m, t)) <==> exists s: nat :: s in TermRefs(t) && NewId(m, s) == n
  {
    if t.Value? || t.Result? { assert t.ev in TermRefs(t); }
  }

  lemma {:induction false} RemappedTo(m: Numbering, ev: Event, s: nat)
    requires s in EventRefs(ev)
    ensures NewId(m, s) in EventRefs(RemapEvent(m, ev))
  {
    match ev
    case MakeClosure(_, _, _, captures) =>
      var c :| c in captures && c.Copied? && s in TermRefs(c.t);
      var i :| 0 <= i < |captures| && captures[i] == c;
      var caught := RemapCaptures(m, captures);
      assert caught[i] in caught && caught[i].Copied? && NewId(m, s) in TermRefs(caught[i].t);
    case Operation(_, _, args) =>
      if args.tail != Some(s) {
        var t :| t in args.items && s in TermRefs(t);
        var i :| 0 <= i < |args.items| && args.items[i] == t;
        var renamed := RemapTerms(m, args.items);
        assert renamed[i] in renamed && NewId(m, s) in TermRefs(renamed[i]);
      }
    case _ =>
  }

  /** Escaping corresponds: what the renumbered event gives away is what the event does. */
  ghost predicate SameEscapes(m: Numbering, escaped: set<nat>, escaped': set<nat>) {
    forall n: nat :: n in escaped' <==> exists s: nat :: s in escaped && NewId(m, s) == n
  }

  lemma {:induction false} EscapeAlike(m: Numbering, events: seq<Event>, offset: nat, now: nat,
      private: map<nat, Fields>, private': map<nat, Fields>, escaped: set<nat>, escaped': set<nat>)
    requires PrivateMatches(m, events, offset, now, private, private') && Separate(m, events, offset, now)
    requires SameEscapes(m, escaped, escaped') && forall s: nat :: s in escaped ==> MayMention(events, offset, now, s)
    ensures PrivateMatches(m, events, offset, now, Without(private, escaped), Without(private', escaped'))
  {
    var after, after' := Without(private, escaped), Without(private', escaped');
    forall id: nat | HoistedAt(events, offset, id) ensures SlotMatches(m, events, offset, now, after, after', id) {
      assert SlotMatches(m, events, offset, now, private, private', id);
      if NewId(m, id) in escaped' {
        var s: nat :| s in escaped && NewId(m, s) == NewId(m, id);
        assert s == id && MayMention(events, offset, now, id);
      }
    }
  }

  lemma {:induction false} StoreAlike(m: Numbering, events: seq<Event>, offset: nat, now: nat,
      private: map<nat, Fields>, private': map<nat, Fields>, t: nat, key: Term, value: Term)
    requires PrivateMatches(m, events, offset, now, private, private') && Separate(m, events, offset, now)
    requires MayMention(events, offset, now, t) && t in private && NewId(m, t) in private' && key.Const?
    ensures PrivateMatches(m, events, offset, now, private[t := private[t][key := value]],
                           private'[NewId(m, t) := private'[NewId(m, t)][key := RemapTerm(m, value)]])
  {
    hide RemapTerm;
    var n := NewId(m, t);
    var f, f' := private[t][key := value], private'[n][key := RemapTerm(m, value)];
    var after, after' := private[t := f], private'[n := f'];
    PrivateAlike(m, events, offset, now, private, private', t);
    assert FieldsMatch(m, f, f') && SlotMatches(m, events, offset, now, private, private', t);
    forall id: nat | HoistedAt(events, offset, id) ensures SlotMatches(m, events, offset, now, after, after', id) {
      SlotAfterStore(m, events, offset, now, private, private', t, f, f', id);
    }
  }

  lemma {:induction false} SlotAfterStore(m: Numbering, events: seq<Event>, offset: nat, now: nat,
      private: map<nat, Fields>, private': map<nat, Fields>, t: nat, f: Fields, f': Fields, id: nat)
    requires PrivateMatches(m, events, offset, now, private, private') && Separate(m, events, offset, now)
    requires MayMention(events, offset, now, t) && t in private && HoistedAt(events, offset, id)
    requires FieldsMatch(m, f, f')
    ensures SlotMatches(m, events, offset, now, private[t := f], private'[NewId(m, t) := f'], id)
  {
    hide FieldsMatch, MayMention, NewId;
    assert SlotMatches(m, events, offset, now, private, private', id);
    if NewId(m, id) == NewId(m, t) { assert t == id; }
  }

  lemma {:induction false} KeptAlike(m: Numbering, events: seq<Event>, offset: nat, now: nat, private: map<nat, Fields>,
      private': map<nat, Fields>, ev: Event, n: nat)
    requires PrivateMatches(m, events, offset, now, private, private') && Separate(m, events, offset, now)
    requires !Hoistable(ev)
    requires forall s: nat :: s in EventRefs(ev) ==> MayMention(events, offset, now, s)
    ensures PrivateMatches(m, events, offset, now, PrivateAfter(private, now, ev),
        PrivateAfter(private', n, RemapEvent(m, ev)))
  {
    hide PrivateMatches, Separate, MayMention;
    var ev' := RemapEvent(m, ev);
    RedundantAlike(m, events, offset, now, private, private', ev);
    if ev.SetTable? && ev.table.Value? && ev.table.ev in private {
      var t := ev.table.ev;
      var escaped, escaped' := TermRefs(ev.key) + TermRefs(ev.value), TermRefs(ev'.key) + TermRefs(ev'.value);
      forall k: nat ensures k in escaped' <==> exists s: nat :: s in escaped && NewId(m, s) == k {
        RemapTermRefs(m, ev.key, k);
        RemapTermRefs(m, ev.value, k);
      }
      if ev.key.Const? && ev.key.k.Str? {
        StoreAlike(m, events, offset, now, private, private', t, ev.key, ev.value);
        EscapeAlike(m, events, offset, now, private[t := private[t][ev.key := ev.value]],
                    private'[NewId(m, t) := private'[NewId(m, t)][ev.key := ev'.value]], escaped, escaped');
      } else {
        EscapeAlike(m, events, offset, now, private, private', escaped + {t}, escaped' + {NewId(m, t)});
      }
    } else {
      forall k: nat
        ensures k in EventRefs(ev') <==> exists s: nat :: s in EventRefs(ev) && NewId(m, s) == k
      {
        RemapRefs(m, ev, k);
      }
      EscapeAlike(m, events, offset, now, private, private', EventRefs(ev), EventRefs(ev'));
    }
  }

  /** Passing a birth changes nothing in the second scan. */
  lemma {:induction false} BirthAlike(m: Numbering, events: seq<Event>, offset: nat, now: nat,
      private: map<nat, Fields>, private': map<nat, Fields>)
    requires offset <= now < offset + |events| && PrivateMatches(m, events, offset, now, private, private')
    ensures Hoistable(EventAt(events, offset, now)) ==>
              PrivateMatches(m, events, offset, now + 1, private[now := InitialFields(EventAt(events, offset, now))],
                private')
    ensures !Hoistable(EventAt(events, offset, now)) ==> PrivateMatches(m, events, offset, now + 1, private, private')
  {
    var ev := EventAt(events, offset, now);
    var after := if Hoistable(ev) then private[now := InitialFields(ev)] else private;
    forall id: nat | HoistedAt(events, offset, id)
      ensures SlotMatches(m, events, offset, now + 1, after, private', id)
    {
      assert SlotMatches(m, events, offset, now, private, private', id);
    }
  }

  // ----- the second scan -----

  /** A scan that kept everything, and has allocated exactly the first `born` events. */
  ghost predicate KeptAll(s: Scan, events: seq<Event>, offset: nat, born: nat) {
    && s.kept == Numbered(events, offset)
    && forall id: nat :: id in s.allocations <==> offset <= id < offset + born
  }

  lemma {:induction false} KeptMore(s: Scan, events: seq<Event>, offset: nat, ev: Event, born: nat)
    requires !IsRedundant(s.private, ev) && Canonical(ev) == ev && KeptAll(s, events, offset, born)
    requires Hoistable(ev) ==> born == |events|
    ensures ScanStep(s, offset + |events|, ev).private == PrivateAfter(s.private, offset + |events|, ev)
    ensures KeptAll(ScanStep(s, offset + |events|, ev), events + [ev], offset, if Hoistable(ev) then born + 1 else born)
  {
    assert Numbered(events + [ev], offset) == Numbered(events, offset) + [(offset + |events|, ev)];
  }

  lemma {:induction false} ScanGrows(events: seq<Event>, offset: nat, ev: Event)
    ensures ScanAll(events + [ev], offset) == ScanStep(ScanAll(events, offset), offset + |events|, ev)
  {
    assert (events + [ev])[..|events|] == events;
  }

  lemma {:induction false} RemapGrows(m: Numbering, items: Items, item: (nat, Event))
    ensures RemapItems(m, items + [item]) == RemapItems(m, items) + [RemapEvent(m, item.1)]
  {
  }

  ghost predicate BornFields(items: Items, offset: nat, k: nat, private': map<nat, Fields>) {
    && (forall n: nat :: n in private' <==> offset <= n < offset + k)
    && (forall j: nat ::
      j < k && j < |items| ==> offset + j in private' && private'[offset + j] == InitialFields(items[j].1))
  }

  predicate AllHoistable(items: Items) { forall it :: it in items ==> Hoistable(it.1) && Canonical(it.1) == it.1 }

  lemma {:induction false} BornMore(items: Items, offset: nat, k: nat, private: map<nat, Fields>)
    requires k < |items| && BornFields(items, offset, k, private)
    ensures BornFields(items, offset, k + 1, private[offset + k := InitialFields(items[k].1)])
  {
    var after := private[offset + k := InitialFields(items[k].1)];
    forall j: nat | j < k + 1 ensures offset + j in after && after[offset + j] == InitialFields(items[j].1) { }
  }

  lemma {:induction false} FirstScanned(m: Numbering, first: Items, offset: nat, k: nat)
    requires k <= |first| && AllHoistable(first)
    ensures var s := ScanAll(RemapItems(m, first[..k]), offset);
            KeptAll(s, RemapItems(m, first[..k]), offset, k) && BornFields(first, offset, k, s.private)
  {
    hide KeptAll, BornFields, ScanStep, ScanAll, RemapItems;
    if k == 0 {
      NothingScanned(m, first, offset);
    } else {
      FirstScanned(m, first, offset, k - 1);
      var item, before := first[k - 1], RemapItems(m, first[..k - 1]);
      assert item in first && first[..k] == first[..k - 1] + [item];
      RemapGrows(m, first[..k - 1], item);
      ScanGrows(before, offset, item.1);
      assert |before| == k - 1 && RemapEvent(m, item.1) == item.1 by { RemapLength(m, first[..k - 1]); }
      KeptMore(ScanAll(before, offset), before, offset, item.1, k - 1);
      BornMore(first, offset, k - 1, ScanAll(before, offset).private);
    }
  }

  lemma {:induction false} NothingScanned(m: Numbering, first: Items, offset: nat)
    ensures var s := ScanAll(RemapItems(m, first[..0]), offset);
            KeptAll(s, RemapItems(m, first[..0]), offset, 0) && BornFields(first, offset, 0, s.private)
  {
  }

  // ----- both scans over the whole segment -----

  /** The hoisted allocations of a segment, and the renumbering its normal form uses. */
  function FirstOf(events: seq<Event>, offset: nat): Items {
    Only(ScanAll(events, offset).kept, ScanAll(events, offset).allocations, true)
  }

  function NumberingOf(events: seq<Event>, offset: nat): Numbering {
    NumberFrom(Hoisted(ScanAll(events, offset)), offset)
  }

  lemma {:induction false} Separation(events: seq<Event>, offset: nat, now: nat)
    requires RefsEarlier(events, offset) && offset <= now <= offset + |events|
    ensures Separate(NumberingOf(events, offset), events, offset, now)
  {
    hide NumberFrom, Hoisted, ScanAll, NewId, RefsEarlier;
    HoistedOrder(events, offset);
    AllocationsAre(events, offset);
    var items, m := Hoisted(ScanAll(events, offset)), NumberingOf(events, offset);
    forall id: nat, s: nat | HoistedAt(events, offset, id) && MayMention(events, offset, now, s) &&
      NewId(m, s) == NewId(m, id)
      ensures s == id
    {
      assert HasId(items, id);
      assert Mentionable(events, offset, |events|, s);
      NumberingApart(items, offset, s, id);
    }
  }

  lemma {:induction false} FirstFacts(events: seq<Event>, offset: nat)
    requires RefsEarlier(events, offset)
    ensures AllHoistable(FirstOf(events, offset))
    ensures forall id: nat :: HoistedAt(events, offset, id) ==> exists j: nat :: BornAsIn(events, offset, id, j)
    ensures forall j: nat :: j < |FirstOf(events, offset)| ==> BornAsIn(events, offset, FirstOf(events, offset)[j].0, j)
  {
    hide ScanAll, NumberFrom, RefsEarlier;
    var s, first, m := ScanAll(events, offset), FirstOf(events, offset), NumberingOf(events, offset);
    AllocationsAre(events, offset);
    assert Before(events, |events|) == events;
    FirstPart(events, offset, |events|, s.allocations);
    HoistedOrder(events, offset);
    forall j: nat | j < |first|
      ensures HoistedAt(events, offset, first[j].0) && BornAsIn(events, offset, first[j].0, j) && Hoistable(first[j].1)
      ensures Canonical(first[j].1) == first[j].1
    {
      OnlyFrom(s.kept, s.allocations, true, first[j]);
      assert first[j] in s.kept && Hoisted(s)[j] == first[j];
      NumberIs(Hoisted(s), offset, j);
    }
    forall id: nat | HoistedAt(events, offset, id) ensures exists j: nat :: BornAsIn(events, offset, id, j) {
      assert HasId(first, id);
      var j: nat :| j < |first| && first[j].0 == id;
      assert BornAsIn(events, offset, id, j);
    }
  }

  /** The table of `id` is the `j`th allocation of the normal form. */
  predicate BornAsIn(events: seq<Event>, offset: nat, id: nat, j: nat) {
    var first := FirstOf(events, offset);
    && j < |first| && first[j].0 == id && NewId(NumberingOf(events, offset), id) == offset + j
    && HoistedAt(events, offset, id) && first[j].1 == Canonical(EventAt(events, offset, id))
  }

  lemma {:induction false} StartAlike(events: seq<Event>, offset: nat, private': map<nat, Fields>)
    requires RefsEarlier(events, offset)
    requires BornFields(FirstOf(events, offset), offset, |FirstOf(events, offset)|, private')
    ensures PrivateMatches(NumberingOf(events, offset), events, offset, offset, map[], private')
  {
    hide ScanAll, NumberFrom, RefsEarlier, FirstOf, NumberingOf, NewId;
    var first, m := FirstOf(events, offset), NumberingOf(events, offset);
    FirstFacts(events, offset);
    forall id: nat | HoistedAt(events, offset, id) ensures SlotMatches(m, events, offset, offset, map[], private', id) {
      var j: nat :| BornAsIn(events, offset, id, j);
      assert private'[offset + j] == InitialFields(first[j].1);
      assert InitialFields(first[j].1) == InitialFields(EventAt(events, offset, id));
      InitialMatch(m, EventAt(events, offset, id));
    }
    forall n: nat | n in private' ensures exists id: nat :: HoistedTo(m, events, offset, n, id) {
      var j: nat := n - offset;
      assert BornAsIn(events, offset, first[j].0, j);
      assert HoistedTo(m, events, offset, n, first[j].0);
    }
  }

  /** What the second scan has done when the first has passed `i` events. */
  ghost predicate SecondScan(events: seq<Event>, offset: nat, i: nat, rest: Items, private: map<nat, Fields>) {
    var first, m := FirstOf(events, offset), NumberingOf(events, offset);
    var s := ScanAll(RemapItems(m, first + rest), offset);
    && KeptAll(s, RemapItems(m, first + rest), offset, |first|)
    && PrivateMatches(m, events, offset, offset + i, private, s.private)
  }

  lemma {:induction false} SecondStep(events: seq<Event>, offset: nat, i: nat, rest: Items, private: map<nat, Fields>)
    requires i < |events| && RefsEarlier(events, offset) && SecondScan(events, offset, i, rest, private)
    requires !Hoistable(events[i]) && !IsRedundant(private, events[i])
    ensures SecondScan(events, offset, i + 1, rest + [(offset + i, events[i])],
        PrivateAfter(private, offset + i, events[i]))
  {
    hide ScanAll, ScanStep, FirstOf, NumberingOf, RemapItems, KeptAll, PrivateMatches, PrivateAfter, Separate,
      IsRedundant;
    var first, m, ev := FirstOf(events, offset), NumberingOf(events, offset), events[i];
    var before := RemapItems(m, first + rest);
    var s, item := ScanAll(before, offset), (offset + i, ev);
    Separation(events, offset, offset + i);
    RedundantAlike(m, events, offset, offset + i, private, s.private, ev);
    assert first + (rest + [item]) == (first + rest) + [item];
    RemapGrows(m, first + rest, item);
    ScanGrows(before, offset, RemapEvent(m, ev));
    KeptMore(s, before, offset, RemapEvent(m, ev), |first|);
    KeptAlike(m, events, offset, offset + i, private, s.private, ev, offset + |before|);
    BirthAlike(m, events, offset, offset + i, PrivateAfter(private, offset + i, ev),
      PrivateAfter(s.private, offset + |before|, RemapEvent(m, ev)));
  }

  lemma {:induction false} SecondSkips(events: seq<Event>, offset: nat, i: nat, rest: Items, private: map<nat, Fields>)
    requires i < |events| && SecondScan(events, offset, i, rest, private)
    ensures Hoistable(events[i]) ==>
        SecondScan(events, offset, i + 1, rest, private[offset + i := InitialFields(events[i])])
    ensures !Hoistable(events[i]) ==> SecondScan(events, offset, i + 1, rest, private)
  {
    hide ScanAll, FirstOf, NumberingOf, RemapItems, KeptAll, PrivateMatches;
    var first, m := FirstOf(events, offset), NumberingOf(events, offset);
    BirthAlike(m, events, offset, offset + i, private, ScanAll(RemapItems(m, first + rest), offset).private);
  }

  lemma {:induction false} BothScans(events: seq<Event>, offset: nat, i: nat)
    requires i <= |events| && RefsEarlier(events, offset)
    ensures var s := ScanAll(Before(events, i), offset);
            SecondScan(events, offset, i, Only(s.kept, ScanAll(events, offset).allocations, false), s.private)
  {
    hide SecondScan, ScanAll, ScanStep, Only, RefsEarlier, PrivateAfter, IsRedundant, HoistedAt;
    var ids := ScanAll(events, offset).allocations;
    AllocationsAre(events, offset);
    if i == 0 {
      SecondStarts(events, offset);
    } else {
      BothScans(events, offset, i - 1);
      ScanNext(events, offset, i - 1);
      var s, now, ev := ScanAll(Before(events, i - 1), offset), offset + i - 1, events[i - 1];
      var rest := Only(s.kept, ids, false);
      ScanKeeps(s, now, ev);
      ScanPrivate(s, now, ev);
      OnlyNext(s.kept, (now, Canonical(ev)), ids, false);
      HoistedNow(events, offset, i - 1);
      SecondSkips(events, offset, i - 1, rest, s.private);
      if Hoistable(ev) {
        assert rest + [] == rest;
        assert PrivateAfter(s.private, now, ev)
          == s.private[now := InitialFields(ev)] by { AfterBirth(s.private, now, ev); }
      } else if !IsRedundant(s.private, ev) {
        SecondStep(events, offset, i - 1, rest, s.private);
      }
    }
  }

  lemma {:induction false} AfterBirth(private: map<nat, Fields>, id: nat, ev: Event)
    requires Hoistable(ev)
    ensures PrivateAfter(private, id, ev) == private[id := InitialFields(ev)]
  {
  }

  lemma {:induction false} SecondStarts(events: seq<Event>, offset: nat)
    requires RefsEarlier(events, offset)
    ensures ScanAll(Before(events, 0), offset) == Scan(map[], {}, [])
    ensures SecondScan(events, offset, 0, Only([], ScanAll(events, offset).allocations, false), map[])
  {
    hide KeptAll, BornFields, PrivateMatches, RemapItems, FirstOf, NumberingOf;
    var first, m := FirstOf(events, offset), NumberingOf(events, offset);
    FirstFacts(events, offset);
    FirstScanned(m, first, offset, |first|);
    assert first[..|first|] == first && first + [] == first;
    StartAlike(events, offset, ScanAll(RemapItems(m, first), offset).private);
  }

  // ----- the theorem -----

  lemma {:induction false} NothingSplit(ids: set<nat>)
    ensures Only([], ids, true) == [] && Only([], ids, false) == []
  {
  }

  lemma {:induction false} SplitKept(items: Items, offset: nat, ids: set<nat>, born: nat)
    requires forall k: nat :: k < |items| ==> items[k].0 == offset + k
    requires forall id: nat :: id in ids <==> offset <= id < offset + born
    ensures Only(items, ids, true) == items[..if born < |items| then born else |items|]
    ensures Only(items, ids, false) == items[if born < |items| then born else |items|..]
  {
    if items == [] { NothingSplit(ids); }
    hide Only;
    if items != [] {
      var n := |items| - 1;
      var front := items[..n];
      SplitKept(front, offset, ids, born);
      assert items == front + [items[n]] && items[n].0 == offset + n;
      OnlyNext(front, items[n], ids, true);
      OnlyNext(front, items[n], ids, false);
      if born <= n {
        assert items[..born] == front[..born] && items[born..] == front[born..] + [items[n]];
      } else {
        assert items[..|items|] == front[..n] + [items[n]] && items[|items|..] == [];
      }
    }
  }

  lemma {:induction false} NumberedAlready(items: Items, offset: nat, id: nat)
    requires forall k: nat :: k < |items| ==> items[k].0 == offset + k
    ensures NewId(NumberFrom(items, offset), id) == id
  {
    if items != [] { NumberedAlready(items[..|items| - 1], offset, id); }
  }

  lemma {:induction false} RemapNothing(m: Numbering, ev: Event, pack: Pack)
    requires forall id: nat :: NewId(m, id) == id
    ensures RemapEvent(m, ev) == ev && RemapPack(m, pack) == pack
  {
    forall ts: seq<Term> ensures RemapTerms(m, ts) == ts { }
    if ev.MakeClosure? { assert RemapCaptures(m, ev.captures) == ev.captures; }
  }

  /** Normalisation is idempotent, on events and returned pack. */
  lemma {:induction false} NormalizeTwice(events: seq<Event>, pack: Pack, offset: nat)
    requires RefsEarlier(events, offset)
    ensures NormalEvents(NormalEvents(events, offset), offset) == NormalEvents(events, offset)
    ensures NormalPack(NormalEvents(events, offset), NormalPack(events, pack, offset), offset)
        == NormalPack(events, pack, offset)
  {
    hide ScanAll, Only, NumberFrom, PrivateMatches, RefsEarlier;
    var normal, pack' := NormalEvents(events, offset), NormalPack(events, pack, offset);
    BothScans(events, offset, |events|);
    assert Before(events, |events|) == events;
    var s := ScanAll(normal, offset);
    var born := |FirstOf(events, offset)|;
    assert KeptAll(s, normal, offset, born);
    SplitKept(s.kept, offset, s.allocations, born);
    assert Hoisted(s) == s.kept == Numbered(normal, offset);
    var m := NumberFrom(s.kept, offset);
    forall id: nat ensures NewId(m, id) == id { NumberedAlready(s.kept, offset, id); }
    forall ev ensures RemapEvent(m, ev) == ev { RemapNothing(m, ev, pack'); }
    RemapNothing(m, NewTable(0, 0), pack');
    assert RemapItems(m, s.kept) == normal;
  }
}
