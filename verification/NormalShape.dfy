/** What a normal form looks like, said without the scan that computes it: births come first, and no
    store repeats the scalar an unseen table already has there. */
module NormalShape {
  import opened Options
  import opened Events
  import opened PrivateTables
  import opened NormalSound
  import opened SegmentRuns
  import opened NormalTwice

  /** A table without initial fields, or a template whose fields are all numbers zero under strings. */
  ghost predicate IsBirth(ev: Event) {
    match ev
    case NewTable(_, _) => true
    case DupTable(_, fields) => forall f :: f in fields ==> f.0.Str? && f.1 == Num(0)
    case _ => false
  }

  /** What event `id` made, or one of its results. */
  ghost predicate RefersTo(t: Term, id: nat) { t == Value(id) || (t.Result? && t.ev == id) }

  /** The event lets others see table `id`: it passes, stores or captures a reference to it, or indexes
      it with anything but a constant string. */
  ghost predicate Shows(ev: Event, id: nat) {
    match ev
    case SetTable(t, k, v) =>
      RefersTo(k, id) || RefersTo(v, id) || (RefersTo(t, id) && !(t.Value? && k.Const? && k.k.Str?))
    case MakeClosure(_, _, _, captures) => exists c :: c in captures && c.Copied? && RefersTo(c.t, id)
    case Operation(_, _, args) => (exists t :: t in args.items && RefersTo(t, id)) || args.tail == Some(id)
    case _ => false
  }

  /** Among the first `i` events, table `id` was born and nothing has shown it since. */
  ghost predicate Unseen(events: seq<Event>, offset: nat, i: nat, id: nat)
    requires i <= |events|
  {
    && offset <= id < offset + i && IsBirth(events[id - offset])
    && forall j: nat :: id - offset < j < i ==> !Shows(events[j], id)
  }

  /** The value last written under a key: by a store among the first `i` events, or at birth. */
  ghost function LastWritten(events: seq<Event>, offset: nat, i: nat, id: nat, key: Constant): Option<Term>
    requires i <= |events|
  {
    if i == 0 then None
    else
      var ev := events[i - 1];
      if id == offset + i - 1 then (if ev.DupTable? then LastGiven(ev.fields, key) else None)
      else if ev.SetTable? && ev.table == Value(id) && ev.key == Const(key) then Some(ev.value)
      else LastWritten(events, offset, i - 1, id, key)
  }

  ghost function LastGiven(fields: seq<(Constant, Constant)>, key: Constant): Option<Term> {
    if fields == [] then None
    else if fields[|fields| - 1].0 == key then Some(Const(fields[|fields| - 1].1))
    else LastGiven(fields[..|fields| - 1], key)
  }

  /** Event `i` stores a scalar under a string key of a table no one has seen, which has it already. */
  ghost predicate Repeats(events: seq<Event>, offset: nat, i: nat)
    requires i < |events|
  {
    events[i].SetTable? &&
    exists id: nat, key: string, scalar: Constant ::
      && events[i] == SetTable(Value(id), Const(Str(key)), Const(scalar)) && scalar != NilK
      && Unseen(events, offset, i, id) && LastWritten(events, offset, i, id, Str(key)) == Some(Const(scalar))
  }

  // ----- what the scan knows -----

  lemma {:induction false} ShowsIs(ev: Event, id: nat)
    ensures !ev.SetTable? ==> (Shows(ev, id) <==> id in EventRefs(ev))
    ensures ev.SetTable? ==>
      (id in TermRefs(ev.key) + TermRefs(ev.value) <==> RefersTo(ev.key, id) || RefersTo(ev.value, id))
    ensures ev.SetTable? ==> (id in TermRefs(ev.table) <==> RefersTo(ev.table, id))
  {
    forall t: Term ensures id in TermRefs(t) <==> RefersTo(t, id) { }
    match ev
    case MakeClosure(_, _, _, captures) =>
      if c :| c in captures && c.Copied? && RefersTo(c.t, id) { assert id in TermRefs(c.t); }
    case Operation(_, _, args) =>
      if t :| t in args.items && RefersTo(t, id) { assert id in TermRefs(t); }
    case _ =>
  }

  lemma {:induction false} TemplateIs(fields: seq<(Constant, Constant)>, key: Constant)
    ensures LastGiven(fields, key) ==
      if Const(key) in TemplateFields(fields) then Some(TemplateFields(fields)[Const(key)]) else None
  {
    if fields != [] { TemplateIs(fields[..|fields| - 1], key); }
  }

  lemma {:induction false} TemplateStrings(fields: seq<(Constant, Constant)>)
    requires ZeroTemplate(fields)
    ensures forall k :: k in TemplateFields(fields) ==> k.Const? && k.k.Str?
  {
    if fields != [] {
      assert forall f :: f in fields[..|fields| - 1] ==> f in fields;
      assert fields[|fields| - 1] in fields;
      TemplateStrings(fields[..|fields| - 1]);
    }
  }

  /** The private fields of a table are those last written under string keys. */
  ghost predicate FieldsAre(events: seq<Event>, offset: nat, i: nat, private: map<nat, Fields>, id: nat)
    requires i <= |events| && id in private
  {
    && (forall k :: k in private[id] ==> k.Const? && k.k.Str?)
    && forall key: string :: LastWritten(events, offset, i, id, Str(key)) ==
        if Const(Str(key)) in private[id] then Some(private[id][Const(Str(key))]) else None
  }

  ghost predicate Knows(events: seq<Event>, offset: nat, i: nat, private: map<nat, Fields>)
    requires i <= |events|
  {
    && (forall id: nat :: id in private <==> Unseen(events, offset, i, id))
    && (forall id: nat :: id in private ==> FieldsAre(events, offset, i, private, id))
  }

  lemma {:induction false} BirthIs(ev: Event)
    ensures IsBirth(ev) <==> Hoistable(ev)
  {
  }

  lemma {:induction false} UnseenNext(events: seq<Event>, offset: nat, i: nat, id: nat)
    requires i < |events|
    ensures Unseen(events, offset, i + 1, id) <==>
      (id == offset + i && IsBirth(events[i])) || (Unseen(events, offset, i, id) && !Shows(events[i], id))
  {
    hide Shows, IsBirth;
  }

  /** The scan's step on what is private. */
  ghost function PrivateNext(private: map<nat, Fields>, now: nat, ev: Event): map<nat, Fields> {
    if IsRedundant(private, ev) then private else PrivateAfter(private, now, ev)
  }

  lemma {:induction false} BirthKnown(events: seq<Event>, offset: nat, i: nat, private: map<nat, Fields>)
    requires i < |events| && Hoistable(events[i]) && Knows(events, offset, i, private)
    ensures Knows(events, offset, i + 1, PrivateNext(private, offset + i, events[i]))
  {
    var ev, now, after := events[i], offset + i, PrivateNext(private, offset + i, events[i]);
    forall id: nat ensures id in after <==> Unseen(events, offset, i + 1, id) { UnseenNext(events, offset, i, id); }
    forall id: nat | id in after ensures FieldsAre(events, offset, i + 1, after, id) {
      if id == now {
        if ev.DupTable? {
          TemplateStrings(ev.fields);
          forall key: string
            ensures LastWritten(events, offset, i + 1, id, Str(key)) == LastGiven(ev.fields, Str(key)) { }
          forall key: string { TemplateIs(ev.fields, Str(key)); }
        }
      } else {
        assert FieldsAre(events, offset, i, private, id);
      }
    }
  }

  lemma {:induction false} RedundantKnown(events: seq<Event>, offset: nat, i: nat, private: map<nat, Fields>)
    requires i < |events| && IsRedundant(private, events[i]) && Knows(events, offset, i, private)
    ensures Knows(events, offset, i + 1, private)
  {
    var ev := events[i];
    assert FieldsAre(events, offset, i, private, ev.table.ev);
    forall id: nat ensures id in private <==> Unseen(events, offset, i + 1, id) { UnseenNext(events, offset, i, id); }
    forall id: nat | id in private ensures FieldsAre(events, offset, i + 1, private, id) {
      assert FieldsAre(events, offset, i, private, id);
    }
  }

  lemma {:induction false} StoreKnown(events: seq<Event>, offset: nat, i: nat, private: map<nat, Fields>)
    requires i < |events| && events[i].SetTable? && !IsRedundant(private, events[i])
    requires Knows(events, offset, i, private)
    ensures Knows(events, offset, i + 1, PrivateAfter(private, offset + i, events[i]))
  {
    var ev, after := events[i], PrivateAfter(private, offset + i, events[i]);
    forall id: nat ensures id in after <==> Unseen(events, offset, i + 1, id) {
      UnseenNext(events, offset, i, id);
      ShowsIs(ev, id);
    }
    forall id: nat | id in after ensures FieldsAre(events, offset, i + 1, after, id) {
      assert FieldsAre(events, offset, i, private, id);
    }
  }

  lemma {:induction false} OtherKnown(events: seq<Event>, offset: nat, i: nat, private: map<nat, Fields>)
    requires i < |events| && !events[i].SetTable? && !Hoistable(events[i])
    requires Knows(events, offset, i, private)
    ensures Knows(events, offset, i + 1, PrivateAfter(private, offset + i, events[i]))
  {
    var ev, after := events[i], PrivateAfter(private, offset + i, events[i]);
    forall id: nat ensures id in after <==> Unseen(events, offset, i + 1, id) {
      UnseenNext(events, offset, i, id);
      ShowsIs(ev, id);
    }
    forall id: nat | id in after ensures FieldsAre(events, offset, i + 1, after, id) {
      assert FieldsAre(events, offset, i, private, id);
    }
  }

  /** The scan holds exactly the unseen tables, with what was last written under each string. */
  lemma {:induction false} ScanKnows(events: seq<Event>, offset: nat, i: nat)
    requires i <= |events|
    ensures Knows(events, offset, i, ScanAll(Before(events, i), offset).private)
  {
    hide Knows, IsRedundant, PrivateAfter;
    if i == 0 {
      NothingKnown(events, offset);
    } else {
      ScanKnows(events, offset, i - 1);
      ScanNext(events, offset, i - 1);
      var private, ev := ScanAll(Before(events, i - 1), offset).private, events[i - 1];
      if IsRedundant(private, ev) {
        RedundantKnown(events, offset, i - 1, private);
      } else if Hoistable(ev) {
        BirthKnown(events, offset, i - 1, private);
      } else if ev.SetTable? {
        StoreKnown(events, offset, i - 1, private);
      } else {
        OtherKnown(events, offset, i - 1, private);
      }
    }
  }

  lemma {:induction false} NothingKnown(events: seq<Event>, offset: nat)
    ensures Knows(events, offset, 0, ScanAll(Before(events, 0), offset).private)
  {
  }

  // ----- what is left of a normal form -----

  lemma {:induction false} KeptBound(events: seq<Event>, offset: nat, i: nat)
    requires i <= |events|
    ensures |ScanAll(Before(events, i), offset).kept| <= i
  {
    hide IsRedundant, PrivateAfter;
    if i > 0 {
      KeptBound(events, offset, i - 1);
      ScanNext(events, offset, i - 1);
    }
  }

  lemma {:induction false} KeptRest(events: seq<Event>, offset: nat, i: nat)
    requires i <= |events|
    ensures |ScanAll(events, offset).kept| - |ScanAll(Before(events, i), offset).kept| <= |events| - i
    decreases |events| - i
  {
    hide IsRedundant, PrivateAfter;
    if i < |events| {
      KeptRest(events, offset, i + 1);
      ScanNext(events, offset, i);
    } else {
      assert Before(events, i) == events;
    }
  }

  /** A scan that keeps as many events as there are has dropped none. */
  lemma {:induction false} NoneDropped(events: seq<Event>, offset: nat, i: nat)
    requires i < |events| && |ScanAll(events, offset).kept| == |events|
    ensures !IsRedundant(ScanAll(Before(events, i), offset).private, events[i])
  {
    hide PrivateAfter;
    KeptBound(events, offset, i);
    KeptRest(events, offset, i + 1);
    ScanNext(events, offset, i);
  }

  lemma {:induction false} RepeatsIs(events: seq<Event>, offset: nat, i: nat)
    requires i < |events| && Repeats(events, offset, i)
    ensures IsRedundant(ScanAll(Before(events, i), offset).private, events[i])
  {
    hide Unseen;
    ScanKnows(events, offset, i);
    var id: nat, key: string, scalar: Constant :| events[i] == SetTable(Value(id), Const(Str(key)), Const(scalar)) &&
      scalar != NilK && Unseen(events, offset, i, id) &&
        LastWritten(events, offset, i, id, Str(key)) == Some(Const(scalar));
    assert FieldsAre(events, offset, i, ScanAll(Before(events, i), offset).private, id);
  }

  /** In a normal form every birth precedes everything else, zero templates are kept in one encoding,
      and no store repeats what its unseen table already has. */
  lemma {:induction false} NormalFormIs(events: seq<Event>, offset: nat)
    requires RefsEarlier(events, offset)
    ensures var normal := NormalEvents(events, offset);
            && (forall i: nat, j: nat :: i < j < |normal| && IsBirth(normal[j]) ==> IsBirth(normal[i]))
            && (forall i: nat :: i < |normal| && IsBirth(normal[i]) && normal[i].DupTable? ==> !normal[i].keyed)
            && (forall i: nat :: i < |normal| ==> !Repeats(normal, offset, i))
  {
    hide ScanAll, Only, NumberFrom, PrivateMatches, RefsEarlier, Repeats;
    var normal := NormalEvents(events, offset);
    BothScans(events, offset, |events|);
    assert Before(events, |events|) == events;
    var s, born := ScanAll(normal, offset), |FirstOf(events, offset)|;
    assert KeptAll(s, normal, offset, born);
    AllocationsAre(normal, offset);
    forall i: nat | i < |normal|
      ensures IsBirth(normal[i]) <==> i < born
      ensures IsBirth(normal[i]) && normal[i].DupTable? ==> !normal[i].keyed
      ensures !Repeats(normal, offset, i)
    {
      BirthIs(normal[i]);
      assert offset + i in s.allocations <==> HoistedAt(normal, offset, offset + i);
      assert s.kept[i] in s.kept && s.kept[i] == (offset + i, normal[i]);
      NoneDropped(normal, offset, i);
      if Repeats(normal, offset, i) { RepeatsIs(normal, offset, i); }
    }
  }
}
