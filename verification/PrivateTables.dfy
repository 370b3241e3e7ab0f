/** Normalising one return segment: stores that change nothing in a table nobody else has
    seen are dropped, fresh allocations move to the front, and identities are renumbered. */
module PrivateTables {
  import opened Options
  import opened Events

  // ----- what terms and events refer to -----

  function TermRefs(t: Term): set<nat> {
    match t case Value(ev) => {ev} case Result(ev, _) => {ev} case _ => {}
  }

  function TermsRefs(ts: seq<Term>): set<nat> { set t, r | t in ts && r in TermRefs(t) :: r }

  function PackRefs(p: Pack): set<nat> { TermsRefs(p.items) + if p.tail.Some? then {p.tail.value} else {} }

  function CaptureRefs(cs: seq<Capture>): set<nat> { set c, r | c in cs && c.Copied? && r in TermRefs(c.t) :: r }

  /** Everything an event mentions in its own numbering; closure bodies have their own. */
  function EventRefs(ev: Event): set<nat> {
    match ev
    case NewTable(_, _) => {}
    case DupTable(_, _) => {}
    case GetUpvalue(_) => {}
    case SetTable(t, k, v) => TermRefs(t) + TermRefs(k) + TermRefs(v)
    case MakeClosure(_, _, _, captures) => CaptureRefs(captures)
    case Operation(_, _, args) => PackRefs(args)
  }

  // ----- the scan -----

  type Fields = map<Term, Term>

  /** `private` holds the string fields of every table that has not escaped yet. */
  datatype Scan = Scan(private: map<nat, Fields>, allocations: set<nat>, kept: seq<(nat, Event)>)

  predicate IsScalar(t: Term) { t.Const? && !t.k.NilK? }

  predicate ZeroTemplate(fields: seq<(Constant, Constant)>) {
    forall f :: f in fields ==> f.0.Str? && f.1 == Num(0)
  }

  function TemplateFields(fields: seq<(Constant, Constant)>): Fields {
    if fields == [] then map[]
    else TemplateFields(fields[..|fields| - 1])[Const(fields[|fields| - 1].0) := Const(fields[|fields| - 1].1)]
  }

  predicate Hoistable(ev: Event) { ev.NewTable? || (ev.DupTable? && ZeroTemplate(ev.fields)) }

  /** Storing a scalar a private table already has there. */
  predicate IsRedundant(private: map<nat, Fields>, ev: Event) {
    ev.SetTable? && ev.table.Value? && ev.table.ev in private && IsScalar(ev.value) &&
    ev.key in private[ev.table.ev] && private[ev.table.ev][ev.key] == ev.value
  }

  function Without(private: map<nat, Fields>, escaped: set<nat>): map<nat, Fields> {
    map t | t in private && t !in escaped :: private[t]
  }

  function PrivateAfter(private: map<nat, Fields>, id: nat, ev: Event): map<nat, Fields> {
    if Hoistable(ev) then private[id := if ev.DupTable? then TemplateFields(ev.fields) else map[]]
    else if ev.SetTable? && ev.table.Value? && ev.table.ev in private then
      var t := ev.table.ev;
      var escaped := TermRefs(ev.key) + TermRefs(ev.value);
      if ev.key.Const? && ev.key.k.Str? then Without(private[t := private[t][ev.key := ev.value]], escaped)
      else Without(private, escaped + {t})
    else Without(private, EventRefs(ev))
  }

  /** A zero template is kept without the distinction between its two encodings. */
  function Canonical(ev: Event): Event {
    if ev.DupTable? && ZeroTemplate(ev.fields) then ev.(keyed := false) else ev
  }

  function ScanStep(s: Scan, id: nat, ev: Event): Scan {
    if IsRedundant(s.private, ev) then s
    else Scan(PrivateAfter(s.private, id, ev),
              if Hoistable(ev) then s.allocations + {id} else s.allocations,
              s.kept + [(id, Canonical(ev))])
  }

  function ScanAll(events: seq<Event>, offset: nat): Scan {
    if events == [] then Scan(map[], {}, [])
    else ScanStep(ScanAll(events[..|events| - 1], offset), offset + |events| - 1, events[|events| - 1])
  }

  type Items = seq<(nat, Event)>

  function Only(items: Items, ids: set<nat>, inside: bool): Items {
    if items == [] then []
    else Only(items[..|items| - 1], ids, inside) +
         if (items[|items| - 1].0 in ids) == inside then [items[|items| - 1]] else []
  }

  /** Allocations first, the rest in order. */
  function Hoisted(s: Scan): Items { Only(s.kept, s.allocations, true) + Only(s.kept, s.allocations, false) }

  // ----- renumbering -----

  type Numbering = map<nat, nat>

  /** Each kept event's new identity is its place. */
  function NumberFrom(items: Items, offset: nat): Numbering {
    if items == [] then map[]
    else NumberFrom(items[..|items| - 1], offset)[items[|items| - 1].0 := offset + |items| - 1]
  }

  function NewId(m: Numbering, id: nat): nat { if id in m then m[id] else id }

  function RemapTerm(m: Numbering, t: Term): Term {
    match t
    case Value(ev) => Value(NewId(m, ev))
    case Result(ev, i) => Result(NewId(m, ev), i)
    case _ => t
  }

  function RemapTerms(m: Numbering, ts: seq<Term>): seq<Term> {
    seq(|ts|, i requires 0 <= i < |ts| => RemapTerm(m, ts[i]))
  }

  function RemapPack(m: Numbering, p: Pack): Pack {
    Pack(RemapTerms(m, p.items), if p.tail.Some? then Some(NewId(m, p.tail.value)) else None)
  }

  function RemapCaptures(m: Numbering, cs: seq<Capture>): seq<Capture> {
    seq(|cs|, i requires 0 <= i < |cs| => if cs[i].Copied? then Copied(RemapTerm(m, cs[i].t)) else cs[i])
  }

  function RemapEvent(m: Numbering, ev: Event): Event {
    match ev
    case SetTable(t, k, v) => SetTable(RemapTerm(m, t), RemapTerm(m, k), RemapTerm(m, v))
    case MakeClosure(shared, template, body, captures) => MakeClosure(shared, template, body,
      RemapCaptures(m, captures))
    case Operation(op, immediates, args) => Operation(op, immediates, RemapPack(m, args))
    case _ => ev
  }

  function RemapItems(m: Numbering, items: Items): seq<Event> {
    seq(|items|, i requires 0 <= i < |items| => RemapEvent(m, items[i].1))
  }

  lemma {:induction false} RemapLength(m: Numbering, items: Items)
    ensures |RemapItems(m, items)| == |items|
  {
  }

  function NormalEvents(events: seq<Event>, offset: nat): seq<Event> {
    var hoisted := Hoisted(ScanAll(events, offset));
    RemapItems(NumberFrom(hoisted, offset), hoisted)
  }

  function NormalPack(events: seq<Event>, pack: Pack, offset: nat): Pack {
    RemapPack(NumberFrom(Hoisted(ScanAll(events, offset)), offset), pack)
  }

  // ----- the algorithm -----

  /** Refuses anything but a return segment. */
  method NormalizePrivateTables(events: seq<Event>, end: Terminal, offset: nat) returns (normal: Option<Segment>)
    ensures normal
        == if end.Return? then Some(Segment(NormalEvents(events, offset), Return(NormalPack(events, end.pack, offset))))
        else None
  {
    if !end.Return? { return None; }
    var private: map<nat, Fields>, allocations: set<nat>, kept: Items := map[], {}, [];
    for i := 0 to |events|
      invariant Scan(private, allocations, kept) == ScanAll(events[..i], offset)
    {
      var ev, id := events[i], offset + i;
      assert events[..i + 1][..i] == events[..i];
      if Hoistable(ev) {
        private := private[id := if ev.DupTable? then TemplateFields(ev.fields) else map[]];
        allocations := allocations + {id};
        ev := Canonical(ev);
      } else if ev.SetTable? && ev.table.Value? && ev.table.ev in private {
        var t := ev.table.ev;
        if IsScalar(ev.value) && ev.key in private[t] && private[t][ev.key] == ev.value { continue; }
        var escaped := TermRefs(ev.key) + TermRefs(ev.value);
        if ev.key.Const? && ev.key.k.Str? {
          private := private[t := private[t][ev.key := ev.value]];
        } else {
          escaped := escaped + {t};
        }
        private := Without(private, escaped);
      } else {
        private := Without(private, EventRefs(ev));
      }
      kept := kept + [(id, ev)];
    }
    assert events[..|events|] == events;
    var first, rest: Items := [], [];
    for i := 0 to |kept|
      invariant first == Only(kept[..i], allocations, true) && rest == Only(kept[..i], allocations, false)
    {
      assert kept[..i + 1][..i] == kept[..i];
      if kept[i].0 in allocations { first := first + [kept[i]]; } else { rest := rest + [kept[i]]; }
    }
    assert kept[..|kept|] == kept;
    var hoisted := first + rest;
    var mapping: Numbering := map[];
    for i := 0 to |hoisted|
      invariant mapping == NumberFrom(hoisted[..i], offset)
    {
      assert hoisted[..i + 1][..i] == hoisted[..i];
      mapping := mapping[hoisted[i].0 := offset + i];
    }
    assert hoisted[..|hoisted|] == hoisted;
    normal := Some(Segment(RemapItems(mapping, hoisted), Return(RemapPack(mapping, end.pack))));
  }
}
