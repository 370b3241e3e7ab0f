/** Normalising return segments and merging equal arms does not change what a tree means,
    up to the addresses new tables happen to get. */
module TreeNormal {
  import opened Sequences
  import opened Events
  import opened PrivateTables
  import opened SegmentRuns
  import opened NormalSound
  import opened NormalForm
  import opened TreeRuns
  import opened Supplies

  /** Whatever one tree can do from any start, the other can do with addresses handed out
      differently from then on. */
  ghost predicate Covers(w: World, params: seq<Val>, one: Segment, other: Segment, offset: nat) {
    forall c: Spot, s: Supply :: Ready(c, offset) && Free(c, s) ==> Covered(w, params, one, other, offset, c, s)
  }

  ghost predicate Covered(w: World, params: seq<Val>, one: Segment, other: Segment, offset: nat, c: Spot, s: Supply) {
    exists s': Supply :: Alternative(w, params, one, other, offset, c, s, s')
  }

  ghost predicate Alternative(w: World, params: seq<Val>, one: Segment, other: Segment, offset: nat, c: Spot, s: Supply,
      s': Supply)
  {
    Agree(s, s', c.born) && Free(c, s') &&
      RunSegment(w, s, params, c, one, offset) == RunSegment(w, s', params, c, other, offset)
  }

  ghost predicate Equivalent(w: World, params: seq<Val>, one: Segment, other: Segment, offset: nat) {
    Covers(w, params, one, other, offset) && Covers(w, params, other, one, offset)
  }

  lemma {:induction false} SameTree(w: World, params: seq<Val>, seg: Segment, offset: nat)
    ensures Equivalent(w, params, seg, seg, offset)
  {
    hide RunSegment, Free;
    forall c: Spot, s: Supply | Ready(c, offset) && Free(c, s) ensures Covered(w, params, seg, seg, offset, c, s) {
      assert Alternative(w, params, seg, seg, offset, c, s, s);
    }
  }

  // ----- return segments -----

  /** A segment whose mentions all point to earlier events that have values. */
  ghost predicate Sealable(events: seq<Event>, offset: nat, pack: Pack) {
    RefsEarlier(events, offset) && forall id: nat :: id in PackRefs(pack) ==> Mentionable(events, offset, |events|, id)
  }

  lemma {:induction false} FreshFrom(c: Spot, s: Supply, births: seq<nat>, offset: nat, count: nat)
    requires Ready(c, offset) && Free(c, s)
    ensures FreshStart(Config(c.env, c.mem), ByIdentity(s, c.born, births), offset, count)
  {
    hide IndexOf;
    var loc := ByIdentity(s, c.born, births);
    forall id: nat ensures loc(id) == s(PlaceOf(c.born, births, id)) && PlaceOf(c.born, births, id) >= c.born { }
    forall i: nat, j: nat | loc(i) == loc(j) ensures i == j { PlacesApart(c.born, births, i, j); }
  }

  lemma {:induction false} PlacesApart(born: nat, births: seq<nat>, i: nat, j: nat)
    requires PlaceOf(born, births, i) == PlaceOf(born, births, j)
    ensures i == j
  {
    hide IndexOf;
  }

  /** The births of the renumbered segment are those of the normalised order. */
  lemma {:induction false} MovedBirths(items: Items, loc: nat -> int, offset: nat, k: nat)
    requires k <= |items|
    ensures var m := NumberFrom(items, offset);
            var births := Births(Numbered(RemapItems(m, items), offset)[..k]);
            |births| == |Births(items[..k])|
            && forall n: nat :: n < |births| ==> Moved(loc, items, offset)(births[n]) == loc(Births(items[..k])[n])
  {
    hide NumberFrom;
    var m := NumberFrom(items, offset);
    var normal := Numbered(RemapItems(m, items), offset);
    if k > 0 {
      var i := k - 1;
      MovedBirths(items, loc, offset, i);
      assert items[..k] == items[..i] + [items[i]] && normal[..k] == normal[..i] + [normal[i]];
      BirthsNext(items[..i], items[i]);
      BirthsNext(normal[..i], normal[i]);
      assert Allocates(normal[i].1) <==> Allocates(items[i].1);
    }
  }

  lemma {:induction false} LeafRun(w: World, s: Supply, loc: nat -> int, params: seq<Val>, c: Spot, events: seq<Event>,
      pack: Pack, offset: nat)
    requires Supplied(s, c.born, loc, Births(Numbered(events, offset)))
    ensures var run := RunItems(w, loc, params, Config(c.env, c.mem), Numbered(events, offset));
            RunSegment(w, s, params, c, Segment(events, Return(pack)), offset)
              == Returned(run.mem, EvalPack(params, run.env, pack))
  {
    hide RunItems, RunEvents, Births, EvalPack;
    RunByIdentity(w, s, loc, params, c, events, offset, |events|);
    assert events[..|events|] == events && Numbered(events, offset)[..|events|] == Numbered(events, offset);
  }

  lemma {:induction false} NormalSupplied(s: Supply, born: nat, loc: nat -> int, items: Items, offset: nat)
    requires Supplied(s, born, loc, Births(items))
    ensures Supplied(s, born, Moved(loc, items, offset),
        Births(Numbered(RemapItems(NumberFrom(items, offset), items), offset)))
  {
    hide NumberFrom, RemapItems, Moved, Births;
    MovedBirths(items, loc, offset, |items|);
    RemapLength(NumberFrom(items, offset), items);
    var normal := Numbered(RemapItems(NumberFrom(items, offset), items), offset);
    assert items[..|items|] == items && normal[..|items|] == normal;
  }

  /** Both runs hand out the same address to each event that allocates. */
  lemma {:induction false} LeafRuns(w: World, params: seq<Val>, c: Spot, events: seq<Event>, pack: Pack, offset: nat,
      loc: nat -> int, s: Supply, s': Supply)
    requires Sealable(events, offset, pack) && FreshStart(Config(c.env, c.mem), loc, offset, |events|)
    requires Supplied(s, c.born, loc, Births(Numbered(events, offset)))
    requires Supplied(s', c.born, loc, Births(Hoisted(ScanAll(events, offset))))
    ensures RunSegment(w, s, params, c, Segment(events, Return(pack)), offset)
         == RunSegment(w, s', params, c,
           Segment(NormalEvents(events, offset), Return(NormalPack(events, pack, offset))), offset)
  {
    hide RunItems, ScanAll, NumberFrom, RemapItems, FreshStart, RefsEarlier, Moved, RunSegment, Births, Supplied,
      EvalPack, Hoisted, NormalPack, Numbered;
    var items := Hoisted(ScanAll(events, offset));
    NormalizeSound(w, loc, params, Config(c.env, c.mem), events, pack, offset);
    LeafRun(w, s, loc, params, c, events, pack, offset);
    NormalSupplied(s', c.born, loc, items, offset);
    LeafRun(w, s', Moved(loc, items, offset), params, c, NormalEvents(events, offset), NormalPack(events, pack, offset),
      offset);
  }

  /** Normalising moves births about but neither loses nor adds any. */
  lemma {:induction false} SameBirths(events: seq<Event>, offset: nat)
    requires RefsEarlier(events, offset)
    ensures var raw, normal := Births(Numbered(events, offset)), Births(Hoisted(ScanAll(events, offset)));
            Unrepeated(raw) && Unrepeated(normal) && forall id :: id in raw <==> id in normal
  {
    hide ScanAll, RefsEarlier, Unrepeated, Births;
    var items, s := Hoisted(ScanAll(events, offset)), ScanAll(events, offset);
    HoistedOrder(events, offset);
    AllocationsAre(events, offset);
    BirthsUnrepeated(Numbered(events, offset));
    BirthsUnrepeated(items);
    forall id: nat ensures id in Births(Numbered(events, offset)) <==> id in Births(items) {
      BirthsAre(Numbered(events, offset), id);
      BirthsAre(items, id);
      BirthKept(events, offset, id);
    }
  }

  lemma {:induction false} BirthKept(events: seq<Event>, offset: nat, id: nat)
    requires OrderIs(events, offset, |events|, ScanAll(events, offset).allocations, Hoisted(ScanAll(events, offset)))
    requires forall it ::
        it in ScanAll(events, offset).kept ==>
          offset <= it.0 < offset + |events| && it.1 == Canonical(events[it.0 - offset])
    ensures var items, all := Hoisted(ScanAll(events, offset)), Numbered(events, offset);
            (exists k: nat :: k < |all| && all[k].0 == id && Allocates(all[k].1)) <==>
              exists k: nat :: k < |items| && items[k].0 == id && Allocates(items[k].1)
  {
    hide ScanAll, ItemsEarlier;
    var s, all := ScanAll(events, offset), Numbered(events, offset);
    var items := Hoisted(s);
    if k: nat :| k < |items| && items[k].0 == id && Allocates(items[k].1) {
      ItemKept(s, k);
      assert all[id - offset].0 == id && Allocates(all[id - offset].1);
    }
    if k: nat :| k < |all| && all[k].0 == id && Allocates(all[k].1) {
      assert Mentionable(events, offset, |events|, id);
      var j: nat :| j < |items| && items[j].0 == id;
      ItemKept(s, j);
    }
  }

  lemma {:induction false} ItemKept(s: Scan, k: nat)
    requires k < |Hoisted(s)|
    ensures Hoisted(s)[k] in s.kept
  {
    var first, rest := Only(s.kept, s.allocations, true), Only(s.kept, s.allocations, false);
    if k < |first| { OnlyFrom(s.kept, s.allocations, true, first[k]); } else {
      OnlyFrom(s.kept, s.allocations, false, rest[k - |first|]);
    }
  }

  /** A return segment and its normal form. */
  lemma {:induction false} LeafEquivalent(w: World, params: seq<Val>, events: seq<Event>, pack: Pack, offset: nat)
    requires Sealable(events, offset, pack)
    ensures Equivalent(w, params, Segment(events, Return(pack)),
                       Segment(NormalEvents(events, offset), Return(NormalPack(events, pack, offset))), offset)
  {
    hide RunSegment, Free, Ready, Agree, Supplied, ByIdentity, ByBirth, Births, FreshStart, Unrepeated, RefsEarlier,
      NormalEvents, NormalPack, Hoisted;
    var one, other := Segment(events, Return(pack)),
      Segment(NormalEvents(events, offset), Return(NormalPack(events, pack, offset)));
    var raw, normal := Births(Numbered(events, offset)), Births(Hoisted(ScanAll(events, offset)));
    SameBirths(events, offset);
    forall c: Spot, s: Supply | Ready(c, offset) && Free(c, s) ensures Covered(w, params, one, other, offset, c, s) {
      var loc := ByIdentity(s, c.born, raw);
      FreshFrom(c, s, raw, offset, |events|);
      IdentitySupplied(s, c.born, raw);
      PermutedSupply(s, c, raw, normal);
      LeafRuns(w, params, c, events, pack, offset, loc, s, ByBirth(s, c.born, loc, normal));
      assert Alternative(w, params, one, other, offset, c, s, ByBirth(s, c.born, loc, normal));
    }
    forall c: Spot, s: Supply | Ready(c, offset) && Free(c, s) ensures Covered(w, params, other, one, offset, c, s) {
      var loc := ByIdentity(s, c.born, normal);
      FreshFrom(c, s, normal, offset, |events|);
      IdentitySupplied(s, c.born, normal);
      PermutedSupply(s, c, normal, raw);
      LeafRuns(w, params, c, events, pack, offset, loc, ByBirth(s, c.born, loc, raw), s);
      assert Alternative(w, params, other, one, offset, c, s, ByBirth(s, c.born, loc, raw));
    }
  }

  // ----- addresses stay unused -----

  ghost predicate Grown(c: Spot, d: Spot) {
    && c.mem.heap.Keys <= d.mem.heap.Keys && c.mem.known <= d.mem.known && c.born <= d.born
    && forall id :: id in c.env ==> id in d.env && d.env[id] == c.env[id]
  }

  /** References an action passes on come from replies. */
  ghost predicate FromReplies(c: Spot, refs: set<int>) {
    forall l :: l in refs ==> exists id: nat :: id in c.env && l in ReplyRefs(c.env[id])
  }

  lemma {:induction false} RequestFromReplies(params: seq<Val>, c: Spot, ev: Event)
    ensures FromReplies(c, RefsIn(RequestVals(RequestOf(params, c.env, ev))))
  {
    forall l | l in RefsIn(RequestVals(RequestOf(params, c.env, ev)))
      ensures exists id: nat :: id in c.env && l in ReplyRefs(c.env[id])
    {
      RequestRefsCover(params, c.env, ev, l);
    }
  }

  lemma {:induction false} StepStaysFree(w: World, s: Supply, params: seq<Val>, c: Spot, id: nat, ev: Event)
    requires Free(c, s) && Ready(c, id)
    ensures var d := StepEvent(w, s, params, c, id, ev); Free(d, s) && Ready(d, id + 1) && Grown(c, d)
  {
    hide Perform, RequestOf, ReplyRefs;
    var request := RequestOf(params, c.env, ev);
    var d := StepEvent(w, s, params, c, id, ev);
    KnownGrows(w, s(c.born), c.mem, request);
    ReplyIsClean(w, s(c.born), c.mem, request);
    RequestFromReplies(params, c, ev);
    NoAllocation(params, c.env, ev);
    forall n: nat | n >= d.born ensures s(n) !in d.mem.heap && s(n) !in d.mem.known {
      assert s(n) !in RefsIn(RequestVals(request));
    }
  }

  lemma {:induction false} RunStaysFree(w: World, s: Supply, params: seq<Val>, c: Spot, events: seq<Event>, offset: nat)
    requires Free(c, s) && Ready(c, offset)
    ensures var d := RunEvents(w, s, params, c, events, offset);
        Free(d, s) && Ready(d, offset + |events|) && Grown(c, d)
  {
    hide Free, Ready, StepEvent;
    if events != [] {
      var n := |events| - 1;
      RunStaysFree(w, s, params, c, events[..n], offset);
      StepStaysFree(w, s, params, RunEvents(w, s, params, c, events[..n], offset), offset + n, events[n]);
    }
  }

  lemma {:induction false} ActStaysFree(w: World, s: Supply, c: Spot, act: Act, now: nat)
    requires Free(c, s) && Ready(c, now) && FromReplies(c, RefsIn(ActVals(act)))
    ensures var d := c.(mem := ActOn(w, c.mem, act).0); Free(d, s) && Ready(d, now) && Grown(c, d)
  {
    hide ReplyRefs, ActVals;
    var d := c.(mem := ActOn(w, c.mem, act).0);
    assert d.mem.heap.Keys == c.mem.heap.Keys;
    forall n: nat | n >= d.born ensures s(n) !in d.mem.known {
      assert s(n) !in RefsIn(ActVals(act));
    }
  }

  lemma {:induction false} JudgeStaysFree(w: World, s: Supply, params: seq<Val>, c: Spot, cond: Condition, now: nat)
    requires Free(c, s) && Ready(c, now)
    ensures var d := Judge(w, params, c, cond).0; Free(d, s) && Ready(d, now) && Grown(c, d) && d.born == c.born
  {
    if cond.Compare? {
      var l, r := Eval(params, c.env, cond.left), Eval(params, c.env, cond.right);
      var act := Compared(cond.op, l, r);
      forall x | x in RefsIn(ActVals(act)) ensures exists id: nat :: id in c.env && x in ReplyRefs(c.env[id]) {
        if l == Ref(x) { TermRefsCover(params, c.env, cond.left, x); } else {
          TermRefsCover(params, c.env, cond.right, x);
        }
      }
      ActStaysFree(w, s, c, act, now);
    }
  }

  lemma {:induction false} TryStaysFree(w: World, s: Supply, params: seq<Val>, c: Spot, builtin: string,
      immediates: seq<int>, args: Pack, now: nat)
    requires Free(c, s) && Ready(c, now)
    ensures var d := TryNative(w, params, c, builtin, immediates, args).0;
        Free(d, s) && Ready(d, now) && Grown(c, d) && d.born == c.born
  {
    var act := Tried(builtin, immediates, EvalPack(params, c.env, args));
    forall x | x in RefsIn(ActVals(act)) ensures exists id: nat :: id in c.env && x in ReplyRefs(c.env[id]) {
      PackRefsCover(params, c.env, args, x);
    }
    ActStaysFree(w, s, c, act, now);
  }

  lemma {:induction false} FreeBefore(c: Spot, d: Spot, s: Supply, s': Supply)
    requires Free(c, s) && Grown(c, d) && Free(d, s') && Agree(s, s', d.born)
    ensures Free(c, s') && Agree(s, s', c.born)
  {
    hide ReplyRefs;
    forall id: nat, n: nat | id in c.env && n >= c.born ensures s'(n) !in ReplyRefs(c.env[id]) {
      if n < d.born { assert s'(n) == s(n); }
    }
    forall n: nat | n >= c.born ensures s'(n) !in c.mem.heap && s'(n) !in c.mem.known {
      if n < d.born { assert s'(n) == s(n); }
    }
  }

  // ----- from arms to trees -----

  /** A supply that makes the other arm match, and leaves the events before it alone. */
  lemma {:induction false} ArmCovered(w: World, params: seq<Val>, c: Spot, s: Supply, events: seq<Event>, offset: nat,
      d: Spot, one: Segment, other: Segment)
    returns (s': Supply)
    requires Free(c, s) && Ready(c, offset) && Covers(w, params, one, other, offset + |events|)
    requires var after := RunEvents(w, s, params, c, events, offset);
             Grown(after, d) && d.born == after.born && Free(d, s) && Ready(d, offset + |events|)
    ensures Agree(s, s', c.born) && Free(c, s')
    ensures RunEvents(w, s', params, c, events, offset) == RunEvents(w, s, params, c, events, offset)
    ensures RunSegment(w, s', params, d, other, offset + |events|)
        == RunSegment(w, s, params, d, one, offset + |events|)
  {
    hide RunSegment, RunEvents, Free, Ready, Grown;
    assert Covered(w, params, one, other, offset + |events|, d, s);
    s' :| Alternative(w, params, one, other, offset + |events|, d, s, s');
    var after := RunEvents(w, s, params, c, events, offset);
    RunStaysFree(w, s, params, c, events, offset);
    GrownThrough(c, after, d);
    FreeBefore(c, d, s, s');
    RunAgrees(w, s, s', params, c, events, offset);
  }

  lemma {:induction false} GrownThrough(c: Spot, d: Spot, e: Spot)
    requires Grown(c, d) && Grown(d, e)
    ensures Grown(c, e)
  {
  }

  lemma {:induction false} BranchRun(w: World, s: Supply, params: seq<Val>, c: Spot, events: seq<Event>,
      cond: Condition, yes: Segment, no: Segment, offset: nat)
    ensures var after, now := RunEvents(w, s, params, c, events, offset), offset + |events|;
            var (next, holds) := Judge(w, params, after, cond);
            RunSegment(w, s, params, c, Segment(events, Branch(cond, yes, no)), offset)
              == RunSegment(w, s, params, next, if holds then yes else no, now)
  {
    hide RunEvents, Judge;
  }

  lemma {:induction false} BranchCovers(w: World, params: seq<Val>, events: seq<Event>, cond: Condition, yes: Segment,
      no: Segment, yes': Segment, no': Segment, offset: nat)
    requires Covers(w, params, yes, yes', offset + |events|) && Covers(w, params, no, no', offset + |events|)
    ensures Covers(w, params, Segment(events, Branch(cond, yes, no)), Segment(events, Branch(cond, yes', no')), offset)
  {
    hide RunSegment, RunEvents, Judge, Free, Ready, Grown, Agree, Covers;
    var one, other := Segment(events, Branch(cond, yes, no)), Segment(events, Branch(cond, yes', no'));
    forall c: Spot, s: Supply | Ready(c, offset) && Free(c, s) ensures Covered(w, params, one, other, offset, c, s) {
      var after := RunEvents(w, s, params, c, events, offset);
      var (next, holds) := Judge(w, params, after, cond);
      RunStaysFree(w, s, params, c, events, offset);
      JudgeStaysFree(w, s, params, after, cond, offset + |events|);
      var s' := ArmCovered(w, params, c, s, events, offset, next, if holds then yes else no,
        if holds then yes' else no');
      BranchRun(w, s, params, c, events, cond, yes, no, offset);
      BranchRun(w, s', params, c, events, cond, yes', no', offset);
      assert Alternative(w, params, one, other, offset, c, s, s');
    }
    CoversAll(w, params, one, other, offset);
  }

  lemma {:induction false} CoversAll(w: World, params: seq<Val>, one: Segment, other: Segment, offset: nat)
    requires forall c: Spot, s: Supply ::
        Ready(c, offset) && Free(c, s) ==> Covered(w, params, one, other, offset, c, s)
    ensures Covers(w, params, one, other, offset)
  {
  }

  /** A truthiness test decides nothing when its arms agree. */
  lemma {:induction false} CollapseCovers(w: World, params: seq<Val>, events: seq<Event>, t: Term, yes: Segment,
      no: Segment, arm: Segment, offset: nat)
    requires Covers(w, params, yes, arm, offset + |events|) && Covers(w, params, no, arm, offset + |events|)
    ensures Covers(w, params, Segment(events, Branch(Truthy(t), yes, no)), Segment(events + arm.events, arm.end),
        offset)
  {
    hide RunSegment, RunEvents, Free, Ready, Agree, Covers, Eval;
    var one, other := Segment(events, Branch(Truthy(t), yes, no)), Segment(events + arm.events, arm.end);
    forall c: Spot, s: Supply | Ready(c, offset) && Free(c, s) ensures Covered(w, params, one, other, offset, c, s) {
      var after := RunEvents(w, s, params, c, events, offset);
      var holds := Judge(w, params, after, Truthy(t)).1;
      RunStaysFree(w, s, params, c, events, offset);
      var s' := ArmCovered(w, params, c, s, events, offset, after, if holds then yes else no, arm);
      BranchRun(w, s, params, c, events, Truthy(t), yes, no, offset);
      RunPrefixed(w, s', params, c, events, arm, offset);
      assert Alternative(w, params, one, other, offset, c, s, s');
    }
    CoversAll(w, params, one, other, offset);
  }

  lemma {:induction false} ExpandCovers(w: World, params: seq<Val>, events: seq<Event>, t: Term, yes: Segment,
      no: Segment, arm: Segment, offset: nat)
    requires Covers(w, params, arm, yes, offset + |events|) && Covers(w, params, arm, no, offset + |events|)
    ensures Covers(w, params, Segment(events + arm.events, arm.end), Segment(events, Branch(Truthy(t), yes, no)),
        offset)
  {
    hide RunSegment, RunEvents, Free, Ready, Agree, Covers, Eval;
    var one, other := Segment(events + arm.events, arm.end), Segment(events, Branch(Truthy(t), yes, no));
    forall c: Spot, s: Supply | Ready(c, offset) && Free(c, s) ensures Covered(w, params, one, other, offset, c, s) {
      var after := RunEvents(w, s, params, c, events, offset);
      var holds := Judge(w, params, after, Truthy(t)).1;
      RunStaysFree(w, s, params, c, events, offset);
      var s' := ArmCovered(w, params, c, s, events, offset, after, arm, if holds then yes else no);
      BranchRun(w, s', params, c, events, Truthy(t), yes, no, offset);
      RunPrefixed(w, s, params, c, events, arm, offset);
      assert Alternative(w, params, one, other, offset, c, s, s');
    }
    CoversAll(w, params, one, other, offset);
  }

  lemma {:induction false} FastRun(w: World, s: Supply, params: seq<Val>, c: Spot, events: seq<Event>, builtin: string,
      immediates: seq<int>, args: Pack, native: Segment, fallback: Segment, offset: nat)
    ensures var after, now := RunEvents(w, s, params, c, events, offset), offset + |events|;
            var (next, holds) := TryNative(w, params, after, builtin, immediates, args);
            RunSegment(w, s, params, c, Segment(events, FastCall(builtin, immediates, args, native, fallback)), offset)
              == RunSegment(w, s, params, next, if holds then native else fallback, now)
  {
    hide RunEvents, TryNative;
  }

  lemma {:induction false} FastCovers(w: World, params: seq<Val>, events: seq<Event>, builtin: string,
      immediates: seq<int>, args: Pack, native: Segment, fallback: Segment, native': Segment, fallback': Segment,
      offset: nat)
    requires Covers(w, params, native, native', offset + |events|)
    requires Covers(w, params, fallback, fallback', offset + |events|)
    ensures Covers(w, params, Segment(events, FastCall(builtin, immediates, args, native, fallback)),
                   Segment(events, FastCall(builtin, immediates, args, native', fallback')), offset)
  {
    hide RunSegment, RunEvents, TryNative, Free, Ready, Grown, Agree, Covers;
    var one := Segment(events, FastCall(builtin, immediates, args, native, fallback));
    var other := Segment(events, FastCall(builtin, immediates, args, native', fallback'));
    forall c: Spot, s: Supply | Ready(c, offset) && Free(c, s) ensures Covered(w, params, one, other, offset, c, s) {
      var after := RunEvents(w, s, params, c, events, offset);
      var (next, holds) := TryNative(w, params, after, builtin, immediates, args);
      RunStaysFree(w, s, params, c, events, offset);
      TryStaysFree(w, s, params, after, builtin, immediates, args, offset + |events|);
      var s' := ArmCovered(w, params, c, s, events, offset, next, if holds then native else fallback,
        if holds then native' else fallback');
      FastRun(w, s, params, c, events, builtin, immediates, args, native, fallback, offset);
      FastRun(w, s', params, c, events, builtin, immediates, args, native', fallback', offset);
      assert Alternative(w, params, one, other, offset, c, s, s');
    }
    CoversAll(w, params, one, other, offset);
  }

  /** Events in front of both. */
  lemma {:induction false} PrefixCovers(w: World, params: seq<Val>, events: seq<Event>, one: Segment, other: Segment,
      offset: nat)
    requires Covers(w, params, one, other, offset + |events|)
    ensures Covers(w, params, Segment(events + one.events, one.end), Segment(events + other.events, other.end), offset)
  {
    hide RunSegment, RunEvents, Free, Ready, Agree, Covers;
    var first, second := Segment(events + one.events, one.end), Segment(events + other.events, other.end);
    forall c: Spot, s: Supply | Ready(c, offset) && Free(c, s) ensures Covered(w, params, first, second, offset, c, s) {
      var after := RunEvents(w, s, params, c, events, offset);
      RunStaysFree(w, s, params, c, events, offset);
      var s' := ArmCovered(w, params, c, s, events, offset, after, one, other);
      RunPrefixed(w, s, params, c, events, one, offset);
      RunPrefixed(w, s', params, c, events, other, offset);
      assert Alternative(w, params, first, second, offset, c, s, s');
    }
    CoversAll(w, params, first, second, offset);
  }
}
