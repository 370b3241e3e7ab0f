/** Runs that hand out addresses in order of birth, and runs that hand them out by identity:
    a normal form gives birth in another order, so it is matched by a permuted supply. */
module Supplies {
  import opened Sequences
  import opened Events
  import opened PrivateTables
  import opened SegmentRuns
  import opened TreeRuns

  /** No address is handed out twice. */
  ghost predicate NeverReused(s: Supply) { forall m: nat, n: nat :: s(m) == s(n) ==> m == n }

  /** Nothing yet uses the addresses that are still to be handed out. */
  ghost predicate Free(c: Spot, s: Supply) {
    && NeverReused(s)
    && (forall n: nat :: n >= c.born ==> s(n) !in c.mem.heap && s(n) !in c.mem.known)
    && (forall id: nat, n: nat :: id in c.env && n >= c.born ==> s(n) !in ReplyRefs(c.env[id]))
  }

  ghost predicate Ready(c: Spot, offset: nat) { forall id: nat :: id in c.env <==> id < offset }

  // ----- the allocating events in order -----

  function Births(items: Items): seq<nat> {
    if items == [] then []
    else Births(items[..|items| - 1]) + if Allocates(items[|items| - 1].1) then [items[|items| - 1].0] else []
  }

  lemma {:induction false} BirthsNext(items: Items, item: (nat, Event))
    ensures Births(items + [item]) == Births(items) + if Allocates(item.1) then [item.0] else []
  {
    assert (items + [item])[..|items|] == items;
  }

  lemma {:induction false} BirthsPrefix(items: Items, k: nat)
    requires k <= |items|
    ensures |Births(items[..k])| <= |Births(items)| && Births(items)[..|Births(items[..k])|] == Births(items[..k])
    decreases |items| - k
  {
    if k < |items| {
      BirthsPrefix(items, k + 1);
      assert items[..k + 1] == items[..k] + [items[k]];
      BirthsNext(items[..k], items[k]);
    } else {
      assert items[..k] == items;
    }
  }

  lemma {:induction false} BirthsAre(items: Items, id: nat)
    ensures id in Births(items) <==> exists k: nat :: k < |items| && items[k].0 == id && Allocates(items[k].1)
  {
    if items != [] {
      var n := |items| - 1;
      BirthsAre(items[..n], id);
      if id in Births(items[..n]) {
        var k: nat :| k < n && items[..n][k].0 == id && Allocates(items[..n][k].1);
        assert items[k].0 == id && Allocates(items[k].1);
      }
      if k: nat :| k < |items| && items[k].0 == id && Allocates(items[k].1) {
        if k < n { assert items[..n][k].0 == id && Allocates(items[..n][k].1); }
      }
    }
  }

  lemma {:induction false} BirthsUnrepeated(items: Items)
    requires forall i: nat, j: nat :: i < j < |items| ==> items[i].0 != items[j].0
    ensures Unrepeated(Births(items))
  {
    if items != [] {
      var n := |items| - 1;
      BirthsUnrepeated(items[..n]);
      BirthsAre(items[..n], items[n].0);
    }
  }

  // ----- by order of birth and by identity -----

  /** The supply hands each newborn of `items` the address `loc` has for it. */
  ghost predicate Supplied(s: Supply, born: nat, loc: nat -> int, births: seq<nat>) {
    forall n: nat :: n < |births| ==> s(born + n) == loc(births[n])
  }

  lemma {:induction false} RunByIdentity(w: World, s: Supply, loc: nat -> int, params: seq<Val>, c: Spot,
      events: seq<Event>, offset: nat, k: nat)
    requires k <= |events| && Supplied(s, c.born, loc, Births(Numbered(events, offset)))
    ensures var run := RunEvents(w, s, params, c, events[..k], offset);
            Config(run.env, run.mem) == RunItems(w, loc, params, Config(c.env, c.mem), Numbered(events, offset)[..k])
            && run.born == c.born + |Births(Numbered(events, offset)[..k])|
  {
    hide Perform, RequestOf;
    if k > 0 {
      var items, i := Numbered(events, offset), k - 1;
      RunByIdentity(w, s, loc, params, c, events, offset, i);
      assert events[..k][..i] == events[..i] && items[..k] == items[..i] + [items[i]] && items[..k][..i] == items[..i];
      BirthsNext(items[..i], items[i]);
      if Allocates(events[i]) {
        BirthsPrefix(items, k);
        assert Births(items)[|Births(items[..i])|] == items[i].0;
      } else {
        var run := RunEvents(w, s, params, c, events[..i], offset);
        AddressUnused(w, s(run.born), loc(offset + i), run.mem,
          RequestOf(params, run.env, events[i])) by { NoAllocation(params, run.env, events[i]); }
      }
    }
  }

  lemma {:induction false} NoAllocation(params: seq<Val>, env: Env, ev: Event)
    ensures RequestOf(params, env, ev).Allocate? <==> Allocates(ev)
  {
  }

  // ----- permuting a supply -----

  function IndexOf(xs: seq<nat>, x: nat): nat
    requires x in xs
    ensures IndexOf(xs, x) < |xs| && xs[IndexOf(xs, x)] == x
  {
    if xs[0] == x then 0 else 1 + IndexOf(xs[1..], x)
  }

  /** Addresses by identity: those the births get, and unused ones for everybody else. */
  function ByIdentity(s: Supply, born: nat, births: seq<nat>): nat -> int { (id: nat) => s(PlaceOf(born, births, id)) }

  function PlaceOf(born: nat, births: seq<nat>, id: nat): nat {
    if id in births then born + IndexOf(births, id) else born + |births| + id
  }

  function ByBirth(s: Supply, born: nat, loc: nat -> int, births: seq<nat>): Supply {
    (n: nat) => if born <= n < born + |births| then loc(births[n - born]) else s(n)
  }

  lemma {:induction false} IndexIs(xs: seq<nat>, n: nat)
    requires Unrepeated(xs) && n < |xs|
    ensures IndexOf(xs, xs[n]) == n
  {
  }

  lemma {:induction false} IdentityAt(s: Supply, born: nat, births: seq<nat>, n: nat)
    requires Unrepeated(births) && n < |births|
    ensures ByIdentity(s, born, births)(births[n]) == s(born + n)
  {
    hide Unrepeated, IndexOf;
    IndexIs(births, n);
    assert PlaceOf(born, births, births[n]) == born + n;
  }

  lemma {:induction false} IdentitySupplied(s: Supply, born: nat, births: seq<nat>)
    requires Unrepeated(births)
    ensures Supplied(s, born, ByIdentity(s, born, births), births)
  {
    hide Unrepeated, ByIdentity;
    forall n: nat | n < |births| ensures s(born + n) == ByIdentity(s, born, births)(births[n]) {
      IdentityAt(s, born, births, n);
    }
  }

  lemma {:induction false} Size(xs: seq<nat>, elements: set<nat>)
    requires Unrepeated(xs) && forall x :: x in elements <==> x in xs
    ensures |elements| == |xs|
  {
    if xs == [] {
      assert elements == {};
    } else {
      var n := |xs| - 1;
      assert xs == xs[..n] + [xs[n]];
      Size(xs[..n], elements - {xs[n]});
    }
  }

  lemma {:induction false} PermutedSupply(s: Supply, c: Spot, xs: seq<nat>, ys: seq<nat>)
    requires Unrepeated(xs) && Unrepeated(ys) && (forall x :: x in xs <==> x in ys) && Free(c, s)
    ensures var loc := ByIdentity(s, c.born, xs);
            var s' := ByBirth(s, c.born, loc, ys);
            Supplied(s', c.born, loc, ys) && Agree(s, s', c.born) && Free(c, s')
  {
    var elements := set x | x in xs;
    Size(xs, elements);
    Size(ys, elements);
    hide Free, Unrepeated, IndexOf, ByIdentity, ByBirth, Source;
    forall n: nat ensures ByBirth(s, c.born, ByIdentity(s, c.born, xs), ys)(n) == s(Source(c.born, xs, ys, n)) {
      PermutedAt(s, c.born, xs, ys, n);
    }
    PermutedFree(s, c, xs, ys, ByBirth(s, c.born, ByIdentity(s, c.born, xs), ys));
    ByBirthFacts(s, c.born, ByIdentity(s, c.born, xs), ys);
  }

  lemma {:induction false} ByBirthFacts(s: Supply, born: nat, loc: nat -> int, births: seq<nat>)
    ensures Supplied(ByBirth(s, born, loc, births), born, loc, births) && Agree(s, ByBirth(s, born, loc, births), born)
  {
  }

  lemma {:induction false} PermutedAt(s: Supply, born: nat, xs: seq<nat>, ys: seq<nat>, n: nat)
    requires forall x :: x in xs <==> x in ys
    ensures ByBirth(s, born, ByIdentity(s, born, xs), ys)(n) == s(Source(born, xs, ys, n))
  {
    hide IndexOf;
    if born <= n < born + |ys| {
      assert ys[n - born] in xs;
      assert PlaceOf(born, xs, ys[n - born]) == Source(born, xs, ys, n);
      assert ByIdentity(s, born, xs)(ys[n - born]) == s(PlaceOf(born, xs, ys[n - born]));
    }
  }

  lemma {:induction false} PermutedFree(s: Supply, c: Spot, xs: seq<nat>, ys: seq<nat>, s': Supply)
    requires Unrepeated(xs) && Unrepeated(ys) && |xs| == |ys| && (forall x :: x in xs <==> x in ys) && Free(c, s)
    requires forall n: nat :: s'(n) == s(Source(c.born, xs, ys, n))
    ensures Free(c, s')
  {
    hide Unrepeated, Source;
    forall m: nat, n: nat | s'(m) == s'(n) ensures m == n {
      SourceApart(c.born, xs, ys, m, n);
    }
    forall n: nat | n >= c.born ensures Source(c.born, xs, ys, n) >= c.born { SourceLater(c.born, xs, ys, n); }
  }

  lemma {:induction false} SourceLater(born: nat, xs: seq<nat>, ys: seq<nat>, n: nat)
    requires (forall x :: x in xs <==> x in ys) && n >= born
    ensures Source(born, xs, ys, n) >= born
  {
  }

  /** Where the permuted supply takes its `n`th address from. */
  function Source(born: nat, xs: seq<nat>, ys: seq<nat>, n: nat): nat
    requires forall x :: x in xs <==> x in ys
  {
    if born <= n < born + |ys| then born + IndexOf(xs, ys[n - born]) else n
  }

  lemma {:induction false} SourceApart(born: nat, xs: seq<nat>, ys: seq<nat>, m: nat, n: nat)
    requires Unrepeated(xs) && Unrepeated(ys) && |xs| == |ys| && forall x :: x in xs <==> x in ys
    requires Source(born, xs, ys, m) == Source(born, xs, ys, n)
    ensures m == n
  {
  }
}
