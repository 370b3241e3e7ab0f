/** The comparison loop, and what it conserves. */
module PrototypeConservation {
  import opened Options
  import opened Sequences
  import opened PrototypeMatch
  import opened PrototypeRanking
  import opened PrototypePairs
  import opened PrototypeCompare

  ghost predicate HasNew(pairs: Pairs, id: int) { exists i :: 0 <= i < |pairs| && pairs[i].2.id == id }

  ghost predicate Occurs(root: Proto, p: Proto) { exists a: Path :: At(root, a) == Some(p) }

  /** Every pair names an original prototype by its path, with a prototype of the rebuilt tree. */
  ghost predicate Genuine(orig: Proto, new': Proto, pairs: Pairs) {
    forall i :: 0 <= i < |pairs| ==> At(orig, pairs[i].0) == Some(pairs[i].1) && Occurs(new', pairs[i].2)
  }

  /** No original and no rebuilt prototype is in two pairs. */
  ghost predicate PairedOnce(pairs: Pairs) {
    forall i, j :: 0 <= i < j < |pairs| ==> pairs[i].0 != pairs[j].0 && pairs[i].2.id != pairs[j].2.id
  }

  ghost predicate AllMissing(orig: Proto, pairs: Pairs, missing: seq<Path>) {
    forall q: Path :: q in missing <==> At(orig, q).Some? && !HasPair(pairs, q)
  }

  ghost predicate AllExtra(new': Proto, pairs: Pairs, extra: seq<Path>) {
    forall a: Path :: a in extra <==> At(new', a).Some? && !HasNew(pairs, At(new', a).value.id)
  }

  /** Every original prototype is in exactly one pair or missing, every rebuilt one in exactly
      one pair or extra, and nothing else is in any of the three. */
  ghost predicate Conserved(orig: Proto, new': Proto, pairs: Pairs, missing: seq<Path>, extra: seq<Path>) {
    && Genuine(orig, new', pairs) && PairedOnce(pairs)
    && Unrepeated(missing) && Unrepeated(extra)
    && AllMissing(orig, pairs, missing) && AllExtra(new', pairs, extra)
  }

  // ----- the first phase -----

  lemma {:induction false} RootsMatch(orig: Proto, new': Proto, keyed: Keyed)
    requires KeyedBy(keyed, new')
    ensures Matched(orig, new', [([], orig, new')], map[[] := []], {orig.id}, {new'.id})
    ensures Frontier(new', keyed, map[[] := []], [[]])
  {
    var root: Path := [];
    var partners: Partners := map[root := root];
    var pairs: Pairs := [(root, orig, new')];
    assert HasPair(pairs, root) by { assert pairs[0].0 == root; }
    assert PairFits(orig, new', partners, pairs[0]);
    forall id
      ensures id in {orig.id} <==> UsedOriginal(orig, partners, id)
    {
      if id == orig.id { assert root in partners; }
    }
    forall id ensures id in {new'.id} <==> UsedNew(new', partners, id) { if id == new'.id { assert root in partners; } }
    forall s: Path ensures EntryAt(new', keyed, root, root, s) { assert root + s == s; }
    assert Waiting(new', keyed, partners, root);
  }

  lemma {:induction false} QueueRest(new': Proto, keyed: Keyed, partners: Partners, queue: seq<Path>)
    requires Frontier(new', keyed, partners, queue) && queue != []
    ensures Frontier(new', keyed, partners, queue[1..]) && Waiting(new', keyed, partners, queue[0])
    ensures queue == [queue[0]] + queue[1..]
  {
    hide Waiting;
  }

  /** The re-keyed map gives a waiting parent's partner and the partner's children. */
  lemma {:induction false} PartnerOf(new': Proto, keyed: Keyed, partners: Partners, r: Path)
    requires Waiting(new', keyed, partners, r) && At(new', partners[r]).Some?
    ensures r in keyed && keyed[r] == At(new', partners[r]).value
    ensures forall i: nat :: i < |keyed[r].kids| ==> KidEntryIs(new', keyed, partners[r], r, i)
  {
    assert EntryAt(new', keyed, r, partners[r], []);
    assert r + [] == r && partners[r] + [] == partners[r];
    forall i: nat | i < |keyed[r].kids| ensures KidEntryIs(new', keyed, partners[r], r, i) {
      assert EntryAt(new', keyed, r, partners[r], [i]);
      AtKid(new', partners[r], i);
    }
  }

  ghost predicate KidEntryIs(new': Proto, keyed: Keyed, a: Path, r: Path, i: nat) {
    r + [i] in keyed && At(new', a + [i]) == Some(keyed[r + [i]])
  }

  lemma {:induction false} KidsOf(orig: Proto, keyed: Keyed, r: Path)
    requires KeyedBy(keyed, orig) && r in keyed
    ensures forall i: nat :: i < |keyed[r].kids| ==> KidEntryIs(orig, keyed, r, r, i)
  {
    forall i: nat | i < |keyed[r].kids| ensures KidEntryIs(orig, keyed, r, r, i) { AtKid(orig, r, i); }
  }

  lemma {:induction false} QueueMore(rest: seq<Path>, r: Path, kids: KidPairs, t: nat)
    requires t < |kids|
    ensures rest + KidPaths(r, kids)[..t + 1] == rest + KidPaths(r, kids)[..t] + [r + [kids[t].0]]
  {
  }

  lemma {:induction false} GrowsBy(partners: Partners, r: Path, kids: KidPairs, everything: set<Path>, orig: Proto,
      new': Proto)
    requires r in partners && Untouched(partners, r) && Unrepeated(Firsts(kids))
    requires PartnersFit(orig, new', AfterTurn(partners, r, kids))
    requires forall q: Path :: q in everything <==> At(orig, q).Some?
    ensures AfterTurn(partners, r, kids).Keys <= everything && partners.Keys <= AfterTurn(partners, r, kids).Keys
    ensures kids != [] ==> everything - AfterTurn(partners, r, kids).Keys < everything - partners.Keys
  {
    forall q ensures q in partners ==> q in AfterTurn(partners, r, kids) { AfterTurnIs(partners, r, kids, q); }
    if kids != [] {
      var q := r + [kids[0].0];
      AfterTurnIs(partners, r, kids, q);
      KidIsNew(partners, r, kids, 0);
      assert q in everything - partners.Keys && q !in everything - AfterTurn(partners, r, kids).Keys;
    }
  }

  /** The partners of the children of `r` are children of its partner, paired as `kids` says. */
  ghost predicate KidsFollow(partners: Partners, r: Path, kids: KidPairs)
    requires r in partners
  {
    forall p :: p in kids ==> r + [p.0] in partners && partners[r + [p.0]] == partners[r] + [p.1]
  }

  /** When a pair has equally many children, they are paired with each other, and well. */
  ghost predicate KidsMeet(orig: Proto, new': Proto, partners: Partners, similarity: (Proto, Proto) -> real, r: Path)
    requires r in partners
  {
    SameCount(orig, new', partners, r) ==>
      exists kids: KidPairs :: KidsFollow(partners, r, kids) &&
        PairedWell(At(orig, r).value.kids, At(new', partners[r]).value.kids, similarity, kids)
  }

  ghost predicate SameCount(orig: Proto, new': Proto, partners: Partners, r: Path)
    requires r in partners
  {
    At(orig, r).Some? && At(new', partners[r]).Some? &&
    |At(orig, r).value.kids| == |At(new', partners[r]).value.kids|
  }

  ghost predicate AllMeet(orig: Proto, new': Proto, partners: Partners, similarity: (Proto, Proto) -> real,
      queue: seq<Path>)
  {
    forall r :: r in partners && r !in queue ==> KidsMeet(orig, new', partners, similarity, r)
  }

  /** Found from the roots down: each parent on the way has a partner with as many children. */
  ghost predicate TopDown(orig: Proto, new': Proto, partners: Partners, q: Path)
    decreases |q|
  {
    q == [] ||
    var r := q[..|q| - 1];
    r in partners && SameCount(orig, new', partners, r) && TopDown(orig, new', partners, r)
  }

  ghost predicate AllTopDown(orig: Proto, new': Proto, partners: Partners) {
    forall q :: q in partners ==> TopDown(orig, new', partners, q)
  }

  ghost predicate Extended(partners: Partners, more: Partners) {
    forall q :: q in partners ==> q in more && more[q] == partners[q]
  }

  lemma {:induction false} TopDownStays(orig: Proto, new': Proto, partners: Partners, more: Partners, q: Path)
    requires Extended(partners, more) && TopDown(orig, new', partners, q)
    ensures TopDown(orig, new', more, q)
    decreases |q|
  {
    if q != [] { TopDownStays(orig, new', partners, more, q[..|q| - 1]); }
  }

  lemma {:induction false} KidsMeetLater(orig: Proto, new': Proto, partners: Partners, more: Partners,
      similarity: (Proto, Proto) -> real, r: Path)
    requires Extended(partners, more) && r in partners && KidsMeet(orig, new', partners, similarity, r)
    ensures KidsMeet(orig, new', more, similarity, r)
  {
    hide PairedWell;
    if SameCount(orig, new', partners, r) {
      var kids: KidPairs :| KidsFollow(partners, r, kids) &&
        PairedWell(At(orig, r).value.kids, At(new', partners[r]).value.kids, similarity, kids);
      assert KidsFollow(more, r, kids);
    }
  }

  /** The children of a turn extend the partners, follow the parent's, and are found from the root. */
  lemma {:induction false} TurnExtends(orig: Proto, new': Proto, keyed: Keyed, before: Partners, r: Path,
      kids: KidPairs, k: nat, partners: Partners)
    requires Waiting(new', keyed, before, r) && Pairing(kids, [], [], k)
    requires partners == WithKids(before, r, before[r], kids, |kids|)
    ensures Extended(before, partners) && KidsFollow(partners, r, kids)
    ensures forall q :: q in partners ==> q in before || q in KidPaths(r, kids)
  {
    forall i: nat | i < |kids| ensures r + [kids[i].0] !in before && r + [kids[i].0] in KidPaths(r, kids) {
      KidIsNew(before, r, kids, i);
      assert KidPaths(r, kids)[i] == r + [kids[i].0];
    }
    forall q
      ensures q in before ==> q in partners && partners[q] == before[q]
      ensures q in partners ==> q in before || q in KidPaths(r, kids)
    {
      WithKidsIs(before, r, before[r], kids, |kids|, q);
    }
    forall p | p in kids ensures r + [p.0] in partners && partners[r + [p.0]] == partners[r] + [p.1] {
      var i: nat :| i < |kids| && kids[i] == p;
      WithKidsIs(before, r, before[r], kids, |kids|, r + [p.0]);
    }
  }

  lemma {:induction false} TurnMeets(orig: Proto, new': Proto, keyed: Keyed, before: Partners,
      similarity: (Proto, Proto) -> real, r: Path, kids: KidPairs, k: nat, rest: seq<Path>, partners: Partners)
    requires r in before && Waiting(new', keyed, before, r) && Pairing(kids, [], [], k)
    requires SameCount(orig, new', before, r)
    requires PairedWell(At(orig, r).value.kids, At(new', before[r]).value.kids, similarity, kids)
    requires partners == WithKids(before, r, before[r], kids, |kids|)
    requires AllMeet(orig, new', before, similarity, [r] + rest) && AllTopDown(orig, new', before)
    ensures AllMeet(orig, new', partners, similarity, rest + KidPaths(r, kids)) && AllTopDown(orig, new', partners)
  {
    hide PairedWell, Waiting, Pairing, WithKids;
    TurnExtends(orig, new', keyed, before, r, kids, k, partners);
    forall q | q in partners && q !in rest + KidPaths(r, kids) ensures KidsMeet(orig, new', partners, similarity, q) {
      if q != r {
        assert q !in [r] + rest && KidsMeet(orig, new', before, similarity, q);
        KidsMeetLater(orig, new', before, partners, similarity, q);
      }
    }
    forall q | q in partners ensures TopDown(orig, new', partners, q) {
      TopDownStays(orig, new', before, partners, r);
      if q in before {
        TopDownStays(orig, new', before, partners, q);
      } else {
        var i :| 0 <= i < |KidPaths(r, kids)| && KidPaths(r, kids)[i] == q;
        assert q[..|q| - 1] == r;
      }
    }
  }

  lemma {:induction false} RootMeets(orig: Proto, new': Proto, similarity: (Proto, Proto) -> real)
    ensures AllMeet(orig, new', map[[] := []], similarity, [[]]) && AllTopDown(orig, new', map[[] := []])
  {
  }

  lemma {:induction false} OtherCount(orig: Proto, new': Proto, partners: Partners,
      similarity: (Proto, Proto) -> real, r: Path, rest: seq<Path>)
    requires r in partners && At(orig, r).Some? && At(new', partners[r]).Some?
    requires AllMeet(orig, new', partners, similarity, [r] + rest)
    requires |At(orig, r).value.kids| != |At(new', partners[r]).value.kids|
    ensures AllMeet(orig, new', partners, similarity, rest)
  {
  }

  method PairTopDown(orig: Proto, new': Proto, oKeyed: Keyed, nKeyed: Keyed, similarity: (Proto, Proto) -> real)
    returns (pairs: Pairs, usedO: set<int>, usedN: set<int>, ghost partners: Partners)
    requires KeyedBy(oKeyed, orig) && KeyedBy(nKeyed, new')
    ensures Matched(orig, new', pairs, partners, usedO, usedN)
    ensures [] in partners && partners[[]] == [] && AllMeet(orig, new', partners, similarity, [])
    ensures AllTopDown(orig, new', partners) && |pairs| > 0 && pairs[0] == ([], orig, new')
  {
    hide AllMeet, KidsMeet, AllTopDown, ShapesMeet, Unrepeated, Frontier, Matched, Waiting, Pairing, MovesOf, WithKids,
      Origin,
      PartnersFit;
    var root: Path := [];
    pairs, usedO, usedN, partners := [(root, orig, new')], {orig.id}, {new'.id}, map[root := root];
    var queue: seq<Path>, keyed: Keyed := [root], nKeyed;
    RootsMatch(orig, new', nKeyed);
    RootMeets(orig, new', similarity);
    while queue != []
      invariant Matched(orig, new', pairs, partners, usedO, usedN) && Frontier(new', keyed, partners, queue)
      invariant root in partners && partners[root] == root && AllMeet(orig, new', partners, similarity, queue)
      invariant AllTopDown(orig, new', partners) && [(root, orig, new')] <= pairs
      decreases oKeyed.Keys - partners.Keys, |queue|
    {
      var parent: Path, rest: seq<Path> := queue[0], queue[1..];
      QueueRest(new', keyed, partners, queue);
      queue := rest;
      WaitingHas(orig, new', keyed, pairs, partners, usedO, usedN, parent);
      PartnerOf(new', keyed, partners, parent);
      KidsOf(orig, oKeyed, parent);
      if |oKeyed[parent].kids| != |keyed[parent].kids| {
        OtherCount(orig, new', partners, similarity, parent, rest);
        continue;
      }
      pairs, usedO, usedN, partners, queue, keyed :=
        PairChildren(orig, new', oKeyed, keyed, similarity, pairs, usedO, usedN, partners, parent, rest);
    }
  }

  /** One parent's turn: its children are paired and queued, and the partner's subtrees re-keyed. */
  method PairChildren(orig: Proto, new': Proto, oKeyed: Keyed, keyed0: Keyed, similarity: (Proto, Proto) -> real,
      pairs0: Pairs, usedO0: set<int>, usedN0: set<int>, ghost before: Partners, parent: Path, rest: seq<Path>)
    returns (pairs: Pairs, usedO: set<int>, usedN: set<int>, ghost partners: Partners, queue: seq<Path>, keyed: Keyed)
    requires KeyedBy(oKeyed, orig) && Matched(orig, new', pairs0, before, usedO0, usedN0)
    requires Frontier(new', keyed0, before, [parent] + rest) && Waiting(new', keyed0, before, parent)
    requires AllMeet(orig, new', before, similarity, [parent] + rest) && [] in before && before[[]] == []
    requires AllTopDown(orig, new', before)
    requires parent in oKeyed && parent in keyed0 && |oKeyed[parent].kids| == |keyed0[parent].kids|
    requires At(new', before[parent]) == Some(keyed0[parent])
    requires forall i: nat :: i < |keyed0[parent].kids| ==> KidEntryIs(new', keyed0, before[parent], parent, i)
    ensures Matched(orig, new', pairs, partners, usedO, usedN) && Frontier(new', keyed, partners, queue)
    ensures AllMeet(orig, new', partners, similarity, queue) && [] in partners && partners[[]] == []
    ensures AllTopDown(orig, new', partners) && pairs0 <= pairs
    ensures oKeyed.Keys - partners.Keys < oKeyed.Keys - before.Keys || (partners == before && queue == rest)
  {
    hide AllMeet, KidsMeet, AllTopDown, ShapesMeet, NoneWouldSwap, PairedWell, Unrepeated, Frontier, Matched, Waiting,
      Pairing, MovesOf,
      WithKids, Origin, PartnersFit;
    var root: Path := [];
    pairs, usedO, usedN, partners, keyed := pairs0, usedO0, usedN0, before, keyed0;
    queue := rest;
    WaitingHas(orig, new', keyed0, pairs0, before, usedO0, usedN0, parent);
    KidsOf(orig, oKeyed, parent);
    var k := |oKeyed[parent].kids|;
    var oKids := seq(k,
      i requires 0 <= i < k => assert KidEntryIs(orig, oKeyed, parent, parent, i); oKeyed[parent + [i]]);
    var nKids := seq(k,
      i requires 0 <= i < k => assert KidEntryIs(new', keyed, before[parent], parent, i); keyed[parent + [i]]);
    SameKids(orig, new', oKeyed, keyed, before, parent, oKids, nKids);
    var kids := PairKids(oKids, nKids, similarity);
    var moves: Moves := [];
    KidsStart(before, parent, kids, k, rest);
    for t := 0 to |kids|
      invariant Matched(orig, new', pairs, partners, usedO, usedN)
      invariant partners == WithKids(before, parent, before[parent], kids, t)
      invariant root in partners && partners[root] == root && pairs0 <= pairs
      invariant moves == MovesOf(parent, kids, t) && queue == rest + KidPaths(parent, kids)[..t]
    {
      var (oi, ni) := kids[t];
      KidsBelow(kids, k, t);
      assert KidEntryIs(orig, oKeyed, parent, parent, oi) && KidEntryIs(new', keyed, before[parent], parent, ni);
      var opath: Path := parent + [oi];
      var okid, nkid := oKeyed[opath], keyed[parent + [ni]];
      NextPair(orig, new', keyed, pairs, partners, usedO, usedN, before, parent, kids, k, t, okid, nkid);
      pairs, usedN, usedO := pairs + [(opath, okid, nkid)], usedN + {nkid.id}, usedO + {okid.id};
      partners := partners[opath := before[parent] + [ni]];
      if oi != ni { moves := moves + [(parent + [ni], opath)]; }
      QueueMore(rest, parent, kids, t);
      queue := queue + [opath];
      KidsNext(before, parent, kids, t);
    }
    TurnMeets(orig, new', keyed0, before, similarity, parent, kids, k, rest, partners);
    MovesPermute(parent, kids, k);
    if moves != [] {
      keyed := RemapSubtrees(keyed0, moves, parent);
    } else {
      NoMoves();
    }
    TurnEnds(orig, new', keyed0, keyed, before, parent, kids, k, rest, pairs, partners, usedO, usedN, oKeyed.Keys);
    assert KidPaths(parent, kids)[..|kids|] == KidPaths(parent, kids);
  }

  lemma {:induction false} SameKids(orig: Proto, new': Proto, oKeyed: Keyed, keyed: Keyed, partners: Partners, r: Path,
      oKids: seq<Proto>, nKids: seq<Proto>)
    requires r in partners && r in oKeyed && r in keyed && |oKids| == |oKeyed[r].kids| == |nKids| == |keyed[r].kids|
    requires At(orig, r) == Some(oKeyed[r]) && At(new', partners[r]) == Some(keyed[r])
    requires forall i: nat :: i < |oKids| ==> KidEntryIs(orig, oKeyed, r, r, i) && oKids[i] == oKeyed[r + [i]]
    requires forall i: nat :: i < |nKids| ==> KidEntryIs(new', keyed, partners[r], r, i) && nKids[i] == keyed[r + [i]]
    ensures oKids == At(orig, r).value.kids && nKids == At(new', partners[r]).value.kids
    ensures SameCount(orig, new', partners, r)
  {
    forall i: nat | i < |oKids| ensures oKids[i] == oKeyed[r].kids[i] && nKids[i] == keyed[r].kids[i] {
      AtKid(orig, r, i);
      AtKid(new', partners[r], i);
    }
  }

  lemma {:induction false} NoMoves()
    ensures forall key: Path :: Origin([], key) == key
  {
  }

  lemma {:induction false} WaitingHas(orig: Proto, new': Proto, keyed: Keyed, pairs: Pairs, partners: Partners,
      usedO: set<int>, usedN: set<int>, r: Path)
    requires Matched(orig, new', pairs, partners, usedO, usedN) && Waiting(new', keyed, partners, r)
    ensures r in partners && At(orig, r).Some? && At(new', partners[r]).Some?
  {
  }

  lemma {:induction false} KidsStart(partners: Partners, r: Path, kids: KidPairs, k: nat, rest: seq<Path>)
    requires r in partners
    ensures WithKids(partners, r, partners[r], kids, 0) == partners && MovesOf(r, kids, 0) == []
    ensures rest + KidPaths(r, kids)[..0] == rest
  {
  }

  lemma {:induction false} KidsNext(partners: Partners, r: Path, kids: KidPairs, t: nat)
    requires r in partners && t < |kids|
    ensures WithKids(partners, r, partners[r], kids, t + 1)
        == WithKids(partners, r, partners[r], kids, t)[r + [kids[t].0] := partners[r] + [kids[t].1]]
    ensures MovesOf(r, kids, t + 1)
        == MovesOf(r, kids, t) + if kids[t].0 != kids[t].1 then [(r + [kids[t].1], r + [kids[t].0])] else []
  {
  }

  lemma {:induction false} NextPair(orig: Proto, new': Proto, keyed: Keyed, pairs: Pairs, partners: Partners,
      usedO: set<int>, usedN: set<int>, before: Partners, r: Path, kids: KidPairs, k: nat, t: nat, x: Proto, y: Proto)
    requires Matched(orig, new', pairs, partners, usedO, usedN) && Waiting(new', keyed, before, r)
    requires Pairing(kids, [], [], k) && t < |kids|
    requires PartnersFit(orig, new', partners) ==> partners == WithKids(before, r, before[r], kids, t)
    requires At(orig, r + [kids[t].0]) == Some(x) && At(new', before[r] + [kids[t].1]) == Some(y)
    ensures Matched(orig, new', pairs + [(r + [kids[t].0], x, y)], partners[r + [kids[t].0] := before[r] + [kids[t].1]],
        usedO + {x.id}, usedN + {y.id})
  {
    hide WithKids, SubtreeAt;
    NextKidIn(orig, new', partners, before, r, kids, t);
    MatchOne(orig, new', pairs, partners, usedO, usedN, r + [kids[t].0], before[r] + [kids[t].1], x, y);
  }

  lemma {:induction false} NextKidIn(orig: Proto, new': Proto, partners: Partners, before: Partners, r: Path,
      kids: KidPairs, t: nat)
    requires r in before && Untouched(before, r) && t < |kids| && Unrepeated(Firsts(kids)) && Unrepeated(Seconds(kids))
    requires partners == WithKids(before, r, before[r], kids, t) && PartnersFit(orig, new', partners)
    ensures r + [kids[t].0] !in partners && forall q :: q in partners ==> partners[q] != before[r] + [kids[t].1]
  {
    StartsFit(orig, new', partners, before, r, kids, t);
    NextKid(orig, new', before, r, kids, t);
  }

  lemma {:induction false} StartsFit(orig: Proto, new': Proto, partners: Partners, before: Partners, r: Path,
      kids: KidPairs, t: nat)
    requires r in before && Untouched(before, r) && t <= |kids| && Unrepeated(Firsts(kids))
    requires partners == WithKids(before, r, before[r], kids, t) && PartnersFit(orig, new', partners)
    ensures PartnersFit(orig, new', before)
  {
    forall i: nat | i < |kids| ensures r + [kids[i].0] !in before { KidIsNew(before, r, kids, i); }
    forall q
      ensures q in before ==> q in partners && partners[q] == before[q]
    {
      WithKidsIs(before, r, before[r], kids, t, q);
    }
  }

  lemma {:induction false} TurnEnds(orig: Proto, new': Proto, keyed: Keyed, keyed': Keyed, before: Partners, r: Path,
      kids: KidPairs, k: nat, rest: seq<Path>, pairs: Pairs, partners: Partners, usedO: set<int>, usedN: set<int>,
      everything: set<Path>)
    requires Pairing(kids, [], [], k) && Waiting(new', keyed, before, r) && At(new', before[r]).Some?
    requires k == |At(new', before[r]).value.kids|
    requires forall key: Path :: key in keyed' <==> Origin(MovesOf(r, kids, |kids|), key) in keyed
    requires forall key: Path :: key in keyed' ==> keyed'[key] == keyed[Origin(MovesOf(r, kids, |kids|), key)]
    requires Frontier(new', keyed, before, [r] + rest) && partners == WithKids(before, r, before[r], kids, |kids|)
    requires Matched(orig, new', pairs, partners, usedO, usedN)
    requires forall q: Path :: q in everything <==> At(orig, q).Some?
    ensures Frontier(new', keyed', partners, rest + KidPaths(r, kids))
    ensures kids != [] ==> everything - partners.Keys < everything - before.Keys
    ensures kids == [] ==> partners == before
  {
    hide Origin, SubtreeAt, Frontier, MovesOf;
    assert Turn(new', keyed, keyed', before, r, kids, k);
    assert partners == AfterTurn(before, r, kids);
    NextFrontier(new', keyed, keyed', before, r, kids, k, rest);
    GrowsBy(before, r, kids, everything, orig, new');
  }

  // ----- the second phase -----

  /** The rest of a chunk's prototypes, in tree order. */
  function Unused(list: Entries, used: set<int>): Entries {
    if list == [] then []
    else Unused(list[..|list| - 1], used) + if list[|list| - 1].1.id in used then [] else [list[|list| - 1]]
  }

  lemma {:induction false} UnusedIs(list: Entries, used: set<int>, e: (Path, Proto))
    ensures e in Unused(list, used) <==> e in list && e.1.id !in used
  {
    if list != [] {
      UnusedIs(list[..|list| - 1], used, e);
      assert list == list[..|list| - 1] + [list[|list| - 1]];
    }
  }

  lemma {:induction false} UnusedOnce(list: Entries, used: set<int>)
    requires OnceEach(list)
    ensures OnceEach(Unused(list, used))
  {
    if list != [] {
      var n := |list| - 1;
      UnusedOnce(list[..n], used);
      var front := Unused(list[..n], used);
      forall i | 0 <= i < |front| ensures front[i].0 != list[n].0 {
        assert front[i] in front;
        UnusedIs(list[..n], used, front[i]);
      }
    }
  }

  lemma {:induction false} UnusedInOrder(list: Entries, used: set<int>)
    requires InTreeOrder(list)
    ensures InTreeOrder(Unused(list, used))
  {
    hide PathBefore;
    if list != [] {
      var n := |list| - 1;
      UnusedInOrder(list[..n], used);
      var front := Unused(list[..n], used);
      forall i | 0 <= i < |front| ensures PathBefore(front[i].0, list[n].0) {
        assert front[i] in front;
        UnusedIs(list[..n], used, front[i]);
      }
    }
  }

  function Paths(list: Entries): seq<Path> { seq(|list|, i requires 0 <= i < |list| => list[i].0) }

  /** No free entry is more similar than `score`. */
  ghost predicate NoneAbove(x: Proto, rest: Entries, usedN: set<int>, similarity: (Proto, Proto) -> real, score: real) {
    forall j :: 0 <= j < |rest| && rest[j].1.id !in usedN ==> similarity(x, rest[j].1) <= score
  }

  /** The most similar prototype that is still free, the first of several, if it is similar enough. */
  method BestFree(x: Proto, rest: Entries, usedN: set<int>, similarity: (Proto, Proto) -> real)
    returns (best: Option<(Path, Proto)>, ghost at: nat)
    ensures best.Some? ==>
        at < |rest| && best.value == rest[at] && rest[at].1.id !in usedN && similarity(x, rest[at].1) >= 0.5
    ensures best.Some? ==> NoneAbove(x, rest, usedN, similarity, similarity(x, rest[at].1))
    ensures best.Some? ==>
        forall j :: 0 <= j < at && rest[j].1.id !in usedN ==> similarity(x, rest[j].1) < similarity(x, rest[at].1)
    ensures best.None? ==> forall e :: e in rest && e.1.id !in usedN ==> similarity(x, e.1) < 0.5
  {
    best, at := None, 0;
    var score := 0.0;
    for i := 0 to |rest|
      invariant best.Some? ==>
          at < i && best.value == rest[at] && rest[at].1.id !in usedN && similarity(x, rest[at].1) == score
      invariant forall j :: 0 <= j < i && rest[j].1.id !in usedN ==> similarity(x, rest[j].1) <= score
      invariant best.Some? ==> forall j :: 0 <= j < at && rest[j].1.id !in usedN ==> similarity(x, rest[j].1) < score
      invariant best.None? ==> score == 0.0
    {
      if rest[i].1.id in usedN { continue; }
      var s := similarity(x, rest[i].1);
      if s > score { score, best, at := s, Some(rest[i]), i; }
    }
    if score < 0.5 { best := None; }
  }

  /** An unused prototype has no partner. */
  lemma {:induction false} UnusedHasNone(orig: Proto, new': Proto, pairs: Pairs, partners: Partners, usedO: set<int>,
      usedN: set<int>, q: Path, x: Proto)
    requires Matched(orig, new', pairs, partners, usedO, usedN) && At(orig, q) == Some(x) && x.id !in usedO
    ensures q !in partners
  {
    if q in partners { assert UsedOriginal(orig, partners, x.id); }
  }

  lemma {:induction false} UnusedIsNone(orig: Proto, new': Proto, pairs: Pairs, partners: Partners, usedO: set<int>,
      usedN: set<int>, a: Path, y: Proto)
    requires Matched(orig, new', pairs, partners, usedO, usedN) && At(new', a) == Some(y) && y.id !in usedN
    ensures forall q :: q in partners ==> partners[q] != a
  {
    forall q | q in partners ensures partners[q] != a {
      if partners[q] == a { assert UsedNew(new', partners, y.id); }
    }
  }

  /** When the original at `q` has its turn, the rebuilt prototype at `a` has not been paired from the
      roots down, nor with an original earlier in tree order. */
  ghost predicate FreeAt(first: set<Path>, partners: Partners, q: Path, a: Path) {
    forall p :: p in partners && partners[p] == a ==> p !in first && !PathBefore(p, q)
  }

  /** The partner, if there is one, is similar enough, no less similar than anything else free at its
      turn, and more similar than what is free and comes before it. */
  ghost predicate NotBetter(orig: Proto, new': Proto, partners: Partners, similarity: (Proto, Proto) -> real, q: Path,
      a: Path)
    requires At(orig, q).Some? && At(new', a).Some?
  {
    var x, s := At(orig, q).value, similarity(At(orig, q).value, At(new', a).value);
    if q in partners then
      At(new', partners[q]).Some? &&
      var best := similarity(x, At(new', partners[q]).value);
      best >= 0.5 && s <= best && (PathBefore(a, partners[q]) ==> s < best)
    else s < 0.5
  }

  ghost predicate BestAtTurn(orig: Proto, new': Proto, first: set<Path>, partners: Partners,
      similarity: (Proto, Proto) -> real, q: Path)
  {
    At(orig, q).Some? && forall a: Path :: At(new', a).Some? && FreeAt(first, partners, q, a) ==>
      NotBetter(orig, new', partners, similarity, q, a)
  }

  lemma {:induction false} BestStays(orig: Proto, new': Proto, first: set<Path>, partners: Partners, more: Partners,
      similarity: (Proto, Proto) -> real, q: Path)
    requires Extended(partners, more) && (q in more ==> q in partners)
    requires BestAtTurn(orig, new', first, partners, similarity, q)
    ensures BestAtTurn(orig, new', first, more, similarity, q)
  {
    hide PathBefore;
    forall a: Path | At(new', a).Some? && FreeAt(first, more, q, a)
      ensures NotBetter(orig, new', more, similarity, q, a)
    {
      assert FreeAt(first, partners, q, a);
    }
  }

  /** What was free at a turn was in the list and not used yet. */
  lemma {:induction false} FreeIsUnused(orig: Proto, new': Proto, restN: Entries, first: set<Path>,
      partners0: Partners, partners: Partners, pairs: Pairs, usedO: set<int>, usedN: set<int>, more: Partners, q: Path,
      a: Path) returns (j: nat)
    requires Matched(orig, new', pairs, partners, usedO, usedN) && IsTree(new') && Extended(partners, more)
    requires forall p :: p in partners ==> p in first || PathBefore(p, q)
    requires forall b: Path :: At(new', b).Some? && At(new', b).value.id !in usedN ==> (b, At(new', b).value) in restN
    requires At(new', a).Some? && FreeAt(first, more, q, a)
    ensures j < |restN| && restN[j] == (a, At(new', a).value) && At(new', a).value.id !in usedN
  {
    var z := At(new', a).value;
    forall p | p in partners && At(new', partners[p]).Some? ensures At(new', partners[p]).value.id != z.id {
      assert p in more && more[p] == partners[p];
      assert partners[p] != a;
    }
    assert !UsedNew(new', partners, z.id);
    assert (a, z) in restN;
    j :| j < |restN| && restN[j] == (a, z);
  }

  /** The choice made at a turn is the best one. */
  lemma {:induction false} ChosenIsBest(orig: Proto, new': Proto, restN: Entries, first: set<Path>,
      partners0: Partners, partners: Partners, pairs: Pairs, usedO: set<int>, usedN: set<int>, more: Partners,
      similarity: (Proto, Proto) -> real, q: Path, x: Proto, best: Option<(Path, Proto)>, at: nat)
    requires Matched(orig, new', pairs, partners, usedO, usedN) && IsTree(new') && At(orig, q) == Some(x)
    requires q !in partners && forall p :: p in partners ==> p in first || PathBefore(p, q)
    requires forall b: Path :: At(new', b).Some? && At(new', b).value.id !in usedN ==> (b, At(new', b).value) in restN
    requires InTreeOrder(restN) && forall e :: e in restN ==> At(new', e.0) == Some(e.1)
    requires more == if best.Some? then partners[q := best.value.0] else partners
    requires best.Some? ==> at < |restN| && best.value == restN[at] && similarity(x, restN[at].1) >= 0.5
    requires best.Some? ==> NoneAbove(x, restN, usedN, similarity, similarity(x, restN[at].1))
    requires best.Some? ==>
        forall j :: 0 <= j < at && restN[j].1.id !in usedN ==> similarity(x, restN[j].1) < similarity(x, restN[at].1)
    requires best.None? ==> forall e :: e in restN && e.1.id !in usedN ==> similarity(x, e.1) < 0.5
    ensures BestAtTurn(orig, new', first, more, similarity, q)
  {
    hide Matched, IsTree, PathBefore, FreeAt;
    forall a: Path | At(new', a).Some? && FreeAt(first, more, q, a)
      ensures NotBetter(orig, new', more, similarity, q, a)
    {
      var j := FreeIsUnused(orig, new', restN, first, partners0, partners, pairs, usedO, usedN, more, q, a);
      assert restN[j] in restN;
      if best.Some? {
        assert restN[at] in restN;
        if j >= at { NotBeforeItself(restN[j].0, restN[at].0, restN, at, j); }
      }
    }
  }

  lemma {:induction false} BeforeOnce(p: Path, q: Path)
    ensures PathBefore(p, q) ==> !PathBefore(q, p)
    decreases |p|
  {
    if p != [] && q != [] { BeforeOnce(p[1..], q[1..]); }
  }

  lemma {:induction false} NotBeforeItself(p: Path, q: Path, list: Entries, i: nat, j: nat)
    requires InTreeOrder(list) && i <= j < |list| && p == list[j].0 && q == list[i].0
    ensures !PathBefore(p, q)
  {
    BeforeOnce(q, p);
  }

  method PairTheRest(orig: Proto, new': Proto, restO: Entries, restN: Entries, pairs0: Pairs, usedO0: set<int>,
      usedN0: set<int>, ghost partners0: Partners, similarity: (Proto, Proto) -> real)
    returns (pairs: Pairs, usedO: set<int>, usedN: set<int>, ghost partners: Partners)
    requires Matched(orig, new', pairs0, partners0, usedO0, usedN0) && IsTree(orig) && IsTree(new') && OnceEach(restO)
    requires InTreeOrder(restO) && InTreeOrder(restN)
    requires (forall e :: e in restO ==> At(orig, e.0) == Some(e.1) && e.1.id !in usedO0)
    requires forall e :: e in restN ==> At(new', e.0) == Some(e.1)
    requires forall b: Path :: At(new', b).Some? && At(new', b).value.id !in usedN0 ==> (b, At(new', b).value) in restN
    ensures Matched(orig, new', pairs, partners, usedO, usedN) && usedO0 <= usedO && usedN0 <= usedN
    ensures pairs0 <= pairs && Extended(partners0, partners)
    ensures forall e, f ::
        e in restO && f in restN && e.1.id !in usedO && f.1.id !in usedN ==> similarity(e.1, f.1) < 0.5
    ensures forall e :: e in restO ==> BestAtTurn(orig, new', partners0.Keys, partners, similarity, e.0)
  {
    hide Matched, IsTree, BestAtTurn, InTreeOrder, PathBefore, NoneAbove;
    pairs, usedO, usedN, partners := pairs0, usedO0, usedN0, partners0;
    for i := 0 to |restO|
      invariant Matched(orig, new', pairs, partners, usedO, usedN) && usedO0 <= usedO && usedN0 <= usedN
      invariant pairs0 <= pairs && Extended(partners0, partners)
      invariant forall j :: i <= j < |restO| ==> restO[j].1.id !in usedO
      invariant forall j, f ::
          0 <= j < i && f in restN && restO[j].1.id !in usedO && f.1.id !in usedN ==> similarity(restO[j].1, f.1) < 0.5
      invariant forall p :: p in partners ==> p in partners0 || TurnBefore(restO, i, p)
      invariant forall j :: 0 <= j < i ==> BestAtTurn(orig, new', partners0.Keys, partners, similarity, restO[j].0)
    {
      var (path, x) := restO[i];
      assert restO[i] in restO;
      var best, at := BestFree(x, restN, usedN, similarity);
      UnusedHasNone(orig, new', pairs, partners, usedO, usedN, path, x);
      TurnsBefore(restO, i, partners0, partners);
      ghost var more := if best.Some? then partners[path := best.value.0] else partners;
      ChosenIsBest(orig, new', restN, partners0.Keys, partners0, partners, pairs, usedO, usedN, more, similarity, path,
        x, best, at);
      forall j | 0 <= j < i ensures BestAtTurn(orig, new', partners0.Keys, more, similarity, restO[j].0) {
        BestStays(orig, new', partners0.Keys, partners, more, similarity, restO[j].0);
      }
      if best.Some? {
        assert restN[at] in restN;
        var (npath, y) := best.value;
        UnusedIsNone(orig, new', pairs, partners, usedO, usedN, npath, y);
        MatchOne(orig, new', pairs, partners, usedO, usedN, path, npath, x, y);
        forall j | i < j < |restO| ensures restO[j].1.id != x.id {
          assert restO[j] in restO;
          OtherId(orig, restO[j], restO[i]);
        }
        pairs, usedN, usedO := pairs + [(path, x, y)], usedN + {y.id}, usedO + {x.id};
        partners := more;
      }
    }
  }

  /** One of the first `i` entries. */
  ghost predicate TurnBefore(list: Entries, i: nat, p: Path) { exists j :: 0 <= j < i && j < |list| && list[j].0 == p }

  lemma {:induction false} TurnsBefore(list: Entries, i: nat, some: Partners, partners: Partners)
    requires InTreeOrder(list) && i < |list| && forall p :: p in partners ==> p in some || TurnBefore(list, i, p)
    ensures forall p :: p in partners ==> p in some.Keys || PathBefore(p, list[i].0)
    ensures forall p :: TurnBefore(list, i, p) || p == list[i].0 ==> TurnBefore(list, i + 1, p)
  {
    assert TurnBefore(list, i + 1, list[i].0);
  }

  lemma {:induction false} OtherId(root: Proto, e: (Path, Proto), f: (Path, Proto))
    requires IsTree(root) && At(root, e.0) == Some(e.1) && At(root, f.0) == Some(f.1) && e.0 != f.0
    ensures e.1.id != f.1.id
  {
  }

  // ----- the whole comparison -----

  ghost predicate Unlike(orig: Proto, new': Proto, q: Path, a: Path, similarity: (Proto, Proto) -> real) {
    At(orig, q).Some? && At(new', a).Some? && similarity(At(orig, q).value, At(new', a).value) < 0.5
  }

  /** What is left over on the two sides has nothing similar enough in common. */
  ghost predicate NoneAlikeLeft(orig: Proto, new': Proto, missing: seq<Path>, extra: seq<Path>,
      similarity: (Proto, Proto) -> real)
  {
    forall q, a :: q in missing && a in extra ==> Unlike(orig, new', q, a, similarity)
  }

  /** The roots are a pair.  What is found from the roots down is paired level by level, and well; every
      other original has got the best of what was free at its turn, or nothing. */
  ghost predicate Compared(orig: Proto, new': Proto, similarity: (Proto, Proto) -> real, pairs: Pairs,
      partners: Partners, first: set<Path>)
  {
    && |pairs| > 0 && pairs[0] == ([], orig, new')
    && (forall i :: 0 <= i < |pairs| ==> PairFits(orig, new', partners, pairs[i]))
    && (forall q :: q in partners ==> HasPair(pairs, q))
    && (forall q :: q in first <==> q in partners && TopDown(orig, new', partners, q))
    && (forall r :: r in first ==> r in partners && KidsMeet(orig, new', partners, similarity, r))
    && (forall q: Path :: At(orig, q).Some? && q !in first ==>
          BestAtTurn(orig, new', first, partners, similarity, q))
  }

  /** Nothing else can be found from the roots down: the first phase stops only where it must. */
  lemma {:induction false} TopDownIsFirst(orig: Proto, new': Proto, similarity: (Proto, Proto) -> real, some: Partners,
      partners: Partners, q: Path)
    requires [] in some && AllMeet(orig, new', some, similarity, []) && Extended(some, partners)
    requires At(orig, q).Some? && TopDown(orig, new', partners, q)
    ensures q in some
    decreases |q|
  {
    if q != [] {
      var n := |q| - 1;
      var r := q[..n];
      TopDownIsFirst(orig, new', similarity, some, partners, r);
      assert q == r + [q[n]];
      AtKid(orig, r, q[n]);
      assert KidsMeet(orig, new', some, similarity, r);
      var kids: KidPairs :| KidsFollow(some, r, kids) &&
        PairedWell(At(orig, r).value.kids, At(new', some[r]).value.kids, similarity, kids);
      assert q[n] in Firsts(kids);
      var i :| 0 <= i < |kids| && Firsts(kids)[i] == q[n];
      assert kids[i] in kids;
    }
  }

  lemma {:induction false} NotUsedFirst(orig: Proto, new': Proto, pairs: Pairs, partners: Partners, usedO: set<int>,
      usedN: set<int>, q: Path)
    requires Matched(orig, new', pairs, partners, usedO, usedN) && IsTree(orig) && At(orig, q).Some? && q !in partners
    ensures At(orig, q).value.id !in usedO
  {
    forall p | p in partners && At(orig, p).Some? ensures At(orig, p).value.id != At(orig, q).value.id { }
  }

  lemma {:induction false} ComparedIs(orig: Proto, new': Proto, similarity: (Proto, Proto) -> real, firstPairs: Pairs,
      firstO: set<int>, firstN: set<int>, some: Partners, pairs: Pairs, usedO: set<int>, usedN: set<int>,
      partners: Partners, restO: Entries)
    requires Matched(orig, new', firstPairs, some, firstO, firstN) && Matched(orig, new', pairs, partners, usedO, usedN)
    requires [] in some && AllMeet(orig, new', some, similarity, []) && AllTopDown(orig, new', some)
    requires |firstPairs| > 0 && firstPairs[0] == ([], orig, new') && firstPairs <= pairs && Extended(some, partners)
    requires IsTree(orig) && forall q: Path ::
        At(orig, q).Some? && At(orig, q).value.id !in firstO ==> (q, At(orig, q).value) in restO
    requires forall e :: e in restO ==> BestAtTurn(orig, new', some.Keys, partners, similarity, e.0)
    ensures Compared(orig, new', similarity, pairs, partners, some.Keys)
  {
    hide BestAtTurn, KidsMeet, TopDown, PairFits, HasPair;
    forall q ensures q in some.Keys <==> q in partners && TopDown(orig, new', partners, q) {
      if q in some { TopDownStays(orig, new', some, partners, q); }
      if q in partners && TopDown(orig, new', partners, q) {
        TopDownIsFirst(orig, new', similarity, some, partners, q);
      }
    }
    forall r | r in some.Keys ensures r in partners && KidsMeet(orig, new', partners, similarity, r) {
      assert r !in [] && KidsMeet(orig, new', some, similarity, r);
      KidsMeetLater(orig, new', some, partners, similarity, r);
    }
    forall q: Path | At(orig, q).Some? && q !in some.Keys
      ensures BestAtTurn(orig, new', some.Keys, partners, similarity, q)
    {
      NotUsedFirst(orig, new', firstPairs, some, firstO, firstN, q);
      assert (q, At(orig, q).value) in restO;
    }
  }

  /** Whatever the similarities are, and in whatever order candidates are tried, no prototype of
      either tree is lost and none is used twice. */
  method ComparePrototypes(orig: Proto, new': Proto, similarity: (Proto, Proto) -> real)
    returns (pairs: Pairs, missing: seq<Path>, extra: seq<Path>, ghost partners: Partners, ghost first: set<Path>)
    requires IsTree(orig) && IsTree(new')
    ensures Conserved(orig, new', pairs, missing, extra)
    ensures NoneAlikeLeft(orig, new', missing, extra, similarity)
    ensures Compared(orig, new', similarity, pairs, partners, first)
  {
    hide Matched, IsTree, Conserved, OnceEach, InTreeOrder, Compared, AllMeet, AllTopDown, BestAtTurn;
    var oList, oKeyed := Prepare(orig);
    var nList, nKeyed := Prepare(new');
    var firstPairs, firstO, firstN, firstPartners := PairTopDown(orig, new', oKeyed, nKeyed, similarity);
    var restO, restN := Unused(oList, firstO), Unused(nList, firstN);
    UnusedOnce(oList, firstO);
    UnusedInOrder(oList, firstO);
    UnusedInOrder(nList, firstN);
    forall e: (Path, Proto) ensures e in restO <==> e in oList && e.1.id !in firstO { UnusedIs(oList, firstO, e); }
    forall e: (Path, Proto) ensures e in restN <==> e in nList && e.1.id !in firstN { UnusedIs(nList, firstN, e); }
    var allPairs, usedO, usedN;
    allPairs, usedO, usedN,
      partners := PairTheRest(orig, new', restO, restN, firstPairs, firstO, firstN, firstPartners, similarity);
    pairs, missing, extra := allPairs, Paths(Unused(oList, usedO)), Paths(Unused(nList, usedN));
    Conservation(orig, new', pairs, partners, usedO, usedN, oList, nList);
    first := firstPartners.Keys;
    ComparedIs(orig, new', similarity, firstPairs, firstO, firstN, firstPartners, pairs, usedO, usedN, partners, restO);
    forall q, a | q in missing && a in extra ensures Unlike(orig, new', q, a, similarity) {
      var e := UnusedAt(oList, usedO, q);
      var f := UnusedAt(nList, usedN, a);
      assert e in restO && f in restN;
    }
  }

  /** The entry that put a path in the list of unused ones. */
  lemma {:induction false} UnusedAt(list: Entries, used: set<int>, q: Path) returns (e: (Path, Proto))
    requires q in Paths(Unused(list, used))
    ensures e in list && e.0 == q && e.1.id !in used
  {
    var rest := Unused(list, used);
    var i :| 0 <= i < |rest| && Paths(rest)[i] == q;
    e := rest[i];
    assert e in rest;
    UnusedIs(list, used, e);
  }

  lemma {:induction false} PathsOf(root: Proto, list: Entries, used: set<int>, q: Path)
    requires forall e :: e in list <==> At(root, e.0) == Some(e.1)
    ensures q in Paths(Unused(list, used)) <==> At(root, q).Some? && At(root, q).value.id !in used
  {
    var rest := Unused(list, used);
    if q in Paths(rest) {
      var i :| 0 <= i < |rest| && Paths(rest)[i] == q;
      assert rest[i] in rest;
      UnusedIs(list, used, rest[i]);
    }
    if At(root, q).Some? && At(root, q).value.id !in used {
      var e := (q, At(root, q).value);
      UnusedIs(list, used, e);
      var i :| 0 <= i < |rest| && rest[i] == e;
      assert Paths(rest)[i] == q;
    }
  }

  lemma {:induction false} PathsOnce(list: Entries, used: set<int>)
    requires OnceEach(list)
    ensures Unrepeated(Paths(Unused(list, used)))
  {
    UnusedOnce(list, used);
  }

  /** An identity is used exactly when its prototype is in a pair. */
  lemma {:induction false} UsedMeansPaired(orig: Proto, new': Proto, pairs: Pairs, partners: Partners, usedO: set<int>,
      usedN: set<int>, q: Path)
    requires Matched(orig, new', pairs, partners, usedO, usedN) && IsTree(orig) && At(orig, q).Some?
    ensures At(orig, q).value.id in usedO <==> HasPair(pairs, q)
  {
    var id := At(orig, q).value.id;
    if id in usedO {
      assert UsedOriginal(orig, partners, id);
      var r :| r in partners && At(orig, r).Some? && At(orig, r).value.id == id;
      assert r == q && HasPair(pairs, r);
    }
    if HasPair(pairs, q) {
      var i :| 0 <= i < |pairs| && pairs[i].0 == q;
      assert PairFits(orig, new', partners, pairs[i]);
      assert UsedOriginal(orig, partners, id);
    }
  }

  lemma {:induction false} UsedMeansTaken(orig: Proto, new': Proto, pairs: Pairs, partners: Partners, usedO: set<int>,
      usedN: set<int>, id: int)
    requires Matched(orig, new', pairs, partners, usedO, usedN)
    ensures id in usedN <==> HasNew(pairs, id)
  {
    if id in usedN {
      assert UsedNew(new', partners, id);
      var q :| q in partners && At(new', partners[q]).Some? && At(new', partners[q]).value.id == id;
      assert HasPair(pairs, q);
      var i :| 0 <= i < |pairs| && pairs[i].0 == q;
      assert PairFits(orig, new', partners, pairs[i]);
    }
    if HasNew(pairs, id) {
      var i :| 0 <= i < |pairs| && pairs[i].2.id == id;
      assert PairFits(orig, new', partners, pairs[i]);
      var q := pairs[i].0;
      assert q in partners && At(new', partners[q]).Some?;
      assert UsedNew(new', partners, id);
    }
  }

  lemma {:induction false} PairsDiffer(orig: Proto, new': Proto, pairs: Pairs, partners: Partners, usedO: set<int>,
      usedN: set<int>, i: nat, j: nat)
    requires Matched(orig, new', pairs, partners, usedO, usedN) && IsTree(new') && i < j < |pairs|
    ensures pairs[i].0 != pairs[j].0 && pairs[i].2.id != pairs[j].2.id
  {
    assert PairFits(orig, new', partners, pairs[i]) && PairFits(orig, new', partners, pairs[j]);
    var a, b := partners[pairs[i].0], partners[pairs[j].0];
    assert a != b && At(new', a) == Some(pairs[i].2) && At(new', b) == Some(pairs[j].2);
  }

  lemma {:induction false} AllGenuine(orig: Proto, new': Proto, pairs: Pairs, partners: Partners, usedO: set<int>,
      usedN: set<int>)
    requires Matched(orig, new', pairs, partners, usedO, usedN)
    ensures Genuine(orig, new', pairs)
  {
    forall i | 0 <= i < |pairs| ensures At(orig, pairs[i].0) == Some(pairs[i].1) && Occurs(new', pairs[i].2) {
      assert PairFits(orig, new', partners, pairs[i]);
      assert At(new', partners[pairs[i].0]) == Some(pairs[i].2);
    }
  }

  lemma {:induction false} MissingOnes(orig: Proto, new': Proto, pairs: Pairs, partners: Partners, usedO: set<int>,
      usedN: set<int>, oList: Entries)
    requires Matched(orig, new', pairs, partners, usedO, usedN) && IsTree(orig)
    requires forall e :: e in oList <==> At(orig, e.0) == Some(e.1)
    ensures AllMissing(orig, pairs, Paths(Unused(oList, usedO)))
  {
    hide Matched, Unused, Paths, HasPair;
    forall q: Path ensures q in Paths(Unused(oList, usedO)) <==> At(orig, q).Some? && !HasPair(pairs, q) {
      PathsOf(orig, oList, usedO, q);
      if At(orig, q).Some? { UsedMeansPaired(orig, new', pairs, partners, usedO, usedN, q); }
    }
  }

  lemma {:induction false} ExtraOnes(orig: Proto, new': Proto, pairs: Pairs, partners: Partners, usedO: set<int>,
      usedN: set<int>, nList: Entries)
    requires Matched(orig, new', pairs, partners, usedO, usedN) && IsTree(new')
    requires forall e :: e in nList <==> At(new', e.0) == Some(e.1)
    ensures AllExtra(new', pairs, Paths(Unused(nList, usedN)))
  {
    hide Matched, Unused, Paths, HasNew;
    forall a: Path
      ensures a in Paths(Unused(nList, usedN)) <==> At(new', a).Some? && !HasNew(pairs, At(new', a).value.id)
    {
      PathsOf(new', nList, usedN, a);
      if At(new', a).Some? { UsedMeansTaken(orig, new', pairs, partners, usedO, usedN, At(new', a).value.id); }
    }
  }

  lemma {:induction false} Conservation(orig: Proto, new': Proto, pairs: Pairs, partners: Partners, usedO: set<int>,
      usedN: set<int>, oList: Entries, nList: Entries)
    requires Matched(orig, new', pairs, partners, usedO, usedN) && IsTree(orig) && IsTree(new') && OnceEach(oList)
    requires OnceEach(nList)
    requires (forall e :: e in oList <==> At(orig, e.0) == Some(e.1))
    requires forall e :: e in nList <==> At(new', e.0) == Some(e.1)
    ensures Conserved(orig, new', pairs, Paths(Unused(oList, usedO)), Paths(Unused(nList, usedN)))
  {
    PathsOnce(oList, usedO);
    PathsOnce(nList, usedN);
    AllGenuine(orig, new', pairs, partners, usedO, usedN);
    hide Matched, Unrepeated;
    assert PairedOnce(pairs) by {
      forall i, j | 0 <= i < j < |pairs| ensures pairs[i].0 != pairs[j].0 && pairs[i].2.id != pairs[j].2.id {
        PairsDiffer(orig, new', pairs, partners, usedO, usedN, i, j);
      }
    }
    MissingOnes(orig, new', pairs, partners, usedO, usedN, oList);
    ExtraOnes(orig, new', pairs, partners, usedO, usedN, nList);
  }
}
