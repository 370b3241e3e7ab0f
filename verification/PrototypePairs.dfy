/** Which prototype of the one chunk is compared with which of the other: every prototype ends
    up in exactly one pair, or is reported missing or extra. */
module PrototypePairs {
  import opened Options
  import opened Sequences
  import opened PrototypeMatch
  import opened PrototypeRanking

  // ----- all prototypes in tree order -----

  type Entries = seq<(Path, Proto)>

  function Listing(p: Proto, path: Path): Entries
    decreases p, |p.kids| + 1
  {
    [(path, p)] + KidListing(p, path, |p.kids|)
  }

  function KidListing(p: Proto, path: Path, n: nat): Entries
    requires n <= |p.kids|
    decreases p, n
  {
    if n == 0 then [] else KidListing(p, path, n - 1) + Listing(p.kids[n - 1], path + [n - 1])
  }

  /** What the entries below the first `n` children are. */
  predicate Below(p: Proto, path: Path, n: nat, e: (Path, Proto)) {
    |path| < |e.0| && path <= e.0 && e.0[|path|] < n && At(p, e.0[|path|..]) == Some(e.1)
  }

  lemma {:induction false} ListingIs(p: Proto, path: Path, e: (Path, Proto))
    ensures e in Listing(p, path) <==> path <= e.0 && At(p, e.0[|path|..]) == Some(e.1)
    decreases p, |p.kids| + 1
  {
    KidListingIs(p, path, |p.kids|, e);
    assert e in Listing(p, path) <==> e == (path, p) || e in KidListing(p, path, |p.kids|);
    if path <= e.0 {
      if |path| == |e.0| {
        assert e.0 == path && e.0[|path|..] == [];
      } else {
        assert e.0[|path|..][0] == e.0[|path|];
      }
    }
    assert path[|path|..] == [];
  }

  lemma {:induction false} KidListingIs(p: Proto, path: Path, n: nat, e: (Path, Proto))
    requires n <= |p.kids|
    ensures e in KidListing(p, path, n) <==> Below(p, path, n, e)
    decreases p, n
  {
    if n > 0 {
      KidListingIs(p, path, n - 1, e);
      ListingIs(p.kids[n - 1], path + [n - 1], e);
      var kid := path + [n - 1];
      if kid <= e.0 {
        assert e.0[|path|..][0] == e.0[|path|] == kid[|path|];
        assert e.0[|path|..][1..] == e.0[|kid|..] && path == e.0[..|path|];
      }
      if Below(p, path, n, e) && !Below(p, path, n - 1, e) {
        assert e.0[|path|..][0] == n - 1 && e.0[|path|..][1..] == e.0[|kid|..];
        assert kid == e.0[..|kid|];
      }
    }
  }

  ghost predicate OnceEach(list: Entries) { forall i, j :: 0 <= i < j < |list| ==> list[i].0 != list[j].0 }

  lemma {:induction false} ListedOnce(p: Proto, path: Path)
    ensures OnceEach(Listing(p, path))
    decreases p, |p.kids| + 1
  {
    KidsListedOnce(p, path, |p.kids|);
    var kids, all := KidListing(p, path, |p.kids|), Listing(p, path);
    forall j | 0 <= j < |kids| ensures kids[j].0 != path {
      assert kids[j] in kids;
      KidListingIs(p, path, |p.kids|, kids[j]);
    }
    forall i, j | 0 <= i < j < |all| ensures all[i].0 != all[j].0 { assert all[j] == kids[j - 1]; }
  }

  lemma {:induction false} KidsListedOnce(p: Proto, path: Path, n: nat)
    requires n <= |p.kids|
    ensures OnceEach(KidListing(p, path, n))
    decreases p, n
  {
    if n > 0 {
      var front, back := KidListing(p, path, n - 1), Listing(p.kids[n - 1], path + [n - 1]);
      KidsListedOnce(p, path, n - 1);
      ListedOnce(p.kids[n - 1], path + [n - 1]);
      forall i, j | 0 <= i < |front| && 0 <= j < |back| ensures front[i].0 != back[j].0 {
        assert front[i] in front && back[j] in back;
        KidListingIs(p, path, n - 1, front[i]);
        ListingIs(p.kids[n - 1], path + [n - 1], back[j]);
        assert (path + [n - 1])[|path|] == n - 1;
      }
      JoinedOnce(front, back);
    }
  }

  lemma {:induction false} JoinedOnce(front: Entries, back: Entries)
    requires OnceEach(front) && OnceEach(back)
    requires forall i, j :: 0 <= i < |front| && 0 <= j < |back| ==> front[i].0 != back[j].0
    ensures OnceEach(front + back)
  {
  }

  /** Tree order: a parent before its children, children by number. */
  ghost predicate PathBefore(p: Path, q: Path)
    decreases |p|
  {
    q != [] && (p == [] || p[0] < q[0] || (p[0] == q[0] && PathBefore(p[1..], q[1..])))
  }

  lemma {:induction false} BeforeBelow(path: Path, p: Path, q: Path)
    ensures PathBefore(path + p, path + q) <==> PathBefore(p, q)
    decreases |path|
  {
    if path == [] {
      assert path + p == p && path + q == q;
    } else {
      assert (path + p)[1..] == path[1..] + p && (path + q)[1..] == path[1..] + q;
      BeforeBelow(path[1..], p, q);
    }
  }

  ghost predicate InTreeOrder(list: Entries) {
    forall i, j :: 0 <= i < j < |list| ==> PathBefore(list[i].0, list[j].0)
  }

  lemma {:induction false} ListedInOrder(p: Proto, path: Path)
    ensures InTreeOrder(Listing(p, path))
    decreases p, |p.kids| + 1
  {
    KidsListedInOrder(p, path, |p.kids|);
    var kids, all := KidListing(p, path, |p.kids|), Listing(p, path);
    forall j | 0 <= j < |kids| ensures PathBefore(path, kids[j].0) {
      assert kids[j] in kids;
      KidListingIs(p, path, |p.kids|, kids[j]);
      var rest := kids[j].0[|path|..];
      assert kids[j].0 == path + rest && path + [] == path;
      BeforeBelow(path, [], rest);
    }
    forall i, j | 0 <= i < j < |all| ensures PathBefore(all[i].0, all[j].0) { assert all[j] == kids[j - 1]; }
  }

  lemma {:induction false} KidsListedInOrder(p: Proto, path: Path, n: nat)
    requires n <= |p.kids|
    ensures InTreeOrder(KidListing(p, path, n))
    decreases p, n
  {
    if n > 0 {
      var front, back := KidListing(p, path, n - 1), Listing(p.kids[n - 1], path + [n - 1]);
      KidsListedInOrder(p, path, n - 1);
      ListedInOrder(p.kids[n - 1], path + [n - 1]);
      forall i, j | 0 <= i < |front| && 0 <= j < |back| ensures PathBefore(front[i].0, back[j].0) {
        assert front[i] in front && back[j] in back;
        KidListingIs(p, path, n - 1, front[i]);
        ListingIs(p.kids[n - 1], path + [n - 1], back[j]);
        EarlierKid(path, front[i].0, back[j].0, n - 1);
      }
      JoinedInOrder(front, back);
    }
  }

  lemma {:induction false} EarlierKid(path: Path, p: Path, q: Path, n: nat)
    requires |path| < |p| && path <= p && p[|path|] < n && path + [n] <= q
    ensures PathBefore(p, q)
  {
    var tail, rest := p[|path|..], q[|path|..];
    assert p == path + tail && path == q[..|path|] && q == path + rest && q[|path|] == (path + [n])[|path|] == n;
    BeforeBelow(path, tail, rest);
  }

  lemma {:induction false} JoinedInOrder(front: Entries, back: Entries)
    requires InTreeOrder(front) && InTreeOrder(back)
    requires forall i, j :: 0 <= i < |front| && 0 <= j < |back| ==> PathBefore(front[i].0, back[j].0)
    ensures InTreeOrder(front + back)
  {
  }

  /** Every prototype under its path, and nothing else. */
  ghost predicate KeyedBy(keyed: Keyed, root: Proto) {
    (forall q: Path :: q in keyed <==> At(root, q).Some?) && forall q: Path ::
      q in keyed ==> keyed[q] == At(root, q).value
  }

  method Prepare(root: Proto) returns (list: Entries, keyed: Keyed)
    ensures list == Listing(root, []) && OnceEach(list) && InTreeOrder(list) && KeyedBy(keyed, root)
    ensures forall e :: e in list <==> At(root, e.0) == Some(e.1)
  {
    hide InTreeOrder, Listing, KidListing;
    list := Listing(root, []);
    ListedOnce(root, []);
    ListedInOrder(root, []);
    forall e: (Path, Proto) ensures e in list <==> At(root, e.0) == Some(e.1) {
      ListingIs(root, [], e);
      assert e.0[0..] == e.0;
    }
    keyed := map[];
    for i := 0 to |list|
      invariant forall q: Path :: q in keyed <==> exists j :: 0 <= j < i && list[j].0 == q
      invariant forall j :: 0 <= j < i ==> list[j].0 in keyed && keyed[list[j].0] == list[j].1
    {
      keyed := keyed[list[i].0 := list[i].1];
    }
    forall q: Path ensures (q in keyed <==> At(root, q).Some?) && (q in keyed ==> keyed[q] == At(root, q).value) {
      if q in keyed { var j :| 0 <= j < |list| && list[j].0 == q; assert list[j] in list; }
      if At(root, q).Some? {
        var e := (q, At(root, q).value);
        assert e in list;
        var j :| 0 <= j < |list| && list[j] == e;
      }
    }
  }

  // ----- pairing the children of a matched parent -----

  function Firsts(ps: KidPairs): seq<nat> { seq(|ps|, i requires 0 <= i < |ps| => ps[i].0) }

  function Seconds(ps: KidPairs): seq<nat> { seq(|ps|, i requires 0 <= i < |ps| => ps[i].1) }

  /** Each of the first `k` numbers is taken or left, once. */
  ghost predicate Split(taken: seq<nat>, left: seq<nat>, k: nat) {
    && Unrepeated(taken) && Unrepeated(left) && (forall x :: x in taken ==> x !in left)
    && forall x: nat :: x < k <==> x in taken || x in left
  }

  function Remove(s: seq<nat>, x: nat): seq<nat> {
    if s == [] then [] else if s[0] == x then s[1..] else [s[0]] + Remove(s[1..], x)
  }

  lemma {:induction false} RemoveIs(s: seq<nat>, x: nat)
    requires Unrepeated(s) && x in s
    ensures Unrepeated(Remove(s, x)) && |Remove(s, x)| == |s| - 1 && forall y :: y in Remove(s, x) <==> y in s && y != x
  {
    assert s == [s[0]] + s[1..];
    if s[0] != x {
      RemoveIs(s[1..], x);
      var rest := Remove(s[1..], x);
      assert s[0] !in s[1..];
      forall i, j | 0 <= i < j < |rest| + 1 ensures ([s[0]] + rest)[i] != ([s[0]] + rest)[j] {
        if i == 0 { assert rest[j - 1] in rest; }
      }
    }
  }

  lemma {:induction false} TakeOne(taken: seq<nat>, left: seq<nat>, k: nat, x: nat)
    requires Split(taken, left, k) && x in left
    ensures Split(taken + [x], Remove(left, x), k) && |Remove(left, x)| == |left| - 1
  {
    RemoveIs(left, x);
    hide Remove;
    var more := taken + [x];
    forall i, j | 0 <= i < j < |more| ensures more[i] != more[j] { if j == |taken| { assert more[i] in taken; } }
  }

  ghost predicate Pairing(pairs: KidPairs, oKids: seq<nat>, nKids: seq<nat>, k: nat) {
    Split(Firsts(pairs), oKids, k) && Split(Seconds(pairs), nKids, k) && |oKids| == |nKids|
  }

  lemma {:induction false} PairOne(pairs: KidPairs, oKids: seq<nat>, nKids: seq<nat>, k: nat, oi: nat, ni: nat)
    requires Pairing(pairs, oKids, nKids, k) && oi in oKids && ni in nKids
    ensures Pairing(pairs + [(oi, ni)], Remove(oKids, oi), Remove(nKids, ni), k)
    ensures forall x :: x in Remove(oKids, oi) <==> x in oKids && x != oi
    ensures forall x :: x in Remove(nKids, ni) <==> x in nKids && x != ni
  {
    TakeOne(Firsts(pairs), oKids, k, oi);
    TakeOne(Seconds(pairs), nKids, k, ni);
    RemoveIs(oKids, oi);
    RemoveIs(nKids, ni);
    assert Firsts(pairs + [(oi, ni)]) == Firsts(pairs) + [oi] && Seconds(pairs + [(oi, ni)]) == Seconds(pairs) + [ni];
  }

  function Range(k: nat): seq<nat> { seq(k, i requires 0 <= i < k => i) }

  lemma {:induction false} AllLeft(k: nat)
    ensures Pairing([], Range(k), Range(k), k) && forall x: nat :: x < k <==> x in Range(k)
  {
    forall x: nat ensures x < k <==> x in Range(k) { if x < k { assert Range(k)[x] == x; } }
  }

  predicate SameShape(a: Proto, b: Proto) { a.sig == b.sig && a.header == b.header }

  ghost predicate Alike(oKids: seq<Proto>, nKids: seq<Proto>, oi: nat, ni: nat) {
    oi < |oKids| && ni < |nKids| && oKids[oi].sig == nKids[ni].sig && oKids[oi].header == nKids[ni].header
  }

  ghost predicate Increasing(s: seq<nat>) { forall i, j :: 0 <= i < j < |s| ==> s[i] < s[j] }

  lemma {:induction false} RemoveIncreasing(s: seq<nat>, x: nat)
    requires Increasing(s) && x in s
    ensures Increasing(Remove(s, x))
  {
    if s[0] != x {
      assert forall i :: 0 < i < |s| ==> s[i] in s[1..];
      RemoveIncreasing(s[1..], x);
      var rest := Remove(s[1..], x);
      assert Unrepeated(s[1..]);
      RemoveIs(s[1..], x);
      forall j | 0 <= j < |rest| ensures s[0] < rest[j] {
        assert rest[j] in rest;
        var l :| 0 <= l < |s[1..]| && s[1..][l] == rest[j];
      }
    }
  }

  /** Of several children with one fingerprint the first come first, on both sides and in order. */
  ghost predicate InTurn(oKids: seq<Proto>, nKids: seq<Proto>, pairs: KidPairs, p: (nat, nat))
    requires Alike(oKids, nKids, p.0, p.1)
  {
    && (forall x: nat :: x < p.0 && Alike(oKids, nKids, x, p.1) ==>
          exists q :: q in pairs && q.0 == x && Alike(oKids, nKids, q.0, q.1) && q.1 < p.1)
    && (forall y: nat :: y < p.1 && Alike(oKids, nKids, p.0, y) ==>
          exists q :: q in pairs && q.1 == y && Alike(oKids, nKids, q.0, q.1))
  }

  ghost predicate AlikeInTurn(oKids: seq<Proto>, nKids: seq<Proto>, pairs: KidPairs) {
    forall p :: p in pairs && Alike(oKids, nKids, p.0, p.1) ==> InTurn(oKids, nKids, pairs, p)
  }

  lemma {:induction false} InTurnStays(oKids: seq<Proto>, nKids: seq<Proto>, pairs: KidPairs, more: KidPairs)
    requires AlikeInTurn(oKids, nKids, pairs) && pairs <= more
    requires forall p :: p in more && p !in pairs && Alike(oKids, nKids, p.0, p.1) ==> InTurn(oKids, nKids, more, p)
    ensures AlikeInTurn(oKids, nKids, more)
  {
    forall p | p in more && Alike(oKids, nKids, p.0, p.1) ensures InTurn(oKids, nKids, more, p) {
      if p in pairs {
        assert InTurn(oKids, nKids, pairs, p);
        assert forall q :: q in pairs ==> q in more;
      }
    }
  }

  /** Nothing of the same fingerprint is left before the partner an original has got. */
  ghost predicate TookFirst(oKids: seq<Proto>, nKids: seq<Proto>, pairs: KidPairs, nLeft: seq<nat>) {
    forall p, y :: p in pairs && y in nLeft && Alike(oKids, nKids, p.0, y) ==> p.1 < y
  }

  lemma {:induction false} NextInTurn(oKids: seq<Proto>, nKids: seq<Proto>, pairs: KidPairs, oLeft: seq<nat>,
      nLeft: seq<nat>, k: nat, oi: nat, j: nat)
    requires Pairing(pairs, oLeft, nLeft, k) && k == |oKids| == |nKids| && Increasing(nLeft)
    requires forall p :: p in pairs ==> Alike(oKids, nKids, p.0, p.1)
    requires forall x, y :: x in oLeft && x < oi && y in nLeft ==> !Alike(oKids, nKids, x, y)
    requires AlikeInTurn(oKids, nKids, pairs) && TookFirst(oKids, nKids, pairs, nLeft)
    requires oi in oLeft && j < |nLeft| && Alike(oKids, nKids, oi, nLeft[j])
    requires forall l :: 0 <= l < j ==> !Alike(oKids, nKids, oi, nLeft[l])
    ensures AlikeInTurn(oKids, nKids, pairs + [(oi, nLeft[j])])
    ensures forall y :: y in nLeft && y != nLeft[j] && Alike(oKids, nKids, oi, y) ==> nLeft[j] < y
  {
    var ni := nLeft[j];
    var more := pairs + [(oi, ni)];
    forall x: nat | x < oi && Alike(oKids, nKids, x, ni)
      ensures exists q :: q in more && q.0 == x && Alike(oKids, nKids, q.0, q.1) && q.1 < ni
    {
      assert x in Firsts(pairs);
      var i :| 0 <= i < |pairs| && Firsts(pairs)[i] == x;
      assert pairs[i] in pairs && pairs[i] in more;
    }
    forall y: nat | y < ni && Alike(oKids, nKids, oi, y)
      ensures exists q :: q in more && q.1 == y && Alike(oKids, nKids, q.0, q.1)
    {
      forall l | 0 <= l < |nLeft| ensures nLeft[l] != y {
        assert l > j ==> nLeft[j] < nLeft[l];
      }
      assert y in Seconds(pairs);
      var i :| 0 <= i < |pairs| && Seconds(pairs)[i] == y;
      assert pairs[i] in pairs && pairs[i] in more;
    }
    assert InTurn(oKids, nKids, more, (oi, ni));
    InTurnStays(oKids, nKids, pairs, more);
    forall y | y in nLeft && y != ni && Alike(oKids, nKids, oi, y) ensures ni < y {
      var l :| 0 <= l < |nLeft| && nLeft[l] == y;
    }
  }

  /** An original and a rebuilt child of equal fingerprint are in different pairs only when the
      partner of one of them has that fingerprint too. */
  ghost predicate ShapesMeet(oKids: seq<Proto>, nKids: seq<Proto>, pairs: KidPairs) {
    forall p, q ::
      p in pairs && q in pairs && Alike(oKids, nKids, p.0, q.1) ==>
        Alike(oKids, nKids, p.0, p.1) || Alike(oKids, nKids, q.0, q.1)
  }

  /** No child left on the one side looks like a child left on the other, and every pair so far is
      of one fingerprint or of two children left over. */
  ghost predicate Leftover(oKids: seq<Proto>, nKids: seq<Proto>, oLeft: seq<nat>, nLeft: seq<nat>, pairs: KidPairs) {
    && (forall x, y :: x in oLeft && y in nLeft ==> !Alike(oKids, nKids, x, y))
    && forall p :: p in pairs ==> Alike(oKids, nKids, p.0, p.1) || (p.0 in oLeft && p.1 in nLeft)
  }

  lemma {:induction false} LeftoverMeets(oKids: seq<Proto>, nKids: seq<Proto>, oLeft: seq<nat>, nLeft: seq<nat>,
      pairs: KidPairs)
    requires Leftover(oKids, nKids, oLeft, nLeft, pairs)
    ensures ShapesMeet(oKids, nKids, pairs)
  {
  }

  /** How similar two children are; places that are none do not count. */
  function ScoreOf(oKids: seq<Proto>, nKids: seq<Proto>, similarity: (Proto, Proto) -> real): Score {
    (oi: nat, ni: nat) => if oi < |oKids| && ni < |nKids| then similarity(oKids[oi], nKids[ni]) else 0.0
  }

  /** Similar enough to be paired, or at the same place. */
  ghost predicate Suits(score: Score, c: (nat, nat)) { score(c.0, c.1) >= 0.5 || c.0 == c.1 }

  /** More similar; or as similar and, other than the second, at one place; or alike in both and with
      the lower numbers. */
  ghost predicate Better(score: Score, p: (nat, nat), c: (nat, nat)) {
    || score(p.0, p.1) > score(c.0, c.1)
    || (score(p.0, p.1) == score(c.0, c.1) && p.0 == p.1 && c.0 != c.1)
    || (score(p.0, p.1) == score(c.0, c.1) && (p.0 == p.1 <==> c.0 == c.1) && p.0 < c.0)
    || (score(p.0, p.1) == score(c.0, c.1) && (p.0 == p.1 <==> c.0 == c.1) && p.0 == c.0 && p.1 < c.1)
  }

  /** The candidate is a pair, or one of the two is in a pair that suits and is better. */
  ghost predicate Settles(score: Score, pairs: KidPairs, c: (nat, nat)) {
    exists p :: p in pairs && (p.0 == c.0 || p.1 == c.1) && Suits(score, p) && (p == c || Better(score, p, c))
  }

  ghost predicate AllSettled(score: Score, pairs: KidPairs, oLeft: seq<nat>, nLeft: seq<nat>) {
    forall x, y :: x in oLeft && y in nLeft && Suits(score, (x, y)) ==> Settles(score, pairs, (x, y))
  }

  ghost predicate NoTwin(oKids: seq<Proto>, nKids: seq<Proto>, pairs: KidPairs, x: nat, y: nat) {
    forall p :: p in pairs && (p.0 == x || p.1 == y) ==> !Alike(oKids, nKids, p.0, p.1)
  }

  /** Of the children without a twin, whoever suit each other are paired, unless one of them is in a
      better pair. */
  ghost predicate BestFirst(oKids: seq<Proto>, nKids: seq<Proto>, score: Score, pairs: KidPairs) {
    forall x: nat, y: nat :: x < |oKids| && y < |nKids| && NoTwin(oKids, nKids, pairs, x, y) && Suits(score, (x, y)) ==>
      Settles(score, pairs, (x, y))
  }

  /** The pairs made of what is left in the end, neither twins nor suited. */
  ghost predicate LastResort(oKids: seq<Proto>, nKids: seq<Proto>, score: Score, p: (nat, nat)) {
    !Alike(oKids, nKids, p.0, p.1) && !Suits(score, p)
  }

  ghost predicate RestInOrder(oKids: seq<Proto>, nKids: seq<Proto>, score: Score, pairs: KidPairs) {
    forall p, q | p in pairs && q in pairs && LastResort(oKids, nKids, score, p) &&
      LastResort(oKids, nKids, score, q) ::
      p.0 < q.0 ==> p.1 < q.1
  }

  /** Everything a parent's turn says about its children: each is in one pair; twins first and in order;
      then the best pairs that suit; then the rest in order. */
  ghost predicate WellPaired(oKids: seq<Proto>, nKids: seq<Proto>, score: Score, pairs: KidPairs) {
    && |oKids| == |nKids| && Pairing(pairs, [], [], |oKids|)
    && AlikeInTurn(oKids, nKids, pairs) && ShapesMeet(oKids, nKids, pairs)
    && BestFirst(oKids, nKids, score, pairs) && RestInOrder(oKids, nKids, score, pairs)
  }

  /** What counts as the score is the similarity of the two children. */
  ghost predicate Scores(oKids: seq<Proto>, nKids: seq<Proto>, similarity: (Proto, Proto) -> real, score: Score) {
    forall x: nat, y: nat :: x < |oKids| && y < |nKids| ==> score(x, y) == similarity(oKids[x], nKids[y])
  }

  ghost predicate PairedWell(oKids: seq<Proto>, nKids: seq<Proto>, similarity: (Proto, Proto) -> real, pairs: KidPairs)
  {
    exists score :: Scores(oKids, nKids, similarity, score) && WellPaired(oKids, nKids, score, pairs)
  }

  lemma {:induction false} EarlierIsBetter(score: Score, p: (nat, nat), c: (nat, nat))
    ensures Earlier(score, p, c) <==> Better(score, p, c)
  {
  }

  /** No two pairs of unequal fingerprints could exchange partners so that an original and a rebuilt
      child that are similar enough both gain. */
  ghost predicate NoneWouldSwap(oKids: seq<Proto>, nKids: seq<Proto>, score: Score, pairs: KidPairs) {
    forall p, q | p in pairs && q in pairs && !Alike(oKids, nKids, p.0, p.1) && !Alike(oKids, nKids, q.0, q.1) ::
      score(p.0, q.1) < 0.5 || score(p.0, q.1) <= score(p.0, p.1) || score(p.0, q.1) <= score(q.0, q.1)
  }

  lemma {:induction false} SettledStays(oKids: seq<Proto>, nKids: seq<Proto>, score: Score, oLeft: seq<nat>,
      nLeft: seq<nat>, some: KidPairs, pairs: KidPairs, k: nat)
    requires AllSettled(score, some, oLeft, nLeft) && some <= pairs && Pairing(pairs, [], [], k)
    requires Leftover(oKids, nKids, oLeft, nLeft, pairs)
    ensures NoneWouldSwap(oKids, nKids, score, pairs)
  {
    forall p, q | p in pairs && q in pairs && !Alike(oKids, nKids, p.0, p.1) && !Alike(oKids, nKids, q.0, q.1) &&
      score(p.0, q.1) >= 0.5
      ensures score(p.0, q.1) <= score(p.0, p.1) || score(p.0, q.1) <= score(q.0, q.1)
    {
      assert Suits(score, (p.0, q.1)) && Settles(score, some, (p.0, q.1));
      var r :| r in some && (r.0 == p.0 || r.1 == q.1) && Suits(score, r) &&
        (r == (p.0, q.1) || Better(score, r, (p.0, q.1)));
      assert r in pairs;
      if r.0 == p.0 { OnePartner(pairs, k, r, p); } else { OnePartner(pairs, k, r, q); }
    }
  }

  lemma {:induction false} OnePartner(pairs: KidPairs, k: nat, p: (nat, nat), q: (nat, nat))
    requires Pairing(pairs, [], [], k) && p in pairs && q in pairs && (p.0 == q.0 || p.1 == q.1)
    ensures p == q
  {
    var i :| 0 <= i < |pairs| && pairs[i] == p;
    var j :| 0 <= j < |pairs| && pairs[j] == q;
    assert Firsts(pairs)[i] == p.0 && Firsts(pairs)[j] == q.0 && Seconds(pairs)[i] == p.1 && Seconds(pairs)[j] == q.1;
  }

  /** First, each original child takes the first rebuilt one of its fingerprint. */
  method PairAlike(oKids0: seq<Proto>, nKids0: seq<Proto>) returns (pairs: KidPairs, oKids: seq<nat>, nKids: seq<nat>)
    requires |oKids0| == |nKids0|
    ensures Pairing(pairs, oKids, nKids, |oKids0|) && Leftover(oKids0, nKids0, oKids, nKids, pairs)
    ensures AlikeInTurn(oKids0, nKids0, pairs) && Increasing(oKids) && Increasing(nKids)
    ensures forall p :: p in pairs ==> Alike(oKids0, nKids0, p.0, p.1)
  {
    hide Pairing, AlikeInTurn, TookFirst, Increasing;
    var k := |oKids0|;
    NothingInTurn(oKids0, nKids0, Range(k), k);
    pairs, oKids, nKids := [], Range(k), Range(k);
    AllLeft(k);
    for oi := 0 to k
      invariant Pairing(pairs, oKids, nKids, k) && forall x: nat :: oi <= x < k ==> x in oKids
      invariant forall x, y :: x in oKids && x < oi && y in nKids ==> !Alike(oKids0, nKids0, x, y)
      invariant forall p :: p in pairs ==> Alike(oKids0, nKids0, p.0, p.1)
      invariant AlikeInTurn(oKids0, nKids0, pairs) && TookFirst(oKids0, nKids0, pairs, nKids)
      invariant Increasing(oKids) && Increasing(nKids)
    {
      InRange(pairs, oKids, nKids, k);
      var j := 0;
      while j < |nKids| && !SameShape(oKids0[oi], nKids0[nKids[j]])
        invariant 0 <= j <= |nKids|
        invariant forall l :: 0 <= l < j ==> !Alike(oKids0, nKids0, oi, nKids[l])
      {
        assert nKids[j] in nKids;
        j := j + 1;
      }
      if j < |nKids| {
        PairOne(pairs, oKids, nKids, k, oi, nKids[j]);
        NextInTurn(oKids0, nKids0, pairs, oKids, nKids, k, oi, j);
        RemoveIncreasing(oKids, oi);
        RemoveIncreasing(nKids, nKids[j]);
        TookMore(oKids0, nKids0, pairs, nKids, Remove(nKids, nKids[j]), oi, nKids[j]);
        pairs, oKids, nKids := pairs + [(oi, nKids[j])], Remove(oKids, oi), Remove(nKids, nKids[j]);
      }
    }
    InRange(pairs, oKids, nKids, k);
  }

  lemma {:induction false} NothingInTurn(oKids: seq<Proto>, nKids: seq<Proto>, left: seq<nat>, k: nat)
    requires left == Range(k)
    ensures AlikeInTurn(oKids, nKids, []) && TookFirst(oKids, nKids, [], left) && Increasing(left)
  {
  }

  lemma {:induction false} TookMore(oKids: seq<Proto>, nKids: seq<Proto>, pairs: KidPairs, nLeft: seq<nat>,
      rest: seq<nat>, oi: nat, ni: nat)
    requires TookFirst(oKids, nKids, pairs, nLeft) && forall y :: y in rest ==> y in nLeft && y != ni
    requires forall y :: y in nLeft && y != ni && Alike(oKids, nKids, oi, y) ==> ni < y
    ensures TookFirst(oKids, nKids, pairs + [(oi, ni)], rest)
  {
  }

  ghost predicate Within(some: seq<nat>, all: seq<nat>) { forall x :: x in some ==> x in all }

  /** Pairs made of candidates so far suit, and are better than candidates to come. */
  ghost predicate Outranks(score: Score, pairs: KidPairs, oLeft: seq<nat>, nLeft: seq<nat>, c: (nat, nat)) {
    forall p :: p in pairs && (p.0 in oLeft || p.1 in nLeft) ==> Suits(score, p) && Better(score, p, c)
  }

  /** A candidate that comes too late has lost a child to a pair that was offered before it. */
  lemma {:induction false} TooLate(score: Score, pairs: KidPairs, oKids: seq<nat>, nKids: seq<nat>, oLeft: seq<nat>,
      nLeft: seq<nat>, k: nat, c: (nat, nat))
    requires Pairing(pairs, oKids, nKids, k) && Outranks(score, pairs, oLeft, nLeft, c)
    requires c.0 in oLeft && c.1 in nLeft && c.0 < k && c.1 < k && (c.0 !in oKids || c.1 !in nKids)
    ensures Settles(score, pairs, c)
  {
    if c.0 !in oKids {
      var i :| 0 <= i < |pairs| && Firsts(pairs)[i] == c.0;
      assert pairs[i] in pairs && pairs[i].0 == c.0;
    } else {
      var i :| 0 <= i < |pairs| && Seconds(pairs)[i] == c.1;
      assert pairs[i] in pairs && pairs[i].1 == c.1;
    }
  }

  lemma {:induction false} NoneOutranked(score: Score, pairs: KidPairs, oLeft: seq<nat>, nLeft: seq<nat>, k: nat,
      c: (nat, nat))
    requires Pairing(pairs, oLeft, nLeft, k)
    ensures Outranks(score, pairs, oLeft, nLeft, c)
  {
    forall p | p in pairs ensures p.0 !in oLeft && p.1 !in nLeft {
      var i :| 0 <= i < |pairs| && pairs[i] == p;
      assert Firsts(pairs)[i] == p.0 && Seconds(pairs)[i] == p.1;
    }
  }

  ghost predicate SuitsBeyond(score: Score, some: KidPairs, pairs: KidPairs) {
    some <= pairs && forall p :: p in pairs && p !in some ==> Suits(score, p)
  }

  lemma {:induction false} SuitsMore(score: Score, some: KidPairs, pairs: KidPairs, p: (nat, nat))
    requires SuitsBeyond(score, some, pairs) && Suits(score, p)
    ensures SuitsBeyond(score, some, pairs + [p])
  {
  }

  /** Then the candidates are tried, the most similar first. */
  method PairRanked(oKids0: seq<Proto>, nKids0: seq<Proto>, score: Score, pairs0: KidPairs, oLeft: seq<nat>,
      nLeft: seq<nat>, k: nat)
    returns (pairs: KidPairs, oKids: seq<nat>, nKids: seq<nat>)
    requires Pairing(pairs0, oLeft, nLeft, k) && Leftover(oKids0, nKids0, oLeft, nLeft, pairs0)
    requires Increasing(oLeft) && Increasing(nLeft)
    ensures SuitsBeyond(score, pairs0, pairs)
    ensures Increasing(oKids) && Increasing(nKids)
    ensures Pairing(pairs, oKids, nKids, k) && Leftover(oKids0, nKids0, oLeft, nLeft, pairs)
    ensures Within(oKids, oLeft) && Within(nKids, nLeft) && AllSettled(score, pairs, oLeft, nLeft)
  {
    hide Pairing, Ranked, Leftover, Increasing, Settles, Outranks, Better, Remove;
    SingleLeft(pairs0, oLeft, nLeft, k);
    InRange(pairs0, oLeft, nLeft, k);
    var cands := RankCandidates(score, oLeft, nLeft);
    pairs, oKids, nKids := pairs0, oLeft, nLeft;
    forall j | 0 <= j < |cands| ensures Outranks(score, pairs, oLeft, nLeft, cands[j]) {
      NoneOutranked(score, pairs, oLeft, nLeft, k, cands[j]);
    }
    for c := 0 to |cands|
      invariant Pairing(pairs, oKids, nKids, k) && Leftover(oKids0, nKids0, oLeft, nLeft, pairs)
      invariant Within(oKids, oLeft) && Within(nKids, nLeft) && Increasing(oKids) && Increasing(nKids)
      invariant SuitsBeyond(score, pairs0, pairs)
      invariant forall j :: c <= j < |cands| ==> Outranks(score, pairs, oLeft, nLeft, cands[j])
      invariant forall j :: 0 <= j < c && Suits(score, cands[j]) ==> Settles(score, pairs, cands[j])
    {
      var (oi, ni) := cands[c];
      assert cands[c] in cands;
      if oi in oKids && ni in nKids && (score(oi, ni) >= 0.5 || oi == ni) {
        PairOne(pairs, oKids, nKids, k, oi, ni);
        LeftoverMore(oKids0, nKids0, oLeft, nLeft, pairs, oi, ni);
        RankedMore(score, cands, pairs, oLeft, nLeft, c);
        RemoveIncreasing(oKids, oi);
        RemoveIncreasing(nKids, ni);
        SuitsMore(score, pairs0, pairs, (oi, ni));
        pairs, oKids, nKids := pairs + [(oi, ni)], Remove(oKids, oi), Remove(nKids, ni);
      } else if oi !in oKids || ni !in nKids {
        TooLate(score, pairs, oKids, nKids, oLeft, nLeft, k, cands[c]);
      }
    }
    forall x, y | x in oLeft && y in nLeft && Suits(score, (x, y)) ensures Settles(score, pairs, (x, y)) {
      assert (x, y) in cands;
      var j :| 0 <= j < |cands| && cands[j] == (x, y);
    }
  }

  lemma {:induction false} LeftoverMore(oKids: seq<Proto>, nKids: seq<Proto>, oLeft: seq<nat>, nLeft: seq<nat>,
      pairs: KidPairs, oi: nat, ni: nat)
    requires Leftover(oKids, nKids, oLeft, nLeft, pairs) && oi in oLeft && ni in nLeft
    ensures Leftover(oKids, nKids, oLeft, nLeft, pairs + [(oi, ni)])
  {
  }

  lemma {:induction false} RankedMore(score: Score, cands: KidPairs, pairs: KidPairs, oLeft: seq<nat>, nLeft: seq<nat>,
      c: nat)
    requires Ranked(score, cands) && c < |cands|
    requires forall j :: c <= j < |cands| ==> Outranks(score, pairs, oLeft, nLeft, cands[j])
    requires Suits(score, cands[c])
    ensures forall j :: c < j < |cands| ==> Outranks(score, pairs + [cands[c]], oLeft, nLeft, cands[j])
    ensures forall d :: Settles(score, pairs, d) ==> Settles(score, pairs + [cands[c]], d)
    ensures Settles(score, pairs + [cands[c]], cands[c])
  {
    var more := pairs + [cands[c]];
    assert cands[c] in more;
    forall j | c < j < |cands| ensures Outranks(score, more, oLeft, nLeft, cands[j]) {
      EarlierIsBetter(score, cands[c], cands[j]);
    }
    forall d | Settles(score, pairs, d) ensures Settles(score, more, d) {
      var p :| p in pairs && (p.0 == d.0 || p.1 == d.1) && Suits(score, p) && (p == d || Better(score, p, d));
      assert p in more;
    }
  }

  /** What holds between the stages: beyond the twins, pairs suit or are of the last resort, and those
      come in order, before what is left. */
  ghost predicate Stages(oKids: seq<Proto>, nKids: seq<Proto>, score: Score, alike: KidPairs, pairs: KidPairs,
      oLeft: seq<nat>, nLeft: seq<nat>)
  {
    && alike <= pairs && RestInOrder(oKids, nKids, score, pairs)
    && forall p :: p in pairs && LastResort(oKids, nKids, score, p) ==> ComesBefore(p, oLeft, nLeft)
  }

  ghost predicate ComesBefore(p: (nat, nat), oLeft: seq<nat>, nLeft: seq<nat>) {
    (forall x :: x in oLeft ==> p.0 < x) && forall y :: y in nLeft ==> p.1 < y
  }

  lemma {:induction false} StagesStart(oKids: seq<Proto>, nKids: seq<Proto>, score: Score, alike: KidPairs,
      pairs: KidPairs, oLeft: seq<nat>, nLeft: seq<nat>)
    requires alike <= pairs && forall p :: p in alike ==> Alike(oKids, nKids, p.0, p.1)
    requires forall p :: p in pairs && p !in alike ==> Suits(score, p)
    ensures Stages(oKids, nKids, score, alike, pairs, oLeft, nLeft)
  {
  }

  lemma {:induction false} StageSuits(oKids: seq<Proto>, nKids: seq<Proto>, score: Score, alike: KidPairs,
      pairs: KidPairs, oLeft: seq<nat>, nLeft: seq<nat>, p: (nat, nat), oRest: seq<nat>, nRest: seq<nat>)
    requires Stages(oKids, nKids, score, alike, pairs, oLeft, nLeft) && Suits(score, p)
    requires (forall x :: x in oRest ==> x in oLeft) && forall y :: y in nRest ==> y in nLeft
    ensures Stages(oKids, nKids, score, alike, pairs + [p], oRest, nRest)
  {
  }

  lemma {:induction false} StageLast(oKids: seq<Proto>, nKids: seq<Proto>, score: Score, alike: KidPairs,
      pairs: KidPairs, oLeft: seq<nat>, nLeft: seq<nat>)
    requires Stages(oKids, nKids, score, alike, pairs, oLeft, nLeft) && Increasing(oLeft) && Increasing(nLeft)
    requires oLeft != [] && nLeft != []
    ensures Stages(oKids, nKids, score, alike, pairs + [(oLeft[0], nLeft[0])], oLeft[1..], nLeft[1..])
    ensures Increasing(oLeft[1..]) && Increasing(nLeft[1..])
  {
    assert oLeft[0] in oLeft && nLeft[0] in nLeft;
    assert (forall x :: x in oLeft[1..] ==> oLeft[0] < x && x in oLeft) &&
      forall y :: y in nLeft[1..] ==> nLeft[0] < y && y in nLeft;
  }

  lemma {:induction false} ScoreOfIs(oKids: seq<Proto>, nKids: seq<Proto>, similarity: (Proto, Proto) -> real)
    ensures Scores(oKids, nKids, similarity, ScoreOf(oKids, nKids, similarity))
  {
  }

  /** Whoever has no twin was left when the twins had been paired. */
  lemma {:induction false} NoTwinIsLeft(oKids: seq<Proto>, nKids: seq<Proto>, alike: KidPairs, pairs: KidPairs,
      oLeft: seq<nat>, nLeft: seq<nat>, x: nat, y: nat)
    requires Pairing(alike, oLeft, nLeft, |oKids|) && |oKids| == |nKids| && alike <= pairs
    requires forall p :: p in alike ==> Alike(oKids, nKids, p.0, p.1)
    requires x < |oKids| && y < |nKids| && NoTwin(oKids, nKids, pairs, x, y)
    ensures x in oLeft && y in nLeft
  {
    forall i | 0 <= i < |alike| ensures Firsts(alike)[i] != x && Seconds(alike)[i] != y { assert alike[i] in pairs; }
  }

  lemma {:induction false} AllStages(oKids: seq<Proto>, nKids: seq<Proto>, score: Score, alike: KidPairs,
      ranked: KidPairs, pairs: KidPairs, oLeft: seq<nat>, nLeft: seq<nat>)
    requires |oKids| == |nKids| && Pairing(alike, oLeft, nLeft, |oKids|) && Pairing(pairs, [], [], |oKids|)
    requires alike <= ranked <= pairs && Stages(oKids, nKids, score, alike, pairs, [], [])
    requires (forall p :: p in alike ==> Alike(oKids, nKids, p.0, p.1)) && AlikeInTurn(oKids, nKids, alike)
    requires Leftover(oKids, nKids, oLeft, nLeft, pairs) && AllSettled(score, ranked, oLeft, nLeft)
    ensures WellPaired(oKids, nKids, score, pairs)
  {
    LeftoverMeets(oKids, nKids, oLeft, nLeft, pairs);
    forall x: nat, y: nat | x < |oKids| && y < |nKids| && NoTwin(oKids, nKids, pairs, x, y) && Suits(score, (x, y))
      ensures Settles(score, pairs, (x, y))
    {
      NoTwinIsLeft(oKids, nKids, alike, pairs, oLeft, nLeft, x, y);
      assert Settles(score, ranked, (x, y));
      var p :| p in ranked && (p.0 == x || p.1 == y) && Suits(score, p) && (p == (x, y) || Better(score, p, (x, y)));
      assert p in pairs;
    }
    forall p | p in pairs && p !in alike ensures !Alike(oKids, nKids, p.0, p.1) {
      LaterIsLeft(alike, pairs, oLeft, nLeft, |oKids|, p);
    }
    assert forall p :: p in alike ==> p in pairs;
    InTurnStays(oKids, nKids, alike, pairs);
  }

  /** A pair made after the twins is of two children left then. */
  lemma {:induction false} LaterIsLeft(alike: KidPairs, pairs: KidPairs, oLeft: seq<nat>, nLeft: seq<nat>, k: nat,
      p: (nat, nat))
    requires Pairing(alike, oLeft, nLeft, k) && Pairing(pairs, [], [], k) && alike <= pairs && p in pairs && p !in alike
    ensures p.0 in oLeft && p.1 in nLeft
  {
    var i :| 0 <= i < |pairs| && pairs[i] == p;
    assert Firsts(pairs)[i] in Firsts(pairs) && Seconds(pairs)[i] in Seconds(pairs);
    forall j | 0 <= j < |alike| ensures Firsts(alike)[j] != p.0 && Seconds(alike)[j] != p.1 {
      assert alike[j] in alike && Firsts(pairs)[j] == Firsts(alike)[j] && Seconds(pairs)[j] == Seconds(alike)[j];
    }
  }

  /** Children of equal fingerprint first, then the most similar, then what is at the same place,
      then what is left. */
  method PairKids(oKids0: seq<Proto>, nKids0: seq<Proto>, similarity: (Proto, Proto) -> real) returns (pairs: KidPairs)
    requires |oKids0| == |nKids0|
    ensures Pairing(pairs, [], [], |oKids0|)
    ensures ShapesMeet(oKids0, nKids0, pairs)
    ensures NoneWouldSwap(oKids0, nKids0, ScoreOf(oKids0, nKids0, similarity), pairs)
    ensures PairedWell(oKids0, nKids0, similarity, pairs)
  {
    hide Pairing, Leftover, AllSettled, Increasing, AlikeInTurn, WellPaired;
    var k, score := |oKids0|, ScoreOf(oKids0, nKids0, similarity);
    var alike, oLeft, nLeft := PairAlike(oKids0, nKids0);
    var ranked, oKids, nKids := PairRanked(oKids0, nKids0, score, alike, oLeft, nLeft, k);
    pairs := ranked;
    StagesStart(oKids0, nKids0, score, alike, pairs, oKids, nKids);
    var again := oKids;
    SingleLeft(pairs, oKids, nKids, k);
    for i := 0 to |again|
      invariant Pairing(pairs, oKids, nKids, k) && forall l :: i <= l < |again| ==> again[l] in oKids
      invariant ranked <= pairs && Leftover(oKids0, nKids0, oLeft, nLeft, pairs) && Within(oKids, oLeft)
      invariant Within(nKids, nLeft) && Increasing(oKids) && Increasing(nKids)
      invariant Stages(oKids0, nKids0, score, alike, pairs, oKids, nKids)
    {
      var oi := again[i];
      if oi in nKids {
        PairOne(pairs, oKids, nKids, k, oi, oi);
        LeftoverMore(oKids0, nKids0, oLeft, nLeft, pairs, oi, oi);
        RemoveIncreasing(oKids, oi);
        RemoveIncreasing(nKids, oi);
        StageSuits(oKids0, nKids0, score, alike, pairs, oKids, nKids, (oi, oi), Remove(oKids, oi), Remove(nKids, oi));
        pairs, oKids, nKids := pairs + [(oi, oi)], Remove(oKids, oi), Remove(nKids, oi);
      }
    }
    var last := oKids;
    SingleLeft(pairs, oKids, nKids, k);
    for i := 0 to |last|
      invariant Pairing(pairs, oKids, nKids, k) && oKids == last[i..]
      invariant ranked <= pairs && Leftover(oKids0, nKids0, oLeft, nLeft, pairs) && Within(oKids, oLeft)
      invariant Within(nKids, nLeft) && Increasing(oKids) && Increasing(nKids)
      invariant Stages(oKids0, nKids0, score, alike, pairs, oKids, nKids)
    {
      SingleLeft(pairs, oKids, nKids, k);
      var oi := last[i];
      assert oKids[0] == oi && Remove(oKids, oi) == last[i + 1..];
      assert nKids[0] in nKids;
      assert nKids[0] == nKids[0] && Remove(nKids, nKids[0]) == nKids[1..];
      PairOne(pairs, oKids, nKids, k, oi, nKids[0]);
      LeftoverMore(oKids0, nKids0, oLeft, nLeft, pairs, oi, nKids[0]);
      StageLast(oKids0, nKids0, score, alike, pairs, oKids, nKids);
      pairs, oKids, nKids := pairs + [(oi, nKids[0])], last[i + 1..], nKids[1..];
    }
    SingleLeft(pairs, oKids, nKids, k);
    LeftoverMeets(oKids0, nKids0, oLeft, nLeft, pairs);
    SettledStays(oKids0, nKids0, score, oLeft, nLeft, ranked, pairs, k);
    AllStages(oKids0, nKids0, score, alike, ranked, pairs, oLeft, nLeft);
    ScoreOfIs(oKids0, nKids0, similarity);
  }

  lemma {:induction false} InRange(pairs: KidPairs, oKids: seq<nat>, nKids: seq<nat>, k: nat)
    requires Pairing(pairs, oKids, nKids, k)
    ensures (forall x :: x in oKids ==> x < k) && (forall x :: x in nKids ==> x < k)
    ensures forall j :: 0 <= j < |nKids| ==> nKids[j] < k
  {
    forall j | 0 <= j < |nKids| ensures nKids[j] < k { assert nKids[j] in nKids; }
  }

  lemma {:induction false} SingleLeft(pairs: KidPairs, oKids: seq<nat>, nKids: seq<nat>, k: nat)
    requires Pairing(pairs, oKids, nKids, k)
    ensures Unrepeated(oKids) && Unrepeated(nKids) && |oKids| == |nKids|
  {
  }
}
