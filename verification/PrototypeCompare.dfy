/** The whole comparison: breadth-first through matched parents, then by similarity. */
module PrototypeCompare {
  import opened Options
  import opened Sequences
  import opened PrototypeMatch
  import opened PrototypeRanking
  import opened PrototypePairs

  type Pairs = seq<(Path, Proto, Proto)>

  /** Each matched original path, with the path its partner had in its own chunk. */
  type Partners = map<Path, Path>

  ghost predicate PartnersFit(orig: Proto, new': Proto, partners: Partners) {
    && (forall q :: q in partners ==> At(orig, q).Some? && At(new', partners[q]).Some?)
    && forall q, r :: q in partners && r in partners && partners[q] == partners[r] ==> q == r
  }

  ghost predicate PairFits(orig: Proto, new': Proto, partners: Partners, pair: (Path, Proto, Proto)) {
    pair.0 in partners && At(orig, pair.0) == Some(pair.1) && At(new', partners[pair.0]) == Some(pair.2)
  }

  ghost predicate HasPair(pairs: Pairs, q: Path) { exists i :: 0 <= i < |pairs| && pairs[i].0 == q }

  ghost predicate UsedOriginal(orig: Proto, partners: Partners, id: int) {
    exists q :: q in partners && At(orig, q).Some? && At(orig, q).value.id == id
  }

  ghost predicate UsedNew(new': Proto, partners: Partners, id: int) {
    exists q :: q in partners && At(new', partners[q]).Some? && At(new', partners[q]).value.id == id
  }

  /** The pairs are the partners, once each, and the used identities are theirs. */
  ghost predicate Matched(orig: Proto, new': Proto, pairs: Pairs, partners: Partners, usedO: set<int>, usedN: set<int>)
  {
    && PartnersFit(orig, new', partners)
    && (forall i :: 0 <= i < |pairs| ==> PairFits(orig, new', partners, pairs[i]))
    && (forall i, j :: 0 <= i < j < |pairs| ==> pairs[i].0 != pairs[j].0)
    && (forall q :: q in partners ==> HasPair(pairs, q))
    && (forall id :: id in usedO <==> UsedOriginal(orig, partners, id))
    && forall id :: id in usedN <==> UsedNew(new', partners, id)
  }

  lemma {:induction false} MatchOne(orig: Proto, new': Proto, pairs: Pairs, partners: Partners, usedO: set<int>,
      usedN: set<int>, q: Path, a: Path, x: Proto, y: Proto)
    requires Matched(orig, new', pairs, partners, usedO, usedN) && At(orig, q) == Some(x) && At(new', a) == Some(y)
    requires q !in partners && forall r :: r in partners ==> partners[r] != a
    ensures Matched(orig, new', pairs + [(q, x, y)], partners[q := a], usedO + {x.id}, usedN + {y.id})
  {
    hide HasPair, PairFits, UsedOriginal, UsedNew;
    var more, longer := partners[q := a], pairs + [(q, x, y)];
    PairMore(orig, new', pairs, partners, q, a, x, y);
    forall id
      ensures id in usedO + {x.id} <==> UsedOriginal(orig, more, id)
    {
      OriginalMore(orig, partners, q, a, x, id);
    }
    forall id ensures id in usedN + {y.id} <==> UsedNew(new', more, id) { NewMore(new', partners, q, a, y, id); }
  }

  lemma {:induction false} PairMore(orig: Proto, new': Proto, pairs: Pairs, partners: Partners, q: Path, a: Path,
      x: Proto, y: Proto)
    requires At(orig, q) == Some(x) && At(new', a) == Some(y) && q !in partners
    requires (forall i :: 0 <= i < |pairs| ==> PairFits(orig, new', partners, pairs[i]))
    requires forall r :: r in partners ==> HasPair(pairs, r)
    requires forall i, j :: 0 <= i < j < |pairs| ==> pairs[i].0 != pairs[j].0
    ensures forall r :: r in partners[q := a] ==> HasPair(pairs + [(q, x, y)], r)
    ensures forall i :: 0 <= i <= |pairs| ==> PairFits(orig, new', partners[q := a], (pairs + [(q, x, y)])[i])
    ensures forall i, j :: 0 <= i < j <= |pairs| ==> (pairs + [(q, x, y)])[i].0 != (pairs + [(q, x, y)])[j].0
  {
    var more, longer := partners[q := a], pairs + [(q, x, y)];
    forall r | r in more ensures HasPair(longer, r) {
      if r == q { assert longer[|pairs|].0 == q; }
      else { assert HasPair(pairs, r); var i :| 0 <= i < |pairs| && pairs[i].0 == r; assert longer[i].0 == r; }
    }
    forall i | 0 <= i < |longer| ensures PairFits(orig, new', more, longer[i]) {
      if i < |pairs| { assert PairFits(orig, new', partners, pairs[i]); }
    }
    forall i, j | 0 <= i < j < |longer| ensures longer[i].0 != longer[j].0 {
      if j == |pairs| { assert PairFits(orig, new', partners, pairs[i]); }
    }
  }

  lemma {:induction false} OriginalMore(orig: Proto, partners: Partners, q: Path, a: Path, x: Proto, id: int)
    requires q !in partners && At(orig, q) == Some(x)
    ensures UsedOriginal(orig, partners[q := a], id) <==> UsedOriginal(orig, partners, id) || id == x.id
  {
    var more := partners[q := a];
    if UsedOriginal(orig, partners, id) {
      var r :| r in partners && At(orig, r).Some? && At(orig, r).value.id == id;
      assert r in more;
    }
    if id == x.id { assert q in more; }
  }

  lemma {:induction false} NewMore(new': Proto, partners: Partners, q: Path, a: Path, y: Proto, id: int)
    requires q !in partners && At(new', a) == Some(y)
    ensures UsedNew(new', partners[q := a], id) <==> UsedNew(new', partners, id) || id == y.id
  {
    var more := partners[q := a];
    if UsedNew(new', partners, id) {
      var r :| r in partners && At(new', partners[r]).Some? && At(new', partners[r]).value.id == id;
      assert r in more && more[r] == partners[r];
    }
    if id == y.id { assert q in more && more[q] == a; }
  }

  // ----- the frontier of matched parents -----

  /** Below a waiting parent the re-keyed map is still the partner's own subtree. */
  ghost predicate SubtreeAt(new': Proto, keyed: Keyed, r: Path, a: Path) {
    forall s: Path :: EntryAt(new', keyed, r, a, s)
  }

  ghost predicate EntryAt(new': Proto, keyed: Keyed, r: Path, a: Path, s: Path) {
    (r + s in keyed <==> At(new', a + s).Some?) && (r + s in keyed ==> keyed[r + s] == At(new', a + s).value)
  }

  /** Nothing below a waiting parent has a partner yet, on either side. */
  ghost predicate Untouched(partners: Partners, r: Path)
    requires r in partners
  {
    forall q :: q in partners && q != r ==> !(r <= q) && !(partners[r] <= partners[q])
  }

  ghost predicate Waiting(new': Proto, keyed: Keyed, partners: Partners, r: Path) {
    r in partners && SubtreeAt(new', keyed, r, partners[r]) && Untouched(partners, r)
  }

  ghost predicate Frontier(new': Proto, keyed: Keyed, partners: Partners, queue: seq<Path>) {
    && (forall i :: 0 <= i < |queue| ==> Waiting(new', keyed, partners, queue[i]))
    && Unrepeated(queue)
  }

  /** The partners of the first `t` children. */
  function WithKids(partners: Partners, r: Path, a: Path, kids: KidPairs, t: nat): Partners
    requires t <= |kids|
  {
    if t == 0 then partners else WithKids(partners, r, a, kids, t - 1)[r + [kids[t - 1].0] := a + [kids[t - 1].1]]
  }

  lemma {:induction false} WithKidsIs(partners: Partners, r: Path, a: Path, kids: KidPairs, t: nat, q: Path)
    requires t <= |kids| && Unrepeated(Firsts(kids))
    requires forall i :: 0 <= i < |kids| ==> r + [kids[i].0] !in partners
    ensures q in WithKids(partners, r, a, kids, t) <==> q in partners || exists i :: 0 <= i < t && q == r + [kids[i].0]
    ensures q in partners ==> WithKids(partners, r, a, kids, t)[q] == partners[q]
    ensures forall i :: 0 <= i < t && q == r + [kids[i].0] ==> WithKids(partners, r, a, kids, t)[q] == a + [kids[i].1]
  {
    if t > 0 {
      WithKidsIs(partners, r, a, kids, t - 1, q);
      forall i | 0 <= i < t - 1 ensures r + [kids[i].0] != r + [kids[t - 1].0] {
        assert Firsts(kids)[i] != Firsts(kids)[t - 1];
        assert (r + [kids[i].0])[|r|] == kids[i].0 && (r + [kids[t - 1].0])[|r|] == kids[t - 1].0;
      }
    }
  }

  lemma {:induction false} KidIsNew(partners: Partners, r: Path, kids: KidPairs, i: nat)
    requires r in partners && Untouched(partners, r) && i < |kids|
    ensures r + [kids[i].0] !in partners && forall q :: q in partners ==> partners[q] != partners[r] + [kids[i].1]
  {
    var q := r + [kids[i].0];
    assert r <= q && q != r;
    forall s | s in partners ensures partners[s] != partners[r] + [kids[i].1] {
      if s == r { assert |partners[r] + [kids[i].1]| == |partners[r]| + 1; }
    }
  }

  /** The next child's pair is new on both sides. */
  lemma {:induction false} NextKid(orig: Proto, new': Proto, partners: Partners, r: Path, kids: KidPairs, t: nat)
    requires r in partners && PartnersFit(orig, new', partners) && Untouched(partners, r) && t < |kids|
    requires Unrepeated(Firsts(kids)) && Unrepeated(Seconds(kids))
    ensures var now := WithKids(partners, r, partners[r], kids, t);
            r + [kids[t].0] !in now && forall q :: q in now ==> now[q] != partners[r] + [kids[t].1]
  {
    var a := partners[r];
    var now := WithKids(partners, r, a, kids, t);
    forall i: nat | i < |kids| ensures r + [kids[i].0] !in partners { KidIsNew(partners, r, kids, i); }
    KidIsNew(partners, r, kids, t);
    WithKidsIs(partners, r, a, kids, t, r + [kids[t].0]);
    forall i | 0 <= i < t ensures r + [kids[i].0] != r + [kids[t].0] && a + [kids[i].1] != a + [kids[t].1] {
      assert Firsts(kids)[i] != Firsts(kids)[t] && Seconds(kids)[i] != Seconds(kids)[t];
      assert (r + [kids[i].0])[|r|] == kids[i].0 && (r + [kids[t].0])[|r|] == kids[t].0;
      assert (a + [kids[i].1])[|a|] == kids[i].1 && (a + [kids[t].1])[|a|] == kids[t].1;
    }
    forall q | q in now ensures now[q] != a + [kids[t].1] {
      WithKidsIs(partners, r, a, kids, t, q);
    }
  }

  // ----- the moves of one parent -----

  /** Children that change places. */
  function MovesOf(r: Path, kids: KidPairs, t: nat): Moves
    requires t <= |kids|
  {
    if t == 0 then []
      else MovesOf(r, kids, t - 1) + if kids[t - 1].0 != kids[t - 1].1 then [(r + [kids[t - 1].1], r + [kids[t - 1].0])]
        else []
  }

  lemma {:induction false} MovesAre(r: Path, kids: KidPairs, t: nat, m: (Path, Path))
    requires t <= |kids|
    ensures m in MovesOf(r, kids, t) <==>
        exists i :: 0 <= i < t && kids[i].0 != kids[i].1 && m == (r + [kids[i].1], r + [kids[i].0])
  {
    if t > 0 { MovesAre(r, kids, t - 1, m); }
  }

  lemma {:induction false} MovesDistinct(r: Path, kids: KidPairs, t: nat)
    requires t <= |kids| && Unrepeated(Firsts(kids)) && Unrepeated(Seconds(kids))
    ensures Distinct(MovesOf(r, kids, t), r)
  {
    if t > 0 {
      MovesDistinct(r, kids, t - 1);
      var before, k := MovesOf(r, kids, t - 1), kids[t - 1];
      var m := (r + [k.1], r + [k.0]);
      forall i | 0 <= i < |before| ensures before[i].0 != m.0 && before[i].1 != m.1 {
        assert before[i] in before;
        MovesAre(r, kids, t - 1, before[i]);
        var j :| 0 <= j < t - 1 && before[i] == (r + [kids[j].1], r + [kids[j].0]);
        assert Firsts(kids)[j] != Firsts(kids)[t - 1] && Seconds(kids)[j] != Seconds(kids)[t - 1];
        assert before[i].0[|r|] == kids[j].1 && before[i].1[|r|] == kids[j].0 && m.0[|r|] == k.1 && m.1[|r|] == k.0;
      }
    }
  }

  lemma {:induction false} FirstOf(kids: KidPairs, k: nat, x: nat) returns (i: nat)
    requires Pairing(kids, [], [], k) && x < k
    ensures i < |kids| && kids[i].0 == x
  {
    assert x in Firsts(kids);
    i :| i < |Firsts(kids)| && Firsts(kids)[i] == x;
  }

  lemma {:induction false} SecondOf(kids: KidPairs, k: nat, x: nat) returns (i: nat)
    requires Pairing(kids, [], [], k) && x < k
    ensures i < |kids| && kids[i].1 == x
  {
    assert x in Seconds(kids);
    i :| i < |Seconds(kids)| && Seconds(kids)[i] == x;
  }

  lemma {:induction false} KidsBelow(kids: KidPairs, k: nat, i: nat)
    requires Pairing(kids, [], [], k) && i < |kids|
    ensures kids[i].0 < k && kids[i].1 < k
  {
    assert Firsts(kids)[i] in Firsts(kids) && Seconds(kids)[i] in Seconds(kids);
  }

  lemma {:induction false} MoveBySource(r: Path, kids: KidPairs, k: nat, p: Path)
    requires Pairing(kids, [], [], k)
    ensures IsSource(MovesOf(r, kids, |kids|), p) <==> IsTarget(MovesOf(r, kids, |kids|), p)
  {
    var moves := MovesOf(r, kids, |kids|);
    if s :| 0 <= s < |moves| && moves[s].0 == p {
      assert moves[s] in moves;
      MovesAre(r, kids, |kids|, moves[s]);
      var i: nat :| i < |kids| && kids[i].0 != kids[i].1 && moves[s] == (r + [kids[i].1], r + [kids[i].0]);
      KidsBelow(kids, k, i);
      var j := FirstOf(kids, k, kids[i].1);
      KidMoves(r, kids, i, j);
      var m := (r + [kids[j].1], r + [kids[j].0]);
      MovesAre(r, kids, |kids|, m);
      var l :| 0 <= l < |moves| && moves[l] == m;
      assert moves[l].1 == p;
    }
    if s :| 0 <= s < |moves| && moves[s].1 == p {
      assert moves[s] in moves;
      MovesAre(r, kids, |kids|, moves[s]);
      var i: nat :| i < |kids| && kids[i].0 != kids[i].1 && moves[s] == (r + [kids[i].1], r + [kids[i].0]);
      KidsBelow(kids, k, i);
      var j := SecondOf(kids, k, kids[i].0);
      KidMoves(r, kids, j, i);
      var m := (r + [kids[j].1], r + [kids[j].0]);
      MovesAre(r, kids, |kids|, m);
      var l :| 0 <= l < |moves| && moves[l] == m;
      assert moves[l].0 == p;
    }
  }

  /** A child whose place is taken, or whose taker moves, moves itself. */
  lemma {:induction false} KidMoves(r: Path, kids: KidPairs, i: nat, j: nat)
    requires i < |kids| && j < |kids| && kids[j].0 == kids[i].1 && Unrepeated(Firsts(kids)) && Unrepeated(Seconds(kids))
    ensures kids[i].0 != kids[i].1 <==> kids[j].0 != kids[j].1
  {
    assert Firsts(kids)[i] == kids[i].0 && Firsts(kids)[j] == kids[j].0 && Seconds(kids)[i] == kids[i].1 &&
      Seconds(kids)[j] == kids[j].1;
  }

  lemma {:induction false} MovesPermute(r: Path, kids: KidPairs, k: nat)
    requires Pairing(kids, [], [], k)
    ensures Siblings(MovesOf(r, kids, |kids|), r)
  {
    MovesDistinct(r, kids, |kids|);
    forall p: Path
      ensures IsSource(MovesOf(r, kids, |kids|), p) <==> IsTarget(MovesOf(r, kids, |kids|), p)
    {
      MoveBySource(r, kids, k, p);
    }
  }

  /** Nothing moves to the place of a child that has its own place's partner. */
  lemma {:induction false} KidStays(r: Path, kids: KidPairs, k: nat, i: nat, s: Path)
    requires Pairing(kids, [], [], k) && i < |kids| && kids[i].0 == kids[i].1
    ensures Origin(MovesOf(r, kids, |kids|), r + [kids[i].0] + s) == r + [kids[i].0] + s
  {
    var moves, key := MovesOf(r, kids, |kids|), r + [kids[i].0] + s;
    hide MovesOf, Origin;
    TargetIs(moves, key);
    forall l | 0 <= l < |moves| ensures !(moves[l].1 <= key) {
      assert moves[l] in moves;
      MovesAre(r, kids, |kids|, moves[l]);
      var j: nat :| j < |kids| && kids[j].0 != kids[j].1 && moves[l] == (r + [kids[j].1], r + [kids[j].0]);
      assert Firsts(kids)[i] == kids[i].0 && Firsts(kids)[j] == kids[j].0;
      assert moves[l].1[|r|] == kids[j].0 && key[|r|] == kids[i].0;
    }
    OriginNone(moves, key);
  }

  /** Under child `oi` the entries now come from its partner's place. */
  lemma {:induction false} OriginUnderKid(r: Path, kids: KidPairs, k: nat, i: nat, s: Path)
    requires Pairing(kids, [], [], k) && i < |kids|
    ensures Origin(MovesOf(r, kids, |kids|), r + [kids[i].0] + s) == r + [kids[i].1] + s
  {
    var moves, key := MovesOf(r, kids, |kids|), r + [kids[i].0] + s;
    hide MovesOf, Origin, Pairing;
    MovesPermute(r, kids, k);
    if kids[i].0 != kids[i].1 {
      var m := (r + [kids[i].1], r + [kids[i].0]);
      MovesAre(r, kids, |kids|, m);
      var l: nat :| l < |moves| && moves[l] == m;
      OriginOf(moves, r, key, l, |moves|);
      assert moves[..|moves|] == moves && key[|m.1|..] == s;
    } else {
      KidStays(r, kids, k, i, s);
    }
  }

  lemma {:induction false} PrefixOn(a: Path, b: Path, c: Path)
    ensures a <= b && b <= c ==> a <= c
  {
  }

  /** Keys that are not below the parent stay. */
  lemma {:induction false} OriginElsewhere(r: Path, kids: KidPairs, k: nat, key: Path)
    requires Pairing(kids, [], [], k) && !(r <= key)
    ensures Origin(MovesOf(r, kids, |kids|), key) == key
  {
    var moves := MovesOf(r, kids, |kids|);
    MovesDistinct(r, kids, |kids|);
    TargetIs(moves, key);
    forall l | 0 <= l < |moves| ensures !(moves[l].1 <= key) {
      PrefixOn(r, moves[l].1, key);
    }
    OriginNone(moves, key);
  }

  /** Two prefixes of one path are comparable. */
  lemma {:induction false} Comparable(a: Path, b: Path, key: Path)
    requires a <= key && b <= key
    ensures a <= b || b <= a
  {
    if |a| <= |b| { assert a == b[..|a|]; } else { assert b == a[..|b|]; }
  }

  // ----- one parent's turn -----

  /** What a parent's turn starts and ends with. */
  ghost predicate Turn(new': Proto, keyed: Keyed, keyed': Keyed, partners: Partners, r: Path, kids: KidPairs, k: nat) {
    && Pairing(kids, [], [], k) && Waiting(new', keyed, partners, r) && At(new', partners[r]).Some? &&
      k == |At(new', partners[r]).value.kids|
    && (forall key: Path :: key in keyed' <==> Origin(MovesOf(r, kids, |kids|), key) in keyed)
    && forall key: Path :: key in keyed' ==> keyed'[key] == keyed[Origin(MovesOf(r, kids, |kids|), key)]
  }

  function AfterTurn(partners: Partners, r: Path, kids: KidPairs): Partners
    requires r in partners
  {
    WithKids(partners, r, partners[r], kids, |kids|)
  }

  lemma {:induction false} AfterTurnIs(partners: Partners, r: Path, kids: KidPairs, q: Path)
    requires r in partners && Untouched(partners, r) && Unrepeated(Firsts(kids))
    ensures q in AfterTurn(partners, r, kids) <==> q in partners || exists i :: 0 <= i < |kids| && q == r + [kids[i].0]
    ensures q in partners ==> AfterTurn(partners, r, kids)[q] == partners[q]
    ensures forall i ::
        0 <= i < |kids| && q == r + [kids[i].0] ==> AfterTurn(partners, r, kids)[q] == partners[r] + [kids[i].1]
  {
    forall i: nat | i < |kids| ensures r + [kids[i].0] !in partners { KidIsNew(partners, r, kids, i); }
    WithKidsIs(partners, r, partners[r], kids, |kids|, q);
  }

  lemma {:induction false} KidSubtree(new': Proto, keyed: Keyed, keyed': Keyed, partners: Partners, r: Path,
      kids: KidPairs, k: nat, i: nat)
    requires Turn(new', keyed, keyed', partners, r, kids, k) && i < |kids|
    ensures SubtreeAt(new', keyed', r + [kids[i].0], partners[r] + [kids[i].1])
  {
    var q, a := r + [kids[i].0], partners[r] + [kids[i].1];
    hide EntryAt;
    forall s: Path ensures EntryAt(new', keyed', q, a, s) { KidEntry(new', keyed, keyed', partners, r, kids, k, i, s); }
  }

  lemma {:induction false} KidEntry(new': Proto, keyed: Keyed, keyed': Keyed, partners: Partners, r: Path,
      kids: KidPairs, k: nat, i: nat, s: Path)
    requires Turn(new', keyed, keyed', partners, r, kids, k) && i < |kids|
    ensures EntryAt(new', keyed', r + [kids[i].0], partners[r] + [kids[i].1], s)
  {
    hide Origin, At, Pairing, Untouched;
    OriginUnderKid(r, kids, k, i, s);
    var below := [kids[i].1] + s;
    assert EntryAt(new', keyed, r, partners[r], below);
    assert r + below == r + [kids[i].1] + s && partners[r] + below == partners[r] + [kids[i].1] + s;
  }

  lemma {:induction false} OtherSubtree(new': Proto, keyed: Keyed, keyed': Keyed, partners: Partners, r: Path,
      kids: KidPairs, k: nat, q: Path)
    requires Turn(new', keyed, keyed', partners, r, kids, k) && Waiting(new', keyed, partners, q) && q != r
    ensures SubtreeAt(new', keyed', q, partners[q])
  {
    forall s: Path ensures EntryAt(new', keyed', q, partners[q], s) {
      assert EntryAt(new', keyed, q, partners[q], s);
      if r <= q + s { Comparable(r, q, q + s); }
      OriginElsewhere(r, kids, k, q + s);
    }
  }

  /** A path longer than `q` by one step at most cannot start with something strictly longer. */
  lemma {:induction false} OneLonger(r: Path, x: nat, q: Path)
    ensures q <= r + [x] <==> q <= r || q == r + [x]
  {
    if q <= r + [x] && |q| <= |r| { assert (r + [x])[..|q|] == r[..|q|]; }
    if q <= r + [x] && |q| > |r| { assert q == (r + [x])[..|q|] == r + [x]; }
  }

  lemma {:induction false} KidUntouched(new': Proto, keyed: Keyed, keyed': Keyed, partners: Partners, r: Path,
      kids: KidPairs, k: nat, i: nat)
    requires Turn(new', keyed, keyed', partners, r, kids, k) && i < |kids|
    ensures r + [kids[i].0] in AfterTurn(partners, r, kids) && Untouched(AfterTurn(partners, r, kids), r + [kids[i].0])
  {
    var after, kid, a := AfterTurn(partners, r, kids), r + [kids[i].0], partners[r];
    AfterTurnIs(partners, r, kids, kid);
    forall q | q in after && q != kid ensures !(kid <= q) && !(after[kid] <= after[q]) {
      AfterTurnIs(partners, r, kids, q);
      if q in partners {
        PrefixOn(r, kid, q);
        PrefixOn(a, after[kid], partners[q]);
        if q == r { assert |kid| > |r| && |after[kid]| > |a|; }
      } else {
        var j :| 0 <= j < |kids| && q == r + [kids[j].0];
        OneLonger(r, kids[j].0, kid);
        OneLonger(a, kids[j].1, after[kid]);
        assert j != i;
        assert Seconds(kids)[i] == kids[i].1 && Seconds(kids)[j] == kids[j].1;
        assert (a + [kids[j].1])[|a|] == kids[j].1 && (a + [kids[i].1])[|a|] == kids[i].1;
      }
    }
  }

  lemma {:induction false} OtherUntouched(new': Proto, keyed: Keyed, keyed': Keyed, partners: Partners, r: Path,
      kids: KidPairs, k: nat, q: Path)
    requires Turn(new', keyed, keyed', partners, r, kids, k) && Waiting(new', keyed, partners, q) && q != r
    ensures q in AfterTurn(partners, r, kids) && AfterTurn(partners, r, kids)[q] == partners[q]
    ensures Untouched(AfterTurn(partners, r, kids), q)
  {
    var after, a := AfterTurn(partners, r, kids), partners[r];
    AfterTurnIs(partners, r, kids, q);
    forall p | p in after && p != q ensures !(q <= p) && !(after[q] <= after[p]) {
      AfterTurnIs(partners, r, kids, p);
      if p !in partners {
        var j :| 0 <= j < |kids| && p == r + [kids[j].0];
        OneLonger(r, kids[j].0, q);
        OneLonger(a, kids[j].1, after[q]);
        KidIsNew(partners, r, kids, j);
      }
    }
  }

  function KidPaths(r: Path, kids: KidPairs): seq<Path> { seq(|kids|, i requires 0 <= i < |kids| => r + [kids[i].0]) }

  /** The children join the queue behind the other waiting parents. */
  lemma {:induction false} NextFrontier(new': Proto, keyed: Keyed, keyed': Keyed, partners: Partners, r: Path,
      kids: KidPairs, k: nat, queue: seq<Path>)
    requires Turn(new', keyed, keyed', partners, r, kids, k) && Frontier(new', keyed, partners, [r] + queue)
    ensures Frontier(new', keyed', AfterTurn(partners, r, kids), queue + KidPaths(r, kids))
  {
    assert r in partners;
    hide Turn, Untouched, SubtreeAt, AfterTurn, Waiting;
    var whole, next, after := [r] + queue, queue + KidPaths(r, kids), AfterTurn(partners, r, kids);
    forall i | 0 <= i < |next| ensures Waiting(new', keyed', after, next[i]) {
      if i < |queue| {
        assert whole[i + 1] == queue[i] && whole[0] == r;
        OtherWaits(new', keyed, keyed', partners, r, kids, k, queue[i]);
      } else {
        KidWaits(new', keyed, keyed', partners, r, kids, k, i - |queue|);
      }
    }
    NextOnce(new', keyed, keyed', partners, r, kids, k, queue);
  }

  lemma {:induction false} NextOnce(new': Proto, keyed: Keyed, keyed': Keyed, partners: Partners, r: Path,
      kids: KidPairs, k: nat, queue: seq<Path>)
    requires Turn(new', keyed, keyed', partners, r, kids, k) && Frontier(new', keyed, partners, [r] + queue)
    ensures Unrepeated(queue + KidPaths(r, kids))
  {
    hide Turn, Waiting;
    var whole, next := [r] + queue, queue + KidPaths(r, kids);
    forall i, j | 0 <= i < j < |next| ensures next[i] != next[j] {
      if i < |queue| { assert whole[i + 1] == queue[i]; }
      if j < |queue| {
        assert whole[j + 1] == queue[j];
      } else {
        KidsDiffer(new', keyed, keyed', partners, r, kids, k, if i < |queue| then -1
          else i - |queue|, j - |queue|, next[i]);
      }
    }
  }

  lemma {:induction false} OtherWaits(new': Proto, keyed: Keyed, keyed': Keyed, partners: Partners, r: Path,
      kids: KidPairs, k: nat, q: Path)
    requires Turn(new', keyed, keyed', partners, r, kids, k) && Waiting(new', keyed, partners, q) && q != r
    ensures Waiting(new', keyed', AfterTurn(partners, r, kids), q)
  {
    hide Turn, Untouched, SubtreeAt, AfterTurn;
    OtherUntouched(new', keyed, keyed', partners, r, kids, k, q);
    OtherSubtree(new', keyed, keyed', partners, r, kids, k, q);
  }

  lemma {:induction false} KidWaits(new': Proto, keyed: Keyed, keyed': Keyed, partners: Partners, r: Path,
      kids: KidPairs, k: nat, i: nat)
    requires Turn(new', keyed, keyed', partners, r, kids, k) && i < |kids|
    ensures Waiting(new', keyed', AfterTurn(partners, r, kids), r + [kids[i].0])
  {
    hide Untouched, SubtreeAt, AfterTurn, Origin;
    KidUntouched(new', keyed, keyed', partners, r, kids, k, i);
    KidSubtree(new', keyed, keyed', partners, r, kids, k, i);
    AfterTurnIs(partners, r, kids, r + [kids[i].0]);
  }

  /** A child's path is that of no other waiting parent and no other child. */
  lemma {:induction false} KidsDiffer(new': Proto, keyed: Keyed, keyed': Keyed, partners: Partners, r: Path,
      kids: KidPairs, k: nat, i: int, j: nat, other: Path)
    requires Turn(new', keyed, keyed', partners, r, kids, k) && i < j < |kids|
    requires if i < 0 then Waiting(new', keyed, partners, other) else other == r + [kids[i].0]
    ensures other != r + [kids[j].0]
  {
    KidIsNew(partners, r, kids, j);
    if i >= 0 {
      assert Firsts(kids)[i] != Firsts(kids)[j];
      assert (r + [kids[i].0])[|r|] == kids[i].0 && (r + [kids[j].0])[|r|] == kids[j].0;
    }
  }
}
