/** The contract of the comparison leaves one answer: two results that meet it pair the same
    prototypes. */
module PrototypeUnique {
  import opened Options
  import opened PrototypeMatch
  import opened PrototypeRanking
  import opened PrototypePairs
  import opened PrototypeCompare
  import opened PrototypeConservation

  // ----- one parent's children -----

  lemma {:induction false} PartnerIn(pairs: KidPairs, k: nat, x: nat) returns (y: nat)
    requires Pairing(pairs, [], [], k) && x < k
    ensures (x, y) in pairs && y < k
  {
    assert x in Firsts(pairs);
    var i :| 0 <= i < |pairs| && Firsts(pairs)[i] == x;
    y := pairs[i].1;
    assert Seconds(pairs)[i] in Seconds(pairs) && pairs[i] in pairs;
  }

  lemma {:induction false} MakerIn(pairs: KidPairs, k: nat, y: nat) returns (x: nat)
    requires Pairing(pairs, [], [], k) && y < k
    ensures (x, y) in pairs && x < k
  {
    assert y in Seconds(pairs);
    var i :| 0 <= i < |pairs| && Seconds(pairs)[i] == y;
    x := pairs[i].0;
    assert Firsts(pairs)[i] in Firsts(pairs) && pairs[i] in pairs;
  }

  lemma {:induction false} InFrame(pairs: KidPairs, k: nat, p: (nat, nat))
    requires Pairing(pairs, [], [], k) && p in pairs
    ensures p.0 < k && p.1 < k
  {
    var i :| 0 <= i < |pairs| && pairs[i] == p;
    assert Firsts(pairs)[i] in Firsts(pairs) && Seconds(pairs)[i] in Seconds(pairs);
  }

  ghost predicate SameTwins(o: seq<Proto>, n: seq<Proto>, p: KidPairs, q: KidPairs, x: nat) {
    forall y: nat :: Alike(o, n, x, y) ==> ((x, y) in p <==> (x, y) in q)
  }

  /** The twin of `x` in `q` has not a higher number than in `p`. */
  lemma {:induction false} TwinNotLater(o: seq<Proto>, n: seq<Proto>, p: KidPairs, q: KidPairs, k: nat, x: nat, y: nat,
      y': nat)
    requires Pairing(p, [], [], k) && Pairing(q, [], [], k) && AlikeInTurn(o, n, q)
    requires forall x0: nat :: x0 < x ==> SameTwins(o, n, p, q, x0)
    requires (x, y) in p && Alike(o, n, x, y) && (x, y') in q && Alike(o, n, x, y')
    ensures y' <= y
  {
    if y < y' {
      assert InTurn(o, n, q, (x, y'));
      var d :| d in q && d.1 == y && Alike(o, n, d.0, d.1);
      if d.0 < x {
        assert SameTwins(o, n, p, q, d.0) && (d.0, y) in p;
        OnePartner(p, k, (d.0, y), (x, y));
      } else if d.0 > x {
        assert InTurn(o, n, q, d);
        var e :| e in q && e.0 == x && Alike(o, n, e.0, e.1) && e.1 < y;
        OnePartner(q, k, e, (x, y'));
      } else {
        OnePartner(q, k, d, (x, y'));
      }
    }
  }

  /** Who takes a twin's partner on the other side is a twin of it, too. */
  lemma {:induction false} TwinStays(o: seq<Proto>, n: seq<Proto>, p: KidPairs, q: KidPairs, k: nat, x: nat, y: nat,
      x': nat, y': nat)
    requires Pairing(p, [], [], k) && Pairing(q, [], [], k) && AlikeInTurn(o, n, q) && ShapesMeet(o, n, q)
    requires forall x0: nat :: x0 < x ==> SameTwins(o, n, p, q, x0)
    requires (x, y) in p && Alike(o, n, x, y) && (x, y') in q && (x', y) in q
    ensures Alike(o, n, x, y')
  {
    hide Pairing;
    assert Alike(o, n, (x, y').0, (x', y).1);
    if !Alike(o, n, x, y') {
      if x' < x {
        assert SameTwins(o, n, p, q, x');
        OnePartner(p, k, (x', y), (x, y));
      } else if x < x' {
        assert InTurn(o, n, q, (x', y));
        var e :| e in q && e.0 == x && Alike(o, n, e.0, e.1) && e.1 < y;
        OnePartner(q, k, e, (x, y'));
      } else {
        OnePartner(q, k, (x', y), (x, y'));
      }
    }
  }

  lemma {:induction false} TwinKept(o: seq<Proto>, n: seq<Proto>, score: Score, p: KidPairs, q: KidPairs, x: nat,
      y: nat)
    requires WellPaired(o, n, score, p) && WellPaired(o, n, score, q)
    requires forall x0: nat :: x0 < x ==> SameTwins(o, n, p, q, x0) && SameTwins(o, n, q, p, x0)
    requires (x, y) in p && Alike(o, n, x, y)
    ensures (x, y) in q
  {
    hide Alike, Pairing, AlikeInTurn, ShapesMeet, BestFirst, RestInOrder, SameTwins;
    var k := |o|;
    InFrame(p, k, (x, y));
    var y' := PartnerIn(q, k, x);
    var x' := MakerIn(q, k, y);
    TwinStays(o, n, p, q, k, x, y, x', y');
    TwinNotLater(o, n, p, q, k, x, y, y');
    TwinNotLater(o, n, q, p, k, x, y', y);
  }

  lemma {:induction false} TwinsAgree(o: seq<Proto>, n: seq<Proto>, score: Score, p: KidPairs, q: KidPairs, x: nat)
    requires WellPaired(o, n, score, p) && WellPaired(o, n, score, q)
    ensures SameTwins(o, n, p, q, x)
  {
    hide WellPaired;
    forall x0: nat | x0 < x ensures SameTwins(o, n, p, q, x0) && SameTwins(o, n, q, p, x0) {
      TwinsAgree(o, n, score, p, q, x0);
    }
    forall y: nat | Alike(o, n, x, y) ensures (x, y) in p <==> (x, y) in q {
      if (x, y) in p { TwinKept(o, n, score, p, q, x, y); }
      if (x, y) in q { TwinKept(o, n, score, q, p, x, y); }
    }
  }

  ghost function BetterOnes(score: Score, k: nat, c: (nat, nat)): set<(nat, nat)> {
    set x: nat, y: nat | 0 <= x < k && 0 <= y < k && Better(score, (x, y), c) :: (x, y)
  }

  lemma {:induction false} FewerBetter(score: Score, k: nat, c: (nat, nat), d: (nat, nat))
    requires Better(score, d, c) && d.0 < k && d.1 < k
    ensures BetterOnes(score, k, d) < BetterOnes(score, k, c)
  {
    forall e | e in BetterOnes(score, k, d) ensures e in BetterOnes(score, k, c) { }
    assert d in BetterOnes(score, k, c) && d !in BetterOnes(score, k, d);
  }

  lemma {:induction false} SuitedKept(o: seq<Proto>, n: seq<Proto>, score: Score, p: KidPairs, q: KidPairs,
      c: (nat, nat))
    requires WellPaired(o, n, score, p) && WellPaired(o, n, score, q)
    requires c in p && !Alike(o, n, c.0, c.1) && Suits(score, c)
    ensures c in q
    decreases BetterOnes(score, |o|, c)
  {
    var k := |o|;
    InFrame(p, k, c);
    if c !in q {
      forall d | d in q && (d.0 == c.0 || d.1 == c.1) ensures !Alike(o, n, d.0, d.1) {
        TwinsAgree(o, n, score, p, q, d.0);
        if (d.0, d.1) in p { OnePartner(p, k, d, c); }
      }
      assert NoTwin(o, n, q, c.0, c.1);
      assert Settles(score, q, (c.0, c.1));
      var d :| d in q && (d.0 == c.0 || d.1 == c.1) && Suits(score, d) && (d == c || Better(score, d, c));
      InFrame(q, k, d);
      FewerBetter(score, k, c, d);
      SuitedKept(o, n, score, q, p, d);
      OnePartner(p, k, d, c);
    }
  }

  ghost predicate SameRest(o: seq<Proto>, n: seq<Proto>, score: Score, p: KidPairs, q: KidPairs, x: nat) {
    forall y: nat :: LastResort(o, n, score, (x, y)) ==> ((x, y) in p <==> (x, y) in q)
  }

  /** A pair that takes one from a pair of the last resort on the other side is of the last resort. */
  lemma {:induction false} TakesRest(o: seq<Proto>, n: seq<Proto>, score: Score, p: KidPairs, q: KidPairs,
      c: (nat, nat), d: (nat, nat))
    requires WellPaired(o, n, score, p) && WellPaired(o, n, score, q)
    requires c in p && LastResort(o, n, score, c) && d in q && (d.0 == c.0 || d.1 == c.1)
    ensures LastResort(o, n, score, d)
  {
    if Alike(o, n, d.0, d.1) {
      TwinsAgree(o, n, score, p, q, d.0);
      OnePartner(p, |o|, (d.0, d.1), c);
    } else if Suits(score, d) {
      SuitedKept(o, n, score, q, p, d);
      OnePartner(p, |o|, d, c);
    }
  }

  lemma {:induction false} RestTaken(o: seq<Proto>, n: seq<Proto>, score: Score, p: KidPairs, q: KidPairs, x: nat,
      x1: nat, y: nat)
    requires Pairing(q, [], [], |o|) && x1 < x && SameRest(o, n, score, p, q, x1)
    requires (x1, y) in p && LastResort(o, n, score, (x1, y))
    ensures (x, y) !in q
  {
    if (x, y) in q { OnePartner(q, |o|, (x1, y), (x, y)); }
  }

  lemma {:induction false} RestNotEarlier(o: seq<Proto>, n: seq<Proto>, score: Score, p: KidPairs, q: KidPairs, x: nat,
      y: nat, y': nat)
    requires WellPaired(o, n, score, p) && WellPaired(o, n, score, q)
    requires forall x0: nat :: x0 < x ==> SameRest(o, n, score, p, q, x0)
    requires (x, y) in p && LastResort(o, n, score, (x, y)) && (x, y') in q && LastResort(o, n, score, (x, y'))
    ensures y <= y'
  {
    if y' < y {
      InFrame(q, |o|, (x, y'));
      var x1 := MakerIn(p, |o|, y');
      TakesRest(o, n, score, q, p, (x, y'), (x1, y'));
      assert x < x1 ==> (x, y).0 < (x1, y').0;
      if x1 < x { RestTaken(o, n, score, p, q, x, x1, y'); }
      if x1 == x { OnePartner(p, |o|, (x1, y'), (x, y)); }
    }
  }

  lemma {:induction false} RestAgrees(o: seq<Proto>, n: seq<Proto>, score: Score, p: KidPairs, q: KidPairs, x: nat)
    requires WellPaired(o, n, score, p) && WellPaired(o, n, score, q)
    ensures SameRest(o, n, score, p, q, x)
  {
    forall x0: nat | x0 < x ensures SameRest(o, n, score, p, q, x0) && SameRest(o, n, score, q, p, x0) {
      RestAgrees(o, n, score, p, q, x0);
    }
    forall y: nat | LastResort(o, n, score, (x, y)) ensures (x, y) in p <==> (x, y) in q {
      if (x, y) in p { RestKept(o, n, score, p, q, x, y); }
      if (x, y) in q { RestKept(o, n, score, q, p, x, y); }
    }
  }

  lemma {:induction false} RestKept(o: seq<Proto>, n: seq<Proto>, score: Score, p: KidPairs, q: KidPairs, x: nat,
      y: nat)
    requires WellPaired(o, n, score, p) && WellPaired(o, n, score, q)
    requires forall x0: nat :: x0 < x ==> SameRest(o, n, score, p, q, x0) && SameRest(o, n, score, q, p, x0)
    requires (x, y) in p && LastResort(o, n, score, (x, y))
    ensures (x, y) in q
  {
    InFrame(p, |o|, (x, y));
    var y' := PartnerIn(q, |o|, x);
    TakesRest(o, n, score, p, q, (x, y), (x, y'));
    RestNotEarlier(o, n, score, p, q, x, y, y');
    RestNotEarlier(o, n, score, q, p, x, y', y);
  }

  /** Twins, then the best that suit, then the rest in order: there is one such pairing. */
  lemma {:induction false} WellPairedOnce(o: seq<Proto>, n: seq<Proto>, score: Score, p: KidPairs, q: KidPairs,
      c: (nat, nat))
    requires WellPaired(o, n, score, p) && WellPaired(o, n, score, q) && c in p
    ensures c in q
  {
    hide WellPaired;
    if Alike(o, n, c.0, c.1) {
      TwinsAgree(o, n, score, p, q, c.0);
      assert (c.0, c.1) in p;
    } else if Suits(score, c) {
      SuitedKept(o, n, score, p, q, c);
    } else {
      RestAgrees(o, n, score, p, q, c.0);
      assert (c.0, c.1) in p && LastResort(o, n, score, (c.0, c.1));
    }
  }

  ghost predicate SameScores(k: nat, score: Score, score': Score) {
    forall x: nat, y: nat :: x < k && y < k ==> score(x, y) == score'(x, y)
  }

  /** Only the scores of the children matter. */
  lemma {:induction false} SwitchScore(o: seq<Proto>, n: seq<Proto>, score: Score, score': Score, p: KidPairs)
    requires WellPaired(o, n, score, p) && SameScores(|o|, score, score')
    ensures WellPaired(o, n, score', p)
  {
    hide AlikeInTurn, ShapesMeet, Alike;
    forall c | c in p ensures c.0 < |o| && c.1 < |o| { InFrame(p, |o|, c); }
    hide Pairing;
    forall x: nat, y: nat | x < |o| && y < |n| && NoTwin(o, n, p, x, y) && Suits(score', (x, y))
      ensures Settles(score', p, (x, y))
    {
      assert Suits(score, (x, y)) && Settles(score, p, (x, y));
      var c :| c in p && (c.0 == x || c.1 == y) && Suits(score, c) && (c == (x, y) || Better(score, c, (x, y)));
      assert Suits(score', c) && (c == (x, y) || Better(score', c, (x, y)));
    }
    forall c, d | c in p && d in p && LastResort(o, n, score', c) && LastResort(o, n, score', d) && c.0 < d.0
      ensures c.1 < d.1
    {
      assert LastResort(o, n, score, c) && LastResort(o, n, score, d);
    }
  }

  lemma {:induction false} PairedWellOnce(o: seq<Proto>, n: seq<Proto>, similarity: (Proto, Proto) -> real,
      p: KidPairs, q: KidPairs, c: (nat, nat))
    requires PairedWell(o, n, similarity, p) && PairedWell(o, n, similarity, q) && c in p
    ensures c in q
  {
    var score :| Scores(o, n, similarity, score) && WellPaired(o, n, score, p);
    var score' :| Scores(o, n, similarity, score') && WellPaired(o, n, score', q);
    assert |o| == |n| && SameScores(|o|, score', score);
    hide WellPaired;
    SwitchScore(o, n, score', score, q);
    WellPairedOnce(o, n, score, p, q, c);
  }

  // ----- the whole comparison -----

  ghost predicate AgreeAt(partners: Partners, partners': Partners, q: Path) {
    (q in partners <==> q in partners') && (q in partners ==> partners[q] == partners'[q])
  }

  lemma {:induction false} KidOf(o: seq<Proto>, n: seq<Proto>, similarity: (Proto, Proto) -> real, kids: KidPairs,
      x: nat) returns (y: nat)
    requires PairedWell(o, n, similarity, kids) && x < |o|
    ensures (x, y) in kids
  {
    var score :| Scores(o, n, similarity, score) && WellPaired(o, n, score, kids);
    y := PartnerIn(kids, |o|, x);
  }

  lemma {:induction false} KidAgrees(orig: Proto, new': Proto, similarity: (Proto, Proto) -> real, partners: Partners,
      partners': Partners, r: Path, x: nat)
    requires r in partners && r in partners' && partners[r] == partners'[r] && SameCount(orig, new', partners, r)
    requires KidsMeet(orig, new', partners, similarity, r) && KidsMeet(orig, new', partners', similarity, r)
    requires x < |At(orig, r).value.kids|
    ensures r + [x] in partners && AgreeAt(partners, partners', r + [x])
  {
    hide PairedWell, At;
    var o, n := At(orig, r).value.kids, At(new', partners[r]).value.kids;
    var kids: KidPairs :| KidsFollow(partners, r, kids) && PairedWell(o, n, similarity, kids);
    var kids': KidPairs :| KidsFollow(partners', r, kids') && PairedWell(o, n, similarity, kids');
    var y := KidOf(o, n, similarity, kids, x);
    PairedWellOnce(o, n, similarity, kids, kids', (x, y));
  }

  lemma {:induction false} RootAgrees(orig: Proto, new': Proto, similarity: (Proto, Proto) -> real, pairs: Pairs,
      partners: Partners, first: set<Path>)
    requires Compared(orig, new', similarity, pairs, partners, first) && IsTree(new')
    ensures [] in partners && partners[[]] == [] && [] in first
  {
    hide KidsMeet, BestAtTurn;
    assert PairFits(orig, new', partners, pairs[0]);
    assert At(new', []) == Some(new');
  }

  /** What is found from the roots down is the same, with the same partners. */
  lemma {:induction false} FirstAgrees(orig: Proto, new': Proto, similarity: (Proto, Proto) -> real, pairs: Pairs,
      partners: Partners, first: set<Path>, pairs': Pairs, partners': Partners, first': set<Path>, q: Path)
    requires Compared(orig, new', similarity, pairs, partners, first) && IsTree(new')
    requires Compared(orig, new', similarity, pairs', partners', first') && q in first
    ensures q in first' && q in partners && AgreeAt(partners, partners', q)
    decreases |q|
  {
    hide KidsMeet, BestAtTurn;
    RootAgrees(orig, new', similarity, pairs, partners, first);
    RootAgrees(orig, new', similarity, pairs', partners', first');
    if q != [] {
      var r, x := q[..|q| - 1], q[|q| - 1];
      assert r in first && q == r + [x];
      FirstAgrees(orig, new', similarity, pairs, partners, first, pairs', partners', first', r);
      HasKid(orig, partners, pairs, new', r, x);
      KidAgrees(orig, new', similarity, partners, partners', r, x);
    }
  }

  lemma {:induction false} HasKid(orig: Proto, partners: Partners, pairs: Pairs, new': Proto, r: Path, x: nat)
    requires r + [x] in partners && HasPair(pairs, r + [x]) && At(orig, r).Some?
    requires forall i :: 0 <= i < |pairs| ==> PairFits(orig, new', partners, pairs[i])
    ensures x < |At(orig, r).value.kids|
  {
    var i :| 0 <= i < |pairs| && pairs[i].0 == r + [x];
    assert PairFits(orig, new', partners, pairs[i]);
    AtKid(orig, r, x);
  }

  lemma {:induction false} BeforeOrAfter(p: Path, q: Path)
    ensures p == q || PathBefore(p, q) || PathBefore(q, p)
    ensures !PathBefore(p, p)
    decreases |p|
  {
    if p != [] && q != [] {
      BeforeOrAfter(p[1..], q[1..]);
      assert p[0] == q[0] && p[1..] == q[1..] ==> p == [p[0]] + p[1..] == q;
    }
    if p != [] { BeforeOrAfter(p[1..], p[1..]); }
  }

  /** What is free at a turn does not depend on what is paired later. */
  lemma {:induction false} FreeAgrees(orig: Proto, partners: Partners, first: set<Path>, partners': Partners,
      first': set<Path>, q: Path, a: Path)
    requires forall p :: p in first ==> p in first' && AgreeAt(partners, partners', p)
    requires forall p :: p in first' ==> p in first && AgreeAt(partners, partners', p)
    requires forall p :: p in partners || p in partners' ==> PathBefore(p, q) ==> AgreeAt(partners, partners', p)
    ensures FreeAt(first, partners, q, a) ==> FreeAt(first', partners', q, a)
  {
    hide PathBefore;
  }

  /** A pair's rebuilt prototype was free at its turn. */
  lemma {:induction false} OwnIsFree(orig: Proto, new': Proto, similarity: (Proto, Proto) -> real, pairs: Pairs,
      partners: Partners, first: set<Path>, q: Path)
    requires Compared(orig, new', similarity, pairs, partners, first) && PairedOnce(pairs)
    requires q in partners && q !in first
    ensures At(new', partners[q]).Some? && FreeAt(first, partners, q, partners[q])
  {
    hide KidsMeet, BestAtTurn, TopDown;
    BeforeOrAfter(q, q);
    assert HasPair(pairs, q);
    var i :| 0 <= i < |pairs| && pairs[i].0 == q;
    assert PairFits(orig, new', partners, pairs[i]);
    forall p | p in partners && partners[p] == partners[q] ensures p == q {
      assert HasPair(pairs, p);
      var j :| 0 <= j < |pairs| && pairs[j].0 == p;
      assert PairFits(orig, new', partners, pairs[j]);
    }
  }

  ghost predicate FirstsAgree(partners: Partners, first: set<Path>, partners': Partners, first': set<Path>) {
    forall p :: (p in first <==> p in first') && (p in first ==> AgreeAt(partners, partners', p))
  }

  ghost predicate AgreeUpTo(partners: Partners, partners': Partners, q: Path) {
    forall p :: (p in partners || p in partners') && PathBefore(p, q) ==> AgreeAt(partners, partners', p)
  }

  /** The best free partner at a turn is one and the same. */
  lemma {:induction false} TurnAgrees(orig: Proto, new': Proto, similarity: (Proto, Proto) -> real, pairs: Pairs,
      partners: Partners, first: set<Path>, pairs': Pairs, partners': Partners, first': set<Path>, q: Path)
    requires Compared(orig, new', similarity, pairs, partners, first) && PairedOnce(pairs)
    requires Compared(orig, new', similarity, pairs', partners', first') && PairedOnce(pairs')
    requires FirstsAgree(partners, first, partners', first') && AgreeUpTo(partners, partners', q)
    requires At(orig, q).Some? && q !in first && q in partners
    ensures AgreeAt(partners, partners', q)
  {
    assert BestAtTurn(orig, new', first, partners, similarity, q);
    assert BestAtTurn(orig, new', first', partners', similarity, q);
    hide Compared, PathBefore, FreeAt;
    OwnIsFree(orig, new', similarity, pairs, partners, first, q);
    FreeAgrees(orig, partners, first, partners', first', q, partners[q]);
    var b := partners[q];
    assert NotBetter(orig, new', partners, similarity, q, b) && NotBetter(orig, new', partners', similarity, q, b);
    if q in partners' {
      OwnIsFree(orig, new', similarity, pairs', partners', first', q);
      FreeAgrees(orig, partners', first', partners, first, q, partners'[q]);
      assert NotBetter(orig, new', partners, similarity, q, partners'[q]);
      BeforeOrAfter(b, partners'[q]);
    }
  }

  lemma {:induction false} EarlierAgree(orig: Proto, new': Proto, similarity: (Proto, Proto) -> real, pairs: Pairs,
      partners: Partners, first: set<Path>, pairs': Pairs, partners': Partners, first': set<Path>, list: Entries,
      i: nat)
    requires Compared(orig, new', similarity, pairs, partners, first) && PairedOnce(pairs)
    requires Compared(orig, new', similarity, pairs', partners', first') && PairedOnce(pairs')
    requires FirstsAgree(partners, first, partners', first') && InTreeOrder(list) && i <= |list|
    requires forall e :: e in list ==> At(orig, e.0) == Some(e.1)
    requires forall q :: q in partners || q in partners' ==> exists j :: 0 <= j < |list| && list[j].0 == q
    ensures forall j :: 0 <= j < i ==> AgreeAt(partners, partners', list[j].0)
  {
    hide Compared, PathBefore;
    if i > 0 {
      EarlierAgree(orig, new', similarity, pairs, partners, first, pairs', partners', first', list, i - 1);
      var q := list[i - 1].0;
      assert list[i - 1] in list;
      forall p | (p in partners || p in partners') && PathBefore(p, q) ensures AgreeAt(partners, partners', p) {
        var j :| 0 <= j < |list| && list[j].0 == p;
        if j >= i - 1 { NotBeforeItself(p, q, list, i - 1, j); }
      }
      if q !in first {
        if q in partners {
          TurnAgrees(orig, new', similarity, pairs, partners, first, pairs', partners', first', q);
        } else if q in partners' {
          assert FirstsAgree(partners', first', partners, first) && AgreeUpTo(partners', partners, q);
          TurnAgrees(orig, new', similarity, pairs', partners', first', pairs, partners, first, q);
        }
      }
    }
  }

  lemma {:induction false} FirstsAlwaysAgree(orig: Proto, new': Proto, similarity: (Proto, Proto) -> real,
      pairs: Pairs, partners: Partners, first: set<Path>, pairs': Pairs, partners': Partners, first': set<Path>)
    requires IsTree(new')
    requires Compared(orig, new', similarity, pairs, partners, first)
    requires Compared(orig, new', similarity, pairs', partners', first')
    ensures FirstsAgree(partners, first, partners', first')
  {
    hide Compared, IsTree;
    forall q | q in first ensures q in first' && AgreeAt(partners, partners', q) {
      FirstAgrees(orig, new', similarity, pairs, partners, first, pairs', partners', first', q);
    }
    forall q | q in first' ensures q in first {
      FirstAgrees(orig, new', similarity, pairs', partners', first', pairs, partners, first, q);
    }
  }

  ghost predicate AllListed(partners: Partners, list: Entries) {
    forall q :: q in partners ==> exists j :: 0 <= j < |list| && list[j].0 == q
  }

  lemma {:induction false} PartnersListed(orig: Proto, new': Proto, similarity: (Proto, Proto) -> real, pairs: Pairs,
      partners: Partners, first: set<Path>, list: Entries)
    requires Compared(orig, new', similarity, pairs, partners, first)
    requires forall e: (Path, Proto) :: e in list <==> At(orig, e.0) == Some(e.1)
    ensures AllListed(partners, list)
  {
    hide KidsMeet, BestAtTurn, TopDown, HasPair;
    forall q | q in partners ensures exists j :: 0 <= j < |list| && list[j].0 == q {
      IsListed(orig, new', pairs, partners, list, q);
    }
  }

  /** Two comparisons of the same trees by the same similarity pair the same prototypes. */
  lemma {:induction false} ComparedOnce(orig: Proto, new': Proto, similarity: (Proto, Proto) -> real, pairs: Pairs,
      partners: Partners, first: set<Path>, pairs': Pairs, partners': Partners, first': set<Path>)
    requires IsTree(new') && PairedOnce(pairs) && PairedOnce(pairs')
    requires Compared(orig, new', similarity, pairs, partners, first)
    requires Compared(orig, new', similarity, pairs', partners', first')
    ensures partners == partners' && first == first'
  {
    hide Compared, Listing, IsTree, InTreeOrder, PairedOnce, AgreeAt, At;
    FirstsAlwaysAgree(orig, new', similarity, pairs, partners, first, pairs', partners', first');
    var list := Listing(orig, []);
    ListedInOrder(orig, []);
    forall e: (Path, Proto) ensures e in list <==> At(orig, e.0) == Some(e.1) {
      ListingIs(orig, [], e);
      assert e.0[0..] == e.0;
    }
    PartnersListed(orig, new', similarity, pairs, partners, first, list);
    PartnersListed(orig, new', similarity, pairs', partners', first', list);
    EarlierAgree(orig, new', similarity, pairs, partners, first, pairs', partners', first', list, |list|);
    SamePartners(partners, partners', list);
    assert first == first';
  }

  lemma {:induction false} SamePartners(partners: Partners, partners': Partners, list: Entries)
    requires AllListed(partners, list) && AllListed(partners', list)
    requires forall j :: 0 <= j < |list| ==> AgreeAt(partners, partners', list[j].0)
    ensures partners == partners'
  {
    forall q ensures AgreeAt(partners, partners', q) {
      if q in partners || q in partners' { var j :| 0 <= j < |list| && list[j].0 == q; }
    }
  }

  lemma {:induction false} IsListed(orig: Proto, new': Proto, pairs: Pairs, partners: Partners, list: Entries, q: Path)
    requires HasPair(pairs, q) && forall i :: 0 <= i < |pairs| ==> PairFits(orig, new', partners, pairs[i])
    requires forall e: (Path, Proto) :: e in list <==> At(orig, e.0) == Some(e.1)
    ensures At(orig, q).Some? && exists j :: 0 <= j < |list| && list[j].0 == q
  {
    var i :| 0 <= i < |pairs| && pairs[i].0 == q;
    assert PairFits(orig, new', partners, pairs[i]);
    var j :| 0 <= j < |list| && list[j] == (q, pairs[i].1);
  }
}
