/** The order in which children left over are offered to each other: the most similar first, then
    those at the same place, then by place. */
module PrototypeRanking {
  import opened Sequences

  type KidPairs = seq<(nat, nat)>

  type Score = (nat, nat) -> real

  predicate Earlier(score: Score, a: (nat, nat), b: (nat, nat)) {
    score(a.0, a.1) > score(b.0, b.1) ||
    (score(a.0, a.1) == score(b.0, b.1) &&
     (if (a.0 == a.1) == (b.0 == b.1) then a.0 < b.0 || (a.0 == b.0 && a.1 < b.1) else a.0 == a.1))
  }

  ghost predicate Ranked(score: Score, s: KidPairs) {
    forall i, j :: 0 <= i < j < |s| ==> Earlier(score, s[i], s[j])
  }

  /** Of two different candidates one comes first, and coming first carries over. */
  lemma {:induction false} EarlierOrders(score: Score, a: (nat, nat), b: (nat, nat), c: (nat, nat))
    ensures a != b ==> (Earlier(score, a, b) <==> !Earlier(score, b, a))
    ensures Earlier(score, a, b) && Earlier(score, b, c) ==> Earlier(score, a, c)
  {
  }

  method Insert(score: Score, s: KidPairs, c: (nat, nat)) returns (longer: KidPairs)
    requires Ranked(score, s) && c !in s
    ensures Ranked(score, longer) && forall d :: d in longer <==> d in s || d == c
  {
    var i := 0;
    while i < |s| && Earlier(score, s[i], c)
      invariant 0 <= i <= |s| && forall j :: 0 <= j < i ==> Earlier(score, s[j], c)
    {
      i := i + 1;
    }
    longer := s[..i] + [c] + s[i..];
    forall j | i <= j < |s| ensures Earlier(score, c, s[j]) {
      assert s[j] in s && s[i] in s;
      EarlierOrders(score, s[i], c, c);
      EarlierOrders(score, c, s[i], s[j]);
    }
    assert s == s[..i] + s[i..];
  }

  /** All candidates in their order; the contract leaves no other list. */
  method RankCandidates(score: Score, oKids: seq<nat>, nKids: seq<nat>) returns (cands: KidPairs)
    requires Unrepeated(oKids) && Unrepeated(nKids)
    ensures Ranked(score, cands) && forall c :: c in cands <==> c.0 in oKids && c.1 in nKids
  {
    hide Ranked;
    cands := [];
    assert Ranked(score, []) by { NothingRanked(score); }
    for i := 0 to |oKids|
      invariant Ranked(score, cands) && forall c :: c in cands <==> c.0 in oKids[..i] && c.1 in nKids
    {
      assert oKids[..i + 1] == oKids[..i] + [oKids[i]];
      for j := 0 to |nKids|
        invariant Ranked(score, cands)
        invariant forall c ::
            c in cands <==> (c.0 in oKids[..i] && c.1 in nKids) || (c.0 == oKids[i] && c.1 in nKids[..j])
      {
        assert nKids[..j + 1] == nKids[..j] + [nKids[j]];
        cands := Insert(score, cands, (oKids[i], nKids[j]));
      }
      assert nKids[..|nKids|] == nKids;
    }
    assert oKids[..|oKids|] == oKids;
  }

  lemma {:induction false} NothingRanked(score: Score)
    ensures Ranked(score, [])
  {
  }
}
