/** Replacing recorded comments in emitted source, last edit first, and translating offsets of
    the full text into offsets of the compact one. */
module CommentEdits {
  import opened Options

  type Bytes = seq<bv8>

  /** Replace the bytes from `start` up to `end`. */
  datatype Edit = Edit(start: nat, end: nat, text: Bytes)

  /** Within the text, in order, disjoint, and each leaves something behind. */
  ghost predicate InOrder(edits: seq<Edit>, low: nat, high: nat) {
    && (forall i :: 0 <= i < |edits| ==> low <= edits[i].start <= edits[i].end <= high && edits[i].text != [])
    && forall i, j :: 0 <= i < j < |edits| ==> edits[i].end <= edits[j].start
  }

  // ----- the rewrite, read from left to right -----

  /** The text from `pos` on, with the edits made. */
  function RewriteFrom(original: Bytes, edits: seq<Edit>, pos: nat): Bytes
    requires InOrder(edits, pos, |original|) && pos <= |original|
  {
    if edits == [] then original[pos..]
    else
      Later(edits, pos, |original|);
      original[pos..edits[0].start] + edits[0].text + RewriteFrom(original, edits[1..], edits[0].end)
  }

  lemma {:induction false} Later(edits: seq<Edit>, low: nat, high: nat)
    requires InOrder(edits, low, high) && edits != []
    ensures InOrder(edits[1..], edits[0].end, high)
  {
    forall i | 0 <= i < |edits[1..]| ensures edits[1..][i] == edits[i + 1] { }
  }

  lemma {:induction false} From(edits: seq<Edit>, low: nat, high: nat, i: nat)
    requires InOrder(edits, low, high) && i <= |edits|
    ensures InOrder(edits[i..], low, high) && (0 < i < |edits| ==> edits[i - 1].end <= edits[i].start)
  {
    forall j | 0 <= j < |edits[i..]| ensures edits[i..][j] == edits[i + j] { }
  }

  /** An edit that starts later may be made on a text that starts earlier. */
  lemma {:induction false} EarlierStart(original: Bytes, edits: seq<Edit>, pos: nat, earlier: nat)
    requires InOrder(edits, pos, |original|) && earlier <= pos <= |original|
    ensures InOrder(edits, earlier, |original|)
    ensures RewriteFrom(original, edits, earlier) == original[earlier..pos] + RewriteFrom(original, edits, pos)
  {
    if edits == [] {
      assert original[earlier..] == original[earlier..pos] + original[pos..];
    } else {
      Later(edits, pos, |original|);
      var rest := edits[0].text + RewriteFrom(original, edits[1..], edits[0].end);
      var front, middle := original[earlier..pos], original[pos..edits[0].start];
      assert original[earlier..edits[0].start] == front + middle;
      assert RewriteFrom(original, edits, pos) == middle + rest;
      assert RewriteFrom(original, edits, earlier) == front + middle + rest;
    }
  }

  /** Splicing from last to first is the left-to-right rewrite. */
  method SpliceBackwards(original: Bytes, edits: seq<Edit>) returns (predicted: Bytes)
    requires InOrder(edits, 0, |original|)
    ensures predicted == RewriteFrom(original, edits, 0)
  {
    predicted := original;
    var i := |edits|;
    From(edits, 0, |original|, i);
    while i > 0
      invariant 0 <= i <= |edits| && InOrder(edits[i..], 0, |original|)
      invariant predicted == RewriteFrom(original, edits[i..], 0)
    {
      i := i - 1;
      var e := edits[i];
      From(edits, 0, |original|, i);
      assert edits[i..][0] == e && edits[i..][1..] == edits[i + 1..];
      Later(edits[i..], 0, |original|);
      EarlierStart(original, edits[i + 1..], e.end, 0);
      ghost var rest := RewriteFrom(original, edits[i + 1..], e.end);
      assert predicted == original[..e.end] + rest;
      assert predicted[..e.start] == original[..e.start] && predicted[e.end..] == rest;
      predicted := predicted[..e.start] + e.text + predicted[e.end..];
    }
    assert edits[0..] == edits;
  }

  // ----- translating offsets -----

  predicate Inside(edits: seq<Edit>, at: nat) { exists i :: 0 <= i < |edits| && edits[i].start < at < edits[i].end }

  /** How far the edits that end by `at` have moved it. */
  function Shift(edits: seq<Edit>, at: nat): int {
    if edits == [] then 0
    else (if edits[0].end <= at then |edits[0].text| - (edits[0].end - edits[0].start) else 0) + Shift(edits[1..], at)
  }

  lemma {:induction false} ShiftNext(edits: seq<Edit>, e: Edit, at: nat)
    ensures Shift(edits + [e], at) == Shift(edits, at) + Shift([e], at)
  {
    if edits != [] {
      ShiftNext(edits[1..], e, at);
      assert (edits + [e])[1..] == edits[1..] + [e];
    }
  }

  /** Nothing inside a replaced comment has a translation. */
  method TranslateOffset(edits: seq<Edit>, at: nat) returns (translated: Option<int>)
    ensures translated == if Inside(edits, at) then None else Some(at + Shift(edits, at))
  {
    var shift: int := 0;
    for i := 0 to |edits|
      invariant shift == Shift(edits[..i], at) && !Inside(edits[..i], at)
    {
      var e := edits[i];
      assert edits[..i + 1] == edits[..i] + [e];
      if e.start < at < e.end { assert Inside(edits, at); return None; }
      ShiftNext(edits[..i], e, at);
      if e.end <= at { shift := shift + |e.text| - (e.end - e.start); }
    }
    assert edits[..|edits|] == edits;
    translated := Some(at + shift);
  }

  // ----- translation is faithful -----

  lemma {:induction false} NoShiftBefore(edits: seq<Edit>, low: nat, high: nat, at: nat)
    requires InOrder(edits, low, high) && at < low
    ensures Shift(edits, at) == 0
  {
    if edits != [] {
      Later(edits, low, high);
      NoShiftBefore(edits[1..], edits[0].end, high, at);
    }
  }

  /** Edits that have not ended by `at`. */
  function After(edits: seq<Edit>, at: nat): seq<Edit> {
    if edits == [] then [] else if edits[0].end <= at then After(edits[1..], at) else edits
  }

  lemma {:induction false} AfterInOrder(edits: seq<Edit>, low: nat, high: nat, at: nat)
    requires InOrder(edits, low, high) && low <= at && !Inside(edits, at)
    ensures InOrder(After(edits, at), at, high)
  {
    if edits != [] && edits[0].end <= at {
      Later(edits, low, high);
      InsideRest(edits, at);
      AfterInOrder(edits[1..], edits[0].end, high, at);
    }
  }

  lemma {:induction false} DropFront(front: Bytes, rest: Bytes, k: nat)
    requires k <= |rest|
    ensures (front + rest)[|front| + k..] == rest[k..]
  {
  }

  lemma {:induction false} InsideRest(edits: seq<Edit>, at: nat)
    requires edits != []
    ensures Inside(edits[1..], at) ==> Inside(edits, at)
  {
    forall i | 0 <= i < |edits[1..]| ensures edits[1..][i] == edits[i + 1] { }
  }

  /** The rewrite splits at every translated offset: what follows it is the rewrite of what
      followed the original offset. */
  lemma {:induction false} SplitsAt(original: Bytes, edits: seq<Edit>, pos: nat, at: nat)
    requires InOrder(edits, pos, |original|) && pos <= at <= |original| && !Inside(edits, at)
    ensures InOrder(After(edits, at), at, |original|)
    ensures var k := at - pos + Shift(edits, at); var whole := RewriteFrom(original, edits, pos);
            0 <= k <= |whole| && whole[k..] == RewriteFrom(original, After(edits, at), at)
  {
    AfterInOrder(edits, pos, |original|, at);
    if edits != [] {
      var e := edits[0];
      Later(edits, pos, |original|);
      if e.end <= at {
        InsideRest(edits, at);
        SplitsAt(original, edits[1..], e.end, at);
        DropFront(original[pos..e.start] + e.text, RewriteFrom(original, edits[1..], e.end),
          at - e.end + Shift(edits[1..], at));
      } else {
        NoShiftBefore(edits[1..], e.end, |original|, at);
        EarlierStart(original, edits, at, pos);
        DropFront(original[pos..at], RewriteFrom(original, edits, at), 0);
      }
    }
  }

  /** Every byte outside the edits appears unchanged at its translated offset. */
  lemma {:induction false} ByteAtTranslation(original: Bytes, edits: seq<Edit>, at: nat)
    requires InOrder(edits, 0, |original|) && at < |original|
    requires forall i :: 0 <= i < |edits| ==> !(edits[i].start <= at < edits[i].end)
    ensures var k, output := at + Shift(edits, at), RewriteFrom(original, edits, 0);
            0 <= k < |output| && output[k] == original[at]
  {
    SplitsAt(original, edits, 0, at);
    FirstAfter(edits, at);
    var rest := RewriteFrom(original, After(edits, at), at);
    assert rest != [] && rest[0] == original[at];
    var k, output := at + Shift(edits, at), RewriteFrom(original, edits, 0);
    assert output[k] == output[k..][0];
  }

  lemma {:induction false} FirstAfter(edits: seq<Edit>, at: nat)
    ensures After(edits, at) != [] ==> After(edits, at)[0].end > at && After(edits, at)[0] in edits
  {
    if edits != [] { FirstAfter(edits[1..], at); }
  }

  /** The end of the text goes to the end of the text. */
  lemma {:induction false} EndAtTranslation(original: Bytes, edits: seq<Edit>)
    requires InOrder(edits, 0, |original|)
    ensures |original| + Shift(edits, |original|) == |RewriteFrom(original, edits, 0)|
  {
    SplitsAt(original, edits, 0, |original|);
    FirstAfter(edits, |original|);
  }

  lemma {:induction false} ShiftBetween(edits: seq<Edit>, low: nat, high: nat, a: nat, b: nat)
    requires InOrder(edits, low, high) && low <= a < b && !Inside(edits, a) && !Inside(edits, b)
    ensures a + Shift(edits, a) < b + Shift(edits, b)
  {
    if edits != [] {
      var e := edits[0];
      Later(edits, low, high);
      forall at: nat ensures Inside(edits[1..], at) ==> Inside(edits, at) { InsideRest(edits, at); }
      if e.end <= a {
        ShiftBetween(edits[1..], e.end, high, a, b);
      } else {
        NoShiftBefore(edits[1..], e.end, high, a);
        if e.end == b {
          AtLeast(edits[1..], e.end, high, b);
        } else if e.end < b {
          EndNotInside(edits, low, high);
          ShiftBetween(edits[1..], e.end, high, e.end, b);
          AtLeast(edits[1..], e.end, high, e.end);
        } else {
          NoShiftBefore(edits[1..], e.end, high, b);
        }
      }
    }
  }

  lemma {:induction false} EndNotInside(edits: seq<Edit>, low: nat, high: nat)
    requires InOrder(edits, low, high) && edits != []
    ensures !Inside(edits, edits[0].end)
  {
  }

  /** At the start of the remaining edits the shift is not negative: only insertions end there. */
  lemma {:induction false} AtLeast(edits: seq<Edit>, low: nat, high: nat, at: nat)
    requires InOrder(edits, low, high) && at <= low
    ensures Shift(edits, at) >= 0
  {
    if edits != [] {
      Later(edits, low, high);
      AtLeast(edits[1..], edits[0].end, high, at);
    }
  }

  /** Translation keeps the order of any two offsets that have one. */
  lemma {:induction false} TranslationIncreases(original: Bytes, edits: seq<Edit>, a: nat, b: nat)
    requires InOrder(edits, 0, |original|) && a < b && !Inside(edits, a) && !Inside(edits, b)
    ensures a + Shift(edits, a) < b + Shift(edits, b)
  {
    ShiftBetween(edits, 0, |original|, a, b);
  }
}
