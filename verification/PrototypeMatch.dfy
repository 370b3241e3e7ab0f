/** Pairing the prototypes of two chunks: top down through matched parents, re-keying permuted
    subtrees, then by similarity for the rest.  Whatever the similarities say, no prototype is
    lost or used twice. */
module PrototypeMatch {
  import opened Options

  type Path = seq<nat>

  datatype Proto = Proto(id: int, sig: int, header: int, kids: seq<Proto>)

  /** The prototype at a path of child positions. */
  function At(p: Proto, path: Path): Option<Proto>
    decreases |path|
  {
    if path == [] then Some(p) else if path[0] < |p.kids| then At(p.kids[path[0]], path[1..]) else None
  }

  lemma {:induction false} AtThrough(p: Proto, path: Path, rest: Path)
    ensures At(p, path + rest) == if At(p, path).Some? then At(At(p, path).value, rest) else None
    decreases |path|
  {
    if path == [] {
      assert path + rest == rest;
    } else if path[0] < |p.kids| {
      assert (path + rest)[1..] == path[1..] + rest;
      AtThrough(p.kids[path[0]], path[1..], rest);
    }
  }

  lemma {:induction false} AtKid(p: Proto, path: Path, i: nat)
    requires At(p, path).Some?
    ensures At(p, path + [i]) == if i < |At(p, path).value.kids| then Some(At(p, path).value.kids[i]) else None
  {
    AtThrough(p, path, [i]);
    assert [i][1..] == [];
  }

  /** Distinct prototypes have distinct identities. */
  ghost predicate IsTree(root: Proto) {
    forall q: Path, r: Path ::
      At(root, q).Some? && At(root, r).Some? && At(root, q).value.id == At(root, r).value.id ==> q == r
  }

  // ----- re-keying permuted subtrees -----

  type Keyed = map<Path, Proto>

  type Moves = seq<(Path, Path)>

  predicate HasSource(moves: Moves, key: Path) {
    moves != [] && (moves[|moves| - 1].0 <= key || HasSource(moves[..|moves| - 1], key))
  }

  predicate HasTarget(moves: Moves, key: Path) {
    moves != [] && (moves[|moves| - 1].1 <= key || HasTarget(moves[..|moves| - 1], key))
  }

  /** Where a key's entry comes from. */
  function Origin(moves: Moves, key: Path): Path {
    if moves == [] then key
    else
      var (src, dst) := moves[|moves| - 1];
      if dst <= key then src + key[|dst|..] else Origin(moves[..|moves| - 1], key)
  }

  /** Sources, and targets, are distinct children of one parent. */
  ghost predicate Distinct(moves: Moves, parent: Path) {
    && (forall i ::
      0 <= i < |moves| ==> |moves[i].0| == |moves[i].1| == |parent| + 1 && parent <= moves[i].0 && parent <= moves[i].1)
    && (forall i, j :: 0 <= i < j < |moves| ==> moves[i].0 != moves[j].0 && moves[i].1 != moves[j].1)
  }

  /** The moves permute some of the children of one parent. */
  ghost predicate Siblings(moves: Moves, parent: Path) {
    Distinct(moves, parent) && forall p: Path :: IsSource(moves, p) <==> IsTarget(moves, p)
  }

  ghost predicate IsSource(moves: Moves, p: Path) { exists i :: 0 <= i < |moves| && moves[i].0 == p }

  ghost predicate IsTarget(moves: Moves, p: Path) { exists i :: 0 <= i < |moves| && moves[i].1 == p }

  lemma {:induction false} SourceIs(moves: Moves, key: Path)
    ensures HasSource(moves, key) <==> exists i :: 0 <= i < |moves| && moves[i].0 <= key
  {
    if moves != [] { SourceIs(moves[..|moves| - 1], key); }
  }

  lemma {:induction false} TargetIs(moves: Moves, key: Path)
    ensures HasTarget(moves, key) <==> exists i :: 0 <= i < |moves| && moves[i].1 <= key
  {
    if moves != [] { TargetIs(moves[..|moves| - 1], key); }
  }

  lemma {:induction false} OriginNone(moves: Moves, key: Path)
    requires !HasTarget(moves, key)
    ensures Origin(moves, key) == key
  {
    if moves != [] { OriginNone(moves[..|moves| - 1], key); }
  }

  lemma {:induction false} SamePrefix(a: Path, b: Path, key: Path)
    requires |a| == |b| && a <= key && b <= key
    ensures a == b
  {
    assert a == key[..|a|] && b == key[..|b|];
  }

  lemma {:induction false} OriginOf(moves: Moves, parent: Path, key: Path, i: nat, n: nat)
    requires Distinct(moves, parent) && i < n <= |moves| && moves[i].1 <= key
    ensures Origin(moves[..n], key) == moves[i].0 + key[|moves[i].1|..]
  {
    var last := moves[n - 1];
    assert moves[..n][..n - 1] == moves[..n - 1];
    if i < n - 1 {
      if last.1 <= key { SamePrefix(moves[i].1, last.1, key); }
      OriginOf(moves, parent, key, i, n - 1);
    }
  }

  // ----- moving one subtree after another -----

  /** An entry not under a source so far stays; one that belongs under a target has arrived. */
  ghost predicate MovedKey(moves: Moves, whole: Keyed, left: Keyed, moved: Keyed, key: Path) {
    && (key in left <==> key in whole && !HasSource(moves, key)) && (key in left ==> left[key] == whole[key])
    && (key in moved <==> HasTarget(moves, key) && Origin(moves, key) in whole) &&
      (key in moved ==> moved[key] == whole[Origin(moves, key)])
  }

  ghost predicate Moved(moves: Moves, whole: Keyed, left: Keyed, moved: Keyed) {
    forall key: Path :: MovedKey(moves, whole, left, moved, key)
  }

  function Subtree(n: Keyed, src: Path): set<Path> { set p | p in n && src <= p }

  /** One subtree under its new path. */
  function Rekeyed(n: Keyed, src: Path, dst: Path): Keyed
    requires |src| == |dst|
  {
    var targets := set p | p in Subtree(n, src) :: dst + p[|src|..];
    map q | q in targets && |q| >= |dst| && src + q[|dst|..] in n :: n[src + q[|dst|..]]
  }

  lemma {:induction false} RekeyedIs(n: Keyed, src: Path, dst: Path, q: Path)
    requires |src| == |dst|
    ensures q in Rekeyed(n, src, dst) <==> dst <= q && src + q[|dst|..] in n
    ensures q in Rekeyed(n, src, dst) ==> Rekeyed(n, src, dst)[q] == n[src + q[|dst|..]]
  {
    if dst <= q && src + q[|dst|..] in n {
      var p := src + q[|dst|..];
      assert p in Subtree(n, src) && dst + p[|src|..] == q;
    }
  }

  lemma {:induction false} MoveKey(moves: Moves, parent: Path, i: nat, whole: Keyed, left: Keyed, moved: Keyed,
      left': Keyed, moved': Keyed, key: Path)
    requires i < |moves| && Siblings(moves, parent) && Moved(moves[..i], whole, left, moved)
    requires |moves[i].0| == |moves[i].1|
    requires left' == left - Subtree(left, moves[i].0) && moved' == moved + Rekeyed(left, moves[i].0, moves[i].1)
    ensures MovedKey(moves[..i + 1], whole, left', moved', key)
  {
    hide Siblings, Rekeyed;
    var (src, dst) := moves[i];
    assert moves[..i + 1][..i] == moves[..i] && moves[..i + 1][i] == moves[i];
    RekeyedIs(left, src, dst, key);
    assert MovedKey(moves[..i], whole, left, moved, key);
    if dst <= key {
      NoTargetYet(moves, parent, i, key);
      NoSourceYet(moves, parent, i, src + key[|dst|..]);
      assert MovedKey(moves[..i], whole, left, moved, src + key[|dst|..]);
    }
  }

  lemma {:induction false} NoTargetYet(moves: Moves, parent: Path, i: nat, key: Path)
    requires i < |moves| && Siblings(moves, parent) && moves[i].1 <= key
    ensures !HasTarget(moves[..i], key)
  {
    TargetIs(moves[..i], key);
    forall j | 0 <= j < i
      ensures !(moves[j].1 <= key)
    {
      if moves[j].1 <= key { SamePrefix(moves[j].1, moves[i].1, key); }
    }
  }

  lemma {:induction false} NoSourceYet(moves: Moves, parent: Path, i: nat, key: Path)
    requires i < |moves| && Siblings(moves, parent) && moves[i].0 <= key
    ensures !HasSource(moves[..i], key)
  {
    SourceIs(moves[..i], key);
    forall j | 0 <= j < i
      ensures !(moves[j].0 <= key)
    {
      if moves[j].0 <= key { SamePrefix(moves[j].0, moves[i].0, key); }
    }
  }

  lemma {:induction false} TargetsAreSources(moves: Moves, parent: Path, key: Path)
    requires Siblings(moves, parent)
    ensures HasTarget(moves, key) <==> HasSource(moves, key)
  {
    TargetIs(moves, key);
    SourceIs(moves, key);
    if i :| 0 <= i < |moves| && moves[i].1 <= key {
      assert IsSource(moves, moves[i].1);
      var j :| 0 <= j < |moves| && moves[j].0 == moves[i].1;
    }
    if i :| 0 <= i < |moves| && moves[i].0 <= key {
      assert IsTarget(moves, moves[i].0);
      var j :| 0 <= j < |moves| && moves[j].1 == moves[i].0;
    }
  }

  /** Every entry of the map is found under its new key, and no other. */
  method RemapSubtrees(n: Keyed, moves: Moves, ghost parent: Path) returns (n': Keyed)
    requires Siblings(moves, parent)
    ensures forall key: Path :: key in n' <==> Origin(moves, key) in n
    ensures forall key: Path :: key in n' ==> n'[key] == n[Origin(moves, key)]
  {
    hide Moved, Siblings, Origin;
    var left, moved: Keyed := n, map[];
    NoneMoved(n);
    assert moves[..0] == [];
    for i := 0 to |moves|
      invariant Moved(moves[..i], n, left, moved)
    {
      SameLength(moves, parent, i);
      var left', moved' := left - Subtree(left, moves[i].0), moved + Rekeyed(left, moves[i].0, moves[i].1);
      MoveOne(moves, parent, i, n, left, moved, left', moved');
      left, moved := left', moved';
    }
    assert moves[..|moves|] == moves;
    n' := left + moved;
    forall key: Path
      ensures (key in n' <==> Origin(moves, key) in n) && (key in n' ==> n'[key] == n[Origin(moves, key)])
    {
      MovedAll(moves, parent, n, left, moved, key);
    }
  }

  lemma {:induction false} MoveOne(moves: Moves, parent: Path, i: nat, whole: Keyed, left: Keyed, moved: Keyed,
      left': Keyed, moved': Keyed)
    requires i < |moves| && Siblings(moves, parent) && Moved(moves[..i], whole, left, moved)
    requires |moves[i].0| == |moves[i].1|
    requires left' == left - Subtree(left, moves[i].0) && moved' == moved + Rekeyed(left, moves[i].0, moves[i].1)
    ensures Moved(moves[..i + 1], whole, left', moved')
  {
    hide MovedKey, Siblings, Subtree, Rekeyed;
    var done := moves[..i + 1];
    forall key: Path
      ensures MovedKey(done, whole, left', moved', key)
    {
      MoveKey(moves, parent, i, whole, left, moved, left', moved', key);
    }
  }

  lemma {:induction false} MovedAll(moves: Moves, parent: Path, whole: Keyed, left: Keyed, moved: Keyed, key: Path)
    requires Siblings(moves, parent) && Moved(moves, whole, left, moved)
    ensures key in left + moved <==> Origin(moves, key) in whole
    ensures key in left + moved ==> (left + moved)[key] == whole[Origin(moves, key)]
  {
    hide HasSource, HasTarget, Origin, Siblings;
    TargetsAreSources(moves, parent, key);
    assert MovedKey(moves, whole, left, moved, key);
    if !HasTarget(moves, key) { OriginNone(moves, key); }
  }

  lemma {:induction false} NoneMoved(n: Keyed)
    ensures Moved([], n, n, map[])
  {
  }

  lemma {:induction false} SameLength(moves: Moves, parent: Path, i: nat)
    requires Siblings(moves, parent) && i < |moves|
    ensures |moves[i].0| == |moves[i].1|
  {
  }

  // ----- nothing collides and nothing is lost -----

  function Back(moves: Moves): Moves { seq(|moves|, i requires 0 <= i < |moves| => (moves[i].1, moves[i].0)) }

  lemma {:induction false} BackSiblings(moves: Moves, parent: Path)
    requires Siblings(moves, parent)
    ensures Siblings(Back(moves), parent)
  {
    var back := Back(moves);
    assert forall i :: 0 <= i < |moves| ==> back[i] == (moves[i].1, moves[i].0);
    forall p: Path ensures IsSource(back, p) <==> IsTarget(moves, p) {
      if i :| 0 <= i < |moves| && moves[i].1 == p { assert back[i].0 == p; }
      if i :| 0 <= i < |back| && back[i].0 == p { assert moves[i].1 == p; }
    }
    forall p: Path ensures IsTarget(back, p) <==> IsSource(moves, p) {
      if i :| 0 <= i < |moves| && moves[i].0 == p { assert back[i].1 == p; }
      if i :| 0 <= i < |back| && back[i].1 == p { assert moves[i].0 == p; }
    }
    hide IsSource, IsTarget;
  }

  /** Moving the subtrees back finds every entry where it was: keys are permuted. */
  lemma {:induction false} OriginBack(moves: Moves, parent: Path, key: Path)
    requires Siblings(moves, parent)
    ensures Origin(Back(moves), Origin(moves, key)) == key
  {
    hide Origin, Siblings, HasTarget;
    var back := Back(moves);
    BackSiblings(moves, parent);
    TargetIs(moves, key);
    if HasTarget(moves, key) {
      var i: nat :| i < |moves| && moves[i].1 <= key;
      BackFrom(moves, parent, key, i);
    } else {
      OriginNone(moves, key);
      TargetsAreSources(moves, parent, key);
      SourceIs(moves, key);
      TargetIs(back, key);
      OriginNone(back, key);
    }
  }

  lemma {:induction false} BackFrom(moves: Moves, parent: Path, key: Path, i: nat)
    requires Siblings(moves, parent) && Siblings(Back(moves), parent) && i < |moves| && moves[i].1 <= key
    ensures Origin(Back(moves), Origin(moves, key)) == key
  {
    hide Origin, IsSource, IsTarget;
    var back := Back(moves);
    OriginOf(moves, parent, key, i, |moves|);
    assert moves[..|moves|] == moves && back[..|back|] == back;
    var there := moves[i].0 + key[|moves[i].1|..];
    assert back[i].1 <= there;
    OriginOf(back, parent, there, i, |back|);
    assert moves[i].1 + key[|moves[i].1|..] == key;
  }
}
