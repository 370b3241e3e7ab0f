/** Splitting registers into live webs and giving each web one name: union-find over
    (node, register) cells, then renaming every operand by the name of its cell's class. */
module Webs {
  import opened RegisterGraph

  /** A register as one node sees it.  A lookup's result is a cell of its own, so a lookup
      that reads and writes one register can read one name and write another. */
  datatype Cell = At(node: nat, reg: Reg) | Result(node: nat, reg: Reg)

  type Pairs = set<(Cell, Cell)>

  // ----- the smallest equivalence containing a set of pairs -----

  predicate Adjacent(pairs: Pairs, c: Cell, d: Cell) { (c, d) in pairs || (d, c) in pairs }

  ghost predicate IsChain(pairs: Pairs, chain: seq<Cell>) {
    forall i: nat :: i + 1 < |chain| ==> Adjacent(pairs, chain[i], chain[i + 1])
  }

  ghost predicate ChainFrom(pairs: Pairs, chain: seq<Cell>, c: Cell, d: Cell) {
    |chain| > 0 && chain[0] == c && chain[|chain| - 1] == d && IsChain(pairs, chain)
  }

  ghost predicate Linked(pairs: Pairs, c: Cell, d: Cell) {
    exists chain :: ChainFrom(pairs, chain, c, d)
  }

  lemma {:induction false} LinkedReflexive(pairs: Pairs, c: Cell)
    ensures Linked(pairs, c, c)
  {
    assert ChainFrom(pairs, [c], c, c);
  }

  lemma {:induction false} LinkedSymmetric(pairs: Pairs, c: Cell, d: Cell)
    requires Linked(pairs, c, d)
    ensures Linked(pairs, d, c)
  {
    var chain :| ChainFrom(pairs, chain, c, d);
    var back := seq(|chain|, i requires 0 <= i < |chain| => chain[|chain| - 1 - i]);
    forall i: nat | i + 1 < |back| ensures Adjacent(pairs, back[i], back[i + 1]) {
      var k: nat := |chain| - 2 - i;
      assert Adjacent(pairs, chain[k], chain[k + 1]);
    }
    assert ChainFrom(pairs, back, d, c);
  }

  lemma {:induction false} LinkedTransitive(pairs: Pairs, c: Cell, d: Cell, e: Cell)
    requires Linked(pairs, c, d) && Linked(pairs, d, e)
    ensures Linked(pairs, c, e)
  {
    var one :| ChainFrom(pairs, one, c, d);
    var two :| ChainFrom(pairs, two, d, e);
    var both := one + two[1..];
    forall i: nat | i + 1 < |both| ensures Adjacent(pairs, both[i], both[i + 1]) {
      if i + 1 < |one| {
        assert Adjacent(pairs, one[i], one[i + 1]);
      } else {
        var k: nat := i + 1 - |one|;
        assert both[i] == two[k] && Adjacent(pairs, two[k], two[k + 1]);
      }
    }
    assert ChainFrom(pairs, both, c, e);
  }

  lemma {:induction false} LinkedGrows(pairs: Pairs, more: Pairs, c: Cell, d: Cell)
    requires Linked(pairs, c, d) && pairs <= more
    ensures Linked(more, c, d)
  {
    var chain :| ChainFrom(pairs, chain, c, d);
    forall i: nat | i + 1 < |chain| ensures Adjacent(more, chain[i], chain[i + 1]) {
      assert Adjacent(pairs, chain[i], chain[i + 1]);
    }
    assert ChainFrom(more, chain, c, d);
  }

  lemma {:induction false} PairLinked(pairs: Pairs, c: Cell, d: Cell)
    requires (c, d) in pairs
    ensures Linked(pairs, c, d)
  {
    assert ChainFrom(pairs, [c, d], c, d);
  }

  /** The representative recorded for a cell; a cell never touched represents itself. */
  function RepOf(root: map<Cell, Cell>, c: Cell): Cell { if c in root then root[c] else c }

  lemma {:induction false} ChainSameRep(pairs: Pairs, root: map<Cell, Cell>, chain: seq<Cell>)
    requires |chain| > 0 && IsChain(pairs, chain)
    requires forall p :: p in pairs ==> RepOf(root, p.0) == RepOf(root, p.1)
    ensures RepOf(root, chain[0]) == RepOf(root, chain[|chain| - 1])
    decreases |chain|
  {
    if |chain| > 1 {
      var rest := chain[1..];
      forall i: nat | i + 1 < |rest| ensures Adjacent(pairs, rest[i], rest[i + 1]) {
        assert Adjacent(pairs, chain[i + 1], chain[i + 2]);
      }
      ChainSameRep(pairs, root, rest);
      assert Adjacent(pairs, chain[0], chain[0 + 1]);
    }
  }

  lemma {:induction false} ChainSameRegister(pairs: Pairs, chain: seq<Cell>)
    requires |chain| > 0 && IsChain(pairs, chain)
    requires forall p :: p in pairs ==> p.0.reg == p.1.reg
    ensures chain[0].reg == chain[|chain| - 1].reg
    decreases |chain|
  {
    if |chain| > 1 {
      var rest := chain[1..];
      forall i: nat | i + 1 < |rest| ensures Adjacent(pairs, rest[i], rest[i + 1]) {
        assert Adjacent(pairs, chain[i + 1], chain[i + 2]);
      }
      ChainSameRegister(pairs, rest);
      assert Adjacent(pairs, chain[0], chain[0 + 1]);
    }
  }

  // ----- the forest -----

  /** `root` says which class every touched cell is in, `depth` why following parents ends. */
  ghost predicate IsForest(parent: map<Cell, Cell>, root: map<Cell, Cell>, depth: map<Cell, nat>) {
    && parent.Keys == root.Keys == depth.Keys
    && forall c {:trigger HangsAt(parent, root, depth, c)} :: c in parent ==> HangsAt(parent, root, depth, c)
  }

  ghost predicate HangsAt(parent: map<Cell, Cell>, root: map<Cell, Cell>, depth: map<Cell, nat>, c: Cell)
    requires parent.Keys == root.Keys == depth.Keys
  {
    c in parent ==>
      && parent[c] in parent && root[c] in parent
      && root[parent[c]] == root[c] && root[root[c]] == root[c]
      && (parent[c] == c <==> root[c] == c)
      && (parent[c] != c ==> depth[parent[c]] < depth[c])
      && (root[c] != c ==> depth[root[c]] < depth[c])
  }

  /** Being in one class is exactly being linked by the unions made so far. */
  ghost predicate ClassesAre(pairs: Pairs, root: map<Cell, Cell>) {
    forall c, d :: RepOf(root, c) == RepOf(root, d) <==> Linked(pairs, c, d)
  }

  function RepAfterUnion(root: map<Cell, Cell>, a: Cell, b: Cell, c: Cell): Cell {
    if RepOf(root, c) == RepOf(root, b) then RepOf(root, a) else RepOf(root, c)
  }

  lemma {:induction false} UnionClasses(pairs: Pairs, root: map<Cell, Cell>, after: map<Cell, Cell>, a: Cell, b: Cell)
    requires ClassesAre(pairs, root)
    requires forall c :: RepOf(after, c) == RepAfterUnion(root, a, b, c)
    ensures ClassesAre(pairs + {(a, b)}, after)
  {
    forall c, d ensures RepOf(after, c) == RepOf(after, d) <==> Linked(pairs + {(a, b)}, c, d) {
      if Linked(pairs + {(a, b)}, c, d) { LinkedUnion(pairs, root, after, c, d, a, b); }
      if RepOf(after, c) == RepOf(after, d) { UnionLinks(pairs, root, c, d, a, b); }
    }
  }

  lemma {:induction false} LinkedUnion(pairs: Pairs, root: map<Cell, Cell>, after: map<Cell, Cell>, c: Cell, d: Cell,
      a: Cell, b: Cell)
    requires ClassesAre(pairs, root)
    requires forall x :: RepOf(after, x) == RepAfterUnion(root, a, b, x)
    requires Linked(pairs + {(a, b)}, c, d)
    ensures RepOf(after, c) == RepOf(after, d)
  {
    var more := pairs + {(a, b)};
    forall p | p in more ensures RepOf(after, p.0) == RepOf(after, p.1) {
      if p in pairs { PairLinked(pairs, p.0, p.1); }
    }
    var chain :| ChainFrom(more, chain, c, d);
    ChainSameRep(more, after, chain);
  }

  lemma {:induction false} UnionLinks(pairs: Pairs, root: map<Cell, Cell>, c: Cell, d: Cell, a: Cell, b: Cell)
    requires ClassesAre(pairs, root)
    requires RepAfterUnion(root, a, b, c) == RepAfterUnion(root, a, b, d)
    ensures Linked(pairs + {(a, b)}, c, d)
  {
    var more := pairs + {(a, b)};
    if RepOf(root, c) == RepOf(root, d) {
      LinkedGrows(pairs, more, c, d);
    } else if RepOf(root, c) == RepOf(root, b) {
      LinkedGrows(pairs, more, c, b);
      LinkedGrows(pairs, more, a, d);
      PairLinked(more, a, b);
      LinkedSymmetric(more, a, b);
      LinkedTransitive(more, c, b, a);
      LinkedTransitive(more, c, a, d);
    } else {
      LinkedGrows(pairs, more, c, a);
      LinkedGrows(pairs, more, b, d);
      PairLinked(more, a, b);
      LinkedTransitive(more, c, a, b);
      LinkedTransitive(more, c, b, d);
    }
  }

  class Forest {
    var parent: map<Cell, Cell>
    ghost var root: map<Cell, Cell>
    ghost var depth: map<Cell, nat>
    ghost var joined: Pairs

    ghost predicate Valid()
      reads this
    {
      IsForest(parent, root, depth) && ClassesAre(joined, root)
    }

    constructor ()
      ensures Valid() && joined == {} && parent == map[]
    {
      parent, root, depth, joined := map[], map[], map[], {};
      new;
      forall c, d ensures RepOf(map[], c) == RepOf(map[], d) <==> Linked({}, c, d) {
        if c == d { LinkedReflexive({}, c); }
        if Linked({}, c, d) {
          var chain :| ChainFrom({}, chain, c, d);
          ChainSameRep({}, map[], chain);
        }
      }
    }

    /** The representative, with every cell on the way there hung directly below it. */
    method Find(cell: Cell) returns (found: Cell)
      requires Valid()
      modifies this
      ensures Valid() && joined == old(joined)
      ensures forall c :: RepOf(root, c) == old(RepOf(root, c))
      ensures cell in parent && found in parent && found == RepOf(root, cell) && root[found] == found
      ensures old(parent.Keys) <= parent.Keys
    {
      if cell !in parent {
        TouchForest(parent, root, depth, cell);
        parent, root, depth := parent[cell := cell], root[cell := cell], depth[cell := 0];
        assert forall c :: RepOf(root, c) == old(RepOf(root, c));
      }
      var path: seq<Cell> := [];
      found := cell;
      while parent[found] != found
        invariant found in parent && root[found] == root[cell]
        invariant forall c :: c in path ==> c in parent && root[c] == root[cell] && root[c] != c
        decreases depth[found]
      {
        assert HangsAt(parent, root, depth, found);
        path, found := path + [found], parent[found];
      }
      assert HangsAt(parent, root, depth, found);
      ghost var classes := root;
      for i := 0 to |path|
        invariant IsForest(parent, root, depth) && root == classes && joined == old(joined)
        invariant found in parent && old(parent.Keys) <= parent.Keys
      {
        assert path[i] in path;
        CompressForest(parent, root, depth, path[i]);
        parent := parent[path[i] := found];
      }
    }

    /** Hang the second class below the root of the first. */
    method Union(a: Cell, b: Cell)
      requires Valid()
      modifies this
      ensures Valid() && joined == old(joined) + {(a, b)}
    {
      var left := Find(a);
      var right := Find(b);
      ghost var was := root;
      assert RepOf(root, left) == left;
      HangForest(parent, root, depth, left, right);
      depth := DepthAfter(root, depth, left, right);
      root := RootAfter(root, left, right);
      parent := parent[right := left];
      joined := joined + {(a, b)};
      UnionClasses(old(joined), was, root, a, b);
    }
  }

  ghost function RootAfter(root: map<Cell, Cell>, left: Cell, right: Cell): map<Cell, Cell> {
    map c | c in root :: if root[c] == right then left else root[c]
  }

  ghost function DepthAfter(root: map<Cell, Cell>, depth: map<Cell, nat>, left: Cell, right: Cell): map<Cell, nat>
    requires root.Keys == depth.Keys && left in depth
  {
    map c | c in depth :: if left != right && root[c] == right then depth[c] + depth[left] + 1 else depth[c]
  }

  lemma {:induction false} HangForest(parent: map<Cell, Cell>, root: map<Cell, Cell>, depth: map<Cell, nat>, left: Cell,
      right: Cell)
    requires IsForest(parent, root, depth) && left in parent && right in parent
    requires root[left] == left && root[right] == right
    ensures IsForest(parent[right := left], RootAfter(root, left, right), DepthAfter(root, depth, left, right))
  {
    var parent', root', depth' := parent[right := left], RootAfter(root, left, right),
      DepthAfter(root, depth, left, right);
    forall c | c in parent' ensures HangsAt(parent', root', depth', c) {
      assert HangsAt(parent, root, depth, c) && HangsAt(parent, root, depth, left) &&
        HangsAt(parent, root, depth, right);
    }
  }

  lemma {:induction false} CompressForest(parent: map<Cell, Cell>, root: map<Cell, Cell>, depth: map<Cell, nat>,
      c: Cell)
    requires IsForest(parent, root, depth) && c in parent && root[c] != c
    ensures IsForest(parent[c := root[c]], root, depth)
  {
    var parent' := parent[c := root[c]];
    forall d | d in parent' ensures HangsAt(parent', root, depth, d) {
      assert HangsAt(parent, root, depth, d);
    }
  }

  lemma {:induction false} TouchForest(parent: map<Cell, Cell>, root: map<Cell, Cell>, depth: map<Cell, nat>, c: Cell)
    requires IsForest(parent, root, depth) && c !in parent
    ensures IsForest(parent[c := c], root[c := c], depth[c := 0])
  {
    var parent', root', depth' := parent[c := c], root[c := c], depth[c := 0];
    forall d | d in parent' ensures HangsAt(parent', root', depth', d) {
      assert HangsAt(parent, root, depth, d);
    }
  }
}
