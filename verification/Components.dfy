/** Strongly connected components in two passes: finishing order with an explicit stack of
    nodes and done marks, then searches against the edges in the opposite order. */
module Components {
  import opened Digraph

  // ----- ascending order -----

  ghost predicate Ascending(s: seq<nat>) { forall i, j :: 0 <= i < j < |s| ==> s[i] < s[j] }

  lemma {:induction false} Least(s: set<nat>) returns (m: nat)
    requires s != {}
    ensures m in s && forall x :: x in s ==> m <= x
  {
    m :| m in s;
    if s - {m} != {} {
      var other := Least(s - {m});
      forall x | x in s ensures x == m || other <= x { if x != m { assert x in s - {m}; } }
      if other < m { m := other; }
    } else {
      forall x | x in s ensures m <= x { assert x !in s - {m}; }
    }
  }

  lemma {:induction false} HasLeast(s: set<nat>)
    requires s != {}
    ensures exists m :: m in s && forall x :: x in s ==> m <= x
  {
    var m := Least(s);
  }

  function LeastOf(s: set<nat>): (m: nat)
    requires s != {}
    ensures m in s && forall x :: x in s ==> m <= x
  {
    HasLeast(s);
    var m :| m in s && forall x :: x in s ==> m <= x;
    m
  }

  function Sorted(s: set<nat>): seq<nat> { if s == {} then [] else [LeastOf(s)] + Sorted(s - {LeastOf(s)}) }

  lemma {:induction false} AscendingFrom(m: nat, rest: seq<nat>)
    requires Ascending(rest) && forall x :: x in rest ==> m < x
    ensures Ascending([m] + rest)
  {
    var whole := [m] + rest;
    forall i, j | 0 <= i < j < |whole|
      ensures whole[i] < whole[j]
    {
      assert whole[j] == rest[j - 1] && rest[j - 1] in rest;
    }
  }

  lemma {:induction false} SortedIs(s: set<nat>)
    ensures Ascending(Sorted(s)) && forall x: nat :: x in Sorted(s) <==> x in s
  {
    hide Ascending;
    if s == {} {
      AscendingNothing();
    } else {
      SortedIs(s - {LeastOf(s)});
      AscendingFrom(LeastOf(s), Sorted(s - {LeastOf(s)}));
    }
  }

  lemma {:induction false} AscendingNothing()
    ensures Ascending([])
  {
  }

  // ----- the first pass: finishing order -----

  type Entry = (nat, bool)

  function Unfinished(children: seq<nat>, seen: set<nat>): seq<Entry> {
    if children == [] then []
    else Unfinished(children[1..], seen) + if children[0] in seen then [] else [(children[0], false)]
  }

  lemma {:induction false} UnfinishedHas(children: seq<nat>, seen: set<nat>, e: Entry)
    ensures e in Unfinished(children, seen) <==> !e.1 && e.0 in children && e.0 !in seen
  {
    if children != [] {
      UnfinishedHas(children[1..], seen, e);
      assert children == [children[0]] + children[1..];
    }
  }

  predicate Gray(seen: set<nat>, order: seq<nat>, n: nat) { n in seen && n !in order }

  /** The stack holds each open node once, marked; what lies above an open node is reachable
      from it; and each child of an open node is seen or waiting above it. */
  ghost predicate StackFits(g: Graph, seen: set<nat>, order: seq<nat>, stack: seq<Entry>) {
    && (forall i :: 0 <= i < |stack| ==> stack[i].0 in g && (stack[i].1 ==> Gray(seen, order, stack[i].0)))
    && (forall n: nat :: Gray(seen, order, n) ==> (n, true) in stack)
    && (forall i, j ::
      0 <= i < j < |stack| && stack[i].1 ==> Reaches(g, stack[i].0, stack[j].0) && stack[i] != stack[j])
    && (forall i :: 0 <= i < |stack| && stack[i].1 ==> ChildrenAwait(g, seen, stack, i))
  }

  ghost predicate ChildrenAwait(g: Graph, seen: set<nat>, stack: seq<Entry>, i: nat)
    requires i < |stack|
  {
    stack[i].0 in g && forall child: nat :: child in g[stack[i].0] ==> child in seen || (child, false) in stack[i + 1..]
  }

  ghost predicate FinishedFits(g: Graph, seen: set<nat>, order: seq<nat>) {
    && (forall i, j :: 0 <= i < j < |order| ==> order[i] != order[j])
    && (forall n: nat :: n in order ==> n in seen && n in g && g[n] <= seen) && seen <= g.Keys
  }

  /** A finished node that reaches an unfinished one is in a cycle with an open one. */
  ghost predicate Escapes(g: Graph, seen: set<nat>, order: seq<nat>) {
    forall u: nat, v: nat :: u in order && v !in order && Reaches(g, u, v) ==> CycleOpen(g, seen, order, u)
  }

  ghost predicate CycleOpen(g: Graph, seen: set<nat>, order: seq<nat>, u: nat) {
    exists x: nat :: Gray(seen, order, x) && Mutual(g, u, x)
  }

  /** Someone in the component of `u` is open, or finished at `j` or later. */
  ghost predicate Outlasts(g: Graph, seen: set<nat>, order: seq<nat>, u: nat, j: nat) {
    exists x: nat :: Mutual(g, u, x) && (Gray(seen, order, x) || x in order[if j < |order| then j else |order|..])
  }

  ghost predicate FinishOrder(g: Graph, seen: set<nat>, order: seq<nat>) {
    forall i: nat, j: nat :: i < j < |order| && Reaches(g, order[i], order[j]) ==> Outlasts(g, seen, order, order[i], j)
  }

  // ----- one step of the first pass -----

  /** A node whose mark comes to the top again: all its children have been seen. */
  lemma {:induction false} TopIsDone(g: Graph, seen: set<nat>, order: seq<nat>, stack: seq<Entry>, u: nat)
    requires StackFits(g, seen, order, stack + [(u, true)])
    ensures u in g && Gray(seen, order, u) && g[u] <= seen
    ensures forall n: nat :: Gray(seen, order, n) ==> Reaches(g, n, u)
    ensures (u, true) !in stack
  {
    var whole := stack + [(u, true)];
    assert whole[|stack|] == (u, true) && ChildrenAwait(g, seen, whole, |stack|);
    forall n: nat | Gray(seen, order, n) ensures Reaches(g, n, u) {
      var i :| 0 <= i < |whole| && whole[i] == (n, true);
      if i == |stack| { ReachesSelf(g, u); }
    }
    forall i | 0 <= i < |stack| ensures stack[i] != (u, true) { assert whole[i] == stack[i]; }
  }

  lemma {:induction false} FinishStack(g: Graph, seen: set<nat>, order: seq<nat>, stack: seq<Entry>, u: nat)
    requires StackFits(g, seen, order, stack + [(u, true)])
    ensures StackFits(g, seen, order + [u], stack)
  {
    var whole := stack + [(u, true)];
    TopIsDone(g, seen, order, stack, u);
    forall i | 0 <= i < |stack| ensures stack[i].0 in g && (stack[i].1 ==> Gray(seen, order + [u], stack[i].0)) {
      assert whole[i] == stack[i];
      if stack[i].1 { assert whole[i] != whole[|stack|]; }
    }
    forall n: nat | Gray(seen, order + [u], n) ensures (n, true) in stack {
      assert Gray(seen, order, n) && n != u by { assert u in order + [u]; }
      assert (n, true) in whole;
    }
    forall i, j | 0 <= i < j < |stack| && stack[i].1
      ensures Reaches(g, stack[i].0, stack[j].0) && stack[i] != stack[j]
    {
      assert whole[i] == stack[i] && whole[j] == stack[j];
    }
    forall i | 0 <= i < |stack| && stack[i].1 ensures ChildrenAwait(g, seen, stack, i) {
      assert whole[i] == stack[i] && ChildrenAwait(g, seen, whole, i);
      assert whole[i + 1..] == stack[i + 1..] + [(u, true)];
    }
  }

  /** Finishing a node keeps every finished node that can still escape on an open cycle. */
  lemma {:induction false} FinishEscapes(g: Graph, seen: set<nat>, order: seq<nat>, u: nat)
    requires Closed(g) && FinishedFits(g, seen, order) && Escapes(g, seen, order) && u in g && Gray(seen, order, u)
    requires g[u] <= seen
    requires forall n: nat :: Gray(seen, order, n) ==> Reaches(g, n, u)
    ensures Escapes(g, seen, order + [u])
  {
    var order' := order + [u];
    forall a: nat, v: nat | a in order' && v !in order' && Reaches(g, a, v) ensures CycleOpen(g, seen, order', a) {
      if a == u {
        OpenCycle(g, seen, order, u, v);
      } else {
        assert CycleOpen(g, seen, order, a);
        var x: nat :| Gray(seen, order, x) && Mutual(g, a, x);
        if x == u {
          ReachesOn(g, u, a, v);
          OpenCycle(g, seen, order, u, v);
          var y: nat :| Gray(seen, order', y) && Mutual(g, u, y);
          MutualOn(g, a, u, y);
        } else {
          assert Gray(seen, order', x);
        }
      }
    }
  }

  lemma {:induction false} OpenCycle(g: Graph, seen: set<nat>, order: seq<nat>, u: nat, v: nat)
    requires Closed(g) && FinishedFits(g, seen, order) && u in g && Gray(seen, order, u) && g[u] <= seen
    requires forall n: nat :: Gray(seen, order, n) ==> Reaches(g, n, u)
    requires v !in order + [u] && Reaches(g, u, v)
    ensures CycleOpen(g, seen, order + [u], u)
  {
    var inside := set n | n in order + [u];
    var walk :| Joins(g, walk, u, v);
    var a, b := LeavesBy(g, inside, walk, u, v);
    assert b in seen && Gray(seen, order + [u], b) && Gray(seen, order, b);
    EdgeReaches(g, a, b);
    ReachesOn(g, u, a, b);
    assert Mutual(g, u, b);
  }

  lemma {:induction false} FinishKeepsOrder(g: Graph, seen: set<nat>, order: seq<nat>, u: nat)
    requires FinishedFits(g, seen, order) && Escapes(g, seen, order) && FinishOrder(g, seen, order)
    requires Gray(seen, order, u)
    ensures FinishOrder(g, seen, order + [u])
  {
    var order' := order + [u];
    forall i: nat, j: nat | i < j < |order'| && Reaches(g, order'[i], order'[j])
      ensures Outlasts(g, seen, order', order'[i], j)
    {
      var a := order[i];
      var x: nat;
      if j == |order| {
        assert CycleOpen(g, seen, order, a);
        x :| Gray(seen, order, x) && Mutual(g, a, x);
      } else {
        assert Outlasts(g, seen, order, a, j);
        x :| Mutual(g, a, x) && (Gray(seen, order, x) || x in order[j..]);
      }
      assert order'[j..] == order[j..] + [u];
      if x != u && Gray(seen, order, x) { assert Gray(seen, order', x); }
    }
  }

  /** A node seen for the first time goes on the stack with its children. */
  lemma {:induction false} OpenStack(g: Graph, seen: set<nat>, order: seq<nat>, stack: seq<Entry>, u: nat)
    requires Closed(g) && StackFits(g, seen, order, stack + [(u, false)]) && u !in seen
    requires forall n: nat :: n in order ==> n in seen
    ensures u in g && StackFits(g, seen + {u}, order, stack + [(u, true)] + Unfinished(Sorted(g[u]), seen + {u}))
  {
    hide Unfinished, Sorted, Reaches;
    var whole, seen' := stack + [(u, false)], seen + {u};
    assert whole[|stack|] == (u, false);
    var children := Unfinished(Sorted(g[u]), seen');
    var grown := stack + [(u, true)] + children;
    SortedIs(g[u]);
    forall e: Entry
      ensures e in children <==> !e.1 && e.0 in g[u] && e.0 !in seen'
    {
      UnfinishedHas(Sorted(g[u]), seen', e);
    }
    forall k | 0 <= k < |grown|
      ensures OpenEntry(g, seen, order, stack, u, grown, k) && grown[k].0 in g
      ensures (grown[k].1 ==> Gray(seen', order, grown[k].0))
    {
      if k < |stack| { assert whole[k] == grown[k]; }
      else if k > |stack| { assert grown[k] == children[k - |stack| - 1] && grown[k] in children; }
    }
    OpenGray(g, seen, order, stack, u, grown);
    forall i, j | 0 <= i < j < |grown| && grown[i].1
      ensures Reaches(g, grown[i].0, grown[j].0) && grown[i] != grown[j]
    {
      OpenReaches(g, seen, order, stack, u, grown, i, j);
    }
    forall i | 0 <= i < |grown| && grown[i].1 ensures ChildrenAwait(g, seen', grown, i) {
      assert OpenEntry(g, seen, order, stack, u, grown, i);
      OpenAwaits(g, seen, order, stack, u, children, i);
    }
  }

  lemma {:induction false} OpenGray(g: Graph, seen: set<nat>, order: seq<nat>, stack: seq<Entry>, u: nat,
      grown: seq<Entry>)
    requires StackFits(g, seen, order, stack + [(u, false)]) && |stack| < |grown|
    requires grown[..|stack| + 1] == stack + [(u, true)]
    ensures forall n: nat :: Gray(seen + {u}, order, n) ==> (n, true) in grown
  {
    var whole := stack + [(u, false)];
    forall n: nat | Gray(seen + {u}, order, n) ensures (n, true) in grown {
      if n == u {
        assert grown[..|stack| + 1][|stack|] == (u, true);
      } else {
        assert Gray(seen, order, n) && (n, true) in whole;
        var i :| 0 <= i < |whole| && whole[i] == (n, true);
        assert grown[..|stack| + 1][i] == (n, true);
      }
    }
  }

  lemma {:induction false} OpenAwaits(g: Graph, seen: set<nat>, order: seq<nat>, stack: seq<Entry>, u: nat,
      children: seq<Entry>, i: nat)
    requires StackFits(g, seen, order, stack + [(u, false)]) && u in g && i <= |stack|
    requires (stack + [(u, true)])[i].1
    requires forall child: nat :: child in g[u] && child !in seen + {u} ==> (child, false) in children
    ensures ChildrenAwait(g, seen + {u}, stack + [(u, true)] + children, i)
  {
    var whole, grown := stack + [(u, false)], stack + [(u, true)] + children;
    if i < |stack| {
      assert whole[i] == grown[i] && ChildrenAwait(g, seen, whole, i);
      assert whole[i + 1..] == stack[i + 1..] + [(u, false)];
      assert grown[i + 1..] == stack[i + 1..] + [(u, true)] + children;
    } else {
      assert grown[i + 1..] == children;
    }
  }

  /** The three kinds of entries of a grown stack. */
  ghost predicate OpenEntry(g: Graph, seen: set<nat>, order: seq<nat>, stack: seq<Entry>, u: nat, grown: seq<Entry>,
      k: nat)
    requires k < |grown|
  {
    && grown[k].0 in g && (grown[k].1 ==> Gray(seen + {u}, order, grown[k].0))
    && (k < |stack| ==> grown[k] == stack[k]) && (k == |stack| ==> grown[k] == (u, true))
    && (k > |stack| ==> !grown[k].1 && u in g && grown[k].0 in g[u])
  }

  lemma {:induction false} OpenReaches(g: Graph, seen: set<nat>, order: seq<nat>, stack: seq<Entry>, u: nat,
      grown: seq<Entry>, i: nat, j: nat)
    requires StackFits(g, seen, order, stack + [(u, false)]) && u !in seen && |stack| < |grown| && i < j < |grown|
    requires grown[i].1
    requires OpenEntry(g, seen, order, stack, u, grown, i) && OpenEntry(g, seen, order, stack, u, grown, j)
    ensures Reaches(g, grown[i].0, grown[j].0) && grown[i] != grown[j]
  {
    var whole := stack + [(u, false)];
    assert whole[|stack|] == (u, false);
    if i < |stack| {
      assert whole[i] == grown[i] && Reaches(g, grown[i].0, u);
      assert Gray(seen, order, grown[i].0);
      if j < |stack| { assert whole[j] == grown[j]; }
      else if j > |stack| { EdgeReaches(g, u, grown[j].0); ReachesOn(g, grown[i].0, u, grown[j].0); }
    } else {
      EdgeReaches(g, u, grown[j].0);
    }
  }

  lemma {:induction false} OpenKeeps(g: Graph, seen: set<nat>, order: seq<nat>, u: nat)
    requires FinishedFits(g, seen, order) && Escapes(g, seen, order) && FinishOrder(g, seen, order) && u in g
    ensures FinishedFits(g, seen + {u}, order) && Escapes(g, seen + {u}, order) && FinishOrder(g, seen + {u}, order)
  {
    var seen' := seen + {u};
    forall n: nat ensures Gray(seen, order, n) ==> Gray(seen', order, n) { }
    forall a: nat, v: nat | a in order && v !in order && Reaches(g, a, v) ensures CycleOpen(g, seen', order, a) {
      assert CycleOpen(g, seen, order, a);
      var x: nat :| Gray(seen, order, x) && Mutual(g, a, x);
      assert Gray(seen', order, x);
    }
    forall i: nat, j: nat | i < j < |order| && Reaches(g, order[i], order[j])
      ensures Outlasts(g, seen', order, order[i], j)
    {
      assert Outlasts(g, seen, order, order[i], j);
      var x: nat :| Mutual(g, order[i], x) && (Gray(seen, order, x) || x in order[j..]);
    }
  }

  /** An entry that has been seen meanwhile is dropped. */
  lemma {:induction false} DropStack(g: Graph, seen: set<nat>, order: seq<nat>, stack: seq<Entry>, u: nat)
    requires StackFits(g, seen, order, stack + [(u, false)]) && u in seen
    ensures StackFits(g, seen, order, stack)
  {
    var whole := stack + [(u, false)];
    forall i | 0 <= i < |stack| ensures stack[i] == whole[i] { }
    forall i | 0 <= i < |stack| && stack[i].1 ensures ChildrenAwait(g, seen, stack, i) {
      assert ChildrenAwait(g, seen, whole, i);
      assert whole[i + 1..] == stack[i + 1..] + [(u, false)];
    }
  }

  /** Everything the first pass keeps. */
  ghost predicate Searching(g: Graph, seen: set<nat>, order: seq<nat>, stack: seq<Entry>) {
    FinishedFits(g, seen, order) && Escapes(g, seen, order) && FinishOrder(g, seen, order) &&
      StackFits(g, seen, order, stack)
  }

  lemma {:induction false} DoneStep(g: Graph, seen: set<nat>, order: seq<nat>, stack: seq<Entry>, u: nat)
    requires Closed(g) && Searching(g, seen, order, stack + [(u, true)])
    ensures Searching(g, seen, order + [u], stack)
  {
    hide StackFits, Escapes, FinishOrder;
    TopIsDone(g, seen, order, stack, u);
    FinishStack(g, seen, order, stack, u);
    FinishEscapes(g, seen, order, u);
    FinishKeepsOrder(g, seen, order, u);
  }

  lemma {:induction false} OpenStep(g: Graph, seen: set<nat>, order: seq<nat>, stack: seq<Entry>, u: nat)
    requires Closed(g) && Searching(g, seen, order, stack + [(u, false)]) && u !in seen
    ensures u in g && Searching(g, seen + {u}, order, stack + [(u, true)] + Unfinished(Sorted(g[u]), seen + {u}))
  {
    hide StackFits, Escapes, FinishOrder, Unfinished, Sorted;
    OpenStack(g, seen, order, stack, u);
    OpenKeeps(g, seen, order, u);
  }

  lemma {:induction false} DropStep(g: Graph, seen: set<nat>, order: seq<nat>, stack: seq<Entry>, u: nat)
    requires Searching(g, seen, order, stack + [(u, false)]) && u in seen
    ensures Searching(g, seen, order, stack)
  {
    hide StackFits, Escapes, FinishOrder;
    DropStack(g, seen, order, stack, u);
  }

  /** Nodes in finishing order. */
  method Finish(g: Graph) returns (order: seq<nat>)
    requires Closed(g)
    ensures (forall n: nat :: n in order <==> n in g) && (forall i, j :: 0 <= i < j < |order| ==> order[i] != order[j])
    ensures FinishOrder(g, g.Keys, order)
  {
    hide Searching, Sorted, Unfinished, FinishOrder;
    var seen: set<nat> := {};
    order := [];
    var starts := Sorted(g.Keys);
    SortedIs(g.Keys);
    NothingFinished(g);
    for s := 0 to |starts|
      invariant Searching(g, seen, order, []) && forall i :: 0 <= i < s ==> starts[i] in seen
    {
      var stack: seq<Entry> := [(starts[s], false)];
      assert starts[s] in starts;
      OneEntry(g, seen, order, starts[s]);
      ghost var before := seen;
      while stack != []
        invariant Searching(g, seen, order, stack) && seen <= g.Keys
        invariant before <= seen && (starts[s] in seen || stack == [(starts[s], false)])
        decreases g.Keys - seen, |stack|
      {
        var top := |stack| - 1;
        var (node, done) := stack[top];
        assert stack == stack[..top] + [(node, done)];
        stack := stack[..top];
        if done {
          DoneStep(g, seen, order, stack, node);
          order := order + [node];
        } else if node !in seen {
          OpenStep(g, seen, order, stack, node);
          seen := seen + {node};
          stack := stack + [(node, true)] + Unfinished(Sorted(g[node]), seen);
        } else {
          DropStep(g, seen, order, stack, node);
        }
      }
    }
    NothingOpen(g, seen, order);
    forall n: nat | n in g ensures n in seen { assert n in starts; }
    assert seen == g.Keys;
  }

  lemma {:induction false} NothingFinished(g: Graph)
    ensures Searching(g, {}, [], [])
  {
  }

  lemma {:induction false} OneEntry(g: Graph, seen: set<nat>, order: seq<nat>, start: nat)
    requires start in g && Searching(g, seen, order, [])
    ensures Searching(g, seen, order, [(start, false)]) && seen <= g.Keys
  {
    hide Escapes, FinishOrder;
    var none: seq<Entry> := [];
    forall n: nat ensures !Gray(seen, order, n) { assert (n, true) !in none; }
  }

  lemma {:induction false} NothingOpen(g: Graph, seen: set<nat>, order: seq<nat>)
    requires Searching(g, seen, order, [])
    ensures seen <= g.Keys && (forall n: nat :: n in seen <==> n in order)
    ensures (forall i, j :: 0 <= i < j < |order| ==> order[i] != order[j])
    ensures FinishOrder(g, seen, order)
  {
    hide Escapes, FinishOrder;
    var none: seq<Entry> := [];
    forall n: nat | n in seen ensures n in order { assert !Gray(seen, order, n) by { assert (n, true) !in none; } }
  }

  // ----- the second pass: one component for each search -----

  function Reverse(g: Graph): Graph { map n | n in g :: set m | m in g && n in g[m] }

  /** Everything that reaches `start` without passing what was seen before. */
  method Gather(g: Graph, reverse: Graph, start: nat, seen0: set<nat>) returns (group: seq<nat>, seen: set<nat>)
    requires Closed(g) && reverse == Reverse(g) && start in g && start !in seen0
    ensures start in group && seen == seen0 + set n | n in group
    ensures forall n: nat :: n in group ==> n in g && n !in seen0 && Reaches(g, n, start)
    ensures forall n: nat, m: nat :: n in group && m in g && n in g[m] && m !in seen0 ==> m in group
  {
    hide Reaches, Sorted;
    group, seen := [], seen0 + {start};
    var pending := [start];
    ReachesSelf(g, start);
    while pending != []
      invariant start in group || start in pending
      invariant seen == seen0 + (set n | n in group) + set n | n in pending
      invariant forall n: nat :: n in group || n in pending ==> n in g && n !in seen0 && Reaches(g, n, start)
      invariant forall n: nat, m: nat :: n in group && m in g && n in g[m] ==> m in seen
      decreases g.Keys - seen, |pending|
    {
      var last := |pending| - 1;
      var node := pending[last];
      assert pending == pending[..last] + [node];
      pending := pending[..last];
      group := group + [node];
      var children := Sorted(reverse[node]);
      SortedIs(reverse[node]);
      ghost var before := seen;
      for c := 0 to |children|
        invariant before <= seen && (seen == before ==> |pending| == last)
        invariant seen == seen0 + (set n | n in group) + set n | n in pending
        invariant forall n: nat :: n in pending ==> n in g && n !in seen0 && Reaches(g, n, start)
        invariant forall i :: 0 <= i < c ==> children[i] in seen
      {
        var child := children[c];
        assert child in children && child in g && node in g[child];
        if child !in seen {
          EdgeReaches(g, child, node);
          ReachesOn(g, child, node, start);
          seen := seen + {child};
          pending := pending + [child];
        }
      }
      forall m: nat | m in g && node in g[m] ensures m in seen { assert m in children; }
    }
  }

  /** Components seen so far are seen whole. */
  ghost predicate WholeComponents(g: Graph, seen: set<nat>) {
    forall a: nat, b: nat :: a in seen && Mutual(g, a, b) ==> b in seen
  }

  ghost predicate IsComponent(g: Graph, group: seq<nat>, a: nat) { forall b: nat :: b in group <==> Mutual(g, a, b) }

  /** Searching against the edges from the last unseen node to finish collects its component. */
  lemma {:induction false} GatheredIs(g: Graph, order: seq<nat>, j: nat, seen: set<nat>, group: seq<nat>)
    requires Closed(g) && FinishOrder(g, g.Keys, order) && (forall n: nat :: n in order <==> n in g)
    requires j < |order| && order[j] !in seen && (forall k :: j < k < |order| ==> order[k] in seen)
    requires WholeComponents(g, seen)
    requires order[j] in group
    requires forall n: nat :: n in group ==> n in g && n !in seen && Reaches(g, n, order[j])
    requires forall n: nat, m: nat :: n in group && m in g && n in g[m] && m !in seen ==> m in group
    ensures IsComponent(g, group, order[j])
  {
    forall b: nat ensures b in group <==> Mutual(g, order[j], b) {
      if b in group { GatheredIsMutual(g, order, j, seen, b); }
      if Mutual(g, order[j], b) { MutualIsGathered(g, seen, group, order[j], b); }
    }
  }

  lemma {:induction false} GatheredIsMutual(g: Graph, order: seq<nat>, j: nat, seen: set<nat>, b: nat)
    requires FinishOrder(g, g.Keys, order) && (forall n: nat :: n in order <==> n in g)
    requires j < |order| && order[j] !in seen && (forall k :: j < k < |order| ==> order[k] in seen)
    requires WholeComponents(g, seen)
    requires b in g && b !in seen && Reaches(g, b, order[j])
    ensures Mutual(g, order[j], b)
  {
    hide FinishOrder, WholeComponents;
    var i: nat :| i < |order| && order[i] == b;
    if i == j {
      ReachesSelf(g, b);
    } else {
      var k := OutlastedBy(g, order, i, j);
      StaysUnseen(g, seen, order[k], b);
    }
  }

  /** When all is finished, somebody in the component finished at `j` or later. */
  lemma {:induction false} OutlastedBy(g: Graph, order: seq<nat>, i: nat, j: nat) returns (k: nat)
    requires FinishOrder(g, g.Keys, order) && (forall n: nat :: n in order <==> n in g) && i < j < |order|
    requires Reaches(g, order[i], order[j])
    ensures j <= k < |order| && Mutual(g, order[i], order[k])
  {
    hide Mutual, Reaches;
    assert Outlasts(g, g.Keys, order, order[i], j);
    var x: nat :| Mutual(g, order[i], x) && (Gray(g.Keys, order, x) || x in order[j..]);
    assert x in order[j..];
    var d :| 0 <= d < |order[j..]| && order[j..][d] == x;
    k := j + d;
    assert order[k] == x;
  }

  lemma {:induction false} StaysUnseen(g: Graph, seen: set<nat>, a: nat, b: nat)
    requires WholeComponents(g, seen) && Mutual(g, a, b) && b !in seen
    ensures a !in seen
  {
  }

  lemma {:induction false} MutualIsGathered(g: Graph, seen: set<nat>, group: seq<nat>, start: nat, b: nat)
    requires Mutual(g, start, b) && start in group && start !in seen && WholeComponents(g, seen)
    requires forall n: nat, m: nat :: n in group && m in g && n in g[m] && m !in seen ==> m in group
    ensures b in group
  {
    if b !in group {
      ReachesEnds(g, b, start);
      var outside := set n | n in g && n !in group;
      var walk :| Joins(g, walk, b, start);
      var x, y := LeavesBy(g, outside, walk, b, start);
      ReachesEnds(g, y, start);
      EdgeReaches(g, x, y);
      ReachesOn(g, x, y, start);
      ReachesOn(g, start, b, x);
      StaysUnseen(g, seen, x, start);
    }
  }

  lemma {:induction false} WholeMore(g: Graph, seen: set<nat>, group: seq<nat>, start: nat)
    requires WholeComponents(g, seen) && IsComponent(g, group, start) && start in group
    ensures WholeComponents(g, seen + set n | n in group)
    ensures forall a: nat :: a in group ==> IsComponent(g, group, a)
  {
    forall a: nat | a in group ensures IsComponent(g, group, a) {
      forall b: nat ensures b in group <==> Mutual(g, a, b) {
        if b in group { MutualOn(g, a, start, b); }
        if Mutual(g, a, b) { MutualOn(g, start, a, b); }
      }
    }
    var more := seen + set n | n in group;
    forall a: nat, b: nat | a in more && Mutual(g, a, b) ensures b in more {
      if a in group { assert IsComponent(g, group, a); }
    }
  }

  // ----- ordering the groups -----

  /** A nonempty ascending list of one component. */
  ghost predicate IsGroup(g: Graph, group: seq<nat>) {
    group != [] && Ascending(group) && forall a: nat :: a in group ==> a in g && IsComponent(g, group, a)
  }

  ghost predicate Apart(groups: seq<seq<nat>>) {
    forall i, j, n: nat :: 0 <= i < j < |groups| && n in groups[i] ==> n !in groups[j]
  }

  function First(group: seq<nat>): nat { if group == [] then 0 else group[0] }

  /** Groups in order of their first, smallest, nodes: lists of disjoint groups compare that way. */
  ghost predicate ByFirst(groups: seq<seq<nat>>) {
    forall i, j :: 0 <= i < j < |groups| ==> First(groups[i]) < First(groups[j])
  }

  /** The smallest nodes of the groups, which come first in them, increase. */
  ghost predicate SmallestFirst(groups: seq<seq<nat>>) {
    (forall i :: 0 <= i < |groups| ==> groups[i] != []) &&
    forall i, j :: 0 <= i < j < |groups| && groups[i] != [] && groups[j] != [] ==> groups[i][0] < groups[j][0]
  }

  lemma {:induction false} ByFirstIs(g: Graph, groups: seq<seq<nat>>)
    requires ByFirst(groups) && forall group :: group in groups ==> IsGroup(g, group)
    ensures SmallestFirst(groups)
  {
    forall i | 0 <= i < |groups| ensures groups[i] != [] { assert groups[i] in groups; }
    forall i, j | 0 <= i < j < |groups| && groups[i] != [] && groups[j] != [] ensures groups[i][0] < groups[j][0] {
      assert First(groups[i]) < First(groups[j]);
    }
  }

  function Insert(group: seq<nat>, groups: seq<seq<nat>>): seq<seq<nat>> {
    if groups == [] || First(group) < First(groups[0]) then [group] + groups
      else [groups[0]] + Insert(group, groups[1..])
  }

  lemma {:induction false} InFront(head: seq<nat>, rest: seq<seq<nat>>)
    requires ByFirst(rest) && forall x :: x in rest ==> First(head) < First(x)
    ensures ByFirst([head] + rest)
  {
    var whole := [head] + rest;
    forall i, j | 0 <= i < j < |whole| ensures First(whole[i]) < First(whole[j]) {
      assert whole[j] == rest[j - 1] && rest[j - 1] in rest;
      if i > 0 { assert whole[i] == rest[i - 1]; }
    }
  }

  lemma {:induction false} Behind(groups: seq<seq<nat>>)
    requires ByFirst(groups) && groups != []
    ensures ByFirst(groups[1..]) && forall x :: x in groups[1..] ==> First(groups[0]) < First(x)
  {
    var rest := groups[1..];
    assert forall i :: 0 <= i < |rest| ==> rest[i] == groups[i + 1];
    forall x | x in rest
      ensures First(groups[0]) < First(x)
    {
      var i :| 0 <= i < |rest| && rest[i] == x;
      assert x == groups[i + 1];
    }
  }

  lemma {:induction false} Inserted(group: seq<nat>, groups: seq<seq<nat>>)
    requires ByFirst(groups) && forall other :: other in groups ==> First(other) != First(group)
    ensures ByFirst(Insert(group, groups)) && forall x :: x in Insert(group, groups) <==> x == group || x in groups
  {
    hide ByFirst, First;
    if groups != [] {
      Behind(groups);
      assert groups == [groups[0]] + groups[1..] && groups[0] in groups;
      if First(group) < First(groups[0]) {
        forall x | x in groups ensures First(group) < First(x) { assert x == groups[0] || x in groups[1..]; }
        InFront(group, groups);
      } else {
        Inserted(group, groups[1..]);
        InFront(groups[0], Insert(group, groups[1..]));
      }
    } else {
      InFront(group, groups);
    }
  }

  method SortGroups(found: seq<seq<nat>>) returns (groups: seq<seq<nat>>)
    requires Apart(found) && forall group :: group in found ==> group != []
    ensures ByFirst(groups) && forall group :: group in groups <==> group in found
  {
    groups := [];
    for i := 0 to |found|
      invariant ByFirst(groups) && forall group :: group in groups <==> group in found[..i]
    {
      assert found[i] in found;
      forall other | other in groups ensures First(other) != First(found[i]) {
        var k :| 0 <= k < i && found[k] == other;
        assert found[k] in found && First(other) in found[k];
      }
      Inserted(found[i], groups);
      groups := Insert(found[i], groups);
      assert found[..i + 1] == found[..i] + [found[i]];
    }
    assert found[..|found|] == found;
  }

  // ----- both passes -----

  /** Exactly the strongly connected components: each group is one component in ascending order,
      every node is in a group, and no two groups share a node. */
  method StronglyConnected(g: Graph) returns (groups: seq<seq<nat>>)
    requires Closed(g)
    ensures forall group :: group in groups ==> IsGroup(g, group)
    ensures forall n: nat :: n in g ==> exists i :: 0 <= i < |groups| && n in groups[i]
    ensures Apart(groups) && SmallestFirst(groups)
  {
    hide FinishOrder, WholeComponents, IsComponent, Sorted;
    var order := Finish(g);
    var reverse := Reverse(g);
    var seen: set<nat>, found: seq<seq<nat>> := {}, [];
    NoneSeen(g);
    var j := |order|;
    while j > 0
      invariant 0 <= j <= |order| && WholeComponents(g, seen) && forall k :: j <= k < |order| ==> order[k] in seen
      invariant forall group :: group in found ==> IsGroup(g, group)
      invariant forall n: nat :: n in seen <==> exists i :: 0 <= i < |found| && n in found[i]
      invariant Apart(found)
    {
      j := j - 1;
      if order[j] !in seen {
        assert order[j] in order;
        var group, seen' := Gather(g, reverse, order[j], seen);
        GatheredIs(g, order, j, seen, group);
        WholeMore(g, seen, group, order[j]);
        var sorted := Sorted(set n | n in group);
        SortedIs(set n | n in group);
        SameGroup(g, group, sorted);
        MoreFound(found, sorted, seen, seen');
        found, seen := found + [sorted], seen';
      }
    }
    groups := SortGroups(found);
    SortedFound(g, found, groups);
    ByFirstIs(g, groups);
    forall n: nat | n in g ensures exists i :: 0 <= i < |groups| && n in groups[i] {
      assert n in order && n in seen;
      var i :| 0 <= i < |found| && n in found[i];
      assert found[i] in groups;
    }
  }

  lemma {:induction false} NoneSeen(g: Graph)
    ensures WholeComponents(g, {})
  {
  }

  lemma {:induction false} SameGroup(g: Graph, group: seq<nat>, sorted: seq<nat>)
    requires group != [] && Ascending(sorted) && (forall n: nat :: n in sorted <==> n in group)
    requires forall a: nat :: a in group ==> a in g && IsComponent(g, group, a)
    ensures IsGroup(g, sorted)
  {
    assert group[0] in sorted;
    forall a: nat | a in sorted ensures IsComponent(g, sorted, a) { assert IsComponent(g, group, a); }
  }

  lemma {:induction false} MoreFound(found: seq<seq<nat>>, group: seq<nat>, seen: set<nat>, seen': set<nat>)
    requires Apart(found) && (forall n: nat :: n in seen <==> exists i :: 0 <= i < |found| && n in found[i])
    requires (forall n: nat :: n in seen' <==> n in seen || n in group) && forall n: nat :: n in group ==> n !in seen
    ensures Apart(found + [group])
    ensures forall n: nat :: n in seen' <==> exists i :: 0 <= i < |found + [group]| && n in (found + [group])[i]
  {
    var more := found + [group];
    forall n: nat ensures n in seen' <==> exists i :: 0 <= i < |more| && n in more[i] {
      if n in seen { var i :| 0 <= i < |found| && n in found[i]; assert n in more[i]; }
      if n in group { assert n in more[|found|]; }
      if i :| 0 <= i < |more| && n in more[i] { if i < |found| { assert n in found[i]; } }
    }
  }

  /** Distinct components have different first nodes, so the sorted groups are still disjoint. */
  lemma {:induction false} SortedFound(g: Graph, found: seq<seq<nat>>, groups: seq<seq<nat>>)
    requires (forall group :: group in found ==> IsGroup(g, group)) && ByFirst(groups)
    requires forall group :: group in groups <==> group in found
    ensures Apart(groups)
  {
    forall i, j, n: nat | 0 <= i < j < |groups| && n in groups[i] ensures n !in groups[j] {
      assert First(groups[i]) < First(groups[j]) && groups[i] in groups && groups[j] in groups;
      if n in groups[j] { SharedFirst(g, groups[i], groups[j], n); }
    }
  }

  lemma {:induction false} SharedFirst(g: Graph, one: seq<nat>, other: seq<nat>, n: nat)
    requires IsGroup(g, one) && IsGroup(g, other) && n in one && n in other
    ensures First(one) == First(other)
  {
    assert IsComponent(g, one, n) && IsComponent(g, other, n);
    assert one[0] in one && other[0] in other;
    FirstIsLeast(one, other[0]);
    FirstIsLeast(other, one[0]);
  }

  lemma {:induction false} FirstIsLeast(group: seq<nat>, n: nat)
    requires Ascending(group) && n in group
    ensures group[0] <= n
  {
  }
}
