/** The canonical node list of a function: instructions numbered breadth-first from the entry,
    registers named by first mention.  Two functions have equal lists exactly when renaming
    instructions and registers turns one into the other. */
module Canonical {
  import opened Options
  import opened Sequences
  import opened Worklist

  /** The opcode with its immediates, the register operands in order of mention, and the
      successors in order. */
  datatype Insn = Insn(name: string, regs: seq<nat>, next: seq<int>)

  type Code = map<int, Insn>

  datatype Name = Parameter(i: nat) | Temporary(i: nat)

  datatype Node = Node(name: string, regs: seq<Name>, edges: seq<nat>)

  // ----- what can be reached -----

  ghost predicate IsPath(code: Code, path: seq<int>) {
    |path| > 0 && path[0] == 0 && forall i: nat :: i + 1 < |path| ==> StepsAt(code, path, i)
  }

  ghost predicate StepsAt(code: Code, path: seq<int>, i: nat)
    requires i + 1 < |path|
  {
    path[i] in code && path[i + 1] in code[path[i]].next
  }

  ghost predicate LeadsTo(code: Code, path: seq<int>, pc: int) { IsPath(code, path) && path[|path| - 1] == pc }

  ghost predicate Reachable(code: Code, pc: int) { exists path: seq<int> :: LeadsTo(code, path, pc) }

  lemma {:induction false} ReachNext(code: Code, pc: int, next: int)
    requires Reachable(code, pc) && pc in code && next in code[pc].next
    ensures Reachable(code, next)
  {
    var path: seq<int> :| LeadsTo(code, path, pc);
    var longer := path + [next];
    forall i: nat | i + 1 < |longer|
      ensures StepsAt(code, longer, i)
    {
      if i + 1 < |path| { assert StepsAt(code, path, i); }
    }
    assert LeadsTo(code, longer, next);
  }

  lemma {:induction false} ReachEntry(code: Code)
    ensures Reachable(code, 0)
  {
    assert LeadsTo(code, [0], 0);
  }

  /** Registers exist and successors are instructions. */
  predicate GoodInsn(code: Code, stack: nat, insn: Insn) {
    (forall r :: r in insn.regs ==> r < stack) && forall t :: t in insn.next ==> t in code
  }

  ghost predicate WellCoded(code: Code, stack: nat) {
    forall pc :: Reachable(code, pc) ==>
      pc in code && (forall r :: r in code[pc].regs ==> r < stack) && forall t :: t in code[pc].next ==> t in code
  }

  // ----- first mention -----

  /** Append what is new, in order. */
  function AddAll<T(==)>(s: seq<T>, xs: seq<T>): seq<T> {
    if xs == [] then s
    else
      var before := AddAll(s, xs[..|xs| - 1]);
      if xs[|xs| - 1] in before then before else before + [xs[|xs| - 1]]
  }

  lemma {:induction false} AddAllIs<T>(s: seq<T>, xs: seq<T>)
    requires Unrepeated(s)
    ensures s <= AddAll(s, xs) && Unrepeated(AddAll(s, xs)) && forall x :: x in AddAll(s, xs) <==> x in s || x in xs
  {
    if xs != [] {
      var n := |xs| - 1;
      AddAllIs(s, xs[..n]);
      assert xs == xs[..n] + [xs[n]];
    }
  }

  function Index<T(==)>(s: seq<T>, x: T): (i: nat)
    requires x in s
    ensures i < |s| && s[i] == x
  {
    if s[0] == x then 0 else 1 + Index(s[1..], x)
  }

  lemma {:induction false} IndexIs<T>(s: seq<T>, i: nat)
    requires Unrepeated(s) && i < |s|
    ensures Index(s, s[i]) == i
  {
  }

  function Above(regs: seq<nat>, params: nat): seq<nat> {
    if regs == [] then []
    else Above(regs[..|regs| - 1], params) + if regs[|regs| - 1] >= params then [regs[|regs| - 1]] else []
  }

  lemma {:induction false} AboveHas(regs: seq<nat>, params: nat, r: nat)
    ensures r in Above(regs, params) <==> r in regs && r >= params
  {
    if regs != [] {
      AboveHas(regs[..|regs| - 1], params, r);
      assert regs == regs[..|regs| - 1] + [regs[|regs| - 1]];
    }
  }

  // ----- breadth-first numbering -----

  /** Instructions in order of discovery, temporaries in order of first mention. */
  datatype State = State(order: seq<int>, temps: seq<nat>)

  function Visit(code: Code, params: nat, st: State, k: nat): State
    requires k < |st.order|
  {
    if st.order[k] !in code then st
    else State(AddAll(st.order, code[st.order[k]].next), AddAll(st.temps, Above(code[st.order[k]].regs, params)))
  }

  function StateAt(code: Code, params: nat, n: nat): State {
    if n == 0 then State([0], [])
    else
      var st := StateAt(code, params, n - 1);
      if n - 1 < |st.order| then Visit(code, params, st, n - 1) else st
  }

  ghost predicate GoodState(code: Code, params: nat, st: State, n: nat) {
    && Unrepeated(st.order) && Unrepeated(st.temps) && |st.order| > 0 && st.order[0] == 0
    && (forall pc :: pc in st.order ==> Reachable(code, pc)) && (forall r :: r in st.temps ==> r >= params)
    && forall k: nat :: k < n && k < |st.order| && st.order[k] in code ==> Visited(code, params, st, st.order[k])
  }

  /** Its successors have been discovered and its registers named. */
  ghost predicate Visited(code: Code, params: nat, st: State, pc: int)
    requires pc in code
  {
    (forall t :: t in code[pc].next ==> t in st.order) && forall r :: r in code[pc].regs ==> r < params || r in st.temps
  }

  lemma {:induction false} StatesAreGood(code: Code, params: nat, n: nat)
    ensures GoodState(code, params, StateAt(code, params, n), n)
  {
    hide Reachable, Unrepeated;
    if n == 0 {
      FirstIsGood(code, params);
    } else {
      StatesAreGood(code, params, n - 1);
      var st := StateAt(code, params, n - 1);
      if n - 1 < |st.order| { VisitIsGood(code, params, st, n - 1); }
    }
  }

  lemma {:induction false} FirstIsGood(code: Code, params: nat)
    ensures GoodState(code, params, State([0], []), 0)
  {
    ReachEntry(code);
  }

  lemma {:induction false} VisitIsGood(code: Code, params: nat, st: State, k: nat)
    requires k < |st.order| && GoodState(code, params, st, k)
    ensures var next := Visit(code, params, st, k);
        GoodState(code, params, next, k + 1) && st.order <= next.order && st.temps <= next.temps
  {
    hide Reachable, Unrepeated, AddAll;
    var pc, next := st.order[k], Visit(code, params, st, k);
    if pc in code {
      var insn := code[pc];
      AddAllIs(st.order, insn.next);
      AddAllIs(st.temps, Above(insn.regs, params));
      forall r: nat
        ensures r in Above(insn.regs, params) <==> r in insn.regs && r >= params
      {
        AboveHas(insn.regs, params, r);
      }
      assert pc in st.order;
      forall t | t in next.order ensures Reachable(code, t) { if t !in st.order { ReachNext(code, pc, t); } }
      forall j: nat | j < k + 1 && j < |next.order| && next.order[j] in code
        ensures Visited(code, params, next, next.order[j])
      {
        assert next.order[j] == st.order[j];
        if j < k { assert Visited(code, params, st, st.order[j]); }
      }
    }
  }

  /** Enough steps to have visited everything. */
  ghost predicate Finished(code: Code, params: nat, n: nat) { |StateAt(code, params, n).order| <= n }

  lemma {:induction false} FinishedStays(code: Code, params: nat, n: nat, m: nat)
    requires Finished(code, params, n) && n <= m
    ensures StateAt(code, params, m) == StateAt(code, params, n) && Finished(code, params, m)
    decreases m
  {
    if n < m { FinishedStays(code, params, n, m - 1); }
  }

  lemma {:induction false} FewEnough(order: seq<int>, keys: set<int>)
    requires Unrepeated(order) && forall pc :: pc in order ==> pc in keys
    ensures |order| <= |keys|
  {
    if order != [] {
      var n := |order| - 1;
      var last := order[n];
      assert order == order[..n] + [last] && last in order && last in keys;
      assert keys == (keys - {last}) + {last};
      FewEnough(order[..n], keys - {last});
    }
  }

  lemma {:induction false} WellCodedFinishes(code: Code, stack: nat, params: nat)
    requires WellCoded(code, stack)
    ensures Finished(code, params, |code|)
    ensures forall pc :: pc in StateAt(code, params, |code|).order <==> Reachable(code, pc)
  {
    hide Unrepeated;
    var st := StateAt(code, params, |code|);
    StatesAreGood(code, params, |code|);
    FewEnough(st.order, code.Keys);
    AllFound(code, stack, params, st);
  }

  lemma {:induction false} AllFound(code: Code, stack: nat, params: nat, st: State)
    requires WellCoded(code, stack) && GoodState(code, params, st, |st.order|)
    ensures forall pc :: pc in st.order <==> Reachable(code, pc)
  {
    forall pc | Reachable(code, pc) ensures pc in st.order {
      var path: seq<int> :| LeadsTo(code, path, pc);
      PathFound(code, params, st, path, |path| - 1);
    }
  }

  lemma {:induction false} PathFound(code: Code, params: nat, st: State, path: seq<int>, i: nat)
    requires GoodState(code, params, st, |st.order|) && IsPath(code, path) && i < |path|
    ensures path[i] in st.order
  {
    if i == 0 {
      assert st.order[0] in st.order;
    } else {
      PathFound(code, params, st, path, i - 1);
      assert StepsAt(code, path, i - 1);
      var before, now := path[i - 1], path[i];
      var k: nat :| k < |st.order| && st.order[k] == before;
      assert before in code && Visited(code, params, st, before) && now in code[before].next;
      assert now in st.order;
    }
  }

  // ----- the node list -----

  function NameOf(params: nat, temps: seq<nat>, r: nat): Name {
    if r < params then Parameter(r) else if r in temps then Temporary(Index(temps, r)) else Temporary(|temps|)
  }

  function LabelOf(order: seq<int>, pc: int): nat { if pc in order then Index(order, pc) else |order| }

  function NodeOf(params: nat, st: State, insn: Insn): Node {
    Node(insn.name, seq(|insn.regs|, i requires 0 <= i < |insn.regs| => NameOf(params, st.temps, insn.regs[i])),
         seq(|insn.next|, i requires 0 <= i < |insn.next| => LabelOf(st.order, insn.next[i])))
  }

  function NodeAt(code: Code, params: nat, st: State, k: nat): Node
    requires k < |st.order|
  {
    if st.order[k] in code then NodeOf(params, st, code[st.order[k]]) else Node("", [], [])
  }

  function Nodes(code: Code, params: nat): seq<Node> {
    var st := StateAt(code, params, |code|);
    seq(|st.order|, k requires 0 <= k < |st.order| => NodeAt(code, params, st, k))
  }

  // ----- isomorphism -----

  ghost predicate OneToOne<T(!new), U>(h: map<T, U>) { forall x, y :: x in h && y in h && h[x] == h[y] ==> x == y }

  ghost predicate Within<T(!new), U>(s: seq<T>, h: map<T, U>) { forall x :: x in s ==> x in h }

  /** From what the one function reaches onto what the other reaches, from entry to entry. */
  ghost predicate Onto(one: Code, other: Code, f: map<int, int>) {
    && (forall pc :: pc in f <==> Reachable(one, pc)) && 0 in f && f[0] == 0
    && forall qc :: Reachable(other, qc) ==> exists pc :: pc in f && f[pc] == qc
  }

  ghost predicate FixesParameters(params: nat, rho: map<nat, nat>) {
    forall r :: r in rho ==> if r < params then rho[r] == r else rho[r] >= params
  }

  ghost predicate MatchesAt(one: Code, other: Code, f: map<int, int>, rho: map<nat, nat>, pc: int)
    requires pc in f
  {
    pc in one && f[pc] in other && Matches(f, rho, one[pc], other[f[pc]])
  }

  /** A renaming of instructions and registers: one-to-one on what can be reached, from entry to
      entry, keeping opcodes, operand order and successor order, and fixing the parameters. */
  ghost predicate Isomorphic(one: Code, other: Code, params: nat, f: map<int, int>, rho: map<nat, nat>) {
    && OneToOne(f) && OneToOne(rho) && FixesParameters(params, rho) && Onto(one, other, f)
    && forall pc :: pc in f ==> MatchesAt(one, other, f, rho, pc)
  }

  ghost predicate Matches(f: map<int, int>, rho: map<nat, nat>, a: Insn, b: Insn) {
    && a.name == b.name && |a.regs| == |b.regs| && |a.next| == |b.next|
    && (forall i :: 0 <= i < |a.regs| ==> a.regs[i] in rho && b.regs[i] == rho[a.regs[i]])
    && forall i :: 0 <= i < |a.next| ==> a.next[i] in f && b.next[i] == f[a.next[i]]
  }

  ghost function Image<T(!new), U>(h: map<T, U>, s: seq<T>): seq<U>
    requires Within(s, h)
  {
    seq(|s|, i requires 0 <= i < |s| => h[s[i]])
  }

  /** First mention does not notice a one-to-one renaming. */
  lemma {:induction false} AddAllImage<T(!new), U>(h: map<T, U>, s: seq<T>, xs: seq<T>)
    requires OneToOne(h) && Within(s, h) && Within(xs, h)
    ensures Within(AddAll(s, xs), h) && AddAll(Image(h, s), Image(h, xs)) == Image(h, AddAll(s, xs))
  {
    if xs != [] {
      var n := |xs| - 1;
      AddAllImage(h, s, xs[..n]);
      assert Image(h, xs)[..n] == Image(h, xs[..n]);
      var before := AddAll(s, xs[..n]);
      ImageHas(h, before, xs[n]);
    }
  }

  lemma {:induction false} ImageHas<T(!new), U>(h: map<T, U>, s: seq<T>, x: T)
    requires OneToOne(h) && x in h && Within(s, h)
    ensures h[x] in Image(h, s) <==> x in s
  {
    if x in s { var i :| 0 <= i < |s| && s[i] == x; assert Image(h, s)[i] == h[x]; }
  }

  lemma {:induction false} AboveImage(params: nat, rho: map<nat, nat>, regs: seq<nat>)
    requires Within(regs, rho) && FixesParameters(params, rho)
    ensures Within(Above(regs, params), rho) && Above(Image(rho, regs), params) == Image(rho, Above(regs, params))
  {
    if regs != [] {
      var n := |regs| - 1;
      AboveImage(params, rho, regs[..n]);
      assert Image(rho, regs)[..n] == Image(rho, regs[..n]);
    }
  }

  ghost predicate Mirrors(f: map<int, int>, rho: map<nat, nat>, a: State, b: State) {
    && Within(a.order, f) && Within(a.temps, rho)
    && b.order == Image(f, a.order) && b.temps == Image(rho, a.temps)
  }

  /** The two numberings go in step. */
  lemma {:induction false} StatesMirror(one: Code, other: Code, params: nat, f: map<int, int>, rho: map<nat, nat>,
      n: nat)
    requires Isomorphic(one, other, params, f, rho)
    ensures Mirrors(f, rho, StateAt(one, params, n), StateAt(other, params, n))
  {
    hide Isomorphic, Visit;
    if n == 0 {
      EntryMirrors(one, other, params, f, rho);
    } else {
      StatesMirror(one, other, params, f, rho, n - 1);
      var a, b := StateAt(one, params, n - 1), StateAt(other, params, n - 1);
      if n - 1 < |a.order| { VisitMirrors(one, other, params, f, rho, a, b, n - 1); }
    }
  }

  lemma {:induction false} EntryMirrors(one: Code, other: Code, params: nat, f: map<int, int>, rho: map<nat, nat>)
    requires Isomorphic(one, other, params, f, rho)
    ensures Mirrors(f, rho, State([0], []), State([0], []))
  {
    hide Reachable;
  }

  lemma {:induction false} VisitMirrors(one: Code, other: Code, params: nat, f: map<int, int>, rho: map<nat, nat>,
      a: State, b: State, k: nat)
    requires Isomorphic(one, other, params, f, rho) && Mirrors(f, rho, a, b) && k < |a.order|
    ensures Mirrors(f, rho, Visit(one, params, a, k), Visit(other, params, b, k))
  {
    hide Reachable, AddAll;
    var pc := a.order[k];
    assert pc in a.order;
    assert MatchesAt(one, other, f, rho, pc);
    var x, y := one[pc], other[f[pc]];
    assert y.next == Image(f, x.next) && y.regs == Image(rho, x.regs);
    AddAllImage(f, a.order, x.next);
    AboveImage(params, rho, x.regs);
    AddAllImage(rho, a.temps, Above(x.regs, params));
  }

  lemma {:induction false} IndexImage<T(!new), U>(h: map<T, U>, s: seq<T>, x: T)
    requires OneToOne(h) && Within(s, h) && x in s && Unrepeated(s)
    ensures h[x] in Image(h, s) && Index(Image(h, s), h[x]) == Index(s, x)
  {
    var i := Index(s, x);
    var image := Image(h, s);
    assert image[i] == h[x];
    forall j, k | 0 <= j < k < |image| ensures image[j] != image[k] { assert s[j] in s && s[k] in s; }
    IndexIs(image, i);
  }

  lemma {:induction false} NameMirrors(params: nat, rho: map<nat, nat>, temps: seq<nat>, r: nat)
    requires OneToOne(rho) && Within(temps, rho) && Unrepeated(temps) && r in rho && FixesParameters(params, rho)
    ensures NameOf(params, Image(rho, temps), rho[r]) == NameOf(params, temps, r)
  {
    ImageHas(rho, temps, r);
    if r in temps { IndexImage(rho, temps, r); }
  }

  lemma {:induction false} LabelMirrors(f: map<int, int>, order: seq<int>, pc: int)
    requires OneToOne(f) && Within(order, f) && Unrepeated(order) && pc in f
    ensures LabelOf(Image(f, order), f[pc]) == LabelOf(order, pc)
  {
    ImageHas(f, order, pc);
    if pc in order { IndexImage(f, order, pc); }
  }

  lemma {:induction false} NodeMirrors(params: nat, f: map<int, int>, rho: map<nat, nat>, a: State, b: State, x: Insn,
      y: Insn)
    requires OneToOne(f) && OneToOne(rho) && Mirrors(f, rho, a, b) && Matches(f, rho, x, y) && Unrepeated(a.order)
    requires Unrepeated(a.temps)
    requires FixesParameters(params, rho)
    ensures NodeOf(params, a, x) == NodeOf(params, b, y)
  {
    hide Unrepeated, Image, OneToOne;
    forall i | 0 <= i < |x.regs| ensures NameOf(params, a.temps, x.regs[i]) == NameOf(params, b.temps, y.regs[i]) {
      NameMirrors(params, rho, a.temps, x.regs[i]);
    }
    forall i | 0 <= i < |x.next| ensures LabelOf(a.order, x.next[i]) == LabelOf(b.order, y.next[i]) {
      LabelMirrors(f, a.order, x.next[i]);
    }
  }

  /** Functions that differ by a renaming have the same canonical nodes. */
  lemma {:induction false} IsomorphicSameNodes(one: Code, other: Code, stack: nat, stack': nat, params: nat,
      f: map<int, int>, rho: map<nat, nat>)
    requires WellCoded(one, stack) && WellCoded(other, stack') && Isomorphic(one, other, params, f, rho)
    ensures Nodes(one, params) == Nodes(other, params)
  {
    hide WellCoded, Unrepeated, Reachable, Matches, NodeOf;
    WellCodedFinishes(one, stack, params);
    WellCodedFinishes(other, stack', params);
    var most := if |one| < |other| then |other| else |one|;
    FinishedStays(one, params, |one|, most);
    FinishedStays(other, params, |other|, most);
    StatesMirror(one, other, params, f, rho, most);
    StatesAreGood(one, params, most);
    var a, b := StateAt(one, params, most), StateAt(other, params, most);
    forall k | 0 <= k < |a.order| ensures NodeAt(one, params, a, k) == NodeAt(other, params, b, k) {
      assert a.order[k] in a.order && MatchesAt(one, other, f, rho, a.order[k]);
      NodeMirrors(params, f, rho, a, b, one[a.order[k]], other[f[a.order[k]]]);
    }
  }

  // ----- from equal nodes to a renaming -----

  /** Instructions correspond by their place in the list. */
  function ByPlace(a: State, b: State): map<int, int>
    requires |a.order| == |b.order|
  {
    map pc | pc in a.order :: b.order[Index(a.order, pc)]
  }

  predicate HasPartner(params: nat, a: State, b: State, r: nat) {
    r < params || (r in a.temps && Index(a.temps, r) < |b.temps|)
  }

  function Partner(params: nat, a: State, b: State, r: nat): nat
    requires HasPartner(params, a, b, r)
  {
    if r < params then r else b.temps[Index(a.temps, r)]
  }

  /** Parameters are fixed; temporaries correspond by order of first mention. */
  function ByMention(params: nat, a: State, b: State): map<nat, nat> {
    map r | r in UpTo(params) + (set t | t in a.temps) && HasPartner(params, a, b, r) :: Partner(params, a, b, r)
  }

  lemma {:induction false} MentionIs(params: nat, a: State, b: State, r: nat)
    ensures r in ByMention(params, a, b) <==> HasPartner(params, a, b, r)
    ensures HasPartner(params, a, b, r) ==> ByMention(params, a, b)[r] == Partner(params, a, b, r)
  {
    if r < params { assert r in UpTo(params); }
  }

  lemma {:induction false} ByPlaceOneToOne(a: State, b: State)
    requires |a.order| == |b.order| && Unrepeated(b.order)
    ensures OneToOne(ByPlace(a, b))
  {
    var f := ByPlace(a, b);
    forall x, y | x in f && y in f && f[x] == f[y] ensures x == y {
      IndexIs(b.order, Index(a.order, x));
      IndexIs(b.order, Index(a.order, y));
      assert a.order[Index(a.order, x)] == x;
    }
  }

  lemma {:induction false} ByMentionFits(params: nat, a: State, b: State)
    requires Unrepeated(b.temps) && (forall r :: r in a.temps ==> r >= params)
    requires forall r :: r in b.temps ==> r >= params
    ensures OneToOne(ByMention(params, a, b)) && FixesParameters(params, ByMention(params, a, b))
  {
    hide ByMention;
    var rho := ByMention(params, a, b);
    forall r: nat ensures r in rho <==> HasPartner(params, a, b, r) { MentionIs(params, a, b, r); }
    forall r: nat | r in rho
      ensures (r < params ==> rho[r] == r)
      ensures (r >= params ==> rho[r] == b.temps[Index(a.temps, r)] && rho[r] in b.temps)
    {
      MentionIs(params, a, b, r);
    }
    forall x: nat, y: nat | x in rho && y in rho && rho[x] == rho[y] ensures x == y {
      if x >= params && y >= params {
        assert HasPartner(params, a, b, x) && HasPartner(params, a, b, y);
        var i, j := Index(a.temps, x), Index(a.temps, y);
        assert i < |b.temps| && j < |b.temps| && b.temps[i] == b.temps[j];
        IndexIs(b.temps, i);
        IndexIs(b.temps, j);
        assert a.temps[i] == x && a.temps[j] == y;
      }
    }
  }

  /** Registers with the same name correspond. */
  lemma {:induction false} SameNameCorresponds(params: nat, a: State, b: State, r: nat, s: nat)
    requires (r < params || r in a.temps) && (s < params || s in b.temps)
    requires NameOf(params, a.temps, r) == NameOf(params, b.temps, s)
    ensures r in ByMention(params, a, b) && ByMention(params, a, b)[r] == s
  {
    MentionIs(params, a, b, r);
    if r >= params { assert b.temps[Index(b.temps, s)] == s; }
  }

  lemma {:induction false} SameLabelCorresponds(a: State, b: State, t: int, u: int)
    requires |a.order| == |b.order| && t in a.order && u in b.order && LabelOf(a.order, t) == LabelOf(b.order, u)
    ensures t in ByPlace(a, b) && ByPlace(a, b)[t] == u
  {
    assert b.order[Index(b.order, u)] == u;
  }

  lemma {:induction false} SameNodeMatches(params: nat, one: Code, other: Code, a: State, b: State, pc: int, qc: int)
    requires |a.order| == |b.order| && pc in one && qc in other && Visited(one, params, a, pc)
    requires Visited(other, params, b, qc)
    requires NodeOf(params, a, one[pc]) == NodeOf(params, b, other[qc])
    ensures Matches(ByPlace(a, b), ByMention(params, a, b), one[pc], other[qc])
  {
    hide ByPlace, ByMention, NameOf, LabelOf;
    var x, y := one[pc], other[qc];
    var m, n := NodeOf(params, a, x), NodeOf(params, b, y);
    assert |x.regs| == |m.regs| == |n.regs| == |y.regs| && |x.next| == |m.edges| == |n.edges| == |y.next|;
    forall i | 0 <= i < |x.regs|
      ensures x.regs[i] in ByMention(params, a, b) && y.regs[i] == ByMention(params, a, b)[x.regs[i]]
    {
      assert x.regs[i] in x.regs && y.regs[i] in y.regs && m.regs[i] == n.regs[i];
      SameNameCorresponds(params, a, b, x.regs[i], y.regs[i]);
    }
    forall i | 0 <= i < |x.next| ensures x.next[i] in ByPlace(a, b) && y.next[i] == ByPlace(a, b)[x.next[i]] {
      var t, u := x.next[i], y.next[i];
      assert t in x.next && u in y.next && m.edges[i] == n.edges[i];
      SameLabelCorresponds(a, b, t, u);
    }
  }

  lemma {:induction false} ByPlaceOnto(one: Code, other: Code, a: State, b: State)
    requires |a.order| == |b.order| > 0 && a.order[0] == 0 == b.order[0] && Unrepeated(a.order)
    requires (forall pc :: pc in a.order <==> Reachable(one, pc))
    requires forall qc :: qc in b.order <==> Reachable(other, qc)
    ensures Onto(one, other, ByPlace(a, b))
  {
    var f := ByPlace(a, b);
    forall qc | Reachable(other, qc) ensures exists pc :: pc in f && f[pc] == qc {
      var k := Index(b.order, qc);
      var pc := a.order[k];
      IndexIs(a.order, k);
      assert pc in a.order && f[pc] == qc;
    }
    var entry := a.order[0];
    IndexIs(a.order, 0);
    assert entry in a.order;
  }

  /** Functions with the same canonical nodes differ by a renaming only. */
  lemma {:induction false} SameNodesIsomorphic(one: Code, other: Code, stack: nat, stack': nat, params: nat)
    returns (f: map<int, int>, rho: map<nat, nat>)
    requires WellCoded(one, stack) && WellCoded(other, stack') && Nodes(one, params) == Nodes(other, params)
    ensures Isomorphic(one, other, params, f, rho)
  {
    hide Unrepeated, Reachable, Matches, NodeOf, ByPlace, ByMention, OneToOne, FixesParameters, Onto;
    var a, b := StateAt(one, params, |one|), StateAt(other, params, |other|);
    WellCodedFinishes(one, stack, params);
    WellCodedFinishes(other, stack', params);
    StatesAreGood(one, params, |one|);
    StatesAreGood(other, params, |other|);
    assert |a.order| == |Nodes(one, params)| == |b.order|;
    f, rho := ByPlace(a, b), ByMention(params, a, b);
    ByPlaceOneToOne(a, b);
    ByMentionFits(params, a, b);
    ByPlaceOnto(one, other, a, b);
    forall pc | pc in f
      ensures MatchesAt(one, other, f, rho, pc)
    {
      PlaceMatches(one, other, stack, stack', params, a, b, pc);
    }
  }

  lemma {:induction false} PlaceMatches(one: Code, other: Code, stack: nat, stack': nat, params: nat, a: State,
      b: State, pc: int)
    requires WellCoded(one, stack) && WellCoded(other, stack') && Nodes(one, params) == Nodes(other, params)
    requires a == StateAt(one, params, |one|) && b == StateAt(other, params, |other|) && |a.order| == |b.order|
    requires GoodState(one, params, a, |a.order|) && GoodState(other, params, b, |b.order|) && pc in ByPlace(a, b)
    ensures MatchesAt(one, other, ByPlace(a, b), ByMention(params, a, b), pc)
  {
    hide Unrepeated, Reachable, Matches, NodeOf, ByMention;
    var k := Index(a.order, pc);
    var qc := b.order[k];
    assert pc in a.order && a.order[k] == pc && qc in b.order && ByPlace(a, b)[pc] == qc;
    assert Reachable(one, pc) && Reachable(other, qc);
    assert Nodes(one, params)[k] == NodeAt(one, params, a, k) && Nodes(other, params)[k] == NodeAt(other, params, b, k);
    assert Visited(one, params, a, a.order[k]) && Visited(other, params, b, b.order[k]);
    SameNodeMatches(params, one, other, a, b, pc, qc);
  }

  /** Equal canonical forms: exactly the functions that a renaming turns into each other. */
  lemma {:induction false} SameNodesIff(one: Code, other: Code, stack: nat, stack': nat, params: nat)
    requires WellCoded(one, stack) && WellCoded(other, stack')
    ensures Nodes(one, params) == Nodes(other, params) <==>
        exists f: map<int, int>, rho: map<nat, nat> :: Isomorphic(one, other, params, f, rho)
  {
    hide WellCoded, Isomorphic, Nodes;
    if Nodes(one, params) == Nodes(other, params) {
      var f, rho := SameNodesIsomorphic(one, other, stack, stack', params);
    }
    if f: map<int, int>, rho: map<nat, nat> :| Isomorphic(one, other, params, f, rho) {
      IsomorphicSameNodes(one, other, stack, stack', params, f, rho);
    }
  }

  // ----- the algorithm -----

  /** Numbers by order of appearance. */
  ghost predicate Numbers<T(!new)>(s: seq<T>, numbers: map<T, nat>) {
    Unrepeated(s) && (forall x :: x in numbers <==> x in s) && forall x :: x in s ==> numbers[x] == Index(s, x)
  }

  lemma {:induction false} IndexStays<T>(s: seq<T>, longer: seq<T>, x: T)
    requires s <= longer && Unrepeated(longer) && x in s
    ensures x in longer && Index(longer, x) == Index(s, x)
  {
    assert longer[Index(s, x)] == x;
    IndexIs(longer, Index(s, x));
  }

  lemma {:induction false} NumbersMore<T(!new)>(s: seq<T>, numbers: map<T, nat>, x: T)
    requires Numbers(s, numbers) && x !in s
    ensures Numbers(s + [x], numbers[x := |s|])
  {
    var more := s + [x];
    IndexIs(more, |s|);
    forall y | y in more ensures numbers[x := |s|][y] == Index(more, y) { if y in s { IndexStays(s, more, y); } }
  }

  /** The number of a thing, a new one on first sight. */
  method NumberOf<T(==,
      !new)>(s: seq<T>, numbers: map<T, nat>, x: T) returns (n: nat, s': seq<T>, numbers': map<T, nat>)
    requires Numbers(s, numbers)
    ensures Numbers(s', numbers') && s' == AddAll(s, [x]) && s <= s' && x in s' && n == Index(s', x)
  {
    assert AddAll(s, [x]) == if x in s then s else s + [x] by { assert [x][..0] == []; }
    if x in numbers { return numbers[x], s, numbers; }
    NumbersMore(s, numbers, x);
    n, s', numbers' := |s|, s + [x], numbers[x := |s|];
    IndexIs(s', n);
  }

  lemma {:induction false} AddOneMore<T>(s: seq<T>, xs: seq<T>, i: nat)
    requires i < |xs|
    ensures AddAll(s, xs[..i + 1]) == AddAll(AddAll(s, xs[..i]), [xs[i]])
  {
    assert xs[..i + 1][..i] == xs[..i] && [xs[i]][..0] == [];
  }

  lemma {:induction false} AboveOneMore(regs: seq<nat>, params: nat, i: nat)
    requires i < |regs|
    ensures Above(regs[..i + 1], params) == Above(regs[..i], params) + if regs[i] >= params then [regs[i]] else []
  {
    assert regs[..i + 1][..i] == regs[..i];
  }

  lemma {:induction false} NoneAdded<T>(s: seq<T>, xs: seq<T>)
    ensures xs[..0] == [] && AddAll(s, []) == s
  {
  }

  lemma {:induction false} NoneAbove(params: nat)
    ensures Above([], params) == []
  {
  }

  lemma {:induction false} AddNext<T>(s: seq<T>, xs: seq<T>, x: T)
    ensures AddAll(s, xs + [x]) == AddAll(AddAll(s, xs), [x])
  {
    assert (xs + [x])[..|xs|] == xs && [x][..0] == [];
  }

  /** The names of an instruction's registers, or nothing if one is outside the frame. */
  method NameRegisters(params: nat, stack: nat, temps: seq<nat>, registers: map<nat, nat>, regs: seq<nat>)
    returns (good: bool, names: seq<Name>, temps': seq<nat>, registers': map<nat, nat>)
    requires Numbers(temps, registers)
    ensures good <==> forall r :: r in regs ==> r < stack
    ensures good ==>
        Numbers(temps', registers') && temps' == AddAll<nat>(temps, Above(regs, params)) && temps <= temps' &&
          |names| == |regs|
    ensures good ==> forall i :: 0 <= i < |regs| ==> names[i] == NameOf(params, temps', regs[i])
  {
    hide Numbers, NameOf, AddAll, Above;
    NoneAdded(temps, regs);
    assert regs[..0] == [] && Above([], params) == [] by { NoneAbove(params); }
    names, temps', registers' := [], temps, registers;
    for i := 0 to |regs|
      invariant (forall j :: 0 <= j < i ==> regs[j] < stack) && |names| == i
      invariant Numbers(temps', registers') && temps' == AddAll(temps, Above(regs[..i], params)) && temps <= temps'
      invariant forall j ::
          0 <= j < i ==> names[j] == NameOf(params, temps', regs[j]) && (regs[j] < params || regs[j] in temps')
    {
      var r: nat := regs[i];
      if r >= stack { assert r in regs; return false, [], temps, registers; }
      AboveOneMore(regs, params, i);
      assert Above(regs[..i], params) + [] == Above(regs[..i], params);
      if r < params {
        names := names + [Parameter(r)];
        NamesParameter(params, temps', r);
      } else {
        ghost var before := temps';
        var n, more, numbers := NumberOf<nat>(temps', registers', r);
        AddNext(temps, Above(regs[..i], params), r);
        temps', registers' := more, numbers;
        names := names + [Temporary(n)];
        NamesTemporary(params, temps', r);
        forall j | 0 <= j < i
          ensures names[j] == NameOf(params, temps', regs[j]) && (regs[j] < params || regs[j] in temps')
        {
          NameStays(params, before, temps', registers', regs[j]);
        }
      }
    }
    assert regs[..|regs|] == regs;
    good := true;
  }

  lemma {:induction false} NamesParameter(params: nat, temps: seq<nat>, r: nat)
    requires r < params
    ensures NameOf(params, temps, r) == Parameter(r)
  {
  }

  lemma {:induction false} NamesTemporary(params: nat, temps: seq<nat>, r: nat)
    requires r >= params && r in temps
    ensures NameOf(params, temps, r) == Temporary(Index(temps, r))
  {
  }

  lemma {:induction false} NameStays(params: nat, temps: seq<nat>, longer: seq<nat>, numbers: map<nat, nat>, r: nat)
    requires temps <= longer && Numbers(longer, numbers) && (r < params || r in temps)
    ensures NameOf(params, longer, r) == NameOf(params, temps, r) && (r < params || r in longer)
  {
    if r in temps { IndexStays(temps, longer, r); }
  }

  /** The labels of an instruction's successors, or nothing if one is no instruction. */
  method LabelSuccessors(code: Code, order: seq<int>, labels: map<int, nat>, next: seq<int>)
    returns (good: bool, edges: seq<nat>, order': seq<int>, labels': map<int, nat>)
    requires Numbers(order, labels)
    ensures good <==> forall t :: t in next ==> t in code
    ensures good ==> Numbers(order', labels') && order' == AddAll(order, next) && order <= order' && |edges| == |next|
    ensures good ==> forall i :: 0 <= i < |next| ==> next[i] in order' && edges[i] == Index(order', next[i])
  {
    hide Numbers, AddAll, Index;
    NoneAdded(order, next);
    edges, order', labels' := [], order, labels;
    for i := 0 to |next|
      invariant (forall j :: 0 <= j < i ==> next[j] in code) && |edges| == i
      invariant Numbers(order', labels') && order' == AddAll(order, next[..i]) && order <= order'
      invariant forall j :: 0 <= j < i ==> next[j] in order' && edges[j] == Index(order', next[j])
    {
      var t := next[i];
      if t !in code { assert t in next; return false, [], order, labels; }
      ghost var before := order';
      var n, more, numbers := NumberOf<int>(order', labels', t);
      AddOneMore(order, next, i);
      order', labels' := more, numbers;
      edges := edges + [n];
      forall j | 0 <= j < i ensures next[j] in order' && edges[j] == Index(order', next[j]) {
        LabelStays(before, order', labels', next[j]);
      }
    }
    assert next[..|next|] == next;
    forall t | t in next ensures t in code { var i :| 0 <= i < |next| && next[i] == t; }
    good := true;
  }

  lemma {:induction false} LabelStays(order: seq<int>, longer: seq<int>, labels: map<int, nat>, t: int)
    requires order <= longer && Numbers(longer, labels) && t in order
    ensures t in longer && Index(longer, t) == Index(order, t)
  {
    IndexStays(order, longer, t);
  }

  lemma {:induction false} NodeStays(code: Code, params: nat, st: State, longer: State, k: nat)
    requires st.order <= longer.order && st.temps <= longer.temps && Unrepeated(longer.order)
    requires Unrepeated(longer.temps)
    requires k < |st.order| && st.order[k] in code && Visited(code, params, st, st.order[k])
    ensures NodeAt(code, params, longer, k) == NodeAt(code, params, st, k)
  {
    var insn := code[st.order[k]];
    forall r | r in insn.regs ensures NameOf(params, longer.temps, r) == NameOf(params, st.temps, r) {
      if r in st.temps { IndexStays(st.temps, longer.temps, r); }
    }
    forall t | t in insn.next
      ensures LabelOf(longer.order, t) == LabelOf(st.order, t)
    {
      IndexStays(st.order, longer.order, t);
    }
    var x, y := NodeOf(params, longer, insn), NodeOf(params, st, insn);
    assert forall i :: 0 <= i < |insn.regs| ==> insn.regs[i] in insn.regs && x.regs[i] == y.regs[i];
    forall i | 0 <= i < |insn.next| ensures x.edges[i] == y.edges[i] { var t := insn.next[i]; assert t in insn.next; }
  }

  /** What has been done when `k` instructions have been visited. */
  ghost predicate Underway(code: Code, params: nat, stack: nat, st: State, k: nat, nodes: seq<Node>) {
    && st == StateAt(code, params, k) && k <= |st.order| && |nodes| == k && (forall t :: t in st.order ==> t in code)
    && (forall j :: 0 <= j < k ==> st.order[j] in code && GoodInsn(code, stack, code[st.order[j]]))
    && forall j :: 0 <= j < k ==> nodes[j] == NodeAt(code, params, st, j)
  }

  lemma {:induction false} OneVisited(code: Code, params: nat, stack: nat, st: State, k: nat, nodes: seq<Node>,
      names: seq<Name>, edges: seq<nat>, next: State)
    requires Underway(code, params, stack, st, k, nodes) && k < |st.order| && st.order[k] in code
    requires var insn := code[st.order[k]];
             && GoodInsn(code, stack, insn) &&
               next == State(AddAll(st.order, insn.next), AddAll(st.temps, Above(insn.regs, params)))
             && |names| == |insn.regs| &&
               (forall i :: 0 <= i < |insn.regs| ==> names[i] == NameOf(params, next.temps, insn.regs[i]))
             && |edges| == |insn.next| && forall i ::
               0 <= i < |insn.next| ==> insn.next[i] in next.order && edges[i] == Index(next.order, insn.next[i])
    ensures Underway(code, params, stack, next, k + 1, nodes + [Node(code[st.order[k]].name, names, edges)])
  {
    hide Reachable, AddAll, NameOf;
    var pc := st.order[k];
    var insn := code[pc];
    StatesAreGood(code, params, k);
    StatesAreGood(code, params, k + 1);
    VisitIsGood(code, params, st, k);
    assert next == StateAt(code, params, k + 1);
    AddAllIs(st.order, insn.next);
    forall t | t in next.order ensures t in code { assert t in st.order || t in insn.next; }
    var more := nodes + [Node(insn.name, names, edges)];
    forall j | 0 <= j < k + 1
      ensures next.order[j] in code && GoodInsn(code, stack, code[next.order[j]])
      ensures more[j] == NodeAt(code, params, next, j)
    {
      assert next.order[j] == st.order[j];
      if j < k { NodeStays(code, params, st, next, j); } else { NewNode(code, params, next, k, names, edges); }
    }
  }

  lemma {:induction false} NewNode(code: Code, params: nat, st: State, k: nat, names: seq<Name>, edges: seq<nat>)
    requires k < |st.order| && st.order[k] in code
    requires var insn := code[st.order[k]];
             && |names| == |insn.regs| &&
               (forall i :: 0 <= i < |insn.regs| ==> names[i] == NameOf(params, st.temps, insn.regs[i]))
             && |edges| == |insn.next| && forall i ::
               0 <= i < |insn.next| ==> insn.next[i] in st.order && edges[i] == Index(st.order, insn.next[i])
    ensures NodeAt(code, params, st, k) == Node(code[st.order[k]].name, names, edges)
  {
    hide NameOf;
    var insn := code[st.order[k]];
    var node := NodeOf(params, st, insn);
    assert node.regs == names;
    forall i | 0 <= i < |edges| ensures node.edges[i] == edges[i] { var t := insn.next[i]; assert t in st.order; }
    assert node.edges == edges;
  }

  /** Not more than there are instructions. */
  lemma {:induction false} FewVisited(code: Code, params: nat, stack: nat, st: State, k: nat, nodes: seq<Node>)
    requires Underway(code, params, stack, st, k, nodes)
    ensures |st.order| <= |code| && Unrepeated(st.order) && Unrepeated(st.temps)
    ensures forall t :: t in st.order ==> Reachable(code, t)
  {
    StatesAreGood(code, params, k);
    FewEnough(st.order, code.Keys);
  }

  lemma {:induction false} AllVisited(code: Code, params: nat, stack: nat, st: State, k: nat, nodes: seq<Node>)
    requires Underway(code, params, stack, st, k, nodes) && k == |st.order|
    ensures WellCoded(code, stack) && nodes == Nodes(code, params)
  {
    StatesAreGood(code, params, k);
    FewVisited(code, params, stack, st, k, nodes);
    FinishedStays(code, params, k, |code|);
    forall pc | Reachable(code, pc) ensures pc in code && GoodInsn(code, stack, code[pc]) {
      var path: seq<int> :| LeadsTo(code, path, pc);
      PathFound(code, params, st, path, |path| - 1);
      var j :| 0 <= j < |st.order| && st.order[j] == pc;
    }
  }

  /** The canonical nodes, or nothing if control can reach what is no instruction of the frame. */
  method CanonicalNodes(code: Code, params: nat, stack: nat) returns (nodes: Option<seq<Node>>)
    ensures nodes == if WellCoded(code, stack) then Some(Nodes(code, params)) else None
  {
    hide Reachable, Nodes, GoodInsn, Underway, Numbers;
    ReachEntry(code);
    if 0 !in code { return None; }
    var order: seq<int>, labels: map<int, nat>, temps: seq<nat>, registers: map<nat, nat> := [0], map[0 := 0], [],
      map[];
    var found: seq<Node>, k := [], 0;
    Entered(code, params, stack);
    while k < |order|
      invariant 0 <= k <= |order| && Underway(code, params, stack, State(order, temps), k, found)
      invariant Numbers(order, labels) && Numbers(temps, registers)
      decreases |code| - k
    {
      FewVisited(code, params, stack, State(order, temps), k, found);
      var pc := order[k];
      assert pc in order;
      UnderwayIn(code, params, stack, State(order, temps), k, found, pc);
      var insn := code[pc];
      var named, names, temps', registers' := NameRegisters(params, stack, temps, registers, insn.regs);
      if !named { BadInsn(code, stack, pc); return None; }
      var labelled, edges, order', labels' := LabelSuccessors(code, order, labels, insn.next);
      if !labelled { BadInsn(code, stack, pc); return None; }
      GoodNow(code, stack, insn);
      OneVisited(code, params, stack, State(order, temps), k, found, names, edges, State(order', temps'));
      found := found + [Node(insn.name, names, edges)];
      order, labels, temps, registers, k := order', labels', temps', registers', k + 1;
    }
    AllVisited(code, params, stack, State(order, temps), k, found);
    nodes := Some(found);
  }

  lemma {:induction false} Entered(code: Code, params: nat, stack: nat)
    requires 0 in code
    ensures Underway(code, params, stack, State([0], []), 0, []) && Numbers([0], map[0 := 0]) && Numbers<nat>([], map[])
  {
  }

  lemma {:induction false} UnderwayIn(code: Code, params: nat, stack: nat, st: State, k: nat, nodes: seq<Node>, pc: int)
    requires Underway(code, params, stack, st, k, nodes) && pc in st.order
    ensures pc in code
  {
  }

  lemma {:induction false} BadInsn(code: Code, stack: nat, pc: int)
    requires pc in code && Reachable(code, pc)
    requires (exists r :: r in code[pc].regs && r >= stack) || exists t :: t in code[pc].next && t !in code
    ensures !WellCoded(code, stack)
  {
  }

  lemma {:induction false} GoodNow(code: Code, stack: nat, insn: Insn)
    requires (forall r :: r in insn.regs ==> r < stack) && forall t :: t in insn.next ==> t in code
    ensures GoodInsn(code, stack, insn)
  {
  }
}
