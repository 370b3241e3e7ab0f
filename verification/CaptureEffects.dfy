/** Checking a certificate that some upvalue slots never change once a closure exists: every
    constructor edge is read from the bytecode, writes are carried back to every ancestor, and
    no slot may justify itself. */
module CaptureEffects {

  datatype Insn = SetUpvalue(slot: nat) | Make(child: int) | Capture(mode: int, source: nat) | Other

  datatype Located = At(pc: int, insn: Insn)

  datatype Proto = Proto(insns: seq<Located>, upvalues: nat, stack: nat)

  datatype Chunk = Chunk(protos: seq<Proto>, main: nat)

  /** One upvalue slot of one prototype. */
  type Slot = (int, int)

  /** Where a constructor takes a slot from. */
  datatype Source = Copy | Ref | Up(parent: Slot)

  // ----- the constructors in the bytecode -----

  predicate IsSlot(chunk: Chunk, n: Slot) { 0 <= n.0 < |chunk.protos| && 0 <= n.1 < chunk.protos[n.0].upvalues }

  function SourceOf(p: int, capture: Insn): Source
    requires capture.Capture?
  {
    if capture.mode == 0 then Copy else if capture.mode == 1 then Ref else Up((p, capture.source))
  }

  /** A capture that the constructor at index `at` of prototype `p` may have. */
  predicate GoodCapture(chunk: Chunk, p: nat, at: nat, ordinal: nat)
    requires p < |chunk.protos| && at < |chunk.protos[p].insns|
  {
    var insns := chunk.protos[p].insns;
    && at + ordinal + 1 < |insns| && insns[at + ordinal + 1].pc == insns[at].pc + ordinal + 1
    && insns[at + ordinal + 1].insn.Capture?
    && var capture := insns[at + ordinal + 1].insn;
       if capture.mode == 0 || capture.mode == 1 then capture.source < chunk.protos[p].stack
       else capture.mode == 2 && IsSlot(chunk, (p, capture.source))
  }

  predicate GoodConstructor(chunk: Chunk, p: nat, at: nat, child: int)
    requires p < |chunk.protos| && at < |chunk.protos[p].insns|
  {
    0 <= child < |chunk.protos| && forall ordinal: nat ::
      ordinal < chunk.protos[child].upvalues ==> GoodCapture(chunk, p, at, ordinal)
  }

  // The same three notions as the certificate's meaning uses them, apart from the code's tests.

  ghost predicate RealSlot(chunk: Chunk, n: Slot) {
    0 <= n.0 && n.0 < |chunk.protos| && 0 <= n.1 && n.1 < chunk.protos[n.0].upvalues
  }

  /** By value, by reference, or on from a slot of the constructing prototype. */
  ghost predicate Stands(p: int, capture: Insn, source: Source) {
    match capture
    case Capture(0, _) => source == Copy
    case Capture(1, _) => source == Ref
    case Capture(_, slot) => source == Up((p, slot))
    case _ => false
  }

  /** Behind the constructor at index `at`, with no gap between the pcs, stand captures of registers in
      the frame or of slots, one for each slot of the child. */
  ghost predicate RealConstructor(chunk: Chunk, p: nat, at: nat, child: int)
    requires p < |chunk.protos| && at < |chunk.protos[p].insns|
  {
    0 <= child && child < |chunk.protos| && forall ordinal: nat :: ordinal < chunk.protos[child].upvalues ==>
      RealCapture(chunk, p, at, ordinal)
  }

  ghost predicate RealCapture(chunk: Chunk, p: nat, at: nat, ordinal: nat)
    requires p < |chunk.protos| && at < |chunk.protos[p].insns|
  {
    var insns, place := chunk.protos[p].insns, at + 1 + ordinal;
    place < |insns| && insns[place].pc - insns[at].pc == 1 + ordinal &&
    match insns[place].insn
    case Capture(0, register) => register < chunk.protos[p].stack
    case Capture(1, register) => register < chunk.protos[p].stack
    case Capture(2, slot) => RealSlot(chunk, (p, slot))
    case _ => false
  }

  lemma {:induction false} GoodIsReal(chunk: Chunk, p: nat, at: nat, child: int)
    requires p < |chunk.protos| && at < |chunk.protos[p].insns|
    ensures GoodConstructor(chunk, p, at, child) <==> RealConstructor(chunk, p, at, child)
  {
    if 0 <= child < |chunk.protos| {
      forall ordinal: nat
        ensures GoodCapture(chunk, p, at, ordinal) <==> RealCapture(chunk, p, at, ordinal)
      {
      }
    }
  }

  /** The instructions of `p` from `index` on: writes to real slots, constructors with all
      their captures, and no capture on its own. */
  ghost predicate Parses(chunk: Chunk, p: nat, index: nat)
    requires p < |chunk.protos|
    decreases |chunk.protos[p].insns| - index
  {
    index >= |chunk.protos[p].insns| ||
    match chunk.protos[p].insns[index].insn
    case SetUpvalue(slot) => RealSlot(chunk, (p, slot)) && Parses(chunk, p, index + 1)
    case Capture(_, _) => false
    case Make(child) => RealConstructor(chunk, p, index, child) &&
      Parses(chunk, p, index + chunk.protos[child].upvalues + 1)
    case Other => Parses(chunk, p, index + 1)
  }

  ghost predicate AllParse(chunk: Chunk) { forall p: nat :: p < |chunk.protos| ==> Parses(chunk, p, 0) }

  ghost predicate WritesAt(chunk: Chunk, n: Slot, i: nat) {
    0 <= n.0 < |chunk.protos| && i < |chunk.protos[n.0].insns| && chunk.protos[n.0].insns[i].insn.SetUpvalue?
    && chunk.protos[n.0].insns[i].insn.slot == n.1
  }

  /** Some instruction of the prototype writes the slot. */
  ghost predicate Written(chunk: Chunk, n: Slot) { exists i: nat :: WritesAt(chunk, n, i) }

  ghost predicate ConstructsAt(chunk: Chunk, p: nat, i: nat, target: Slot, source: Source) {
    && p < |chunk.protos| && i < |chunk.protos[p].insns| && chunk.protos[p].insns[i].insn == Make(target.0)
    && RealSlot(chunk, target) && i + target.1 + 1 < |chunk.protos[p].insns|
    && Stands(p, chunk.protos[p].insns[i + target.1 + 1].insn, source)
  }

  /** Some constructor fills the slot from that source. */
  ghost predicate TakenFrom(chunk: Chunk, target: Slot, source: Source) {
    exists p: nat, i: nat :: ConstructsAt(chunk, p, i, target, source)
  }

  /** A write to the slot itself, or to one that shares its storage further down. */
  least predicate Tainted(chunk: Chunk, n: Slot) {
    Written(chunk, n) || exists target: Slot :: TakenFrom(chunk, target, Up(n)) && Tainted(chunk, target)
  }

  // ----- what a certificate must satisfy -----

  datatype Row = Row(prototype: int, slots: seq<int>)

  ghost predicate Claimed(rows: seq<Row>, n: Slot) { exists i: nat, k: nat :: ClaimedAt(rows, n, i, k) }

  predicate ClaimedAt(rows: seq<Row>, n: Slot, i: nat, k: nat) {
    i < |rows| && k < |rows[i].slots| && n == (rows[i].prototype, rows[i].slots[k])
  }

  /** Rows name real slots of other functions than the main one, each once. */
  ghost predicate GoodRows(chunk: Chunk, rows: seq<Row>) {
    && (forall n :: Claimed(rows, n) ==> RealSlot(chunk, n) && n.0 != chunk.main)
    && forall n, i: nat, k: nat, j: nat, l: nat ::
      ClaimedAt(rows, n, i, k) && ClaimedAt(rows, n, j, l) ==> i == j && k == l
  }

  ghost predicate GoodClaim(chunk: Chunk, claims: set<Slot>, n: Slot) {
    && !Tainted(chunk, n) && (exists source :: TakenFrom(chunk, n, source))
    && forall source :: TakenFrom(chunk, n, source) ==> source.Copy? || (source.Up? && source.parent in claims)
  }

  /** Every group of claims has one that rests on none of the others. */
  ghost predicate Grounded(chunk: Chunk, claims: set<Slot>) {
    forall group: set<Slot> ::
      group != {} && group <= claims ==> exists n :: n in group && RestsOutside(chunk, group, n)
  }

  ghost predicate RestsOutside(chunk: Chunk, group: set<Slot>, n: Slot) {
    forall parent: Slot :: TakenFrom(chunk, n, Up(parent)) ==> parent !in group
  }

  ghost predicate Certified(chunk: Chunk, claims: set<Slot>) {
    (forall n :: n in claims ==> GoodClaim(chunk, claims, n)) && Grounded(chunk, claims)
  }

  // ----- reading every constructor -----

  datatype Facts = Facts(writes: set<Slot>, incoming: set<(Slot, Source)>)

  ghost predicate FactsUpTo(chunk: Chunk, p: nat, index: nat, facts: Facts) {
    && (forall n :: n in facts.writes <==> exists i: nat :: Before(p, index, n.0, i) && WritesAt(chunk, n, i))
    && (forall n, s ::
      (n, s) in facts.incoming <==> exists q: nat, i: nat :: Before(p, index, q, i) && ConstructsAt(chunk, q, i, n, s))
  }

  predicate Before(p: nat, index: nat, q: int, i: nat) { q < p || (q == p && i < index) }

  lemma {:induction false} CaptureRuns(chunk: Chunk, p: nat, at: nat, child: int, i: nat)
    requires p < |chunk.protos| && at < |chunk.protos[p].insns| && GoodConstructor(chunk, p, at, child)
    requires at < i <= at + chunk.protos[child].upvalues
    ensures i < |chunk.protos[p].insns| && chunk.protos[p].insns[i].insn.Capture?
  {
    assert GoodCapture(chunk, p, at, i - at - 1);
  }

  lemma {:induction false} NextInsn(chunk: Chunk, p: nat, index: nat, facts: Facts, facts': Facts)
    requires p < |chunk.protos| && index < |chunk.protos[p].insns| && FactsUpTo(chunk, p, index, facts)
    requires var insn := chunk.protos[p].insns[index].insn;
             && !insn.Make? && facts'.incoming == facts.incoming
             && facts'.writes == facts.writes + if insn.SetUpvalue? then {(p as int, insn.slot as int)} else {}
    ensures FactsUpTo(chunk, p, index + 1, facts')
  {
    var insn := chunk.protos[p].insns[index].insn;
    forall n ensures n in facts'.writes <==> exists i: nat :: Before(p, index + 1, n.0, i) && WritesAt(chunk, n, i) {
      if n in facts.writes {
        var i: nat :| Before(p, index, n.0, i) && WritesAt(chunk, n, i);
        assert Before(p, index + 1, n.0, i);
      }
      if insn.SetUpvalue? && n == (p as int, insn.slot as int) {
        assert Before(p, index + 1, n.0, index) && WritesAt(chunk, n, index);
      }
      if i: nat :| Before(p, index + 1, n.0, i) && WritesAt(chunk, n, i) {
        if n.0 != p || i != index { assert Before(p, index, n.0, i); }
      }
    }
    forall n, s
      ensures (n, s) in facts'.incoming <==>
          exists q: nat, i: nat :: Before(p, index + 1, q, i) && ConstructsAt(chunk, q, i, n, s)
    {
      if (n, s) in facts.incoming {
        var q: nat, i: nat :| Before(p, index, q, i) && ConstructsAt(chunk, q, i, n, s);
        assert Before(p, index + 1, q, i);
      }
      if q: nat, i: nat :| Before(p, index + 1, q, i) && ConstructsAt(chunk, q, i, n, s) {
        assert Before(p, index, q, i);
      }
    }
  }

  /** The slots a constructor fills, and from where. */
  ghost predicate Fills(chunk: Chunk, p: nat, at: nat, child: nat, count: nat, filled: set<(Slot, Source)>) {
    forall n, s :: (n, s) in filled <==> n.0 == child && 0 <= n.1 < count && ConstructsAt(chunk, p, at, n, s)
  }

  lemma {:induction false} NextConstructor(chunk: Chunk, p: nat, index: nat, child: nat, facts: Facts,
      filled: set<(Slot, Source)>)
    requires p < |chunk.protos| && index < |chunk.protos[p].insns| && FactsUpTo(chunk, p, index, facts)
    requires chunk.protos[p].insns[index].insn == Make(child) && GoodConstructor(chunk, p, index, child)
    requires Fills(chunk, p, index, child, chunk.protos[child].upvalues, filled)
    ensures FactsUpTo(chunk, p, index + chunk.protos[child].upvalues + 1, facts.(incoming := facts.incoming + filled))
  {
    var end, facts' := index + chunk.protos[child].upvalues + 1, facts.(incoming := facts.incoming + filled);
    forall i: nat | index < i < end
      ensures i < |chunk.protos[p].insns| && chunk.protos[p].insns[i].insn.Capture?
    {
      CaptureRuns(chunk, p, index, child, i);
    }
    forall n ensures n in facts'.writes <==> exists i: nat :: Before(p, end, n.0, i) && WritesAt(chunk, n, i) {
      if n in facts.writes {
        var i: nat :| Before(p, index, n.0, i) && WritesAt(chunk, n, i);
        assert Before(p, end, n.0, i);
      }
      if i: nat :| Before(p, end, n.0, i) && WritesAt(chunk, n, i) { assert Before(p, index, n.0, i); }
    }
    forall n, s
      ensures (n, s) in facts'.incoming <==>
          exists q: nat, i: nat :: Before(p, end, q, i) && ConstructsAt(chunk, q, i, n, s)
    {
      if (n, s) in facts.incoming {
        var q: nat, i: nat :| Before(p, index, q, i) && ConstructsAt(chunk, q, i, n, s);
        assert Before(p, end, q, i);
      }
      if (n, s) in filled { assert Before(p, end, p, index) && ConstructsAt(chunk, p, index, n, s); }
      if q: nat, i: nat :| Before(p, end, q, i) && ConstructsAt(chunk, q, i, n, s) {
        if q != p || i < index { assert Before(p, index, q, i); }
      }
    }
  }

  lemma {:induction false} NextProto(chunk: Chunk, p: nat, facts: Facts)
    requires p < |chunk.protos| && FactsUpTo(chunk, p, |chunk.protos[p].insns|, facts)
    ensures FactsUpTo(chunk, p + 1, 0, facts)
  {
    var end := |chunk.protos[p].insns|;
    forall n ensures n in facts.writes <==> exists i: nat :: Before(p + 1, 0, n.0, i) && WritesAt(chunk, n, i) {
      if n in facts.writes {
        var i: nat :| Before(p, end, n.0, i) && WritesAt(chunk, n, i);
        assert Before(p + 1, 0, n.0, i);
      }
      if i: nat :| Before(p + 1, 0, n.0, i) && WritesAt(chunk, n, i) { assert Before(p, end, n.0, i); }
    }
    forall n, s
      ensures (n, s) in facts.incoming <==>
          exists q: nat, i: nat :: Before(p + 1, 0, q, i) && ConstructsAt(chunk, q, i, n, s)
    {
      if (n, s) in facts.incoming {
        var q: nat, i: nat :| Before(p, end, q, i) && ConstructsAt(chunk, q, i, n, s);
        assert Before(p + 1, 0, q, i);
      }
      if q: nat, i: nat :| Before(p + 1, 0, q, i) && ConstructsAt(chunk, q, i, n, s) { assert Before(p, end, q, i); }
    }
  }

  lemma {:induction false} AllRead(chunk: Chunk, facts: Facts)
    requires FactsUpTo(chunk, |chunk.protos|, 0, facts)
    ensures Reads(chunk, facts)
  {
    var end := |chunk.protos|;
    forall n ensures n in facts.writes <==> Written(chunk, n) {
      if Written(chunk, n) { var i: nat :| WritesAt(chunk, n, i); assert Before(end, 0, n.0, i); }
    }
    forall n, s ensures (n, s) in facts.incoming <==> TakenFrom(chunk, n, s) {
      if TakenFrom(chunk, n, s) { var q: nat, i: nat :| ConstructsAt(chunk, q, i, n, s); assert Before(end, 0, q, i); }
    }
  }

  /** Every direct write and every constructor edge, and nothing else. */
  ghost predicate Reads(chunk: Chunk, facts: Facts) {
    (forall n :: n in facts.writes <==> Written(chunk, n)) && forall n, s ::
      (n, s) in facts.incoming <==> TakenFrom(chunk, n, s)
  }

  /** The captures of one constructor, or a refusal at the first bad one. */
  method ReadCaptures(chunk: Chunk, p: nat, at: nat, child: nat) returns (ok: bool, filled: set<(Slot, Source)>)
    requires p < |chunk.protos| && at < |chunk.protos[p].insns| && child < |chunk.protos|
    requires chunk.protos[p].insns[at].insn == Make(child)
    ensures ok == GoodConstructor(chunk, p, at, child)
    ensures ok ==> Fills(chunk, p, at, child, chunk.protos[child].upvalues, filled)
  {
    filled := {};
    for ordinal := 0 to chunk.protos[child].upvalues
      invariant forall o: nat :: o < ordinal ==> GoodCapture(chunk, p, at, o)
      invariant Fills(chunk, p, at, child, ordinal, filled)
    {
      if !GoodCapture(chunk, p, at, ordinal) { return false, {}; }
      filled := filled + {((child, ordinal), SourceOf(p, chunk.protos[p].insns[at + ordinal + 1].insn))};
    }
    ok := true;
  }

  method ReadConstructors(chunk: Chunk) returns (ok: bool, facts: Facts)
    ensures ok == AllParse(chunk) && (ok ==> Reads(chunk, facts))
  {
    hide FactsUpTo, Fills;
    facts := Facts({}, {});
    NothingRead(chunk);
    for p := 0 to |chunk.protos|
      invariant FactsUpTo(chunk, p, 0, facts) && forall q: nat :: q < p ==> Parses(chunk, q, 0)
    {
      var insns, index := chunk.protos[p].insns, 0;
      while index < |insns|
        invariant 0 <= index <= |insns| && FactsUpTo(chunk, p, index, facts)
        invariant Parses(chunk, p, 0) == Parses(chunk, p, index)
      {
        match insns[index].insn {
          case SetUpvalue(slot) =>
            if !IsSlot(chunk, (p, slot)) { return false, facts; }
            var more := facts.(writes := facts.writes + {(p as int, slot as int)});
            NextInsn(chunk, p, index, facts, more);
            facts, index := more, index + 1;
          case Capture(_, _) => return false, facts;
          case Make(child) =>
            if child < 0 || child >= |chunk.protos| { return false, facts; }
            GoodIsReal(chunk, p, index, child);
            var good, filled := ReadCaptures(chunk, p, index, child);
            if !good { return false, facts; }
            NextConstructor(chunk, p, index, child, facts, filled);
            ConstructorEnds(chunk, p, index, child);
            facts, index := facts.(incoming := facts.incoming + filled), index + chunk.protos[child].upvalues + 1;
          case Other =>
            NextInsn(chunk, p, index, facts, facts);
            index := index + 1;
        }
      }
      NextProto(chunk, p, facts);
    }
    AllRead(chunk, facts);
    ok := true;
  }

  lemma {:induction false} NothingRead(chunk: Chunk)
    ensures FactsUpTo(chunk, 0, 0, Facts({}, {}))
  {
  }

  lemma {:induction false} ConstructorEnds(chunk: Chunk, p: nat, at: nat, child: nat)
    requires p < |chunk.protos| && at < |chunk.protos[p].insns| && GoodConstructor(chunk, p, at, child)
    ensures at + chunk.protos[child].upvalues + 1 <= |chunk.protos[p].insns|
  {
    if chunk.protos[child].upvalues > 0 { assert GoodCapture(chunk, p, at, chunk.protos[child].upvalues - 1); }
  }

  // ----- carrying writes back to every ancestor -----

  function ParentsOf(incoming: set<(Slot, Source)>, n: Slot): set<Slot> {
    set e | e in incoming && e.0 == n && e.1.Up? :: e.1.parent
  }

  lemma {:induction false} ParentsAre(chunk: Chunk, facts: Facts, n: Slot, parent: Slot)
    requires Reads(chunk, facts)
    ensures parent in ParentsOf(facts.incoming, n) <==> TakenFrom(chunk, n, Up(parent))
  {
    if TakenFrom(chunk, n, Up(parent)) { assert (n, Up(parent)) in facts.incoming; }
  }

  least lemma TaintedWithin(chunk: Chunk, n: Slot, writes: set<Slot>)
    requires Tainted(chunk, n)
    requires forall m :: Written(chunk, m) ==> m in writes
    requires forall m: Slot, target: Slot :: TakenFrom(chunk, target, Up(m)) && target in writes ==> m in writes
    ensures n in writes
  {
  }

  lemma {:induction false} WrittenIsTainted(chunk: Chunk, facts: Facts)
    requires Reads(chunk, facts)
    ensures forall n :: n in facts.writes ==> Tainted(chunk, n)
  {
    hide TakenFrom;
  }

  lemma {:induction false} ParentIsTainted(chunk: Chunk, facts: Facts, child: Slot, parent: Slot)
    requires Reads(chunk, facts) && Tainted(chunk, child) && parent in ParentsOf(facts.incoming, child)
    ensures Tainted(chunk, parent)
  {
    ParentsAre(chunk, facts, child, parent);
    hide Written, TakenFrom;
  }

  function Everything(facts: Facts): set<Slot> { facts.writes + set e | e in facts.incoming && e.1.Up? :: e.1.parent }

  lemma {:induction false} ParentsWithin(facts: Facts, n: Slot)
    ensures ParentsOf(facts.incoming, n) <= Everything(facts)
  {
  }

  lemma {:induction false} AllCarried(chunk: Chunk, facts: Facts, writes: set<Slot>)
    requires Reads(chunk, facts) && facts.writes <= writes
    requires forall n :: n in writes ==> ParentsOf(facts.incoming, n) <= writes
    ensures forall n :: Tainted(chunk, n) ==> n in writes
  {
    forall m: Slot, target: Slot | TakenFrom(chunk, target, Up(m)) && target in writes ensures m in writes {
      ParentsAre(chunk, facts, target, m);
    }
    forall n | Tainted(chunk, n) ensures n in writes { TaintedWithin(chunk, n, writes); }
  }

  method CarryWrites(chunk: Chunk, facts: Facts) returns (writes: set<Slot>)
    requires Reads(chunk, facts)
    ensures forall n :: n in writes <==> Tainted(chunk, n)
  {
    hide Reads, Tainted, ParentsOf;
    writes := facts.writes;
    var todo := writes;
    WrittenIsTainted(chunk, facts);
    while todo != {}
      invariant todo <= writes <= Everything(facts) && facts.writes <= writes
      invariant forall n :: n in writes ==> Tainted(chunk, n)
      invariant forall n :: n in writes && n !in todo ==> ParentsOf(facts.incoming, n) <= writes
      decreases Everything(facts) - writes, todo
    {
      var child :| child in todo;
      todo := todo - {child};
      var added := ParentsOf(facts.incoming, child) - writes;
      ParentsWithin(facts, child);
      forall parent | parent in added ensures Tainted(chunk, parent) { ParentIsTainted(chunk, facts, child, parent); }
      writes, todo := writes + added, todo + added;
    }
    AllCarried(chunk, facts, writes);
  }

  // ----- reading the certificate -----

  method ReadClaims(chunk: Chunk, rows: seq<Row>) returns (ok: bool, claims: set<Slot>)
    ensures ok == GoodRows(chunk, rows)
    ensures ok ==> forall n :: n in claims <==> Claimed(rows, n)
  {
    claims := {};
    for i := 0 to |rows|
      invariant ClaimsUpTo(chunk, rows, i, 0, claims)
    {
      for k := 0 to |rows[i].slots|
        invariant ClaimsUpTo(chunk, rows, i, k, claims)
      {
        var n := (rows[i].prototype, rows[i].slots[k]);
        if !IsSlot(chunk, n) || n in claims || n.0 == chunk.main {
          BadRow(chunk, rows, i, k, claims);
          return false, {};
        }
        ClaimNext(chunk, rows, i, k, claims);
        claims := claims + {n};
      }
      RowNext(chunk, rows, i, claims);
    }
    RowsDone(chunk, rows, claims);
    ok := true;
  }

  predicate Earlier(i: nat, k: nat, j: nat, l: nat) { j < i || (j == i && l < k) }

  ghost predicate ClaimsUpTo(chunk: Chunk, rows: seq<Row>, i: nat, k: nat, claims: set<Slot>) {
    && (forall n :: n in claims ==> IsSlot(chunk, n) && n.0 != chunk.main)
    && (forall n :: n in claims <==> exists j: nat, l: nat :: Earlier(i, k, j, l) && ClaimedAt(rows, n, j, l))
    && forall n, j: nat, l: nat, x: nat, y: nat ::
         Earlier(i, k, j, l) && Earlier(i, k, x, y) && ClaimedAt(rows, n, j, l) && ClaimedAt(rows, n, x, y) ==>
           j == x && l == y
  }

  lemma {:induction false} BadRow(chunk: Chunk, rows: seq<Row>, i: nat, k: nat, claims: set<Slot>)
    requires i < |rows| && k < |rows[i].slots| && ClaimsUpTo(chunk, rows, i, k, claims)
    requires var n := (rows[i].prototype, rows[i].slots[k]); !IsSlot(chunk, n) || n in claims || n.0 == chunk.main
    ensures !GoodRows(chunk, rows)
  {
    var n := (rows[i].prototype, rows[i].slots[k]);
    assert ClaimedAt(rows, n, i, k);
    assert Claimed(rows, n);
    if n in claims {
      var j: nat, l: nat :| Earlier(i, k, j, l) && ClaimedAt(rows, n, j, l);
    }
  }

  lemma {:induction false} ClaimNext(chunk: Chunk, rows: seq<Row>, i: nat, k: nat, claims: set<Slot>)
    requires i < |rows| && k < |rows[i].slots| && ClaimsUpTo(chunk, rows, i, k, claims)
    requires var n := (rows[i].prototype, rows[i].slots[k]); IsSlot(chunk, n) && n !in claims && n.0 != chunk.main
    ensures ClaimsUpTo(chunk, rows, i, k + 1, claims + {(rows[i].prototype, rows[i].slots[k])})
  {
    var now := (rows[i].prototype, rows[i].slots[k]);
    var more := claims + {now};
    forall n ensures n in more <==> exists j: nat, l: nat :: Earlier(i, k + 1, j, l) && ClaimedAt(rows, n, j, l) {
      if n in claims {
        var j: nat, l: nat :| Earlier(i, k, j, l) && ClaimedAt(rows, n, j, l);
        assert Earlier(i, k + 1, j, l);
      }
      if n == now { assert Earlier(i, k + 1, i, k) && ClaimedAt(rows, n, i, k); }
      if j: nat, l: nat :| Earlier(i, k + 1, j, l) && ClaimedAt(rows, n, j, l) {
        if j != i || l != k { assert Earlier(i, k, j, l); }
      }
    }
    forall n, j: nat, l: nat, x: nat, y: nat |
      Earlier(i, k + 1, j, l) && Earlier(i, k + 1, x, y) && ClaimedAt(rows, n, j, l) && ClaimedAt(rows, n, x, y)
      ensures j == x && l == y
    {
      if j != i || l != k { assert Earlier(i, k, j, l); }
      if x != i || y != k { assert Earlier(i, k, x, y); }
    }
  }

  lemma {:induction false} RowNext(chunk: Chunk, rows: seq<Row>, i: nat, claims: set<Slot>)
    requires i < |rows| && ClaimsUpTo(chunk, rows, i, |rows[i].slots|, claims)
    ensures ClaimsUpTo(chunk, rows, i + 1, 0, claims)
  {
    var end := |rows[i].slots|;
    forall n, j: nat, l: nat
      ensures Earlier(i + 1, 0, j, l) && ClaimedAt(rows, n, j, l) <==>
        Earlier(i, end, j, l) && ClaimedAt(rows, n, j, l) { }
  }

  lemma {:induction false} RowsDone(chunk: Chunk, rows: seq<Row>, claims: set<Slot>)
    requires ClaimsUpTo(chunk, rows, |rows|, 0, claims)
    ensures GoodRows(chunk, rows) && forall n :: n in claims <==> Claimed(rows, n)
  {
    forall n, j: nat, l: nat ensures ClaimedAt(rows, n, j, l) ==> Earlier(|rows|, 0, j, l) { }
  }

  // ----- no slot justifies itself -----

  /** Established claims rest on established claims, and every group of them is grounded. */
  ghost predicate Standing(chunk: Chunk, established: set<Slot>) {
    && (forall n: Slot, parent: Slot :: n in established && TakenFrom(chunk, n, Up(parent)) ==> parent in established)
    && Grounded(chunk, established)
  }

  lemma {:induction false} NothingStands(chunk: Chunk)
    ensures Standing(chunk, {})
  {
  }

  lemma {:induction false} StandingMore(chunk: Chunk, established: set<Slot>, node: Slot)
    requires Standing(chunk, established) && node !in established
    requires forall parent: Slot :: TakenFrom(chunk, node, Up(parent)) ==> parent in established
    ensures Standing(chunk, established + {node})
  {
    forall group: set<Slot> | group != {} && group <= established + {node}
      ensures exists n :: n in group && RestsOutside(chunk, group, n)
    {
      var others := group - {node};
      if others == {} {
        assert group == {node} && RestsOutside(chunk, group, node);
      } else {
        assert others <= established;
        var n :| n in others && RestsOutside(chunk, others, n);
        assert n in group && RestsOutside(chunk, group, n);
      }
    }
  }

  lemma {:induction false} Ungrounded(chunk: Chunk, claims: set<Slot>, group: set<Slot>)
    requires group <= claims && group != {} && forall n :: n in group ==> !RestsOutside(chunk, group, n)
    ensures !Grounded(chunk, claims)
  {
    hide RestsOutside;
  }

  lemma {:induction false} LeansOn(chunk: Chunk, group: set<Slot>, n: Slot, parent: Slot)
    requires TakenFrom(chunk, n, Up(parent)) && parent in group
    ensures !RestsOutside(chunk, group, n)
  {
  }

  /** What is left to establish: each claim's remaining dependencies, and those with none. */
  ghost predicate Draining(incoming: set<(Slot, Source)>, claims: set<Slot>, dependencies: map<Slot, set<Slot>>,
      ready: set<Slot>, established: set<Slot>)
  {
    && established <= claims && ready <= claims && ready !! established && dependencies.Keys == claims
    && (forall n :: n in claims ==> dependencies[n] == ParentsOf(incoming, n) - established)
    && forall n :: n in claims ==> (n in ready + established <==> dependencies[n] == {})
  }

  lemma {:induction false} StandingReady(chunk: Chunk, facts: Facts, claims: set<Slot>,
      dependencies: map<Slot, set<Slot>>, ready: set<Slot>, established: set<Slot>, node: Slot)
    requires Reads(chunk, facts) && Draining(facts.incoming, claims, dependencies, ready, established)
    requires Standing(chunk, established) && node in ready
    ensures Standing(chunk, established + {node})
  {
    hide Reads, Standing;
    assert dependencies[node] == {};
    forall parent: Slot | TakenFrom(chunk, node, Up(parent)) ensures parent in established {
      ParentsAre(chunk, facts, node, parent);
      assert parent !in dependencies[node];
    }
    StandingMore(chunk, established, node);
  }

  lemma {:induction false} DrainOne(incoming: set<(Slot, Source)>, claims: set<Slot>,
      dependencies: map<Slot, set<Slot>>, ready: set<Slot>, established: set<Slot>, node: Slot,
      dependencies': map<Slot, set<Slot>>, ready': set<Slot>)
    requires Draining(incoming, claims, dependencies, ready, established) && node in ready
    requires dependencies'.Keys == claims && forall n :: n in claims ==> dependencies'[n] == dependencies[n] - {node}
    requires forall n :: n in ready' <==> n in claims && dependencies'[n] == {} && n !in established + {node}
    ensures Draining(incoming, claims, dependencies', ready', established + {node})
  {
    hide ParentsOf;
    forall n | n in established + {node} ensures dependencies'[n] == {} { assert dependencies[n] == {}; }
  }

  lemma {:induction false} Undrained(chunk: Chunk, facts: Facts, claims: set<Slot>, dependencies: map<Slot, set<Slot>>,
      established: set<Slot>)
    requires Reads(chunk, facts) && Draining(facts.incoming, claims, dependencies, {}, established)
    requires (forall n :: n in claims ==> ParentsOf(facts.incoming, n) <= claims) && established != claims
    ensures !Grounded(chunk, claims)
  {
    hide Reads, ParentsOf, Grounded, RestsOutside;
    var group := claims - established;
    var missing :| missing in claims && missing !in established;
    assert missing in group;
    forall n | n in group ensures !RestsOutside(chunk, group, n) {
      var parent :| parent in dependencies[n];
      ParentsAre(chunk, facts, n, parent);
      LeansOn(chunk, group, n, parent);
    }
    Ungrounded(chunk, claims, group);
  }

  /** Claims are established once everything they rest on is. */
  method Establish(chunk: Chunk, facts: Facts, claims: set<Slot>) returns (ok: bool)
    requires Reads(chunk, facts) && forall n :: n in claims ==> ParentsOf(facts.incoming, n) <= claims
    ensures ok == Grounded(chunk, claims)
  {
    hide Draining, Standing, Reads, ParentsOf, Grounded;
    NothingStands(chunk);
    var dependencies := map n | n in claims :: ParentsOf(facts.incoming, n);
    var ready := set n | n in claims && dependencies[n] == {};
    var established: set<Slot> := {};
    DrainStarts(facts.incoming, claims, dependencies, ready);
    while ready != {}
      invariant Draining(facts.incoming, claims, dependencies, ready, established) && Standing(chunk, established)
      decreases claims - established
    {
      var node :| node in ready;
      StandingReady(chunk, facts, claims, dependencies, ready, established, node);
      DrainBounds(facts.incoming, claims, dependencies, ready, established, node);
      var remaining := map n | n in claims :: dependencies[n] - {node};
      var next := set n | n in claims && remaining[n] == {} && n !in established + {node};
      DrainOne(facts.incoming, claims, dependencies, ready, established, node, remaining, next);
      dependencies, ready, established := remaining, next, established + {node};
    }
    ok := established == claims;
    if !ok { Undrained(chunk, facts, claims, dependencies, established); } else { StandingGrounded(chunk, claims); }
  }

  lemma {:induction false} DrainStarts(incoming: set<(Slot, Source)>, claims: set<Slot>,
      dependencies: map<Slot, set<Slot>>, ready: set<Slot>)
    requires dependencies.Keys == claims && forall n :: n in claims ==> dependencies[n] == ParentsOf(incoming, n)
    requires forall n :: n in ready <==> n in claims && dependencies[n] == {}
    ensures Draining(incoming, claims, dependencies, ready, {})
  {
  }

  lemma {:induction false} DrainBounds(incoming: set<(Slot, Source)>, claims: set<Slot>,
      dependencies: map<Slot, set<Slot>>, ready: set<Slot>, established: set<Slot>, node: Slot)
    requires Draining(incoming, claims, dependencies, ready, established) && node in ready
    ensures dependencies.Keys == claims && node in claims && node !in established
  {
  }

  lemma {:induction false} StandingGrounded(chunk: Chunk, claims: set<Slot>)
    requires Standing(chunk, claims)
    ensures Grounded(chunk, claims)
  {
  }

  // ----- the whole check -----

  function Slots(chunk: Chunk, p: nat): set<Slot>
    requires p <= |chunk.protos|
  {
    set q, s | 0 <= q < p && 0 <= s < chunk.protos[q].upvalues :: (q, s)
  }

  /** The number of slots is that of upvalues, prototype by prototype. */
  ghost function UpvaluesOf(protos: seq<Proto>): nat {
    if protos == [] then 0 else UpvaluesOf(protos[..|protos| - 1]) + protos[|protos| - 1].upvalues
  }

  ghost function SlotsOf(q: int, n: nat): set<Slot> {
    if n == 0 then {} else SlotsOf(q, n - 1) + {(q, n - 1)}
  }

  lemma {:induction false} SlotsOfAre(q: int, n: nat)
    ensures |SlotsOf(q, n)| == n && forall s: Slot :: s in SlotsOf(q, n) <==> s.0 == q && 0 <= s.1 < n
  {
    if n > 0 { SlotsOfAre(q, n - 1); }
  }

  lemma {:induction false} SlotCount(chunk: Chunk, p: nat)
    requires p <= |chunk.protos|
    ensures |Slots(chunk, p)| == UpvaluesOf(chunk.protos[..p])
  {
    if p > 0 {
      SlotCount(chunk, p - 1);
      SlotsOfAre(p - 1, chunk.protos[p - 1].upvalues);
      var before, more := Slots(chunk, p - 1), SlotsOf(p - 1, chunk.protos[p - 1].upvalues);
      SlotsGrow(chunk, p, more);
      assert chunk.protos[..p][..p - 1] == chunk.protos[..p - 1];
    }
  }

  lemma {:induction false} SlotsGrow(chunk: Chunk, p: nat, more: set<Slot>)
    requires 0 < p <= |chunk.protos|
    requires forall s: Slot :: s in more <==> s.0 == p - 1 && 0 <= s.1 < chunk.protos[p - 1].upvalues
    ensures Slots(chunk, p) == Slots(chunk, p - 1) + more && Slots(chunk, p - 1) !! more
  {
    var before, after := Slots(chunk, p - 1), Slots(chunk, p);
    forall s: Slot ensures s in after <==> s in before + more { }
  }

  predicate SourceFits(claims: set<Slot>, source: Source) { source.Copy? || (source.Up? && source.parent in claims) }

  /** A completed proof is accepted exactly when the bytecode parses, the rows are in order, the
      slot count is right, and every claim is untainted, justified and grounded. */
  method Verify(chunk: Chunk, rows: seq<Row>, analyzed: nat) returns (accepted: bool, claims: set<Slot>)
    ensures GoodRows(chunk, rows) ==> forall n :: n in claims <==> Claimed(rows, n)
    ensures accepted <==>
        (AllParse(chunk) && GoodRows(chunk, rows) && analyzed == UpvaluesOf(chunk.protos) && Certified(chunk, claims))
  {
    SlotCount(chunk, |chunk.protos|);
    assert chunk.protos[..|chunk.protos|] == chunk.protos;
    hide AllParse, GoodRows, Reads, Slots, GoodClaim, Grounded, ParentsOf, Claimed, Tainted;
    var good, found := ReadClaims(chunk, rows);
    claims := found;
    if !good || analyzed != |Slots(chunk, |chunk.protos|)| { return false, claims; }
    var parses, facts := ReadConstructors(chunk);
    if !parses { return false, claims; }
    var writes := CarryWrites(chunk, facts);
    accepted := ClaimsFit(facts.incoming, claims, writes);
    ClaimsDecided(chunk, facts, claims, writes);
    if accepted {
      ClaimsRest(chunk, facts, claims);
      accepted := Establish(chunk, facts, claims);
    }
  }

  lemma {:induction false} ClaimsRest(chunk: Chunk, facts: Facts, claims: set<Slot>)
    requires Reads(chunk, facts) && forall n :: n in claims ==> GoodClaim(chunk, claims, n)
    ensures forall n :: n in claims ==> ParentsOf(facts.incoming, n) <= claims
  {
    forall n, parent | n in claims && parent in ParentsOf(facts.incoming, n) ensures parent in claims {
      ParentsAre(chunk, facts, n, parent);
      assert GoodClaim(chunk, claims, n);
    }
  }

  /** No claim is tainted, and each has constructors, all by value or from a claimed parent slot. */
  predicate ClaimsFit(incoming: set<(Slot, Source)>, claims: set<Slot>, writes: set<Slot>) {
    claims !! writes && forall n | n in claims :: HasSource(incoming, n) && SourcesFit(incoming, claims, n)
  }

  predicate HasSource(incoming: set<(Slot, Source)>, n: Slot) { exists e | e in incoming :: e.0 == n }

  predicate SourcesFit(incoming: set<(Slot, Source)>, claims: set<Slot>, n: Slot) {
    forall e | e in incoming && e.0 == n :: SourceFits(claims, e.1)
  }

  lemma {:induction false} ClaimsDecided(chunk: Chunk, facts: Facts, claims: set<Slot>, writes: set<Slot>)
    requires Reads(chunk, facts) && forall n :: n in writes <==> Tainted(chunk, n)
    ensures ClaimsFit(facts.incoming, claims, writes) <==> forall n :: n in claims ==> GoodClaim(chunk, claims, n)
  {
    forall n | n in claims
      ensures HasSource(facts.incoming, n) && SourcesFit(facts.incoming, claims, n) && n !in writes <==>
          GoodClaim(chunk, claims, n)
    {
      ClaimDecided(chunk, facts, claims, n);
    }
    hide GoodClaim, HasSource, SourcesFit, Tainted;
  }

  lemma {:induction false} ClaimDecided(chunk: Chunk, facts: Facts, claims: set<Slot>, n: Slot)
    requires Reads(chunk, facts)
    ensures HasSource(facts.incoming, n) && SourcesFit(facts.incoming, claims, n) <==>
      ((exists source :: TakenFrom(chunk, n, source)) && forall source ::
        TakenFrom(chunk, n, source) ==> SourceFits(claims, source))
  {
    hide TakenFrom;
    forall source ensures (n, source) in facts.incoming <==> TakenFrom(chunk, n, source) { }
    if source :| TakenFrom(chunk, n, source) { assert (n, source).0 == n; }
    if e :| e in facts.incoming && e.0 == n { assert e == (n, e.1); }
    if SourcesFit(facts.incoming, claims, n) {
      forall source | TakenFrom(chunk, n, source)
        ensures SourceFits(claims, source)
      {
        assert (n, source) in facts.incoming && (n, source).0 == n;
      }
    }
    if forall source :: TakenFrom(chunk, n, source) ==> SourceFits(claims, source) {
      forall e | e in facts.incoming && e.0 == n ensures SourceFits(claims, e.1) { assert e == (n, e.1); }
    }
  }
}
