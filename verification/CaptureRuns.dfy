/** What an accepted certificate means: in every run of closures that capture by value, by
    reference or from their parent, and that write through their slots, the value in a claimed
    slot stays what it was when the closure was created. */
module CaptureRuns {
  import opened CaptureEffects

  // ----- the machine -----

  /** A value captured by value, a register captured by reference, or storage of the host. */
  datatype Kind = ByValue | OpenRegister | External

  datatype Cell = Cell(value: int, kind: Kind)

  /** Each slot of a closure refers to a cell; closures may share cells. */
  datatype Closure = Closure(proto: nat, slots: seq<nat>)

  datatype State = State(cells: seq<Cell>, closures: seq<Closure>)

  ghost predicate SameCellsBut(s: State, s': State, c: nat) {
    && |s'.cells| == |s.cells| && s'.closures == s.closures
    && forall d: nat :: d < |s.cells| ==> s'.cells[d].kind == s.cells[d].kind && (d != c ==> s'.cells[d] == s.cells[d])
  }

  /** A closure writes one of its slots; whoever shares the cell sees it. */
  ghost predicate WriteStep(chunk: Chunk, s: State, s': State) {
    exists k: nat, slot: nat, i: nat :: WritesSlot(chunk, s, s', k, slot, i)
  }

  ghost predicate WritesSlot(chunk: Chunk, s: State, s': State, k: nat, slot: nat, i: nat) {
    && k < |s.closures| && slot < |s.closures[k].slots| && WritesAt(chunk, (s.closures[k].proto, slot), i)
    && SameCellsBut(s, s', s.closures[k].slots[slot])
  }

  /** The function that owns a captured register, or the host, writes its own storage. */
  ghost predicate OwnerStep(s: State, s': State) {
    exists c: nat :: c < |s.cells| && !s.cells[c].kind.ByValue? && SameCellsBut(s, s', c)
  }

  ghost predicate Extends(s: State, s': State, made: Closure) {
    && |s.cells| <= |s'.cells| && s'.cells[..|s.cells|] == s.cells && s'.closures == s.closures + [made]
    && forall j :: 0 <= j < |made.slots| ==> made.slots[j] < |s'.cells|
  }

  /** The host loads the chunk: its main function's slots are the host's own. */
  ghost predicate LoadStep(chunk: Chunk, s: State, s': State) {
    exists made: Closure ::
      Extends(s, s', made) && chunk.main < |chunk.protos| && made.proto == chunk.main &&
        |made.slots| == chunk.protos[chunk.main].upvalues
      && (forall j :: 0 <= j < |made.slots| ==> s'.cells[made.slots[j]].kind.External?)
      && forall c: nat :: |s.cells| <= c < |s'.cells| ==> s'.cells[c].kind.External?
  }

  /** A slot of a new closure, as its capture instruction says. */
  ghost predicate TakesSlot(chunk: Chunk, s: State, s': State, k: nat, i: nat, made: Closure, j: nat)
    requires k < |s.closures| && j < |made.slots|
  {
    var p, c := s.closures[k].proto, made.slots[j];
    && c < |s'.cells| && p < |chunk.protos| && i + j + 1 < |chunk.protos[p].insns| &&
      chunk.protos[p].insns[i + j + 1].insn.Capture?
    && var capture := chunk.protos[p].insns[i + j + 1].insn;
       if capture.mode == 0 then c >= |s.cells| && s'.cells[c].kind.ByValue? && forall l ::
         0 <= l < |made.slots| && l != j ==> made.slots[l] != c
       else if capture.mode == 1 then s'.cells[c].kind.OpenRegister?
       else capture.source < |s.closures[k].slots| && c == s.closures[k].slots[capture.source]
  }

  ghost predicate Builds(chunk: Chunk, s: State, s': State, k: nat, i: nat, made: Closure) {
    && Extends(s, s', made) && k < |s.closures| && s.closures[k].proto < |chunk.protos| &&
      i < |chunk.protos[s.closures[k].proto].insns|
    && chunk.protos[s.closures[k].proto].insns[i].insn == Make(made.proto) && made.proto < |chunk.protos|
    && |made.slots| == chunk.protos[made.proto].upvalues
    && (forall j :: 0 <= j < |made.slots| ==> TakesSlot(chunk, s, s', k, i, made, j))
    && forall c: nat :: |s.cells| <= c < |s'.cells| && s'.cells[c].kind.ByValue? ==> c in made.slots
  }

  ghost predicate BuildStep(chunk: Chunk, s: State, s': State) {
    exists k: nat, i: nat, made: Closure :: Builds(chunk, s, s', k, i, made)
  }

  ghost predicate Step(chunk: Chunk, s: State, s': State) {
    WriteStep(chunk, s, s') || OwnerStep(s, s') || LoadStep(chunk, s, s') || BuildStep(chunk, s, s')
  }

  // ----- the invariant -----

  function SlotOf(s: State, k: nat, j: nat): Slot
    requires k < |s.closures|
  {
    (s.closures[k].proto, j)
  }

  predicate Holds(s: State, k: nat, j: nat) { k < |s.closures| && j < |s.closures[k].slots| }

  /** What is known of the cell in slot `j` of closure `k`: a tainted slot can only share a cell
      that was born in a tainted slot, a claimed one only a cell born in a claimed slot. */
  ghost predicate HolderFits(chunk: Chunk, claims: set<Slot>, s: State, origins: map<nat, Slot>, k: nat, j: nat)
    requires Holds(s, k, j)
  {
    var c := s.closures[k].slots[j];
    && c < |s.cells| && (s.cells[c].kind.ByValue? ==> c in origins)
    && (SlotOf(s, k, j) in claims ==> s.cells[c].kind.ByValue? && origins[c] in claims)
    && (s.cells[c].kind.ByValue? && Tainted(chunk, SlotOf(s, k, j)) ==> Tainted(chunk, origins[c]))
  }

  ghost predicate Inv(chunk: Chunk, claims: set<Slot>, s: State, origins: map<nat, Slot>) {
    && (forall c :: c in origins ==> c < |s.cells|)
    && forall k: nat, j: nat :: Holds(s, k, j) ==> HolderFits(chunk, claims, s, origins, k, j)
  }

  /** What acceptance gives. */
  ghost predicate Accepted(chunk: Chunk, claims: set<Slot>) {
    Certified(chunk, claims) && forall n :: n in claims ==> IsSlot(chunk, n) && n.0 != chunk.main
  }

  ghost predicate ClaimsKept(claims: set<Slot>, s: State, s': State) {
    forall k: nat, j: nat :: Holds(s, k, j) && SlotOf(s, k, j) in claims ==> Kept(s, s', k, j)
  }

  ghost predicate Kept(s: State, s': State, k: nat, j: nat)
    requires Holds(s, k, j)
  {
    var c := s.closures[k].slots[j];
    Holds(s', k, j) && s'.closures[k] == s.closures[k] && c < |s.cells| && c < |s'.cells| &&
      s'.cells[c].value == s.cells[c].value
  }

  /** A write never reaches a claimed slot: the writer's cell was born tainted, the claimed one's claimed. */
  lemma {:induction false} WriteKeeps(chunk: Chunk, claims: set<Slot>, s: State, s': State, origins: map<nat, Slot>,
      k: nat, slot: nat, i: nat)
    requires Accepted(chunk, claims) && Inv(chunk, claims, s, origins) && WritesSlot(chunk, s, s', k, slot, i)
    ensures Inv(chunk, claims, s', origins) && ClaimsKept(claims, s, s')
  {
    var c := s.closures[k].slots[slot];
    assert Holds(s, k, slot) && HolderFits(chunk, claims, s, origins, k, slot);
    assert Written(chunk, SlotOf(s, k, slot)) && Tainted(chunk, SlotOf(s, k, slot));
    forall l: nat, j: nat | Holds(s, l, j) && SlotOf(s, l, j) in claims ensures Kept(s, s', l, j) {
      assert HolderFits(chunk, claims, s, origins, l, j);
      assert GoodClaim(chunk, claims, origins[s.closures[l].slots[j]]);
    }
    SameShape(chunk, claims, s, s', origins, c);
  }

  lemma {:induction false} SameShape(chunk: Chunk, claims: set<Slot>, s: State, s': State, origins: map<nat, Slot>,
      c: nat)
    requires Inv(chunk, claims, s, origins) && SameCellsBut(s, s', c)
    ensures Inv(chunk, claims, s', origins)
  {
    forall l: nat, j: nat | Holds(s', l, j) ensures HolderFits(chunk, claims, s', origins, l, j) {
      assert HolderFits(chunk, claims, s, origins, l, j);
    }
  }

  lemma {:induction false} OwnerKeeps(chunk: Chunk, claims: set<Slot>, s: State, s': State, origins: map<nat, Slot>)
    requires Accepted(chunk, claims) && Inv(chunk, claims, s, origins) && OwnerStep(s, s')
    ensures Inv(chunk, claims, s', origins) && ClaimsKept(claims, s, s')
  {
    var c: nat :| c < |s.cells| && !s.cells[c].kind.ByValue? && SameCellsBut(s, s', c);
    SameShape(chunk, claims, s, s', origins, c);
    forall l: nat, j: nat | Holds(s, l, j) && SlotOf(s, l, j) in claims ensures Kept(s, s', l, j) {
      assert HolderFits(chunk, claims, s, origins, l, j);
    }
  }

  lemma {:induction false} OldHolders(chunk: Chunk, claims: set<Slot>, s: State, s': State, origins: map<nat, Slot>,
      origins': map<nat, Slot>, made: Closure, k: nat, j: nat)
    requires Inv(chunk, claims, s, origins) && Extends(s, s', made) && Holds(s', k, j) && k < |s.closures|
    requires forall c :: c in origins ==> c in origins' && origins'[c] == origins[c]
    ensures Holds(s, k, j) && HolderFits(chunk, claims, s', origins', k, j) && Kept(s, s', k, j)
  {
    assert s'.closures[k] == s.closures[k];
    assert HolderFits(chunk, claims, s, origins, k, j);
    var c := s.closures[k].slots[j];
    assert s'.cells[c] == s'.cells[..|s.cells|][c];
  }

  lemma {:induction false} LoadKeeps(chunk: Chunk, claims: set<Slot>, s: State, s': State, origins: map<nat, Slot>)
    requires Accepted(chunk, claims) && Inv(chunk, claims, s, origins) && LoadStep(chunk, s, s')
    ensures Inv(chunk, claims, s', origins) && ClaimsKept(claims, s, s')
  {
    var made: Closure :|
      Extends(s, s', made) && chunk.main < |chunk.protos| && made.proto == chunk.main &&
        |made.slots| == chunk.protos[chunk.main].upvalues
      && (forall j :: 0 <= j < |made.slots| ==> s'.cells[made.slots[j]].kind.External?)
      && forall c: nat :: |s.cells| <= c < |s'.cells| ==> s'.cells[c].kind.External?;
    forall k: nat, j: nat | Holds(s', k, j) ensures HolderFits(chunk, claims, s', origins, k, j) {
      if k < |s.closures| { OldHolders(chunk, claims, s, s', origins, origins, made, k, j); }
    }
    forall k: nat, j: nat | Holds(s, k, j) && SlotOf(s, k, j) in claims ensures Kept(s, s', k, j) {
      assert s'.closures[k] == s.closures[k];
      OldHolders(chunk, claims, s, s', origins, origins, made, k, j);
    }
  }

  lemma {:induction false} TakenByMachine(chunk: Chunk, s: State, s': State, k: nat, i: nat, made: Closure, j: nat)
    requires Builds(chunk, s, s', k, i, made) && j < |made.slots|
    ensures var p := s.closures[k].proto;
            i + j + 1 < |chunk.protos[p].insns| && chunk.protos[p].insns[i + j + 1].insn.Capture?
            && TakenFrom(chunk, (made.proto, j), SourceOf(p, chunk.protos[p].insns[i + j + 1].insn))
  {
    assert TakesSlot(chunk, s, s', k, i, made, j);
    var p := s.closures[k].proto;
    assert ConstructsAt(chunk, p, i, (made.proto, j), SourceOf(p, chunk.protos[p].insns[i + j + 1].insn));
  }

  lemma {:induction false} BuildKeeps(chunk: Chunk, claims: set<Slot>, s: State, s': State, origins: map<nat, Slot>,
      k: nat, i: nat, made: Closure)
    returns (origins': map<nat, Slot>)
    requires Accepted(chunk, claims) && Inv(chunk, claims, s, origins) && Builds(chunk, s, s', k, i, made)
    ensures Inv(chunk, claims, s', origins') && ClaimsKept(claims, s, s')
  {
    origins' := origins + Newborn(s, made, |made.slots|);
    forall c: nat
      ensures c in Newborn(s, made, |made.slots|) ==> c >= |s.cells| && c in made.slots
    {
      NewbornAre(s, made, |made.slots|, c);
    }
    forall l: nat, j: nat | Holds(s', l, j) ensures HolderFits(chunk, claims, s', origins', l, j) {
      if l < |s.closures| {
        OldHolders(chunk, claims, s, s', origins, origins', made, l, j);
      } else {
        NewHolder(chunk, claims, s, s', origins, origins', k, i, made, j);
      }
    }
    forall l: nat, j: nat | Holds(s, l, j) && SlotOf(s, l, j) in claims ensures Kept(s, s', l, j) {
      assert s'.closures[l] == s.closures[l];
      OldHolders(chunk, claims, s, s', origins, origins', made, l, j);
    }
  }

  /** Cells born in the first `n` slots of a new closure. */
  function Newborn(s: State, made: Closure, n: nat): map<nat, Slot>
    requires n <= |made.slots|
  {
    if n == 0 then map[]
    else if made.slots[n - 1] < |s.cells| then Newborn(s, made, n - 1)
    else Newborn(s, made, n - 1)[made.slots[n - 1] := (made.proto, n - 1)]
  }

  lemma {:induction false} NewbornAre(s: State, made: Closure, n: nat, c: nat)
    requires n <= |made.slots|
    ensures c in Newborn(s, made, n) ==> c >= |s.cells| && c in made.slots[..n]
    ensures c >= |s.cells| && c in made.slots[..n] ==> c in Newborn(s, made, n)
  {
    if n > 0 {
      NewbornAre(s, made, n - 1, c);
      assert made.slots[..n] == made.slots[..n - 1] + [made.slots[n - 1]];
    }
  }

  lemma {:induction false} BornThere(s: State, made: Closure, n: nat, j: nat)
    requires j < n <= |made.slots| && made.slots[j] >= |s.cells|
    requires forall l :: 0 <= l < |made.slots| && l != j ==> made.slots[l] != made.slots[j]
    ensures made.slots[j] in Newborn(s, made, n) && Newborn(s, made, n)[made.slots[j]] == (made.proto, j)
  {
    if j < n - 1 { BornThere(s, made, n - 1, j); }
  }

  lemma {:induction false} NewHolder(chunk: Chunk, claims: set<Slot>, s: State, s': State, origins: map<nat, Slot>,
      origins': map<nat, Slot>, k: nat, i: nat, made: Closure, j: nat)
    requires Accepted(chunk, claims) && Inv(chunk, claims, s, origins) && Builds(chunk, s, s', k, i, made)
    requires j < |made.slots|
    requires origins' == origins + Newborn(s, made, |made.slots|)
    ensures HolderFits(chunk, claims, s', origins', |s.closures|, j)
  {
    var p, c, target := s.closures[k].proto, made.slots[j], (made.proto, j);
    TakenByMachine(chunk, s, s', k, i, made, j);
    assert TakesSlot(chunk, s, s', k, i, made, j);
    var capture := chunk.protos[p].insns[i + j + 1].insn;
    assert target in claims ==> GoodClaim(chunk, claims, target);
    NewbornAre(s, made, |made.slots|, c);
    if capture.mode == 0 {
      BornThere(s, made, |made.slots|, j);
    } else if capture.mode == 1 {
    } else {
      assert Holds(s, k, capture.source) && HolderFits(chunk, claims, s, origins, k, capture.source);
      assert s'.cells[c] == s'.cells[..|s.cells|][c];
    }
  }

  lemma {:induction false} StepKeeps(chunk: Chunk, claims: set<Slot>, s: State, s': State, origins: map<nat, Slot>)
    returns (origins': map<nat, Slot>)
    requires Accepted(chunk, claims) && Inv(chunk, claims, s, origins) && Step(chunk, s, s')
    ensures Inv(chunk, claims, s', origins') && ClaimsKept(claims, s, s')
  {
    hide Inv, Accepted, OwnerStep, LoadStep, ClaimsKept;
    if WriteStep(chunk, s, s') {
      origins' := origins;
      var k: nat, slot: nat, i: nat :| WritesSlot(chunk, s, s', k, slot, i);
      WriteKeeps(chunk, claims, s, s', origins, k, slot, i);
    } else if OwnerStep(s, s') {
      origins' := origins;
      OwnerKeeps(chunk, claims, s, s', origins);
    } else if LoadStep(chunk, s, s') {
      origins' := origins;
      LoadKeeps(chunk, claims, s, s', origins);
    } else {
      var k: nat, i: nat, made: Closure :| Builds(chunk, s, s', k, i, made);
      origins' := BuildKeeps(chunk, claims, s, s', origins, k, i, made);
    }
  }

  // ----- every run -----

  ghost predicate IsRun(chunk: Chunk, states: seq<State>) {
    |states| > 0 && states[0] == State([], []) && forall i: nat :: i + 1 < |states| ==> StepAt(chunk, states, i)
  }

  ghost predicate StepAt(chunk: Chunk, states: seq<State>, i: nat)
    requires i + 1 < |states|
  {
    Step(chunk, states[i], states[i + 1])
  }

  lemma {:induction false} Reached(chunk: Chunk, claims: set<Slot>, states: seq<State>, i: nat)
    returns (origins: map<nat, Slot>)
    requires Accepted(chunk, claims) && IsRun(chunk, states) && i < |states|
    ensures Inv(chunk, claims, states[i], origins)
  {
    if i == 0 {
      origins := map[];
    } else {
      var before := Reached(chunk, claims, states, i - 1);
      assert StepAt(chunk, states, i - 1);
      origins := StepKeeps(chunk, claims, states[i - 1], states[i], before);
    }
  }

  /** In every run, the value of a claimed slot never changes after its closure is created. */
  lemma {:induction false} ClaimsNeverChange(chunk: Chunk, claims: set<Slot>, states: seq<State>, i: nat, n: nat,
      k: nat, j: nat)
    requires Accepted(chunk, claims) && IsRun(chunk, states) && i <= n < |states|
    requires Holds(states[i], k, j) && SlotOf(states[i], k, j) in claims
    ensures Kept(states[i], states[n], k, j)
    decreases n - i
  {
    hide Step, Accepted;
    if i == n {
      var origins := Reached(chunk, claims, states, i);
      assert HolderFits(chunk, claims, states[i], origins, k, j);
    } else {
      ClaimsNeverChange(chunk, claims, states, i, n - 1, k, j);
      var origins := Reached(chunk, claims, states, n - 1);
      assert StepAt(chunk, states, n - 1);
      var after := StepKeeps(chunk, claims, states[n - 1], states[n], origins);
      assert Kept(states[n - 1], states[n], k, j);
    }
  }

  /** What the check's verdict means. */
  lemma {:induction false} CertificateHolds(chunk: Chunk, rows: seq<Row>, claims: set<Slot>, states: seq<State>, i: nat,
      n: nat, k: nat, j: nat)
    requires GoodRows(chunk, rows) && Certified(chunk, claims) && forall slot :: slot in claims <==> Claimed(rows, slot)
    requires IsRun(chunk, states) && i <= n < |states| && Holds(states[i], k, j)
    requires Claimed(rows, SlotOf(states[i], k, j))
    ensures Kept(states[i], states[n], k, j)
  {
    hide Certified, IsRun;
    ClaimsNeverChange(chunk, claims, states, i, n, k, j);
  }
}
