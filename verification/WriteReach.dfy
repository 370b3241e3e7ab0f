/** Whether a captured register can still be written: a search over the control flow of one
    function that stops where a CLOSEUPVALS closes the register. */
module WriteReach {
  import opened Options
  import opened FlowShapes
  import opened FlowSteps

  // ----- paths -----

  ghost predicate IsPath(insns: seq<Insn>, path: seq<nat>) {
    |path| > 0 && (forall i :: 0 <= i < |path| ==> path[i] < |insns|) && forall i: nat ::
      i + 1 < |path| ==> StepsAt(insns, path, i)
  }

  ghost predicate StepsAt(insns: seq<Insn>, path: seq<nat>, i: nat)
    requires i + 1 < |path|
  {
    path[i] < |insns| && CanStep(insns, path[i], path[i + 1])
  }

  /** A path from `start` to a write of the register, which nothing on it closes. */
  ghost predicate WritePath(insns: seq<Insn>, start: nat, register: nat, path: seq<nat>) {
    && IsPath(insns, path) && path[0] == start && Writes(insns, path[|path| - 1], register)
    && forall i :: 0 <= i < |path| ==> !Closes(insns, path[i], register)
  }

  // ----- fast calls -----

  /** Control passes from `k` straight to `j`, closing nothing on the way. */
  ghost predicate Straight(insns: seq<Insn>, k: nat, j: nat) {
    k <= j < |insns| && (forall i :: k <= i < j ==> OnlyGoesOn(insns[i].leaves)) && forall i ::
      k <= i <= j ==> insns[i].closes == None
  }

  predicate OnlyGoesOn(leaves: Leaves) { leaves == FallsThrough || leaves == Skips(0) }

  function Between(k: nat, j: nat): seq<nat>
    requires k <= j
  {
    seq(j - k + 1, i requires 0 <= i < j - k + 1 => k + i)
  }

  /** A fast call at `k` that succeeds writes the results of the call at `j` and goes on behind it.
      The search only lets it fall through, and misses nothing: what success writes, the call on the
      way through writes ... */
  lemma {:induction false} SuccessWrites(insns: seq<Insn>, k: nat, j: nat, register: nat)
    requires Straight(insns, k, j) && Writes(insns, j, register)
    ensures WritePath(insns, k, register, Between(k, j))
  {
    forall i: nat | i + 1 < |Between(k, j)| ensures StepsAt(insns, Between(k, j), i) { }
  }

  /** ... and what can be written after success can be written after the call. */
  lemma {:induction false} SuccessGoesOn(insns: seq<Insn>, k: nat, j: nat, register: nat, path: seq<nat>)
    requires Straight(insns, k, j) && insns[j].leaves == FallsThrough && WritePath(insns, j + 1, register, path)
    ensures WritePath(insns, k, register, Between(k, j) + path)
  {
    var longer := Between(k, j) + path;
    forall i: nat | i + 1 < |longer| ensures StepsAt(insns, longer, i) {
      if i > j - k { assert StepsAt(insns, path, i - (j - k + 1)); }
    }
  }

  // ----- the flow tables -----

  type Successors = seq<seq<nat>>
  type Ranges = seq<(int, int)>

  datatype FlowTables = FlowTables(successors: Successors, writes: Ranges, closes: seq<int>)

  ghost predicate IsIndex(insns: seq<Insn>, indexOf: map<int, nat>, n: nat)
    requires n <= |insns|
  {
    && (forall k: nat :: k < n ==> insns[k].pc in indexOf && indexOf[insns[k].pc] == k)
    && forall pc :: pc in indexOf ==> indexOf[pc] < n && insns[indexOf[pc]].pc == pc
  }

  function TargetAt(indexOf: map<int, nat>, pc: int): seq<nat> { if pc in indexOf then [indexOf[pc]] else [] }

  function NextOf(k: nat, n: nat): seq<nat> { if k + 1 < n then [k + 1] else [] }

  function TargetsOf(indexOf: map<int, nat>, insn: Insn, k: nat, n: nat): seq<nat> {
    match insn.leaves
    case Stops => []
    case Jumps(offset) => TargetAt(indexOf, insn.pc + 1 + offset)
    case Skips(count) => if count != 0 then TargetAt(indexOf, insn.pc + 1 + count) else NextOf(k, n)
    case Branches(offset) => TargetAt(indexOf, insn.pc + 1 + offset) + NextOf(k, n)
    case FallsThrough => NextOf(k, n)
  }

  /** The tables say what the instructions do. */
  ghost predicate Describes(insns: seq<Insn>, flow: FlowTables) {
    && |flow.successors| == |flow.writes| == |flow.closes| == |insns|
    && forall k: nat :: k < |insns| ==> DescribesAt(insns, flow.successors[k], flow.writes[k], flow.closes[k], k)
  }

  ghost predicate DescribesAt(insns: seq<Insn>, successors: seq<nat>, range: (int, int), closes: int, k: nat)
    requires k < |insns|
  {
    && (forall t: nat :: t in successors <==> CanStep(insns, k, t)) && range == WrittenRange(insns[k].effect)
    && closes == if insns[k].closes.Some? then insns[k].closes.value else FRAME_TOP
  }

  lemma {:induction false} TargetsAre(insns: seq<Insn>, indexOf: map<int, nat>, k: nat, t: nat)
    requires IsIndex(insns, indexOf, |insns|) && k < |insns|
    ensures t in TargetsOf(indexOf, insns[k], k, |insns|) <==> CanStep(insns, k, t)
  {
    assert t < |insns| ==> indexOf[insns[t].pc] == t;
  }

  /** The successors are those of the machine's steps, the range holds exactly the registers some step
      changes, and CLOSEUPVALS closes from its register on. */
  ghost predicate TablesAt(rows: seq<Row>, flow: FlowTables, k: nat)
    requires k < |rows| == |flow.successors| == |flow.writes| == |flow.closes|
  {
    && (forall t: nat :: t in flow.successors[k] <==> Successor(rows, k, t))
    && (forall r: nat :: flow.writes[k].0 <= r < flow.writes[k].1 <==> MayChange(rows[k], r))
    && flow.closes[k] == if rows[k].op == 11 then rows[k].a else 256
  }

  lemma {:induction false} TablesMean(rows: seq<Row>, flow: FlowTables, k: nat)
    requires Describes(Shapes(rows), flow) && k < |rows|
    ensures TablesAt(rows, flow, k)
  {
    hide StepAt, LeavesOf, EffectOf;
    assert DescribesAt(Shapes(rows), flow.successors[k], flow.writes[k], flow.closes[k], k);
    assert Shapes(rows)[k] == ShapeOf(rows[k]);
    forall t: nat ensures CanStep(Shapes(rows), k, t) <==> Successor(rows, k, t) {
      if CanStep(Shapes(rows), k, t) { EdgeHasStep(rows, k, t); }
      if Successor(rows, k, t) {
        var regs, regs' :| StepAt(rows, k, regs, t, regs');
        StepHasShape(rows, k, regs, t, regs');
      }
    }
    forall r: nat ensures Writes(Shapes(rows), k, r) <==> MayChange(rows[k], r) {
      if Writes(Shapes(rows), k, r) { RangeHasStep(rows[k], r); }
      if MayChange(rows[k], r) {
        var others: seq<Row>, j: nat, regs, t: nat, regs' :|
          j < |others| && others[j] == rows[k] && StepAt(others, j, regs, t, regs') && regs'(r) != regs(r);
        StepHasShape(others, j, regs, t, regs');
        assert Shapes(others)[j] == ShapeOf(rows[k]);
      }
    }
  }

  method CaptureFlow(rows: seq<Row>) returns (flow: FlowTables)
    requires DistinctPcs(Shapes(rows))
    ensures Describes(Shapes(rows), flow)
    ensures |flow.successors| == |flow.writes| == |flow.closes| == |rows|
    ensures forall k: nat :: k < |rows| ==> TablesAt(rows, flow, k)
  {
    hide ShapeOf;
    var insns := Shapes(rows);
    var indexOf: map<int, nat> := map[];
    for k := 0 to |insns|
      invariant IsIndex(insns, indexOf, k)
    {
      indexOf := indexOf[insns[k].pc := k];
    }
    var successors: Successors, writes: Ranges, closes: seq<int> := [], [], [];
    for k := 0 to |insns|
      invariant |successors| == |writes| == |closes| == k
      invariant forall j: nat :: j < k ==> DescribesAt(insns, successors[j], writes[j], closes[j], j)
    {
      forall t: nat
        ensures t in TargetsOf(indexOf, insns[k], k, |insns|) <==> CanStep(insns, k, t)
      {
        TargetsAre(insns, indexOf, k, t);
      }
      successors := successors + [TargetsOf(indexOf, insns[k], k, |insns|)];
      writes := writes + [WrittenRange(insns[k].effect)];
      closes := closes + [if insns[k].closes.Some? then insns[k].closes.value else FRAME_TOP];
    }
    flow := FlowTables(successors, writes, closes);
    forall k: nat | k < |rows| ensures TablesAt(rows, flow, k) { TablesMean(rows, flow, k); }
  }

  // ----- the search -----

  /** Reached from the start without passing a close. */
  ghost predicate OpenTo(insns: seq<Insn>, start: nat, register: nat, k: nat) {
    exists path: seq<nat> :: OpenPath(insns, start, register, k, path)
  }

  ghost predicate OpenPath(insns: seq<Insn>, start: nat, register: nat, k: nat, path: seq<nat>) {
    && IsPath(insns, path) && path[0] == start && path[|path| - 1] == k
    && forall i :: 0 <= i < |path| - 1 ==> !Closes(insns, path[i], register)
  }

  lemma {:induction false} OpenOn(insns: seq<Insn>, start: nat, register: nat, k: nat, t: nat)
    requires OpenTo(insns, start, register, k) && k < |insns| && !Closes(insns, k, register) && CanStep(insns, k, t)
    ensures OpenTo(insns, start, register, t)
  {
    var path: seq<nat> :| OpenPath(insns, start, register, k, path);
    var longer := path + [t];
    forall i: nat | i + 1 < |longer|
      ensures StepsAt(insns, longer, i)
    {
      if i + 1 < |path| { assert StepsAt(insns, path, i); }
    }
    assert OpenPath(insns, start, register, t, longer);
  }

  /** A node done with neither writes the register nor leads, unless it closes it, to unknown nodes. */
  ghost predicate DoneWith(insns: seq<Insn>, register: nat, seen: seq<bool>, stack: seq<nat>, k: nat)
    requires k < |insns| == |seen|
  {
    Closes(insns, k, register) ||
      (!Writes(insns, k, register) && forall t: nat :: CanStep(insns, k, t) ==> seen[t] || t in stack)
  }

  lemma {:induction false} PathIsSeen(insns: seq<Insn>, register: nat, seen: seq<bool>, path: seq<nat>, i: nat)
    requires IsPath(insns, path) && i < |path| && |seen| == |insns| && seen[path[0]]
    requires forall j :: 0 <= j < |path| ==> !Closes(insns, path[j], register)
    requires forall k: nat :: k < |insns| && seen[k] ==> DoneWith(insns, register, seen, [], k)
    ensures seen[path[i]]
  {
    if i > 0 {
      PathIsSeen(insns, register, seen, path, i - 1);
      assert StepsAt(insns, path, i - 1) && DoneWith(insns, register, seen, [], path[i - 1]);
    }
  }

  ghost predicate Searching(insns: seq<Insn>, start: nat, register: nat, seen: seq<bool>, stack: seq<nat>) {
    && |seen| == |insns|
    && (forall k: nat :: k in stack ==> k < |insns| && OpenTo(insns, start, register, k))
    && (forall k: nat :: k < |insns| && seen[k] ==> DoneWith(insns, register, seen, stack, k))
    && (start < |insns| ==> seen[start] || start in stack)
  }

  lemma {:induction false} StartSearch(insns: seq<Insn>, start: nat, register: nat, seen: seq<bool>)
    requires |seen| == |insns| && forall k :: 0 <= k < |insns| ==> !seen[k]
    ensures Searching(insns, start, register, seen, if start < |insns| then [start] else [])
  {
    if start < |insns| { assert OpenPath(insns, start, register, start, [start]); }
  }

  lemma {:induction false} SeenAgain(insns: seq<Insn>, start: nat, register: nat, seen: seq<bool>, stack: seq<nat>,
      k: nat)
    requires Searching(insns, start, register, seen, stack + [k]) && k < |insns| && seen[k]
    ensures Searching(insns, start, register, seen, stack)
  {
    hide OpenTo, Closes, Writes, CanStep;
    assert forall t :: t in stack ==> t in stack + [k];
    forall j: nat | j < |insns| && seen[j]
      ensures DoneWith(insns, register, seen, stack, j)
    {
      assert DoneWith(insns, register, seen, stack + [k], j);
    }
  }

  lemma {:induction false} SeenNow(insns: seq<Insn>, start: nat, register: nat, seen: seq<bool>, stack: seq<nat>,
      k: nat, more: seq<nat>)
    requires Searching(insns, start, register, seen, stack + [k]) && k < |insns|
    requires if Closes(insns, k, register) then more == []
        else !Writes(insns, k, register) && forall t: nat :: t in more <==> CanStep(insns, k, t)
    ensures Searching(insns, start, register, seen[k := true], stack + more)
  {
    hide OpenTo, Closes, Writes;
    var whole, seen' := stack + [k], seen[k := true];
    assert whole[|stack|] == k;
    forall t: nat | t in stack + more ensures t < |insns| && OpenTo(insns, start, register, t) {
      if t in stack { assert t in whole; } else { OpenOn(insns, start, register, k, t); }
    }
    forall j: nat | j < |insns| && seen'[j] ensures DoneWith(insns, register, seen', stack + more, j) {
      if j != k { assert DoneWith(insns, register, seen, whole, j); }
    }
  }

  /** A write at an open node is a write path. */
  lemma {:induction false} FoundWrite(insns: seq<Insn>, start: nat, register: nat, seen: seq<bool>, stack: seq<nat>,
      k: nat)
    requires Searching(insns, start, register, seen, stack + [k]) && k < |insns| && !Closes(insns, k, register)
    requires Writes(insns, k, register)
    ensures exists path: seq<nat> :: WritePath(insns, start, register, path)
  {
    var whole := stack + [k];
    assert whole[|stack|] == k && OpenTo(insns, start, register, k);
    var path: seq<nat> :| OpenPath(insns, start, register, k, path);
    assert WritePath(insns, start, register, path);
  }

  lemma {:induction false} SearchedAll(insns: seq<Insn>, start: nat, register: nat, seen: seq<bool>)
    requires Searching(insns, start, register, seen, [])
    ensures !exists path: seq<nat> :: WritePath(insns, start, register, path)
  {
    forall path: seq<nat> ensures !WritePath(insns, start, register, path) {
      if IsPath(insns, path) && path[0] == start && forall i :: 0 <= i < |path| ==> !Closes(insns, path[i], register) {
        NoWrite(insns, start, register, seen, path);
      }
    }
  }

  ghost function Unseen(seen: seq<bool>): set<nat> { set k: nat | k < |seen| && !seen[k] }

  /** True exactly when some path from `start` reaches a write that nothing closes first. */
  method WriteReachable(insns: seq<Insn>, flow: FlowTables, start: nat, register: nat) returns (found: bool)
    requires Describes(insns, flow) && register < FRAME_TOP
    ensures found <==> exists path: seq<nat> :: WritePath(insns, start, register, path)
  {
    hide Searching, WritePath, CanStep;
    var n := |flow.successors|;
    var seen := new bool[n](i => false);
    var stack: seq<nat> := if start < n then [start] else [];
    StartSearch(insns, start, register, seen[..]);
    while stack != []
      invariant Searching(insns, start, register, seen[..], stack)
      decreases Unseen(seen[..]), |stack|
    {
      var top := |stack| - 1;
      var k := stack[top];
      ghost var before := seen[..];
      assert stack == stack[..top] + [k];
      InRange(insns, start, register, before, stack, top);
      stack := stack[..top];
      if seen[k] {
        SeenAgain(insns, start, register, before, stack, k);
        continue;
      }
      seen[k] := true;
      assert seen[..] == before[k := true];
      assert k in Unseen(before) && k !in Unseen(seen[..]) && Unseen(seen[..]) <= Unseen(before);
      assert DescribesAt(insns, flow.successors[k], flow.writes[k], flow.closes[k], k);
      if flow.closes[k] <= register {
        SeenNow(insns, start, register, before, stack, k, []);
        assert stack + [] == stack;
        continue;
      }
      var (low, high) := flow.writes[k];
      if low <= register < high {
        FoundWrite(insns, start, register, before, stack, k);
        return true;
      }
      SeenNow(insns, start, register, before, stack, k, flow.successors[k]);
      stack := stack + flow.successors[k];
    }
    SearchedAll(insns, start, register, seen[..]);
    found := false;
  }

  lemma {:induction false} InRange(insns: seq<Insn>, start: nat, register: nat, seen: seq<bool>, stack: seq<nat>,
      i: nat)
    requires Searching(insns, start, register, seen, stack) && i < |stack|
    ensures stack[i] < |insns|
  {
    assert stack[i] in stack;
  }

  lemma {:induction false} NoWrite(insns: seq<Insn>, start: nat, register: nat, seen: seq<bool>, path: seq<nat>)
    requires |seen| == |insns| && (start < |insns| ==> seen[start]) && IsPath(insns, path) && path[0] == start
    requires forall i :: 0 <= i < |path| ==> !Closes(insns, path[i], register)
    requires forall k: nat :: k < |insns| && seen[k] ==> DoneWith(insns, register, seen, [], k)
    ensures !Writes(insns, path[|path| - 1], register)
  {
    PathIsSeen(insns, register, seen, path, |path| - 1);
    assert DoneWith(insns, register, seen, [], path[|path| - 1]);
  }

  // ----- runs of the machine -----

  datatype Frame = Frame(at: nat, regs: Regs)

  /** One move of the machine: a step, or a fast call that succeeds. */
  ghost predicate Moves(rows: seq<Row>, s: Frame, s': Frame) {
    s.at < |rows| && (StepAt(rows, s.at, s.regs, s'.at, s'.regs) || SucceedsAt(rows, s.at, s.regs, s'.at, s'.regs))
  }

  /** A run from `start` whose last move changes the register, and which executes no CLOSEUPVALS that
      closes it. */
  ghost predicate ChangesAtEnd(rows: seq<Row>, run: seq<Frame>, start: nat, register: nat) {
    && |run| > 1 && run[0].at == start
    && (forall i: nat :: i + 1 < |run| ==> Moves(rows, run[i], run[i + 1]) && !ClosedAt(rows, run[i].at, register))
    && run[|run| - 1].regs(register) != run[|run| - 2].regs(register)
  }

  ghost predicate ClosedAt(rows: seq<Row>, k: nat, register: nat) {
    k < |rows| && rows[k].op == 11 && rows[k].a <= register
  }

  lemma {:induction false} FastCallIsStraight(rows: seq<Row>, k: nat, j: nat)
    requires CallsAreStraight(rows) && k < |rows| && FastCallTo(rows, k, j)
    ensures Straight(Shapes(rows), k, j) && Shapes(rows)[j].leaves == FallsThrough
    ensures Shapes(rows)[j].effect == CallResults(rows[j].a, rows[j].c)
  {
    forall i: nat | k <= i <= j
      ensures Shapes(rows)[i] == ShapeOf(rows[i])
      ensures OnlyGoesOn(Shapes(rows)[i].leaves)
      ensures Shapes(rows)[i].closes == None
    {
    }
  }

  /** A move that changes the register gives a path to a write of it. */
  lemma {:induction false} MoveWrites(rows: seq<Row>, s: Frame, s': Frame, register: nat) returns (path: seq<nat>)
    requires CallsAreStraight(rows) && Moves(rows, s, s') && s'.regs(register) != s.regs(register)
    requires !ClosedAt(rows, s.at, register)
    ensures WritePath(Shapes(rows), s.at, register, path)
  {
    hide StepAt, LeavesOf, EffectOf, CallsAreStraight;
    assert Shapes(rows)[s.at] == ShapeOf(rows[s.at]);
    if StepAt(rows, s.at, s.regs, s'.at, s'.regs) {
      StepHasShape(rows, s.at, s.regs, s'.at, s'.regs);
      path := [s.at];
    } else {
      var j: nat :| FastCallTo(rows, s.at, j) && s'.at == j + 1 &&
        Within(s.regs, s'.regs, rows[j].a, if rows[j].c == 0 then 256 else rows[j].a + rows[j].c - 1);
      FastCallIsStraight(rows, s.at, j);
      SuccessWrites(Shapes(rows), s.at, j, register);
      path := Between(s.at, j);
    }
  }

  /** What can be written after a move can be written from before it. */
  lemma {:induction false} MoveGoesOn(rows: seq<Row>, s: Frame, s': Frame, register: nat, path: seq<nat>)
    returns (longer: seq<nat>)
    requires CallsAreStraight(rows) && Moves(rows, s, s') && !ClosedAt(rows, s.at, register)
    requires WritePath(Shapes(rows), s'.at, register, path)
    ensures WritePath(Shapes(rows), s.at, register, longer)
  {
    hide StepAt, LeavesOf, EffectOf, CallsAreStraight, Writes;
    var insns := Shapes(rows);
    assert insns[s.at] == ShapeOf(rows[s.at]);
    if StepAt(rows, s.at, s.regs, s'.at, s'.regs) {
      StepHasShape(rows, s.at, s.regs, s'.at, s'.regs);
      longer := [s.at] + path;
      forall i: nat | i + 1 < |longer| ensures StepsAt(insns, longer, i) {
        if i > 0 { assert StepsAt(insns, path, i - 1); }
      }
    } else {
      var j: nat :| FastCallTo(rows, s.at, j) && s'.at == j + 1;
      FastCallIsStraight(rows, s.at, j);
      SuccessGoesOn(insns, s.at, j, register, path);
      longer := Between(s.at, j) + path;
    }
  }

  /** Every run that changes the register before it is closed is found. */
  lemma {:induction false} ChangesAreFound(rows: seq<Row>, run: seq<Frame>, start: nat, register: nat)
    requires CallsAreStraight(rows) && ChangesAtEnd(rows, run, start, register)
    ensures exists path: seq<nat> :: WritePath(Shapes(rows), start, register, path)
    decreases |run|
  {
    hide Moves, ClosedAt, WritePath, CallsAreStraight;
    assert Moves(rows, run[0], run[0 + 1]);
    if |run| == 2 {
      var path := MoveWrites(rows, run[0], run[1], register);
    } else {
      var rest := run[1..];
      forall i: nat | i + 1 < |rest|
        ensures Moves(rows, rest[i], rest[i + 1]) && !ClosedAt(rows, rest[i].at, register)
      {
        assert Moves(rows, run[i + 1], run[i + 1 + 1]);
      }
      ChangesAreFound(rows, rest, rest[0].at, register);
      var path: seq<nat> :| WritePath(Shapes(rows), rest[0].at, register, path);
      var longer := MoveGoesOn(rows, run[0], run[1], register, path);
    }
  }
}
