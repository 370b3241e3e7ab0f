/** What a renaming of instructions and registers preserves: everything.  Two functions with one
    canonical form perform the same operations on the same values, whatever the opcodes do. */
module CanonicalRuns {
  import opened Options
  import opened Canonical

  // ----- a machine over coded instructions -----

  datatype Value = Nil | Data(id: int)

  /** What an opcode does with a register it mentions; `Clobber` leaves nothing behind. */
  datatype Role = Take | Give | Clobber

  datatype Event = Event(name: string, args: seq<Value>, edge: nat)

  datatype Reply = Reply(results: seq<Value>, edge: nat)

  /** The opcodes: which mention plays which role, and what comes of it, from all that happened. */
  datatype Opcodes = Opcodes(role: (string, nat) -> Role, act: (seq<Event>, string, seq<Value>) -> Reply)

  datatype Point =
    | Running(pc: int, store: map<nat, Value>, trace: seq<Event>)
    | Returned(trace: seq<Event>)
    | Stuck(trace: seq<Event>)

  function ValueAt(vs: seq<Value>, i: nat): Value { if i < |vs| then vs[i] else Nil }

  /** The values taken, in order of mention, or nothing if a register holds none. */
  function Taken(ops: Opcodes, name: string, regs: seq<nat>, store: map<nat, Value>): Option<seq<Value>> {
    if regs == [] then Some([])
    else
      var n := |regs| - 1;
      match Taken(ops, name, regs[..n], store)
      case None => None
      case Some(vs) =>
        if ops.role(name, n) != Take then Some(vs) else if regs[n] in store then Some(vs + [store[regs[n]]]) else None
  }

  /** The store after the roles of the first mentions have been played, in order. */
  function Given(ops: Opcodes, name: string, regs: seq<nat>, store: map<nat, Value>,
      results: seq<Value>): map<nat, Value>
  {
    if regs == [] then store
    else
      var n := |regs| - 1;
      var before := Given(ops, name, regs[..n], store, results);
      match ops.role(name, n)
      case Take => before
      case Give => before[regs[n] := ValueAt(results, n)]
      case Clobber => before - {regs[n]}
  }

  function Step(code: Code, ops: Opcodes, s: Point): Point {
    if !s.Running? then s
    else if s.pc !in code then Stuck(s.trace)
    else
      var insn := code[s.pc];
      match Taken(ops, insn.name, insn.regs, s.store)
      case None => Stuck(s.trace)
      case Some(args) =>
        var reply := ops.act(s.trace, insn.name, args);
        if insn.next == [] then Returned(s.trace + [Event(insn.name, args, 0)])
        else
          var e := reply.edge % |insn.next|;
          Running(insn.next[e], Given(ops, insn.name, insn.regs, s.store, reply.results),
                  s.trace + [Event(insn.name, args, e)])
  }

  function Run(code: Code, ops: Opcodes, s: Point, steps: nat): Point {
    if steps == 0 then s else Step(code, ops, Run(code, ops, s, steps - 1))
  }

  function Entry(args: seq<Value>): Point {
    Running(0, map i: nat | i < |args| :: args[i], [])
  }

  // ----- renamed runs -----

  /** Renamed registers hold what the registers hold. */
  ghost predicate SameHolding(rho: map<nat, nat>, store: map<nat, Value>, store': map<nat, Value>) {
    forall r :: r in rho ==> HoldsAlike(store, r, store', rho[r])
  }

  ghost predicate HoldsAlike(store: map<nat, Value>, r: nat, store': map<nat, Value>, r': nat) {
    (r in store <==> r' in store') && (r in store ==> store[r] == store'[r'])
  }

  /** The one run renamed is the other. */
  ghost predicate Mirrors(f: map<int, int>, rho: map<nat, nat>, a: Point, b: Point) {
    match (a, b)
    case (Running(pc, store, t), Running(qc, store', t')) =>
      pc in f && f[pc] == qc && t == t' && SameHolding(rho, store, store')
    case (Returned(t), Returned(t')) => t == t'
    case (Stuck(t), Stuck(t')) => t == t'
    case _ => false
  }

  ghost predicate RenamedTo(rho: map<nat, nat>, regs: seq<nat>, regs': seq<nat>) {
    |regs| == |regs'| && forall i :: 0 <= i < |regs| ==> regs[i] in rho && regs'[i] == rho[regs[i]]
  }

  lemma {:induction false} TakenAlike(ops: Opcodes, name: string, rho: map<nat, nat>, regs: seq<nat>, regs': seq<nat>,
                                      store: map<nat, Value>, store': map<nat, Value>)
    requires RenamedTo(rho, regs, regs') && SameHolding(rho, store, store')
    ensures Taken(ops, name, regs, store) == Taken(ops, name, regs', store')
  {
    if regs != [] {
      var n := |regs| - 1;
      TakenAlike(ops, name, rho, regs[..n], regs'[..n], store, store');
      assert HoldsAlike(store, regs[n], store', rho[regs[n]]);
    }
  }

  lemma {:induction false} GivenAlike(ops: Opcodes, name: string, rho: map<nat, nat>, regs: seq<nat>, regs': seq<nat>,
                                      store: map<nat, Value>, store': map<nat, Value>, results: seq<Value>)
    requires OneToOne(rho) && RenamedTo(rho, regs, regs') && SameHolding(rho, store, store')
    ensures SameHolding(rho, Given(ops, name, regs, store, results), Given(ops, name, regs', store', results))
  {
    if regs != [] {
      var n := |regs| - 1;
      GivenAlike(ops, name, rho, regs[..n], regs'[..n], store, store', results);
      var before := Given(ops, name, regs[..n], store, results);
      var before' := Given(ops, name, regs'[..n], store', results);
      forall r | r in rho
        ensures HoldsAlike(Given(ops, name, regs, store, results), r, Given(ops, name, regs', store', results), rho[r])
      {
        assert HoldsAlike(before, r, before', rho[r]);
        assert r == regs[n] <==> rho[r] == regs'[n];
      }
    }
  }

  lemma {:induction false} StepMirrors(one: Code, other: Code, params: nat, f: map<int, int>, rho: map<nat, nat>,
      ops: Opcodes, a: Point, b: Point)
    requires Isomorphic(one, other, params, f, rho) && Mirrors(f, rho, a, b)
    ensures Mirrors(f, rho, Step(one, ops, a), Step(other, ops, b))
  {
    if a.Running? {
      hide Onto;
      assert MatchesAt(one, other, f, rho, a.pc);
      var insn, insn' := one[a.pc], other[b.pc];
      TakenAlike(ops, insn.name, rho, insn.regs, insn'.regs, a.store, b.store);
      match Taken(ops, insn.name, insn.regs, a.store)
      case None =>
      case Some(args) =>
        GivenAlike(ops, insn.name, rho, insn.regs, insn'.regs, a.store, b.store,
          ops.act(a.trace, insn.name, args).results);
    }
  }

  lemma {:induction false} EntryMirrors(one: Code, other: Code, params: nat, f: map<int, int>, rho: map<nat, nat>,
      args: seq<Value>)
    requires Isomorphic(one, other, params, f, rho) && |args| == params
    ensures Mirrors(f, rho, Entry(args), Entry(args))
  {
    var store := Entry(args).store;
    forall r | r in rho ensures HoldsAlike(store, r, store, rho[r]) { }
  }

  /** An isomorphism carries runs to runs, whatever the opcodes do and on all arguments. */
  lemma {:induction false} RunMirrors(one: Code, other: Code, params: nat, f: map<int, int>, rho: map<nat, nat>,
      ops: Opcodes, args: seq<Value>, steps: nat)
    requires Isomorphic(one, other, params, f, rho) && |args| == params
    ensures Mirrors(f, rho, Run(one, ops, Entry(args), steps), Run(other, ops, Entry(args), steps))
  {
    hide Isomorphic, Mirrors, Step;
    if steps == 0 {
      EntryMirrors(one, other, params, f, rho, args);
    } else {
      RunMirrors(one, other, params, f, rho, ops, args, steps - 1);
      StepMirrors(one, other, params, f, rho, ops, Run(one, ops, Entry(args), steps - 1),
        Run(other, ops, Entry(args), steps - 1));
    }
  }

  /** Both are running, both have returned, or both are stuck, after the same operations. */
  predicate SamePoint(a: Point, b: Point) {
    a.trace == b.trace && (a.Running? <==> b.Running?) && (a.Returned? <==> b.Returned?)
  }

  /** What a proof by canonical forms means. */
  lemma {:induction false} SameNodesRunAlike(one: Code, other: Code, stack: nat, stack': nat, params: nat, ops: Opcodes,
                                             args: seq<Value>, steps: nat)
    requires WellCoded(one, stack) && WellCoded(other, stack') && Nodes(one, params) == Nodes(other, params)
    requires |args| == params
    ensures SamePoint(Run(one, ops, Entry(args), steps), Run(other, ops, Entry(args), steps))
  {
    hide WellCoded, Isomorphic, Nodes, Run;
    var f, rho := SameNodesIsomorphic(one, other, stack, stack', params);
    RunMirrors(one, other, params, f, rho, ops, args, steps);
  }
}
