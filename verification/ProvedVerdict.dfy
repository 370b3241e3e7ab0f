/** What a verdict of the acyclic comparison is worth. */
module ProvedVerdict {
  import opened Events
  import opened Bytecode
  import opened SymbolicTree
  import opened TreeRuns
  import opened RegisterMachine
  import opened Supplies
  import opened AcyclicProof
  import opened SymbolicExecutor

  /** In the environment `w`, on these arguments, the two main functions end in the same way when
      the tables they make are born at these addresses. */
  ghost predicate EndAlike(original: Chunk, names: Names, rebuilt: Chunk, names': Names, w: World,
                           supply: Supply, supply': Supply, params: seq<Val>, n: nat)
    requires ValidChunk(original) && ValidChunk(rebuilt)
  {
    var p, q := original.main, rebuilt.main;
    var run := RunFor(MachineOf(original, names, p), w, supply, Entry(original.protos[p], params), n);
    && run.Some? && run.value.Returned?
    && run == RunFor(MachineOf(rebuilt, names', q), w, supply', Entry(rebuilt.protos[q], params), n)
  }

  /** Both chunks are `Proved`: with templates kept apart, each behaviour of either main function,
      in any environment and on any arguments, is a behaviour of the other. */
  lemma {:induction false} ProvedBehaveAlike(original: Chunk, names: Names, rebuilt: Chunk, names': Names, w: World,
                                             supply: Supply, params: seq<Val>, n: nat)
    returns (there: Supply, back: Supply)
    requires ValidChunk(original) && ValidChunk(rebuilt)
    requires Numbered(names) && Numbered(names') && Verdict(original, names, rebuilt, names') == Proved
    requires Trusted(original, w) && Trusted(rebuilt, w) && NeverReused(supply)
    requires n >= |original.protos[original.main].code| && n >= |rebuilt.protos[rebuilt.main].code|
    ensures NeverReused(there) && EndAlike(original, names, rebuilt, names', w, supply, there, params, n)
    ensures NeverReused(back) && EndAlike(original, names, rebuilt, names', w, back, supply, params, n)
  {
    hide RunFor, TreeOf, Entry;
    there := EqualTreesBehaveAlike(original, names, original.main, 0, rebuilt, names', rebuilt.main, 0, w, supply,
      params, n);
    back := EqualTreesBehaveAlike(rebuilt, names', rebuilt.main, 0, original, names, original.main, 0, w, supply,
      params, n);
  }

  /** The same for closures inside two chunks: when the environment calls a closure whose body has
      the same tree in both, it cannot tell which of the two it was given. */
  lemma {:induction false} ClosuresInterchange(one: Chunk, names: Names, p: nat, depth: nat, other: Chunk,
      names': Names, q: nat, depth': nat, w: World, supply: Supply, params: seq<Val>, n: nat)
    returns (supply': Supply)
    requires ValidChunk(one) && ValidChunk(other) && BodiesAt(one, names, depth)(p).Some?
    requires BodiesAt(other, names', depth')(q) == BodiesAt(one, names, depth)(p)
    requires Trusted(one, w) && Trusted(other, w) && NeverReused(supply)
    requires n >= |one.protos[p].code| && n >= |other.protos[q].code|
    ensures Meaning(one, names)(p) == Meaning(other, names')(q) == BodiesAt(one, names, depth)(p).value
    ensures NeverReused(supply')
    ensures var run := RunFor(MachineOf(one, names, p), w, supply, Entry(one.protos[p], params), n);
            run.Some? && run.value.Returned?
            && run == RunFor(MachineOf(other, names', q), w, supply', Entry(other.protos[q], params), n)
  {
    hide RunFor, TreeOf, Entry;
    BodyIs(one, names, depth, p);
    BodyIs(other, names', depth', q);
    DepthZero(one, names, p, depth);
    DepthZero(other, names', q, depth');
    supply' := EqualTreesBehaveAlike(one, names, p, depth, other, names', q, depth', w, supply, params, n);
  }
}
