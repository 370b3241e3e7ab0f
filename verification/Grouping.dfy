/** Running a graph past the nodes a pass removes: each step of the machine is followed by
    the hidden nodes it leads into, so that the rewritten graph can be compared step by step. */
module Grouping {
  import opened RegisterGraph

  /** Up to `k` further steps while the machine is at a node of `skip`. */
  function Settle<R(==)>(g: seq<Node<R>>, o: Oracle, hidden: set<nat>, skip: set<nat>, k: nat, s: State<R>): State<R> {
    if k > 0 && s.Running? && s.at in skip then Settle(g, o, hidden, skip, k - 1, Step(g, o, hidden, s)) else s
  }

  function StepPast<R(==)>(g: seq<Node<R>>, o: Oracle, hidden: set<nat>, skip: set<nat>, k: nat, s: State<R>): State<R>
  {
    Settle(g, o, hidden, skip, k, Step(g, o, hidden, s))
  }

  function RunPast<R(
      ==)>(g: seq<Node<R>>, o: Oracle, hidden: set<nat>, skip: set<nat>, k: nat, s: State<R>, steps: nat): State<R>
  {
    if steps == 0 then s else StepPast(g, o, hidden, skip, k, RunPast(g, o, hidden, skip, k, s, steps - 1))
  }

  /** Every walk through hidden nodes from `n` leaves them within `k` steps, and none ends there. */
  ghost predicate Leaves(g: Graph, skip: set<nat>, n: nat, k: nat)
    decreases k
  {
    n !in skip ||
    (k > 0 && n < |g| && g[n].edges != [] && forall e ::
      0 <= e < |g[n].edges| ==> Leaves(g, skip, g[n].edges[e], k - 1))
  }

  ghost predicate ShortHidden(g: Graph, skip: set<nat>, k: nat) {
    forall n: nat :: n in skip ==> Leaves(g, skip, n, k)
  }

  /** One step from a hidden node: out along an edge, with nothing added to the trace. */
  lemma {:induction false} HiddenStep(g: Graph, o: Oracle, hidden: set<nat>, skip: set<nat>, s: State<Reg>, k: nat)
    requires skip <= hidden && s.Running? && s.at in skip && Leaves(g, skip, s.at, k)
    ensures var next := Step(g, o, hidden, s);
            next.trace == s.trace && (next.Stuck? || (next.Running? && k > 0 && Leaves(g, skip, next.at, k - 1)))
  {
  }

  lemma {:induction false} SettleEnough(g: Graph, o: Oracle, hidden: set<nat>, skip: set<nat>, k: nat, s: State<Reg>)
    requires skip <= hidden && (s.Running? ==> Leaves(g, skip, s.at, k))
    ensures Settle(g, o, hidden, skip, k + 1, s) == Settle(g, o, hidden, skip, k, s)
    ensures Settle(g, o, hidden, skip, k, s).trace == s.trace
    ensures Settle(g, o, hidden, skip, k, s).Running? ==> s.Running?
    ensures s.Running? && !Settle(g, o, hidden, skip, k, s).Stuck? ==> Settle(g, o, hidden, skip, k, s).Running?
  {
    hide Step;
    if s.Running? && s.at in skip {
      HiddenStep(g, o, hidden, skip, s, k);
      HaltedStays(g, o, hidden, skip, Step(g, o, hidden, s), k);
      if k > 0 { SettleEnough(g, o, hidden, skip, k - 1, Step(g, o, hidden, s)); }
    }
  }

  lemma {:induction false} HaltedStays(g: Graph, o: Oracle, hidden: set<nat>, skip: set<nat>, s: State<Reg>, k: nat)
    ensures !s.Running? ==> Settle(g, o, hidden, skip, k, s) == s
  {
  }

  /** Grouped steps are single steps taken together. */
  lemma {:induction false} SettleIsRun(g: Graph, o: Oracle, hidden: set<nat>, skip: set<nat>, k: nat, s: State<Reg>,
      t: State<Reg>, single: nat)
    returns (more: nat)
    requires t == Run(g, o, hidden, s, single)
    ensures single <= more <= single + k && Settle(g, o, hidden, skip, k, t) == Run(g, o, hidden, s, more)
    decreases k
  {
    hide Step;
    if k > 0 && t.Running? && t.at in skip {
      more := SettleIsRun(g, o, hidden, skip, k - 1, s, Step(g, o, hidden, t), single + 1);
    } else {
      more := single;
    }
  }

  lemma {:induction false} GroupedIsRun(g: Graph, o: Oracle, hidden: set<nat>, skip: set<nat>, k: nat, s: State<Reg>,
      steps: nat)
    returns (single: nat)
    ensures steps <= single <= (k + 1) * steps
    ensures RunPast(g, o, hidden, skip, k, s, steps) == Run(g, o, hidden, s, single)
  {
    hide Step, Settle;
    if steps == 0 {
      single := 0;
    } else {
      single := GroupedIsRun(g, o, hidden, skip, k, s, steps - 1);
      var t := Run(g, o, hidden, s, single);
      single := SettleIsRun(g, o, hidden, skip, k, s, Step(g, o, hidden, t), single + 1);
    }
  }

  /** After any number of single steps the machine settles where some number of grouped
      steps puts it. */
  lemma {:induction false} RunIsGrouped(g: Graph, o: Oracle, hidden: set<nat>, skip: set<nat>, k: nat, s: State<Reg>,
      single: nat)
    returns (steps: nat)
    requires skip <= hidden && ShortHidden(g, skip, k) && (s.Running? ==> s.at !in skip)
    ensures steps <= single
    ensures Settle(g, o, hidden, skip, k, Run(g, o, hidden, s, single)) == RunPast(g, o, hidden, skip, k, s, steps)
  {
    hide Step;
    if single == 0 {
      steps := 0;
    } else {
      steps := RunIsGrouped(g, o, hidden, skip, k, s, single - 1);
      var at := Run(g, o, hidden, s, single - 1);
      if at.Running? && at.at in skip {
        assert Leaves(g, skip, at.at, k);
        HiddenStep(g, o, hidden, skip, at, k);
        var next := Step(g, o, hidden, at);
        HaltedStays(g, o, hidden, skip, next, k);
        HaltedStays(g, o, hidden, skip, next, k - 1);
        if next.Running? { SettleEnough(g, o, hidden, skip, k - 1, next); }
      } else {
        steps := steps + 1;
      }
    }
  }
}
