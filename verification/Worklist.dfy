/** The pending queue every fixpoint here uses: a FIFO beside the set of what it holds. */
module Worklist {
  import opened Sequences

  /** `queued` is exactly what is in `pending`, and nothing is there twice. */
  ghost predicate IsQueue(pending: seq<nat>, queued: set<nat>) {
    Unrepeated(pending) && (forall x: nat :: x in queued <==> x in pending)
  }

  function UpTo(n: nat): (s: set<nat>)
    ensures forall r: nat :: r in s <==> r < n
  {
    if n == 0 then {} else UpTo(n - 1) + {n - 1}
  }

  method All(n: nat) returns (pending: seq<nat>, queued: set<nat>)
    ensures IsQueue(pending, queued)
    ensures queued == UpTo(n)
  {
    pending, queued := seq(n, i => i), UpTo(n);
    forall x: nat ensures x in queued <==> x in pending { if x < n { assert pending[x] == x; } }
  }

  method Pop(pending: seq<nat>, queued: set<nat>) returns (head: nat, rest: seq<nat>, left: set<nat>)
    requires IsQueue(pending, queued) && pending != []
    ensures head == pending[0] && rest == pending[1..] && head in queued && left == queued - {head}
    ensures IsQueue(rest, left)
  {
    head, rest, left := pending[0], pending[1..], queued - {pending[0]};
    forall x: nat ensures x in left <==> x in rest {
      if x in pending { var k :| 0 <= k < |pending| && pending[k] == x; assert k > 0 ==> rest[k - 1] == x; }
    }
  }

  /** Append the targets that are not waiting already. */
  method Enqueue(pending: seq<nat>, queued: set<nat>, targets: seq<nat>)
    returns (longer: seq<nat>, more: set<nat>)
    requires IsQueue(pending, queued)
    ensures IsQueue(longer, more)
    ensures more == queued + (set t | t in targets)
    ensures pending <= longer
  {
    longer, more := pending, queued;
    for i := 0 to |targets|
      invariant IsQueue(longer, more) && pending <= longer
      invariant more == queued + (set t | t in targets[..i])
    {
      if targets[i] !in more {
        longer, more := longer + [targets[i]], more + {targets[i]};
      }
      assert targets[..i + 1] == targets[..i] + [targets[i]];
    }
    assert targets[..|targets|] == targets;
  }
}
