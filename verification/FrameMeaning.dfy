/** What the operations on a register frame do, register by register, and what the lookups in
    the code around a call find. */
module FrameMeaning {
  import opened Options
  import Events
  import opened Bytecode

  // ----- single registers -----

  /** The register exists and holds something. */
  ghost predicate Defined<V, T>(f: Frame<V, T>, stack: nat, r: nat) { r < stack && r in f.regs }

  /** The register exists and no open pack covers it. */
  ghost predicate Free<V, T>(f: Frame<V, T>, stack: nat, r: nat) {
    r < stack && (f.top.Some? ==> r < f.top.value.0)
  }

  ghost predicate AllDefined<V, T>(f: Frame<V, T>, stack: nat, low: nat, high: int) {
    forall r: nat :: low <= r < high ==> Defined(f, stack, r)
  }

  /** A write goes through exactly below the open pack, and changes its register only. */
  lemma {:induction false} WriteIs<V, T>(f: Frame<V, T>, stack: nat, r: nat, v: V)
    ensures Write(f, stack, r, v).Some? <==> Free(f, stack, r)
    ensures Write(f, stack, r, v).Some? ==>
      var g := Write(f, stack, r, v).value;
      g.top == f.top && r in g.regs && g.regs[r] == v
      && forall q: nat :: q != r ==> (q in g.regs <==> q in f.regs) && (q in f.regs ==> g.regs[q] == f.regs[q])
  {
  }

  // ----- packs -----

  /** The values of the registers from `start` on. */
  ghost predicate Lists<V, T>(f: Frame<V, T>, start: nat, vs: seq<V>) {
    forall i: nat :: i < |vs| ==> HeldAs(f, start + i, vs[i])
  }

  ghost predicate HeldAs<V, T>(f: Frame<V, T>, r: nat, v: V) { r in f.regs && f.regs[r] == v }

  lemma {:induction false} RangeIs<V, T>(f: Frame<V, T>, stack: nat, start: nat, end: int)
    ensures ReadRange(f, stack, start, end).Some? <==> AllDefined(f, stack, start, end)
    ensures ReadRange(f, stack, start, end).Some? ==>
      var vs := ReadRange(f, stack, start, end).value;
      |vs| == (if end <= start then 0 else end - start) && Lists(f, start, vs)
    decreases end - start
  {
    if start < end {
      RangeIs(f, stack, start, end - 1);
      if AllDefined(f, stack, start, end) { assert Defined(f, stack, end - 1); }
      var before := ReadRange(f, stack, start, end - 1);
      if ReadRange(f, stack, start, end).Some? {
        assert Lists(f, start, before.value);
        forall i: nat | i < end - start ensures HeldAs(f, start + i, ReadRange(f, stack, start, end).value[i]) {
          if i < end - start - 1 { assert HeldAs(f, start + i, before.value[i]); }
        }
      }
    }
  }

  /** A pack of a fixed count is the `count - 1` registers from `start`, all of which must hold
      something; any other is the registers up to the base of the open pack, and the open pack. */
  lemma {:induction false} PackIs<V, T>(f: Frame<V, T>, stack: nat, start: nat, count: nat)
    ensures count > 0 ==> (PackAt(f, stack, start, count).Some? <==> AllDefined(f, stack, start, start + count - 1))
    ensures count == 0 ==>
      (PackAt(f, stack, start, count).Some? <==>
        f.top.Some? && start <= f.top.value.0 && AllDefined(f, stack, start, f.top.value.0))
    ensures PackAt(f, stack, start, count).Some? ==>
      var (vs, tail) := PackAt(f, stack, start, count).value;
      && Lists(f, start, vs)
      && |vs| == (if count > 0 then count - 1 else f.top.value.0 - start)
      && tail == if count > 0 then None else Some(f.top.value.1)
  {
    RangeIs(f, stack, start, if count > 0 then start + count - 1 else if f.top.Some? then f.top.value.0 else start);
  }

  // ----- results -----

  ghost predicate Filled<V>(regs: map<nat, V>, a: nat, n: nat, results: nat -> V, after: map<nat, V>) {
    forall r: nat ::
      && (r in after <==> r < a + n && (r >= a || r in regs))
      && (r in after ==> after[r] == if r < a then regs[r] else results(r - a))
  }

  lemma {:induction false} FillIs<V>(regs: map<nat, V>, a: nat, n: nat, results: nat -> V)
    ensures Filled(regs, a, n, results, Fill(Below(regs, a), a, n, results))
  {
    if n > 0 { FillIs(regs, a, n - 1, results); }
  }

  /** After a call the registers below `a` stay, those from `a` on are its results or gone. */
  lemma {:induction false} PlaceIs<V, T>(f: Frame<V, T>, stack: nat, a: nat, count: nat, results: nat -> V, all: T)
    ensures Place(f, stack, a, count, results, all).Some? <==> (count >= 2 ==> a + count - 1 <= stack)
    ensures Place(f, stack, a, count, results, all).Some? ==>
      var g := Place(f, stack, a, count, results, all).value;
      && Filled(f.regs, a, if count == 0 then 0 else count - 1, results, g.regs)
      && g.top == if count == 0 then Some((a, all)) else None
  {
    FillIs(f.regs, a, if count == 0 then 0 else count - 1, results);
  }

  // ----- the code around calls and closures -----

  /** A fast call falls back to a call behind it whose results fit the frame. */
  lemma {:induction false} FastCallSiteIs(proto: Proto, pc: int, builtin: int, skip: int, site: FastSite)
    requires pc in proto.code
    ensures FastCallSite(proto, pc, builtin, skip) == Some(site) <==>
      var target := pc + 1 + skip;
      && builtin != 0 && target in proto.code && proto.code[pc].next <= target
      && proto.code[target].insn == CallFn(site.a, site.args, site.count) && site.after == target + 1
      && site.a < proto.stack && (site.count > 0 ==> site.a + site.count - 1 <= proto.stack)
  {
  }

  /** The operands of the fast calls: one register, two, a register and a constant, or three, of
      which the last two share a word of which no more than two bytes may be used. */
  lemma {:induction false} FastOperandsAre(b: nat, second: nat, k: Events.Constant, low: nat, high: nat)
    requires low < 256
    ensures FastOperands(Whole).None?
    ensures FastOperands(One(b)) == Some([Reg(b)])
    ensures FastOperands(Two(b, second)) == Some([Reg(b), Reg(second)])
    ensures FastOperands(TwoK(b, k)) == Some([Reg(b), Lit(k)])
    ensures FastOperands(Three(b, low + 256 * high))
      == if high < 256 then Some([Reg(b), Reg(low), Reg(high)]) else None
  {
  }

  ghost predicate SameForm(k: FastKind, l: FastKind) {
    && (k.Whole? <==> l.Whole?) && (k.One? <==> l.One?) && (k.Two? <==> l.Two?)
    && (k.TwoK? <==> l.TwoK?) && (k.Three? <==> l.Three?)
  }

  /** The five forms of a fast call have five names. */
  lemma {:induction false} FastNamesDiffer(k: FastKind, l: FastKind)
    ensures FastName(k) == FastName(l) <==> SameForm(k, l)
  {
    assert |"FASTCALL"| == 8 && |"FASTCALL2K"| == 10;
    assert "FASTCALL1"[8] == '1' && "FASTCALL2"[8] == '2' && "FASTCALL3"[8] == '3';
  }

  ghost predicate CaptureAt(code: Code, pc: int) { pc in code && code[pc].insn.CaptureInsn? }

  ghost predicate Captures(code: Code, pc: int, found: (nat, nat)) {
    pc in code && code[pc].insn == CaptureInsn(found.0, found.1)
  }

  /** Exactly the next `n` instructions, if all of them are captures, in order. */
  lemma {:induction false} CapturesAre(code: Code, pc: int, n: nat)
    ensures CapturesAt(code, pc, n).Some? <==>
      forall at :: pc <= at < pc + n ==> CaptureAt(code, at)
    ensures CapturesAt(code, pc, n).Some? ==>
      var found := CapturesAt(code, pc, n).value;
      |found| == n && forall i: nat :: i < n ==> Captures(code, pc + i, found[i])
  {
    if n > 0 {
      CapturesAre(code, pc, n - 1);
      if forall at :: pc <= at < pc + n ==> CaptureAt(code, at) { assert CaptureAt(code, pc + n - 1); }
    }
  }
}
