/** What an instruction does as far as the flow of control and the registers it writes go: by
    opcode, as the bytecode encodes it. */
module FlowShapes {
  import opened Options

  const FRAME_TOP := 256

  // The opcodes that do not simply write register `a` and go on, by their numbers.

  const NOP := 0
  const BREAK := 1
  const LOADB := 3
  const SETGLOBAL := 8
  const SETUPVAL := 10
  const CLOSEUPVALS := 11
  const SETTABLE := 14
  const SETTABLEKS := 16
  const SETTABLEN := 18
  const NAMECALL := 20
  const CALL := 21
  const RETURN := 22
  const JUMP := 23
  const JUMPBACK := 24
  const JUMPIF := 25
  const JUMPIFNOT := 26
  const JUMPIFEQ := 27
  const JUMPIFLE := 28
  const JUMPIFLT := 29
  const JUMPIFNOTEQ := 30
  const JUMPIFNOTLE := 31
  const JUMPIFNOTLT := 32
  const SETLIST := 55
  const FORNPREP := 56
  const FORNLOOP := 57
  const FORGLOOP := 58
  const FORGPREP_INEXT := 59
  const FASTCALL3 := 60
  const FORGPREP_NEXT := 61
  const NATIVECALL := 62
  const GETVARARGS := 63
  const PREPVARARGS := 65
  const JUMPX := 67
  const FASTCALL := 68
  const COVERAGE := 69
  const CAPTURE := 70
  const FASTCALL1 := 73
  const FASTCALL2 := 74
  const FASTCALL2K := 75
  const FORGPREP := 76
  const JUMPXEQKNIL := 77
  const JUMPXEQKB := 78
  const JUMPXEQKN := 79
  const JUMPXEQKS := 80
  const SETUDATAKS := 84
  const NAMECALLUDATA := 85
  const NEWCLASSMEMBER := 86
  const CALLFB := 87
  const CMPPROTO := 88
  const FASTPCALL := 89

  /** Jumps by `d` that may fall through. */
  predicate MayBranch(op: nat) {
    op in {JUMPIF, JUMPIFNOT, JUMPIFEQ, JUMPIFLE, JUMPIFLT, JUMPIFNOTEQ, JUMPIFNOTLE, JUMPIFNOTLT, JUMPXEQKNIL,
           JUMPXEQKB, JUMPXEQKN, JUMPXEQKS, FORNPREP, FORNLOOP, FORGLOOP, CMPPROTO}
  }

  /** Jumps by `d` that never fall through. */
  predicate AlwaysJumps(op: nat) {
    op in {JUMP, JUMPBACK, FORGPREP, FORGPREP_INEXT, FORGPREP_NEXT}
  }

  /** Opcodes that write no register.  A fast call that succeeds writes what the call it skips
      writes; the way through that call covers both. */
  predicate NeverWrites(op: nat) {
    op in {NOP, BREAK, SETGLOBAL, SETUPVAL, CLOSEUPVALS, SETTABLE, SETTABLEKS, SETTABLEN, RETURN, JUMP,
           JUMPBACK, JUMPIF, JUMPIFNOT, JUMPIFEQ, JUMPIFLE, JUMPIFLT, JUMPIFNOTEQ, JUMPIFNOTLE, JUMPIFNOTLT,
           SETLIST, FORNPREP, PREPVARARGS, JUMPX, FASTCALL, FASTCALL1, FASTCALL2, FASTCALL2K, FASTCALL3,
           FASTPCALL, NATIVECALL, COVERAGE, CAPTURE, JUMPXEQKNIL, JUMPXEQKB, JUMPXEQKN, JUMPXEQKS, SETUDATAKS,
           NEWCLASSMEMBER, CMPPROTO}
  }

  /** An instruction as it is decoded. */
  datatype Row = Row(pc: int, op: nat, a: nat, b: nat, c: nat, d: int, e: int, aux: nat)

  /** Where an instruction goes: nowhere, by an offset, by an offset if it is not zero, by an
      offset or on, or on to the next. */
  datatype Leaves = Stops | Jumps(offset: int) | Skips(count: nat) | Branches(offset: int) | FallsThrough

  /** What an instruction writes, from its first register. */
  datatype Effect =
    | WritesNothing
    | CallResults(a: nat, count: nat)
    | Varargs(a: nat, count: nat)
    | MethodAndSelf(a: nat)
    | LoopIndex(a: nat)
    | LoopVariables(a: nat, count: nat)
    | GeneratorState(a: nat)
    | OneRegister(a: nat)

  datatype Insn = Insn(pc: int, leaves: Leaves, effect: Effect, closes: Option<nat>)

  /** The half-open range of registers written. */
  function WrittenRange(e: Effect): (int, int) {
    match e
    case WritesNothing => (0, 0)
    case CallResults(a, count) => (a, if count == 0 then FRAME_TOP else a + count - 1)
    case Varargs(a, count) => (a, if count == 0 then FRAME_TOP else a + count - 1)
    case MethodAndSelf(a) => (a, a + 2)
    case LoopIndex(a) => (a + 2, a + 3)
    case LoopVariables(a, count) => (a + 2, a + 3 + count)
    case GeneratorState(a) => (a, a + 3)
    case OneRegister(a) => (a, a + 1)
  }

  function LeavesOf(row: Row): Leaves {
    if row.op == RETURN then Stops
    else if AlwaysJumps(row.op) then Jumps(row.d)
    else if row.op == JUMPX then Jumps(row.e)
    else if row.op == LOADB then Skips(row.c)
    else if MayBranch(row.op) then Branches(row.d)
    else FallsThrough
  }

  function EffectOf(row: Row): Effect {
    if NeverWrites(row.op) then WritesNothing
    else if row.op == CALL || row.op == CALLFB then CallResults(row.a, row.c)
    else if row.op == GETVARARGS then Varargs(row.a, row.b)
    else if row.op == NAMECALL || row.op == NAMECALLUDATA then MethodAndSelf(row.a)
    else if row.op == FORNLOOP || row.op == FORGPREP_INEXT || row.op == FORGPREP_NEXT then LoopIndex(row.a)
    else if row.op == FORGLOOP then LoopVariables(row.a, row.aux % 256)
    else if row.op == FORGPREP then GeneratorState(row.a)
    else OneRegister(row.a)
  }

  function ShapeOf(row: Row): Insn {
    Insn(row.pc, LeavesOf(row), EffectOf(row), if row.op == CLOSEUPVALS then Some(row.a) else None)
  }

  function Shapes(rows: seq<Row>): seq<Insn> { seq(|rows|, k requires 0 <= k < |rows| => ShapeOf(rows[k])) }

  ghost predicate DistinctPcs(insns: seq<Insn>) { forall i, j :: 0 <= i < j < |insns| ==> insns[i].pc != insns[j].pc }

  /** Control can pass from instruction `k` to instruction `t`. */
  predicate CanStep(insns: seq<Insn>, k: nat, t: nat)
    requires k < |insns|
  {
    t < |insns| &&
    var pc := insns[k].pc;
    match insns[k].leaves
    case Stops => false
    case Jumps(offset) => insns[t].pc == pc + 1 + offset
    case Skips(count) => if count == 0 then t == k + 1 else insns[t].pc == pc + 1 + count
    case Branches(offset) => insns[t].pc == pc + 1 + offset || t == k + 1
    case FallsThrough => t == k + 1
  }

  predicate Closes(insns: seq<Insn>, k: nat, register: nat)
    requires k < |insns|
  {
    insns[k].closes.Some? && insns[k].closes.value <= register
  }

  predicate Writes(insns: seq<Insn>, k: nat, register: nat)
    requires k < |insns|
  {
    var (low, high) := WrittenRange(insns[k].effect);
    low <= register < high
  }
}
