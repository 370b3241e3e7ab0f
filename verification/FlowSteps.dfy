/** What one instruction does to a frame, opcode by opcode, by its number: where control goes and which
    registers change.  Comparisons, calls and iterators answer as the environment likes; tests of one
    register look at it.  A call's scratch space above its results holds no variable and is not part
    of the frame. */
module FlowSteps {
  import opened FlowShapes

  datatype Val = Nil | Bool(flag: bool) | Other(id: int)

  type Regs = int -> Val

  predicate Truthy(v: Val) { v != Nil && v != Bool(false) }

  /** Only registers from `low` on and below `high` may differ. */
  ghost predicate Within(regs: Regs, regs': Regs, low: int, high: int) {
    forall r: int :: r < low || r >= high ==> regs'(r) == regs(r)
  }

  ghost predicate Same(regs: Regs, regs': Regs) { forall r: int :: regs'(r) == regs(r) }

  predicate IsAt(rows: seq<Row>, t: nat, pc: int) { t < |rows| && rows[t].pc == pc }

  /** Instruction `k` takes the frame to instruction `t` with registers `regs'`. */
  ghost predicate StepAt(rows: seq<Row>, k: nat, regs: Regs, t: nat, regs': Regs)
    requires k < |rows|
  {
    var row := rows[k];
    var a := row.a;
    var jumps, falls := IsAt(rows, t, row.pc + 1 + row.d), t == k + 1;
    match row.op
    // RETURN
    case 22 => false
    // JUMP, JUMPBACK
    case 23 | 24 => jumps && Same(regs, regs')
    // JUMPX
    case 67 => IsAt(rows, t, row.pc + 1 + row.e) && Same(regs, regs')
    // JUMPIF, JUMPIFNOT
    case 25 => (if Truthy(regs(a)) then jumps else falls) && Same(regs, regs')
    case 26 => (if Truthy(regs(a)) then falls else jumps) && Same(regs, regs')
    // JUMPIFEQ, JUMPIFLE, JUMPIFLT, JUMPIFNOTEQ, JUMPIFNOTLE, JUMPIFNOTLT
    case 27 | 28 | 29 | 30 | 31 | 32 => (jumps || falls) && Same(regs, regs')
    // JUMPXEQKNIL: the high bit of the aux word turns the test round
    case 77 => (if (regs(a) == Nil) != (row.aux >= 0x8000_0000) then jumps else falls) && Same(regs, regs')
    // JUMPXEQKB, JUMPXEQKN, JUMPXEQKS, CMPPROTO
    case 78 | 79 | 80 | 88 => (jumps || falls) && Same(regs, regs')
    // FORNPREP enters the loop or skips it; FORNLOOP counts and loops back or leaves
    case 56 => (jumps || falls) && Same(regs, regs')
    case 57 => (jumps || falls) && Within(regs, regs', a + 2, a + 3)
    // FORGPREP, FORGPREP_INEXT, FORGPREP_NEXT
    case 76 => jumps && Within(regs, regs', a, a + 3)
    case 59 | 61 => jumps && Within(regs, regs', a + 2, a + 3)
    // FORGLOOP: the control and the variables; back while the first variable is not nil
    case 58 => (if regs'(a + 3) != Nil then jumps else falls) && Within(regs, regs', a + 2, a + 3 + row.aux % 256)
    // LOADB, which may skip ahead
    case 3 => (if row.c != 0 then IsAt(rows, t, row.pc + 1 + row.c) else falls)
        && Within(regs, regs', a, a + 1) && regs'(a) == Bool(row.b != 0)
    // CALL, CALLFB
    case 21 | 87 => falls && Within(regs, regs', a, if row.c == 0 then 256 else a + row.c - 1)
    // GETVARARGS
    case 63 => falls && Within(regs, regs', a, if row.b == 0 then 256 else a + row.b - 1)
    // NAMECALL, NAMECALLUDATA: the method and the receiver
    case 20 | 85 => falls && Within(regs, regs', a, a + 2)
    // NOP, BREAK, SETGLOBAL, SETUPVAL, CLOSEUPVALS, SETTABLE, SETTABLEKS, SETTABLEN, SETLIST
    case 0 | 1 | 8 | 10 | 11 | 14 | 16 | 18 | 55 => falls && Same(regs, regs')
    // FASTCALL3, NATIVECALL, PREPVARARGS, FASTCALL, COVERAGE, CAPTURE, FASTCALL1, FASTCALL2, FASTCALL2K
    case 60 | 62 | 65 | 68 | 69 | 70 | 73 | 74 | 75 => falls && Same(regs, regs')
    // SETUDATAKS, NEWCLASSMEMBER, FASTPCALL
    case 84 | 86 | 89 => falls && Same(regs, regs')
    // everything else computes one register
    case _ => falls && Within(regs, regs', a, a + 1)
  }

  /** A fast call that succeeds skips the code up to and including its call, and leaves that call's
      results. */
  ghost predicate FastCallTo(rows: seq<Row>, k: nat, j: nat)
    requires k < |rows|
  {
    rows[k].op in {60, 68, 73, 74, 75} && k < j < |rows| && rows[j].op == 21 && rows[j].pc == rows[k].pc + 1 + rows[k].c
  }

  ghost predicate SucceedsAt(rows: seq<Row>, k: nat, regs: Regs, t: nat, regs': Regs)
    requires k < |rows|
  {
    exists j: nat :: FastCallTo(rows, k, j) && t == j + 1 &&
      Within(regs, regs', rows[j].a, if rows[j].c == 0 then 256 else rows[j].a + rows[j].c - 1)
  }

  /** What sets the arguments of a fast call up neither jumps nor closes anything. */
  ghost predicate CallsAreStraight(rows: seq<Row>) {
    forall k: nat, j: nat, i: nat :: k < |rows| && FastCallTo(rows, k, j) && k < i < j ==>
      rows[i].op !in {11, 22, 23, 24, 25, 26, 27, 28, 29, 30, 31, 32, 56, 57, 58, 59, 61, 67, 76, 77, 78, 79, 80, 88}
      && !(rows[i].op == 3 && rows[i].c != 0)
  }

  // ----- the successors and the registers of an instruction -----

  /** Some frame goes from `k` to `t`. */
  ghost predicate Successor(rows: seq<Row>, k: nat, t: nat)
    requires k < |rows|
  {
    t < |rows| && exists regs, regs' :: StepAt(rows, k, regs, t, regs')
  }

  /** Some frame has `r` changed by the instruction, wherever control goes then. */
  ghost predicate MayChange(row: Row, r: nat) {
    exists rows: seq<Row>, k: nat, regs, t: nat, regs' ::
      k < |rows| && rows[k] == row && StepAt(rows, k, regs, t, regs') && regs'(r) != regs(r)
  }

  /** Every step goes along an edge and changes registers of the range only. */
  lemma {:induction false} StepHasShape(rows: seq<Row>, k: nat, regs: Regs, t: nat, regs': Regs)
    requires k < |rows| && StepAt(rows, k, regs, t, regs')
    ensures t < |rows| ==> CanStep(Shapes(rows), k, t)
    ensures forall r: nat :: regs'(r) != regs(r) ==> Writes(Shapes(rows), k, r)
  {
    var row := rows[k];
    assert Shapes(rows)[k] == ShapeOf(row);
    if t < |rows| { assert Shapes(rows)[t] == ShapeOf(rows[t]); }
  }

  /** ... every edge is one of a step ... */
  lemma {:induction false} EdgeHasStep(rows: seq<Row>, k: nat, t: nat)
    requires k < |rows| && CanStep(Shapes(rows), k, t)
    ensures Successor(rows, k, t)
  {
    var row := rows[k];
    assert Shapes(rows)[k] == ShapeOf(row) && Shapes(rows)[t] == ShapeOf(rows[t]);
    var nil: Regs, all: Regs, flag: Regs := x => Nil, x => Other(0), x => Bool(row.b != 0);
    var mixed: Regs := x => if x == row.a then Bool(row.b != 0) else Nil;
    var last: Regs := x => if x == row.a + 3 then Other(0) else Nil;
    if row.op == LOADB {
      assert StepAt(rows, k, nil, t, mixed);
    } else if row.op == FORGLOOP {
      assert StepAt(rows, k, nil, t, nil) || StepAt(rows, k, all, t, all);
    } else {
      assert StepAt(rows, k, nil, t, nil) || StepAt(rows, k, all, t, all);
    }
  }

  /** ... and every register of the range is changed by some step. */
  lemma {:induction false} RangeHasStep(row: Row, r: nat)
    requires var (low, high) := WrittenRange(EffectOf(row)); low <= r < high
    ensures MayChange(row, r)
  {
    var target := Row(row.pc + 1 + row.d, 0, 0, 0, 0, 0, 0, 0);
    var ahead := Row(row.pc + 1 + row.c, 0, 0, 0, 0, 0, 0, 0);
    var rows := [row, target, ahead];
    var nil: Regs, one: Regs := x => Nil, x => if x == r then Other(1) else Nil;
    if row.op == LOADB {
      var flag: Regs := x => if x == r then Bool(row.b != 0) else Nil;
      assert StepAt(rows, 0, nil, if row.c != 0 then 2 else 1, flag) && flag(r) != nil(r);
    } else {
      assert StepAt(rows, 0, one, 1, nil) && nil(r) != one(r);
    }
  }
}
