/** A representative Luau instruction set, decoded, and the register frame that the symbolic
    executor and the concrete machine share in shape. */
module Bytecode {
  import opened Options
  import opened Events

  /** An operand: a register, or a constant already looked up in the constant table. */
  datatype Operand = Reg(r: nat) | Lit(k: Constant)

  datatype FastKind = Whole | One(b: nat) | Two(b: nat, second: nat) | TwoK(b: nat, k: Constant) | Three(b: nat,
    packed: nat)

  datatype Insn =
    | Nop
    | PrepVarargs(a: nat)
    | Load(a: nat, k: Constant)
    | LoadBool(a: nat, flag: bool, skip: int)
    | MoveReg(a: nat, b: nat)
    /** Globals, imports, table reads, arithmetic, logic, length, concatenation. */
    | Operate(name: string, dest: Option<nat>, operands: seq<Operand>)
    | GetUpval(a: nat, slot: nat)
    | SetUpval(a: nat, slot: nat)
    | PutTable(a: nat, table: nat, field: Operand)
    | NameCall(a: nat, b: nat, key: Constant)
    | MakeTable(a: nat, hash: int, slots: int)
    | CopyTable(a: nat, keyed: bool, fields: seq<(Constant, Constant)>)
    | SetList(a: nat, b: nat, count: nat, index: int)
    | TryFast(fast: FastKind, builtin: int, skip: int)
    | CallFn(a: nat, args: nat, count: nat)
    | GetVarargs(a: nat, count: nat)
    | NewClosure(a: nat, child: nat)
    | DupClosure(a: nat, child: nat, constant: nat)
    | CaptureInsn(kind: nat, source: nat)
    | Jump(skip: int)
    | JumpTruthy(a: nat, skip: int, invert: bool)
    | JumpCompare(op: string, left: nat, right: Operand, skip: int, invert: bool)
    | ReturnInsn(a: nat, count: nat)
    | Unsupported

  /** `next` is the address after the instruction and its auxiliary word, if it has one. */
  datatype Located = Located(insn: Insn, next: int)

  type Code = map<int, Located>

  datatype Proto = Proto(code: Code, params: nat, upvalues: nat, vararg: bool, stack: nat)

  datatype Chunk = Chunk(protos: seq<Proto>, main: nat)

  predicate ValidChunk(chunk: Chunk) { chunk.main < |chunk.protos| }

  // ----- reading the code -----

  function FastName(kind: FastKind): string {
    match kind
    case Whole => "FASTCALL"
    case One(_) => "FASTCALL1"
    case Two(_, _) => "FASTCALL2"
    case TwoK(_, _) => "FASTCALL2K"
    case Three(_, _) => "FASTCALL3"
  }

  datatype FastSite = FastSite(after: int, a: nat, args: nat, count: nat)

  /** The call that a fast call at `pc` falls back to. */
  function FastCallSite(proto: Proto, pc: int, builtin: int, skip: int): Option<FastSite>
    requires pc in proto.code
  {
    var target := pc + 1 + skip;
    if target !in proto.code || !proto.code[target].insn.CallFn? || target < proto.code[pc].next ||
      builtin == 0 then None
    else
      var call := proto.code[target].insn;
      if call.a >= proto.stack || call.a + (if call.count == 0 then 0 else call.count - 1) > proto.stack then None
      else Some(FastSite(target + 1, call.a, call.args, call.count))
  }

  /** The operands of a fast call, when they are not the whole argument list of its call. */
  function FastOperands(kind: FastKind): Option<seq<Operand>> {
    match kind
    case Whole => None
    case One(b) => Some([Reg(b)])
    case Two(b, second) => Some([Reg(b), Reg(second)])
    case TwoK(b, k) => Some([Reg(b), Lit(k)])
    case Three(b, packed) =>
      if packed >= 65536 then None else Some([Reg(b), Reg(packed % 256), Reg(packed / 256)])
  }

  /** The capture instructions after a closure instruction. */
  function CapturesAt(code: Code, pc: int, n: nat): Option<seq<(nat, nat)>> {
    if n == 0 then Some([])
    else
      match CapturesAt(code, pc, n - 1)
      case None => None
      case Some(before) =>
        var at := pc + n - 1;
        if at in code && code[at].insn.CaptureInsn? then Some(before + [(code[at].insn.kind, code[at].insn.source)])
          else None
  }

  /** No upvalue of the whole chunk can change behind the events' back: the main function
      has none, and nobody captures a register by reference. */
  ghost predicate ClosedCaptures(chunk: Chunk)
    requires ValidChunk(chunk)
  {
    && chunk.protos[chunk.main].upvalues == 0
    && forall p: nat, pc: int :: p < |chunk.protos| && pc in chunk.protos[p].code ==>
         forall source :: chunk.protos[p].code[pc].insn != CaptureInsn(1, source)
  }

  predicate CapturesNoRegister(insn: Insn) { insn.CaptureInsn? ==> insn.kind != 1 }

  // ----- frames -----

  /** Defined registers, and the base and contents of a pending open result pack. */
  datatype Frame<V, T> = Frame(regs: map<nat, V>, top: Option<(nat, T)>)

  function Read<V, T>(f: Frame<V, T>, stack: nat, r: nat): Option<V> {
    if r < stack && r in f.regs then Some(f.regs[r]) else None
  }

  function Write<V, T>(f: Frame<V, T>, stack: nat, r: nat, v: V): Option<Frame<V, T>> {
    if r >= stack || (f.top.Some? && r >= f.top.value.0) then None else Some(f.(regs := f.regs[r := v]))
  }

  function ReadRange<V, T>(f: Frame<V, T>, stack: nat, start: nat, end: int): Option<seq<V>>
    decreases end - start
  {
    if end <= start then Some([])
    else
      match ReadRange(f, stack, start, end - 1)
      case None => None
      case Some(before) => match Read(f, stack, end - 1) case None => None case Some(v) => Some(before + [v])
  }

  /** `count - 1` registers, or for zero everything up to the open top. */
  function PackAt<V, T>(f: Frame<V, T>, stack: nat, start: nat, count: nat): Option<(seq<V>, Option<T>)> {
    if count != 0 then
      match ReadRange(f, stack, start, start + count - 1) case None => None case Some(vs) => Some((vs, None))
    else if f.top.None? || start > f.top.value.0 then None
    else match ReadRange(f, stack, start, f.top.value.0)
      case None => None case Some(vs) => Some((vs, Some(f.top.value.1)))
  }

  function Fill<V>(regs: map<nat, V>, a: nat, n: nat, results: nat -> V): map<nat, V> {
    if n == 0 then regs else Fill(regs, a, n - 1, results)[a + n - 1 := results(n - 1)]
  }

  function Below<V>(regs: map<nat, V>, a: nat): map<nat, V> { map r | r in regs && r < a :: regs[r] }

  /** A call's results: registers from `a` on are gone; then either an open pack starts
      there, or `count - 1` results are written. */
  function Place<V, T>(f: Frame<V, T>, stack: nat, a: nat, count: nat, results: nat -> V, all: T): Option<Frame<V, T>> {
    if count == 0 then Some(Frame(Below(f.regs, a), Some((a, all))))
    else if count >= 2 && a + count - 2 >= stack then None
    else Some(Frame(Fill(Below(f.regs, a), a, count - 1, results), None))
  }
}
