/** Values and instructions as the interpreter and the compiled code share them
    (src/code.h, include/lhat/value.h). */
module Bytecode {
  import opened Wrappers

  // ------------------------------------------------------------------
  // Values: a tag and a 64-bit payload, which a stencil moves apart

  const TWO_TO_THE_32: int := 0x1_0000_0000
  const TWO_TO_THE_63: int := 0x8000_0000_0000_0000
  const TWO_TO_THE_64: int := 0x1_0000_0000_0000_0000

  type Word = w: int | 0 <= w < TWO_TO_THE_64

  datatype Tag = NilTag | BoolTag | IntTag | RealTag | ObjectTag | HostValueTag | ContTag | RunTag

  datatype Value = Value(tag: Tag, payload: Word) {
    function Integer(): (n: int)
      ensures FitsInteger(n)
    {
      if payload < TWO_TO_THE_63 then payload else payload - TWO_TO_THE_64
    }

    /** The `boolean` member of the payload union is its low byte. */
    predicate Truth() {
      payload % 256 != 0
    }
  }

  predicate FitsInteger(n: int) {
    -TWO_TO_THE_63 <= n < TWO_TO_THE_63
  }

  const NIL := Value(NilTag, 0)

  function OfBool(b: bool): (v: Value)
    ensures v.Truth() == b
  {
    Value(BoolTag, if b then 1 else 0)
  }

  function OfInteger(n: int): (v: Value)
    requires FitsInteger(n)
    ensures v.Integer() == n
  {
    Value(IntTag, if n < 0 then n + TWO_TO_THE_64 else n)
  }

  function OfObject(ref: Word): Value {
    Value(ObjectTag, ref)
  }

  /** The kinds an equality decides on tag and payload alone. */
  predicate ExactKind(v: Value) {
    v.tag.NilTag? || v.tag.BoolTag? || v.tag.IntTag?
  }

  /** lhat_value_equal, where both sides are of such a kind. */
  predicate ExactlyEqual(left: Value, right: Value) {
    && left.tag == right.tag
    && match left.tag
       case NilTag => true
       case BoolTag => left.Truth() == right.Truth()
       case _ => left.Integer() == right.Integer()
  }

  // ------------------------------------------------------------------
  // Instructions

  datatype Arithmetic = Add | Sub | Mul | Div
  datatype Ordering = Lt | Le | Gt | Ge

  /** The instructions whose work is C's, done in place or left whole. */
  datatype Work =
    | Close | CloseOne | MakeClosure | NewTable | NewInstance | Concat | GetMember | GetMethod | SetIndex

  /** The opcodes some stencil was written for, and every other one. A family
      of opcodes that differ in one respect is one constructor. */
  datatype Op =
    | LoadK | LoadNil | LoadBool | Move
    | Arith(oper: Arithmetic, constant: bool)
    | Order(order: Ordering, constant: bool)
    | Equality(same: bool, constant: bool)
    | Env | IsNil | Not | This | GetUpval | GetIndex | GetElement
    | InC(work: Work)
    | Jump | JumpFalse | ForPrep(down: bool) | ForLoop(down: bool)
    | Call(asMethod: bool, tail: bool) | CallMember
    | Return | ReturnNil
    | OtherOp

  type Byte = b: int | 0 <= b < 256

  datatype Instruction = Instruction(op: Op, a: Byte, b: Byte, c: Byte) {
    function Bx(): nat { b + 256 * c }
    function JumpOffset(): int { Bx() - 32768 }
  }

  function JumpTarget(pc: nat, i: Instruction): int {
    pc + 1 + i.JumpOffset()
  }

  predicate IsJump(op: Op) {
    op.Jump? || op.JumpFalse? || op.ForPrep? || op.ForLoop?
  }

  const CALL_SPREAD: int := 1
  const CALL_DROP: int := 128

  predicate CallSpread(c: Byte) { c % 2 == 1 }
  predicate CallDrop(c: Byte) { c >= CALL_DROP }
  function CallPrepared(c: Byte): nat { (c / 2) % 64 }

  // ------------------------------------------------------------------
  // Bodies

  datatype Chunk = Chunk(code: seq<Instruction>, constants: seq<Value>, registers: nat)

  datatype Proto = Proto(
    chunk: Chunk, parameters: nat, parameterSlots: nat,
    takesSelf: bool, hasVariadic: bool, suspends: bool, kept: nat)

  /** What the compiler that writes chunks promises of the operands the stencils
      read: registers inside the frame's window, constants that exist (numbers, for
      arithmetic), and a CALLMEMBER whose callee slot is not its receiver's (src/compile.c lays the
      receiver in the slot after the callee). */
  predicate OperandsOk(chunk: Chunk, pc: nat)
    requires pc < |chunk.code|
  {
    var i := chunk.code[pc];
    && i.a < chunk.registers
    && match i.op
       case LoadK => i.Bx() < |chunk.constants|
       case Move | IsNil | Not => i.b < chunk.registers
       case Arith(_, k) =>
         && i.b < chunk.registers && ConstantOrRegister(chunk, k, i.c)
         && (k ==> chunk.constants[i.c].tag.IntTag? || chunk.constants[i.c].tag.RealTag?)
       case Order(_, k) => i.b < chunk.registers && ConstantOrRegister(chunk, k, i.c)
       case Equality(_, k) => i.b < chunk.registers && ConstantOrRegister(chunk, k, i.c)
       case GetIndex | GetElement => i.b < chunk.registers && i.c < chunk.registers
       case ForLoop(_) => i.a + 2 < chunk.registers
       case CallMember => i.b < chunk.registers && i.a != i.b
       case _ => true
  }

  predicate ConstantOrRegister(chunk: Chunk, constant: bool, c: Byte) {
    if constant then c < |chunk.constants| else c < chunk.registers
  }

  ghost predicate ChunkOk(chunk: Chunk) {
    && chunk.registers <= 256
    && forall pc | 0 <= pc < |chunk.code| :: OperandsOk(chunk, pc)
  }
}
