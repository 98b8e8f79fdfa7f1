/** A stencil as data, and the writing of its holes (jit/jit.h; jit/jit.c,
    hole_value and write_hole). */
module HoleWriting {
  import opened Wrappers
  import opened Bytecode
  import opened Stencils
  import opened Choosing

  datatype Kind =
    | A | B | C | A8 | B8 | C8 | KLo | KHi | KTag | Pc
    | ContinueTo | TargetTo | CallHelper | ReturnHelper | StepHelper

  datatype Form = Abs64 | Abs32 | Abs32S | Rel32

  datatype Hole = Hole(offset: nat, kind: Kind, form: Form, addend: int) {
    function End(): nat { offset + FieldSize(form) }
  }

  /** A stencil whose last bytes are its CONTINUE jump has its `tail` before them,
      and may be laid without them; any other has its `tail` at its end. */
  datatype StencilData = StencilData(code: seq<Byte>, tail: nat, holes: seq<Hole>)

  type Table = Stencil -> StencilData

  /** Where the runtime's own functions stand. */
  datatype Helpers = Helpers(call: Word, ret: Word, step: Work -> Word)

  function FieldSize(form: Form): nat {
    if form.Abs64? then 8 else 4
  }

  const JMP_REL32: Byte := 0xE9

  /** What scripts/gen_stencils.py writes: holes in order and apart, each wholly
      before the tail or wholly in it, and the tail -- where there is one -- a
      five-byte jump whose field is a CONTINUE hole. */
  ghost predicate DataOk(d: StencilData) {
    && 0 < d.tail <= |d.code| <= 0xFFFF
    && (forall i | 0 <= i < |d.holes| :: d.holes[i].End() <= |d.code|)
    && (forall i, j | 0 <= i < j < |d.holes| :: d.holes[i].End() <= d.holes[j].offset)
    && (forall i | 0 <= i < |d.holes| :: d.holes[i].offset < d.tail ==> d.holes[i].End() <= d.tail)
    && (d.tail < |d.code| ==>
          && d.tail == |d.code| - 5
          && d.code[d.tail] == JMP_REL32
          && d.holes != []
          && d.holes[|d.holes| - 1] == Hole(d.tail + 1, ContinueTo, Rel32, -4))
  }

  ghost predicate TableOk(table: Table) {
    forall st: Stencil :: DataOk(table(st))
  }

  // ------------------------------------------------------------------
  // What a hole carries

  const NO_ENTRY: nat := 0xFFFF_FFFF

  function TagNumber(tag: Tag): nat {
    match tag
    case NilTag => 0 case BoolTag => 1 case IntTag => 2 case RealTag => 3
    case ObjectTag => 4 case HostValueTag => 5 case ContTag => 6 case RunTag => 7
  }

  /** hole_value: `base` is where the chunk's memory stands. */
  function HoleValue(choice: Choice, kind: Kind, i: Instruction, pc: nat, base: nat,
                     entries: seq<nat>, helpers: Helpers): (value: int)
    requires choice.next < |entries| && 0 <= choice.target < |entries|
  {
    match kind
    case A => i.a
    case B => i.b
    case C => i.c
    case A8 => i.a * 8
    case B8 => i.b * 8
    case C8 => i.c * 8
    case KLo => choice.k.payload % TWO_TO_THE_32
    case KHi => choice.k.payload / TWO_TO_THE_32
    case KTag => TagNumber(choice.k.tag)
    case Pc => pc
    case ContinueTo => base + entries[choice.next]
    case TargetTo => base + entries[choice.target]
    case CallHelper => helpers.call
    case ReturnHelper => helpers.ret
    case StepHelper => helpers.step(choice.work)
  }

  /** A constant comes out of its two halves whole, and its tag out of its number. */
  lemma ConstantFromHalves(v: Value, w: Value)
    requires v.payload % TWO_TO_THE_32 == w.payload % TWO_TO_THE_32
    requires v.payload / TWO_TO_THE_32 == w.payload / TWO_TO_THE_32
    requires TagNumber(v.tag) == TagNumber(w.tag)
    ensures v == w
  {
    assert v.payload == v.payload / TWO_TO_THE_32 * TWO_TO_THE_32 + v.payload % TWO_TO_THE_32;
    assert w.payload == w.payload / TWO_TO_THE_32 * TWO_TO_THE_32 + w.payload % TWO_TO_THE_32;
  }

  // ------------------------------------------------------------------
  // Fields

  function LittleEndian(value: nat, size: nat): (bytes: seq<Byte>)
    ensures |bytes| == size
  {
    if size == 0 then [] else [value % 256] + LittleEndian(value / 256, size - 1)
  }

  function Number(bytes: seq<Byte>): nat {
    if bytes == [] then 0 else bytes[0] + 256 * Number(bytes[1..])
  }

  function Range(size: nat): (limit: nat)
    ensures limit > 0
  {
    if size == 0 then 1 else 256 * Range(size - 1)
  }

  lemma {:induction false} NumberOfLittleEndian(value: nat, size: nat)
    requires value < Range(size)
    ensures Number(LittleEndian(value, size)) == value
  {
    if size > 0 {
      NumberOfLittleEndian(value / 256, size - 1);
      assert LittleEndian(value, size)[1..] == LittleEndian(value / 256, size - 1);
    }
  }

  /** write_hole: a value the field cannot hold refuses the whole layout. */
  function Field(form: Form, at: nat, value: int): (bytes: Option<seq<Byte>>)
    ensures bytes.Some? ==> |bytes.value| == FieldSize(form)
  {
    match form
    case Abs64 => Some(LittleEndian(value % TWO_TO_THE_64, 8))
    case Abs32 =>
      if 0 <= value < TWO_TO_THE_32 then Some(LittleEndian(value, 4)) else None
    case Abs32S =>
      if -0x8000_0000 <= value < 0x8000_0000 then Some(LittleEndian(value % TWO_TO_THE_32, 4)) else None
    case Rel32 =>
      if -0x8000_0000 <= value - at < 0x8000_0000
      then Some(LittleEndian((value - at) % TWO_TO_THE_32, 4)) else None
  }

  /** What the processor takes a field at `at` to say. */
  function Reads(form: Form, at: nat, bytes: seq<Byte>): int {
    var n := Number(bytes);
    match form
    case Abs64 => n
    case Abs32 => n
    case Abs32S => if n < 0x8000_0000 then n else n - TWO_TO_THE_32
    case Rel32 => at + (if n < 0x8000_0000 then n else n - TWO_TO_THE_32)
  }

  lemma Ranges()
    ensures Range(4) == TWO_TO_THE_32 && Range(8) == TWO_TO_THE_64
  {
    assert Range(2) == 256 * Range(1) == 256 * 256;
    assert Range(4) == 256 * Range(3) == 256 * 256 * Range(2);
    assert Range(6) == 256 * Range(5) == 256 * 256 * Range(4);
    assert Range(8) == 256 * Range(7) == 256 * 256 * Range(6);
  }

  /** A field that was written says the value it was given: exactly, or modulo
      the machine's word for the one form that cannot refuse. */
  lemma FieldReadsBack(form: Form, at: nat, value: int)
    requires Field(form, at, value).Some?
    ensures Reads(form, at, Field(form, at, value).value) ==
            if form.Abs64? then value % TWO_TO_THE_64 else value
  {
    Ranges();
    var n := match form
      case Abs64 => value % TWO_TO_THE_64
      case Abs32 => value
      case Abs32S => value % TWO_TO_THE_32
      case Rel32 => (value - at) % TWO_TO_THE_32;
    NumberOfLittleEndian(n, FieldSize(form));
    assert Field(form, at, value).value == LittleEndian(n, FieldSize(form));
  }

  /** A field refuses a value exactly where no bytes of its size would say it. */
  lemma FieldRefusesIff(form: Form, at: nat, value: int)
    ensures Field(form, at, value).None? <==>
            forall bytes: seq<Byte> | |bytes| == (if form.Abs64? then 8 else 4) ::
              Reads(form, at, bytes) != if form.Abs64? then value % 0x1_0000_0000_0000_0000 else value
  {
    Ranges();
    if Field(form, at, value).Some? {
      FieldReadsBack(form, at, value);
    } else {
      forall bytes: seq<Byte> | |bytes| == 4 ensures Reads(form, at, bytes) != value {
        NumberBelow(bytes);
      }
    }
  }

  lemma {:induction false} NumberBelow(bytes: seq<Byte>)
    ensures Number(bytes) < Range(|bytes|)
  {
    if bytes != [] {
      NumberBelow(bytes[1..]);
    }
  }
}
