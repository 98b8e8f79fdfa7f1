/** Runs of compiled code against the bytes laid for them: where a stencil goes on
    is where the fields written in its piece send the processor, and what it
    reads is what they say (jit/jit.c, lay_out; jit/stencils.c, the holes). */
module LaidRuns {
  import opened Wrappers
  import opened Bytecode
  import opened Machine
  import opened Stencils
  import opened Choosing
  import opened HoleWriting
  import opened Layout
  import opened Calls
  import opened Refinement
  import opened CompiledRuns

  /** The hole of this number in the piece laid for pc. */
  ghost function HoleAt(w: World, body: nat, pc: nat, n: nat): Hole
    requires WorldOk(w) && body in w.codes && pc <= |w.p.bodies[body].chunk.code|
    requires n < |w.table(Settled(w.p.bodies[body].chunk, pc).stencil).holes|
  {
    w.table(Settled(w.p.bodies[body].chunk, pc).stencil).holes[n]
  }

  lemma CodeIsLaid(w: World, body: nat)
    requires WorldOk(w) && body in w.codes
    ensures ChunkOk(w.p.bodies[body].chunk) && LaidOut(w.table, w.helpers, w.p.bodies[body].chunk, w.codes[body])
  {
    assert w.p.bodies[body] in w.p.bodies;
  }

  /** Going on from a laid piece -- through its last jump, or past where that was
      cut -- is going where Follow says. */
  lemma ContinueArrives(w: World, body: nat, pc: nat, n: nat)
    requires WorldOk(w) && body in w.codes && pc <= |w.p.bodies[body].chunk.code|
    requires Laid(w.p.bodies[body].chunk, pc)
    requires n < |w.table(Settled(w.p.bodies[body].chunk, pc).stencil).holes|
    requires var h := HoleAt(w, body, pc, n); h.kind == ContinueTo && h.form == Rel32 && h.addend == -4
    ensures var chunk, code := w.p.bodies[body].chunk, w.codes[body];
            && Start(w.table, chunk, pc) + Length(w.table, chunk, pc) <= |code.memory|
            && Settled(chunk, pc).next <= |chunk.code|
            && GoesOn(w.table, chunk, code, pc, n) == code.base + AddressOf(w, body, Settled(chunk, pc).next).offset
  {
    hide Settled, Laid, LaidOut, Start, Length, GoesOn;
    CodeIsLaid(w, body);
    GoesOnAtNext(w.table, w.helpers, w.p.bodies[body].chunk, w.codes[body], pc, n);
    EntryIsStart(w, body, Settled(w.p.bodies[body].chunk, pc).next);
  }

  lemma EntryIsStart(w: World, body: nat, pc: nat)
    requires WorldOk(w) && body in w.codes && pc <= |w.p.bodies[body].chunk.code|
    requires Laid(w.p.bodies[body].chunk, pc)
    ensures |w.codes[body].entries| > pc && w.codes[body].entries[pc] == AddressOf(w, body, pc).offset
  {
    hide Settled, Laid, Start, Length, PieceIn;
    CodeIsLaid(w, body);
  }

  /** A laid jump to a target arrives where Follow says. */
  lemma TargetArrives(w: World, body: nat, pc: nat, n: nat)
    requires WorldOk(w) && body in w.codes && pc <= |w.p.bodies[body].chunk.code|
    requires Laid(w.p.bodies[body].chunk, pc)
    requires n < |w.table(Settled(w.p.bodies[body].chunk, pc).stencil).holes|
    requires var h := HoleAt(w, body, pc, n); h.kind == TargetTo && h.form == Rel32 && h.addend == -4
    ensures var chunk, code := w.p.bodies[body].chunk, w.codes[body];
            var h := HoleAt(w, body, pc, n);
            var at := Start(w.table, chunk, pc);
            && at + h.End() <= |code.memory| && 0 <= Settled(chunk, pc).target <= |chunk.code|
            && Reads(h.form, code.base + at + h.offset, code.memory[at + h.offset..at + h.End()]) + FieldSize(h.form)
               == code.base + AddressOf(w, body, Settled(chunk, pc).target).offset
  {
    hide Settled, Laid, LaidOut, Start, Length, Reads;
    CodeIsLaid(w, body);
    JumpsAtTarget(w.table, w.helpers, w.p.bodies[body].chunk, w.codes[body], pc, n);
    EntryIsStart(w, body, Settled(w.p.bodies[body].chunk, pc).target);
  }

  /** What the stencil is said to have in a hole of this kind. */
  function Carries(h: Holes, kind: Kind): Option<int> {
    match kind
    case A => Some(h.a as int)
    case B => Some(h.b as int)
    case C => Some(h.c as int)
    case A8 => Some(h.a * 8)
    case B8 => Some(h.b * 8)
    case C8 => Some(h.c * 8)
    case KLo => Some(h.k.payload % TWO_TO_THE_32)
    case KHi => Some(h.k.payload / TWO_TO_THE_32)
    case KTag => Some(TagNumber(h.k.tag) as int)
    case Pc => Some(h.pc as int)
    case _ => None
  }

  /** What Run is given for an instruction's operands, constant and pc is what the
      fields of its piece say, wherever the piece was not cut. */
  lemma OperandsAreLaid(w: World, body: nat, pc: nat, n: nat)
    requires WorldOk(w) && body in w.codes && pc < |w.p.bodies[body].chunk.code|
    requires Laid(w.p.bodies[body].chunk, pc)
    requires n < |w.table(Settled(w.p.bodies[body].chunk, pc).stencil).holes|
    requires HoleAt(w, body, pc, n).offset < Length(w.table, w.p.bodies[body].chunk, pc)
    requires HoleAt(w, body, pc, n).form != Abs64
    ensures ChunkOk(w.p.bodies[body].chunk)
    ensures var chunk, code := w.p.bodies[body].chunk, w.codes[body];
            var h := HoleAt(w, body, pc, n);
            var at := Start(w.table, chunk, pc);
            && at + h.End() <= |code.memory|
            && (Carries(HolesOf(chunk, pc), h.kind).Some? ==>
                  Reads(h.form, code.base + at + h.offset, code.memory[at + h.offset..at + h.End()])
                  == Carries(HolesOf(chunk, pc), h.kind).value + h.addend)
  {
    hide Settled, Laid, LaidOut, Start, Length, Reads;
    CodeIsLaid(w, body);
    HoleSaysInMemory(w.table, w.helpers, w.p.bodies[body].chunk, w.codes[body], pc, n);
    SettledBounds(w.p.bodies[body].chunk, pc);
    ValuesAreHoles(w, body, pc, HoleAt(w, body, pc, n).kind);
  }

  lemma ValuesAreHoles(w: World, body: nat, pc: nat, kind: Kind)
    requires WorldOk(w) && body in w.codes && pc < |w.p.bodies[body].chunk.code|
    ensures ChunkOk(w.p.bodies[body].chunk)
    ensures var chunk := w.p.bodies[body].chunk;
            Carries(HolesOf(chunk, pc), kind).Some? ==>
              Values(w.table, w.helpers, chunk, w.codes[body].base, pc)(kind) == Carries(HolesOf(chunk, pc), kind).value
  {
    hide Settled, LaidOut, Entries;
    CodeIsLaid(w, body);
    SettledBounds(w.p.bodies[body].chunk, pc);
  }

  /** Every field of a laid piece, whatever its kind and form: the instruction's own
      numbers and multiples of them, the halves and the tag of its constant, where
      the code of its next and of its target begins, and the runtime's function for
      calls, for returns, and for the work it names -- with the hole's addend, and
      modulo the word in the one form that takes it whole. */
  lemma FieldsAreLaid(w: World, body: nat, pc: nat, n: nat)
    requires WorldOk(w) && body in w.codes && pc < |w.p.bodies[body].chunk.code|
    requires Laid(w.p.bodies[body].chunk, pc)
    requires n < |w.table(Settled(w.p.bodies[body].chunk, pc).stencil).holes|
    requires HoleAt(w, body, pc, n).offset < Length(w.table, w.p.bodies[body].chunk, pc)
    ensures var chunk, code := w.p.bodies[body].chunk, w.codes[body];
            var h := HoleAt(w, body, pc, n);
            var i := chunk.code[pc];
            var choice := Settled(chunk, pc);
            var at := Start(w.table, chunk, pc);
            && at + h.End() <= |code.memory| && choice.next < |code.entries| && 0 <= choice.target < |code.entries|
            && var said := h.addend +
                 match h.kind
                 case A => i.a as int case B => i.b as int case C => i.c as int
                 case A8 => 8 * i.a case B8 => 8 * i.b case C8 => 8 * i.c
                 case KLo => choice.k.payload % 0x1_0000_0000
                 case KHi => choice.k.payload / 0x1_0000_0000
                 case KTag =>
                   (match choice.k.tag
                    case NilTag => 0 case BoolTag => 1 case IntTag => 2 case RealTag => 3
                    case ObjectTag => 4 case HostValueTag => 5 case ContTag => 6 case RunTag => 7)
                 case Pc => pc as int
                 case ContinueTo => code.base + code.entries[choice.next]
                 case TargetTo => code.base + code.entries[choice.target]
                 case CallHelper => w.helpers.call as int
                 case ReturnHelper => w.helpers.ret as int
                 case StepHelper => w.helpers.step(if choice.stencil.InPlace? && i.op.InC? then i.op.work else Close) as int;
               Reads(h.form, code.base + at + h.offset, code.memory[at + h.offset..at + h.End()]) ==
               if h.form.Abs64? then said % 0x1_0000_0000_0000_0000 else said
  {
    hide Settled, Laid, LaidOut, Start, Length, Reads;
    CodeIsLaid(w, body);
    var chunk := w.p.bodies[body].chunk;
    HoleSaysInMemory(w.table, w.helpers, chunk, w.codes[body], pc, n);
    SettledBounds(chunk, pc);
    WorkNamed(chunk, pc);
    EntriesAre(w, body);
  }

  lemma WorkNamed(chunk: Chunk, pc: nat)
    requires ChunkOk(chunk) && pc < |chunk.code|
    ensures var choice := Settled(chunk, pc);
            choice.work == if choice.stencil.InPlace? && chunk.code[pc].op.InC? then chunk.code[pc].op.work else Close
  {
    assert OperandsOk(chunk, pc);
  }

  lemma EntriesAre(w: World, body: nat)
    requires WorldOk(w) && body in w.codes && ChunkOk(w.p.bodies[body].chunk)
    ensures w.codes[body].entries == Entries(w.table, w.p.bodies[body].chunk)
  {
    CodeIsLaid(w, body);
  }

  /** A field's bytes, lowest first, as the processor takes them. */
  lemma BytesSay(at: nat, b: seq<Byte>)
    requires |b| == 8
    ensures var low := (b[0] as int) + 0x100 * (b[1] as int) + 0x1_0000 * (b[2] as int) + 0x100_0000 * (b[3] as int);
            var high := (b[4] as int) + 0x100 * (b[5] as int) + 0x1_0000 * (b[6] as int) + 0x100_0000 * (b[7] as int);
            var signed := if b[3] < 128 then low else low - 0x1_0000_0000;
            && Reads(Abs32, at, b[..4]) == low && Reads(Abs32S, at, b[..4]) == signed
            && Reads(Rel32, at, b[..4]) == at + signed && Reads(Abs64, at, b) == low + 0x1_0000_0000 * high
  {
    NumberOfFour(b[..4]);
    NumberOfFour(b[4..]);
    assert b[1..][1..] == b[2..] && b[2..][1..] == b[3..] && b[3..][1..] == b[4..];
    assert Number(b[3..]) == (b[3] as int) + 256 * Number(b[4..]);
    assert Number(b[2..]) == (b[2] as int) + 256 * Number(b[3..]);
    assert Number(b[1..]) == (b[1] as int) + 256 * Number(b[2..]);
  }

  lemma NumberOfFour(b: seq<Byte>)
    requires |b| == 4
    ensures Number(b) == (b[0] as int) + 0x100 * (b[1] as int) + 0x1_0000 * (b[2] as int) + 0x100_0000 * (b[3] as int)
  {
    assert b[1..][1..] == b[2..] && b[2..][1..] == b[3..] && b[3..][1..] == [];
    assert Number(b[3..]) == (b[3] as int);
    assert Number(b[2..]) == (b[2] as int) + 256 * Number(b[3..]);
    assert Number(b[1..]) == (b[1] as int) + 256 * Number(b[2..]);
  }
}
