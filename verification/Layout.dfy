/** Laying a chunk out: which instructions get code, where each piece starts,
    where its last jump is cut, and what is written into it (jit/jit.c,
    lay_out). */
module Layout {
  import opened Wrappers
  import opened Bytecode
  import opened Stencils
  import opened Choosing
  import opened HoleWriting

  /** A chunk's code. `entries[pc]` is how far into `memory` instruction pc
      begins, or NO_ENTRY; `enter[pc]` whether it may be entered there from outside;
      `resumes[pc]` is where the return of a call at pc goes on. */
  datatype JitCode = JitCode(
    base: nat, memory: seq<Byte>, entries: seq<nat>, enter: seq<bool>, resumes: seq<Option<nat>>)

  // ------------------------------------------------------------------
  // What the layout is, said without its loops

  /** The instruction laid next after pc; the end of the chunk after the last. */
  ghost function After(chunk: Chunk, pc: nat): (next: nat)
    requires ChunkOk(chunk) && pc <= |chunk.code|
    ensures next <= |chunk.code| && Laid(chunk, next)
    ensures pc < |chunk.code| ==> pc < next && forall q | pc < q < next :: !Laid(chunk, q)
    decreases |chunk.code| - pc
  {
    if pc == |chunk.code| then pc
    else if Laid(chunk, pc + 1) then pc + 1
    else After(chunk, pc + 1)
  }

  /** A piece is laid up to its tail where the piece after it is its next. */
  ghost predicate Cut(chunk: Chunk, pc: nat)
    requires ChunkOk(chunk) && pc <= |chunk.code|
  {
    pc < |chunk.code| && Settled(chunk, pc).next == After(chunk, pc)
  }

  ghost function Length(table: Table, chunk: Chunk, pc: nat): nat
    requires ChunkOk(chunk) && pc <= |chunk.code|
  {
    var d := table(Settled(chunk, pc).stencil);
    if Cut(chunk, pc) then d.tail else |d.code|
  }

  /** Where the piece of pc starts: past every piece laid before it. */
  ghost function Start(table: Table, chunk: Chunk, pc: nat): nat
    requires ChunkOk(chunk) && pc <= |chunk.code| + 1
  {
    if pc == 0 then 0
    else Start(table, chunk, pc - 1) + if Laid(chunk, pc - 1) then Length(table, chunk, pc - 1) else 0
  }

  ghost function Total(table: Table, chunk: Chunk): nat
    requires ChunkOk(chunk)
  {
    Start(table, chunk, |chunk.code| + 1)
  }

  ghost function Entry(table: Table, chunk: Chunk, pc: nat): nat
    requires ChunkOk(chunk) && pc <= |chunk.code|
  {
    if Laid(chunk, pc) then Start(table, chunk, pc) else NO_ENTRY
  }

  ghost function Entries(table: Table, chunk: Chunk): (entries: seq<nat>)
    requires ChunkOk(chunk)
    ensures |entries| == |chunk.code| + 1
    ensures forall pc | 0 <= pc < |entries| :: entries[pc] == Entry(table, chunk, pc)
  {
    seq(|chunk.code| + 1, pc requires 0 <= pc <= |chunk.code| => Entry(table, chunk, pc))
  }

  /** Laid, and with a stencil that does the instruction's work. */
  ghost predicate Enterable(chunk: Chunk, pc: nat)
    requires ChunkOk(chunk) && pc <= |chunk.code|
  {
    pc < |chunk.code| && Laid(chunk, pc) && !Settled(chunk, pc).stencil.Exit?
  }

  ghost function Resume(table: Table, chunk: Chunk, pc: nat): Option<nat>
    requires ChunkOk(chunk) && pc <= |chunk.code|
  {
    var choice := Settled(chunk, pc);
    SettledBounds(chunk, pc);
    if pc < |chunk.code| && choice.stencil.Call? && Enterable(chunk, choice.next)
    then Some(Start(table, chunk, choice.next)) else None
  }

  // ------------------------------------------------------------------
  // Geometry

  lemma {:induction false} NothingLaidBetween(table: Table, chunk: Chunk, pc: nat, q: nat)
    requires ChunkOk(chunk) && pc < q <= |chunk.code|
    requires forall r | pc < r < q :: !Laid(chunk, r)
    ensures Start(table, chunk, q) == Start(table, chunk, pc + 1)
  {
    hide Laid, Length;
    if q > pc + 1 {
      assert !Laid(chunk, q - 1);
      assert Start(table, chunk, q) == Start(table, chunk, q - 1);
      NothingLaidBetween(table, chunk, pc, q - 1);
    }
  }

  /** Where a piece is cut, the byte after it is the entry of the instruction it
      goes on in: falling in is the same control flow as the jump it lost. */
  lemma CutFallsIn(table: Table, chunk: Chunk, pc: nat)
    requires ChunkOk(chunk) && pc <= |chunk.code| && Laid(chunk, pc) && Cut(chunk, pc)
    ensures Settled(chunk, pc).next <= |chunk.code|
    ensures Start(table, chunk, pc) + Length(table, chunk, pc) ==
            Entry(table, chunk, Settled(chunk, pc).next)
  {
    NothingLaidBetween(table, chunk, pc, After(chunk, pc));
  }

  /** A piece has a byte at least: the cut takes a jump, never the whole stencil. */
  lemma LengthPositive(table: Table, chunk: Chunk, pc: nat)
    requires ChunkOk(chunk) && TableOk(table) && pc <= |chunk.code|
    ensures 0 < Length(table, chunk, pc)
  {
    hide Settled, Cut;
    assert DataOk(table(Settled(chunk, pc).stencil));
  }

  lemma {:induction false} StartsGrow(table: Table, chunk: Chunk, pc: nat, q: nat)
    requires ChunkOk(chunk) && pc <= q <= |chunk.code| + 1
    ensures Start(table, chunk, pc) <= Start(table, chunk, q)
  {
    hide Laid, Length;
    if q > pc {
      StartsGrow(table, chunk, pc, q - 1);
    }
  }

  /** Pieces stand one behind another, in the order of their instructions. */
  lemma PiecesInOrder(table: Table, chunk: Chunk, pc: nat, q: nat)
    requires ChunkOk(chunk) && TableOk(table) && pc < q <= |chunk.code| + 1
    requires Laid(chunk, pc)
    ensures 0 < Length(table, chunk, pc)
    ensures Start(table, chunk, pc) + Length(table, chunk, pc) <= Start(table, chunk, q)
  {
    hide Laid, Length;
    LengthPositive(table, chunk, pc);
    assert Start(table, chunk, pc + 1) == Start(table, chunk, pc) + Length(table, chunk, pc);
    StartsGrow(table, chunk, pc + 1, q);
  }

  /** An offset is the start of at most one laid piece. */
  lemma EntryNamesOne(table: Table, chunk: Chunk, pc: nat, q: nat)
    requires ChunkOk(chunk) && TableOk(table) && pc <= |chunk.code| && q <= |chunk.code|
    requires Laid(chunk, pc) && Laid(chunk, q)
    requires Start(table, chunk, pc) == Start(table, chunk, q)
    ensures pc == q
  {
    if pc < q {
      PiecesInOrder(table, chunk, pc, q);
    } else if q < pc {
      PiecesInOrder(table, chunk, q, pc);
    }
  }

  /** Every byte of the memory belongs to exactly one laid piece. */
  lemma {:induction false} PiecesTile(table: Table, chunk: Chunk, end: nat, at: nat) returns (pc: nat)
    requires ChunkOk(chunk) && TableOk(table) && end <= |chunk.code| + 1
    requires at < Start(table, chunk, end)
    ensures pc < end && Laid(chunk, pc)
    ensures Start(table, chunk, pc) <= at < Start(table, chunk, pc) + Length(table, chunk, pc)
  {
    hide Laid, Length;
    if at < Start(table, chunk, end - 1) {
      pc := PiecesTile(table, chunk, end - 1, at);
    } else {
      pc := end - 1;
    }
  }

  // ------------------------------------------------------------------
  // The bytes of a piece

  /** The instruction a piece's holes read; the end of the chunk reads zero. */
  function InstructionAt(chunk: Chunk, pc: nat): Instruction {
    if pc < |chunk.code| then chunk.code[pc] else Instruction(Op.LoadK, 0, 0, 0)
  }

  /** The first `n` holes written into a copy of the stencil cut at `length`,
      which stands at `at`; a hole in the part that was cut is skipped. */
  function Patched(d: StencilData, length: nat, n: nat, at: nat, value: Kind -> int): (bytes: Option<seq<Byte>>)
    requires length <= |d.code| && n <= |d.holes|
    requires forall i | 0 <= i < |d.holes| :: d.holes[i].offset < length ==> d.holes[i].End() <= length
    ensures bytes.Some? ==> |bytes.value| == length
  {
    if n == 0 then Some(d.code[..length])
    else
      match Patched(d, length, n - 1, at, value)
      case None => None
      case Some(b) =>
        var h := d.holes[n - 1];
        if h.offset >= length then Some(b)
        else
          match Field(h.form, at + h.offset, value(h.kind) + h.addend)
          case None => None
          case Some(f) => Some(b[..h.offset] + f + b[h.End()..])
  }

  /** What a patched piece says: the stencil's own bytes outside its holes, and
      in each hole that was not cut the value it was given. */
  ghost predicate SaysItsHoles(d: StencilData, length: nat, n: nat, at: nat, value: Kind -> int, bytes: seq<Byte>)
    requires n <= |d.holes| && length <= |d.code|
  {
    && |bytes| == length
    && (forall i | 0 <= i < n :: d.holes[i].offset < length ==>
          && d.holes[i].End() <= length
          && HoleSays(d.holes[i], at, value, bytes))
    && (forall j | 0 <= j < length :: InNoHole(d, n, j) ==> bytes[j] == d.code[j])
  }

  predicate HoleSays(h: Hole, at: nat, value: Kind -> int, bytes: seq<Byte>)
    requires h.End() <= |bytes|
  {
    Reads(h.form, at + h.offset, bytes[h.offset..h.End()]) ==
    var v := value(h.kind) + h.addend; if h.form.Abs64? then v % TWO_TO_THE_64 else v
  }

  predicate InNoHole(d: StencilData, n: nat, j: nat)
    requires n <= |d.holes|
  {
    forall i | 0 <= i < n :: j < d.holes[i].offset || d.holes[i].End() <= j
  }

  /** A later hole's field leaves an earlier one as it was written. */
  lemma FieldsApart(b: seq<Byte>, f: seq<Byte>, from: nat, to: nat, lo: nat, hi: nat)
    requires lo <= hi <= from <= to <= |b| && |f| == to - from
    ensures (b[..from] + f + b[to..])[lo..hi] == b[lo..hi]
  {
  }

  lemma OneMoreHole(d: StencilData, length: nat, n: nat, at: nat, value: Kind -> int, b: seq<Byte>, f: seq<Byte>)
    requires DataOk(d) && (length == d.tail || length == |d.code|) && 0 < n <= |d.holes|
    requires SaysItsHoles(d, length, n - 1, at, value, b)
    requires d.holes[n - 1].offset < length
    requires Field(d.holes[n - 1].form, at + d.holes[n - 1].offset, value(d.holes[n - 1].kind) + d.holes[n - 1].addend)
             == Some(f)
    ensures SaysItsHoles(d, length, n, at, value, b[..d.holes[n - 1].offset] + f + b[d.holes[n - 1].End()..])
  {
    hide Field, Reads, InNoHole;
    var h := d.holes[n - 1];
    var bytes := b[..h.offset] + f + b[h.End()..];
    FieldReadsBack(h.form, at + h.offset, value(h.kind) + h.addend);
    assert bytes[h.offset..h.End()] == f;
    forall i | 0 <= i < n && d.holes[i].offset < length
      ensures d.holes[i].End() <= length && HoleSays(d.holes[i], at, value, bytes)
    {
      if i < n - 1 {
        FieldsApart(b, f, h.offset, h.End(), d.holes[i].offset, d.holes[i].End());
      }
    }
    forall j | 0 <= j < length && InNoHole(d, n, j) ensures bytes[j] == d.code[j] {
      OneFewerHole(d, n, j);
    }
  }

  lemma OneFewerHole(d: StencilData, n: nat, j: nat)
    requires 0 < n <= |d.holes| && InNoHole(d, n, j)
    ensures InNoHole(d, n - 1, j) && (j < d.holes[n - 1].offset || d.holes[n - 1].End() <= j)
  {
  }

  lemma SkippedHole(d: StencilData, length: nat, n: nat, at: nat, value: Kind -> int, b: seq<Byte>)
    requires 0 < n <= |d.holes| && length <= |d.code| && length <= d.holes[n - 1].offset
    requires SaysItsHoles(d, length, n - 1, at, value, b)
    ensures SaysItsHoles(d, length, n, at, value, b)
  {
    forall j | 0 <= j < length && InNoHole(d, n, j) ensures b[j] == d.code[j] {
      assert InNoHole(d, n - 1, j);
    }
  }

  lemma PatchedStep(d: StencilData, length: nat, n: nat, at: nat, value: Kind -> int, b: seq<Byte>)
    requires DataOk(d) && (length == d.tail || length == |d.code|) && 0 < n <= |d.holes|
    requires Patched(d, length, n - 1, at, value) == Some(b) && SaysItsHoles(d, length, n - 1, at, value, b)
    requires Patched(d, length, n, at, value).Some?
    ensures SaysItsHoles(d, length, n, at, value, Patched(d, length, n, at, value).value)
  {
    hide SaysItsHoles, Field;
    assert length <= |d.code|;
    var h := d.holes[n - 1];
    var after := Patched(d, length, n, at, value).value;
    if h.offset < length {
      var f := Field(h.form, at + h.offset, value(h.kind) + h.addend).value;
      assert after == b[..h.offset] + f + b[h.End()..];
      OneMoreHole(d, length, n, at, value, b, f);
    } else {
      assert after == b;
      SkippedHole(d, length, n, at, value, b);
    }
    assert SaysItsHoles(d, length, n, at, value, after);
  }

  lemma {:induction false} PatchedSays(d: StencilData, length: nat, n: nat, at: nat, value: Kind -> int)
    requires DataOk(d) && (length == d.tail || length == |d.code|) && n <= |d.holes|
    requires Patched(d, length, n, at, value).Some?
    ensures SaysItsHoles(d, length, n, at, value, Patched(d, length, n, at, value).value)
  {
    hide SaysItsHoles, Field;
    if n > 0 {
      PatchedSays(d, length, n - 1, at, value);
      PatchedStep(d, length, n, at, value, Patched(d, length, n - 1, at, value).value);
    } else {
      NotPatched(d, length, at, value);
    }
  }

  lemma NotPatched(d: StencilData, length: nat, at: nat, value: Kind -> int)
    requires length <= |d.code|
    ensures SaysItsHoles(d, length, 0, at, value, d.code[..length])
  {
  }

  // ------------------------------------------------------------------
  // The whole layout

  function Carried(choice: Choice, i: Instruction, pc: nat, base: nat, entries: seq<nat>, helpers: Helpers): Kind -> int
    requires choice.next < |entries| && 0 <= choice.target < |entries|
  {
    (kind: Kind) => HoleValue(choice, kind, i, pc, base, entries, helpers)
  }

  /** The values the holes of the piece of pc are given. */
  ghost function Values(table: Table, helpers: Helpers, chunk: Chunk, base: nat, pc: nat): Kind -> int
    requires ChunkOk(chunk) && pc <= |chunk.code|
  {
    SettledBounds(chunk, pc);
    Carried(Settled(chunk, pc), InstructionAt(chunk, pc), pc, base, Entries(table, chunk), helpers)
  }

  ghost function Piece(table: Table, helpers: Helpers, chunk: Chunk, base: nat, pc: nat): Option<seq<Byte>>
    requires ChunkOk(chunk) && TableOk(table) && pc <= |chunk.code|
  {
    var d := table(Settled(chunk, pc).stencil);
    assert DataOk(d);
    Patched(d, Length(table, chunk, pc), |d.holes|, base + Start(table, chunk, pc),
            Values(table, helpers, chunk, base, pc))
  }

  ghost predicate PieceIn(table: Table, helpers: Helpers, chunk: Chunk, base: nat, memory: seq<Byte>, pc: nat)
    requires ChunkOk(chunk) && TableOk(table) && pc <= |chunk.code|
  {
    var start, length := Start(table, chunk, pc), Length(table, chunk, pc);
    && start + length <= |memory|
    && Piece(table, helpers, chunk, base, pc) == Some(memory[start..start + length])
  }

  /** What lay_out answers for a chunk it does not refuse. */
  ghost predicate LaidOut(table: Table, helpers: Helpers, chunk: Chunk, code: JitCode) {
    && ChunkOk(chunk) && TableOk(table)
    && code.entries == Entries(table, chunk)
    && |code.memory| == Total(table, chunk)
    && |code.enter| == |code.resumes| == |chunk.code| + 1
    && forall pc | 0 <= pc <= |chunk.code| ::
         && (Laid(chunk, pc) ==> PieceIn(table, helpers, chunk, code.base, code.memory, pc))
         && (code.enter[pc] <==> Enterable(chunk, pc))
         && code.resumes[pc] == Resume(table, chunk, pc)
  }

  /** A chunk is refused for a field that would be laid and cannot hold its value. */
  lemma PieceRefusesIff(table: Table, helpers: Helpers, chunk: Chunk, base: nat, pc: nat)
    requires ChunkOk(chunk) && TableOk(table) && pc <= |chunk.code|
    ensures Piece(table, helpers, chunk, base, pc).None? <==>
            var holes := table(Settled(chunk, pc).stencil).holes;
            exists n :: 0 <= n < |holes| && holes[n].offset < Length(table, chunk, pc) &&
              Field(holes[n].form, base + Start(table, chunk, pc) + holes[n].offset,
                    Values(table, helpers, chunk, base, pc)(holes[n].kind) + holes[n].addend).None?
  {
    hide Settled, Cut, Start, Values, Field;
    var d := table(Settled(chunk, pc).stencil);
    assert DataOk(d);
    PatchedRefusesIff(d, Length(table, chunk, pc), |d.holes|, base + Start(table, chunk, pc),
                      Values(table, helpers, chunk, base, pc));
  }

  lemma {:induction false} PatchedRefusesIff(d: StencilData, length: nat, n: nat, at: nat, value: Kind -> int)
    requires length <= |d.code| && n <= |d.holes|
    requires forall i | 0 <= i < |d.holes| :: d.holes[i].offset < length ==> d.holes[i].End() <= length
    ensures Patched(d, length, n, at, value).None? <==>
            exists i :: 0 <= i < n && d.holes[i].offset < length &&
              Field(d.holes[i].form, at + d.holes[i].offset, value(d.holes[i].kind) + d.holes[i].addend).None?
    decreases n
  {
    hide Field;
    if n > 0 {
      PatchedRefusesIff(d, length, n - 1, at, value);
    }
  }

  /** A piece loses its last jump exactly where nothing is laid between it and the
      instruction it goes on in. */
  lemma CutIff(chunk: Chunk, pc: nat)
    requires ChunkOk(chunk) && pc < |chunk.code| && Laid(chunk, pc)
    ensures Cut(chunk, pc) <==> forall q | pc < q < Settled(chunk, pc).next :: !Laid(chunk, q)
  {
    hide Laid, Settled, Landed;
    LayoutClosure(chunk, pc);
    SettledBounds(chunk, pc);
  }

  lemma LengthIs(table: Table, chunk: Chunk, pc: nat)
    requires ChunkOk(chunk) && pc <= |chunk.code|
    ensures var d := table(Settled(chunk, pc).stencil);
            Length(table, chunk, pc) == if Cut(chunk, pc) then d.tail else |d.code|
  {
  }

  /** Every field left in a laid piece says what its hole was to carry, and
      every byte outside the holes is the stencil's own. */
  lemma HolesSay(table: Table, helpers: Helpers, chunk: Chunk, code: JitCode, pc: nat)
    requires LaidOut(table, helpers, chunk, code) && pc <= |chunk.code| && Laid(chunk, pc)
    ensures Start(table, chunk, pc) + Length(table, chunk, pc) <= |code.memory|
    ensures var d := table(Settled(chunk, pc).stencil);
            var at := Start(table, chunk, pc);
            Length(table, chunk, pc) <= |d.code| &&
            SaysItsHoles(d, Length(table, chunk, pc), |d.holes|, code.base + at,
                         Values(table, helpers, chunk, code.base, pc),
                         code.memory[at..at + Length(table, chunk, pc)])
  {
    hide Start, Length, Laid, Settled, SaysItsHoles, Entries, Values, Cut;
    var d := table(Settled(chunk, pc).stencil);
    assert DataOk(d);
    assert PieceIn(table, helpers, chunk, code.base, code.memory, pc);
    LengthIs(table, chunk, pc);
    PatchedSays(d, Length(table, chunk, pc), |d.holes|, code.base + Start(table, chunk, pc),
                Values(table, helpers, chunk, code.base, pc));
  }

  /** The same of one hole, read in the memory. */
  lemma HoleSaysInMemory(table: Table, helpers: Helpers, chunk: Chunk, code: JitCode, pc: nat, n: nat)
    requires LaidOut(table, helpers, chunk, code) && pc <= |chunk.code| && Laid(chunk, pc)
    requires n < |table(Settled(chunk, pc).stencil).holes|
    requires table(Settled(chunk, pc).stencil).holes[n].offset < Length(table, chunk, pc)
    ensures var h := table(Settled(chunk, pc).stencil).holes[n];
            var at := Start(table, chunk, pc);
            var said := Values(table, helpers, chunk, code.base, pc)(h.kind) + h.addend;
            && h.End() <= Length(table, chunk, pc)
            && at + Length(table, chunk, pc) <= |code.memory|
            && Reads(h.form, code.base + at + h.offset, code.memory[at + h.offset..at + h.End()]) ==
               if h.form.Abs64? then said % TWO_TO_THE_64 else said
  {
    hide Start, Length, Laid, Settled, Entries, Values, Cut, PieceIn;
    HolesSay(table, helpers, chunk, code, pc);
    var d := table(Settled(chunk, pc).stencil);
    var h := d.holes[n];
    var at, length := Start(table, chunk, pc), Length(table, chunk, pc);
    assert HoleSays(h, code.base + at, Values(table, helpers, chunk, code.base, pc), code.memory[at..at + length]);
    SliceOfSlice(code.memory, at, length, h.offset, h.End());
  }

  lemma SliceOfSlice(bytes: seq<Byte>, at: nat, length: nat, from: nat, to: nat)
    requires from <= to <= length && at + length <= |bytes|
    ensures bytes[at..at + length][from..to] == bytes[at + from..at + to]
  {
    var inner, outer := bytes[at..at + length][from..to], bytes[at + from..at + to];
    assert |inner| == |outer|;
    assert forall k | 0 <= k < |inner| :: inner[k] == outer[k];
  }

  /** Where the processor goes from the piece of pc when it goes on: past the
      cut, or through a jump whose field is the CONTINUE hole `n`. */
  ghost function GoesOn(table: Table, chunk: Chunk, code: JitCode, pc: nat, n: nat): int
    requires ChunkOk(chunk) && TableOk(table) && pc <= |chunk.code|
    requires n < |table(Settled(chunk, pc).stencil).holes|
    requires Start(table, chunk, pc) + Length(table, chunk, pc) <= |code.memory|
  {
    var h := table(Settled(chunk, pc).stencil).holes[n];
    var at, length := Start(table, chunk, pc), Length(table, chunk, pc);
    if h.offset >= length || h.End() > length then code.base + at + length
    else Reads(h.form, code.base + at + h.offset, code.memory[at + h.offset..at + h.End()]) + FieldSize(h.form)
  }

  /** Cutting the last jump and skipping its hole is the same control flow as
      keeping it: either way the processor arrives at the entry of the
      instruction the choice goes on in, which was laid. */
  lemma GoesOnAtNext(table: Table, helpers: Helpers, chunk: Chunk, code: JitCode, pc: nat, n: nat)
    requires LaidOut(table, helpers, chunk, code) && pc <= |chunk.code| && Laid(chunk, pc)
    requires n < |table(Settled(chunk, pc).stencil).holes|
    requires var h := table(Settled(chunk, pc).stencil).holes[n];
             h.kind == ContinueTo && h.form == Rel32 && h.addend == -4
    ensures Start(table, chunk, pc) + Length(table, chunk, pc) <= |code.memory|
    ensures Settled(chunk, pc).next <= |chunk.code| && Laid(chunk, Settled(chunk, pc).next)
    ensures GoesOn(table, chunk, code, pc, n) == code.base + code.entries[Settled(chunk, pc).next]
  {
    hide Start, Length, Laid, Settled, Cut, PieceIn, Piece, SaysItsHoles, Values, Reads;
    var choice := Settled(chunk, pc);
    var h := table(choice.stencil).holes[n];
    LayoutClosure(chunk, pc);
    ContinueCarries(table, helpers, chunk, code.base, pc);
    HolesSay(table, helpers, chunk, code, pc);
    if h.offset < Length(table, chunk, pc) {
      HoleSaysInMemory(table, helpers, chunk, code, pc, n);
    } else {
      CutWhereTheJumpWas(table, chunk, pc, n);
      CutFallsIn(table, chunk, pc);
    }
  }

  /** And a jump to a target arrives at the entry of the instruction the choice
      names, which was laid: the field is never one that was cut. */
  lemma JumpsAtTarget(table: Table, helpers: Helpers, chunk: Chunk, code: JitCode, pc: nat, n: nat)
    requires LaidOut(table, helpers, chunk, code) && pc <= |chunk.code| && Laid(chunk, pc)
    requires n < |table(Settled(chunk, pc).stencil).holes|
    requires var h := table(Settled(chunk, pc).stencil).holes[n];
             h.kind == TargetTo && h.form == Rel32 && h.addend == -4
    ensures var h := table(Settled(chunk, pc).stencil).holes[n];
            && h.offset < Length(table, chunk, pc)
            && Start(table, chunk, pc) + h.End() <= |code.memory|
            && 0 <= Settled(chunk, pc).target <= |chunk.code| && Laid(chunk, Settled(chunk, pc).target)
            && Reads(h.form, code.base + Start(table, chunk, pc) + h.offset,
                     code.memory[Start(table, chunk, pc) + h.offset..Start(table, chunk, pc) + h.End()])
               + FieldSize(h.form) == code.base + code.entries[Settled(chunk, pc).target]
  {
    hide Start, Length, Laid, Settled, Cut, PieceIn, Piece, SaysItsHoles, Values, Reads;
    LayoutClosure(chunk, pc);
    TargetCarries(table, helpers, chunk, code.base, pc);
    TargetIsKept(table, chunk, pc, n);
    HoleSaysInMemory(table, helpers, chunk, code, pc, n);
  }

  lemma TargetIsKept(table: Table, chunk: Chunk, pc: nat, n: nat)
    requires ChunkOk(chunk) && TableOk(table) && pc <= |chunk.code|
    requires n < |table(Settled(chunk, pc).stencil).holes|
    requires table(Settled(chunk, pc).stencil).holes[n].kind == TargetTo
    ensures table(Settled(chunk, pc).stencil).holes[n].offset < Length(table, chunk, pc)
  {
    hide Cut, Settled;
    var d := table(Settled(chunk, pc).stencil);
    assert DataOk(d);
    LengthIs(table, chunk, pc);
    assert n < |d.holes| - 1 ==> d.holes[n].End() <= d.holes[|d.holes| - 1].offset;
  }

  lemma TargetCarries(table: Table, helpers: Helpers, chunk: Chunk, base: nat, pc: nat)
    requires ChunkOk(chunk) && pc <= |chunk.code|
    ensures 0 <= Settled(chunk, pc).target <= |chunk.code|
    ensures Values(table, helpers, chunk, base, pc)(TargetTo) == base + Entries(table, chunk)[Settled(chunk, pc).target]
  {
    hide Settled;
    SettledBounds(chunk, pc);
  }

  lemma ContinueCarries(table: Table, helpers: Helpers, chunk: Chunk, base: nat, pc: nat)
    requires ChunkOk(chunk) && pc <= |chunk.code|
    ensures Settled(chunk, pc).next <= |chunk.code|
    ensures Values(table, helpers, chunk, base, pc)(ContinueTo) == base + Entries(table, chunk)[Settled(chunk, pc).next]
  {
    hide Settled;
    SettledBounds(chunk, pc);
  }

  lemma CutWhereTheJumpWas(table: Table, chunk: Chunk, pc: nat, n: nat)
    requires ChunkOk(chunk) && TableOk(table) && pc <= |chunk.code|
    requires n < |table(Settled(chunk, pc).stencil).holes|
    requires table(Settled(chunk, pc).stencil).holes[n].offset >= Length(table, chunk, pc)
    ensures Cut(chunk, pc)
  {
    hide Cut, Settled;
    assert DataOk(table(Settled(chunk, pc).stencil));
    LengthIs(table, chunk, pc);
  }
}
