/** lay_out as it runs: arrays filled in passes over the chunk, then the memory,
    piece by piece (jit/jit.c, lay_out). */
module LayingOut {
  import opened Wrappers
  import opened Bytecode
  import opened Stencils
  import opened Choosing
  import opened HoleWriting
  import opened Layout

  // ------------------------------------------------------------------
  // The passes

  ghost predicate LandedBy(chunk: Chunk, n: nat, pc: int)
    requires n <= |chunk.code|
  {
    exists q | 0 <= q < n :: IsJump(chunk.code[q].op) && JumpTarget(q, chunk.code[q]) == pc
  }

  lemma OneMoreJump(chunk: Chunk, n: nat, pc: int)
    requires n < |chunk.code|
    ensures LandedBy(chunk, n + 1, pc) <==>
            (LandedBy(chunk, n, pc) || (IsJump(chunk.code[n].op) && JumpTarget(n, chunk.code[n]) == pc))
  {
  }

  method MarkLanded(chunk: Chunk) returns (landed: array<bool>)
    ensures fresh(landed) && landed.Length == |chunk.code| + 1
    ensures forall pc | 0 <= pc <= |chunk.code| :: landed[pc] <==> Landed(chunk, pc)
  {
    var count := |chunk.code|;
    landed := new bool[count + 1](_ => false);
    for n := 0 to count
      invariant forall pc | 0 <= pc <= count :: landed[pc] <==> LandedBy(chunk, n, pc)
    {
      forall pc: int
        ensures LandedBy(chunk, n + 1, pc) <==>
                (LandedBy(chunk, n, pc) || (IsJump(chunk.code[n].op) && JumpTarget(n, chunk.code[n]) == pc))
      {
        OneMoreJump(chunk, n, pc);
      }
      var i := chunk.code[n];
      if IsJump(i.op) {
        var to := JumpTarget(n, i);
        if 0 <= to <= count {
          landed[to] := true;
        }
      }
    }
    assert forall pc: nat :: LandedBy(chunk, count, pc) <==> Landed(chunk, pc);
  }

  ghost predicate Chosen(chunk: Chunk, choices: seq<Choice>) {
    && ChunkOk(chunk)
    && |choices| == |chunk.code| + 1
    && forall pc | 0 <= pc <= |chunk.code| :: choices[pc] == Settled(chunk, pc)
  }

  method ChooseAll(chunk: Chunk) returns (choices: array<Choice>)
    requires ChunkOk(chunk)
    ensures fresh(choices) && Chosen(chunk, choices[..])
  {
    var count := |chunk.code|;
    choices := new Choice[count + 1](_ => Left(0));
    for pc := 0 to count
      invariant forall q | 0 <= q < pc :: choices[q] == Settled(chunk, q)
    {
      assert OperandsOk(chunk, pc);
      choices[pc] := Choose(chunk, pc);
      // Such a target would have no code to arrive at.
      if choices[pc].next > count || choices[pc].target > count || choices[pc].target < 0 {
        choices[pc] := Left(pc);
      }
    }
    choices[count] := Choice(Stencil.Exit, count, 0, NIL, Work.Close);
  }

  ghost predicate Marked(chunk: Chunk, entries: seq<nat>) {
    && ChunkOk(chunk)
    && |entries| == |chunk.code| + 1
    && forall pc | 0 <= pc <= |chunk.code| :: entries[pc] == if Laid(chunk, pc) then 0 else NO_ENTRY
  }

  method MarkEntries(chunk: Chunk, choices: array<Choice>, landed: array<bool>) returns (entries: array<nat>)
    requires Chosen(chunk, choices[..]) && landed.Length == |chunk.code| + 1
    requires forall pc | 0 <= pc <= |chunk.code| :: landed[pc] <==> Landed(chunk, pc)
    ensures fresh(entries) && Marked(chunk, entries[..])
  {
    var count := |chunk.code|;
    entries := new nat[count + 1](_ => 0);
    for pc := 0 to count + 1
      invariant forall q | 0 <= q < pc :: entries[q] == if Laid(chunk, q) then 0 else NO_ENTRY
    {
      assert pc > 0 ==> choices[..][pc - 1] == choices[pc - 1];
      var takenIn := pc > 0 && pc < count && choices[pc - 1].next == pc + 1 && !landed[pc];
      entries[pc] := if takenIn then NO_ENTRY else 0;
    }
  }

  /** The array of landing places is written over: from here on it marks the
      places compiled code may be entered from outside. */
  method MarkEnter(chunk: Chunk, choices: array<Choice>, entries: array<nat>, enter: array<bool>)
    requires Chosen(chunk, choices[..]) && Marked(chunk, entries[..])
    requires enter.Length == |chunk.code| + 1
    modifies enter
    ensures forall pc | 0 <= pc <= |chunk.code| :: enter[pc] <==> Enterable(chunk, pc)
  {
    var count := |chunk.code|;
    for pc := 0 to count + 1
      invariant forall q | 0 <= q < pc :: enter[q] <==> Enterable(chunk, q)
    {
      assert choices[..][pc] == choices[pc] && entries[..][pc] == entries[pc];
      enter[pc] := pc < count && entries[pc] != NO_ENTRY && !choices[pc].stencil.Exit?;
    }
  }

  method FindAfter(chunk: Chunk, entries: array<nat>) returns (after: array<nat>)
    requires Marked(chunk, entries[..])
    ensures fresh(after) && after.Length == |chunk.code| + 1
    ensures forall pc | 0 <= pc <= |chunk.code| :: after[pc] == After(chunk, pc)
  {
    hide Laid, ChunkOk, After;
    AfterLast(chunk);
    var count := |chunk.code|;
    after := new nat[count + 1](_ => 0);
    var following := count;
    var pc := count + 1;
    while pc > 0
      invariant 0 <= pc <= count + 1
      invariant forall q | pc <= q <= count :: after[q] == After(chunk, q)
      invariant pc == count + 1 ==> following == count
      invariant 0 < pc <= count ==> following == After(chunk, pc - 1)
    {
      pc := pc - 1;
      assert entries[..][pc] == entries[pc];
      if pc > 0 {
        AfterBefore(chunk, pc);
      }
      after[pc] := following;
      if entries[pc] != NO_ENTRY {
        following := pc;
      }
    }
  }

  lemma AfterLast(chunk: Chunk)
    requires ChunkOk(chunk)
    ensures After(chunk, |chunk.code|) == |chunk.code|
  {
  }

  lemma AfterBefore(chunk: Chunk, pc: nat)
    requires ChunkOk(chunk) && 0 < pc <= |chunk.code|
    ensures After(chunk, pc - 1) == if Laid(chunk, pc) then pc else After(chunk, pc)
  {
    hide Laid;
  }

  method Place(table: Table, chunk: Chunk, choices: array<Choice>, after: array<nat>, entries: array<nat>)
    returns (size: nat)
    requires TableOk(table) && Chosen(chunk, choices[..]) && Marked(chunk, entries[..])
    requires after.Length == |chunk.code| + 1 && after != entries
    requires forall pc | 0 <= pc <= |chunk.code| :: after[pc] == After(chunk, pc)
    modifies entries
    ensures entries[..] == Entries(table, chunk)
    ensures size == Total(table, chunk)
  {
    var count := |chunk.code|;
    size := 0;
    for pc := 0 to count + 1
      invariant size == Start(table, chunk, pc)
      invariant forall q | 0 <= q < pc :: entries[q] == Entry(table, chunk, q)
      invariant forall q | pc <= q <= count :: entries[q] == if Laid(chunk, q) then 0 else NO_ENTRY
    {
      assert choices[..][pc] == choices[pc];
      if entries[pc] != NO_ENTRY {
        var stencil := choices[pc].stencil;
        entries[pc] := size;
        size := size + if pc < count && choices[pc].next == after[pc] then table(stencil).tail
                       else |table(stencil).code|;
      }
    }
  }

  // ------------------------------------------------------------------
  // The memory

  /** One piece: the stencil copied as far as `length`, then its holes written.
      False where a field cannot hold its value. */
  method CopyPiece(memory: array<Byte>, start: nat, d: StencilData, length: nat, base: nat, value: Kind -> int)
    returns (ok: bool)
    requires DataOk(d) && (length == d.tail || length == |d.code|)
    requires start + length <= memory.Length
    modifies memory
    ensures ok <==> Patched(d, length, |d.holes|, base + start, value).Some?
    ensures ok ==> memory[start..start + length] == Patched(d, length, |d.holes|, base + start, value).value
    ensures memory[..start] == old(memory[..start])
  {
    hide Field;
    CopyCode(memory, start, d.code[..length]);
    for n := 0 to |d.holes|
      invariant Patched(d, length, n, base + start, value) == Some(memory[start..start + length])
      invariant memory[..start] == old(memory[..start])
    {
      ok := CopyHole(memory, start, d, length, base, value, n);
      if !ok {
        RefusedStays(d, length, n + 1, base + start, value);
        return;
      }
    }
    ok := true;
  }

  method CopyCode(memory: array<Byte>, start: nat, code: seq<Byte>)
    requires start + |code| <= memory.Length
    modifies memory
    ensures memory[start..start + |code|] == code
    ensures memory[..start] == old(memory[..start])
  {
    forall j | 0 <= j < |code| {
      memory[start + j] := code[j];
    }
  }

  /** One hole, unless it stands in the jump that was cut. */
  method CopyHole(memory: array<Byte>, start: nat, d: StencilData, length: nat, base: nat, value: Kind -> int, n: nat)
    returns (ok: bool)
    requires DataOk(d) && (length == d.tail || length == |d.code|) && n < |d.holes|
    requires start + length <= memory.Length
    requires Patched(d, length, n, base + start, value) == Some(memory[start..start + length])
    modifies memory
    ensures ok <==> Patched(d, length, n + 1, base + start, value).Some?
    ensures ok ==> Patched(d, length, n + 1, base + start, value) == Some(memory[start..start + length])
    ensures memory[..start] == old(memory[..start])
  {
    var h := d.holes[n];
    if h.offset >= length {
      return true;
    }
    var field := Field(h.form, base + start + h.offset, value(h.kind) + h.addend);
    if field.None? {
      return false;
    }
    WriteField(memory, start, length, h.offset, field.value);
    ok := true;
  }

  method WriteField(memory: array<Byte>, start: nat, length: nat, offset: nat, field: seq<Byte>)
    requires offset + |field| <= length && start + length <= memory.Length
    modifies memory
    ensures memory[start..start + length] ==
            old(memory[start..start + length])[..offset] + field +
            old(memory[start..start + length])[offset + |field|..]
    ensures memory[..start] == old(memory[..start])
  {
    forall j | 0 <= j < |field| {
      memory[start + offset + j] := field[j];
    }
  }

  /** One field refused refuses the piece, whatever the holes after it. */
  lemma {:induction false} RefusedStays(d: StencilData, length: nat, n: nat, at: nat, value: Kind -> int)
    requires DataOk(d) && (length == d.tail || length == |d.code|) && n <= |d.holes|
    requires Patched(d, length, n, at, value).None?
    ensures Patched(d, length, |d.holes|, at, value).None?
    decreases |d.holes| - n
  {
    if n < |d.holes| {
      RefusedStays(d, length, n + 1, at, value);
    }
  }

  /** Where no stencil is longer than this, so many instructions always fit: with
      nothing known of the stencils but that their sizes are of 16 bits, the
      first 65535. */
  lemma ShortChunksFit(table: Table, chunk: Chunk, longest: nat)
    requires ChunkOk(chunk) && TableOk(table)
    requires forall st: Stencil :: |table(st).code| <= longest
    ensures (|chunk.code| + 1) * longest < NO_ENTRY ==> Total(table, chunk) < NO_ENTRY
    ensures |chunk.code| <= 0xFFFF ==> Total(table, chunk) < NO_ENTRY
  {
    StartWithin(table, chunk, longest, |chunk.code| + 1);
    StartWithin(table, chunk, 0xFFFF, |chunk.code| + 1);
  }

  lemma {:induction false} StartWithin(table: Table, chunk: Chunk, longest: nat, pc: nat)
    requires ChunkOk(chunk) && TableOk(table) && pc <= |chunk.code| + 1
    requires forall st: Stencil :: |table(st).code| <= longest
    ensures Start(table, chunk, pc) <= pc * longest
    decreases pc
  {
    hide Laid, Settled, Cut;
    if pc > 0 {
      StartWithin(table, chunk, longest, pc - 1);
      var d := table(Settled(chunk, pc - 1).stencil);
      assert DataOk(d) && Length(table, chunk, pc - 1) <= |d.code|;
      assert pc * longest == (pc - 1) * longest + longest;
    }
  }

  /** The whole of lay_out, for memory the system hands out at `base`: None
      where some field cannot hold its value, and the chunk stays interpreted. */
  method LayOut(table: Table, helpers: Helpers, chunk: Chunk, base: nat) returns (code: Option<JitCode>)
    requires ChunkOk(chunk) && TableOk(table)
    requires Total(table, chunk) < NO_ENTRY
    ensures code.Some? ==> LaidOut(table, helpers, chunk, code.value) && code.value.base == base
    ensures code.None? ==> exists pc | 0 <= pc <= |chunk.code| ::
              Laid(chunk, pc) && Piece(table, helpers, chunk, base, pc).None?
  {
    var landed := MarkLanded(chunk);
    var choices := ChooseAll(chunk);
    var entries := MarkEntries(chunk, choices, landed);
    var enter := landed;
    MarkEnter(chunk, choices, entries, enter);
    var after := FindAfter(chunk, entries);
    var size := Place(table, chunk, choices, after, entries);
    var memory := new Byte[size](_ => 0);
    var ok := CopyAll(table, helpers, chunk, base, choices[..], after[..], entries[..], memory);
    if !ok {
      return None;
    }
    var resumes := FindResumes(table, chunk, choices[..], entries[..], enter[..]);
    code := Some(JitCode(base, memory[..], entries[..], enter[..], resumes));
  }

  method CopyAll(table: Table, helpers: Helpers, chunk: Chunk, base: nat, choices: seq<Choice>,
                 after: seq<nat>, entries: seq<nat>, memory: array<Byte>)
    returns (ok: bool)
    requires TableOk(table) && Chosen(chunk, choices)
    requires |after| == |chunk.code| + 1
    requires forall pc | 0 <= pc <= |chunk.code| :: after[pc] == After(chunk, pc)
    requires entries == Entries(table, chunk) && Total(table, chunk) < NO_ENTRY
    requires memory.Length == Total(table, chunk)
    modifies memory
    ensures ok ==> forall pc | 0 <= pc <= |chunk.code| ::
              Laid(chunk, pc) ==> PieceIn(table, helpers, chunk, base, memory[..], pc)
    ensures !ok ==> exists pc | 0 <= pc <= |chunk.code| ::
              Laid(chunk, pc) && Piece(table, helpers, chunk, base, pc).None?
  {
    hide Start, Length, Laid, Settled, Patched, Entries, PieceIn, Piece;
    var count := |chunk.code|;
    for pc := 0 to count + 1
      invariant forall q | 0 <= q < pc ::
                  Laid(chunk, q) ==> PieceIn(table, helpers, chunk, base, memory[..], q)
    {
      EntryBelow(table, chunk, pc);
      if entries[pc] == NO_ENTRY {
        continue;
      }
      ghost var before := memory[..];
      ok := CopyInstruction(table, helpers, chunk, base, choices, after, entries, memory, pc);
      if !ok {
        return;
      }
      PiecesStay(table, helpers, chunk, base, before, memory[..], pc);
    }
    ok := true;
  }

  /** The piece of one instruction that has code. */
  method CopyInstruction(table: Table, helpers: Helpers, chunk: Chunk, base: nat, choices: seq<Choice>,
                         after: seq<nat>, entries: seq<nat>, memory: array<Byte>, pc: nat)
    returns (ok: bool)
    requires TableOk(table) && Chosen(chunk, choices)
    requires pc <= |chunk.code| && Laid(chunk, pc)
    requires |after| == |chunk.code| + 1 && after[pc] == After(chunk, pc)
    requires entries == Entries(table, chunk)
    requires memory.Length == Total(table, chunk)
    modifies memory
    ensures ok <==> Piece(table, helpers, chunk, base, pc).Some?
    ensures ok ==> PieceIn(table, helpers, chunk, base, memory[..], pc)
    ensures Start(table, chunk, pc) <= memory.Length
    ensures memory[..Start(table, chunk, pc)] == old(memory[..])[..Start(table, chunk, pc)]
  {
    hide Start, Laid, Settled, Patched;
    PiecesInOrder(table, chunk, pc, |chunk.code| + 1);
    LengthIs(table, chunk, pc);
    SettledBounds(chunk, pc);
    var choice := choices[pc];
    var d := table(choice.stencil);
    assert DataOk(d);
    var length := if pc < |chunk.code| && choice.next == after[pc] then d.tail else |d.code|;
    ok := CopyPiece(memory, entries[pc], d, length, base,
                    Carried(choice, InstructionAt(chunk, pc), pc, base, entries, helpers));
  }

  /** An instruction has code exactly where its entry is not the absent mark. */
  lemma EntryBelow(table: Table, chunk: Chunk, pc: nat)
    requires ChunkOk(chunk) && TableOk(table) && pc <= |chunk.code| && Total(table, chunk) < NO_ENTRY
    ensures Laid(chunk, pc) <==> Entry(table, chunk, pc) != NO_ENTRY
    ensures Laid(chunk, pc) ==> Entry(table, chunk, pc) == Start(table, chunk, pc)
  {
    if Laid(chunk, pc) {
      PiecesInOrder(table, chunk, pc, |chunk.code| + 1);
    }
  }

  /** Writing a piece, and anything after it, leaves the pieces before it. */
  lemma PiecesStay(table: Table, helpers: Helpers, chunk: Chunk, base: nat, before: seq<Byte>, now: seq<Byte>, pc: nat)
    requires ChunkOk(chunk) && TableOk(table) && pc <= |chunk.code|
    requires Start(table, chunk, pc) <= |before| == |now|
    requires before[..Start(table, chunk, pc)] == now[..Start(table, chunk, pc)]
    requires forall q | 0 <= q < pc :: Laid(chunk, q) ==> PieceIn(table, helpers, chunk, base, before, q)
    ensures forall q | 0 <= q < pc :: Laid(chunk, q) ==> PieceIn(table, helpers, chunk, base, now, q)
  {
    hide Piece, Start, Length, Laid;
    var end := Start(table, chunk, pc);
    forall q | 0 <= q < pc && Laid(chunk, q) ensures PieceIn(table, helpers, chunk, base, now, q) {
      PiecesInOrder(table, chunk, q, pc);
      assert PieceIn(table, helpers, chunk, base, before, q);
      var start, length := Start(table, chunk, q), Length(table, chunk, q);
      SlicesAgree(before, now, end, start, start + length);
    }
  }

  lemma SlicesAgree(before: seq<Byte>, now: seq<Byte>, end: nat, from: nat, upTo: nat)
    requires from <= upTo <= end <= |before| && end <= |now| && before[..end] == now[..end]
    ensures before[from..upTo] == now[from..upTo]
  {
    assert before[..end][from..upTo] == before[from..upTo];
    assert now[..end][from..upTo] == now[from..upTo];
  }

  /** The address each call's return will arrive at. */
  method FindResumes(table: Table, chunk: Chunk, choices: seq<Choice>, entries: seq<nat>, enter: seq<bool>)
    returns (resumes: seq<Option<nat>>)
    requires Chosen(chunk, choices) && entries == Entries(table, chunk)
    requires |enter| == |chunk.code| + 1
    requires forall pc | 0 <= pc <= |chunk.code| :: enter[pc] <==> Enterable(chunk, pc)
    ensures |resumes| == |chunk.code| + 1
    ensures forall pc | 0 <= pc <= |chunk.code| :: resumes[pc] == Resume(table, chunk, pc)
  {
    hide Start, Laid, Settled;
    var count := |chunk.code|;
    resumes := [];
    for pc := 0 to count
      invariant |resumes| == pc
      invariant forall q | 0 <= q < pc :: resumes[q] == Resume(table, chunk, q)
    {
      SettledBounds(chunk, pc);
      var next := choices[pc].next;
      resumes := resumes + [if choices[pc].stencil.Call? && enter[next] then Some(entries[next]) else None];
    }
    resumes := resumes + [None];
  }
}
