/** Byte offsets, and the line and UTF-16 column an editor counts in, over a
    text held as UTF-8 (lsp/position.c; lsp/ast_json.c, utf16_map_build). */
module Utf16 {
  import opened Wrappers

  type Byte = b: int | 0 <= b < 256

  const NEWLINE: Byte := 10

  datatype Position = Position(line: nat, character: nat)

  // ------------------------------------------------------------------
  // The walks over bytes, whatever the bytes are

  function Follow(lead: Byte): nat {
    if lead >= 0xF0 then 3 else if lead >= 0xE0 then 2 else if lead >= 0xC0 then 1 else 0
  }

  function LeadBits(lead: Byte): nat {
    if lead >= 0xF0 then lead % 8 else if lead >= 0xE0 then lead % 16 else if lead >= 0xC0 then lead % 32 else lead
  }

  predicate Continues(b: Byte) {
    0x80 <= b < 0xC0
  }

  predicate Continued(text: seq<Byte>, i: nat, n: nat) {
    i + n < |text| && forall j | i < j <= i + n :: Continues(text[j])
  }

  function Gather(text: seq<Byte>, i: nat, n: nat): nat
    requires i + n < |text|
  {
    if n == 0 then LeadBits(text[i]) else Gather(text, i, n - 1) * 64 + text[i + n] % 64
  }

  /** How many bytes are read at i as one code point: a malformed one is one. */
  function Read(text: seq<Byte>, i: nat): (n: nat)
    requires i < |text|
    ensures 1 <= n && i + n <= |text|
  {
    if Continued(text, i, Follow(text[i])) then Follow(text[i]) + 1 else 1
  }

  function CodeAt(text: seq<Byte>, i: nat): nat
    requires i < |text|
  {
    if Continued(text, i, Follow(text[i])) then Gather(text, i, Follow(text[i])) else text[i]
  }

  function Width(code: nat): nat {
    if code >= 0x10000 then 2 else 1
  }

  /** decode_and_advance. */
  method DecodeAndAdvance(text: seq<Byte>, at: nat) returns (code: nat, next: nat)
    requires at < |text|
    ensures code == CodeAt(text, at) && next == at + Read(text, at)
  {
    var lead := text[at];
    var follow := Follow(lead);
    code := LeadBits(lead);
    if at + follow >= |text| {
      return lead, at + 1;
    }
    for k := 1 to follow + 1
      invariant code == Gather(text, at, k - 1)
      invariant forall j | at < j < at + k :: Continues(text[j])
    {
      var byte := text[at + k];
      if !Continues(byte) {
        return lead, at + 1;
      }
      code := code * 64 + byte % 64;
    }
    next := at + follow + 1;
  }

  function LineStart(text: seq<Byte>, offset: nat): (start: nat)
    requires offset <= |text|
    ensures start <= offset
  {
    if offset == 0 || text[offset - 1] == NEWLINE then offset else LineStart(text, offset - 1)
  }

  function Newlines(text: seq<Byte>): nat {
    if text == [] then 0
    else Newlines(text[..|text| - 1]) + if text[|text| - 1] == NEWLINE then 1 else 0
  }

  function UnitsBetween(text: seq<Byte>, at: nat, end: nat): nat
    requires end <= |text|
    decreases |text| - at
  {
    if at >= end then 0 else Width(CodeAt(text, at)) + UnitsBetween(text, at + Read(text, at), end)
  }

  function PositionAt(text: seq<Byte>, offset: nat): Position {
    var end := if offset <= |text| then offset else |text|;
    var start := LineStart(text, end);
    Position(Newlines(text[..start]), UnitsBetween(text, start, end))
  }

  /** lsp_position_at. */
  method FindPosition(text: seq<Byte>, byteOffset: nat) returns (pos: Position)
    ensures pos == PositionAt(text, byteOffset)
  {
    var offset := if byteOffset <= |text| then byteOffset else |text|;
    var start: nat := offset;
    while start > 0 && text[start - 1] != NEWLINE
      invariant start <= offset && LineStart(text, start) == LineStart(text, offset)
    {
      start := start - 1;
    }
    var line := 0;
    for i := 0 to start
      invariant line == Newlines(text[..i])
    {
      assert text[..i + 1][..i] == text[..i];
      if text[i] == NEWLINE {
        line := line + 1;
      }
    }
    var character, at := 0, start;
    while at < offset
      invariant start <= at <= |text|
      invariant character + UnitsBetween(text, at, offset) == UnitsBetween(text, start, offset)
      decreases |text| - at
    {
      var code, next := DecodeAndAdvance(text, at);
      character := character + if code >= 0x10000 then 2 else 1;
      at := next;
    }
    pos := Position(line, character);
  }

  function SkipLines(text: seq<Byte>, i: nat, left: int): nat
    decreases if i < |text| then |text| - i else 0
  {
    if left <= 0 || i >= |text| then i
    else SkipLines(text, i + 1, if text[i] == NEWLINE then left - 1 else left)
  }

  function UnitsOf(lead: Byte): nat {
    if lead >= 0xF0 then 2 else 1
  }

  /** The first place at or after i that the line ends at, or `left` units are
      past: a sequence is as long as its lead says, and one cut short stops it. */
  function AdvanceUnits(text: seq<Byte>, i: nat, left: int): nat
    decreases if i < |text| then |text| - i else 0
  {
    if i >= |text| || text[i] == NEWLINE || left <= 0 then i
    else if i + Follow(text[i]) + 1 > |text| then i
    else AdvanceUnits(text, i + Follow(text[i]) + 1, left - UnitsOf(text[i]))
  }

  function OffsetAt(text: seq<Byte>, line: int, character: int): nat {
    AdvanceUnits(text, SkipLines(text, 0, line), character)
  }

  /** lsp_offset_at. */
  method FindOffset(text: seq<Byte>, line: int, character: int) returns (offset: nat)
    ensures offset == OffsetAt(text, line, character)
  {
    var i, seen := 0, 0;
    while seen < line && i < |text|
      invariant i <= |text| && SkipLines(text, i, line - seen) == SkipLines(text, 0, line)
      decreases |text| - i
    {
      if text[i] == NEWLINE {
        seen := seen + 1;
      }
      i := i + 1;
    }
    ghost var start := i;
    var units := 0;
    while i < |text| && text[i] != NEWLINE && units < character
      invariant i <= |text|
      invariant AdvanceUnits(text, i, character - units) == AdvanceUnits(text, start, character)
      decreases |text| - i
    {
      var lead := text[i];
      var sequence, width := 1, 1;
      if lead >= 0xF0 {
        sequence, width := 4, 2;
      } else if lead >= 0xE0 {
        sequence := 3;
      } else if lead >= 0xC0 {
        sequence := 2;
      }
      if i + sequence > |text| {
        break;
      }
      i := i + sequence;
      units := units + width;
    }
    offset := i;
  }

  /** How many bytes the table takes as one character: a cut one is what is left. */
  function Taken(text: seq<Byte>, i: nat): (n: nat)
    requires i < |text|
    ensures 1 <= n && i + n <= |text|
  {
    if i + Follow(text[i]) + 1 > |text| then |text| - i else Follow(text[i]) + 1
  }

  /** The table from i on, `units` having been counted before it: every byte of a
      character maps to where the character is, and the end to the sum. */
  function Table(text: seq<Byte>, i: nat, units: nat): (table: seq<nat>)
    requires i <= |text|
    ensures |table| == |text| - i + 1
    decreases |text| - i
  {
    if i == |text| then [units]
    else seq(Taken(text, i), _ => units) + Table(text, i + Taken(text, i), units + UnitsOf(text[i]))
  }

  /** utf16_map_build. */
  method BuildMap(text: seq<Byte>) returns (table: array<nat>)
    ensures fresh(table) && table[..] == Table(text, 0, 0)
  {
    hide Table;
    table := new nat[|text| + 1];
    assert table[..0] + Table(text, 0, 0) == Table(text, 0, 0);
    var units, i: nat := 0, 0;
    while i < |text|
      invariant i <= |text| && table.Length == |text| + 1
      invariant table[..i] + Table(text, i, units) == Table(text, 0, 0)
      decreases |text| - i
    {
      var lead := text[i];
      var sequence, width := 1, 1;
      if lead >= 0xF0 {
        sequence, width := 4, 2;
      } else if lead >= 0xE0 {
        sequence := 3;
      } else if lead >= 0xC0 {
        sequence := 2;
      }
      if i + sequence > |text| {
        sequence := |text| - i;
      }
      TableStep(text, i, units, table[..i]);
      assert sequence == Taken(text, i) && width == UnitsOf(text[i]);
      Fill(table, i, sequence, units);
      units := units + width;
      i := i + sequence;
    }
    TableStops(text, units);
    table[|text|] := units;
    assert table[..] == table[..|text|] + [units];
  }

  lemma TableStops(text: seq<Byte>, units: nat)
    ensures Table(text, |text|, units) == [units]
  {
  }

  method Fill(table: array<nat>, i: nat, count: nat, units: nat)
    requires i + count <= table.Length
    modifies table
    ensures table[..i + count] == old(table[..i]) + seq(count, _ => units)
  {
    for k := 0 to count
      invariant table[..i + k] == old(table[..i]) + seq(k, _ => units)
    {
      table[i + k] := units;
    }
  }

  lemma TableStep(text: seq<Byte>, i: nat, units: nat, done: seq<nat>)
    requires i < |text|
    ensures done + Table(text, i, units) ==
            (done + seq(Taken(text, i), _ => units))
            + Table(text, i + Taken(text, i), units + UnitsOf(text[i]))
  {
  }
}
