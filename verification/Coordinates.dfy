/** What the walks of Utf16 answer on well-formed UTF-8: the code points a text is
    made of, as section 3 of RFC 3629 encodes them, and their UTF-16 lengths, as
    section 2.1 of RFC 2781 counts them. */
module Coordinates {
  import opened Wrappers
  import opened Utf16

  type CodePoint = c: nat | c < 0xD800 || 0xE000 <= c < 0x11_0000

  type Characters = seq<CodePoint>

  function EncodeOne(c: CodePoint): (bytes: seq<Byte>)
    ensures 1 <= |bytes| <= 4
  {
    if c < 0x80 then [c]
    else if c < 0x800 then [0xC0 + c / 64, 0x80 + c % 64]
    else if c < 0x1_0000 then [0xE0 + c / 4096, 0x80 + c / 64 % 64, 0x80 + c % 64]
    else
      var top := c / 262144;
      assert top <= 4;
      [0xF0 + top, 0x80 + c / 4096 % 64, 0x80 + c / 64 % 64, 0x80 + c % 64]
  }

  function Encode(cs: Characters): (bytes: seq<Byte>) {
    if cs == [] then [] else EncodeOne(cs[0]) + Encode(cs[1..])
  }

  /** Where character k begins. */
  function Off(cs: Characters, k: nat): nat
    requires k <= |cs|
  {
    |Encode(cs[..k])|
  }

  // ------------------------------------------------------------------
  // Characters in the bytes

  lemma {:induction false} EncodeAppend(a: Characters, b: Characters)
    ensures Encode(a + b) == Encode(a) + Encode(b)
    decreases |a|
  {
    if a == [] {
      assert a + b == b;
    } else {
      assert (a + b)[1..] == a[1..] + b;
      EncodeAppend(a[1..], b);
    }
  }

  /** Character k's bytes lie from Off(k) to Off(k + 1). */
  lemma CharacterAt(cs: Characters, k: nat)
    requires k < |cs|
    ensures Off(cs, k + 1) == Off(cs, k) + |EncodeOne(cs[k])| <= |Encode(cs)|
    ensures Encode(cs)[Off(cs, k)..Off(cs, k + 1)] == EncodeOne(cs[k])
  {
    var before, one, after := cs[..k], [cs[k]], cs[k + 1..];
    assert one[1..] == [];
    assert Encode(one) == EncodeOne(cs[k]);
    EncodeAppend(before, one);
    assert cs[..k + 1] == before + one;
    EncodeAppend(before + one, after);
    assert cs == before + one + after;
  }

  lemma OffEnd(cs: Characters)
    ensures Off(cs, |cs|) == |Encode(cs)| && Off(cs, 0) == 0
  {
    assert cs[..|cs|] == cs;
  }

  lemma {:induction false} OffGrows(cs: Characters, j: nat, k: nat)
    requires j <= k <= |cs|
    ensures Off(cs, j) + (k - j) <= Off(cs, k) <= |Encode(cs)|
    decreases k - j
  {
    OffEnd(cs);
    if j < k {
      CharacterAt(cs, k - 1);
      OffGrows(cs, j, k - 1);
    } else if k < |cs| {
      CharacterAt(cs, k);
    }
  }

  /** A byte of a character is that byte of the text. */
  lemma ByteOf(cs: Characters, k: nat, n: nat)
    requires k < |cs| && n < |EncodeOne(cs[k])|
    ensures Off(cs, k) + n < |Encode(cs)| && Encode(cs)[Off(cs, k) + n] == EncodeOne(cs[k])[n]
  {
    CharacterAt(cs, k);
    assert Encode(cs)[Off(cs, k)..Off(cs, k + 1)][n] == Encode(cs)[Off(cs, k) + n];
  }

  /** Only a line feed is written with its byte. */
  lemma NewlineBytes(c: CodePoint, n: nat)
    requires n < |EncodeOne(c)|
    ensures EncodeOne(c)[n] == NEWLINE <==> c == NEWLINE
  {
  }

  lemma LeadOf(c: CodePoint)
    ensures var lead := EncodeOne(c)[0];
            && Follow(lead) + 1 == |EncodeOne(c)|
            && UnitsOf(lead) == Width(c)
            && forall n | 1 <= n < |EncodeOne(c)| :: Continues(EncodeOne(c)[n])
  {
  }

  /** Read where it begins, a character is the code point it encodes. */
  lemma Decodes(cs: Characters, k: nat)
    requires k < |cs|
    ensures var text := Encode(cs);
            var i := Off(cs, k);
            i < |text| && CodeAt(text, i) == cs[k] && i + Read(text, i) == Off(cs, k + 1)
  {
    hide Encode, EncodeOne, Off;
    var text, i, c := Encode(cs), Off(cs, k), cs[k];
    var bytes := EncodeOne(c);
    CharacterAt(cs, k);
    LeadOf(c);
    forall n | 0 <= n < |bytes| ensures i + n < |text| && text[i + n] == bytes[n] {
      ByteOf(cs, k, n);
    }
    ByteOf(cs, k, 0);
    forall j | i < j <= i + Follow(text[i]) ensures Continues(text[j]) {
      ByteOf(cs, k, j - i);
    }
    Gathers(text, i, c);
  }

  lemma Gathers(text: seq<Byte>, i: nat, c: CodePoint)
    requires i + |EncodeOne(c)| <= |text|
    requires forall n | 0 <= n < |EncodeOne(c)| :: text[i + n] == EncodeOne(c)[n]
    ensures Gather(text, i, |EncodeOne(c)| - 1) == c
  {
    var b := EncodeOne(c);
    assert text[i + 0] == b[0];
    if |b| == 2 {
      assert text[i + 1] == b[1];
      GatherTwo(text, i, c);
    } else if |b| == 3 {
      assert text[i + 1] == b[1] && text[i + 2] == b[2];
      GatherThree(text, i, c);
    } else if |b| == 4 {
      assert text[i + 1] == b[1] && text[i + 2] == b[2] && text[i + 3] == b[3];
      GatherFour(text, i, c);
    }
  }

  lemma GatherTwo(text: seq<Byte>, i: nat, c: CodePoint)
    requires 0x80 <= c < 0x800 && i + 2 <= |text|
    requires text[i] == 0xC0 + c / 64 && text[i + 1] == 0x80 + c % 64
    ensures Gather(text, i, 1) == c
  {
    assert Gather(text, i, 0) == c / 64;
  }

  lemma GatherThree(text: seq<Byte>, i: nat, c: CodePoint)
    requires 0x800 <= c < 0x1_0000 && i + 3 <= |text|
    requires text[i] == 0xE0 + c / 4096 && text[i + 1] == 0x80 + c / 64 % 64 && text[i + 2] == 0x80 + c % 64
    ensures Gather(text, i, 2) == c
  {
    assert Gather(text, i, 0) == c / 4096;
    assert Gather(text, i, 1) == c / 4096 * 64 + c / 64 % 64;
  }

  lemma GatherFour(text: seq<Byte>, i: nat, c: CodePoint)
    requires 0x1_0000 <= c && i + 4 <= |text|
    requires text[i] == 0xF0 + c / 262144 && text[i + 1] == 0x80 + c / 4096 % 64
    requires text[i + 2] == 0x80 + c / 64 % 64 && text[i + 3] == 0x80 + c % 64
    ensures Gather(text, i, 3) == c
  {
    var top := c / 262144;
    assert top <= 4 && (0xF0 + top) % 8 == top;
    assert Gather(text, i, 0) == top;
    assert Gather(text, i, 1) == c / 262144 * 64 + c / 4096 % 64;
    assert c / 262144 == c / 4096 / 64;
    assert Gather(text, i, 1) == c / 4096;
    assert c / 4096 == c / 64 / 64;
    assert Gather(text, i, 2) == c / 64;
  }

  // ------------------------------------------------------------------
  // Lines and units, counted in characters

  function StartOf(cs: Characters, k: nat): (start: nat)
    requires k <= |cs|
    ensures start <= k
  {
    if k == 0 || cs[k - 1] == NEWLINE then k else StartOf(cs, k - 1)
  }

  function LineOf(cs: Characters, k: nat): nat
    requires k <= |cs|
  {
    if k == 0 then 0 else LineOf(cs, k - 1) + if cs[k - 1] == NEWLINE then 1 else 0
  }

  /** UTF-16 units: one a character, and two beyond the BMP. */
  function Units(cs: Characters, j: nat, k: nat): nat
    requires j <= k <= |cs|
    decreases k - j
  {
    if j == k then 0 else Width(cs[j]) + Units(cs, j + 1, k)
  }

  /** Lines are counted by their line feeds, and a line starts past the last of them. */
  lemma {:induction false} LinesAre(cs: Characters, k: nat)
    requires k <= |cs|
    ensures LineOf(cs, k) == multiset(cs[..k])[10]
    ensures StartOf(cs, k) == 0 || cs[StartOf(cs, k) - 1] == 10
    ensures forall j | StartOf(cs, k) <= j < k :: cs[j] != 10
    decreases k
  {
    if k > 0 {
      LinesAre(cs, k - 1);
      assert cs[..k] == cs[..k - 1] + [cs[k - 1]];
    }
  }

  /** A character in UTF-16: one unit, or a pair of surrogates. */
  function SurrogatesOf(c: CodePoint): seq<nat> {
    if c < 0x1_0000 then [c] else [0xD800 + (c - 0x1_0000) / 1024, 0xDC00 + (c - 0x1_0000) % 1024]
  }

  function Utf16Text(cs: Characters): seq<nat> {
    if cs == [] then [] else SurrogatesOf(cs[0]) + Utf16Text(cs[1..])
  }

  /** What is counted is the length in UTF-16. */
  lemma {:induction false} UnitsAre(cs: Characters, j: nat, k: nat)
    requires j <= k <= |cs|
    ensures Units(cs, j, k) == |Utf16Text(cs[j..k])|
    decreases k - j
  {
    if j < k {
      UnitsAre(cs, j + 1, k);
      assert cs[j..k][1..] == cs[j + 1..k];
    }
  }

  /** A byte whose sequence is cut or broken off is one unit, and the next byte is
      read anew. */
  lemma BrokenOff(text: seq<Byte>, i: nat, end: nat)
    requires i < end <= |text|
    requires var n := if text[i] < 0xC0 then 0 else if text[i] < 0xE0 then 1 else if text[i] < 0xF0 then 2 else 3;
             i + n >= |text| || exists j :: i < j <= i + n && (text[j] < 0x80 || text[j] >= 0xC0)
    ensures UnitsBetween(text, i, end) == 1 + UnitsBetween(text, i + 1, end)
  {
  }

  lemma {:induction false} LineStartIs(cs: Characters, k: nat)
    requires k <= |cs|
    ensures Off(cs, k) <= |Encode(cs)| && LineStart(Encode(cs), Off(cs, k)) == Off(cs, StartOf(cs, k))
    decreases k
  {
    hide Off, Encode, EncodeOne;
    OffGrows(cs, 0, k);
    OffEnd(cs);
    if k > 0 {
      LineStartIs(cs, k - 1);
      CharacterAt(cs, k - 1);
      BackOver(cs, k - 1, |EncodeOne(cs[k - 1])|);
      if cs[k - 1] == NEWLINE {
        NewlineIsOne();
        ByteOf(cs, k - 1, 0);
      }
    }
  }

  lemma NewlineIsOne()
    ensures EncodeOne(NEWLINE) == [NEWLINE]
  {
  }

  lemma {:induction false} BackOver(cs: Characters, k: nat, n: nat)
    requires k < |cs| && n <= |EncodeOne(cs[k])|
    ensures Off(cs, k) + n <= |Encode(cs)|
    ensures cs[k] != NEWLINE ==> LineStart(Encode(cs), Off(cs, k) + n) == LineStart(Encode(cs), Off(cs, k))
    decreases n
  {
    hide Encode, Off, EncodeOne;
    CharacterAt(cs, k);
    if n > 0 {
      BackOver(cs, k, n - 1);
      ByteOf(cs, k, n - 1);
      NewlineBytes(cs[k], n - 1);
    }
  }

  lemma {:induction false} NewlinesIs(cs: Characters, k: nat)
    requires k <= |cs|
    ensures Off(cs, k) <= |Encode(cs)| && Newlines(Encode(cs)[..Off(cs, k)]) == LineOf(cs, k)
    decreases k
  {
    hide Off, Encode, EncodeOne;
    OffGrows(cs, 0, k);
    OffEnd(cs);
    NewlineIsOne();
    if k > 0 {
      NewlinesIs(cs, k - 1);
      CharacterAt(cs, k - 1);
      NewlinesOver(cs, k - 1, |EncodeOne(cs[k - 1])|);
    }
  }

  lemma {:induction false} NewlinesOver(cs: Characters, k: nat, n: nat)
    requires k < |cs| && n <= |EncodeOne(cs[k])|
    ensures Off(cs, k) + n <= |Encode(cs)|
    ensures Newlines(Encode(cs)[..Off(cs, k) + n]) ==
            Newlines(Encode(cs)[..Off(cs, k)]) + if cs[k] == NEWLINE then n else 0
    decreases n
  {
    hide Encode, Off, EncodeOne;
    CharacterAt(cs, k);
    if n > 0 {
      NewlinesOver(cs, k, n - 1);
      ByteOf(cs, k, n - 1);
      NewlineBytes(cs[k], n - 1);
      var upTo := Encode(cs)[..Off(cs, k) + n];
      assert upTo[..|upTo| - 1] == Encode(cs)[..Off(cs, k) + n - 1];
    }
  }

  lemma {:induction false} UnitsIs(cs: Characters, j: nat, k: nat)
    requires j <= k <= |cs|
    ensures Off(cs, k) <= |Encode(cs)| && UnitsBetween(Encode(cs), Off(cs, j), Off(cs, k)) == Units(cs, j, k)
    decreases k - j
  {
    OffGrows(cs, j, k);
    if j < k {
      Decodes(cs, j);
      UnitsIs(cs, j + 1, k);
    }
  }

  /** At a character's boundary, the position is the lines before it and the units
      between it and its line's start. */
  lemma PositionIs(cs: Characters, k: nat)
    requires k <= |cs|
    ensures PositionAt(Encode(cs), Off(cs, k)) == Position(LineOf(cs, k), Units(cs, StartOf(cs, k), k))
  {
    hide Off, Encode, LineStart, Newlines, UnitsBetween, StartOf, LineOf, Units;
    LineStartIs(cs, k);
    NewlinesIs(cs, StartOf(cs, k));
    UnitsIs(cs, StartOf(cs, k), k);
    SameLine(cs, k);
    assert PositionAt(Encode(cs), Off(cs, k)).line == LineOf(cs, k);
    assert PositionAt(Encode(cs), Off(cs, k)).character == Units(cs, StartOf(cs, k), k);
  }

  lemma {:induction false} SameLine(cs: Characters, k: nat)
    requires k <= |cs|
    ensures LineOf(cs, StartOf(cs, k)) == LineOf(cs, k)
    decreases k
  {
    if k > 0 && cs[k - 1] != NEWLINE {
      SameLine(cs, k - 1);
    }
  }

  // ------------------------------------------------------------------
  // The other way

  /** The character `left` lines after i, or the end. */
  function SkipTo(cs: Characters, i: nat, left: int): (k: nat)
    requires i <= |cs|
    ensures i <= k <= |cs|
    decreases |cs| - i
  {
    if left <= 0 || i == |cs| then i
    else SkipTo(cs, i + 1, if cs[i] == NEWLINE then left - 1 else left)
  }

  /** The first character at or after i the line ends at, or `left` units are past. */
  function AdvanceTo(cs: Characters, i: nat, left: int): (k: nat)
    requires i <= |cs|
    ensures i <= k <= |cs|
    decreases |cs| - i
  {
    if i == |cs| || cs[i] == NEWLINE || left <= 0 then i else AdvanceTo(cs, i + 1, left - Width(cs[i]))
  }

  lemma {:induction false} SkipOver(cs: Characters, k: nat, n: nat, left: int)
    requires k < |cs| && n <= |EncodeOne(cs[k])| && left > 0 && cs[k] != NEWLINE
    ensures SkipLines(Encode(cs), Off(cs, k), left) == SkipLines(Encode(cs), Off(cs, k) + n, left)
    decreases n
  {
    hide Encode, Off, EncodeOne;
    if n > 0 {
      SkipOver(cs, k, n - 1, left);
      ByteOf(cs, k, n - 1);
      NewlineBytes(cs[k], n - 1);
    }
  }

  lemma {:induction false} SkipIs(cs: Characters, i: nat, left: int)
    requires i <= |cs|
    ensures SkipLines(Encode(cs), Off(cs, i), left) == Off(cs, SkipTo(cs, i, left))
    decreases |cs| - i
  {
    hide Encode, Off, EncodeOne;
    OffEnd(cs);
    if left > 0 && i < |cs| {
      CharacterAt(cs, i);
      if cs[i] == NEWLINE {
        NewlineIsOne();
        ByteOf(cs, i, 0);
        SkipIs(cs, i + 1, left - 1);
      } else {
        SkipOver(cs, i, |EncodeOne(cs[i])|, left);
        SkipIs(cs, i + 1, left);
      }
    }
  }

  lemma {:induction false} AdvanceIs(cs: Characters, i: nat, left: int)
    requires i <= |cs|
    ensures AdvanceUnits(Encode(cs), Off(cs, i), left) == Off(cs, AdvanceTo(cs, i, left))
    decreases |cs| - i
  {
    hide Encode, Off, EncodeOne;
    OffEnd(cs);
    if i < |cs| {
      CharacterAt(cs, i);
      ByteOf(cs, i, 0);
      NewlineBytes(cs[i], 0);
      LeadOf(cs[i]);
      if cs[i] != NEWLINE && left > 0 {
        AdvanceIs(cs, i + 1, left - Width(cs[i]));
      }
    }
  }

  /** Whatever line and character are asked for, the answer is where a character
      begins: the first on that line with that many units before it, or the
      line's end. */
  lemma OffsetIs(cs: Characters, line: int, character: int)
    ensures OffsetAt(Encode(cs), line, character) == Off(cs, AdvanceTo(cs, SkipTo(cs, 0, line), character))
  {
    OffEnd(cs);
    SkipIs(cs, 0, line);
    AdvanceIs(cs, SkipTo(cs, 0, line), character);
  }

  /** Past the end is the end; a line before the first is the first, a character
      before a line's start its start, and a line after the last the end. */
  lemma OutsideMeans(cs: Characters, past: nat, line: int, character: int)
    ensures PositionAt(Encode(cs), |Encode(cs)| + past) == PositionAt(Encode(cs), |Encode(cs)|)
    ensures line <= 0 ==> OffsetAt(Encode(cs), line, character) == OffsetAt(Encode(cs), 0, character)
    ensures character <= 0 ==> OffsetAt(Encode(cs), line, character) == OffsetAt(Encode(cs), line, 0)
    ensures OffsetAt(Encode(cs), 0, 0) == 0
    ensures line > LineOf(cs, |cs|) ==> OffsetAt(Encode(cs), line, character) == |Encode(cs)|
  {
    hide Encode, Off;
    OffEnd(cs);
    OffsetIs(cs, line, character);
    if line > LineOf(cs, |cs|) {
      SkipsPast(cs, 0, line);
    }
  }

  lemma {:induction false} SkipsPast(cs: Characters, i: nat, left: int)
    requires i <= |cs| && left > LineOf(cs, |cs|) - LineOf(cs, i)
    ensures SkipTo(cs, i, left) == |cs|
    decreases |cs| - i
  {
    LinesGrow(cs, i, |cs|);
    if i < |cs| {
      SkipsPast(cs, i + 1, if cs[i] == NEWLINE then left - 1 else left);
    }
  }

  /** Where AdvanceTo stops: no line feed and too few units before, and one or the
      other there. */
  lemma {:induction false} AdvanceStops(cs: Characters, i: nat, left: int)
    requires i <= |cs|
    ensures var k := AdvanceTo(cs, i, left);
            && (forall j | i <= j < k :: cs[j] != NEWLINE && Units(cs, i, j) < left)
            && (k == |cs| || cs[k] == NEWLINE || Units(cs, i, k) >= left)
    decreases |cs| - i
  {
    if i < |cs| && cs[i] != NEWLINE && left > 0 {
      AdvanceStops(cs, i + 1, left - Width(cs[i]));
      var k := AdvanceTo(cs, i, left);
      forall j | i <= j < k ensures cs[j] != NEWLINE && Units(cs, i, j) < left {
        if j > i {
          assert Units(cs, i, j) == Width(cs[i]) + Units(cs, i + 1, j);
        }
      }
    }
  }

  lemma {:induction false} UnitsAdd(cs: Characters, i: nat, j: nat, k: nat)
    requires i <= j <= k <= |cs|
    ensures Units(cs, i, k) == Units(cs, i, j) + Units(cs, j, k)
    ensures j < k ==> Units(cs, j, k) > 0
    decreases j - i
  {
    if i < j {
      UnitsAdd(cs, i + 1, j, k);
    }
  }

  /** No line feed lies between a line's start and a character on it. */
  lemma {:induction false} LineIsPlain(cs: Characters, k: nat, j: nat)
    requires k <= |cs| && StartOf(cs, k) <= j < k
    ensures cs[j] != NEWLINE
    decreases k
  {
    if j < k - 1 {
      LineIsPlain(cs, k - 1, j);
    }
  }

  lemma AdvanceComesBack(cs: Characters, k: nat)
    requires k <= |cs|
    ensures AdvanceTo(cs, StartOf(cs, k), Units(cs, StartOf(cs, k), k)) == k
  {
    var start := StartOf(cs, k);
    var units := Units(cs, start, k);
    var stop := AdvanceTo(cs, start, units);
    AdvanceStops(cs, start, units);
    if stop < k {
      LineIsPlain(cs, k, stop);
      UnitsAdd(cs, start, stop, k);
    }
  }

  lemma {:induction false} SkipComesBack(cs: Characters, i: nat, k: nat)
    requires i <= k <= |cs| && StartOf(cs, i) == i && LineOf(cs, i) <= LineOf(cs, k)
    ensures SkipTo(cs, i, LineOf(cs, k) - LineOf(cs, i)) == StartOf(cs, k)
    decreases k - i
  {
    LinesGrow(cs, i, k);
    if LineOf(cs, k) == LineOf(cs, i) {
      OneLine(cs, i, k);
    } else {
      var j := i;
      j := NextLine(cs, i, k);
      SkipComesBack(cs, j, k);
      SkipToNext(cs, i, j, LineOf(cs, k) - LineOf(cs, i));
    }
  }

  lemma {:induction false} LinesGrow(cs: Characters, i: nat, k: nat)
    requires i <= k <= |cs|
    ensures LineOf(cs, i) <= LineOf(cs, k)
    decreases k - i
  {
    if i < k {
      LinesGrow(cs, i, k - 1);
    }
  }

  lemma {:induction false} OneLine(cs: Characters, i: nat, k: nat)
    requires i <= k <= |cs| && StartOf(cs, i) == i && LineOf(cs, k) == LineOf(cs, i)
    ensures StartOf(cs, k) == i
    decreases k - i
  {
    if i < k {
      LinesGrow(cs, i, k - 1);
      OneLine(cs, i, k - 1);
    }
  }

  /** The next line's start, with no line feed before the one that ends this one. */
  lemma {:induction false} NextLine(cs: Characters, i: nat, k: nat) returns (j: nat)
    requires i <= k <= |cs| && LineOf(cs, i) < LineOf(cs, k)
    ensures i < j <= k && cs[j - 1] == NEWLINE && LineOf(cs, j) == LineOf(cs, i) + 1
    ensures forall n | i <= n < j - 1 :: cs[n] != NEWLINE
    decreases k - i
  {
    if cs[i] == NEWLINE {
      j := i + 1;
    } else {
      j := NextLine(cs, i + 1, k);
    }
  }

  lemma {:induction false} SkipToNext(cs: Characters, i: nat, j: nat, left: int)
    requires i < j <= |cs| && cs[j - 1] == NEWLINE && left > 0
    requires forall n | i <= n < j - 1 :: cs[n] != NEWLINE
    ensures SkipTo(cs, i, left) == SkipTo(cs, j, left - 1)
    decreases j - i
  {
    if i < j - 1 {
      SkipToNext(cs, i + 1, j, left);
    }
  }

  // ------------------------------------------------------------------
  // Round trips

  ghost predicate Boundary(cs: Characters, offset: nat) {
    exists k :: 0 <= k <= |cs| && Off(cs, k) == offset
  }

  /** An offset comes back from its position exactly where a character begins. */
  lemma RoundTripIff(cs: Characters, offset: nat)
    requires offset <= |Encode(cs)|
    ensures var pos := PositionAt(Encode(cs), offset);
            OffsetAt(Encode(cs), pos.line, pos.character) == offset <==> Boundary(cs, offset)
  {
    hide Encode, Off;
    var pos := PositionAt(Encode(cs), offset);
    OffsetIs(cs, pos.line, pos.character);
    if k :| 0 <= k <= |cs| && Off(cs, k) == offset {
      PositionIs(cs, k);
      SkipComesBack(cs, 0, k);
      AdvanceComesBack(cs, k);
    }
  }

  // ------------------------------------------------------------------
  // Round trips on any bytes

  /** A place offset_at's walk along a line may stop, and the units counted there. */
  datatype Stop = Stop(at: nat, units: nat)

  ghost function Stops(text: seq<Byte>, i: nat, units: nat): (stops: seq<Stop>)
    requires i <= |text|
    ensures stops != [] && stops[0] == Stop(i, units)
    decreases |text| - i
  {
    [Stop(i, units)] +
    if i == |text| || text[i] == NEWLINE || i + Follow(text[i]) + 1 > |text| then []
    else Stops(text, i + Follow(text[i]) + 1, units + UnitsOf(text[i]))
  }

  lemma {:induction false} StopsRise(text: seq<Byte>, i: nat, units: nat, k: nat)
    requires i <= |text| && 0 < k < |Stops(text, i, units)|
    ensures var stops := Stops(text, i, units);
            stops[k].at > i && stops[k].units > units && stops[k].units > stops[k - 1].units
    decreases |text| - i
  {
    var next, more := i + Follow(text[i]) + 1, units + UnitsOf(text[i]);
    assert Stops(text, i, units)[k] == Stops(text, next, more)[k - 1];
    if k > 1 {
      StopsRise(text, next, more, k - 1);
    }
  }

  /** Asked for this many units, the walk stops here: no earlier place is far
      enough, and this one is or is the last. */
  ghost predicate Named(stops: seq<Stop>, k: nat, units: int)
    requires k < |stops|
  {
    (k == |stops| - 1 || units <= stops[k].units) && (k == 0 || stops[k - 1].units < units)
  }

  lemma {:induction false} AdvanceStopsAt(text: seq<Byte>, i: nat, units: nat, left: int, k: nat)
    requires i <= |text| && k < |Stops(text, i, units)|
    ensures AdvanceUnits(text, i, left) == Stops(text, i, units)[k].at <==> Named(Stops(text, i, units), k, units + left)
    decreases |text| - i
  {
    var stops := Stops(text, i, units);
    if |stops| > 1 {
      var next, more := i + Follow(text[i]) + 1, units + UnitsOf(text[i]);
      var rest := Stops(text, next, more);
      assert stops == [Stop(i, units)] + rest;
      if k > 0 {
        StopsRise(text, i, units, k);
        if k > 1 {
          StopsRise(text, i, units, k - 1);
        }
        AdvanceStopsAt(text, next, more, left - UnitsOf(text[i]), k - 1);
      } else if left > 0 {
        AdvanceGoesOn(text, next, left - UnitsOf(text[i]));
      }
    }
  }

  lemma {:induction false} AdvanceGoesOn(text: seq<Byte>, i: nat, left: int)
    ensures AdvanceUnits(text, i, left) >= i
    decreases if i < |text| then |text| - i else 0
  {
    if i < |text| && text[i] != NEWLINE && left > 0 && i + Follow(text[i]) + 1 <= |text| {
      AdvanceGoesOn(text, i + Follow(text[i]) + 1, left - UnitsOf(text[i]));
    }
  }

  lemma {:induction false} AdvanceIsAStop(text: seq<Byte>, i: nat, units: nat, left: int) returns (k: nat)
    requires i <= |text|
    ensures k < |Stops(text, i, units)| && AdvanceUnits(text, i, left) == Stops(text, i, units)[k].at
    decreases |text| - i
  {
    k := 0;
    if i < |text| && text[i] != NEWLINE && left > 0 && i + Follow(text[i]) + 1 <= |text| {
      k := AdvanceIsAStop(text, i + Follow(text[i]) + 1, units + UnitsOf(text[i]), left - UnitsOf(text[i]));
      k := k + 1;
    }
  }

  lemma {:induction false} NewlinesGrow(text: seq<Byte>, i: nat, k: nat)
    requires i <= k <= |text|
    ensures Newlines(text[..i]) <= Newlines(text[..k])
    ensures i < k && text[k - 1] == NEWLINE ==> Newlines(text[..i]) < Newlines(text[..k])
    decreases k
  {
    if i < k {
      assert text[..k][..k - 1] == text[..k - 1];
      NewlinesGrow(text, i, k - 1);
    }
  }

  /** The line counted up to a line's start is the line skipped to. */
  lemma {:induction false} SkipToStart(text: seq<Byte>, i: nat, start: nat)
    requires i <= start <= |text| && (start == 0 || text[start - 1] == NEWLINE)
    ensures SkipLines(text, i, Newlines(text[..start]) - Newlines(text[..i])) == start
    decreases start - i
  {
    if i < start {
      NewlinesGrow(text, i, start);
      assert text[..i + 1][..i] == text[..i];
      SkipToStart(text, i + 1, start);
    }
  }

  lemma {:induction false} LineStartBegins(text: seq<Byte>, offset: nat)
    requires offset <= |text|
    ensures var start := LineStart(text, offset); start == 0 || text[start - 1] == NEWLINE
    decreases offset
  {
    if offset > 0 && text[offset - 1] != NEWLINE {
      LineStartBegins(text, offset - 1);
    }
  }

  /** On any bytes at all, an offset comes back from its position exactly where
      offset_at's walk along its line may stop there, having counted fewer units
      before than position_at's decoding counts, and as many there or as many as
      the line has. */
  lemma ComesBackIff(text: seq<Byte>, offset: nat)
    requires offset <= |text|
    ensures var pos := PositionAt(text, offset);
            var start := LineStart(text, offset);
            var stops := Stops(text, start, 0);
            OffsetAt(text, pos.line, pos.character) == offset <==>
            exists k :: 0 <= k < |stops| && stops[k].at == offset && Named(stops, k, UnitsBetween(text, start, offset))
  {
    hide LineStart, Stops, Named, AdvanceUnits, SkipLines, UnitsBetween;
    var start := LineStart(text, offset);
    var units := UnitsBetween(text, start, offset);
    LineStartBegins(text, offset);
    SkipToStart(text, 0, start);
    assert text[..0] == [];
    var k := AdvanceIsAStop(text, start, 0, units);
    AdvanceStopsAt(text, start, 0, units, k);
    if j :| 0 <= j < |Stops(text, start, 0)| && Stops(text, start, 0)[j].at == offset &&
            Named(Stops(text, start, 0), j, units) {
      AdvanceStopsAt(text, start, 0, units, j);
    }
  }

  /** From here to there the two walks read the same: each sequence is as long as
      its lead says and counts what its lead says. */
  predicate Whole(text: seq<Byte>, i: nat, end: nat)
    requires end <= |text|
    decreases |text| - i
  {
    i >= end || (Continued(text, i, Follow(text[i])) && Width(CodeAt(text, i)) == UnitsOf(text[i]) &&
                 Whole(text, i + Follow(text[i]) + 1, end))
  }

  lemma {:induction false} WholeCounts(text: seq<Byte>, i: nat, units: nat, offset: nat, k: nat)
    requires i <= offset <= |text| && Whole(text, i, offset)
    requires k < |Stops(text, i, units)| && Stops(text, i, units)[k].at == offset
    ensures Stops(text, i, units)[k].units == units + UnitsBetween(text, i, offset)
    decreases |text| - i
  {
    if k > 0 {
      StopsRise(text, i, units, k);
      var next, more := i + Follow(text[i]) + 1, units + UnitsOf(text[i]);
      assert Stops(text, i, units)[k] == Stops(text, next, more)[k - 1];
      StopsFrom(text, next, more, k - 1);
      WholeCounts(text, next, more, offset, k - 1);
    }
  }

  lemma StopsFrom(text: seq<Byte>, i: nat, units: nat, k: nat)
    requires i <= |text| && k < |Stops(text, i, units)|
    ensures Stops(text, i, units)[k].at >= i
  {
    if k > 0 {
      StopsRise(text, i, units, k);
    }
  }

  /** Where nothing malformed comes before it on its line, that is exactly where
      offset_at's walk may stop, whatever comes after. */
  lemma WholeComesBackIff(text: seq<Byte>, offset: nat)
    requires offset <= |text| && Whole(text, LineStart(text, offset), offset)
    ensures var pos := PositionAt(text, offset);
            var stops := Stops(text, LineStart(text, offset), 0);
            OffsetAt(text, pos.line, pos.character) == offset <==> exists k :: 0 <= k < |stops| && stops[k].at == offset
  {
    hide LineStart, Stops, UnitsBetween, PositionAt, OffsetAt;
    var start := LineStart(text, offset);
    var stops := Stops(text, start, 0);
    ComesBackIff(text, offset);
    if k :| 0 <= k < |stops| && stops[k].at == offset {
      WholeCounts(text, start, 0, offset, k);
      if k > 0 {
        StopsRise(text, start, 0, k);
      }
      assert Named(stops, k, UnitsBetween(text, start, offset));
    }
  }

  /** One that does not: a byte that claims a second which does not continue it is
      one unit to one walk and two bytes to the other. */
  lemma MalformedDiffers()
    ensures var text: seq<Byte> := [0xC3, 0x41];
            var pos := PositionAt(text, 1);
            pos == Position(0, 1) && OffsetAt(text, pos.line, pos.character) == 2
  {
    var text: seq<Byte> := [0xC3, 0x41];
    assert text[..0] == [];
    assert !Continues(text[1]);
    assert CodeAt(text, 0) == 0xC3 && Read(text, 0) == 1;
    assert LineStart(text, 1) == 0;
    assert UnitsBetween(text, 1, 1) == 0;
    assert UnitsBetween(text, 0, 1) == 1;
    assert SkipLines(text, 0, 0) == 0;
    assert AdvanceUnits(text, 0, 1) == AdvanceUnits(text, 2, 0) == 2;
  }

  // ------------------------------------------------------------------
  // The table

  lemma {:induction false} TableIs(cs: Characters, k: nat, j: nat)
    requires k <= j <= |cs|
    ensures Off(cs, k) <= Off(cs, j) <= |Encode(cs)|
    ensures Table(Encode(cs), Off(cs, k), Units(cs, 0, k))[Off(cs, j) - Off(cs, k)] == Units(cs, 0, j)
    decreases j - k
  {
    hide Encode, Off, EncodeOne;
    OffGrows(cs, k, j);
    OffEnd(cs);
    if k < j {
      CharacterAt(cs, k);
      ByteOf(cs, k, 0);
      LeadOf(cs[k]);
      UnitsAdd(cs, 0, k, k + 1);
      assert Units(cs, k, k + 1) == Width(cs[k]) + Units(cs, k + 1, k + 1);
      TableIs(cs, k + 1, j);
      var text, i := Encode(cs), Off(cs, k);
      assert Taken(text, i) == |EncodeOne(cs[k])|;
    } else if k < |cs| {
      CharacterAt(cs, k);
    }
  }

  /** A position's character is the table's units there less those at its line's
      start. */
  lemma CharacterFromTable(cs: Characters, k: nat)
    requires k <= |cs|
    ensures var text := Encode(cs);
            var offset := Off(cs, k);
            && offset <= |text| && LineStart(text, offset) <= |text|
            && PositionAt(text, offset).character + Table(text, 0, 0)[LineStart(text, offset)] ==
               Table(text, 0, 0)[offset]
  {
    hide Encode, PositionAt, Table;
    PositionIs(cs, k);
    LineStartIs(cs, k);
    OffEnd(cs);
    TableIs(cs, 0, k);
    TableIs(cs, 0, StartOf(cs, k));
    UnitsAdd(cs, 0, StartOf(cs, k), k);
  }

  /** A byte in the middle of a character maps to where the character is. */
  lemma InsideMapsToStart(cs: Characters, k: nat, n: nat)
    requires k < |cs| && n < |EncodeOne(cs[k])|
    ensures Off(cs, k) + n < |Encode(cs)|
    ensures Table(Encode(cs), 0, 0)[Off(cs, k) + n] == Units(cs, 0, k)
  {
    OffEnd(cs);
    InsideFrom(cs, 0, k, n);
  }

  lemma {:induction false} InsideFrom(cs: Characters, j: nat, k: nat, n: nat)
    requires j <= k < |cs| && n < |EncodeOne(cs[k])|
    ensures Off(cs, j) <= Off(cs, k) && Off(cs, k) + n < |Encode(cs)|
    ensures Table(Encode(cs), Off(cs, j), Units(cs, 0, j))[Off(cs, k) + n - Off(cs, j)] == Units(cs, 0, k)
    decreases k - j
  {
    hide Encode, Off, EncodeOne;
    OffGrows(cs, j, k);
    CharacterAt(cs, j);
    CharacterAt(cs, k);
    ByteOf(cs, k, n);
    ByteOf(cs, j, 0);
    LeadOf(cs[j]);
    assert Taken(Encode(cs), Off(cs, j)) == |EncodeOne(cs[j])|;
    if j < k {
      OffGrows(cs, j + 1, k);
      UnitsAdd(cs, 0, j, j + 1);
      assert Units(cs, j, j + 1) == Width(cs[j]) + Units(cs, j + 1, j + 1);
      InsideFrom(cs, j + 1, k, n);
    }
  }
}
