/** Code switched off with '#[~ ... ]#': where a block comment ends, when a text
    may be wrapped in one, and the edits that wrap it and unwrap it again
    (lsp/disabled_code.c; src/lexer.c, skip_block_comment). */
module DisabledCode {
  import opened Wrappers

  // ------------------------------------------------------------------
  // Block comments as the lexer counts them

  predicate Opens(t: string) {
    |t| >= 2 && t[0] == '#' && t[1] == '['
  }

  predicate Closes(t: string) {
    |t| >= 2 && t[0] == ']' && t[1] == '#'
  }

  function Later(end: Option<nat>, n: nat): Option<nat> {
    match end
    case Some(at) => Some(at + n)
    case None => None
  }

  /** How far into `t` a comment `depth` deep ends: past the ']#' that first
      brings it back to none. */
  function Scan(t: string, depth: nat): (end: Option<nat>)
    requires depth >= 1
    ensures end.Some? ==> 2 <= end.value <= |t|
    decreases |t|
  {
    if t == [] then None
    else if Opens(t) then Later(Scan(t[2..], depth + 1), 2)
    else if Closes(t) then if depth == 1 then Some(2) else Later(Scan(t[2..], depth - 1), 2)
    else Later(Scan(t[1..], depth), 1)
  }

  /** skip_block_comment, from the '#[' at `start`. */
  method SkipBlockComment(text: string, start: nat) returns (end: Option<nat>)
    requires start + 2 <= |text| && Opens(text[start..])
    ensures end == Later(Scan(text[start + 2..], 1), start + 2)
  {
    hide Scan;
    var at, depth: nat := start + 2, 1;
    while at < |text|
      invariant start + 2 <= at <= |text| && depth >= 1
      invariant Later(Scan(text[at..], depth), at) == Later(Scan(text[start + 2..], 1), start + 2)
      decreases |text| - at
    {
      ScanAt(text, at, depth);
      if at + 1 < |text| && text[at] == '#' && text[at + 1] == '[' {
        at := at + 2;
        depth := depth + 1;
      } else if at + 1 < |text| && text[at] == ']' && text[at + 1] == '#' {
        at := at + 2;
        depth := depth - 1;
        if depth == 0 {
          return Some(at);
        }
      } else {
        at := at + 1;
      }
    }
    ScanAt(text, at, depth);
    end := None;
  }

  /** One step of the scan, in the text it is made in. */
  lemma ScanAt(text: string, at: nat, depth: nat)
    requires at <= |text| && depth >= 1
    ensures Later(Scan(text[at..], depth), at) ==
            if at == |text| then None
            else if Opens(text[at..]) then Later(Scan(text[at + 2..], depth + 1), at + 2)
            else if Closes(text[at..]) then
              if depth == 1 then Some(at + 2) else Later(Scan(text[at + 2..], depth - 1), at + 2)
            else Later(Scan(text[at + 1..], depth), at + 1)
  {
    var rest := text[at..];
    if at < |text| {
      assert rest[1..] == text[at + 1..];
    }
    if at + 1 < |text| {
      assert rest[2..] == text[at + 2..];
    }
  }

  // ------------------------------------------------------------------
  // Whether a text pairs up

  /** The markers counted over a text alone: how deep it ends, or none where it
      closes more than it opened. */
  function Depth(t: string, depth: nat): Option<nat>
    decreases |t|
  {
    if |t| < 2 then Some(depth)
    else if Opens(t) then Depth(t[2..], depth + 1)
    else if Closes(t) then if depth == 0 then None else Depth(t[2..], depth - 1)
    else Depth(t[1..], depth)
  }

  predicate Pairs(t: string) {
    Depth(t, 0) == Some(0)
  }

  /** pairs_up. */
  method PairsUp(text: string, from: nat, to: nat) returns (pairs: bool)
    requires from <= to <= |text|
    ensures pairs == Pairs(text[from..to])
  {
    var depth := 0;
    var at: nat := from;
    while at + 1 < to
      invariant from <= at <= to && depth >= 0
      invariant Depth(text[at..to], depth) == Depth(text[from..to], 0)
    {
      var rest := text[at..to];
      assert rest[1..] == text[at + 1..to] && rest[2..] == text[at + 2..to];
      if text[at] == '#' && text[at + 1] == '[' {
        depth := depth + 1;
        at := at + 1;
      } else if text[at] == ']' && text[at + 1] == '#' {
        depth := depth - 1;
        if depth < 0 {
          return false;
        }
        at := at + 1;
      }
      at := at + 1;
    }
    pairs := depth == 0;
  }

  /** Scanning past a text into what follows it, where no marker is made across
      the seam. */
  lemma {:induction false} ScanOver(t: string, tail: string, depth: nat)
    requires depth >= 1 && tail != [] && tail[0] != '[' && tail[0] != '#'
    ensures ScansOver(t, tail, depth)
    decreases |t|
  {
    hide ScansOver;
    if |t| < 2 {
      ScanShort(t, tail, depth);
    } else {
      if Opens(t) {
        ScanOver(t[2..], tail, depth + 1);
      } else if Closes(t) {
        if depth > 1 {
          ScanOver(t[2..], tail, depth - 1);
        }
      } else {
        ScanOver(t[1..], tail, depth);
      }
      ScanLong(t, tail, depth);
    }
  }

  ghost predicate ScansOver(t: string, tail: string, depth: nat)
    requires depth >= 1
  {
    match Depth(t, depth - 1)
    case None => Scan(t + tail, depth).Some? && Scan(t + tail, depth).value <= |t|
    case Some(e) => Scan(t + tail, depth) == Later(Scan(tail, e + 1), |t|)
  }

  lemma ScanShort(t: string, tail: string, depth: nat)
    requires depth >= 1 && tail != [] && tail[0] != '[' && tail[0] != '#' && |t| < 2
    ensures ScansOver(t, tail, depth)
  {
    hide Scan;
    var whole := t + tail;
    ScanAt(whole, 0, depth);
    assert whole[0..] == whole;
    if t == [] {
      assert whole == tail;
    } else {
      assert whole[1..] == tail && whole[1] == tail[0];
    }
  }

  lemma ScanLong(t: string, tail: string, depth: nat)
    requires depth >= 1 && |t| >= 2
    requires Opens(t) ==> ScansOver(t[2..], tail, depth + 1)
    requires Closes(t) && depth > 1 ==> ScansOver(t[2..], tail, depth - 1)
    requires !Opens(t) && !Closes(t) ==> ScansOver(t[1..], tail, depth)
    ensures ScansOver(t, tail, depth)
  {
    hide Scan, Opens, Closes;
    ScanAt(t + tail, 0, depth);
    SumTails(t, tail);
  }

  lemma SumTails(t: string, tail: string)
    requires |t| >= 2
    ensures var whole := t + tail;
            whole[0..] == whole && whole[1..] == t[1..] + tail && whole[2..] == t[2..] + tail
    ensures Opens(t + tail) <==> Opens(t)
    ensures Closes(t + tail) <==> Closes(t)
  {
  }

  predicate Blank(c: char) {
    c == ' ' || c == '\t'
  }

  predicate Space(t: string) {
    forall c <- t :: Blank(c) || c == '\n'
  }

  lemma {:induction false} ScanSpace(space: string, tail: string, depth: nat)
    requires Space(space) && depth >= 1
    ensures Scan(space + tail, depth) == Later(Scan(tail, depth), |space|)
    decreases |space|
  {
    if space == [] {
      assert space + tail == tail;
    } else {
      assert Blank(space[0]) || space[0] == '\n';
      assert (space + tail)[1..] == space[1..] + tail;
      ScanSpace(space[1..], tail, depth);
    }
  }

  /** The comment put around a text ends at its own ']#' exactly where the text
      pairs up: with a marker too many in it, earlier or later. */
  lemma EndsThereIff(before: string, text: string, after: string, rest: string)
    requires Space(before) && Space(after)
    ensures var body := "~" + before + text + after;
            Scan(body + "]#" + rest, 1) == Some(|body| + 2) <==> Pairs(text)
  {
    hide Scan, Depth;
    var body := "~" + before + text + after;
    var closing := "]#" + rest;
    var tail := after + closing;
    var whole := body + "]#" + rest;
    var inner := before + (text + tail);
    assert whole == "~" + inner;
    assert whole[1..] == inner;
    ScanAt(whole, 0, 1);
    assert whole[0..] == whole;
    ScanSpace(before, text + tail, 1);
    assert tail[0] != '[' && tail[0] != '#' by {
      if after != [] {
        assert tail[0] == after[0] && after[0] in after;
      } else {
        assert tail[0] == ']';
      }
    }
    ScanOver(text, tail, 1);
    assert ScansOver(text, tail, 1);
    if Depth(text, 0).Some? {
      var deep := Depth(text, 0).value;
      ScanSpace(after, closing, deep + 1);
      ScanAt(closing, 0, deep + 1);
      assert closing[0..] == closing && closing[2..] == rest;
    }
  }

  // ------------------------------------------------------------------
  // What pairs up

  /** Markers pair up as brackets do: a text without them does, and what is opened
      before one that does and closed after it; an opening or a closing marker too
      many does not. */
  lemma PairingMeans(x: string, t: string, u: string)
    requires '#' !in x && Pairs(t) && Pairs(u)
    ensures Pairs(x) && Pairs("#[" + t + "]#" + u)
    ensures !Pairs("#[" + t) && !Pairs(t + "]#" + u)
  {
    hide Depth;
    Plain(x, 0);
    var closing := "]#" + u;
    var wrapped := "#[" + t + "]#" + u;
    assert wrapped[2..] == t + closing && t + "]#" + u == t + closing;
    assert closing[2..] == u && ("#[" + t)[2..] == t;
    DepthStep(wrapped, 0);
    DepthOver(t, closing, 1);
    DepthRaised(t, 0, 1);
    DepthStep(closing, 1);
    DepthStep("#[" + t, 0);
    DepthOver(t, closing, 0);
    DepthStep(closing, 0);
  }

  lemma DepthStep(t: string, depth: nat)
    ensures Depth(t, depth) ==
            if |t| < 2 then Some(depth)
            else if t[0] == '#' && t[1] == '[' then Depth(t[2..], depth + 1)
            else if t[0] == ']' && t[1] == '#' then if depth == 0 then None else Depth(t[2..], depth - 1)
            else Depth(t[1..], depth)
  {
  }

  lemma {:induction false} Plain(x: string, depth: nat)
    requires '#' !in x
    ensures Depth(x, depth) == Some(depth)
    decreases |x|
  {
    if |x| >= 2 {
      assert x[1] in x && x[0] in x;
      Plain(x[1..], depth);
    }
  }

  /** Counted from deeper, a text that comes out comes out as much deeper. */
  lemma {:induction false} DepthRaised(t: string, depth: nat, more: nat)
    ensures Depth(t, depth).Some? ==> Depth(t, depth + more) == Some(Depth(t, depth).value + more)
    decreases |t|
  {
    if |t| >= 2 {
      if Opens(t) {
        DepthRaised(t[2..], depth + 1, more);
      } else if Closes(t) {
        if depth > 0 {
          DepthRaised(t[2..], depth - 1, more);
        }
      } else {
        DepthRaised(t[1..], depth, more);
      }
    }
  }

  /** Counted over a text and on into a tail that makes no marker with its end. */
  lemma {:induction false} DepthOver(t: string, tail: string, depth: nat)
    requires |tail| >= 2 && tail[0] != '[' && tail[0] != '#'
    ensures Depth(t + tail, depth) ==
            match Depth(t, depth)
            case None => None
            case Some(e) => Depth(tail, e)
    decreases |t|
  {
    hide Depth, Opens, Closes;
    DepthStep(t + tail, depth);
    DepthStep(t, depth);
    if t == [] {
      assert t + tail == tail;
    } else if |t| == 1 {
      assert (t + tail)[1..] == tail && (t + tail)[1] == tail[0];
    } else {
      SumTails(t, tail);
      assert (t + tail)[0] == t[0] && (t + tail)[1] == t[1];
      if t[0] == '#' && t[1] == '[' {
        DepthOver(t[2..], tail, depth + 1);
      } else if t[0] == ']' && t[1] == '#' {
        if depth > 0 {
          DepthOver(t[2..], tail, depth - 1);
        }
      } else {
        DepthOver(t[1..], tail, depth);
      }
    }
  }

  // ------------------------------------------------------------------
  // Lines

  function LineStart(text: string, at: nat): (start: nat)
    requires at <= |text|
    ensures start <= at
  {
    if at > 0 && text[at - 1] != '\n' then LineStart(text, at - 1) else at
  }

  function LineEnd(text: string, at: nat): (end: nat)
    requires at <= |text|
    ensures at <= end <= |text|
    decreases |text| - at
  {
    if at < |text| && text[at] != '\n' then LineEnd(text, at + 1) else at
  }

  predicate StartsLine(text: string, at: nat) {
    at <= |text| && (at == 0 || text[at - 1] == '\n')
  }

  predicate EndsLine(text: string, at: nat) {
    at <= |text| && (at == |text| || text[at] == '\n')
  }

  lemma {:induction false} LineStartIs(text: string, start: nat, at: nat)
    requires start <= at <= |text| && StartsLine(text, start)
    requires forall i | start <= i < at :: text[i] != '\n'
    ensures LineStart(text, at) == start
    decreases at - start
  {
    if start < at {
      LineStartIs(text, start, at - 1);
    }
  }

  lemma {:induction false} LineEndIs(text: string, at: nat, end: nat)
    requires at <= end <= |text| && EndsLine(text, end)
    requires forall i | at <= i < end :: text[i] != '\n'
    ensures LineEnd(text, at) == end
    decreases end - at
  {
    if at < end {
      LineEndIs(text, at + 1, end);
    }
  }

  method FindLineStart(text: string, at: nat) returns (start: nat)
    requires at <= |text|
    ensures start == LineStart(text, at) && StartsLine(text, start)
  {
    start := at;
    while start > 0 && text[start - 1] != '\n'
      invariant start <= at && LineStart(text, start) == LineStart(text, at)
    {
      start := start - 1;
    }
  }

  method FindLineEnd(text: string, at: nat) returns (end: nat)
    requires at <= |text|
    ensures end == LineEnd(text, at) && EndsLine(text, end)
  {
    end := at;
    while end < |text| && text[end] != '\n'
      invariant at <= end <= |text| && LineEnd(text, end) == LineEnd(text, at)
    {
      end := end + 1;
    }
  }

  predicate BlankBetween(text: string, from: nat, to: nat)
    requires from <= to <= |text|
  {
    forall c <- text[from..to] :: Blank(c)
  }

  method IsBlankBetween(text: string, from: nat, to: nat) returns (blank: bool)
    requires from <= to <= |text|
    ensures blank == BlankBetween(text, from, to)
  {
    for at := from to to
      invariant BlankBetween(text, from, at)
    {
      if !Blank(text[at]) {
        assert text[from..to][at - from] == text[at];
        return false;
      }
      assert text[from..at + 1] == text[from..at] + [text[at]];
    }
    blank := true;
  }

  /** The space around a span goes, and nothing else does. */
  method Trim(text: string, from: nat, to: nat) returns (first: nat, last: nat)
    requires from <= to <= |text|
    ensures from <= first <= last <= to
    ensures Space(text[from..first]) && Space(text[last..to])
    ensures first < last ==> !Space([text[first]]) && !Space([text[last - 1]])
  {
    first, last := from, to;
    while first < last && (Blank(text[first]) || text[first] == '\n')
      invariant from <= first <= last && Space(text[from..first])
    {
      assert text[from..first + 1] == text[from..first] + [text[first]];
      first := first + 1;
    }
    while last > first && (Blank(text[last - 1]) || text[last - 1] == '\n')
      invariant first <= last <= to && Space(text[last..to])
      invariant first < last ==> !Space([text[first]])
    {
      assert text[last - 1..to] == [text[last - 1]] + text[last..to];
      last := last - 1;
    }
  }

  // ------------------------------------------------------------------
  // Edits

  datatype Edit = Edit(from: nat, to: nat, text: string)

  predicate InOrder(text: string, e: Edit, f: Edit) {
    e.from <= e.to <= f.from <= f.to <= |text|
  }

  /** Two edits of one text, the first before the second. */
  function Apply(text: string, e: Edit, f: Edit): string
    requires InOrder(text, e, f)
  {
    text[..e.from] + e.text + text[e.to..f.from] + f.text + text[f.to..]
  }

  /** One edit of a text. */
  function ApplyOne(text: string, e: Edit): string
    requires e.from <= e.to <= |text|
  {
    text[..e.from] + e.text + text[e.to..]
  }

  /** What a marker's removal takes: its line where nothing else is written on it,
      or else the marker itself with the blank beside it. */
  function Removal(text: string, at: nat, width: nat, opening: bool): (e: Edit)
    requires at + width <= |text|
    ensures e.from <= at && at + width <= e.to <= |text| && e.text == ""
  {
    var to := at + width;
    var first, last := LineStart(text, at), LineEnd(text, to);
    if BlankBetween(text, first, at) && BlankBetween(text, to, last) then
      Edit(first, if last < |text| then last + 1 else last, "")
    else if opening && to < |text| && text[to] == ' ' then Edit(at, to + 1, "")
    else if !opening && at > 0 && text[at - 1] == ' ' then Edit(at - 1, to, "")
    else Edit(at, to, "")
  }

  /** remove_marker. */
  method RemoveMarker(text: string, at: nat, width: nat, opening: bool) returns (e: Edit)
    requires at + width <= |text|
    ensures e == Removal(text, at, width, opening)
  {
    var from, to := at, at + width;
    var first := FindLineStart(text, from);
    var last := FindLineEnd(text, to);
    var before := IsBlankBetween(text, first, from);
    var after := IsBlankBetween(text, to, last);
    if before && after {
      from := first;
      to := if last < |text| then last + 1 else last;
    } else if opening && to < |text| && text[to] == ' ' {
      to := to + 1;
    } else if !opening && from > 0 && text[from - 1] == ' ' {
      from := from - 1;
    }
    e := Edit(from, to, "");
  }

  function Indent(line: string): (indent: string)
    ensures indent <= line && forall c <- indent :: Blank(c)
    ensures |indent| < |line| ==> !Blank(line[|indent|])
  {
    if line != [] && Blank(line[0]) then [line[0]] + Indent(line[1..]) else []
  }

  /** add_markers: two lines are written, one a marker, both with the first line's
      indent. */
  method AddMarkers(text: string, start: nat, stop: nat) returns (opening: Edit, closing: Edit)
    requires start <= stop <= |text|
    ensures var indent := Indent(text[start..stop]);
            opening == Edit(start, start, indent + "#[~\n") && closing == Edit(stop, stop, "\n" + indent + "]#")
  {
    hide Indent;
    var indent := FindIndent(text, start, stop);
    var blanks := text[start..start + indent];
    opening := Edit(start, start, blanks + "#[~\n");
    closing := Edit(stop, stop, "\n" + blanks + "]#");
  }

  method FindIndent(text: string, start: nat, stop: nat) returns (indent: nat)
    requires start <= stop <= |text|
    ensures start + indent <= stop && text[start..start + indent] == Indent(text[start..stop])
  {
    hide Indent, IndentRead;
    indent := 0;
    IndentBegins(text, start, stop);
    while start + indent < stop && Blank(text[start + indent])
      invariant start + indent <= stop
      invariant IndentRead(text, start, start + indent, stop) == Indent(text[start..stop])
    {
      IndentStep(text, start, start + indent, stop);
      indent := indent + 1;
    }
    IndentDone(text, start, start + indent, stop);
  }

  /** The indent, what has been read of it and what is still to be read. */
  ghost function IndentRead(text: string, start: nat, at: nat, stop: nat): string
    requires start <= at <= stop <= |text|
  {
    text[start..at] + Indent(text[at..stop])
  }

  lemma IndentBegins(text: string, start: nat, stop: nat)
    requires start <= stop <= |text|
    ensures IndentRead(text, start, start, stop) == Indent(text[start..stop])
  {
    hide Indent;
  }

  lemma IndentDone(text: string, start: nat, at: nat, stop: nat)
    requires start <= at <= stop <= |text| && (at < stop ==> !Blank(text[at]))
    ensures IndentRead(text, start, at, stop) == text[start..at]
  {
    IndentStops(text[at..stop]);
  }

  lemma IndentStep(text: string, start: nat, at: nat, stop: nat)
    requires start <= at < stop <= |text| && Blank(text[at])
    ensures IndentRead(text, start, at, stop) == IndentRead(text, start, at + 1, stop)
  {
    hide Indent;
    IndentFirst(text[at..stop], text[start..at]);
    assert text[at..stop][1..] == text[at + 1..stop];
    assert text[start..at + 1] == text[start..at] + [text[at]];
  }

  lemma IndentFirst(line: string, done: string)
    requires line != [] && Blank(line[0])
    ensures done + Indent(line) == (done + [line[0]]) + Indent(line[1..])
  {
    assert done + ([line[0]] + Indent(line[1..])) == (done + [line[0]]) + Indent(line[1..]);
  }

  lemma IndentStops(line: string)
    requires line != [] ==> !Blank(line[0])
    ensures Indent(line) == []
  {
  }

  // ------------------------------------------------------------------
  // What a marker's removal leaves

  /** Of a text whose marker stands on a line between `x` and `y`: without that line,
      where only blanks are there besides; otherwise without the marker and the one
      space on its inner side, where there is one. */
  lemma RemovalMeans(text: string, before: string, x: string, marker: string, y: string,
                     after: string, opening: bool)
    requires text == before + x + marker + y + after
    requires before == "" || before[|before| - 1] == '\n'
    requires after == "" || after[0] == '\n'
    requires '\n' !in x && '\n' !in y
    ensures var e := Removal(text, |before| + |x|, |marker|, opening);
            var blank := forall c | c in x || c in y :: c == ' ' || c == '\t';
            ApplyOne(text, e) ==
            if blank then before + (if after == "" then "" else after[1..])
            else if opening && y != "" && y[0] == ' ' then before + x + y[1..] + after
            else if !opening && x != "" && x[|x| - 1] == ' ' then before + x[..|x| - 1] + y + after
            else before + x + y + after
  {
    hide LineStart, LineEnd, BlankBetween, Removal, ApplyOne;
    RemovalIs(text, before, x, marker, y, after, opening);
    var at, to := |before| + |x|, |before| + |x| + |marker|;
    TextParts(text, before, x, marker, y, after);
    var e := Removal(text, at, |marker|, opening);
    if forall c | c in x || c in y :: c == ' ' || c == '\t' {
      Without(text, e, before, if after == "" then "" else after[1..]);
    } else if opening && y != "" && y[0] == ' ' {
      Without(text, e, before + x, y[1..] + after);
      FourParts(before, x, y[1..], after);
    } else if !opening && x != "" && x[|x| - 1] == ' ' {
      Without(text, e, before + x[..|x| - 1], y + after);
      FourParts(before, x[..|x| - 1], y, after);
    } else {
      Without(text, e, before + x, y + after);
      FourParts(before, x, y, after);
    }
  }

  lemma Without(text: string, e: Edit, left: string, right: string)
    requires e.from <= e.to <= |text| && e.text == "" && text[..e.from] == left && text[e.to..] == right
    ensures ApplyOne(text, e) == left + right
  {
    assert left + "" + right == left + right;
  }

  lemma FourParts(a: string, b: string, c: string, d: string)
    ensures (a + b) + (c + d) == a + b + c + d
  {
  }

  lemma RemovalIs(text: string, before: string, x: string, marker: string, y: string,
                  after: string, opening: bool)
    requires text == before + x + marker + y + after
    requires before == "" || before[|before| - 1] == '\n'
    requires after == "" || after[0] == '\n'
    requires '\n' !in x && '\n' !in y
    ensures var at, to := |before| + |x|, |before| + |x| + |marker|;
            var blank := forall c | c in x || c in y :: c == ' ' || c == '\t';
            Removal(text, at, |marker|, opening) ==
            if blank then Edit(|before|, to + |y| + (if after == "" then 0 else 1), "")
            else if opening && y != "" && y[0] == ' ' then Edit(at, to + 1, "")
            else if !opening && x != "" && x[|x| - 1] == ' ' then Edit(at - 1, to, "")
            else Edit(at, to, "")
  {
    hide LineStart, LineEnd, BlankBetween;
    var at, to := |before| + |x|, |before| + |x| + |marker|;
    LineAround(text, before, x, marker, y, after);
    BlanksOf(text, |before|, at, x);
    BlanksOf(text, to, to + |y|, y);
    OuterSpaces(text, before, x, marker, y, after);
  }

  lemma LineAround(text: string, before: string, x: string, marker: string, y: string,
                   after: string)
    requires text == before + x + marker + y + after
    requires before == "" || before[|before| - 1] == '\n'
    requires after == "" || after[0] == '\n'
    requires '\n' !in x && '\n' !in y
    ensures var at, to := |before| + |x|, |before| + |x| + |marker|;
            && LineStart(text, at) == |before| && LineEnd(text, to) == to + |y|
            && text[|before|..at] == x && text[to..to + |y|] == y
            && (to + |y| < |text| <==> after != "")
  {
    hide LineStart, LineEnd;
    var at, to := |before| + |x|, |before| + |x| + |marker|;
    assert forall k | 0 <= k < |x| :: text[|before| + k] == x[k] && x[k] in x;
    assert forall k | 0 <= k < |y| :: text[to + k] == y[k] && y[k] in y;
    assert forall i | |before| <= i < at :: text[i] == x[i - |before|];
    assert forall i | to <= i < to + |y| :: text[i] == y[i - to];
    LineStartIs(text, |before|, at);
    LineEndIs(text, to, to + |y|);
  }

  lemma TextParts(text: string, before: string, x: string, marker: string, y: string,
                  after: string)
    requires text == before + x + marker + y + after
    ensures var at, to := |before| + |x|, |before| + |x| + |marker|;
            && text[..|before|] == before && text[..at] == before + x && text[to..] == y + after
            && text[to + |y|..] == after && (after != "" ==> text[to + |y| + 1..] == after[1..])
            && (y != "" ==> text[to + 1..] == y[1..] + after)
            && (x != "" ==> text[..at - 1] == before + x[..|x| - 1])
  {
  }

  lemma BlanksOf(text: string, from: nat, to: nat, part: string)
    requires from <= to <= |text| && text[from..to] == part
    ensures BlankBetween(text, from, to) <==> forall c | c in part :: c == ' ' || c == '\t'
  {
    if BlankBetween(text, from, to) {
      forall c | c in part ensures c == ' ' || c == '\t' {
        assert c in text[from..to] && Blank(c);
      }
    }
  }

  /** The characters just outside the marker, where its line ends there. */
  lemma OuterSpaces(text: string, before: string, x: string, marker: string, y: string,
                    after: string)
    requires text == before + x + marker + y + after
    requires before == "" || before[|before| - 1] == '\n'
    requires after == "" || after[0] == '\n'
    ensures var at, to := |before| + |x|, |before| + |x| + |marker|;
            && (to < |text| && text[to] == ' ' <==> y != "" && y[0] == ' ')
            && (at > 0 && text[at - 1] == ' ' <==> x != "" && x[|x| - 1] == ' ')
  {
  }

  /** So code written off with a space inside each marker comes back without them. */
  lemma SpacedRoundTrip(before: string, code: string, after: string)
    requires code != [] && Written(code[0]) && Written(code[|code| - 1])
    ensures var text := before + "#[~ " + code + " ]#" + after;
            var opening, closing := |before|, |before| + 5 + |code|;
            && closing + 2 <= |text|
            && var e, f := Removal(text, opening, 3, true), Removal(text, closing, 2, false);
               InOrder(text, e, f) && Apply(text, e, f) == before + code + after
  {
    hide LineStart, LineEnd, BlankBetween;
    var text := before + "#[~ " + code + " ]#" + after;
    var opening, closing := |before|, |before| + 5 + |code|;
    assert text[opening + 4] == code[0] && text[closing - 2] == code[|code| - 1];
    assert text[opening + 3] == ' ' && text[closing - 1] == ' ';
    WrittenNear(text, opening, 3, opening + 4);
    WrittenNear(text, closing, 2, closing - 2);
    assert Removal(text, opening, 3, true) == Edit(opening, opening + 4, "");
    assert Removal(text, closing, 2, false) == Edit(closing - 1, closing + 2, "");
    assert text[..opening] == before && text[opening + 4..closing - 1] == code && text[closing + 2..] == after;
  }

  /** Something written one space from a marker: it is not alone on its line. */
  lemma WrittenNear(text: string, at: nat, width: nat, near: nat)
    requires at + width <= |text| && near < |text| && Written(text[near])
    requires (near == at + width + 1 && text[at + width] == ' ') || (near + 2 == at && text[at - 1] == ' ')
    ensures !(BlankBetween(text, LineStart(text, at), at) && BlankBetween(text, at + width, LineEnd(text, at + width)))
  {
    if near == at + width + 1 {
      assert LineEnd(text, at + width) == LineEnd(text, near + 1);
      assert text[at + width..LineEnd(text, at + width)][1] == text[near];
    } else {
      assert LineStart(text, at) == LineStart(text, near);
      var line := text[LineStart(text, at)..at];
      assert line[|line| - 2] == text[near];
    }
  }

  // ------------------------------------------------------------------
  // There and back: exactly a statement

  /** Switched off without a space added. */
  function DisabledExactly(before: string, code: string, after: string): string {
    before + "#[~" + code + "]#" + after
  }

  predicate Written(c: char) {
    !Blank(c) && c != '\n'
  }

  /** Switched off as its own text and on again, a statement comes back byte for
      byte, whatever stands around it: it begins and ends on what is written. */
  lemma ExactRoundTrip(before: string, code: string, after: string)
    requires code != [] && Written(code[0]) && Written(code[|code| - 1])
    ensures var text := DisabledExactly(before, code, after);
            var opening := |before|;
            var closing := |before| + 3 + |code|;
            && closing + 2 <= |text|
            && var e, f := Removal(text, opening, 3, true), Removal(text, closing, 2, false);
               InOrder(text, e, f) && Apply(text, e, f) == before + code + after
  {
    hide LineStart, LineEnd, BlankBetween, Apply;
    var text := DisabledExactly(before, code, after);
    var opening, closing := |before|, |before| + 3 + |code|;
    assert text[opening + 3] == code[0] && text[closing - 1] == code[|code| - 1];
    NotAlone(text, opening, 3, |before| + 3);
    NotAlone(text, closing, 2, closing - 1);
    TwoGo(before, "#[~", code, "]#", after);
  }

  /** A marker beside something written is not alone on its line. */
  lemma NotAlone(text: string, at: nat, width: nat, beside: nat)
    requires at + width <= |text| && beside < |text| && (beside == at + width || beside + 1 == at)
    requires Written(text[beside])
    ensures !(BlankBetween(text, LineStart(text, at), at) && BlankBetween(text, at + width, LineEnd(text, at + width)))
  {
    if beside == at + width {
      assert text[at + width..LineEnd(text, at + width)][0] == text[beside];
    } else {
      var line := text[LineStart(text, at)..at];
      assert line[|line| - 1] == text[beside];
    }
  }

  // ------------------------------------------------------------------
  // There and back: whole lines

  function DisabledLines(before: string, lines: string, after: string): string {
    before + (Indent(lines) + "#[~\n") + lines + ("\n" + Indent(lines) + "]#") + after
  }

  lemma DisabledLinesAreEdits(before: string, lines: string, after: string)
    ensures var text := before + lines + after;
            var indent := Indent(lines);
            var opening := Edit(|before|, |before|, indent + "#[~\n");
            var closing := Edit(|before| + |lines|, |before| + |lines|, "\n" + indent + "]#");
            InOrder(text, opening, closing) && Apply(text, opening, closing) == DisabledLines(before, lines, after)
  {
    hide Indent;
    TwoCome(before, Indent(lines) + "#[~\n", lines, "\n" + Indent(lines) + "]#", after);
  }

  /** What there is when two stretches are put into a text. */
  lemma TwoCome(before: string, x: string, middle: string, y: string, after: string)
    ensures var text := before + middle + after;
            var e := Edit(|before|, |before|, x);
            var f := Edit(|before| + |middle|, |before| + |middle|, y);
            InOrder(text, e, f) && Apply(text, e, f) == before + x + middle + y + after
  {
    var text := before + middle + after;
    assert text[..|before|] == before && text[|before|..|before| + |middle|] == middle;
    assert text[|before| + |middle|..] == after;
  }

  /** A marker with only blanks before it on its line and none after is removed
      with its line, and with the line feed that ends it if there is one. */
  lemma MarkerAlone(before: string, blanks: string, marker: string, rest: string, opening: bool)
    requires before == "" || before[|before| - 1] == '\n'
    requires forall c <- blanks :: Blank(c)
    requires rest == "" || rest[0] == '\n'
    ensures var text := before + blanks + marker + rest;
            var at := |before| + |blanks|;
            at + |marker| <= |text| &&
            Removal(text, at, |marker|, opening) ==
            Edit(|before|, at + |marker| + if rest == "" then 0 else 1, "")
  {
    var text := before + blanks + marker + rest;
    var first, at := |before|, |before| + |blanks|;
    var to := at + |marker|;
    assert first > 0 ==> text[first - 1] == before[first - 1];
    forall i | first <= i < at ensures Blank(text[i]) {
      assert text[i] == blanks[i - first] && blanks[i - first] in blanks;
    }
    LineStartIs(text, first, at);
    assert rest != "" ==> text[to] == rest[0];
    LineEndIs(text, to, to);
    assert text[first..at] == blanks;
    assert text[to..to] == "";
  }

  /** What is left when two stretches of a text go. */
  lemma TwoGo(before: string, x: string, middle: string, y: string, after: string)
    ensures var text := before + x + middle + y + after;
            var e := Edit(|before|, |before| + |x|, "");
            var f := Edit(|before| + |x| + |middle|, |before| + |x| + |middle| + |y|, "");
            InOrder(text, e, f) && Apply(text, e, f) == before + middle + after
  {
    var text := before + x + middle + y + after;
    assert text[..|before|] == before;
    assert text[|before| + |x|..|before| + |x| + |middle|] == middle;
    assert text[|before| + |x| + |middle| + |y|..] == after;
  }

  /** Where the markers of whole lines stand. */
  function OpeningOf(before: string, lines: string): nat {
    |before| + |Indent(lines)|
  }

  function ClosingOf(before: string, lines: string): nat {
    |before| + |Indent(lines)| + 4 + |lines| + 1 + |Indent(lines)|
  }

  lemma IndentIsBlank(lines: string)
    ensures forall c <- Indent(lines) :: Blank(c)
  {
  }

  lemma OpeningGoes(before: string, lines: string, after: string)
    requires before == "" || before[|before| - 1] == '\n'
    ensures OpeningOf(before, lines) + 3 <= |DisabledLines(before, lines, after)|
    ensures Removal(DisabledLines(before, lines, after), OpeningOf(before, lines), 3, true) ==
            Edit(|before|, |before| + |Indent(lines) + "#[~\n"|, "")
  {
    hide Removal, Indent;
    IndentIsBlank(lines);
    var rest := "\n" + (lines + ("\n" + Indent(lines) + "]#") + after);
    assert DisabledLines(before, lines, after) == before + Indent(lines) + "#[~" + rest;
    MarkerAlone(before, Indent(lines), "#[~", rest, true);
  }

  lemma ClosingGoes(before: string, lines: string, after: string)
    requires after == "" || after[0] == '\n'
    ensures ClosingOf(before, lines) + 2 <= |DisabledLines(before, lines, after)|
    ensures Removal(DisabledLines(before, lines, after), ClosingOf(before, lines), 2, false) ==
            Edit(ClosingOf(before, lines) - |Indent(lines)|,
                 ClosingOf(before, lines) + 2 + if after == "" then 0 else 1, "")
  {
    hide Removal, Indent;
    IndentIsBlank(lines);
    var upTo := before + (Indent(lines) + "#[~\n") + lines + "\n";
    assert DisabledLines(before, lines, after) == upTo + Indent(lines) + "]#" + after;
    MarkerAlone(upTo, Indent(lines), "]#", after, false);
  }

  /** What unwrapping whole lines gives: the text there was -- or, where the lines
      ended the text with no line feed, that text and one. */
  lemma LinesRoundTrip(before: string, lines: string, after: string)
    requires before == "" || before[|before| - 1] == '\n'
    requires after == "" || after[0] == '\n'
    ensures var text := DisabledLines(before, lines, after);
            && OpeningOf(before, lines) + 3 <= |text| && ClosingOf(before, lines) + 2 <= |text|
            && var e := Removal(text, OpeningOf(before, lines), 3, true);
               var f := Removal(text, ClosingOf(before, lines), 2, false);
               && InOrder(text, e, f)
               && Apply(text, e, f) == (if after == "" then before + lines + "\n" else before + lines + after)
               && (Apply(text, e, f) == before + lines + after <==> after != "")
  {
    hide Removal, Apply, Indent;
    OpeningGoes(before, lines, after);
    ClosingGoes(before, lines, after);
    var x, middle, y := Indent(lines) + "#[~\n", lines + "\n", Indent(lines) + "]#" + after[..if after == "" then 0 else 1];
    var left := if after == "" then "" else after[1..];
    TwoGo(before, x, middle, y, left);
    SameText(before, lines, after);
    assert |before + lines + "\n"| != |before + lines|;
    assert after != "" ==> before + middle + left == before + lines + after;
    assert after == "" ==> before + middle + left == before + lines + "\n" && before + lines + after == before + lines;
  }

  lemma SameText(before: string, lines: string, after: string)
    requires after == "" || after[0] == '\n'
    ensures var y := Indent(lines) + "]#" + after[..if after == "" then 0 else 1];
            DisabledLines(before, lines, after) ==
            before + (Indent(lines) + "#[~\n") + (lines + "\n") + y + if after == "" then "" else after[1..]
  {
    assert after == after[..if after == "" then 0 else 1] + if after == "" then "" else after[1..];
  }

  /** Lines taken whole: wherever the spans of the statements and of the selection
      fall, the text before begins no line half way and the text after ends one. */
  lemma WholeLines(text: string, statement: nat, selection: nat, statementEnd: nat, selectionEnd: nat)
    requires statement <= |text| && selection <= |text| && statementEnd <= |text| && selectionEnd <= |text|
    ensures var start := if LineStart(text, selection) < LineStart(text, statement)
                         then LineStart(text, selection) else LineStart(text, statement);
            var stop := if LineEnd(text, selectionEnd) > LineEnd(text, statementEnd)
                        then LineEnd(text, selectionEnd) else LineEnd(text, statementEnd);
            StartsLine(text, start) && EndsLine(text, stop)
  {
    StartsThere(text, selection);
    StartsThere(text, statement);
    EndsThere(text, selectionEnd);
    EndsThere(text, statementEnd);
  }

  lemma {:induction false} StartsThere(text: string, at: nat)
    requires at <= |text|
    ensures StartsLine(text, LineStart(text, at))
  {
    if at > 0 && text[at - 1] != '\n' {
      StartsThere(text, at - 1);
    }
  }

  lemma {:induction false} EndsThere(text: string, at: nat)
    requires at <= |text|
    ensures EndsLine(text, LineEnd(text, at))
    decreases |text| - at
  {
    if at < |text| && text[at] != '\n' {
      EndsThere(text, at + 1);
    }
  }

  // ------------------------------------------------------------------
  // The comment found again

  /** Switched off either way, a text that pairs up is one comment, ending at the
      marker put after it: what the second toggle unwraps is what the first
      wrapped. */
  lemma OneComment(before: string, code: string, after: string)
    ensures var exact := DisabledExactly(before, code, after);
            Later(Scan(exact[|before| + 2..], 1), |before| + 2) == Some(|before| + 5 + |code|) <==> Pairs(code)
    ensures var lines := DisabledLines(before, code, after);
            var at := |before| + |Indent(code)|;
            Later(Scan(lines[at + 2..], 1), at + 2) == Some(at + 7 + |code| + |Indent(code)|) <==> Pairs(code)
  {
    ExactComment(before, code, after);
    LinesComment(before, code, after);
  }

  lemma ExactComment(before: string, code: string, after: string)
    ensures var exact := DisabledExactly(before, code, after);
            Later(Scan(exact[|before| + 2..], 1), |before| + 2) == Some(|before| + 5 + |code|) <==> Pairs(code)
  {
    var exact := DisabledExactly(before, code, after);
    assert exact[|before| + 2..] == "~" + "" + code + "" + "]#" + after;
    EndsThereIff("", code, "", after);
  }

  lemma LinesComment(before: string, code: string, after: string)
    ensures var lines := DisabledLines(before, code, after);
            var at := |before| + |Indent(code)|;
            Later(Scan(lines[at + 2..], 1), at + 2) == Some(at + 7 + |code| + |Indent(code)|) <==> Pairs(code)
  {
    hide Scan, Depth, Indent;
    var lines := DisabledLines(before, code, after);
    var at := |before| + |Indent(code)|;
    var tail := "\n" + Indent(code);
    IndentIsBlank(code);
    BodyOfLines(before, code, after);
    EndsThereIff("\n", code, tail, after);
  }

  lemma BodyOfLines(before: string, code: string, after: string)
    ensures var at := |before| + |Indent(code)|;
            at + 2 <= |DisabledLines(before, code, after)| &&
            DisabledLines(before, code, after)[at + 2..] ==
            "~" + "\n" + code + ("\n" + Indent(code)) + "]#" + after
  {
    hide Indent;
    var indent := Indent(code);
    var rest := "~" + "\n" + code + ("\n" + indent) + "]#" + after;
    assert DisabledLines(before, code, after) == (before + indent + "#[") + rest;
  }
}
