/** A path made absolute and cleaned of its dots, on its text alone and inside
    the one buffer that holds it (dap/adapter.c, absolute_textual). */
module PathFolding {
  import opened Wrappers

  // ------------------------------------------------------------------
  // What folding means: a stack of segments

  /** How far the first separator is, or the end. */
  function Slash(t: string): (k: nat)
    ensures k <= |t| && '/' !in t[..k]
    ensures k < |t| ==> t[k] == '/'
  {
    if t == [] || t[0] == '/' then 0 else 1 + Slash(t[1..])
  }

  function Segments(t: string): (segments: seq<string>)
    ensures forall s <- segments :: '/' !in s
    decreases |t|
  {
    var k := Slash(t);
    [t[..k]] + if k == |t| then [] else Segments(t[k + 1..])
  }

  /** One segment's effect on those kept so far: some add nothing, and '..' drops
      the last, if any. */
  function Step(stack: seq<string>, segment: string): seq<string> {
    if segment == "" || segment == "." then stack
    else if segment == ".." then if stack == [] then [] else stack[..|stack| - 1]
    else stack + [segment]
  }

  function Fold(stack: seq<string>, segments: seq<string>): seq<string>
    decreases |segments|
  {
    if segments == [] then stack else Fold(Step(stack, segments[0]), segments[1..])
  }

  predicate Plain(segment: string) {
    segment != "" && segment != "." && segment != ".." && '/' !in segment
  }

  predicate Clean(stack: seq<string>) {
    forall s <- stack :: Plain(s)
  }

  function Written(stack: seq<string>): (t: string)
    ensures stack != [] ==> |t| >= 1 && t[0] == '/'
  {
    if stack == [] then ""
    else Written(stack[..|stack| - 1]) + "/" + stack[|stack| - 1]
  }

  /** The root keeps its separator. */
  function Render(stack: seq<string>): (t: string)
    ensures |t| >= 1 && t[0] == '/'
  {
    if stack == [] then "/" else Written(stack)
  }

  /** The folded spelling of an absolute path. */
  function Folded(path: string): string
    requires path != [] && path[0] == '/'
  {
    Render(Fold([], Segments(path[1..])))
  }

  // ------------------------------------------------------------------
  // What it gives

  lemma {:induction false} FoldIsClean(stack: seq<string>, segments: seq<string>)
    requires Clean(stack) && forall s <- segments :: '/' !in s
    ensures Clean(Fold(stack, segments))
    decreases |segments|
  {
    if segments != [] {
      FoldIsClean(Step(stack, segments[0]), segments[1..]);
    }
  }

  /** No empty, '.' or '..' segment is left, and no trailing separator. */
  lemma FoldedIsClean(path: string)
    requires path != [] && path[0] == '/'
    ensures Clean(Fold([], Segments(path[1..])))
    ensures Folded(path) == "/" || Folded(path)[|Folded(path)| - 1] != '/'
  {
    FoldIsClean([], Segments(path[1..]));
    var stack := Fold([], Segments(path[1..]));
    if stack != [] {
      var last := stack[|stack| - 1];
      assert Plain(last) && last[|last| - 1] in last;
    }
  }

  lemma {:induction false} SlashIn(s: string, t: string)
    requires '/' !in s && (t == [] || t[0] == '/')
    ensures Slash(s + t) == |s|
  {
    if s == [] {
      assert s + t == t;
    } else {
      assert (s + t)[1..] == s[1..] + t;
      assert s[0] in s;
      SlashIn(s[1..], t);
    }
  }

  lemma {:induction false} SegmentsJoin(t: string, s: string)
    ensures Segments(t + "/" + s) == Segments(t) + Segments(s)
    decreases |t|
  {
    hide Segments, Slash;
    var k := Slash(t);
    var whole := t + "/" + s;
    SegmentsFrom(t);
    SlashOfSum(t, s);
    SegmentsFrom(whole);
    if k < |t| {
      SegmentsJoin(t[k + 1..], s);
      InTwo([t[..k]], Segments(t[k + 1..]), Segments(s));
      assert Segments(whole) == [t[..k]] + (Segments(t[k + 1..]) + Segments(s));
    } else {
      assert Segments(whole) == [t[..k]] + Segments(s);
    }
  }

  lemma InTwo(a: seq<string>, b: seq<string>, c: seq<string>)
    ensures (a + b) + c == a + (b + c)
  {
  }

  lemma SegmentsAppend(t: string, s: string)
    requires '/' !in s
    ensures Segments(t + "/" + s) == Segments(t) + [s]
  {
    hide Segments;
    SegmentsJoin(t, s);
    OneSegment(s);
  }

  /** The first separator of a text with a segment put after it. */
  lemma SlashOfSum(t: string, s: string)
    ensures var k := Slash(t);
            var whole := t + "/" + s;
            && Slash(whole) == k && whole[..k] == t[..k]
            && whole[k + 1..] == if k == |t| then s else t[k + 1..] + "/" + s
  {
    hide Slash;
    var k := Slash(t);
    Regrouped(t, k, s);
    SlashIn(t[..k], t[k..] + "/" + s);
    PartsOfSum(t[..k], t[k..] + "/" + s);
  }

  lemma Regrouped(t: string, k: nat, s: string)
    requires k <= |t|
    ensures t + "/" + s == t[..k] + (t[k..] + "/" + s)
    ensures (t[k..] + "/" + s)[1..] == if k == |t| then s else t[k + 1..] + "/" + s
  {
  }

  lemma PartsOfSum(a: string, b: string)
    ensures (a + b)[..|a|] == a && (a + b)[|a|..] == b
    ensures b != "" ==> (a + b)[|a| + 1..] == b[1..]
  {
  }

  lemma SegmentsFrom(t: string)
    ensures var k := Slash(t);
            Segments(t) == if k == |t| then [t[..k]] else [t[..k]] + Segments(t[k + 1..])
  {
    hide Slash;
  }

  lemma OneSegment(s: string)
    requires '/' !in s
    ensures Segments(s) == [s]
  {
    SlashIn(s, "");
    assert s + "" == s && s[..|s|] == s;
  }

  /** What was written reads back as the stack it was written from. */
  lemma {:induction false} SegmentsOfWritten(stack: seq<string>)
    requires Clean(stack) && stack != []
    ensures Segments(Written(stack)[1..]) == stack
  {
    hide Segments, Slash;
    var last := |stack| - 1;
    var s := stack[last];
    assert Plain(s) && stack == stack[..last] + [s];
    if last == 0 {
      assert Written(stack)[1..] == s;
      OneSegment(s);
    } else {
      SegmentsOfWritten(stack[..last]);
      SegmentsAppend(Written(stack[..last])[1..], s);
      TailOfSum(Written(stack[..last]), "/" + s);
      assert Written(stack) == Written(stack[..last]) + ("/" + s);
      assert Written(stack[..last])[1..] + ("/" + s) == Written(stack[..last])[1..] + "/" + s;
    }
  }

  lemma TailOfSum(a: string, b: string)
    requires a != []
    ensures (a + b)[1..] == a[1..] + b
  {
  }

  lemma {:induction false} FoldOfPlain(stack: seq<string>, segments: seq<string>)
    requires Clean(segments)
    ensures Fold(stack, segments) == stack + segments
    decreases |segments|
  {
    if segments != [] {
      assert Plain(segments[0]);
      FoldOfPlain(stack + [segments[0]], segments[1..]);
    }
  }

  lemma RendersBack(stack: seq<string>)
    requires Clean(stack)
    ensures Fold([], Segments(Render(stack)[1..])) == stack
  {
    if stack == [] {
      assert Render(stack)[1..] == "";
    } else {
      SegmentsOfWritten(stack);
      FoldOfPlain([], stack);
    }
  }

  /** Folding twice is folding once. */
  lemma FoldingIsIdempotent(path: string)
    requires path != [] && path[0] == '/'
    ensures Folded(Folded(path)) == Folded(path)
  {
    FoldedIsClean(path);
    RendersBack(Fold([], Segments(path[1..])));
  }

  /** Two spellings fold to the same text exactly where they name the same
      segments from the root. */
  lemma SameSpelling(path: string, other: string)
    requires path != [] && path[0] == '/' && other != [] && other[0] == '/'
    ensures Folded(path) == Folded(other) <==> Fold([], Segments(path[1..])) == Fold([], Segments(other[1..]))
  {
    FoldedIsClean(path);
    FoldedIsClean(other);
    RendersBack(Fold([], Segments(path[1..])));
    RendersBack(Fold([], Segments(other[1..])));
  }

  // ------------------------------------------------------------------
  // What it makes of a path, on its text alone

  lemma {:induction false} FoldJoin(stack: seq<string>, a: seq<string>, b: seq<string>)
    ensures Fold(stack, a + b) == Fold(Fold(stack, a), b)
    decreases |a|
  {
    if a == [] {
      assert a + b == b;
    } else {
      assert (a + b)[1..] == a[1..] + b;
      FoldJoin(Step(stack, a[0]), a[1..], b);
    }
  }

  lemma StackOfJoin(path: string, rest: string)
    requires path != "" && path[0] == '/'
    ensures Fold([], Segments((path + "/" + rest)[1..])) == Fold(Fold([], Segments(path[1..])), Segments(rest))
  {
    hide Fold, Segments;
    assert (path + "/" + rest)[1..] == path[1..] + "/" + rest;
    SegmentsJoin(path[1..], rest);
    FoldJoin([], Segments(path[1..]), Segments(rest));
  }

  /** A segment put after a path: an empty one and a '.' change nothing, any other but
      '..' is put after what the path folds to, and a '..' after that takes it away
      again and no more; at the root it takes nothing. */
  lemma FoldingMeans(path: string, s: string)
    requires path != "" && path[0] == '/' && s != "" && s != "." && s != ".." && '/' !in s
    ensures Folded(path + "/" + s) == (if Folded(path) == "/" then "" else Folded(path)) + "/" + s
    ensures Folded(path + "/" + s + "/..") == Folded(path)
    ensures Folded(path + "/") == Folded(path + "/.") == Folded(path)
    ensures Folded(path) == "/" ==> Folded(path + "/..") == "/"
    ensures Folded("/") == "/" && Folded("/..") == "/"
  {
    hide Fold, Segments, Render, Step;
    var stack := Fold([], Segments(path[1..]));
    OneSegment(s);
    OneSegment("");
    OneSegment(".");
    OneSegment("..");
    FoldOfOne(stack, s);
    FoldOfOne(stack, "");
    FoldOfOne(stack, ".");
    FoldOfOne(stack, "..");
    FoldOfOne(stack + [s], "..");
    StackOfJoin(path, s);
    StackOfJoin(path, "");
    StackOfJoin(path, ".");
    StackOfJoin(path, "..");
    StackOfJoin(path + "/" + s, "..");
    assert path + "/" + "" == path + "/" && path + "/" + "." == path + "/." && path + "/" + ".." == path + "/..";
    assert path + "/" + s + "/" + ".." == path + "/" + s + "/..";
    RenderPush(stack, s);
    RenderRoot(stack, path);
    OnlyRoot();
  }

  lemma FoldOfOne(stack: seq<string>, s: string)
    ensures Fold(stack, [s]) ==
            if s == "" || s == "." then stack
            else if s == ".." then (if stack == [] then [] else stack[..|stack| - 1])
            else stack + [s]
  {
    assert Fold(stack, [s]) == Fold(Step(stack, s), []);
  }

  lemma RenderRoot(stack: seq<string>, path: string)
    requires path != "" && path[0] == '/' && stack == Fold([], Segments(path[1..]))
    ensures Render(stack) == "/" <==> stack == []
    ensures Written(stack) == if Render(stack) == "/" then "" else Render(stack)
  {
    hide Fold, Segments;
    FoldedIsClean(path);
    if stack != [] {
      LastPart(stack);
    }
  }

  lemma OnlyRoot()
    ensures Folded("/") == "/" && Folded("/..") == "/"
  {
    assert "/"[1..] == "" && "/.."[1..] == "..";
    OneSegment("");
    OneSegment("..");
    FoldOfOne([], "");
    FoldOfOne([], "..");
  }

  /** And whatever goes on after it goes on from there: what two paths fold alike to,
      they fold alike to with the same text after them. */
  lemma FoldingGoesOn(path: string, other: string, rest: string)
    requires path != "" && path[0] == '/' && other != "" && other[0] == '/' && Folded(path) == Folded(other)
    ensures Folded(path + "/" + rest) == Folded(other + "/" + rest)
  {
    hide Fold, Segments, Render;
    SameSpelling(path, other);
    StackOfJoin(path, rest);
    StackOfJoin(other, rest);
  }

  // ------------------------------------------------------------------
  // The buffer

  /** Characters moving back over the buffer they are read from. */
  method MoveBack(buffer: array<char>, to: nat, from: nat, count: nat)
    requires to <= from && from + count <= buffer.Length
    modifies buffer
    ensures buffer[..to] == old(buffer[..to])
    ensures buffer[to..to + count] == old(buffer[from..from + count])
    ensures buffer[from + count..] == old(buffer[from + count..])
  {
    ghost var was := buffer[..];
    for i := 0 to count
      invariant buffer[..] == Moved(was, to, from, i)
    {
      MovedOneMore(was, to, from, i);
      buffer[to + i] := buffer[from + i];
    }
    assert buffer[..to] == buffer[..][..to] && buffer[to..to + count] == buffer[..][to..to + count];
    assert buffer[from + count..] == buffer[..][from + count..];
  }

  ghost function Moved(was: string, to: nat, from: nat, i: nat): (now: string)
    requires to <= from && from + i <= |was|
    ensures |now| == |was|
  {
    was[..to] + was[from..from + i] + was[to + i..]
  }

  lemma MovedOneMore(was: string, to: nat, from: nat, i: nat)
    requires to <= from && from + i < |was|
    ensures var now := Moved(was, to, from, i);
            now[from + i] == was[from + i] && Moved(was, to, from, i + 1) == now[to + i := was[from + i]]
  {
  }

  /** The last segment of what was written, and the separator before it. */
  lemma LastPart(stack: seq<string>)
    requires Clean(stack) && stack != []
    ensures var keep := |Written(stack[..|stack| - 1])|;
            && Render(stack) == Written(stack[..|stack| - 1]) + "/" + stack[|stack| - 1]
            && keep + 1 < |Render(stack)| && Render(stack)[keep] == '/'
            && (forall j | keep < j < |Render(stack)| :: Render(stack)[j] != '/')
            && Render(stack)[..keep] == Written(stack[..|stack| - 1])
            && (|stack| > 1 <==> keep > 0)
  {
    var s := stack[|stack| - 1];
    assert Plain(s);
    var keep := |Written(stack[..|stack| - 1])|;
    forall j | keep < j < |Render(stack)| ensures Render(stack)[j] != '/' {
      assert Render(stack)[j] == s[j - keep - 1] && s[j - keep - 1] in s;
    }
  }

  /** Where the write cursor goes for a '..': back over the last segment, and over
      the separator that led into it. */
  method Back(buffer: array<char>, end: nat, ghost stack: seq<string>) returns (w: nat)
    requires Clean(stack) && 1 <= end <= buffer.Length && buffer[..end] == Render(stack)
    ensures 1 <= w <= end && buffer[..w] == Render(Step(stack, "..")) && (stack != [] ==> w < end)
  {
    w := end;
    ghost var keep := if stack == [] then 0 else |Written(stack[..|stack| - 1])|;
    if stack != [] {
      LastPart(stack);
    }
    assert forall j | 0 <= j < end :: buffer[j] == Render(stack)[j];
    while w > 1 && buffer[w - 1] != '/'
      invariant 1 <= w <= end && (stack == [] ==> w == 1)
      invariant stack != [] ==> keep < w
    {
      w := w - 1;
    }
    if w > 1 {
      w := w - 1;
    }
    if stack != [] {
      assert w == if keep == 0 then 1 else keep;
      assert buffer[..w] == Render(stack)[..w];
    }
  }

  /** The separator a segment is led in by, where there is none yet, and the
      segment. */
  method Put(buffer: array<char>, end: nat, begin: nat, count: nat, ghost stack: seq<string>) returns (w: nat)
    requires Clean(stack) && 1 <= end && end + (if stack == [] then 0 else 1) <= begin
    requires begin + count <= buffer.Length && buffer[..end] == Render(stack)
    requires Plain(buffer[begin..begin + count])
    modifies buffer
    ensures 1 <= w <= begin + count && buffer[..w] == Render(stack + [old(buffer[begin..begin + count])])
    ensures buffer[begin + count..] == old(buffer[begin + count..])
  {
    hide Render, Written;
    w := end;
    LedIn(stack);
    ghost var segment := buffer[begin..begin + count];
    ghost var rest := buffer[begin + count..];
    assert buffer[w - 1] == buffer[..w][w - 1];
    if buffer[w - 1] != '/' {
      buffer[w] := '/';
      w := w + 1;
    }
    assert buffer[..w] == Written(stack) + "/";
    assert buffer[begin..begin + count] == segment && buffer[begin + count..] == rest;
    MoveBack(buffer, w, begin, count);
    assert buffer[..w + count] == buffer[..w] + buffer[w..w + count];
    w := w + count;
    RenderPush(stack, segment);
  }

  lemma RenderPush(stack: seq<string>, segment: string)
    ensures Render(stack + [segment]) == Written(stack) + "/" + segment
  {
    assert (stack + [segment])[..|stack|] == stack;
  }

  /** What is written ends in a separator exactly at the root. */
  lemma LedIn(stack: seq<string>)
    requires Clean(stack)
    ensures var t := Render(stack);
            if t[|t| - 1] == '/' then stack == [] && t == Written(stack) + "/"
            else stack != [] && t == Written(stack)
  {
    if stack != [] {
      LastPart(stack);
    }
  }

  /** One segment taken from the text still to be read. */
  lemma TakeSegment(stack: seq<string>, rest: string, k: nat)
    requires k == Slash(rest)
    ensures Fold(stack, Segments(rest)) ==
            Fold(Step(stack, rest[..k]), Segments(if k == |rest| then "" else rest[k + 1..]))
  {
    hide Segments, Slash;
    SegmentsFrom(rest);
    var segments := Segments(rest);
    assert segments[0] == rest[..k];
    if k == |rest| {
      assert segments[1..] == [];
      NothingLeft(Step(stack, rest[..k]));
    } else {
      assert segments[1..] == Segments(rest[k + 1..]);
    }
  }

  /** Reading a segment ends where the first separator is. */
  lemma SlashAt(t: string, k: nat)
    requires k <= |t| && '/' !in t[..k] && (k == |t| || t[k] == '/')
    ensures Slash(t) == k
  {
    assert t == t[..k] + t[k..];
    SlashIn(t[..k], t[k..]);
  }

  /** What one segment does to what has been written. */
  method TakeStep(buffer: array<char>, end: nat, begin: nat, count: nat, ghost stack: seq<string>) returns (w: nat)
    requires Clean(stack) && 1 <= end && end + (if stack == [] then 0 else 1) <= begin
    requires begin + count <= buffer.Length && buffer[..end] == Render(stack)
    requires '/' !in buffer[begin..begin + count]
    modifies buffer
    ensures var stack' := Step(stack, old(buffer[begin..begin + count]));
            Clean(stack') && 1 <= w <= begin + count && buffer[..w] == Render(stack')
    ensures buffer[begin + count..] == old(buffer[begin + count..])
  {
    w := end;
    ghost var segment := buffer[begin..begin + count];
    if count == 0 || (count == 1 && buffer[begin] == '.') {
      assert segment == "" || segment == ".";
    } else if count == 2 && buffer[begin] == '.' && buffer[begin + 1] == '.' {
      assert segment == "..";
      w := Back(buffer, w, stack);
    } else {
      assert count == 1 ==> segment[0] == buffer[begin];
      assert count == 2 ==> segment[0] == buffer[begin] && segment[1] == buffer[begin + 1];
      w := Put(buffer, w, begin, count, stack);
    }
  }

  /** The end of the segment a cursor stands at. */
  method SegmentEnd(buffer: array<char>, begin: nat) returns (r: nat)
    requires begin <= buffer.Length
    ensures begin <= r <= buffer.Length && r - begin == Slash(buffer[begin..])
  {
    r := begin;
    while r < buffer.Length && buffer[r] != '/'
      invariant begin <= r <= buffer.Length
      invariant '/' !in buffer[begin..r]
    {
      r := r + 1;
    }
    assert buffer[begin..][..r - begin] == buffer[begin..r];
    SlashAt(buffer[begin..], r - begin);
  }

  /** One segment of the buffer, and the separator after it: `next` is what has
      been kept, and what is still to be read folds onto it. */
  method FoldOne(joined: array<char>, end: nat, begin: nat, ghost stack: seq<string>)
    returns (w: nat, r: nat, ghost next: seq<string>)
    requires 1 <= end <= begin < joined.Length && (stack != [] ==> end < begin)
    requires Clean(stack) && joined[..end] == Render(stack)
    modifies joined
    ensures 1 <= w <= r <= joined.Length && begin < r
    ensures Clean(next) && joined[..w] == Render(next)
    ensures r < joined.Length && next != [] ==> w < r
    ensures Fold(next, Segments(joined[r..])) == Fold(stack, Segments(old(joined[begin..])))
  {
    hide Fold, Segments, Render, Slash, Step, Clean;
    ghost var rest := joined[begin..];
    r := SegmentEnd(joined, begin);
    var k := r - begin;
    ghost var segment := joined[begin..r];
    assert rest[..k] == segment && rest[k..] == joined[r..];
    TakeSegment(stack, rest, k);
    w := TakeStep(joined, end, begin, k, stack);
    next := Step(stack, segment);
    TailOfTail(joined[..], r);
    TailOfTail(rest, k);
    if r < joined.Length {
      r := r + 1;
    }
  }

  lemma TailOfTail(t: string, k: nat)
    requires k <= |t|
    ensures if k == |t| then t[k..] == "" else t[k..][1..] == t[k + 1..]
  {
  }

  /** The folding itself, over the buffer it reads: the write cursor stays behind
      the one reading. Answers how much of the buffer is the answer. */
  method FoldInPlace(joined: array<char>) returns (w: nat)
    requires joined.Length > 0 && joined[0] == '/'
    modifies joined
    ensures 1 <= w <= joined.Length
    ensures joined[..w] == Folded(old(joined[..]))
  {
    hide Fold, Segments, Render, Slash, Step;
    ghost var stack: seq<string> := [];
    ghost var path := joined[..];
    w := 1;
    var r := 1;
    RootIs(path);
    assert joined[..1] == path[..1] && joined[1..] == path[1..];
    while r < joined.Length
      invariant 1 <= w <= r <= joined.Length
      invariant Clean(stack) && joined[..w] == Render(stack)
      invariant r < joined.Length && stack != [] ==> w < r
      invariant Fold(stack, Segments(joined[r..])) == Fold([], Segments(path[1..]))
    {
      w, r, stack := FoldOne(joined, w, r, stack);
    }
    assert joined[r..] == "";
    NothingLeft(stack);
    FoldedIsClean(path);
    // No trailing separator is ever left to take off here.
    assert joined[..w][w - 1] == joined[w - 1];
    assert w == 1 || joined[w - 1] != '/';
  }

  lemma RootIs(path: string)
    requires path != [] && path[0] == '/'
    ensures path[..1] == Render([])
  {
  }

  lemma NothingLeft(stack: seq<string>)
    ensures Fold(stack, Segments("")) == stack
  {
    assert Segments("") == [""];
    assert Fold(stack, [""]) == Fold(stack, []);
  }

  // ------------------------------------------------------------------
  // Any path

  /** absolute_textual: a relative path starts where the process stands, and one
      too long for the buffer is answered as it was given. */
  method AbsoluteTextual(path: string, cwd: Option<string>, room: nat) returns (answer: string)
    requires cwd.Some? ==> cwd.value != "" && cwd.value[0] == '/'
    ensures var joined := Joined(path, cwd);
            answer == if joined.Some? && |joined.value| < room then Folded(joined.value) else path
  {
    var joined := path;
    if path == "" || path[0] != '/' {
      if cwd.None? {
        return path;
      }
      joined := cwd.value + "/" + path;
    }
    if |joined| >= room {
      return path;
    }
    var buffer := new char[|joined|](i requires 0 <= i < |joined| => joined[i]);
    assert buffer[..] == joined;
    var w := FoldInPlace(buffer);
    answer := buffer[..w];
  }

  function Joined(path: string, cwd: Option<string>): (joined: Option<string>)
    requires cwd.Some? ==> cwd.value != "" && cwd.value[0] == '/'
    ensures joined.Some? ==> joined.value != "" && joined.value[0] == '/'
  {
    if path != "" && path[0] == '/' then Some(path)
    else
      match cwd
      case Some(at) => Some(at + "/" + path)
      case None => None
  }

  /** A relative path names what it does below where the process stands, which the
      empty one and '.' name themselves; without such a place it stays as it is. */
  lemma RelativeMeans(cwd: string, s: string)
    requires cwd != "" && cwd[0] == '/' && s != "" && s != "." && s != ".." && '/' !in s
    ensures Joined(s, None).None? && Joined("", None).None? && Joined(cwd, None) == Joined(cwd, Some(cwd)) == Some(cwd)
    ensures var below := Joined(s, Some(cwd));
            below.Some? && Folded(below.value) == (if Folded(cwd) == "/" then "" else Folded(cwd)) + "/" + s
    ensures Joined("", Some(cwd)).Some? && Folded(Joined("", Some(cwd)).value) == Folded(cwd)
    ensures Joined(".", Some(cwd)).Some? && Folded(Joined(".", Some(cwd)).value) == Folded(cwd)
  {
    hide Folded;
    assert s[0] in s;
    FoldingMeans(cwd, s);
    assert cwd + "/" + "" == cwd + "/" && cwd + "/" + "." == cwd + "/.";
  }

  /** However a path gets its folding, asking again changes nothing. */
  lemma AskingAgain(path: string, cwd: Option<string>)
    requires cwd.Some? ==> cwd.value != "" && cwd.value[0] == '/'
    requires Joined(path, cwd).Some?
    ensures var once := Folded(Joined(path, cwd).value);
            Joined(once, cwd) == Some(once) && Folded(once) == once
  {
    FoldingIsIdempotent(Joined(path, cwd).value);
  }
}
