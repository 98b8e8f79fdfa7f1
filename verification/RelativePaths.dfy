/** A path written from the directory of the unit that asks for it
    (lsp/completion.c, lsp_completion_relative_path). */
module RelativePaths {
  import opened Wrappers
  import PathFolding

  // ------------------------------------------------------------------
  // What a written path names

  /** Up to the last separator and it with it: the directory a path stands in. */
  function Directory(path: string): (dir: string)
    ensures dir <= path && (dir == "" || dir[|dir| - 1] == '/')
    ensures forall i | |dir| <= i < |path| :: path[i] != '/'
  {
    if path == "" || path[|path| - 1] == '/' then path else Directory(path[..|path| - 1])
  }

  /** One step up from a directory written with its last separator. */
  function Up(dir: string): (up: string)
    ensures up <= dir && (up == "" || up[|up| - 1] == '/')
    ensures dir != "" ==> |up| < |dir|
  {
    if dir == "" then "" else Directory(dir[..|dir| - 1])
  }

  function Popped(dir: string, k: nat): (popped: string)
    ensures popped <= dir
    ensures (dir == "" || dir[|dir| - 1] == '/') ==> popped == "" || popped[|popped| - 1] == '/'
    decreases k
  {
    if k == 0 then dir else Popped(Up(dir), k - 1)
  }

  predicate StartsUp(written: string) {
    |written| >= 3 && written[0] == '.' && written[1] == '.' && written[2] == '/'
  }

  /** What a written path names from a directory: a step up for each '../' it
      begins with, and the rest below. */
  function Resolve(dir: string, written: string): string
    decreases |written|
  {
    if StartsUp(written) then Resolve(Up(dir), written[3..]) else dir + written
  }

  // ------------------------------------------------------------------
  // What two paths share

  predicate Shares(a: string, b: string, n: nat) {
    n <= |a| && n <= |b| && a[..n] == b[..n] && (n == 0 || a[n - 1] == '/')
  }

  /** shared_prefix: the longest directory both begin with. */
  method SharedPrefix(a: string, b: string) returns (lastSlash: nat)
    ensures Shares(a, b, lastSlash)
    ensures forall n: nat | Shares(a, b, n) :: n <= lastSlash
  {
    lastSlash := 0;
    var at := 0;
    while at < |a| && at < |b| && a[at] == b[at]
      invariant lastSlash <= at <= |a| && at <= |b| && a[..at] == b[..at]
      invariant Shares(a, b, lastSlash)
      invariant forall n: nat | Shares(a, b, n) && n <= at :: n <= lastSlash
    {
      assert a[..at + 1] == a[..at] + [a[at]] && b[..at + 1] == b[..at] + [b[at]];
      if a[at] == '/' {
        lastSlash := at + 1;
      }
      at := at + 1;
    }
    forall n: nat | Shares(a, b, n) ensures n <= at {
      if n > at {
        SharedAt(a, b, at, n);
      }
    }
  }

  lemma SharedAt(a: string, b: string, at: nat, n: nat)
    requires Shares(a, b, n) && at < n
    ensures a[at] == b[at]
  {
    assert a[..n][at] == b[..n][at];
  }

  predicate LongestShared(a: string, b: string, n: nat) {
    Shares(a, b, n) && forall m | n < m <= |a| :: !Shares(a, b, m)
  }

  function Slashes(t: string): nat {
    if t == "" then 0 else Slashes(t[..|t| - 1]) + if t[|t| - 1] == '/' then 1 else 0
  }

  function Ups(k: nat): (written: string)
    ensures |written| == 3 * k
  {
    if k == 0 then "" else "../" + Ups(k - 1)
  }

  // ------------------------------------------------------------------
  // What popping leaves

  lemma {:induction false} SlashesAppend(a: string, b: string)
    ensures Slashes(a + b) == Slashes(a) + Slashes(b)
    decreases |b|
  {
    if b == "" {
      assert a + b == a;
    } else {
      assert (a + b)[..|a + b| - 1] == a + b[..|b| - 1];
      SlashesAppend(a, b[..|b| - 1]);
    }
  }

  lemma {:induction false} NoSlashes(t: string)
    requires forall i | 0 <= i < |t| :: t[i] != '/'
    ensures Slashes(t) == 0
    decreases |t|
  {
    if t != "" {
      NoSlashes(t[..|t| - 1]);
    }
  }

  /** A step up takes one separator off a directory. */
  lemma UpTakesOne(dir: string)
    requires dir != "" && dir[|dir| - 1] == '/'
    ensures Slashes(Up(dir)) + 1 == Slashes(dir)
  {
    var rest := dir[..|dir| - 1];
    var up := Up(dir);
    var name := rest[|up|..];
    assert rest == up + name;
    forall i | 0 <= i < |name| ensures name[i] != '/' {
      assert name[i] == rest[|up| + i];
    }
    NoSlashes(name);
    SlashesAppend(up, name);
  }

  /** As many steps up as there are separators past a directory of it come to that
      directory, and fewer stop below it. */
  lemma {:induction false} PoppedTo(dir: string, n: nat, k: nat)
    requires dir == "" || dir[|dir| - 1] == '/'
    requires n <= |dir| && (n == 0 || dir[n - 1] == '/')
    requires k <= Slashes(dir[n..])
    ensures |Popped(dir, k)| >= n
    ensures |Popped(dir, k)| == n <==> k == Slashes(dir[n..])
    decreases k
  {
    hide Slashes, Up;
    SlashPast(dir, n);
    if n < |dir| && k > 0 {
      UpStaysPast(dir, n);
      UpSlashes(dir, n);
      PoppedTo(Up(dir), n, k - 1);
    }
  }

  lemma SlashPast(dir: string, n: nat)
    requires dir == "" || dir[|dir| - 1] == '/'
    requires n <= |dir|
    ensures n == |dir| <==> Slashes(dir[n..]) == 0
  {
    if n < |dir| {
      var tail := dir[n..];
      assert tail[|tail| - 1] == '/';
    }
  }

  lemma UpSlashes(dir: string, n: nat)
    requires dir != "" && dir[|dir| - 1] == '/' && n <= |Up(dir)|
    ensures Slashes(Up(dir)[n..]) + 1 == Slashes(dir[n..])
  {
    UpTakesOne(dir);
    SplitSlashes(dir, n);
    SplitSlashes(Up(dir), n);
    assert Up(dir)[..n] == dir[..n];
  }

  lemma SplitSlashes(t: string, n: nat)
    requires n <= |t|
    ensures Slashes(t) == Slashes(t[..n]) + Slashes(t[n..])
  {
    assert t == t[..n] + t[n..];
    SlashesAppend(t[..n], t[n..]);
  }

  lemma UpStaysPast(dir: string, n: nat)
    requires n < |dir| && (n == 0 || dir[n - 1] == '/')
    ensures |Up(dir)| >= n && (n > 0 ==> Up(dir)[n - 1] == '/')
  {
    var rest := dir[..|dir| - 1];
    assert n > 0 ==> rest[n - 1] == '/';
  }

  lemma {:induction false} ResolveUps(dir: string, k: nat, rest: string)
    ensures Resolve(dir, Ups(k) + rest) == Resolve(Popped(dir, k), rest)
    decreases k
  {
    if k > 0 {
      assert (Ups(k) + rest)[3..] == Ups(k - 1) + rest;
      ResolveUps(Up(dir), k - 1, rest);
    } else {
      assert Ups(k) + rest == rest;
    }
  }

  lemma {:induction false} ResolveShrinks(dir: string, written: string)
    ensures |Resolve(dir, written)| <= |dir| + |written|
    ensures StartsUp(written) ==> |Resolve(dir, written)| < |dir| + |written|
    decreases |written|
  {
    if StartsUp(written) {
      ResolveShrinks(Up(dir), written[3..]);
    }
  }

  lemma ResolveBelow(dir: string, written: string)
    ensures Resolve(dir, written) == dir + written <==> !StartsUp(written)
  {
    ResolveShrinks(dir, written);
  }

  // ------------------------------------------------------------------
  // The path written

  /** What is written for `target` from `base`: as many '../' as separators stand
      past what they share, and the rest of the target. */
  function Written(base: string, target: string, shared: nat): string
    requires shared <= |base| && shared <= |target|
  {
    Ups(Slashes(base[shared..])) + target[shared..]
  }

  /** lsp_completion_relative_path: `room` is what is allocated, the end mark
      counted, and all of it is written. */
  method RelativePath(from: string, target: string) returns (written: string, room: nat)
    ensures exists shared :: LongestShared(Directory(from), target, shared) &&
                             written == Written(Directory(from), target, shared)
    ensures |written| + 1 == room
  {
    var base := FindDirectory(from);
    var shared := SharedPrefix(base, target);
    assert LongestShared(base, target, shared);
    var ups := CountSlashes(base, shared);
    var tail := target[shared..];
    room := ups * 3 + |tail| + 1;
    var buffer := new char[room];
    FillUps(buffer, ups);
    var used := ups * 3;
    Append(buffer, used, tail);
    buffer[used + |tail|] := '\0';
    written := buffer[..room - 1];
  }

  method CountSlashes(base: string, shared: nat) returns (ups: nat)
    requires shared <= |base|
    ensures ups == Slashes(base[shared..])
  {
    ups := 0;
    for at := shared to |base|
      invariant ups == Slashes(base[shared..at])
    {
      assert base[shared..at + 1][..at - shared] == base[shared..at];
      if base[at] == '/' {
        ups := ups + 1;
      }
    }
    assert base[shared..|base|] == base[shared..];
  }

  method Append(buffer: array<char>, used: nat, tail: string)
    requires used + |tail| <= buffer.Length
    modifies buffer
    ensures buffer[..used + |tail|] == old(buffer[..used]) + tail
  {
    for i := 0 to |tail|
      invariant buffer[..used + i] == old(buffer[..used]) + tail[..i]
    {
      buffer[used + i] := tail[i];
    }
    assert tail[..|tail|] == tail;
  }

  method FindDirectory(path: string) returns (dir: string)
    ensures dir == Directory(path)
  {
    var at: nat := |path|;
    assert path[..at] == path;
    while at > 0 && path[at - 1] != '/'
      invariant at <= |path| && Directory(path[..at]) == Directory(path)
    {
      assert path[..at][..at - 1] == path[..at - 1];
      at := at - 1;
    }
    dir := path[..at];
  }

  method FillUps(buffer: array<char>, ups: nat)
    requires 3 * ups <= buffer.Length
    modifies buffer
    ensures buffer[..3 * ups] == Ups(ups)
  {
    for i := 0 to ups
      invariant buffer[..3 * i] == Ups(i)
    {
      UpsOneMore(i);
      buffer[3 * i], buffer[3 * i + 1], buffer[3 * i + 2] := '.', '.', '/';
      assert buffer[..3 * (i + 1)] == buffer[..3 * i] + "../";
    }
  }

  lemma {:induction false} UpsOneMore(k: nat)
    ensures Ups(k + 1) == Ups(k) + "../"
  {
    if k > 0 {
      UpsOneMore(k - 1);
      assert Ups(k + 1) == "../" + Ups(k);
      assert "../" + (Ups(k - 1) + "../") == ("../" + Ups(k - 1)) + "../";
    }
  }

  /** Read from the directory it is written for, the path is exactly the target --
      unless what is past the shared directory itself begins with a '../', which
      no folded path does. */
  lemma NamesTheTargetIff(base: string, target: string, shared: nat)
    requires base == "" || base[|base| - 1] == '/'
    requires Shares(base, target, shared)
    ensures Resolve(base, Written(base, target, shared)) == target <==> !StartsUp(target[shared..])
  {
    hide Slashes, Popped, Ups, Resolve;
    var ups := Slashes(base[shared..]);
    PoppedTo(base, shared, ups);
    ResolveUps(base, ups, target[shared..]);
    assert Popped(base, ups) == base[..shared] == target[..shared];
    ResolveBelow(target[..shared], target[shared..]);
    assert target == target[..shared] + target[shared..];
  }

  /** No way of writing it has fewer '../'. */
  lemma FewestUps(base: string, target: string, shared: nat, k: nat, rest: string)
    requires base == "" || base[|base| - 1] == '/'
    requires LongestShared(base, target, shared)
    requires Popped(base, k) + rest == target
    ensures k >= Slashes(base[shared..])
  {
    if k < Slashes(base[shared..]) {
      PoppedTo(base, shared, k);
      var popped := Popped(base, k);
      assert target[..|popped|] == popped == base[..|popped|];
      assert Shares(base, target, |popped|);
    }
  }

  predicate StepsUpAt(t: string, i: nat) {
    i + 4 <= |t| && t[i] == '/' && t[i + 1] == '.' && t[i + 2] == '.' && t[i + 3] == '/'
  }

  /** Past a directory of an absolute path, a '../' is what is left of a '/../'. */
  lemma StartsUpWhere(target: string, shared: nat)
    requires shared <= |target| && (shared == 0 || target[shared - 1] == '/')
    requires target != "" && target[0] == '/' && StartsUp(target[shared..])
    ensures shared > 0 && StepsUpAt(target, shared - 1)
  {
    var rest := target[shared..];
    assert forall n | 0 <= n < |rest| :: rest[n] == target[shared + n];
  }

  /** Clean segments written one after another hold no '/../', a separator at
      their end or not. */
  lemma {:induction false} CleanNeverStepsUp(stack: seq<string>)
    requires PathFolding.Clean(stack)
    ensures forall i: nat :: !StepsUpAt(PathFolding.Written(stack) + "/", i)
  {
    if stack != [] {
      var last := |stack| - 1;
      var front, s := PathFolding.Written(stack[..last]), stack[last];
      assert PathFolding.Plain(s);
      CleanNeverStepsUp(stack[..last]);
      assert PathFolding.Written(stack) + "/" == front + "/" + s + "/";
      forall i: nat ensures !StepsUpAt(front + "/" + s + "/", i) {
        OneMoreNeverStepsUp(front, s, i);
      }
    }
  }

  lemma OneMoreNeverStepsUp(front: string, s: string, i: nat)
    requires PathFolding.Plain(s) && !StepsUpAt(front + "/", i)
    ensures !StepsUpAt(front + "/" + s + "/", i)
  {
    var t := front + "/" + s + "/";
    assert forall k | 0 <= k < |s| :: t[|front| + 1 + k] == s[k] && s[k] in s;
    assert |s| == 2 && s[0] == '.' && s[1] == '.' ==> s == "..";
    assert t[..|front| + 1] == front + "/";
  }

  /** The path written for a folded target, read from the directory of whatever
      unit it is for, is that target. */
  lemma FoldedNamesTheTarget(from: string, path: string, shared: nat)
    requires path != "" && path[0] == '/'
    requires Shares(Directory(from), PathFolding.Folded(path), shared)
    ensures var target := PathFolding.Folded(path);
            Resolve(Directory(from), Written(Directory(from), target, shared)) == target
  {
    hide Slashes, Ups, Resolve, PathFolding.Fold, PathFolding.Segments, PathFolding.Written;
    var target := PathFolding.Folded(path);
    var stack := PathFolding.Fold([], PathFolding.Segments(path[1..]));
    NamesTheTargetIff(Directory(from), target, shared);
    if StartsUp(target[shared..]) {
      StartsUpWhere(target, shared);
      assert target == PathFolding.Written(stack);
      assert StepsUpAt(PathFolding.Written(stack) + "/", shared - 1);
      PathFolding.FoldedIsClean(path);
      CleanNeverStepsUp(stack);
    }
  }
}
