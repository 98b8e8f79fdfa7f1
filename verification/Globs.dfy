/** The exclusion patterns of lhat-lsp.json: the backtracking matcher against the
    language a pattern spells, and what the settings exclude (lsp/settings.c). */
module Globs {
  import opened Wrappers

  // ------------------------------------------------------------------
  // What a pattern means

  datatype Token = Literal(c: char) | Star | Globstar

  /** '**' takes a '/' after it into itself; everything but '*' is literal. */
  function Tokens(p: string): seq<Token>
    decreases |p|
  {
    if p == [] then []
    else if p[0] != '*' then [Literal(p[0])] + Tokens(p[1..])
    else if |p| >= 2 && p[1] == '*' then
      [Globstar] + Tokens(if |p| >= 3 && p[2] == '/' then p[3..] else p[2..])
    else [Star] + Tokens(p[1..])
  }

  /** The texts a pattern spells, whole: '*' any run within a segment, '**' any
      run at all. */
  ghost predicate Spells(tokens: seq<Token>, s: string)
    decreases |tokens|
  {
    if tokens == [] then s == []
    else
      match tokens[0]
      case Literal(c) => s != [] && s[0] == c && Spells(tokens[1..], s[1..])
      case Star => exists k :: 0 <= k <= |s| && '/' !in s[..k] && Spells(tokens[1..], s[k..])
      case Globstar => exists k :: 0 <= k <= |s| && Spells(tokens[1..], s[k..])
  }

  /** The path itself or a directory it is under: a prefix that ends where a
      segment does. */
  predicate Ancestor(r: string, n: nat) {
    n <= |r| && (n == |r| || r[n] == '/')
  }

  ghost predicate Matches(tokens: seq<Token>, r: string) {
    exists n :: 0 <= n <= |r| && Ancestor(r, n) && Spells(tokens, r[..n])
  }

  /** Naming a path is naming everything under it. */
  lemma MatchesUnder(tokens: seq<Token>, r: string, below: string)
    requires Matches(tokens, r)
    ensures Matches(tokens, r + "/" + below)
  {
    var n :| 0 <= n <= |r| && Ancestor(r, n) && Spells(tokens, r[..n]);
    var under := r + "/" + below;
    assert under[..n] == r[..n];
    assert Ancestor(under, n);
  }

  /** "**" + "/name" is also "name". */
  lemma GlobstarIsAlsoNothing(rest: string, r: string)
    requires Matches(Tokens(rest), r)
    ensures Matches(Tokens("**/" + rest), r)
  {
    var p := "**/" + rest;
    assert p[3..] == rest;
    var n :| 0 <= n <= |r| && Ancestor(r, n) && Spells(Tokens(rest), r[..n]);
    assert r[..n][0..] == r[..n];
    assert (([Globstar] + Tokens(rest))[1..]) == Tokens(rest);
    assert Spells(Tokens(p), r[..n]);
  }

  // ------------------------------------------------------------------
  // One token at a time

  lemma NothingLeft(r: string)
    ensures Matches([], r) <==> r == [] || r[0] == '/'
  {
    if r == [] || r[0] == '/' {
      assert Ancestor(r, 0) && Spells([], r[..0]);
    }
  }

  lemma OneLiteral(c: char, tokens: seq<Token>, r: string)
    ensures Matches([Literal(c)] + tokens, r) <==> r != [] && r[0] == c && Matches(tokens, r[1..])
  {
    var all := [Literal(c)] + tokens;
    assert all[1..] == tokens;
    if Matches(all, r) {
      var n :| 0 <= n <= |r| && Ancestor(r, n) && Spells(all, r[..n]);
      assert r[..n][1..] == r[1..][..n - 1];
      assert Ancestor(r[1..], n - 1);
    }
    if r != [] && r[0] == c && Matches(tokens, r[1..]) {
      var n :| 0 <= n <= |r[1..]| && Ancestor(r[1..], n) && Spells(tokens, r[1..][..n]);
      assert r[..n + 1][1..] == r[1..][..n];
      assert Ancestor(r, n + 1) && Spells(all, r[..n + 1]);
    }
  }

  /** The first `k` characters are a run of this wildcard's. */
  predicate RunOf(token: Token, r: string, k: nat) {
    k <= |r| && (token.Star? ==> '/' !in r[..k])
  }

  lemma OneWildcard(token: Token, tokens: seq<Token>, r: string)
    requires !token.Literal?
    ensures Matches([token] + tokens, r) <==> exists k :: 0 <= k <= |r| && RunOf(token, r, k) && Matches(tokens, r[k..])
  {
    var all := [token] + tokens;
    assert all[1..] == tokens;
    if Matches(all, r) {
      var n :| 0 <= n <= |r| && Ancestor(r, n) && Spells(all, r[..n]);
      var s := r[..n];
      var k :| 0 <= k <= |s| && (token.Star? ==> '/' !in s[..k]) && Spells(tokens, s[k..]);
      assert s[..k] == r[..k] && s[k..] == r[k..][..n - k];
      assert Ancestor(r[k..], n - k);
      assert RunOf(token, r, k) && Matches(tokens, r[k..]);
    }
    if k :| 0 <= k <= |r| && RunOf(token, r, k) && Matches(tokens, r[k..]) {
      var n :| 0 <= n <= |r[k..]| && Ancestor(r[k..], n) && Spells(tokens, r[k..][..n]);
      var s := r[..k + n];
      assert s[..k] == r[..k] && s[k..] == r[k..][..n];
      assert Ancestor(r, k + n) && Spells(all, s);
    }
  }

  // ------------------------------------------------------------------
  // The matcher

  /** glob_match. */
  method GlobMatch(pattern: string, path: string) returns (matched: bool)
    ensures matched <==> Matches(Tokens(pattern), path)
    decreases |pattern|, 1
  {
    hide Matches, Tokens, Spells;
    var p, r := pattern, path;
    while p != []
      invariant |p| <= |pattern|
      invariant Matches(Tokens(p), r) <==> Matches(Tokens(pattern), path)
      decreases |p|
    {
      TokensOf(p);
      if |p| >= 2 && p[0] == '*' && p[1] == '*' {
        var rest := p[2..];
        if rest != [] && rest[0] == '/' {
          rest := rest[1..];
        }
        matched := Wildcard(Globstar, rest, r, |pattern|);
        return;
      }
      if p[0] == '*' {
        matched := Wildcard(Star, p[1..], r, |pattern|);
        return;
      }
      OneLiteral(p[0], Tokens(p[1..]), r);
      if r == [] || r[0] != p[0] {
        return false;
      }
      p, r := p[1..], r[1..];
    }
    TokensOf(p);
    NothingLeft(r);
    matched := r == [] || r[0] == '/';
  }

  /** Every place a wildcard's run may end, tried in turn: past every character
      for a '**', and up to the next separator for a '*'. */
  method Wildcard(token: Token, rest: string, r: string, ghost above: nat) returns (matched: bool)
    requires !token.Literal? && |rest| < above
    ensures matched <==> Matches([token] + Tokens(rest), r)
    decreases above, 0
  {
    hide Matches, Tokens, Spells;
    OneWildcard(token, Tokens(rest), r);
    var at := 0;
    while true
      invariant at <= |r| && RunOf(token, r, at)
      invariant forall k | 0 <= k < at :: !Matches(Tokens(rest), r[k..])
      decreases |r| - at
    {
      matched := GlobMatch(rest, r[at..]);
      if matched {
        return;
      }
      if at == |r| || (token.Star? && r[at] == '/') {
        RunEnds(token, r, at);
        return;
      }
      assert r[..at + 1] == r[..at] + [r[at]];
      at := at + 1;
    }
  }

  /** Where no run goes on. */
  lemma RunEnds(token: Token, r: string, at: nat)
    requires at <= |r| && (at == |r| || (token.Star? && r[at] == '/'))
    ensures forall k | at < k <= |r| :: !RunOf(token, r, k)
  {
    forall k | at < k <= |r| ensures !RunOf(token, r, k) {
      RunPast(r, at, k);
    }
  }

  /** A run past a separator holds it. */
  lemma RunPast(r: string, at: nat, k: nat)
    requires at < k <= |r|
    ensures r[at] in r[..k]
  {
    assert r[..k][at] == r[at];
  }

  lemma TokensOf(p: string)
    ensures p == [] ==> Tokens(p) == []
    ensures p != [] && p[0] != '*' ==> Tokens(p) == [Literal(p[0])] + Tokens(p[1..])
    ensures |p| >= 2 && p[0] == '*' && p[1] == '*' ==>
              var rest := p[2..];
              Tokens(p) == [Globstar] + Tokens(if rest != [] && rest[0] == '/' then rest[1..] else rest)
    ensures p != [] && p[0] == '*' && !(|p| >= 2 && p[1] == '*') ==> Tokens(p) == [Star] + Tokens(p[1..])
  {
  }

  // ------------------------------------------------------------------
  // What a written pattern names

  /** A pattern read from its front: nothing left names what ends a segment; a
      character itself; a '*' any run that crosses no '/'; a '**', and the '/' after
      it, any run at all. */
  lemma PatternMeans(p: string, r: string)
    ensures Matches(Tokens(p), r) <==>
            if p == [] then r == [] || r[0] == '/'
            else if p[0] != '*' then r != [] && r[0] == p[0] && Matches(Tokens(p[1..]), r[1..])
            else if p[..1] == p || p[1] != '*' then
              exists k :: 0 <= k <= |r| && '/' !in r[..k] && Matches(Tokens(p[1..]), r[k..])
            else
              exists k :: 0 <= k <= |r| && Matches(Tokens(if "**/" <= p then p[3..] else p[2..]), r[k..])
  {
    hide Matches, Tokens, Spells;
    TokensOf(p);
    if p == [] {
      NothingLeft(r);
    } else if p[0] != '*' {
      OneLiteral(p[0], Tokens(p[1..]), r);
    } else if p[..1] == p || p[1] != '*' {
      OneWildcard(Star, Tokens(p[1..]), r);
      assert forall k | 0 <= k <= |r| :: RunOf(Star, r, k) <==> '/' !in r[..k];
    } else {
      var rest := p[2..];
      if "**/" <= p {
        assert p[2] == '/' && rest[1..] == p[3..];
      } else {
        assert rest != [] ==> p[..3] == [p[0], p[1], rest[0]];
      }
      var left := if "**/" <= p then p[3..] else p[2..];
      OneWildcard(Globstar, Tokens(left), r);
      assert forall k | 0 <= k <= |r| :: RunOf(Globstar, r, k);
    }
  }

  /** Without a '*' it names one path and what is under that. */
  lemma {:induction false} PlainNames(p: string, r: string)
    requires '*' !in p
    ensures Matches(Tokens(p), r) <==> r == p || p + "/" <= r
    decreases |p|
  {
    hide Matches, Tokens, Spells;
    PatternMeans(p, r);
    if p != [] {
      if r != [] && r[0] == p[0] {
        PlainNames(p[1..], r[1..]);
        assert p == [p[0]] + p[1..] && r == [r[0]] + r[1..];
        if p[1..] + "/" <= r[1..] {
          assert r[1..] == p[1..] + "/" + r[|p| + 1..];
          assert r == p + "/" + r[|p| + 1..];
        }
        if p + "/" <= r {
          assert r[1..][..|p|] == p[1..] + "/";
        }
      }
    } else if r != [] && r[0] == '/' {
      assert r[..1] == "/";
    }
  }

  /** Behind a leading '**' and its '/' it names every path in which it ends where a
      segment ends: where it begins is asked of nothing. */
  lemma AnywhereNames(s: string, r: string)
    requires '*' !in s
    ensures Matches(Tokens("**/" + s), r) <==>
            exists k :: 0 <= k <= |r| && (r[k..] == s || s + "/" <= r[k..])
  {
    hide Matches, Tokens, Spells;
    PatternMeans("**/" + s, r);
    assert ("**/" + s)[3..] == s && "**/" <= "**/" + s;
    forall k | 0 <= k <= |r| ensures Matches(Tokens(s), r[k..]) <==> r[k..] == s || s + "/" <= r[k..] {
      PlainNames(s, r[k..]);
    }
  }

  /** So what is meant for directories of that name at any depth names the others
      that end in it too. */
  lemma EndsInTheName()
    ensures Matches(Tokens("**/build"), "src/build/x") && Matches(Tokens("**/build"), "rebuild/x")
  {
    hide Matches, Tokens, Spells;
    assert "**/build" == "**/" + "build";
    AnywhereNames("build", "src/build/x");
    AnywhereNames("build", "rebuild/x");
    assert "build/" <= "src/build/x"[4..];
    assert "build/" <= "rebuild/x"[2..];
  }

  // ------------------------------------------------------------------
  // Patterns tidied

  predicate Separator(c: char) {
    c == '/' || c == '\\'
  }

  function WithoutHere(t: string): string
    decreases |t|
  {
    if |t| >= 2 && t[0] == '.' && t[1] == '/' then WithoutHere(t[2..]) else t
  }

  function WithoutLeading(t: string): string {
    if t != [] && Separator(t[0]) then WithoutLeading(t[1..]) else t
  }

  function WithoutTrailing(t: string): string {
    if t != [] && Separator(t[|t| - 1]) then WithoutTrailing(t[..|t| - 1]) else t
  }

  function Slashed(t: string): (s: string)
    ensures |s| == |t|
    ensures forall i | 0 <= i < |t| :: s[i] == if t[i] == '\\' then '/' else t[i]
  {
    if t == [] then [] else [if t[0] == '\\' then '/' else t[0]] + Slashed(t[1..])
  }

  /** A pattern as the matcher wants it, or none where nothing is left of it. */
  function Normalised(text: string): Option<string> {
    var t := WithoutTrailing(WithoutLeading(WithoutHere(text)));
    if t == [] then None else Some(Slashed(t))
  }

  /** normalise_pattern. */
  method NormalisePattern(text: string) returns (pattern: Option<string>)
    ensures pattern == Normalised(text)
  {
    var t := text;
    while |t| >= 2 && t[0] == '.' && t[1] == '/'
      invariant WithoutHere(t) == WithoutHere(text)
      decreases |t|
    {
      t := t[2..];
    }
    ghost var here := t;
    while t != [] && Separator(t[0])
      invariant WithoutLeading(t) == WithoutLeading(here)
      decreases |t|
    {
      t := t[1..];
    }
    var length: nat := |t|;
    assert t[..length] == t;
    while length > 0 && Separator(t[length - 1])
      invariant length <= |t| && WithoutTrailing(t[..length]) == WithoutTrailing(t)
    {
      assert t[..length][..length - 1] == t[..length - 1];
      length := length - 1;
    }
    if length == 0 {
      return None;
    }
    var copy := SlashCopy(t[..length]);
    pattern := Some(copy);
  }

  method SlashCopy(t: string) returns (slashed: string)
    ensures slashed == Slashed(t)
  {
    var copy := new char[|t|](i requires 0 <= i < |t| => t[i]);
    for at := 0 to |t|
      invariant forall i | 0 <= i < |t| :: copy[i] == if i < at && t[i] == '\\' then '/' else t[i]
    {
      if copy[at] == '\\' {
        copy[at] := '/';
      }
    }
    slashed := copy[..];
    assert forall i | 0 <= i < |t| :: slashed[i] == Slashed(t)[i];
  }

  lemma {:induction false} TrailingGone(t: string)
    ensures WithoutTrailing(t) <= t
    ensures WithoutTrailing(t) == [] || !Separator(WithoutTrailing(t)[|WithoutTrailing(t)| - 1])
    decreases |t|
  {
    if t != [] && Separator(t[|t| - 1]) {
      TrailingGone(t[..|t| - 1]);
    }
  }

  lemma {:induction false} LeadingGone(t: string)
    ensures WithoutLeading(t) == [] || !Separator(WithoutLeading(t)[0])
    decreases |t|
  {
    if t != [] && Separator(t[0]) {
      LeadingGone(t[1..]);
    }
  }

  /** A tidied pattern holds something, begins and ends in no separator and has
      only '/' for one. */
  lemma NormalisedIsTidy(text: string)
    requires Normalised(text).Some?
    ensures var p := Normalised(text).value;
            p != [] && p[0] != '/' && p[|p| - 1] != '/' && '\\' !in p
  {
    LeadingGone(WithoutHere(text));
    TrailingGone(WithoutLeading(WithoutHere(text)));
  }

  /** Each "./" and then each separator in front, all of them, is what is taken off
      there. */
  predicate LeadIn(text: string, n: nat, a: nat) {
    && 2 * n <= a <= |text|
    && (forall k | 0 <= k < n :: text[2 * k] == '.' && text[2 * k + 1] == '/')
    && (forall k | 2 * n <= k < a :: text[k] == '/' || text[k] == '\\')
    && !("./" <= text[2 * n..]) && (a < |text| ==> text[a] != '/' && text[a] != '\\')
  }

  /** What is left lies between a lead in and separators at the end, with '/' for
      '\'; or there is nothing between. */
  lemma NormalisedMeans(text: string) returns (n: nat, a: nat, b: nat)
    ensures LeadIn(text, n, a) && a <= b <= |text|
    ensures forall k | b <= k < |text| :: text[k] == '/' || text[k] == '\\'
    ensures a < b ==> text[b - 1] != '/' && text[b - 1] != '\\'
    ensures match Normalised(text)
            case None => a == b
            case Some(p) =>
              && a < b && |p| == b - a
              && forall k | 0 <= k < |p| :: p[k] == if text[a + k] == '\\' then '/' else text[a + k]
  {
    hide Slashed, WithoutHere, WithoutLeading, WithoutTrailing;
    n := HereGoes(text);
    var t := text[2 * n..];
    var m := LeadingGoes(t);
    a := 2 * n + m;
    assert t[m..] == text[a..];
    TrailingGone(t[m..]);
    TrailingIs(t[m..]);
    b := a + |WithoutTrailing(t[m..])|;
    forall k | b <= k < |text| ensures text[k] == '/' || text[k] == '\\' {
      assert text[a..][k - a] == text[k];
    }
    if a < |text| {
      assert t[m..][0] == text[a];
      assert t[m] == text[a];
    }
  }

  lemma {:induction false} HereGoes(t: string) returns (n: nat)
    ensures 2 * n <= |t| && WithoutHere(t) == t[2 * n..] && !("./" <= t[2 * n..])
    ensures forall k | 0 <= k < n :: t[2 * k] == '.' && t[2 * k + 1] == '/'
    decreases |t|
  {
    n := 0;
    if |t| >= 2 && t[0] == '.' && t[1] == '/' {
      n := HereGoes(t[2..]);
      assert t[2..][2 * n..] == t[2 * n + 2..];
      forall k | 0 <= k < n + 1 ensures t[2 * k] == '.' && t[2 * k + 1] == '/' {
        if k > 0 {
          assert t[2..][2 * (k - 1)] == t[2 * k] && t[2..][2 * (k - 1) + 1] == t[2 * k + 1];
        }
      }
      n := n + 1;
    } else {
      assert t[2 * n..] == t;
    }
  }

  lemma {:induction false} LeadingGoes(t: string) returns (m: nat)
    ensures m <= |t| && WithoutLeading(t) == t[m..]
    ensures (forall k | 0 <= k < m :: t[k] == '/' || t[k] == '\\') && (m < |t| ==> t[m] != '/' && t[m] != '\\')
    decreases |t|
  {
    m := 0;
    if t != [] && Separator(t[0]) {
      m := LeadingGoes(t[1..]);
      assert t[1..][m..] == t[m + 1..];
      m := m + 1;
    }
  }

  lemma {:induction false} TrailingIs(t: string)
    ensures WithoutTrailing(t) <= t
    ensures forall k | |WithoutTrailing(t)| <= k < |t| :: t[k] == '/' || t[k] == '\\'
    decreases |t|
  {
    if t != [] && Separator(t[|t| - 1]) {
      TrailingIs(t[..|t| - 1]);
    }
  }

  /** Beginning with the root's own name. */
  predicate StartsHere(p: string) {
    |p| >= 2 && p[0] == '.' && p[1] == '/'
  }

  /** What is left of a pattern once its outer separators are off begins with the
      root's own name, with either separator after it: written with a '\', or
      after a separator, it is not taken off the first time. */
  predicate KeepsHere(text: string) {
    var t := WithoutTrailing(WithoutLeading(WithoutHere(text)));
    |t| >= 2 && t[0] == '.' && Separator(t[1])
  }

  /** A tidied pattern still has a leading "./" exactly there, and exactly there
      tidying it again changes it. */
  lemma NormalisedAgainIff(text: string)
    requires Normalised(text).Some?
    ensures var p := Normalised(text).value;
            && (StartsHere(p) <==> KeepsHere(text))
            && (Normalised(p) == Some(p) <==> !KeepsHere(text))
  {
    NormalisedIsTidy(text);
    var p := Normalised(text).value;
    if StartsHere(p) {
      NormalisedShrinks(p[2..]);
      assert Normalised(p) == Normalised(p[2..]);
    } else {
      assert WithoutHere(p) == p && WithoutLeading(p) == p && WithoutTrailing(p) == p;
      assert Slashed(p) == p;
    }
  }

  /** A pattern that begins "./" matches only what is spelled with that in front,
      as the rest of it matches the rest. */
  lemma HereOnlyHere(p: string, r: string)
    requires StartsHere(p)
    ensures Matches(Tokens(p), r) <==> StartsHere(r) && Matches(Tokens(p[2..]), r[2..])
  {
    hide Matches, Tokens;
    TokensOf(p);
    TokensOf(p[1..]);
    assert p[1..][1..] == p[2..];
    OneLiteral('.', Tokens(p[1..]), r);
    if r != [] {
      OneLiteral('/', Tokens(p[2..]), r[1..]);
      assert |r| >= 2 ==> r[1..][1..] == r[2..];
    }
  }

  /** So a pattern that keeps it excludes no path written from the root: the
      settings exclude what they would without it. */
  lemma KeepsHereExcludesNothing(text: string, exclude: seq<string>, force: seq<string>, relative: string)
    requires KeepsHere(text) && !StartsHere(relative)
    ensures Normalised(text).Some?
    ensures var p := Normalised(text).value;
            Excludes(Some(Settings(exclude + [p], force)), relative) <==> Excludes(Some(Settings(exclude, force)), relative)
  {
    hide Matches, Tokens, Normalised, KeepsHere;
    KeepsHereIsSome(text);
    NormalisedAgainIff(text);
    HereOnlyHere(Normalised(text).value, relative);
  }

  lemma KeepsHereIsSome(text: string)
    requires KeepsHere(text)
    ensures Normalised(text).Some?
  {
  }

  lemma NormalisedShrinks(t: string)
    ensures Normalised(t).Some? ==> |Normalised(t).value| <= |t|
  {
    Shrinks(t);
    LeadingShrinks(WithoutHere(t));
    TrailingGone(WithoutLeading(WithoutHere(t)));
  }

  lemma {:induction false} Shrinks(t: string)
    ensures |WithoutHere(t)| <= |t|
    decreases |t|
  {
    if |t| >= 2 && t[0] == '.' && t[1] == '/' {
      Shrinks(t[2..]);
    }
  }

  lemma {:induction false} LeadingShrinks(t: string)
    ensures |WithoutLeading(t)| <= |t|
    decreases |t|
  {
    if t != [] && Separator(t[0]) {
      LeadingShrinks(t[1..]);
    }
  }

  /** One such pattern, and the file it was meant to name. */
  lemma BackslashHere()
    ensures KeepsHere(".\\build") && Normalised(".\\build") == Some("./build")
    ensures !Matches(Tokens("./build"), "build")
  {
    assert Slashed(".\\build") == "./build";
    assert WithoutTrailing(".\\build") == ".\\build";
    assert "./build"[0] == '.' && "./build"[1..] == "/build";
    OneLiteral('.', Tokens("/build"), "build");
    TokensOf("./build");
  }

  // ------------------------------------------------------------------
  // What is excluded

  datatype Settings = Settings(exclude: seq<string>, force: seq<string>)

  /** Named before matched: a file named by hand is never excluded, and any other
      is by any pattern that names it or a directory it is under. */
  ghost predicate Excludes(settings: Option<Settings>, relative: string) {
    settings.Some? && relative !in settings.value.force &&
    exists pattern <- settings.value.exclude :: Matches(Tokens(pattern), relative)
  }

  /** lsp_settings_excludes_relative. */
  method ExcludesRelative(settings: Option<Settings>, relative: string) returns (excluded: bool)
    ensures excluded <==> Excludes(settings, relative)
  {
    hide Matches, Tokens;
    if settings.None? {
      return false;
    }
    var force, exclude := settings.value.force, settings.value.exclude;
    for i := 0 to |force|
      invariant relative !in force[..i]
    {
      if force[i] == relative {
        return false;
      }
    }
    assert force[..|force|] == force;
    for i := 0 to |exclude|
      invariant forall k | 0 <= k < i :: !Matches(Tokens(exclude[k]), relative)
    {
      var matched := GlobMatch(exclude[i], relative);
      if matched {
        return true;
      }
    }
    excluded := false;
  }

  /** With no patterns nothing is excluded; a pattern more excludes what it matches,
      but for what is named by hand; a name more is no longer excluded, and no other
      path is for that. */
  lemma SettingsMean(exclude: seq<string>, force: seq<string>, more: string, relative: string)
    ensures !Excludes(None, relative) && !Excludes(Some(Settings([], force)), relative)
    ensures Excludes(Some(Settings(exclude + [more], force)), relative) <==>
            Excludes(Some(Settings(exclude, force)), relative) ||
            (relative !in force && Matches(Tokens(more), relative))
    ensures Excludes(Some(Settings(exclude, force + [more])), relative) <==>
            Excludes(Some(Settings(exclude, force)), relative) && relative != more
  {
    hide Matches, Tokens;
  }

  /** Excluding a directory excludes what is in it, but for what is forced. */
  lemma ExcludesUnder(settings: Settings, relative: string, below: string)
    requires Excludes(Some(settings), relative) && relative + "/" + below !in settings.force
    ensures Excludes(Some(settings), relative + "/" + below)
  {
    var pattern :| pattern in settings.exclude && Matches(Tokens(pattern), relative);
    MatchesUnder(Tokens(pattern), relative, below);
  }
}
