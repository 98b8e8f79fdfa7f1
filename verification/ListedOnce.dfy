/** What the two walks of Listing add up to: how often each comment is written as
    code, by which nodes, and that it is then nobody's comment (lsp/ast_json.c). */
module ListedOnce {
  import opened Wrappers
  import opened Listing

  // ------------------------------------------------------------------
  // Where a comment stands

  predicate Spans(cs: seq<Comment>, node: Node, i: nat) {
    i < |cs| && node.start <= cs[i].offset < node.end
  }

  /** Inside a list of statements, the node's own or one below it. */
  predicate Covers(cs: seq<Comment>, node: Node, i: nat)
    decreases node
  {
    (node.holds && Spans(cs, node, i)) || exists k :: 0 <= k < |node.children| && Covers(cs, node.children[k].node, i)
  }

  /** A comment inside a list of statements below a node is inside that child of it,
      and inside nothing that has a list of another; what stands in a list stands
      within it. The order the children are visited in is free. */
  ghost predicate Shaped(cs: seq<Comment>, node: Node)
    decreases node
  {
    && (forall k | 0 <= k < |node.children| :: Shaped(cs, node.children[k].node))
    && (forall k, i | 0 <= k < |node.children| && Covers(cs, node.children[k].node, i) ::
          Spans(cs, node.children[k].node, i) &&
          forall j | 0 <= j < |node.children| && j != k :: !Covers(cs, node.children[j].node, i))
    && (node.holds ==> forall k | 0 <= k < |node.children| :: node.children[k].node.start <= node.end)
  }

  lemma Before(cs: seq<Comment>, offset: nat, i: nat)
    requires Sorted(cs) && i < |cs|
    ensures i < FirstAt(cs, offset) <==> cs[i].offset < offset
  {
  }

  lemma {:induction false} CursorGrows(cs: seq<Comment>, node: Node, j: nat, k: nat)
    requires j <= k <= |node.children|
    ensures FirstAt(cs, node.start) <= GapFrom(cs, node, j) <= GapFrom(cs, node, k) <= |cs|
    ensures j < k ==> GapTo(cs, node, j) <= GapFrom(cs, node, k) &&
                      FirstAt(cs, node.children[j].node.end) <= GapFrom(cs, node, k)
    decreases k
  {
    hide FirstAt;
    if j < k {
      CursorGrows(cs, node, j, k - 1);
    } else if k > 0 {
      CursorGrows(cs, node, k - 1, k - 1);
    }
  }

  /** What stands in a gap comes before the child, or the end, the gap ends at. */
  lemma GapIs(cs: seq<Comment>, node: Node, k: nat, i: nat)
    requires Sorted(cs) && k <= |node.children| && InGap(cs, node, k, i)
    ensures i < |cs| && node.start <= cs[i].offset
    ensures cs[i].offset < if k == |node.children| then node.end else node.children[k].node.start
  {
    hide FirstAt;
    CursorGrows(cs, node, 0, k);
    Before(cs, node.start, i);
    Before(cs, if k == |node.children| then node.end else node.children[k].node.start, i);
  }

  lemma GapSpans(cs: seq<Comment>, node: Node, k: nat, i: nat)
    requires Sorted(cs) && Shaped(cs, node) && node.holds && k <= |node.children| && InGap(cs, node, k, i)
    ensures Spans(cs, node, i) && Covers(cs, node, i)
  {
    hide InGap;
    GapIs(cs, node, k, i);
  }

  /** No two gaps of a node share a comment. */
  lemma GapsApart(cs: seq<Comment>, node: Node, j: nat, k: nat, i: nat)
    requires j < k <= |node.children| && InGap(cs, node, j, i)
    ensures !InGap(cs, node, k, i)
  {
    hide FirstAt;
    CursorGrows(cs, node, j, k);
  }

  /** A comment a walk passes by itself is marked exactly where it is disabled code,
      the node lists statements, and the child passed before it, if any was, is one
      of them. */
  lemma MarkedInGapIff(cs: seq<Comment>, node: Node, k: nat, i: nat)
    requires Sorted(cs) && k <= |node.children| && InGap(cs, node, k, i)
    ensures MarkedBy(cs, node, i) <==> node.holds && cs[i].disabled && (k > 0 ==> node.children[k - 1].among)
  {
    hide InGap;
    GapIs(cs, node, k, i);
    if j :| 0 <= j <= |node.children| && InGap(cs, node, j, i) && AmongAt(node, j) {
      if j < k {
        GapsApart(cs, node, j, k, i);
      } else if k < j {
        GapsApart(cs, node, k, j, i);
      }
    }
  }

  /** Where a walk has passed nothing further on, its gaps are what lies between the
      children. */
  lemma GapLies(cs: seq<Comment>, node: Node, k: nat, i: nat)
    requires Sorted(cs) && k <= |node.children| && i < |cs|
    requires forall j | 0 <= j < k ::
      && node.start <= node.children[j].node.start <= node.children[j].node.end
      && (j > 0 ==> node.children[j - 1].node.end <= node.children[j].node.start)
    ensures InGap(cs, node, k, i) <==>
            && (if k == 0 then node.start else node.children[k - 1].node.end) <= cs[i].offset
            && cs[i].offset < if k == |node.children| then node.end else node.children[k].node.start
  {
    hide FirstAt;
    CursorIs(cs, node, k);
    Before(cs, if k == 0 then node.start else node.children[k - 1].node.end, i);
    Before(cs, if k == |node.children| then node.end else node.children[k].node.start, i);
  }

  lemma {:induction false} CursorIs(cs: seq<Comment>, node: Node, k: nat)
    requires Sorted(cs) && k <= |node.children|
    requires forall j | 0 <= j < k ::
      && node.start <= node.children[j].node.start <= node.children[j].node.end
      && (j > 0 ==> node.children[j - 1].node.end <= node.children[j].node.start)
    ensures GapFrom(cs, node, k) == FirstAt(cs, if k == 0 then node.start else node.children[k - 1].node.end)
    decreases k
  {
    hide FirstAt;
    if k > 0 {
      CursorIs(cs, node, k - 1);
      var child := node.children[k - 1].node;
      FirstGrows(cs, child.start, child.end);
      FirstGrows(cs, if k == 1 then node.start else node.children[k - 2].node.end, child.start);
    }
  }

  lemma FirstGrows(cs: seq<Comment>, a: nat, b: nat)
    requires Sorted(cs) && a <= b
    ensures FirstAt(cs, a) <= FirstAt(cs, b)
  {
  }

  /** A gap that holds what stands in a child comes before a child that is visited
      before it and written after. */
  lemma EarlyGap(cs: seq<Comment>, node: Node, k: nat, c: nat, i: nat)
    requires Sorted(cs) && k <= |node.children| && c < |node.children|
    requires InGap(cs, node, k, i) && Spans(cs, node.children[c].node, i)
    ensures k < c && cs[i].offset < node.children[k].node.start
  {
    hide FirstAt;
    GapIs(cs, node, k, i);
    if c < k {
      CursorGrows(cs, node, c, k);
      Before(cs, node.children[c].node.end, i);
    }
  }

  // ------------------------------------------------------------------
  // What is marked

  lemma {:induction false} MarksCover(cs: seq<Comment>, node: Node, i: nat)
    requires Sorted(cs) && Shaped(cs, node)
    ensures i in MarksIn(cs, node) ==> Covers(cs, node, i)
    decreases node, |node.children| + 1
  {
    MarksFromCover(cs, node, 0, i);
    if MarkedBy(cs, node, i) {
      var k :| 0 <= k <= |node.children| && InGap(cs, node, k, i) && AmongAt(node, k);
      GapSpans(cs, node, k, i);
    }
  }

  lemma {:induction false} MarksFromCover(cs: seq<Comment>, node: Node, k: nat, i: nat)
    requires Sorted(cs) && Shaped(cs, node) && k <= |node.children|
    ensures i in MarksFrom(cs, node, k) ==>
              exists c :: k <= c < |node.children| && i in MarksIn(cs, node.children[c].node) &&
                          Covers(cs, node.children[c].node, i)
    decreases node, |node.children| - k
  {
    if k < |node.children| {
      MarksCover(cs, node.children[k].node, i);
      MarksFromCover(cs, node, k + 1, i);
    }
  }

  lemma {:induction false} MarksOfChild(cs: seq<Comment>, node: Node, k: nat, c: nat, i: nat)
    requires k <= c < |node.children|
    ensures i in MarksIn(cs, node.children[c].node) ==> i in MarksFrom(cs, node, k)
    decreases c - k
  {
    hide MarksIn;
    assert MarksFrom(cs, node, k) == MarksIn(cs, node.children[k].node) + MarksFrom(cs, node, k + 1);
    if k < c {
      MarksOfChild(cs, node, k + 1, c, i);
    }
  }

  // ------------------------------------------------------------------
  // How often a comment is listed

  function TimesListed(json: Json, i: nat): nat
    decreases json
  {
    TimesAmong(json.items, i)
  }

  function TimesAmong(items: seq<Item>, i: nat): nat
    decreases items
  {
    if items == [] then 0
    else
      TimesIn(items[0], i) + TimesAmong(items[1..], i)
  }

  function TimesIn(item: Item, i: nat): nat
    decreases item
  {
    match item
    case Listed(c) => if c == i then 1 else 0
    case Kid(_, json) => TimesListed(json, i)
  }

  lemma {:induction false} TimesAppend(a: seq<Item>, b: seq<Item>, i: nat)
    ensures TimesAmong(a + b, i) == TimesAmong(a, i) + TimesAmong(b, i)
    decreases |a|
  {
    if a == [] {
      assert a + b == b;
    } else {
      assert (a + b)[1..] == a[1..] + b;
      TimesAppend(a[1..], b, i);
    }
  }

  lemma {:induction false} TimesInListing(from: nat, end: nat, marked: set<nat>, i: nat)
    ensures TimesAmong(ListedIn(from, end, marked), i) == if from <= i < end && i in marked then 1 else 0
    decreases end - from
  {
    if from < end {
      TimesInListing(from + 1, end, marked, i);
      TimesAppend(if from in marked then [Listed(from)] else [], ListedIn(from + 1, end, marked), i);
    }
  }

  ghost predicate GapAhead(cs: seq<Comment>, node: Node, k: nat, i: nat)
    requires k <= |node.children|
  {
    exists j :: k <= j <= |node.children| && InGap(cs, node, j, i)
  }

  /** How many lists at or below a node, where anything has marked the comment by
      then, have it in a gap of theirs. `known`: marked by a node above. */
  ghost function Listers(cs: seq<Comment>, node: Node, i: nat, known: bool): nat
    decreases node, |node.children| + 1
  {
    var now := known || MarkedBy(cs, node, i);
    (if node.holds && now && InSomeGap(cs, node, i) then 1 else 0) + ListersFrom(cs, node, 0, i, now)
  }

  ghost function ListersFrom(cs: seq<Comment>, node: Node, k: nat, i: nat, known: bool): nat
    requires k <= |node.children|
    decreases node, |node.children| - k
  {
    if k == |node.children| then 0
    else Listers(cs, node.children[k].node, i, known) + ListersFrom(cs, node, k + 1, i, known)
  }

  lemma {:induction false} NoneOutside(cs: seq<Comment>, node: Node, i: nat, known: bool)
    requires Sorted(cs) && Shaped(cs, node) && !Covers(cs, node, i)
    ensures Listers(cs, node, i, known) == 0
    decreases node, |node.children| + 1
  {
    if node.holds && InSomeGap(cs, node, i) {
      var k :| 0 <= k <= |node.children| && InGap(cs, node, k, i);
      GapSpans(cs, node, k, i);
    }
    NoneFrom(cs, node, 0, i, known || MarkedBy(cs, node, i));
  }

  lemma {:induction false} NoneFrom(cs: seq<Comment>, node: Node, k: nat, i: nat, known: bool)
    requires Sorted(cs) && Shaped(cs, node) && k <= |node.children|
    requires forall j | k <= j < |node.children| :: !Covers(cs, node.children[j].node, i)
    ensures ListersFrom(cs, node, k, i, known) == 0
    decreases node, |node.children| - k
  {
    if k < |node.children| {
      NoneOutside(cs, node.children[k].node, i, known);
      NoneFrom(cs, node, k + 1, i, known);
    }
  }

  /** A node's items from child k on, counted in their three parts. */
  lemma KidTimes(cs: seq<Comment>, node: Node, k: nat, marked: set<nat>, i: nat)
    requires k < |node.children|
    ensures var child := node.children[k];
            TimesAmong(Items(cs, node, k, marked), i) ==
            TimesAmong(Gap(cs, node, k, marked), i) + TimesListed(Out(cs, child.node, marked), i)
            + TimesAmong(Items(cs, node, k + 1, marked + MarksIn(cs, child.node)), i)
  {
    hide Items, MarksFrom, MarksIn, Out, TimesAmong, TimesListed, Gap;
    ItemsAt(cs, node, k, marked);
    var child := node.children[k];
    var kid := [Kid(child.among, Out(cs, child.node, marked))];
    var rest := Items(cs, node, k + 1, marked + MarksIn(cs, child.node));
    TimesAppend(Gap(cs, node, k, marked), kid + rest, i);
    TimesAppend(kid, rest, i);
    OneKid(child.among, Out(cs, child.node, marked), i);
  }

  lemma OneKid(among: bool, json: Json, i: nat)
    ensures TimesAmong([Kid(among, json)], i) == TimesListed(json, i)
  {
    assert [Kid(among, json)][1..] == [];
  }

  lemma GapAheadStep(cs: seq<Comment>, node: Node, k: nat, i: nat)
    requires k <= |node.children|
    ensures GapAhead(cs, node, k, i) <==>
            InGap(cs, node, k, i) || (k < |node.children| && GapAhead(cs, node, k + 1, i))
    ensures InGap(cs, node, k, i) && k < |node.children| ==> !GapAhead(cs, node, k + 1, i)
    ensures k == 0 ==> (GapAhead(cs, node, k, i) <==> InSomeGap(cs, node, i))
  {
    if InGap(cs, node, k, i) {
      forall j | k < j <= |node.children| ensures !InGap(cs, node, j, i) {
        GapsApart(cs, node, k, j, i);
      }
    }
  }

  lemma GapTimes(cs: seq<Comment>, node: Node, k: nat, marked: set<nat>, i: nat)
    requires k <= |node.children|
    ensures TimesAmong(Gap(cs, node, k, marked), i) ==
            if node.holds && InGap(cs, node, k, i) && i in marked then 1 else 0
  {
    TimesInListing(GapFrom(cs, node, k), GapTo(cs, node, k), marked, i);
  }

  /** What stands in a child already visited is in no gap ahead, and inside no child
      ahead. */
  lemma NothingAhead(cs: seq<Comment>, node: Node, k: nat, i: nat, known: bool)
    requires Sorted(cs) && Shaped(cs, node) && k < |node.children| && Covers(cs, node.children[k].node, i)
    ensures !GapAhead(cs, node, k + 1, i) && ListersFrom(cs, node, k + 1, i, known) == 0
  {
    if GapAhead(cs, node, k + 1, i) {
      var j :| k + 1 <= j <= |node.children| && InGap(cs, node, j, i);
      EarlyGap(cs, node, j, k, i);
    }
    NoneFrom(cs, node, k + 1, i, known);
  }

  lemma {:induction false} ItemsListed(cs: seq<Comment>, node: Node, k: nat, marked: set<nat>, i: nat)
    requires Sorted(cs) && Shaped(cs, node) && k <= |node.children|
    ensures TimesAmong(Items(cs, node, k, marked), i) ==
            (if node.holds && i in marked && GapAhead(cs, node, k, i) then 1 else 0)
            + ListersFrom(cs, node, k, i, i in marked)
    decreases node, |node.children| - k
  {
    hide Items, MarksFrom, MarksIn, Out, TimesAmong, TimesListed, GapAhead, InGap, Gap, Sorted, Covers, Listers;
    ItemsAt(cs, node, k, marked);
    GapTimes(cs, node, k, marked, i);
    GapAheadStep(cs, node, k, i);
    if k < |node.children| {
      var child := node.children[k];
      var after := marked + MarksIn(cs, child.node);
      TimesOut(cs, child.node, marked, i);
      KidTimes(cs, node, k, marked, i);
      ItemsListed(cs, node, k + 1, after, i);
      if i in MarksIn(cs, child.node) {
        MarksCover(cs, child.node, i);
        NothingAhead(cs, node, k, i, true);
        NothingAhead(cs, node, k, i, false);
      }
    } else {
      assert Items(cs, node, k, marked) == Gap(cs, node, k, marked);
    }
  }

  /** In what is written for a node, a comment is listed as often as there are lists
      at or below it that have it in a gap when it has been marked -- whatever
      order anything is visited in. */
  lemma {:induction false} TimesOut(cs: seq<Comment>, node: Node, marked: set<nat>, i: nat)
    requires Sorted(cs) && Shaped(cs, node)
    ensures TimesListed(Out(cs, node, marked), i) == Listers(cs, node, i, i in marked)
    decreases node, |node.children| + 1
  {
    hide GapAhead, InGap, Sorted, Covers, Shaped, FirstAt;
    var now := marked + Marks(cs, node);
    ItemsListed(cs, node, 0, now, i);
    GapAheadStep(cs, node, 0, i);
    MarksAre(cs, node, i);
  }

  lemma MarksAre(cs: seq<Comment>, node: Node, i: nat)
    ensures i in Marks(cs, node) <==> MarkedBy(cs, node, i)
  {
  }

  // ------------------------------------------------------------------
  // Exactly once

  /** How many lists at or below a node have the comment in a gap of theirs. */
  ghost function GapHolders(cs: seq<Comment>, node: Node, i: nat): nat
    decreases node, |node.children| + 1
  {
    (if node.holds && InSomeGap(cs, node, i) then 1 else 0) + GapHoldersFrom(cs, node, 0, i)
  }

  ghost function GapHoldersFrom(cs: seq<Comment>, node: Node, k: nat, i: nat): nat
    requires k <= |node.children|
    decreases node, |node.children| - k
  {
    if k == |node.children| then 0
    else GapHolders(cs, node.children[k].node, i) + GapHoldersFrom(cs, node, k + 1, i)
  }

  lemma {:induction false} KnownAllList(cs: seq<Comment>, node: Node, i: nat)
    ensures Listers(cs, node, i, true) == GapHolders(cs, node, i)
    decreases node, |node.children| + 1
  {
    KnownAllFrom(cs, node, 0, i);
  }

  lemma {:induction false} KnownAllFrom(cs: seq<Comment>, node: Node, k: nat, i: nat)
    requires k <= |node.children|
    ensures ListersFrom(cs, node, k, i, true) == GapHoldersFrom(cs, node, k, i)
    decreases node, |node.children| - k
  {
    if k < |node.children| {
      KnownAllList(cs, node.children[k].node, i);
      KnownAllFrom(cs, node, k + 1, i);
    }
  }

  /** The list takes disabled code for its own before it visits a child in which
      another list has it: among its statements, it first visits one written
      later. */
  ghost predicate TakesEarly(cs: seq<Comment>, node: Node, i: nat) {
    node.holds && i < |cs| && cs[i].disabled &&
    exists k, c :: 0 <= k < c < |node.children| && InGap(cs, node, k, i) && AmongAt(node, k) &&
                   cs[i].offset < node.children[k].node.start && GapHolders(cs, node.children[c].node, i) > 0
  }

  /** Some list at or below does. */
  ghost predicate TakenEarly(cs: seq<Comment>, node: Node, i: nat)
    decreases node
  {
    TakesEarly(cs, node, i) || exists k :: 0 <= k < |node.children| && TakenEarly(cs, node.children[k].node, i)
  }

  lemma {:induction false} SomeHolder(cs: seq<Comment>, node: Node, k: nat, i: nat) returns (c: nat)
    requires k <= |node.children| && GapHoldersFrom(cs, node, k, i) > 0
    ensures k <= c < |node.children| && GapHolders(cs, node.children[c].node, i) > 0
    decreases |node.children| - k
  {
    hide GapHolders;
    c := k;
    if GapHolders(cs, node.children[k].node, i) == 0 {
      c := SomeHolder(cs, node, k + 1, i);
    }
  }

  lemma {:induction false} HolderCounts(cs: seq<Comment>, node: Node, k: nat, c: nat, i: nat)
    requires k <= c < |node.children|
    ensures GapHoldersFrom(cs, node, k, i) >= GapHolders(cs, node.children[c].node, i)
    decreases c - k
  {
    hide GapHolders;
    if k < c {
      HolderCounts(cs, node, k + 1, c, i);
    }
  }

  lemma HoldersCover(cs: seq<Comment>, node: Node, i: nat)
    requires Sorted(cs) && Shaped(cs, node) && GapHolders(cs, node, i) > 0
    ensures Covers(cs, node, i)
  {
    hide Listers, GapHolders, Shaped, Covers;
    KnownAllList(cs, node, i);
    if !Covers(cs, node, i) {
      NoneOutside(cs, node, i, true);
    }
  }

  /** A list that marks a comment takes it early exactly where another below it has
      the comment in a gap too. */
  lemma TakesEarlyIff(cs: seq<Comment>, node: Node, i: nat)
    requires Sorted(cs) && Shaped(cs, node)
    ensures TakesEarly(cs, node, i) <==> MarkedBy(cs, node, i) && GapHoldersFrom(cs, node, 0, i) > 0
  {
    hide InGap, Covers, GapHolders, GapHoldersFrom, FirstAt;
    if MarkedBy(cs, node, i) && GapHoldersFrom(cs, node, 0, i) > 0 {
      var c := SomeHolder(cs, node, 0, i);
      HoldersCover(cs, node.children[c].node, i);
      var k :| 0 <= k <= |node.children| && InGap(cs, node, k, i) && AmongAt(node, k);
      EarlyGap(cs, node, k, c, i);
    }
    if TakesEarly(cs, node, i) {
      var k, c :| 0 <= k < c < |node.children| && InGap(cs, node, k, i) && AmongAt(node, k) &&
                  cs[i].offset < node.children[k].node.start && GapHolders(cs, node.children[c].node, i) > 0;
      HolderCounts(cs, node, 0, c, i);
    }
  }

  /** Taken early below, it is marked there and in a gap there. */
  lemma {:induction false} EarlyIsMarked(cs: seq<Comment>, node: Node, i: nat)
    requires Sorted(cs) && Shaped(cs, node) && TakenEarly(cs, node, i)
    ensures i in MarksIn(cs, node) && GapHolders(cs, node, i) > 0
    decreases node
  {
    hide InGap, AmongAt, FirstAt;
    TakesEarlyIff(cs, node, i);
    MarksAre(cs, node, i);
    if !TakesEarly(cs, node, i) {
      var k :| 0 <= k < |node.children| && TakenEarly(cs, node.children[k].node, i);
      EarlyIsMarked(cs, node.children[k].node, i);
      MarksOfChild(cs, node, 0, k, i);
      HolderCounts(cs, node, 0, k, i);
    }
  }

  /** Disabled code that some list marks is listed exactly once where no list takes
      early what another below it has; taken early, more than once. What none
      marks is never listed. */
  lemma {:induction false} OutListsOnce(cs: seq<Comment>, node: Node, i: nat)
    requires Sorted(cs) && Shaped(cs, node)
    ensures i !in MarksIn(cs, node) ==> Listers(cs, node, i, false) == 0
    ensures i in MarksIn(cs, node) ==>
              if TakenEarly(cs, node, i) then Listers(cs, node, i, false) > 1 else Listers(cs, node, i, false) == 1
    decreases node, |node.children| + 1
  {
    hide InGap, AmongAt, FirstAt, Covers;
    TakesEarlyIff(cs, node, i);
    MarksAre(cs, node, i);
    if MarkedBy(cs, node, i) {
      KnownAllFrom(cs, node, 0, i);
      if k :| 0 <= k < |node.children| && TakenEarly(cs, node.children[k].node, i) {
        EarlyIsMarked(cs, node.children[k].node, i);
        HolderCounts(cs, node, 0, k, i);
      }
    } else {
      ListedFrom(cs, node, 0, i);
    }
  }

  lemma {:induction false} ListedFrom(cs: seq<Comment>, node: Node, k: nat, i: nat)
    requires Sorted(cs) && Shaped(cs, node) && k <= |node.children|
    ensures i !in MarksFrom(cs, node, k) ==> ListersFrom(cs, node, k, i, false) == 0
    ensures i in MarksFrom(cs, node, k) ==>
              if exists c :: k <= c < |node.children| && TakenEarly(cs, node.children[c].node, i)
              then ListersFrom(cs, node, k, i, false) > 1 else ListersFrom(cs, node, k, i, false) == 1
    decreases node, |node.children| - k
  {
    hide Listers, TakenEarly, Covers, MarksIn;
    if k < |node.children| {
      var child := node.children[k].node;
      OutListsOnce(cs, child, i);
      ListedFrom(cs, node, k + 1, i);
      assert MarksFrom(cs, node, k) == MarksIn(cs, child) + MarksFrom(cs, node, k + 1);
      if i in MarksIn(cs, child) {
        MarksCover(cs, child, i);
        NoneFrom(cs, node, k + 1, i, false);
        forall c | k < c < |node.children| ensures !TakenEarly(cs, node.children[c].node, i) {
          if TakenEarly(cs, node.children[c].node, i) {
            EarlyIsMarked(cs, node.children[c].node, i);
            MarksCover(cs, node.children[c].node, i);
          }
        }
      } else if TakenEarly(cs, child, i) {
        EarlyIsMarked(cs, child, i);
      }
    }
  }

  /** Lists whose children are visited in the order they are written. */
  predicate InOrder(node: Node)
    decreases node
  {
    && (forall k | 0 <= k < |node.children| :: InOrder(node.children[k].node))
    && (node.holds ==> forall j, k | 0 <= j < k < |node.children| ::
          node.children[j].node.start <= node.children[k].node.start)
  }

  /** There nothing is taken early. */
  lemma {:induction false} InOrderTakesNone(cs: seq<Comment>, node: Node, i: nat)
    requires Sorted(cs) && Shaped(cs, node) && InOrder(node)
    ensures !TakenEarly(cs, node, i)
    decreases node
  {
    hide InGap, AmongAt, FirstAt, GapHolders, Covers;
    forall k | 0 <= k < |node.children| ensures !TakenEarly(cs, node.children[k].node, i) {
      InOrderTakesNone(cs, node.children[k].node, i);
    }
    if TakesEarly(cs, node, i) {
      var k, c :| 0 <= k < c < |node.children| && InGap(cs, node, k, i) && AmongAt(node, k) &&
                  cs[i].offset < node.children[k].node.start && GapHolders(cs, node.children[c].node, i) > 0;
      HoldersCover(cs, node.children[c].node, i);
    }
  }

  /** Who lists it: a node's own items name a comment exactly where it is in a gap of
      theirs and marked by then -- by the node itself, where no node above has. */
  lemma ListedByItsMarker(cs: seq<Comment>, node: Node, marked: set<nat>, i: nat)
    requires Sorted(cs) && Shaped(cs, node)
    ensures Listed(i) in Out(cs, node, marked).items <==>
            node.holds && InSomeGap(cs, node, i) && (i in marked || MarkedBy(cs, node, i))
    ensures i !in marked ==> (Listed(i) in Out(cs, node, marked).items <==> MarkedBy(cs, node, i))
  {
    hide GapAhead, InGap, FirstAt, Shaped;
    var now := marked + Marks(cs, node);
    OwnItems(cs, node, 0, now, i);
    GapAheadStep(cs, node, 0, i);
    MarksAre(cs, node, i);
    if MarkedBy(cs, node, i) {
      var k :| 0 <= k <= |node.children| && InGap(cs, node, k, i) && AmongAt(node, k);
    }
  }

  /** Whether a node's own items name a comment. */
  lemma {:induction false} OwnItems(cs: seq<Comment>, node: Node, k: nat, marked: set<nat>, i: nat)
    requires Sorted(cs) && Shaped(cs, node) && k <= |node.children|
    ensures Listed(i) in Items(cs, node, k, marked) <==> node.holds && i in marked && GapAhead(cs, node, k, i)
    decreases |node.children| - k
  {
    hide Items, MarksFrom, MarksIn, Out, GapAhead, InGap, FirstAt, Gap, Sorted, Covers;
    ItemsAt(cs, node, k, marked);
    GapNames(cs, node, k, marked, i);
    GapAheadStep(cs, node, k, i);
    if k < |node.children| {
      var child := node.children[k];
      OwnItems(cs, node, k + 1, marked + MarksIn(cs, child.node), i);
      if i in MarksIn(cs, child.node) {
        MarksCover(cs, child.node, i);
        NothingAhead(cs, node, k, i, false);
      }
    } else {
      assert Items(cs, node, k, marked) == Gap(cs, node, k, marked);
    }
  }

  lemma GapNames(cs: seq<Comment>, node: Node, k: nat, marked: set<nat>, i: nat)
    requires k <= |node.children|
    ensures Listed(i) in Gap(cs, node, k, marked) <==> node.holds && InGap(cs, node, k, i) && i in marked
  {
    ListingNames(GapFrom(cs, node, k), GapTo(cs, node, k), marked, i);
  }

  lemma {:induction false} ListingNames(from: nat, end: nat, marked: set<nat>, i: nat)
    ensures Listed(i) in ListedIn(from, end, marked) <==> from <= i < end && i in marked
    decreases end - from
  {
    if from < end {
      ListingNames(from + 1, end, marked, i);
    }
  }

  // ------------------------------------------------------------------
  // What is written as a comment

  function TimesShown(json: Json, i: nat): nat
    decreases json
  {
    Times(json.comments, i) + ShownAmong(json.items, i)
  }

  function ShownAmong(items: seq<Item>, i: nat): nat
    decreases items
  {
    if items == [] then 0 else ShownIn(items[0], i) + ShownAmong(items[1..], i)
  }

  function ShownIn(item: Item, i: nat): nat
    decreases item
  {
    match item
    case Listed(_) => 0
    case Kid(_, json) => TimesShown(json, i)
  }

  function Times(comments: seq<nat>, i: nat): nat {
    if comments == [] then 0 else (if comments[0] == i then 1 else 0) + Times(comments[1..], i)
  }

  /** How often a comment is attached to a node or one below it. */
  function TimesAttached(node: Node, i: nat): nat
    decreases node, |node.children| + 1
  {
    Times(node.comments, i) + AttachedFrom(node, 0, i)
  }

  function AttachedFrom(node: Node, k: nat, i: nat): nat
    requires k <= |node.children|
    decreases node, |node.children| - k
  {
    if k == |node.children| then 0 else TimesAttached(node.children[k].node, i) + AttachedFrom(node, k + 1, i)
  }

  lemma {:induction false} TimesLeft(comments: seq<nat>, marked: set<nat>, i: nat)
    ensures Times(LeftIn(comments, marked), i) == if i in marked then 0 else Times(comments, i)
    ensures i !in comments ==> Times(comments, i) == 0
    decreases |comments|
  {
    if comments != [] {
      TimesLeft(comments[1..], marked, i);
      if comments[0] !in marked {
        assert ([comments[0]] + LeftIn(comments[1..], marked))[1..] == LeftIn(comments[1..], marked);
      } else {
        assert LeftIn(comments, marked) == LeftIn(comments[1..], marked);
      }
    }
  }

  lemma {:induction false} ShownAppend(a: seq<Item>, b: seq<Item>, i: nat)
    ensures ShownAmong(a + b, i) == ShownAmong(a, i) + ShownAmong(b, i)
    decreases |a|
  {
    if a == [] {
      assert a + b == b;
    } else {
      assert (a + b)[1..] == a[1..] + b;
      ShownAppend(a[1..], b, i);
    }
  }

  lemma {:induction false} NoneShownInListing(from: nat, end: nat, marked: set<nat>, i: nat)
    ensures ShownAmong(ListedIn(from, end, marked), i) == 0
    decreases end - from
  {
    if from < end {
      NoneShownInListing(from + 1, end, marked, i);
      ShownAppend(if from in marked then [Listed(from)] else [], ListedIn(from + 1, end, marked), i);
    }
  }

  lemma KidShown(cs: seq<Comment>, node: Node, k: nat, marked: set<nat>, i: nat)
    requires k <= |node.children|
    ensures ShownAmong(Items(cs, node, k, marked), i) ==
            if k == |node.children| then 0
            else
              TimesShown(Out(cs, node.children[k].node, marked), i)
              + ShownAmong(Items(cs, node, k + 1, marked + MarksIn(cs, node.children[k].node)), i)
  {
    hide Items, MarksFrom, MarksIn, Out, TimesShown, GapFrom, GapTo;
    ItemsAt(cs, node, k, marked);
    NoneShownInListing(GapFrom(cs, node, k), GapTo(cs, node, k), marked, i);
    if k < |node.children| {
      var child := node.children[k];
      var kid := [Kid(child.among, Out(cs, child.node, marked))];
      var rest := Items(cs, node, k + 1, marked + MarksIn(cs, child.node));
      ShownAppend(Gap(cs, node, k, marked), kid + rest, i);
      ShownAppend(kid, rest, i);
      assert kid[1..] == [];
    } else {
      assert Gap(cs, node, k, marked) + [] == Gap(cs, node, k, marked);
    }
  }

  /** The comment is held at or below the outermost list that marks it: by nothing
      written before that list has marked. */
  ghost predicate HeldBelow(cs: seq<Comment>, node: Node, i: nat)
    decreases node
  {
    MarkedBy(cs, node, i) ||
    ((forall k | 0 <= k < |node.children| && i in MarksIn(cs, node.children[k].node) ::
        i !in node.comments &&
        forall j | 0 <= j < |node.children| && j != k :: TimesAttached(node.children[j].node, i) == 0)
     && forall k | 0 <= k < |node.children| :: HeldBelow(cs, node.children[k].node, i))
  }

  /** A comment is shown no oftener than it is attached, and once marked not at all. */
  lemma {:induction false} ShownAtMost(cs: seq<Comment>, node: Node, marked: set<nat>, i: nat)
    ensures TimesShown(Out(cs, node, marked), i) <= TimesAttached(node, i)
    ensures i in marked || MarkedBy(cs, node, i) ==> TimesShown(Out(cs, node, marked), i) == 0
    decreases node, |node.children| + 1
  {
    hide MarkedBy, FirstAt;
    var now := marked + Marks(cs, node);
    MarksAre(cs, node, i);
    TimesLeft(node.comments, now, i);
    ItemsShowAtMost(cs, node, 0, now, i);
  }

  lemma {:induction false} ItemsShowAtMost(cs: seq<Comment>, node: Node, k: nat, marked: set<nat>, i: nat)
    requires k <= |node.children|
    ensures ShownAmong(Items(cs, node, k, marked), i) <= AttachedFrom(node, k, i)
    ensures i in marked ==> ShownAmong(Items(cs, node, k, marked), i) == 0
    decreases node, |node.children| - k
  {
    KidShown(cs, node, k, marked, i);
    if k < |node.children| {
      ShownAtMost(cs, node.children[k].node, marked, i);
      ItemsShowAtMost(cs, node, k + 1, marked + MarksIn(cs, node.children[k].node), i);
    }
  }

  /** A comment some list marks is nobody's comment: not its marker's, not a
      child's, whichever holds it. */
  lemma {:induction false} MarkedIsNotShown(cs: seq<Comment>, node: Node, marked: set<nat>, i: nat)
    requires Sorted(cs) && HeldBelow(cs, node, i) && (i in marked || i in MarksIn(cs, node))
    ensures TimesShown(Out(cs, node, marked), i) == 0
    decreases node, |node.children| + 1
  {
    hide MarkedBy, FirstAt;
    ShownAtMost(cs, node, marked, i);
    MarksAre(cs, node, i);
    if i !in marked && !MarkedBy(cs, node, i) {
      var now := marked + Marks(cs, node);
      TimesLeft(node.comments, now, i);
      var c := SomeMarks(cs, node, 0, i);
      ItemsShowNone(cs, node, 0, now, i);
    }
  }

  lemma {:induction false} SomeMarks(cs: seq<Comment>, node: Node, k: nat, i: nat) returns (c: nat)
    requires k <= |node.children| && i in MarksFrom(cs, node, k)
    ensures k <= c < |node.children| && i in MarksIn(cs, node.children[c].node)
    decreases |node.children| - k
  {
    hide MarksIn;
    c := k;
    assert k < |node.children| ==>
        MarksFrom(cs, node, k) == MarksIn(cs, node.children[k].node) + MarksFrom(cs, node, k + 1);
    if i !in MarksIn(cs, node.children[k].node) {
      c := SomeMarks(cs, node, k + 1, i);
    }
  }

  lemma {:induction false} ItemsShowNone(cs: seq<Comment>, node: Node, k: nat, marked: set<nat>, i: nat)
    requires Sorted(cs) && HeldBelow(cs, node, i) && !MarkedBy(cs, node, i) && k <= |node.children|
    requires exists c :: 0 <= c < |node.children| && i in MarksIn(cs, node.children[c].node)
    ensures ShownAmong(Items(cs, node, k, marked), i) == 0
    decreases node, |node.children| - k
  {
    hide MarkedBy, FirstAt, MarksIn, Items;
    KidShown(cs, node, k, marked, i);
    if k < |node.children| {
      var child := node.children[k].node;
      if i in MarksIn(cs, child) {
        MarkedIsNotShown(cs, child, marked, i);
      } else {
        ShownAtMost(cs, child, marked, i);
      }
      ItemsShowNone(cs, node, k + 1, marked + MarksIn(cs, child), i);
    }
  }

  /** A comment nobody marks is shown wherever it is attached. */
  lemma {:induction false} UnmarkedIsShown(cs: seq<Comment>, node: Node, marked: set<nat>, i: nat)
    requires i !in marked && i !in MarksIn(cs, node)
    ensures TimesShown(Out(cs, node, marked), i) == TimesAttached(node, i)
    decreases node, |node.children| + 1
  {
    var now := marked + Marks(cs, node);
    TimesLeft(node.comments, now, i);
    ItemsShowAll(cs, node, 0, now, i);
  }

  lemma {:induction false} ItemsShowAll(cs: seq<Comment>, node: Node, k: nat, marked: set<nat>, i: nat)
    requires k <= |node.children| && i !in marked && i !in MarksFrom(cs, node, k)
    ensures ShownAmong(Items(cs, node, k, marked), i) == AttachedFrom(node, k, i)
    decreases node, |node.children| - k
  {
    KidShown(cs, node, k, marked, i);
    if k < |node.children| {
      UnmarkedIsShown(cs, node.children[k].node, marked, i);
      ItemsShowAll(cs, node, k + 1, marked + MarksIn(cs, node.children[k].node), i);
    }
  }

  /** The whole tree: a comment some list marks is written as nobody's comment, and
      as code exactly once where no list takes early what another below it has;
      any other is written as code never, and as a comment as often as the parser
      attached it. */
  lemma WholeTree(cs: seq<Comment>, root: Node, i: nat)
    requires Sorted(cs) && Shaped(cs, root) && HeldBelow(cs, root, i)
    ensures var out := Out(cs, root, {});
            if i in MarksIn(cs, root) then
              TimesShown(out, i) == 0 && TimesListed(out, i) >= 1 &&
              (TimesListed(out, i) == 1 <==> !TakenEarly(cs, root, i))
            else TimesListed(out, i) == 0 && TimesShown(out, i) == TimesAttached(root, i)
  {
    TimesOut(cs, root, {}, i);
    OutListsOnce(cs, root, i);
    if i in MarksIn(cs, root) {
      MarkedIsNotShown(cs, root, {}, i);
    } else {
      UnmarkedIsShown(cs, root, {}, i);
    }
  }

  // ------------------------------------------------------------------
  // Where the parser puts comments, and trees it makes

  /** How the parser hands comments out: one in a gap of a node goes to the node or to
      the child on one side; none goes further. `outer` says which are in a gap of
      the node's own parent. */
  ghost predicate Attached(cs: seq<Comment>, node: Node, outer: set<nat>)
    decreases node
  {
    && (forall c <- node.comments :: c < |cs| && (InSomeGap(cs, node, c) || c in outer))
    && forall k | 0 <= k < |node.children| :: Attached(cs, node.children[k].node, Gaps(cs, node))
  }

  ghost function Gaps(cs: seq<Comment>, node: Node): set<nat> {
    set i | 0 <= i < |cs| && InSomeGap(cs, node, i)
  }

  /** Some node at or below has the comment in a gap. */
  ghost predicate Reaches(cs: seq<Comment>, node: Node, i: nat)
    decreases node
  {
    InSomeGap(cs, node, i) || exists k :: 0 <= k < |node.children| && Reaches(cs, node.children[k].node, i)
  }

  /** What is marked below a node it has in no gap of its own, but to mark it too, and
      no other child reaches it. */
  ghost predicate InTurn(cs: seq<Comment>, node: Node, i: nat)
    decreases node
  {
    && (forall k | 0 <= k < |node.children| && i in MarksIn(cs, node.children[k].node) ::
          (InSomeGap(cs, node, i) ==> MarkedBy(cs, node, i)) &&
          forall j | 0 <= j < |node.children| && j != k :: !Reaches(cs, node.children[j].node, i))
    && forall k | 0 <= k < |node.children| :: InTurn(cs, node.children[k].node, i)
  }

  lemma {:induction false} NotReached(cs: seq<Comment>, node: Node, outer: set<nat>, i: nat)
    requires Attached(cs, node, outer) && !Reaches(cs, node, i) && i !in outer
    ensures TimesAttached(node, i) == 0
    decreases node, |node.children| + 1
  {
    hide InSomeGap, Gaps;
    TimesLeft(node.comments, {}, i);
    NotReachedFrom(cs, node, outer, 0, i);
  }

  lemma {:induction false} NotReachedFrom(cs: seq<Comment>, node: Node, outer: set<nat>, k: nat, i: nat)
    requires Attached(cs, node, outer) && !Reaches(cs, node, i) && k <= |node.children|
    ensures AttachedFrom(node, k, i) == 0
    decreases node, |node.children| - k
  {
    if k < |node.children| {
      assert Attached(cs, node.children[k].node, Gaps(cs, node));
      NotReached(cs, node.children[k].node, Gaps(cs, node), i);
      NotReachedFrom(cs, node, outer, k + 1, i);
    }
  }

  /** Handed out so, a comment is held at or below the outermost list that marks it. */
  lemma {:induction false} AttachedIsHeld(cs: seq<Comment>, node: Node, outer: set<nat>, i: nat)
    requires Attached(cs, node, outer) && InTurn(cs, node, i) && (i in MarksIn(cs, node) ==> i !in outer)
    ensures HeldBelow(cs, node, i)
    decreases node
  {
    hide InSomeGap, MarkedBy, MarksIn;
    if !MarkedBy(cs, node, i) {
      forall k | 0 <= k < |node.children| && i in MarksIn(cs, node.children[k].node)
        ensures i !in node.comments && i !in Gaps(cs, node)
        ensures forall j | 0 <= j < |node.children| && j != k :: TimesAttached(node.children[j].node, i) == 0
      {
        MarksOfChild(cs, node, 0, k, i);
        assert i in MarksIn(cs, node) by { OutIs(cs, node, {}); }
        forall j | 0 <= j < |node.children| && j != k ensures TimesAttached(node.children[j].node, i) == 0 {
          NotReached(cs, node.children[j].node, Gaps(cs, node), i);
        }
      }
      forall k | 0 <= k < |node.children| ensures HeldBelow(cs, node.children[k].node, i) {
        AttachedIsHeld(cs, node.children[k].node, Gaps(cs, node), i);
      }
    }
  }

  /** Spans inside their parents' and in the order they are written. */
  predicate Nested(node: Node)
    decreases node
  {
    && node.start <= node.end
    && (forall k | 0 <= k < |node.children| ::
          && Nested(node.children[k].node)
          && node.start <= node.children[k].node.start && node.children[k].node.end <= node.end)
    && (forall j, k | 0 <= j < k < |node.children| :: node.children[j].node.end <= node.children[k].node.start)
  }

  lemma {:induction false} NestedCovers(cs: seq<Comment>, node: Node, i: nat)
    requires Nested(node) && Covers(cs, node, i)
    ensures Spans(cs, node, i)
    decreases node
  {
    if !(node.holds && Spans(cs, node, i)) {
      var k :| 0 <= k < |node.children| && Covers(cs, node.children[k].node, i);
      NestedCovers(cs, node.children[k].node, i);
    }
  }

  lemma {:induction false} NestedReaches(cs: seq<Comment>, node: Node, i: nat)
    requires Sorted(cs) && Nested(node) && Reaches(cs, node, i)
    ensures Spans(cs, node, i)
    decreases node
  {
    hide InGap, FirstAt;
    if InSomeGap(cs, node, i) {
      var k :| 0 <= k <= |node.children| && InGap(cs, node, k, i);
      GapIs(cs, node, k, i);
      if k < |node.children| {
        assert Nested(node.children[k].node);
      }
    } else {
      var k :| 0 <= k < |node.children| && Reaches(cs, node.children[k].node, i);
      NestedReaches(cs, node.children[k].node, i);
    }
  }

  /** A tree of spans inside spans, in the order they are written, is all of that: so
      the only trees in which a comment is listed twice are those whose lists are
      visited in another order. */
  lemma {:induction false} NestedIsShaped(cs: seq<Comment>, node: Node, i: nat)
    requires Sorted(cs) && Nested(node)
    ensures Shaped(cs, node) && InOrder(node) && InTurn(cs, node, i)
    decreases node
  {
    hide InGap, FirstAt, InSomeGap, MarksIn, Covers, Spans, Reaches, MarkedBy;
    forall k | 0 <= k < |node.children|
      ensures Shaped(cs, node.children[k].node) && InOrder(node.children[k].node) && InTurn(cs, node.children[k].node, i)
    {
      NestedIsShaped(cs, node.children[k].node, i);
    }
    forall k, c | 0 <= k < |node.children| && Covers(cs, node.children[k].node, c)
      ensures Spans(cs, node.children[k].node, c)
      ensures forall j | 0 <= j < |node.children| && j != k :: !Covers(cs, node.children[j].node, c)
    {
      InOneChild(cs, node, k, c);
    }
    assert forall j, k | 0 <= j < k < |node.children| ::
        Nested(node.children[j].node) && node.children[j].node.end <= node.children[k].node.start;
    forall k | 0 <= k < |node.children| && i in MarksIn(cs, node.children[k].node)
      ensures !InSomeGap(cs, node, i)
      ensures forall j | 0 <= j < |node.children| && j != k :: !Reaches(cs, node.children[j].node, i)
    {
      MarksCover(cs, node.children[k].node, i);
      InOneChild(cs, node, k, i);
    }
  }

  lemma InOneChild(cs: seq<Comment>, node: Node, k: nat, i: nat)
    requires Sorted(cs) && Nested(node) && k < |node.children| && Covers(cs, node.children[k].node, i)
    ensures Spans(cs, node.children[k].node, i) && !InSomeGap(cs, node, i)
    ensures forall j | 0 <= j < |node.children| && j != k ::
              !Covers(cs, node.children[j].node, i) && !Reaches(cs, node.children[j].node, i)
  {
    hide InGap, FirstAt, Covers, Reaches;
    NestedCovers(cs, node.children[k].node, i);
    forall j | 0 <= j < |node.children| && j != k
      ensures !Covers(cs, node.children[j].node, i) && !Reaches(cs, node.children[j].node, i)
    {
      if Covers(cs, node.children[j].node, i) {
        NestedCovers(cs, node.children[j].node, i);
      }
      if Reaches(cs, node.children[j].node, i) {
        NestedReaches(cs, node.children[j].node, i);
      }
    }
    if InSomeGap(cs, node, i) {
      var j :| 0 <= j <= |node.children| && InGap(cs, node, j, i);
      EarlyGap(cs, node, j, k, i);
    }
  }

  /** repeat^ 3 { prolog^: a() #[~ b() ]# c()  main^: d() }: the block visits d()
      before the clause, and so lists what stands in the clause among its own
      statements; the clause lists it again. */
  const CALLED_FIRST: Node := Node(48, 51, false, [], [])
  const CLAUSE: Node :=
    Node(12, 39, true,
         [Child(true, Node(21, 24, false, [], [])), Child(true, Node(36, 39, false, [], []))], [])
  const LEADING: Node := Node(10, 53, true, [Child(true, CALLED_FIRST), Child(false, CLAUSE)], [0])
  const INSIDE: seq<Comment> := [Comment(25, true)]

  lemma LeadingClauseTwice()
    ensures Sorted(INSIDE) && Shaped(INSIDE, LEADING) && HeldBelow(INSIDE, LEADING, 0) && TakenEarly(INSIDE, LEADING, 0)
    ensures TimesListed(Out(INSIDE, LEADING, {}), 0) == 2 && TimesShown(Out(INSIDE, LEADING, {}), 0) == 0
  {
    hide Out, TimesListed, TimesShown, FirstAt, GapHoldersFrom, Listers, ListersFrom, GapHolders, Shaped, InSomeGap,
         InGap, TakesEarly;
    LeadingGaps();
    LeadingIsShaped();
    ClauseHolds();
    TimesOut(INSIDE, LEADING, {}, 0);
    LeadingListers();
    ShownAtMost(INSIDE, LEADING, {}, 0);
    TakesEarlyIff(INSIDE, LEADING, 0);
  }

  lemma OneComment(offset: nat)
    ensures FirstAt(INSIDE, offset) == if offset <= 25 then 0 else 1
  {
    assert INSIDE[1..] == [];
  }

  /** The block has it in its gap before d(), the clause in the one after a(). */
  lemma LeadingGaps()
    ensures InGap(INSIDE, LEADING, 0, 0) && MarkedBy(INSIDE, LEADING, 0) && InSomeGap(INSIDE, LEADING, 0)
    ensures InGap(INSIDE, CLAUSE, 1, 0) && InSomeGap(INSIDE, CLAUSE, 0)
  {
    hide FirstAt;
    OneComment(10);
    OneComment(48);
    OneComment(12);
    OneComment(21);
    OneComment(24);
    OneComment(36);
    assert GapFrom(INSIDE, LEADING, 0) == 0 && GapTo(INSIDE, LEADING, 0) == 1;
    assert InGap(INSIDE, LEADING, 0, 0) && AmongAt(LEADING, 0);
    assert GapFrom(INSIDE, CLAUSE, 0) == 0 && GapTo(INSIDE, CLAUSE, 0) == 0;
    assert GapFrom(INSIDE, CLAUSE, 1) == 0 && GapTo(INSIDE, CLAUSE, 1) == 1;
    assert InGap(INSIDE, CLAUSE, 1, 0);
  }

  lemma Leaf(node: Node, i: nat)
    requires !node.holds && node.children == []
    ensures Shaped(INSIDE, node) && !Covers(INSIDE, node, i) && GapHolders(INSIDE, node, i) == 0
  {
  }

  lemma LeadingIsShaped()
    ensures Shaped(INSIDE, LEADING)
  {
    var a, c := CLAUSE.children[0].node, CLAUSE.children[1].node;
    forall i: nat ensures !Covers(INSIDE, CALLED_FIRST, i) && !Covers(INSIDE, a, i) && !Covers(INSIDE, c, i) {
      Leaf(CALLED_FIRST, i);
      Leaf(a, i);
      Leaf(c, i);
    }
    Leaf(CALLED_FIRST, 0);
    Leaf(a, 0);
    Leaf(c, 0);
    assert Shaped(INSIDE, CLAUSE);
    forall i: nat ensures Covers(INSIDE, CLAUSE, i) ==> Spans(INSIDE, CLAUSE, i) {
    }
  }

  lemma ClauseHolds()
    ensures GapHoldersFrom(INSIDE, LEADING, 0, 0) == 1
  {
    hide FirstAt, InGap, InSomeGap;
    LeadingGaps();
    var a, c := CLAUSE.children[0].node, CLAUSE.children[1].node;
    Leaf(CALLED_FIRST, 0);
    Leaf(a, 0);
    Leaf(c, 0);
    assert GapHoldersFrom(INSIDE, CLAUSE, 2, 0) == 0;
    assert GapHoldersFrom(INSIDE, CLAUSE, 1, 0) == 0;
    assert GapHolders(INSIDE, CLAUSE, 0) == 1;
    assert GapHoldersFrom(INSIDE, LEADING, 2, 0) == 0;
    assert GapHoldersFrom(INSIDE, LEADING, 1, 0) == 1;
  }

  lemma LeadingListers()
    ensures Listers(INSIDE, LEADING, 0, false) == 2
  {
    hide FirstAt, InGap, InSomeGap, GapHoldersFrom, ListersFrom, MarkedBy;
    LeadingGaps();
    ClauseHolds();
    KnownAllFrom(INSIDE, LEADING, 0, 0);
  }
}
