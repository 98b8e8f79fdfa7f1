/** Disabled code listed among the statements it stands between: one walk over a
    node's children marks it, a second writes it out, and whoever holds the
    comment leaves it out (lsp/ast_json.c). */
module Listing {
  import opened Wrappers

  /** `disabled`: a '#[~ ... ]#'. */
  datatype Comment = Comment(offset: nat, disabled: bool)

  /** `holds`: a block or a loop's clause, which lists statements. `comments` are
      those the parser attached to the node, by their place among them all. */
  datatype Node = Node(start: nat, end: nat, holds: bool, children: seq<Child>, comments: seq<nat>)

  /** `among`: in the place the node's statements are in. */
  datatype Child = Child(among: bool, node: Node)

  datatype Json = Json(start: nat, end: nat, comments: seq<nat>, items: seq<Item>)

  datatype Item = Listed(comment: nat) | Kid(among: bool, json: Json)

  predicate Sorted(cs: seq<Comment>) {
    forall i, j | 0 <= i < j < |cs| :: cs[i].offset < cs[j].offset
  }

  // ------------------------------------------------------------------
  // The comments between the children

  function FirstAt(cs: seq<Comment>, offset: nat): (n: nat)
    ensures n <= |cs|
    ensures forall i | 0 <= i < n :: cs[i].offset < offset
    ensures n < |cs| ==> cs[n].offset >= offset
  {
    if cs == [] || cs[0].offset >= offset then 0 else 1 + FirstAt(cs[1..], offset)
  }

  function Max(a: nat, b: nat): nat {
    if a < b then b else a
  }

  /** Where the cursor stands before child k of those a walk visits: past the ones
      before it, each as far as it reaches. It never goes back, so a child written
      before one already visited leaves it where it is. */
  function GapFrom(cs: seq<Comment>, node: Node, k: nat): nat
    requires k <= |node.children|
    decreases k, 0
  {
    if k == 0 then FirstAt(cs, node.start)
    else Max(GapTo(cs, node, k - 1), FirstAt(cs, node.children[k - 1].node.end))
  }

  /** How far it goes before that child, or before the node's end. */
  function GapTo(cs: seq<Comment>, node: Node, k: nat): nat
    requires k <= |node.children|
    decreases k, 1
  {
    Max(GapFrom(cs, node, k), FirstAt(cs, if k == |node.children| then node.end else node.children[k].node.start))
  }

  predicate InGap(cs: seq<Comment>, node: Node, k: nat, i: nat)
    requires k <= |node.children|
  {
    GapFrom(cs, node, k) <= i < GapTo(cs, node, k)
  }

  /** In one of the stretches a walk over the node's children passes by itself. */
  ghost predicate InSomeGap(cs: seq<Comment>, node: Node, i: nat) {
    exists k :: 0 <= k <= |node.children| && InGap(cs, node, k, i)
  }

  predicate AmongAt(node: Node, k: nat)
    requires k <= |node.children|
  {
    k == 0 || node.children[k - 1].among
  }

  /** What a node marks: the disabled code in its own gaps, past no child that is
      in another place than its statements. */
  ghost predicate MarkedBy(cs: seq<Comment>, node: Node, i: nat) {
    node.holds && i < |cs| && cs[i].disabled &&
    exists k :: 0 <= k <= |node.children| && InGap(cs, node, k, i) && AmongAt(node, k)
  }

  ghost function Marks(cs: seq<Comment>, node: Node): set<nat> {
    set i | 0 <= i < |cs| && MarkedBy(cs, node, i)
  }

  ghost function MarksIn(cs: seq<Comment>, node: Node): set<nat>
    decreases node, |node.children| + 1
  {
    Marks(cs, node) + MarksFrom(cs, node, 0)
  }

  ghost function MarksFrom(cs: seq<Comment>, node: Node, k: nat): set<nat>
    requires k <= |node.children|
    decreases node, |node.children| - k
  {
    if k == |node.children| then {} else MarksIn(cs, node.children[k].node) + MarksFrom(cs, node, k + 1)
  }

  // ------------------------------------------------------------------
  // What is written, given what is marked by then

  function ListedIn(from: nat, end: nat, marked: set<nat>): seq<Item>
    decreases end - from
  {
    if from >= end then []
    else (if from in marked then [Listed(from)] else []) + ListedIn(from + 1, end, marked)
  }

  function LeftIn(comments: seq<nat>, marked: set<nat>): seq<nat> {
    if comments == [] then []
    else (if comments[0] in marked then [] else [comments[0]]) + LeftIn(comments[1..], marked)
  }

  ghost function Out(cs: seq<Comment>, node: Node, marked: set<nat>): Json
    decreases node, |node.children| + 1
  {
    var now := marked + Marks(cs, node);
    Json(node.start, node.end, LeftIn(node.comments, now), Items(cs, node, 0, now))
  }

  ghost function Gap(cs: seq<Comment>, node: Node, k: nat, marked: set<nat>): seq<Item>
    requires k <= |node.children|
  {
    if node.holds then ListedIn(GapFrom(cs, node, k), GapTo(cs, node, k), marked) else []
  }

  ghost function Items(cs: seq<Comment>, node: Node, k: nat, marked: set<nat>): seq<Item>
    requires k <= |node.children|
    decreases node, |node.children| - k
  {
    Gap(cs, node, k, marked) +
    if k == |node.children| then []
    else
      var child := node.children[k];
      [Kid(child.among, Out(cs, child.node, marked))]
      + Items(cs, node, k + 1, marked + MarksIn(cs, child.node))
  }

  // ------------------------------------------------------------------
  // The walks

  /** first_comment_at. */
  method FirstCommentAt(cs: seq<Comment>, offset: nat) returns (low: nat)
    requires Sorted(cs)
    ensures low == FirstAt(cs, offset)
  {
    low := 0;
    var high := |cs|;
    while low < high
      invariant low <= FirstAt(cs, offset) <= high <= |cs|
    {
      var middle := low + (high - low) / 2;
      if cs[middle].offset < offset {
        low := middle + 1;
      } else {
        high := middle;
      }
    }
  }

  ghost function SetOf(listed: seq<bool>): set<nat> {
    set i | 0 <= i < |listed| && listed[i]
  }

  /** Moving a cursor to the first comment at or after a limit. */
  method PassTo(cs: seq<Comment>, next: nat, limit: nat) returns (after: nat)
    requires Sorted(cs)
    ensures after == Max(next, FirstAt(cs, limit))
  {
    after := next;
    while after < |cs| && cs[after].offset < limit
      invariant next <= after <= Max(next, FirstAt(cs, limit))
    {
      after := after + 1;
    }
  }

  /** mark_listed_before. */
  method MarkBefore(cs: seq<Comment>, listed: array<bool>, among: bool, next: nat, limit: nat) returns (after: nat)
    requires Sorted(cs) && listed.Length == |cs|
    modifies listed
    ensures after == Max(next, FirstAt(cs, limit))
    ensures forall i | 0 <= i < |cs| ::
      listed[i] <==> old(listed[i]) || (among && next <= i < after && cs[i].disabled)
  {
    after := next;
    while after < |cs| && cs[after].offset < limit
      invariant next <= after <= Max(next, FirstAt(cs, limit))
      invariant forall i | 0 <= i < |cs| ::
        listed[i] <==> old(listed[i]) || (among && next <= i < after && cs[i].disabled)
    {
      if among && cs[after].disabled {
        listed[after] := true;
      }
      after := after + 1;
    }
  }

  ghost predicate MarkedUpTo(cs: seq<Comment>, node: Node, n: nat, i: nat)
    requires n <= |node.children| + 1
  {
    i < |cs| && cs[i].disabled &&
    exists k :: 0 <= k < n && InGap(cs, node, k, i) && AmongAt(node, k)
  }

  /** mark_listed, of a node that lists statements. */
  method MarkListed(cs: seq<Comment>, node: Node, listed: array<bool>)
    requires Sorted(cs) && node.holds && listed.Length == |cs|
    modifies listed
    ensures forall i | 0 <= i < |cs| :: listed[i] <==> old(listed[i]) || MarkedBy(cs, node, i)
  {
    hide MarkedUpTo, MarkedBy, FirstAt;
    NoGapYet(cs, node);
    var next := FirstCommentAt(cs, node.start);
    var among := true;
    for k := 0 to |node.children|
      invariant next == GapFrom(cs, node, k) && among == AmongAt(node, k)
      invariant forall i | 0 <= i < |cs| :: listed[i] <==> old(listed[i]) || MarkedUpTo(cs, node, k, i)
    {
      var child := node.children[k];
      next := MarkBefore(cs, listed, among, next, child.node.start);
      OneMoreGap(cs, node, k);
      next := PassTo(cs, next, child.node.end);
      among := child.among;
    }
    next := MarkBefore(cs, listed, among, next, node.end);
    OneMoreGap(cs, node, |node.children|);
  }

  lemma NoGapYet(cs: seq<Comment>, node: Node)
    ensures forall i: nat :: !MarkedUpTo(cs, node, 0, i)
  {
  }

  lemma OneMoreGap(cs: seq<Comment>, node: Node, k: nat)
    requires k <= |node.children|
    ensures forall i | 0 <= i < |cs| ::
      MarkedUpTo(cs, node, k + 1, i) <==>
      MarkedUpTo(cs, node, k, i) || (cs[i].disabled && InGap(cs, node, k, i) && AmongAt(node, k))
    ensures k == |node.children| && node.holds ==>
      forall i | 0 <= i < |cs| :: MarkedUpTo(cs, node, k + 1, i) <==> MarkedBy(cs, node, i)
  {
    hide InGap, AmongAt;
  }

  /** list_disabled_before. */
  method ListBefore(cs: seq<Comment>, listed: array<bool>, next: nat, limit: nat)
    returns (after: nat, items: seq<Item>)
    requires Sorted(cs) && listed.Length == |cs|
    ensures after == Max(next, FirstAt(cs, limit))
    ensures items == ListedIn(next, after, SetOf(listed[..]))
  {
    after := next;
    items := [];
    while after < |cs| && cs[after].offset < limit
      invariant next <= after <= Max(next, FirstAt(cs, limit))
      invariant items == ListedIn(next, after, SetOf(listed[..]))
    {
      ListingOneMore(next, after, SetOf(listed[..]));
      if listed[after] {
        items := items + [Listed(after)];
      }
      after := after + 1;
    }
  }

  lemma {:induction false} ListingOneMore(from: nat, end: nat, marked: set<nat>)
    requires from <= end
    ensures ListedIn(from, end + 1, marked) == ListedIn(from, end, marked) + (if end in marked then [Listed(end)] else [])
    decreases end - from
  {
    if from < end {
      ListingOneMore(from + 1, end, marked);
    } else {
      assert ListedIn(end + 1, end + 1, marked) == [];
    }
  }

  method AddComments(comments: seq<nat>, listed: array<bool>) returns (left: seq<nat>)
    requires forall c <- comments :: c < listed.Length
    ensures left == LeftIn(comments, SetOf(listed[..]))
  {
    hide LeftIn;
    left := [];
    ghost var marked := SetOf(listed[..]);
    assert LeftIn([], marked) == [] by { LeftInNone(marked); }
    for i := 0 to |comments|
      invariant left == LeftIn(comments[..i], marked)
    {
      LeftOneMore(comments, i, marked);
      assert comments[i] in comments;
      if !listed[comments[i]] {
        left := left + [comments[i]];
      }
    }
    assert comments[..|comments|] == comments;
  }

  lemma LeftInNone(marked: set<nat>)
    ensures LeftIn([], marked) == []
  {
  }

  lemma {:induction false} LeftOneMore(comments: seq<nat>, i: nat, marked: set<nat>)
    requires i < |comments|
    ensures LeftIn(comments[..i + 1], marked) ==
            LeftIn(comments[..i], marked) + (if comments[i] in marked then [] else [comments[i]])
    decreases i
  {
    if i > 0 {
      assert comments[..i + 1][1..] == comments[1..][..i] && comments[..i][1..] == comments[1..][..i - 1];
      LeftOneMore(comments[1..], i - 1, marked);
    }
  }

  lemma OutIs(cs: seq<Comment>, node: Node, marked: set<nat>)
    ensures var now := marked + Marks(cs, node);
            Out(cs, node, marked) == Json(node.start, node.end, LeftIn(node.comments, now), Items(cs, node, 0, now))
    ensures MarksIn(cs, node) == Marks(cs, node) + MarksFrom(cs, node, 0)
  {
  }

  lemma NothingMarked(cs: seq<Comment>, node: Node)
    requires !node.holds
    ensures Marks(cs, node) == {}
  {
  }

  lemma ItemsAt(cs: seq<Comment>, node: Node, k: nat, marked: set<nat>)
    requires k <= |node.children|
    ensures Items(cs, node, k, marked) ==
            Gap(cs, node, k, marked) +
            (if k == |node.children| then []
             else
               [Kid(node.children[k].among, Out(cs, node.children[k].node, marked))]
               + Items(cs, node, k + 1, marked + MarksIn(cs, node.children[k].node)))
    ensures MarksFrom(cs, node, k) ==
            if k == |node.children| then {} else MarksIn(cs, node.children[k].node) + MarksFrom(cs, node, k + 1)
  {
  }

  /** Every comment a node is given is one there is. */
  predicate Known(cs: seq<Comment>, node: Node)
    decreases node
  {
    && (forall c <- node.comments :: c < |cs|)
    && forall k | 0 <= k < |node.children| :: Known(cs, node.children[k].node)
  }

  /** What is listed before child k, and the cursor past that child. */
  method WriteGap(cs: seq<Comment>, node: Node, k: nat, listed: array<bool>, next: nat)
    returns (after: nat, gap: seq<Item>)
    requires Sorted(cs) && listed.Length == |cs| && k <= |node.children|
    requires node.holds ==> next == GapFrom(cs, node, k)
    ensures gap == Gap(cs, node, k, SetOf(listed[..]))
    ensures node.holds && k < |node.children| ==> after == GapFrom(cs, node, k + 1)
  {
    hide FirstAt, ListedIn, Sorted;
    after, gap := next, [];
    if node.holds {
      after, gap := ListBefore(cs, listed, next, if k == |node.children| then node.end else node.children[k].node.start);
      if k < |node.children| {
        after := PassTo(cs, after, node.children[k].node.end);
      }
    }
  }

  /** node_to_json with fill_node: marks first, then the node's comments, then its
      children with what is listed between them. */
  method NodeToJson(cs: seq<Comment>, node: Node, listed: array<bool>) returns (out: Json)
    requires Sorted(cs) && Known(cs, node) && listed.Length == |cs|
    modifies listed
    ensures out == Out(cs, node, SetOf(old(listed[..])))
    ensures SetOf(listed[..]) == SetOf(old(listed[..])) + MarksIn(cs, node)
    decreases node
  {
    hide Items, MarksFrom, MarksIn, Out, FirstAt, MarkedBy, LeftIn, ListedIn, Sorted, Gap;
    OutIs(cs, node, SetOf(listed[..]));
    if node.holds {
      MarkListed(cs, node, listed);
    } else {
      NothingMarked(cs, node);
    }
    ghost var now := SetOf(old(listed[..])) + Marks(cs, node);
    assert SetOf(listed[..]) == now;
    var comments := AddComments(node.comments, listed);
    var next := 0;
    if node.holds {
      next := FirstCommentAt(cs, node.start);
    }
    var items: seq<Item> := [];
    for k := 0 to |node.children|
      invariant node.holds ==> next == GapFrom(cs, node, k)
      invariant items + Items(cs, node, k, SetOf(listed[..])) == Items(cs, node, 0, now)
      invariant SetOf(listed[..]) + MarksFrom(cs, node, k) == now + MarksFrom(cs, node, 0)
    {
      var child := node.children[k];
      ItemsAt(cs, node, k, SetOf(listed[..]));
      var gap;
      next, gap := WriteGap(cs, node, k, listed, next);
      items := items + gap;
      var json := NodeToJson(cs, child.node, listed);
      items := items + [Kid(child.among, json)];
    }
    ItemsAt(cs, node, |node.children|, SetOf(listed[..]));
    var tail;
    next, tail := WriteGap(cs, node, |node.children|, listed, next);
    items := items + tail;
    out := Json(node.start, node.end, comments, items);
  }
}
