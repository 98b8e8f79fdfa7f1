/** Walking a chain of nodes to its end without keeping what was seen: a list
    up to its NULL, or a ring and the prefix leading into it (src/chain.h).

    Nodes are names; `next` is the successor callback of a chain, a finite map
    that is closed under itself. Reading `next[n]` needs `n in next`, so "the
    callback is never applied to NULL" is part of what is verified. */
module Chain {
  import opened Wrappers

  type Node = nat
  type Link = Option<Node>
  type Successor = map<Node, Link>

  const SIZE_MAX: nat := 0xFFFF_FFFF_FFFF_FFFF

  ghost predicate Inside(next: Successor, at: Link) {
    at.Some? ==> at.value in next
  }

  ghost predicate Closed(next: Successor) {
    forall n <- next :: Inside(next, next[n])
  }

  /** The node `k` links after `start`; NULL from the end of a list on. */
  ghost function At(next: Successor, start: Link, k: nat): (at: Link)
    requires Closed(next) && Inside(next, start)
    ensures Inside(next, at)
  {
    if k == 0 then start
    else
      var before := At(next, start, k - 1);
      if before.None? then None else next[before.value]
  }

  /** A chain is a list of `prefix` nodes (`ring == 0`), or `prefix` nodes that
      lead into a ring of `ring` nodes. */
  datatype Shape = Shape(prefix: nat, ring: nat) {
    function Size(): nat { prefix + ring }
  }

  ghost predicate HasShape(next: Successor, start: Link, shape: Shape)
    requires Closed(next) && Inside(next, start)
  {
    && (forall i | 0 <= i < shape.Size() :: At(next, start, i).Some?)
    && (forall i, j | 0 <= i < j < shape.Size() :: At(next, start, i) != At(next, start, j))
    && At(next, start, shape.Size()) ==
       if shape.ring == 0 then None else At(next, start, shape.prefix)
  }

  // ------------------------------------------------------------------
  // The rho sequence

  lemma {:induction false} AfterEnd(next: Successor, start: Link, n: nat, k: nat)
    requires Closed(next) && Inside(next, start)
    requires At(next, start, n).None? && n <= k
    ensures At(next, start, k).None?
  {
    if n < k {
      AfterEnd(next, start, n, k - 1);
    }
  }

  lemma {:induction false} AddSteps(next: Successor, start: Link, i: nat, j: nat, d: nat)
    requires Closed(next) && Inside(next, start)
    requires At(next, start, i) == At(next, start, j)
    ensures At(next, start, i + d) == At(next, start, j + d)
  {
    if d > 0 {
      AddSteps(next, start, i, j, d - 1);
    }
  }

  /** Where index `k` of a rho sequence first occurred. */
  ghost function First(shape: Shape, k: nat): (i: nat)
    requires shape.ring > 0
    ensures i < shape.Size()
    ensures i <= k
    ensures k < shape.Size() ==> i == k
    ensures k >= shape.prefix ==> i >= shape.prefix
    decreases k
  {
    if k < shape.Size() then k else First(shape, k - shape.ring)
  }

  lemma {:induction false} FirstOccurrence(next: Successor, start: Link, shape: Shape, k: nat)
    requires Closed(next) && Inside(next, start)
    requires HasShape(next, start, shape) && shape.ring > 0
    ensures At(next, start, k) == At(next, start, First(shape, k))
    ensures At(next, start, k).Some?
    decreases k
  {
    if k >= shape.Size() {
      var d := k - shape.Size();
      AddSteps(next, start, shape.Size(), shape.prefix, d);
      FirstOccurrence(next, start, shape, k - shape.ring);
    }
  }

  /** Two indices meet exactly when they first occurred at the same place. */
  lemma MeetIff(next: Successor, start: Link, shape: Shape, i: nat, j: nat)
    requires Closed(next) && Inside(next, start)
    requires HasShape(next, start, shape) && shape.ring > 0
    ensures At(next, start, i) == At(next, start, j) <==> First(shape, i) == First(shape, j)
  {
    FirstOccurrence(next, start, shape, i);
    FirstOccurrence(next, start, shape, j);
  }

  /** In numbers: they are one, or both are in the ring and whole laps apart. */
  lemma LapsApartIff(next: Successor, start: Link, shape: Shape, i: nat, j: nat)
    requires Closed(next) && Inside(next, start)
    requires HasShape(next, start, shape) && shape.ring > 0 && i < j
    ensures At(next, start, i) == At(next, start, j) <==> i >= shape.prefix && (j - i) % shape.ring == 0
  {
    MeetIff(next, start, shape, i, j);
    FirstIs(shape, i);
    FirstIs(shape, j);
    if i >= shape.prefix {
      SameRemainder(i - shape.prefix, j - shape.prefix, shape.ring);
    }
  }

  /** After n calls slow is n links on and fast 2n: they stand on one node exactly
      when n is past the prefix and whole laps. */
  lemma SlowMeetsFastIff(next: Successor, start: Link, shape: Shape, n: nat)
    requires Closed(next) && Inside(next, start)
    requires HasShape(next, start, shape) && shape.ring > 0 && n >= 1
    ensures At(next, start, n) == At(next, start, 2 * n) <==> n >= shape.prefix && n % shape.ring == 0
  {
    LapsApartIff(next, start, shape, n, 2 * n);
  }

  lemma {:induction false} FirstIs(shape: Shape, k: nat)
    requires shape.ring > 0
    ensures First(shape, k) == if k < shape.prefix then k else shape.prefix + (k - shape.prefix) % shape.ring
    decreases k
  {
    if k >= shape.Size() {
      FirstIs(shape, k - shape.ring);
      SameRemainder(k - shape.ring - shape.prefix, k - shape.prefix, shape.ring);
    }
  }

  lemma SameRemainder(a: nat, b: nat, ring: nat)
    requires ring > 0 && a <= b
    ensures a % ring == b % ring <==> (b - a) % ring == 0
  {
    var p, q, d := a / ring, b / ring, (b - a) / ring;
    assert a == p * ring + a % ring && b == q * ring + b % ring && b - a == d * ring + (b - a) % ring;
    assert (p + d) * ring == p * ring + d * ring;
    assert (q - p) * ring == q * ring - p * ring;
    if a % ring == b % ring {
      OneDivision(q - p, 0, d, (b - a) % ring, ring);
    }
    if (b - a) % ring == 0 {
      OneDivision(q, b % ring, p + d, a % ring, ring);
    }
  }

  lemma OneDivision(p: int, a: int, q: int, b: int, ring: nat)
    requires 0 <= a < ring && 0 <= b < ring && p * ring + a == q * ring + b
    ensures p == q && a == b
  {
    if p > q {
      LapMore(p, q, ring);
    } else if p < q {
      LapMore(q, p, ring);
    }
  }

  lemma LapMore(p: int, q: int, ring: nat)
    requires p > q && ring > 0
    ensures p * ring >= q * ring + ring
  {
    assert (p - q - 1) * ring >= 0;
    assert (p - q - 1) * ring == p * ring - q * ring - ring;
  }

  /** An index before the prefix's end occurs nowhere else. */
  lemma PrefixMeetsNothing(next: Successor, start: Link, shape: Shape, p: nat, q: nat)
    requires Closed(next) && Inside(next, start)
    requires HasShape(next, start, shape) && shape.ring > 0
    requires p < shape.prefix && p < q
    ensures At(next, start, p) != At(next, start, q)
  {
    MeetIff(next, start, shape, p, q);
  }

  lemma {:induction false} LapsMeet(next: Successor, start: Link, shape: Shape, i: nat, laps: nat)
    requires Closed(next) && Inside(next, start)
    requires HasShape(next, start, shape) && shape.ring > 0
    requires i >= shape.prefix
    ensures i + laps * shape.ring >= 0
    ensures At(next, start, i + laps * shape.ring) == At(next, start, i)
    decreases laps
  {
    if laps > 0 {
      LapsMeet(next, start, shape, i, laps - 1);
      var back := i + (laps - 1) * shape.ring;
      assert back + shape.ring == i + laps * shape.ring;
      AddSteps(next, start, shape.Size(), shape.prefix, back - shape.prefix);
    }
  }

  /** Some lap brings slow and fast together no later than `Size()` calls. */
  lemma {:induction false} LapCount(prefix: nat, ring: nat) returns (laps: nat)
    requires ring > 0
    ensures 1 <= laps * ring <= prefix + ring && prefix <= laps * ring
    decreases prefix
  {
    if prefix <= ring {
      laps := 1;
    } else {
      var fewer := LapCount(prefix - ring, ring);
      laps := fewer + 1;
      assert laps * ring == fewer * ring + ring;
    }
  }

  /** Floyd's lookahead is in time: slow and fast have met by the call that
      would otherwise be the first to repeat a node. */
  lemma MeetsInTime(next: Successor, start: Link, shape: Shape) returns (k: nat)
    requires Closed(next) && Inside(next, start)
    requires HasShape(next, start, shape) && shape.ring > 0
    ensures 1 <= k <= shape.Size()
    ensures At(next, start, 2 * k).Some? && At(next, start, k) == At(next, start, 2 * k)
  {
    var laps := LapCount(shape.prefix, shape.ring);
    k := laps * shape.ring;
    LapsMeet(next, start, shape, k, laps);
    FirstOccurrence(next, start, shape, 2 * k);
  }

  lemma LapsCover(k: nat, ring: nat)
    requires ring > 0
    ensures k <= k * ring
  {
  }

  /** Where slow and fast have met after `k` calls, walking on `p` links from
      the start and from the meeting place arrives at one node exactly from the
      ring's entry on. */
  lemma MeetFromStart(next: Successor, start: Link, shape: Shape, k: nat, p: nat)
    requires Closed(next) && Inside(next, start)
    requires HasShape(next, start, shape) && shape.ring > 0
    requires 1 <= k && At(next, start, k) == At(next, start, 2 * k)
    ensures At(next, start, p) == At(next, start, k + p) <==> p >= shape.prefix
  {
    if p < shape.prefix {
      PrefixMeetsNothing(next, start, shape, p, k + p);
    } else {
      // k links bring the meeting place back to itself, so they do the same
      // to any node reached from it: k laps of the ring past p is one.
      var laps := k * shape.ring;
      LapsCover(k, shape.ring);
      LapsMeet(next, start, shape, p, k);
      AddSteps(next, start, k, 2 * k, p + laps - k);
      LapsMeet(next, start, shape, p + k, k);
      assert p + k + laps == 2 * k + (p + laps - k);
    }
  }

  /** From the ring's entry, the entry is next met after exactly one lap. */
  lemma MeetFromEntry(next: Successor, start: Link, shape: Shape, r: nat)
    requires Closed(next) && Inside(next, start)
    requires HasShape(next, start, shape) && 1 <= r <= shape.ring
    ensures At(next, start, shape.prefix + r) == At(next, start, shape.prefix) <==> r == shape.ring
  {
    MeetIff(next, start, shape, shape.prefix + r, shape.prefix);
  }

  // ------------------------------------------------------------------
  // Every finite graph has a shape

  /** The successor graph of a C program is finite, so a walk of it is a list
      or a ring with a prefix: there is nothing else to hand the iterator. */
  lemma EveryChainHasAShape(next: Successor, start: Link) returns (shape: Shape)
    requires Closed(next) && Inside(next, start)
    ensures HasShape(next, start, shape) && shape.Size() <= |next|
  {
    shape := ShapeAfter(next, start, [], {});
  }

  /** The walk has passed the nodes of `path`, all different. */
  lemma {:induction false} ShapeAfter(next: Successor, start: Link, path: seq<Node>, seen: set<Node>)
    returns (shape: Shape)
    requires Closed(next) && Inside(next, start)
    requires forall i | 0 <= i < |path| :: At(next, start, i) == Some(path[i]) && path[i] in seen
    requires forall n <- seen :: n in path && n in next
    requires forall i, j | 0 <= i < j < |path| :: path[i] != path[j]
    requires |seen| == |path|
    ensures HasShape(next, start, shape) && shape.Size() <= |next|
    decreases next.Keys - seen
  {
    var at := At(next, start, |path|);
    SubsetSize(seen, next.Keys);
    if at.None? {
      shape := Shape(|path|, 0);
    } else if at.value in seen {
      var i :| 0 <= i < |path| && path[i] == at.value;
      shape := Shape(i, |path| - i);
    } else {
      shape := ShapeAfter(next, start, path + [at.value], seen + {at.value});
    }
  }

  lemma {:induction false} SubsetSize(a: set<Node>, b: set<Node>)
    requires a <= b
    ensures |a| <= |b|
  {
    if a != {} {
      var n :| n in a;
      SubsetSize(a - {n}, b - {n});
    }
  }

  // ------------------------------------------------------------------
  // The iterator

  /** lhat_chain's walk: the fields lhat_chain_next updates in place. */
  class Walk {
    const next: Successor
    const start: Link
    var current: Link
    var slow: Link
    var fast: Link
    var count: nat
    var limit: nat

    ghost predicate Ready() {
      Closed(next) && Inside(next, start)
    }

    /** What holds between calls, for a chain of this shape. `fast` is NULL for
        good once it ran off a list's end; `limit` is set once, at the meeting. */
    ghost predicate Valid(shape: Shape)
      reads this
    {
      && Ready()
      && HasShape(next, start, shape)
      && shape.Size() < SIZE_MAX
      && count <= shape.Size()
      && current == At(next, start, count)
      && (limit == SIZE_MAX ==> Looking(shape))
      && (limit != SIZE_MAX ==> shape.ring > 0 && limit == shape.Size())
    }

    ghost predicate Looking(shape: Shape)
      requires Ready()
      reads this
    {
      && fast == At(next, start, 2 * count)
      && (fast.Some? ==> slow == At(next, start, count))
      && (forall k | 1 <= k <= count ::
            At(next, start, 2 * k).None? || At(next, start, k) != At(next, start, 2 * k))
    }

    constructor (start: Link, next: Successor)
      requires Closed(next) && Inside(next, start)
      ensures this.next == next && this.start == start && count == 0
      ensures forall shape | HasShape(next, start, shape) && shape.Size() < SIZE_MAX :: Valid(shape)
    {
      this.start, this.next := start, next;
      current, slow, fast := start, start, start;
      count, limit := 0, SIZE_MAX;
    }

    /** lhat_chain_next: the next node not yet answered, and NULL from then on. */
    method Next(ghost shape: Shape) returns (at: Link)
      requires Valid(shape)
      modifies this
      ensures Valid(shape)
      ensures old(count) < shape.Size() ==> at == At(next, start, old(count)) && at.Some?
      ensures old(count) < shape.Size() ==> count == old(count) + 1
      ensures old(count) == shape.Size() ==> at == None && unchanged(this)
    {
      at := current;
      if at == None || count == limit {
        assert count == shape.Size();
        return None;
      }
      if count == shape.Size() {
        // A ring walked whole has met by now, so the limit stopped it above.
        var k := MeetsInTime(next, start, shape);
        assert false;
      }
      current := next[at.value];
      count := count + 1;
      if fast != None && limit == SIZE_MAX {
        StillBehind(next, start, count);
        slow := next[slow.value];
        fast := next[fast.value];
        if fast != None {
          fast := next[fast.value];
        }
        if fast != None && slow == fast {
          var prefix, ring := MeasureRing(shape);
          limit := prefix + ring;
        }
      } else if limit == SIZE_MAX {
        AfterEnd(next, start, 2 * count - 2, 2 * count);
      }
    }

    /** The two counting loops at the meeting place. */
    method MeasureRing(ghost shape: Shape) returns (prefix: nat, ring: nat)
      requires Ready() && HasShape(next, start, shape)
      requires 1 <= count
      requires slow.Some? && slow == At(next, start, count) == At(next, start, 2 * count)
      ensures shape.ring > 0 && prefix == shape.prefix && ring == shape.ring
    {
      MeetingMeansRing(next, start, shape, count);
      prefix, ring := 0, 1;
      var entry, meet := start, slow;
      while entry != meet
        invariant prefix <= shape.prefix
        invariant entry == At(next, start, prefix) && meet == At(next, start, count + prefix)
        decreases shape.prefix - prefix
      {
        MeetFromStart(next, start, shape, count, prefix);
        FirstOccurrence(next, start, shape, prefix);
        FirstOccurrence(next, start, shape, count + prefix);
        entry := next[entry.value];
        meet := next[meet.value];
        prefix := prefix + 1;
      }
      MeetFromStart(next, start, shape, count, prefix);
      meet := next[entry.value];
      while meet != entry
        invariant 1 <= ring <= shape.ring
        invariant prefix == shape.prefix && entry == At(next, start, prefix)
        invariant meet == At(next, start, prefix + ring)
        decreases shape.ring - ring
      {
        MeetFromEntry(next, start, shape, ring);
        FirstOccurrence(next, start, shape, prefix + ring);
        meet := next[meet.value];
        ring := ring + 1;
      }
      MeetFromEntry(next, start, shape, ring);
    }
  }

  /** While the lookahead has not run off the end, neither has anything behind it. */
  lemma StillBehind(next: Successor, start: Link, count: nat)
    requires Closed(next) && Inside(next, start)
    requires 1 <= count && At(next, start, 2 * count - 2).Some?
    ensures At(next, start, count - 1).Some?
    ensures At(next, start, 2 * count - 1) == next[At(next, start, 2 * count - 2).value]
  {
    if At(next, start, count - 1).None? {
      AfterEnd(next, start, count - 1, 2 * count - 2);
    }
  }

  /** A list's slow and fast never stand on one node: meeting proves a ring. */
  lemma MeetingMeansRing(next: Successor, start: Link, shape: Shape, k: nat)
    requires Closed(next) && Inside(next, start)
    requires HasShape(next, start, shape)
    requires 1 <= k && At(next, start, 2 * k).Some? && At(next, start, k) == At(next, start, 2 * k)
    ensures shape.ring > 0
  {
    if shape.ring == 0 && 2 * k >= shape.Size() {
      AfterEnd(next, start, shape.Size(), 2 * k);
    }
  }

  /** Every node the chain reaches is one of its first `Size()`. */
  lemma ReachedEarly(next: Successor, start: Link, shape: Shape, k: nat) returns (i: nat)
    requires Closed(next) && Inside(next, start)
    requires HasShape(next, start, shape) && At(next, start, k).Some?
    ensures i < shape.Size() && At(next, start, i) == At(next, start, k)
  {
    if shape.ring > 0 {
      FirstOccurrence(next, start, shape, k);
      i := First(shape, k);
    } else {
      if k >= shape.Size() {
        AfterEnd(next, start, shape.Size(), k);
      }
      i := k;
    }
  }

  ghost predicate InChainOrder(next: Successor, start: Link, nodes: seq<Node>)
    requires Closed(next) && Inside(next, start)
  {
    forall i | 0 <= i < |nodes| :: At(next, start, i) == Some(nodes[i])
  }

  /** What a caller sees of the whole walk: calling until NULL gives every node
      reachable from the start, each exactly once, in chain order. */
  method Enumerate(next: Successor, start: Link) returns (nodes: seq<Node>)
    requires Closed(next) && Inside(next, start)
    requires |next| < SIZE_MAX
    ensures InChainOrder(next, start, nodes)
    ensures forall i, j | 0 <= i < j < |nodes| :: nodes[i] != nodes[j]
    ensures forall k: nat | At(next, start, k).Some? :: At(next, start, k).value in nodes
  {
    ghost var shape := EveryChainHasAShape(next, start);
    var walk := new Walk(start, next);
    nodes := Drain(walk, shape);
    forall k: nat | At(next, start, k).Some? ensures At(next, start, k).value in nodes {
      var i := ReachedEarly(next, start, shape, k);
      assert nodes[i] == At(next, start, k).value;
    }
    forall i, j | 0 <= i < j < |nodes| ensures nodes[i] != nodes[j] {
      assert At(next, start, i) != At(next, start, j);
    }
  }

  method Drain(walk: Walk, ghost shape: Shape) returns (nodes: seq<Node>)
    requires walk.Valid(shape) && walk.count == 0
    modifies walk
    ensures walk.Valid(shape) && walk.count == shape.Size()
    ensures |nodes| == shape.Size() && InChainOrder(walk.next, walk.start, nodes)
  {
    nodes := [];
    var at := walk.Next(shape);
    while at != None
      invariant walk.Valid(shape)
      invariant |nodes| <= shape.Size() && InChainOrder(walk.next, walk.start, nodes)
      invariant at.Some? ==> walk.count == |nodes| + 1 && at == At(walk.next, walk.start, |nodes|)
      invariant at.None? ==> walk.count == |nodes| == shape.Size()
      decreases shape.Size() - |nodes|, at.Some?
    {
      nodes := nodes + [at.value];
      at := walk.Next(shape);
    }
  }
}
