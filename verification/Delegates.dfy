/** Reading a member through delegates: the table asked, then what it lends to, and
    so on along the chain, each with the definitions behind it (src/object.c,
    delegate_next and table_get_in). */
module Delegates {
  import opened Wrappers
  import opened Chain

  type Key = nat

  /** A value a table holds: an object by its name, where it is one, and whether it
      takes the receiver of a call. */
  datatype Value = Value(node: Link, takesReceiver: bool)

  /** A key with no value yet is not among the entries. */
  datatype Table = Table(
    entries: map<Key, Value>, definition: Link, isDefinition: bool,
    delegateKey: Option<Key>, delegateFromSelf: bool)

  /** A host value's members stand in its type's table. */
  datatype Object = TableObject(table: Table) | HostData(members: Node) | OtherObject

  type Heap = map<Node, Object>

  ghost predicate IsTable(heap: Heap, n: Node) {
    n in heap && heap[n].TableObject?
  }

  /** What an object names is there, and definitions go back: each table's is of a
      lower rank. */
  ghost predicate HeapOk(heap: Heap, rank: map<Node, nat>) {
    forall n <- heap ::
      match heap[n]
      case TableObject(t) =>
        && n in rank
        && (forall key <- t.entries :: t.entries[key].node.Some? ==> t.entries[key].node.value in heap)
        && (t.definition.Some? ==> IsTable(heap, t.definition.value) && t.definition.value in rank &&
                                   rank[t.definition.value] < rank[n])
      case HostData(members) => IsTable(heap, members)
      case OtherObject => true
  }

  /** members_table_of, and vm_readable_table of the same objects. */
  function MembersTable(heap: Heap, n: Node): Link
    requires n in heap
  {
    match heap[n]
    case TableObject(_) => Some(n)
    case HostData(members) => Some(members)
    case OtherObject => None
  }

  /** delegate_next: what a declared slot of the definition, or of the table, holds. */
  function DelegateNext(heap: Heap, rank: map<Node, nat>, n: Node): (next: Link)
    requires HeapOk(heap, rank) && n in heap
    ensures next.Some? ==> next.value in heap && MembersTable(heap, next.value).Some?
  {
    match heap[n]
    case TableObject(t) =>
      if t.isDefinition || t.definition.None? then None
      else
        var owner := heap[t.definition.value].table;
        if owner.delegateKey.None? then None
        else
          var key := owner.delegateKey.value;
          var holder := if owner.delegateFromSelf then t else owner;
          assert IsTable(heap, if owner.delegateFromSelf then n else t.definition.value);
          if key in holder.entries && holder.entries[key].node.Some? &&
             MembersTable(heap, holder.entries[key].node.value).Some?
          then holder.entries[key].node else None
    case _ => None
  }

  function Lending(heap: Heap, rank: map<Node, nat>): (next: Successor)
    requires HeapOk(heap, rank)
    ensures Closed(next) && next.Keys == heap.Keys
  {
    map n | n in heap :: DelegateNext(heap, rank, n)
  }

  /** What a table lends to stands under the key its definition declares for it, in
      the table or in the definition as that says, and has members; a definition and a
      host value lend to nothing. */
  lemma LendsMeans(heap: Heap, rank: map<Node, nat>, n: Node, to: Node)
    requires HeapOk(heap, rank) && n in heap
    ensures DelegateNext(heap, rank, n) == Some(to) <==>
            exists t: Table, d: Table, key: Key, v: Value ::
              && heap[n] == TableObject(t) && !t.isDefinition
              && t.definition.Some? && t.definition.value in heap && heap[t.definition.value] == TableObject(d)
              && d.delegateKey == Some(key)
              && ((d.delegateFromSelf && key in t.entries && t.entries[key] == v) ||
                  (!d.delegateFromSelf && key in d.entries && d.entries[key] == v))
              && v.node == Some(to) && to in heap && !heap[to].OtherObject?
  {
    if DelegateNext(heap, rank, n) == Some(to) {
      var t := heap[n].table;
      var d := heap[t.definition.value].table;
      var key := d.delegateKey.value;
      var v := if d.delegateFromSelf then t.entries[key] else d.entries[key];
      assert heap[n] == TableObject(t) && heap[t.definition.value] == TableObject(d) && v.node == Some(to);
    }
  }

  // ------------------------------------------------------------------
  // What a read finds

  /** What the table or the nearest of its definitions holds, and whether one of
      its definitions does. */
  function Held(heap: Heap, rank: map<Node, nat>, n: Node, key: Key, inherited: bool): Option<(Value, bool)>
    requires HeapOk(heap, rank) && IsTable(heap, n)
    decreases if n in rank then rank[n] else 0
  {
    var t := heap[n].table;
    if key in t.entries then Some((t.entries[key], inherited))
    else if t.definition.None? then None
    else Held(heap, rank, t.definition.value, key, true)
  }

  /** A member found, on an object that lends it or on the one asked; or one that
      stands in the way of those behind it and cannot be lent. */
  datatype Answer = Found(value: Value, through: Link) | Blocked | Missing

  /** What an object of the chain answers, the first of it being the one asked. */
  function AnswerAt(heap: Heap, rank: map<Node, nat>, n: Node, key: Key, delegated: bool): Answer
    requires HeapOk(heap, rank) && n in heap && MembersTable(heap, n).Some?
  {
    var table := MembersTable(heap, n).value;
    match Held(heap, rank, table, key, false)
    case None => Missing
    case Some((value, inherited)) =>
      if ((!heap[table].table.isDefinition && inherited) || delegated) && !value.takesReceiver then Blocked
      else Found(value, if delegated then Some(n) else None)
  }

  /** The answer of the first object of the chain, from the one `k` links on, that
      has one. */
  ghost function Located(heap: Heap, rank: map<Node, nat>, root: Node, key: Key, k: nat, size: nat): Answer
    requires HeapOk(heap, rank) && IsTable(heap, root) && k <= size
    requires forall i | 0 <= i < size :: At(Lending(heap, rank), Some(root), i).Some?
    decreases size - k
  {
    if k == size then Missing
    else
      var n := At(Lending(heap, rank), Some(root), k).value;
      LendsToMembers(heap, rank, root, k);
      match AnswerAt(heap, rank, n, key, k > 0)
      case Missing => Located(heap, rank, root, key, k + 1, size)
      case answer => answer
  }

  /** Every object of the chain has members to ask. */
  lemma LendsToMembers(heap: Heap, rank: map<Node, nat>, root: Node, k: nat)
    requires HeapOk(heap, rank) && IsTable(heap, root)
    requires At(Lending(heap, rank), Some(root), k).Some?
    ensures var n := At(Lending(heap, rank), Some(root), k).value; n in heap && MembersTable(heap, n).Some?
  {
    if k > 0 {
      var before := At(Lending(heap, rank), Some(root), k - 1).value;
      assert DelegateNext(heap, rank, before) == At(Lending(heap, rank), Some(root), k);
    }
  }

  /** table_get_in, by the iterator of module Chain: a list of delegates or a ring
      of them, each is asked once. */
  method Locate(heap: Heap, rank: map<Node, nat>, root: Node, key: Key) returns (answer: Answer, ghost shape: Shape)
    requires HeapOk(heap, rank) && IsTable(heap, root) && |heap| < SIZE_MAX
    ensures HasShape(Lending(heap, rank), Some(root), shape)
    ensures answer == Located(heap, rank, root, key, 0, shape.Size())
  {
    hide HeapOk, AnswerAt, Held, DelegateNext, MembersTable, HasShape, Lending, Located;
    var next := Lending(heap, rank);
    shape := EveryChainHasAShape(next, Some(root));
    SameSize(heap, next);
    var walk := new Walk(Some(root), next);
    ShapeLength(next, Some(root), shape);
    answer := Missing;
    var k := 0;
    var at := walk.Next(shape);
    while at != None && answer.Missing?
      invariant walk.Valid(shape) && walk.next == next && walk.start == Some(root) && k <= shape.Size()
      invariant at.Some? ==> k < shape.Size() && walk.count == k + 1 && at == At(next, Some(root), k)
      invariant at.None? ==> k == shape.Size()
      invariant Located(heap, rank, root, key, 0, shape.Size()) ==
                if answer.Missing? then Located(heap, rank, root, key, k, shape.Size()) else answer
      decreases shape.Size() - k, at.Some?, answer.Missing?
    {
      LendsToMembers(heap, rank, root, k);
      LocatedStep(heap, rank, root, key, k, shape.Size());
      answer := AnswerAt(heap, rank, at.value, key, k > 0);
      if answer.Missing? {
        k := k + 1;
        at := walk.Next(shape);
      }
    }
    if answer.Missing? {
      LocatedStep(heap, rank, root, key, k, shape.Size());
    }
  }

  lemma SameSize(heap: Heap, next: Successor)
    requires next.Keys == heap.Keys
    ensures |next| == |heap|
  {
    assert |next.Keys| == |next| && |heap.Keys| == |heap|;
  }

  lemma ShapeLength(next: Successor, start: Link, shape: Shape)
    requires Closed(next) && Inside(next, start) && HasShape(next, start, shape)
    ensures forall i | 0 <= i < shape.Size() :: At(next, start, i).Some?
  {
  }

  lemma LocatedStep(heap: Heap, rank: map<Node, nat>, root: Node, key: Key, k: nat, size: nat)
    requires HeapOk(heap, rank) && IsTable(heap, root) && k <= size
    requires forall i | 0 <= i < size :: At(Lending(heap, rank), Some(root), i).Some?
    ensures k == size ==> Located(heap, rank, root, key, k, size) == Missing
    ensures k < size ==>
              var n := At(Lending(heap, rank), Some(root), k).value;
              && n in heap && MembersTable(heap, n).Some?
              && var answer := AnswerAt(heap, rank, n, key, k > 0);
                 Located(heap, rank, root, key, k, size) ==
                 if answer.Missing? then Located(heap, rank, root, key, k + 1, size) else answer
  {
    if k < size {
      LendsToMembers(heap, rank, root, k);
    }
  }

  // ------------------------------------------------------------------
  // What the answer is

  /** The k-th definition behind a table. */
  function Behind(heap: Heap, rank: map<Node, nat>, n: Node, k: nat): (d: Link)
    requires HeapOk(heap, rank) && IsTable(heap, n)
    ensures d.Some? ==> IsTable(heap, d.value)
  {
    if k == 0 then Some(n)
    else
      match Behind(heap, rank, n, k - 1)
      case None => None
      case Some(d) => heap[d].table.definition
  }

  /** The k-th table behind an object's is the nearest that has the key. */
  ghost predicate NearestHas(heap: Heap, rank: map<Node, nat>, n: Node, key: Key, k: nat)
    requires HeapOk(heap, rank) && IsTable(heap, n)
  {
    && Behind(heap, rank, n, k).Some? && key in heap[Behind(heap, rank, n, k).value].table.entries
    && forall j | 0 <= j < k :: Behind(heap, rank, n, j).Some? ==>
                                key !in heap[Behind(heap, rank, n, j).value].table.entries
  }

  lemma {:induction false} BehindNext(heap: Heap, rank: map<Node, nat>, n: Node, k: nat)
    requires HeapOk(heap, rank) && IsTable(heap, n) && heap[n].table.definition.Some?
    ensures Behind(heap, rank, n, k + 1) == Behind(heap, rank, heap[n].table.definition.value, k)
    decreases k
  {
    if k > 0 {
      BehindNext(heap, rank, n, k - 1);
    } else {
      assert Behind(heap, rank, n, 0) == Some(n);
    }
  }

  lemma {:induction false} NoneBehind(heap: Heap, rank: map<Node, nat>, n: Node, k: nat)
    requires HeapOk(heap, rank) && IsTable(heap, n) && heap[n].table.definition.None? && k > 0
    ensures Behind(heap, rank, n, k).None?
    decreases k
  {
    if k > 1 {
      NoneBehind(heap, rank, n, k - 1);
    } else {
      assert Behind(heap, rank, n, 0) == Some(n);
    }
  }

  /** A table holds what the nearest of it and its definitions does. */
  lemma {:induction false} HeldMeans(heap: Heap, rank: map<Node, nat>, n: Node, key: Key, inherited: bool) returns (k: nat)
    requires HeapOk(heap, rank) && IsTable(heap, n)
    ensures match Held(heap, rank, n, key, inherited)
            case None => forall j: nat :: !NearestHas(heap, rank, n, key, j)
            case Some((value, further)) =>
              && NearestHas(heap, rank, n, key, k)
              && value == heap[Behind(heap, rank, n, k).value].table.entries[key]
              && (further <==> inherited || k > 0)
    decreases if n in rank then rank[n] else 0
  {
    k := 0;
    var t := heap[n].table;
    if key in t.entries {
      assert Behind(heap, rank, n, 0) == Some(n);
    } else if t.definition.None? {
      forall j: nat ensures !NearestHas(heap, rank, n, key, j) {
        if j > 0 {
          NoneBehind(heap, rank, n, j);
        }
      }
    } else {
      var d := t.definition.value;
      k := HeldMeans(heap, rank, d, key, true);
      NearestNext(heap, rank, n, key, k);
      assert Behind(heap, rank, n, 0) == Some(n);
      BehindNext(heap, rank, n, k);
      if Held(heap, rank, d, key, true).None? {
        forall j: nat ensures !NearestHas(heap, rank, n, key, j) {
          if j > 0 {
            assert !NearestHas(heap, rank, d, key, j - 1);
            NearestNext(heap, rank, n, key, j - 1);
          }
        }
      }
      k := k + 1;
    }
  }

  lemma NearestNext(heap: Heap, rank: map<Node, nat>, n: Node, key: Key, k: nat)
    requires HeapOk(heap, rank) && IsTable(heap, n)
    requires key !in heap[n].table.entries && heap[n].table.definition.Some?
    ensures NearestHas(heap, rank, n, key, k + 1) <==> NearestHas(heap, rank, heap[n].table.definition.value, key, k)
  {
    hide HeapOk;
    var d := heap[n].table.definition.value;
    HasDefinition(heap, rank, n);
    forall j: nat ensures Behind(heap, rank, n, j + 1) == Behind(heap, rank, d, j) {
      BehindNext(heap, rank, n, j);
    }
    assert Behind(heap, rank, n, 0) == Some(n);
    if NearestHas(heap, rank, d, key, k) {
      forall j | 0 <= j < k + 1 && Behind(heap, rank, n, j).Some?
        ensures key !in heap[Behind(heap, rank, n, j).value].table.entries
      {
        if j > 0 {
          assert Behind(heap, rank, n, j - 1 + 1) == Behind(heap, rank, d, j - 1);
        }
      }
    }
  }

  lemma HasDefinition(heap: Heap, rank: map<Node, nat>, n: Node)
    requires HeapOk(heap, rank) && IsTable(heap, n) && heap[n].table.definition.Some?
    ensures IsTable(heap, heap[n].table.definition.value)
  {
  }

  /** What the k-th object of the chain has under this key, its table or the nearest
      of the definitions behind it. */
  ghost predicate Has(heap: Heap, rank: map<Node, nat>, root: Node, key: Key, k: nat, behind: nat)
    requires HeapOk(heap, rank) && IsTable(heap, root) && At(Lending(heap, rank), Some(root), k).Some?
  {
    LendsToMembers(heap, rank, root, k);
    var n := At(Lending(heap, rank), Some(root), k).value;
    NearestHas(heap, rank, MembersTable(heap, n).value, key, behind)
  }

  /** The nearest object of the chain that has the member answers. It is found there
      -- lent, where that is not the object asked -- unless it takes no receiver and
      is lent or stands in the definition of what is none itself: then it stands in
      the way. */
  lemma {:induction false} LocatedMeans(heap: Heap, rank: map<Node, nat>, root: Node, key: Key, from: nat, size: nat)
    returns (k: nat, behind: nat)
    requires HeapOk(heap, rank) && IsTable(heap, root) && from <= size
    requires forall i | 0 <= i < size :: At(Lending(heap, rank), Some(root), i).Some?
    ensures var answer := Located(heap, rank, root, key, from, size);
            if answer.Missing? then forall i, d: nat | from <= i < size :: !Has(heap, rank, root, key, i, d)
            else
              && from <= k < size && Has(heap, rank, root, key, k, behind)
              && (forall i, d: nat | from <= i < k :: !Has(heap, rank, root, key, i, d))
              && var n := At(Lending(heap, rank), Some(root), k).value;
                 n in heap && MembersTable(heap, n).Some? &&
                 var table := MembersTable(heap, n).value;
                 IsTable(heap, table) && Behind(heap, rank, table, behind).Some? &&
                 var holder := heap[Behind(heap, rank, table, behind).value].table;
                 key in holder.entries &&
                 var value := holder.entries[key];
                 answer == if !value.takesReceiver && (k > 0 || (behind > 0 && !heap[table].table.isDefinition))
                           then Blocked else Found(value, if k == 0 then None else Some(n))
    decreases size - from
  {
    hide HeapOk, DelegateNext, Lending;
    k, behind := from, 0;
    if from < size {
      var n := At(Lending(heap, rank), Some(root), from).value;
      LendsToMembers(heap, rank, root, from);
      var table := MembersTable(heap, n).value;
      IsATable(heap, rank, n);
      behind := HeldMeans(heap, rank, table, key, false);
      if Held(heap, rank, table, key, false).None? {
        k, behind := LocatedMeans(heap, rank, root, key, from + 1, size);
      }
    }
  }

  lemma IsATable(heap: Heap, rank: map<Node, nat>, n: Node)
    requires HeapOk(heap, rank) && n in heap && MembersTable(heap, n).Some?
    ensures IsTable(heap, MembersTable(heap, n).value)
  {
  }

  // ------------------------------------------------------------------
  // Asking again

  lemma {:induction false} FoundWhere(heap: Heap, rank: map<Node, nat>, root: Node, key: Key, k: nat, size: nat)
    requires HeapOk(heap, rank) && IsTable(heap, root) && k <= size
    requires forall i | 0 <= i < size :: At(Lending(heap, rank), Some(root), i).Some?
    requires Located(heap, rank, root, key, k, size).Found? && Located(heap, rank, root, key, k, size).through.Some?
    ensures var answer := Located(heap, rank, root, key, k, size);
            var n := answer.through.value;
            n in heap && MembersTable(heap, n).Some? && AnswerAt(heap, rank, n, key, true) == answer
    decreases size - k
  {
    var n := At(Lending(heap, rank), Some(root), k).value;
    LendsToMembers(heap, rank, root, k);
    if AnswerAt(heap, rank, n, key, k > 0).Missing? {
      FoundWhere(heap, rank, root, key, k + 1, size);
    }
  }

  /** What lent a member has it as its own: read from it, as a call refused and made
      again reads it, the same member is found at once and nothing lends it. */
  lemma LenderHasItself(heap: Heap, rank: map<Node, nat>, root: Node, key: Key, size: nat, again: nat)
    requires HeapOk(heap, rank) && IsTable(heap, root)
    requires forall i | 0 <= i < size :: At(Lending(heap, rank), Some(root), i).Some?
    requires var answer := Located(heap, rank, root, key, 0, size); answer.Found? && answer.through.Some?
    requires again > 0
    ensures var answer := Located(heap, rank, root, key, 0, size);
            var n := answer.through.value;
            && n in heap && MembersTable(heap, n).Some?
            && var table := MembersTable(heap, n).value;
               && IsTable(heap, table)
               && ((forall i | 0 <= i < again :: At(Lending(heap, rank), Some(table), i).Some?) ==>
                     Located(heap, rank, table, key, 0, again) == Found(answer.value, None))
  {
    FoundWhere(heap, rank, root, key, 0, size);
    var n := Located(heap, rank, root, key, 0, size).through.value;
    var table := MembersTable(heap, n).value;
    if forall i | 0 <= i < again :: At(Lending(heap, rank), Some(table), i).Some? {
      assert At(Lending(heap, rank), Some(table), 0) == Some(table);
    }
  }
}
