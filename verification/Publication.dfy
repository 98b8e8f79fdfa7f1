/** Machines racing to lay out one chunk: they share a pointer and nothing else,
    and one of them sets it (jit/jit.c, code_of). */
module Publication {
  import opened Wrappers

  /** What a chunk's `jit` holds: nothing yet, the mark that it was refused,
      or one layout, named by the allocation it is. */
  datatype Pointer = Null | Refused | Laid(layout: nat)

  /** Where one machine is in asking for one chunk's code: about to load the
      pointer, laying the chunk out, about to offer what it laid (or the
      refusal), or answered. */
  datatype Asking =
    | Loading
    | LayingOut
    | Offering(laid: Option<nat>)
    | Answered(code: Pointer)

  /** `live` are the layouts allocated and not freed, `freed` those freed, and
      `made` how many were ever allocated. */
  datatype Shared = Shared(pointer: Pointer, machines: map<nat, Asking>, live: set<nat>, freed: seq<nat>, made: nat)

  function Want(laid: Option<nat>): Pointer {
    match laid
    case Some(layout) => Laid(layout)
    case None => Refused
  }

  datatype Event =
    | Arrive(machine: nat)
    | Load(machine: nat)
    | LayOut(machine: nat, refuses: bool)
    | Offer(machine: nat)

  predicate Enabled(s: Shared, e: Event) {
    match e
    case Arrive(m) => m !in s.machines || s.machines[m].Answered?
    case Load(m) => m in s.machines && s.machines[m].Loading?
    case LayOut(m, _) => m in s.machines && s.machines[m].LayingOut?
    case Offer(m) => m in s.machines && s.machines[m].Offering?
  }

  /** The exchange: the first offer is kept, and a later one finds what was kept
      and frees its own. */
  function Exchanged(s: Shared, m: nat, laid: Option<nat>): Shared {
    if s.pointer.Null? then
      s.(pointer := Want(laid), machines := s.machines[m := Answered(Want(laid))])
    else
      s.(machines := s.machines[m := Answered(s.pointer)],
         live := match laid case Some(layout) => s.live - {layout} case None => s.live,
         freed := match laid case Some(layout) => s.freed + [layout] case None => s.freed)
  }

  function Next(s: Shared, e: Event): Shared
    requires Enabled(s, e)
  {
    match e
    case Arrive(m) => s.(machines := s.machines[m := Loading])
    case Load(m) =>
      s.(machines := s.machines[m := if s.pointer.Null? then LayingOut else Answered(s.pointer)])
    case LayOut(m, refuses) =>
      if refuses then s.(machines := s.machines[m := Offering(None)])
      else s.(machines := s.machines[m := Offering(Some(s.made))], live := s.live + {s.made}, made := s.made + 1)
    case Offer(m) => Exchanged(s, m, s.machines[m].laid)
  }

  predicate Offers(s: Shared, m: nat, layout: nat) {
    m in s.machines && s.machines[m] == Offering(Some(layout))
  }

  /** A layout allocated and not freed is the chunk's, or in the hands of one
      machine still to offer it; an answer is the chunk's own. */
  ghost predicate Ok(s: Shared) {
    && (forall layout <- s.live :: layout < s.made && layout !in s.freed)
    && (forall layout <- s.freed :: layout < s.made)
    && (forall i, j | 0 <= i < j < |s.freed| :: s.freed[i] != s.freed[j])
    && (forall layout <- s.live :: s.pointer == Laid(layout) || exists m :: Offers(s, m, layout))
    && (s.pointer.Laid? ==> s.pointer.layout in s.live && forall m :: !Offers(s, m, s.pointer.layout))
    && (forall m, layout :: Offers(s, m, layout) ==> layout in s.live)
    && (forall m, n, layout :: Offers(s, m, layout) && Offers(s, n, layout) ==> m == n)
    && (forall m <- s.machines :: s.machines[m].Answered? ==> s.machines[m].code == s.pointer && !s.pointer.Null?)
  }

  function Start(): (s: Shared)
    ensures Ok(s) && Accounted(s) && s.pointer.Null?
  {
    Shared(Null, map[], {}, [], 0)
  }

  lemma NextKeeps(s: Shared, e: Event)
    requires Ok(s) && Enabled(s, e)
    ensures Ok(Next(s, e))
    ensures !s.pointer.Null? ==> Next(s, e).pointer == s.pointer
  {
    var t := Next(s, e);
    forall layout <- t.live ensures t.pointer == Laid(layout) || exists m :: Offers(t, m, layout) {
      if layout in s.live && s.pointer != Laid(layout) {
        var m :| Offers(s, m, layout);
        assert m != e.machine ==> Offers(t, m, layout);
      } else if layout !in s.live {
        assert Offers(t, e.machine, layout);
      }
    }
    forall m, layout | Offers(t, m, layout) ensures layout in t.live {
      assert m != e.machine ==> Offers(s, m, layout);
      if e.Offer? {
        assert s.machines[e.machine].laid.Some? ==> Offers(s, e.machine, s.machines[e.machine].laid.value);
      }
    }
    forall m, n, layout | Offers(t, m, layout) && Offers(t, n, layout) ensures m == n {
      assert m != e.machine ==> Offers(s, m, layout);
      assert n != e.machine ==> Offers(s, n, layout);
    }
    if t.pointer.Laid? {
      if s.pointer.Null? {
        assert Offers(s, e.machine, t.pointer.layout);
      }
      if e.Offer? && s.machines[e.machine].laid.Some? {
        assert Offers(s, e.machine, s.machines[e.machine].laid.value);
      }
      forall m ensures !Offers(t, m, t.pointer.layout) {
        assert Offers(t, m, t.pointer.layout) ==> Offers(s, m, t.pointer.layout) || m == e.machine;
      }
    }
    if e.Offer? && s.machines[e.machine].laid.Some? {
      assert Offers(s, e.machine, s.machines[e.machine].laid.value);
    }
  }

  /** Every layout ever made is accounted for: live or freed, never both. */
  ghost predicate Accounted(s: Shared) {
    forall layout: nat | layout < s.made :: layout in s.live || layout in s.freed
  }

  lemma NextAccounts(s: Shared, e: Event)
    requires Ok(s) && Enabled(s, e) && Accounted(s)
    ensures Accounted(Next(s, e))
  {
    var t := Next(s, e);
    forall layout: nat | layout < t.made ensures layout in t.live || layout in t.freed {
      if layout in s.freed {
        var k :| 0 <= k < |s.freed| && s.freed[k] == layout;
        assert t.freed[k] == layout;
      } else if e.Offer? && !s.pointer.Null? && s.machines[e.machine].laid == Some(layout) {
        assert t.freed[|s.freed|] == layout;
      }
    }
  }

  /** A run of the machines: any order of any of their steps. */
  ghost predicate IsRun(run: seq<Shared>, events: seq<Event>) {
    && |run| == |events| + 1 && Ok(run[0]) && Accounted(run[0])
    && forall k | 0 <= k < |events| :: Enabled(run[k], events[k]) && run[k + 1] == Next(run[k], events[k])
  }

  lemma {:induction false} RunKeeps(run: seq<Shared>, events: seq<Event>)
    requires IsRun(run, events)
    ensures forall k | 0 <= k < |run| :: Ok(run[k]) && Accounted(run[k])
    decreases |events|
  {
    hide Ok, Accounted;
    if events != [] {
      NextKeeps(run[0], events[0]);
      NextAccounts(run[0], events[0]);
      assert run[1..][0] == run[1];
      forall k | 0 <= k < |events| - 1
        ensures Enabled(run[1..][k], events[1..][k]) && run[1..][k + 1] == Next(run[1..][k], events[1..][k])
      {
        assert Enabled(run[k + 1], events[k + 1]);
        assert run[1..][k] == run[k + 1] && run[1..][k + 1] == run[k + 2];
      }
      RunKeeps(run[1..], events[1..]);
      forall k | 0 <= k < |run| ensures Ok(run[k]) && Accounted(run[k]) {
        if k > 0 {
          assert run[k] == run[1..][k - 1];
        }
      }
    }
  }

  /** The pointer changes at most once in any run: wherever it is found set, it
      is what it is for ever after. */
  lemma {:induction false} WrittenOnce(run: seq<Shared>, events: seq<Event>, i: nat, j: nat)
    requires IsRun(run, events) && i <= j < |run| && !run[i].pointer.Null?
    ensures run[j].pointer == run[i].pointer
    decreases j
  {
    hide Ok;
    if i < j {
      WrittenOnce(run, events, i, j - 1);
      RunKeeps(run, events);
      assert Enabled(run[j - 1], events[j - 1]);
      NextKeeps(run[j - 1], events[j - 1]);
    }
  }

  /** Every machine that asks is answered the one pointer the chunk ends with. */
  lemma AnswersAgree(run: seq<Shared>, events: seq<Event>, i: nat, j: nat, m: nat)
    requires IsRun(run, events) && i <= j < |run|
    requires m in run[i].machines && run[i].machines[m].Answered?
    ensures !run[j].pointer.Null? && run[i].machines[m].code == run[j].pointer
  {
    RunKeeps(run, events);
    assert Ok(run[i]);
    WrittenOnce(run, events, i, j);
  }

  /** Once no machine is still asking, every layout but the chunk's own has been
      freed, each once: nothing leaks, and nothing in use is freed. */
  lemma LosersAreFreed(run: seq<Shared>, events: seq<Event>)
    requires IsRun(run, events)
    requires var s := run[|run| - 1]; forall m <- s.machines :: s.machines[m].Answered?
    ensures var s := run[|run| - 1];
            && s.live == (if s.pointer.Laid? then {s.pointer.layout} else {})
            && (forall layout: nat | layout < s.made :: layout in s.freed <==> s.pointer != Laid(layout))
            && (forall i, j | 0 <= i < j < |s.freed| :: s.freed[i] != s.freed[j])
  {
    RunKeeps(run, events);
    var s := run[|run| - 1];
    assert Ok(s) && Accounted(s);
    forall layout <- s.live ensures s.pointer == Laid(layout) {
      assert forall m :: Offers(s, m, layout) ==> m in s.machines;
    }
  }
}
