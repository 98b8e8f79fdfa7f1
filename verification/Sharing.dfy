/** Many machines on the same chunks: call sites remembered without a lock, and
    code published while others run (jit/jit.c, code_of and jit_call). */
module Sharing {
  import opened Wrappers
  import opened Bytecode
  import opened Machine
  import opened Choosing
  import opened Layout
  import opened Calls
  import opened CompiledRuns
  import opened WholeRuns
  import opened ReturnDiscipline

  /** `written` is every body any machine has ever stored at a site. The loads
      are relaxed: a machine may find at a site anything once stored there, or
      nothing, whatever else it has seen. */
  datatype System = System(w: World, machines: map<nat, Mode>, written: set<((nat, nat), nat)>)

  predicate Seen(written: set<((nat, nat), nat)>, callees: Callees) {
    forall site <- callees :: (site, callees[site]) in written
  }

  function Stores(callees: Callees): set<((nat, nat), nat)> {
    set site <- callees :: (site, callees[site])
  }

  /** Every site's guess passes the site's checks and can be entered at 0, and
      every machine stands as it should. */
  ghost predicate SystemOk(sys: System) {
    && WorldOk(sys.w)
    && (forall stored <- sys.written :: CalleeOk(sys.w, stored.0, stored.1))
    && (forall i <- sys.machines :: Good(sys.w, sys.machines[i]))
  }

  /** What a machine leaves at the sites, given what it found there. */
  ghost function Remembering(w: World, seen: Callees, mode: Mode): Callees
    requires Good(w, mode) && CalleesOk(w, seen)
  {
    match mode
    case InCode(cfg) => Advance(w, seen, cfg).callees
    case Interpreted(_, _) => seen
  }

  ghost predicate MachineMoves(sys: System, next: System, i: nat, seen: Callees)
    requires SystemOk(sys)
  {
    && i in sys.machines && Seen(sys.written, seen) && CalleesOk(sys.w, seen)
    && next.w == sys.w && next.machines.Keys == sys.machines.Keys
    && Moves(sys.w, seen, sys.machines[i], next.machines[i])
    && (forall j <- sys.machines :: j != i ==> next.machines[j] == sys.machines[j])
    && next.written == sys.written + Stores(Remembering(sys.w, seen, sys.machines[i]))
  }

  /** A chunk's code published: code that lay_out answers, where there was none. */
  ghost predicate Publishes(sys: System, next: System, body: nat, code: JitCode) {
    && body !in sys.w.codes && body < |sys.w.p.bodies|
    && BodiesOk(sys.w.p) && LaidOut(sys.w.table, sys.w.helpers, sys.w.p.bodies[body].chunk, code)
    && next == sys.(w := sys.w.(codes := sys.w.codes[body := code]))
  }

  ghost predicate SystemMoves(sys: System, next: System)
    requires SystemOk(sys)
  {
    || (exists i, seen :: MachineMoves(sys, next, i, seen))
    || (exists body, code :: Publishes(sys, next, body, code))
  }

  /** Whatever a machine finds at the sites passes their checks: skipping them
      for a remembered body is sound. */
  lemma SeenIsOk(sys: System, seen: Callees)
    requires SystemOk(sys) && Seen(sys.written, seen)
    ensures CalleesOk(sys.w, seen)
  {
  }

  // ------------------------------------------------------------------
  // More code changes nothing that was

  ghost predicate Grows(w: World, more: World) {
    && WorldOk(w) && WorldOk(more)
    && more.p == w.p && more.table == w.table && more.helpers == w.helpers
    && forall b <- w.codes :: b in more.codes && more.codes[b] == w.codes[b]
  }

  lemma PublishingGrows(sys: System, next: System, body: nat, code: JitCode)
    requires WorldOk(sys.w) && Publishes(sys, next, body, code)
    ensures Grows(sys.w, next.w)
  {
    hide LaidOut;
  }

  lemma GoodStays(w: World, more: World, mode: Mode)
    requires Grows(w, more) && Good(w, mode)
    ensures Good(more, mode)
  {
    hide StateOk, WorldOk, Start, Laid, Enterable;
    match mode {
      case InCode(cfg) =>
        ReturnsStay(w, more, cfg.state.frames, cfg.returnsTo);
      case Interpreted(s, links) =>
        ReturnsStay(w, more, s.frames, links);
    }
  }

  lemma ReturnsStay(w: World, more: World, frames: seq<Frame>, links: seq<Option<Address>>)
    requires Grows(w, more) && ReturnsOk(w, frames, links)
    ensures ReturnsOk(more, frames, links)
  {
    hide WorldOk, Start, Laid, Enterable;
    forall k | 0 < k < |frames| && links[k].Some? ensures ReturnOk(more, frames[k - 1], links[k].value) {
      assert ReturnOk(w, frames[k - 1], links[k].value);
    }
  }

  // ------------------------------------------------------------------
  // Every step of every machine

  lemma MachineKeeps(sys: System, next: System, i: nat, seen: Callees)
    requires SystemOk(sys) && MachineMoves(sys, next, i, seen)
    ensures SystemOk(next)
  {
    hide Good, Moves, WorldOk, CalleeOk, Advance;
    BodiesOf(sys.w);
    MoveKeeps(sys.w, seen, sys.machines[i], next.machines[i]);
    forall j <- next.machines ensures Good(next.w, next.machines[j]) {
      assert j != i ==> next.machines[j] == sys.machines[j];
    }
    RememberingOk(sys.w, seen, sys.machines[i]);
    forall stored <- next.written ensures CalleeOk(next.w, stored.0, stored.1) {
      if stored !in sys.written {
        assert stored in Stores(Remembering(sys.w, seen, sys.machines[i]));
      }
    }
  }

  lemma BodiesOf(w: World)
    requires WorldOk(w)
    ensures BodiesOk(w.p)
  {
  }

  lemma RememberingOk(w: World, seen: Callees, mode: Mode)
    requires Good(w, mode) && CalleesOk(w, seen)
    ensures CalleesOk(w, Remembering(w, seen, mode))
  {
    hide Advance, CalleesOk, StateOk, ReturnsOk;
    if mode.InCode? {
      AdvanceStands(w, seen, mode.cfg);
    }
  }

  lemma PublishKeeps(sys: System, next: System, body: nat, code: JitCode)
    requires SystemOk(sys) && Publishes(sys, next, body, code)
    ensures SystemOk(next)
  {
    hide Good, WorldOk, LaidOut, Enterable, Publishes;
    BodiesOf(sys.w);
    PublishingGrows(sys, next, body, code);
    assert next.machines == sys.machines && next.written == sys.written by { PublishesOnly(sys, next, body, code); }
    forall i <- next.machines ensures Good(next.w, next.machines[i]) {
      GoodStays(sys.w, next.w, sys.machines[i]);
    }
    forall stored <- next.written ensures CalleeOk(next.w, stored.0, stored.1) {
      assert CalleeOk(sys.w, stored.0, stored.1);
    }
  }

  lemma PublishesOnly(sys: System, next: System, body: nat, code: JitCode)
    requires Publishes(sys, next, body, code)
    ensures next.machines == sys.machines && next.written == sys.written
  {
  }

  /** Any interleaving of any machines: every site's guess stays sound, every
      machine stands as it should, and code once published stays as it is. */
  lemma {:induction false} SystemRuns(run: seq<System>)
    requires |run| > 0 && SystemOk(run[0])
    requires forall k | 0 <= k < |run| - 1 :: SystemOk(run[k]) ==> SystemMoves(run[k], run[k + 1])
    ensures forall k | 0 <= k < |run| :: SystemOk(run[k])
    ensures forall k | 0 <= k < |run| :: Grows(run[0].w, run[k].w)
  {
    hide SystemMoves, SystemOk, Grows;
    if |run| > 1 {
      var last := |run| - 1;
      SystemRuns(run[..last]);
      assert run[last - 1] == run[..last][last - 1];
      SystemMoveKeeps(run[last - 1], run[last]);
      GrowsOn(run[0].w, run[last - 1].w, run[last].w);
      forall k | 0 <= k < |run| ensures SystemOk(run[k]) && Grows(run[0].w, run[k].w) {
        assert k < last ==> run[k] == run[..last][k];
      }
    } else {
      GrowsFromItself(run[0]);
    }
  }

  lemma GrowsOn(w: World, more: World, most: World)
    requires Grows(w, more) && Grows(more, most)
    ensures Grows(w, most)
  {
    hide WorldOk;
  }

  lemma GrowsFromItself(sys: System)
    requires SystemOk(sys)
    ensures Grows(sys.w, sys.w)
  {
    hide WorldOk;
  }

  lemma SystemMoveKeeps(sys: System, next: System)
    requires SystemOk(sys) && SystemMoves(sys, next)
    ensures SystemOk(next) && Grows(sys.w, next.w)
  {
    hide SystemOk, MachineMoves, Publishes, Grows;
    if i, seen :| MachineMoves(sys, next, i, seen) {
      MachineKeeps(sys, next, i, seen);
      assert next.w == sys.w by { MachineOnly(sys, next, i, seen); }
      GrowsFromItself(next);
    } else {
      var body, code :| Publishes(sys, next, body, code);
      PublishKeeps(sys, next, body, code);
      SystemWorld(sys);
      PublishingGrows(sys, next, body, code);
    }
  }

  lemma MachineOnly(sys: System, next: System, i: nat, seen: Callees)
    requires SystemOk(sys) && MachineMoves(sys, next, i, seen)
    ensures next.w == sys.w
  {
  }

  lemma SystemWorld(sys: System)
    requires SystemOk(sys)
    ensures WorldOk(sys.w)
  {
  }
}
