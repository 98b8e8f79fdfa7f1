/** What becomes of a run whose calls skip the collector's steps: the machine is as
    it would have been but for the collector, until one of the two holds a
    coroutine back (jit/jit.c, jit_call; src/vm.c, LHAT_GC_POLL). */
module Unseen {
  import opened Wrappers
  import opened Bytecode
  import opened Machine
  import Interpreter
  import Preservation
  import opened Stencils
  import opened Choosing
  import opened Layout
  import opened Calls
  import opened Refinement
  import opened CallRefinement
  import opened CompiledRuns
  import opened WholeRuns
  import opened Parting

  /** The same machine, but for how far its collector has come. */
  predicate Apart(s: State, t: State) {
    t == s.(collector := t.collector)
  }

  /** The same, but for that and for what the collector has held back. */
  predicate Alike(s: State, t: State) {
    t == s.(collector := t.collector, pending := t.pending)
  }

  /** Work done in C comes to the same wherever the collector is, but for what the
      collector does. */
  ghost predicate Blind(p: Program) {
    forall work, a, b, c, s: State, t: State | Apart(s, t) ::
      match p.work(work, a, b, c, s)
      case Refused(_) => p.work(work, a, b, c, t).Refused?
      case Done(e) =>
        p.work(work, a, b, c, t).Done? &&
        var f := p.work(work, a, b, c, t).effect;
        f == e.(collector := f.collector, pending := f.pending)
  }

  predicate AlikeOutcomes(o: Outcome, q: Outcome) {
    match o
    case Continue(s) => q.Continue? && Alike(s, q.state)
    case Target(s) => q.Target? && Alike(s, q.state)
    case Moved(s, to) => q.Moved? && Alike(s, q.state) && q.to == to
    case Leave(s, pc) => q.Leave? && Alike(s, q.state) && q.pc == pc
  }

  predicate ApartOutcomes(o: Outcome, q: Outcome) {
    AlikeOutcomes(o, q) && Apart(o.state, q.state)
  }

  ghost predicate AlikeEnds(end: Progress, other: Progress) {
    match end
    case Went(c, _) => other.Went? && Alike(c.state, other.cfg.state) && other.cfg == c.(state := other.cfg.state)
    case Left(s, _, pc, _) => other.Left? && Alike(s, other.state) && other.pc == pc
  }

  ghost predicate ApartEnds(end: Progress, other: Progress) {
    AlikeEnds(end, other) && Apart(Arrived(end), Arrived(other))
  }

  // ------------------------------------------------------------------
  // One stencil, wherever the collector is

  lemma RunApart(p: Program, s: State, t: State, st: Stencil, h: Holes)
    requires InWindow(s, st, h) && StaysInFrame(st) && !st.InPlace? && Apart(s, t)
    ensures InWindow(t, st, h) && ApartOutcomes(Run(p, s, st, h), Run(p, t, st, h))
  {
    hide Interpreter.Exact, Interpreter.Holds, OfInteger, OfBool, ArithmeticWork, CompareWork, EqualWork, GetUpvalWork,
         GetIndexWork, JumpFalseWork, ForLoopWork, ApartOutcomes;
    WritesApart(s, t, h);
    ArithmeticApart(p, s, t, h);
    ComparedApart(s, t, h);
    ReadsApart(s, t, h);
    JumpsApart(s, t, h);
  }

  lemma WritesApart(s: State, t: State, h: Holes)
    requires s.frames != [] && s.Holds(h.a) && Apart(s, t)
    ensures forall v :: ApartOutcomes(Continue(s.SetR(h.a, v)), Continue(t.SetR(h.a, v)))
    ensures forall pc :: ApartOutcomes(Leave(s, pc), Leave(t, pc))
    ensures ApartOutcomes(Target(s), Target(t)) && ApartOutcomes(Target(Counted(s)), Target(Counted(t)))
  {
  }

  lemma ArithmeticApart(p: Program, s: State, t: State, h: Holes)
    requires s.frames != [] && s.Holds(h.a) && Apart(s, t)
    ensures forall oper, left, right ::
              ApartOutcomes(ArithmeticWork(p, s, h, oper, left, right), ArithmeticWork(p, t, h, oper, left, right))
  {
    hide Interpreter.Exact, OfInteger;
  }

  lemma ComparedApart(s: State, t: State, h: Holes)
    requires s.frames != [] && s.Holds(h.a) && Apart(s, t)
    ensures forall st: Stencil, left, right | st.Order? ::
              ApartOutcomes(CompareWork(s, h, st, left, right), CompareWork(t, h, st, left, right))
    ensures forall st: Stencil, left, right | st.Equality? ::
              ApartOutcomes(EqualWork(s, h, st, left, right), EqualWork(t, h, st, left, right))
  {
    hide Interpreter.Holds, OfBool;
  }

  lemma ReadsApart(s: State, t: State, h: Holes)
    requires s.frames != [] && s.Holds(h.a) && Apart(s, t)
    ensures ApartOutcomes(GetUpvalWork(s, h), GetUpvalWork(t, h))
    ensures s.Holds(h.b) && s.Holds(h.c) ==> ApartOutcomes(GetIndexWork(s, h), GetIndexWork(t, h))
  {
  }

  lemma JumpsApart(s: State, t: State, h: Holes)
    requires s.frames != [] && s.Holds(h.a) && Apart(s, t)
    ensures forall back :: ApartOutcomes(JumpFalseWork(s, h, back), JumpFalseWork(t, h, back))
    ensures s.Holds(h.a + 2) ==> forall down :: ApartOutcomes(ForLoopWork(s, h, down), ForLoopWork(t, h, down))
  {
    hide Interpreter.Exact, Interpreter.Holds, OfInteger;
  }

  lemma WorkAlike(p: Program, s: State, t: State, h: Holes)
    requires s.frames != [] && Apart(s, t) && Blind(p)
    ensures AlikeOutcomes(InPlaceWork(p, s, h), InPlaceWork(p, t, h))
  {
    hide CloseFrom, CloseAt;
    assert Apart(s.At(h.pc), t.At(h.pc));
  }

  lemma EnterCallApart(w: World, callees: Callees, s: State, t: State, returnsTo: seq<Option<Address>>,
                       pc: nat, i: Instruction, resume: nat)
    requires WorldOk(w) && StateOk(w.p, s) && StateOk(w.p, t) && |returnsTo| == |s.frames| && i.op.Call? && Apart(s, t)
    requires s.Top().closure.body in w.codes && pc < |ChunkOf(w.p, s).code|
    requires i.a < ChunkOf(w.p, s).registers && CalleesOk(w, callees)
    ensures var m, q := EnterCall(w, callees, s, returnsTo, pc, i, resume), EnterCall(w, callees, t, returnsTo, pc, i, resume);
            q == m.(outcome := q.outcome) && ApartOutcomes(m.outcome, q.outcome)
  {
    hide WorldOk, StateOk, CalleesOk, EnterBody, MovedInto, HasRoom, Interpreter.PlainCall, ResumeAddress;
    Preservation.TopFacts(w.p, s);
    var closure := Interpreter.CalledClosure(s.heap, s.R(i.a));
    if closure.Some? {
      ClosureHeld(w.p, s, i, closure.value);
      ClosureHeld(w.p, t, i, closure.value);
      RoomApart(w.p, s, t, i, w.p.bodies[closure.value.body]);
      if HasRoom(w.p, s, i, w.p.bodies[closure.value.body]) {
        MovedApart(w.p, s, t, i, closure.value, resume);
        EnterBodyApart(w, callees, MovedInto(w.p, s, i, closure.value, resume),
                       MovedInto(w.p, t, i, closure.value, resume), Links(w, s, returnsTo, pc, i),
                       (s.Top().closure.body, pc), closure.value.body);
      }
    }
  }

  lemma RoomApart(p: Program, s: State, t: State, i: Instruction, callee: Proto)
    requires s.frames != [] && s.Top().closure.body < |p.bodies| && i.op.Call? && Apart(s, t)
    ensures HasRoom(p, s, i, callee) <==> HasRoom(p, t, i, callee)
  {
  }

  lemma MovedApart(p: Program, s: State, t: State, i: Instruction, closure: Closure, resume: nat)
    requires s.frames != [] && s.Top().closure.body < |p.bodies| && i.op.Call? && closure.body < |p.bodies|
    requires Apart(s, t) && HasRoom(p, s, i, p.bodies[closure.body])
    ensures HasRoom(p, t, i, p.bodies[closure.body])
    ensures Apart(MovedInto(p, s, i, closure, resume), MovedInto(p, t, i, closure, resume))
  {
    hide ClearScratch, MoveDown, CloseFrom;
  }

  lemma EnterBodyApart(w: World, callees: Callees, s: State, t: State, links: seq<Option<Address>>,
                       site: (nat, nat), callee: nat)
    requires WorldOk(w) && CalleesOk(w, callees) && Apart(s, t)
    ensures var m, q := EnterBody(w, callees, s, links, site, callee), EnterBody(w, callees, t, links, site, callee);
            q == m.(outcome := q.outcome) && ApartOutcomes(m.outcome, q.outcome)
  {
    hide WorldOk, CalleesOk;
  }

  lemma JitCallApart(w: World, callees: Callees, s: State, t: State, returnsTo: seq<Option<Address>>, pc: nat)
    requires WorldOk(w) && StateOk(w.p, s) && StateOk(w.p, t) && |returnsTo| == |s.frames| && Apart(s, t)
    requires s.Top().closure.body in w.codes && pc < |ChunkOf(w.p, s).code|
    requires CalleesOk(w, callees) && SiteInstruction(ChunkOf(w.p, s), pc).Some?
    ensures var m, q := JitCall(w, callees, s, returnsTo, pc), JitCall(w, callees, t, returnsTo, pc);
            q == m.(outcome := q.outcome) && ApartOutcomes(m.outcome, q.outcome)
  {
    hide WorldOk, StateOk, CalleesOk, EnterCall, OperandsOk;
    Preservation.TopFacts(w.p, s);
    var i := ChunkOf(w.p, s).code[pc];
    SiteFacts(w.p, s, pc);
    if i.op.CallMember? {
      match w.p.member(s.heap, s.Top().closure.body, i.c, s.R(i.b)) {
        case None =>
        case Some(hit) =>
          ReadMemberOk(w.p, s, i, hit);
          ReadMemberOk(w.p, t, i, hit);
          var read, other := ReadMember(s, i, hit), ReadMember(t, i, hit);
          assert Apart(read, other);
          EnterCallApart(w, callees, read, other, returnsTo, pc, ChunkOf(w.p, s).code[pc + 1], pc + 2);
      }
    } else {
      EnterCallApart(w, callees, s, t, returnsTo, pc, i, pc + 1);
    }
  }

  lemma JitReturnApart(w: World, s: State, t: State, returnsTo: seq<Option<Address>>, callees: Callees,
                       pc: nat, a: Byte, nil: bool)
    requires WorldOk(w) && StateOk(w.p, s) && StateOk(w.p, t) && |returnsTo| == |s.frames| && s.Holds(a) && Apart(s, t)
    ensures var m, q := JitReturn(w, s, returnsTo, callees, pc, a, nil), JitReturn(w, t, returnsTo, callees, pc, a, nil);
            q == m.(outcome := q.outcome) && ApartOutcomes(m.outcome, q.outcome)
  {
    hide WorldOk, StateOk, CloseFrom, EnterAt, FrameOk, LinkOk, LaidOut, Interpreter.NothingToDrain, GoBack,
         ApartOutcomes;
    Preservation.TopFacts(w.p, s);
    DrainsApart(w.p, s, t);
    LeavesApart(s, t, pc);
    if Interpreter.NothingToDrain(w.p, s) {
      LinkFacts(w.p, s);
      LinkFacts(w.p, t);
      var read := if nil then NIL else s.R(a);
      if !read.tag.HostValueTag? {
        var last := |s.frames| - 1;
        var value := if s.Top().drop then NIL else read;
        var heap := CloseFrom(s.heap, s.slots, s.Top().base + ProtoOf(w.p, s.Top()).kept);
        var at := s.frames[last - 1];
        var u := s.(heap := heap, frames := s.frames[..last]);
        var v := t.(heap := heap, frames := t.frames[..last]);
        PoppedApart(w, u, v, s.Top().result, value, at, returnsTo[last], returnsTo[..last], callees);
      }
    }
  }

  lemma DrainsApart(p: Program, s: State, t: State)
    requires s.frames != [] && Apart(s, t)
    ensures Interpreter.NothingToDrain(p, s) <==> Interpreter.NothingToDrain(p, t)
    ensures Interpreter.NothingToDrain(p, s) ==> |s.frames| >= 2
  {
  }

  lemma LeavesApart(s: State, t: State, pc: nat)
    requires Apart(s, t)
    ensures ApartOutcomes(Leave(s, pc), Leave(t, pc))
  {
  }

  lemma PoppedApart(w: World, u: State, v: State, result: nat, value: Value, at: Frame,
                    link: Option<Address>, links: seq<Option<Address>>, callees: Callees)
    requires Apart(u, v) && u.frames != [] && u.Holds(result)
    ensures var m := GoBack(w, u.SetR(result, value).At(at.pc), at, link, links, callees);
            var q := GoBack(w, v.SetR(result, value).At(at.pc), at, link, links, callees);
            q == m.(outcome := q.outcome) && ApartOutcomes(m.outcome, q.outcome)
  {
    EnterAtApart(w, u.SetR(result, value).At(at.pc), v.SetR(result, value).At(at.pc), at.closure.body, at.pc);
  }

  lemma EnterAtApart(w: World, s: State, t: State, body: nat, pc: nat)
    requires Apart(s, t)
    ensures EnterAt(w, s, body, pc) == EnterAt(w, t, body, pc)
  {
  }

  lemma FollowAlike(w: World, callees: Callees, cfg: Config, t: State, choice: Choice, o: Outcome, q: Outcome,
                    returnsTo: seq<Option<Address>>)
    requires WorldOk(w) && cfg.at.body in w.codes
    requires choice.next <= |w.p.bodies[cfg.at.body].chunk.code|
    requires 0 <= choice.target <= |w.p.bodies[cfg.at.body].chunk.code|
    requires AlikeOutcomes(o, q)
    ensures var end := Follow(w, callees, cfg, choice, o, returnsTo);
            var other := Follow(w, callees, cfg.(state := t), choice, q, returnsTo);
            && AlikeEnds(end, other) && (Apart(o.state, q.state) ==> Apart(Arrived(end), Arrived(other)))
  {
    hide WorldOk;
  }

  lemma AdvanceAlike(w: World, callees: Callees, cfg: Config, t: State)
    requires Live(w, cfg) && Live(w, cfg.(state := t)) && CalleesOk(w, callees) && Apart(cfg.state, t) && Blind(w.p)
    ensures AlikeEnds(Advance(w, callees, cfg), Advance(w, callees, cfg.(state := t)))
  {
    hide Run, JitCall, JitReturn, StateOk, Settled, Laid, LaidOut, CalleesOk, EntryIs, ReturnsOk, WorldOk, Follow, Blind,
         InPlaceWork, AlikeEnds, AlikeOutcomes;
    var s := cfg.state;
    LiveFacts(w, cfg);
    Preservation.TopFacts(w.p, s);
    var chunk := ChunkOf(w.p, s);
    PcAtIs(w, cfg.at, s.pc);
    SettledBounds(chunk, s.pc);
    var choice := Settled(chunk, s.pc);
    if s.pc < |chunk.code| {
      if choice.stencil.Call? {
        CallSite(chunk, s.pc);
        JitCallApart(w, callees, s, t, cfg.returnsTo, s.pc);
        var m, q := JitCall(w, callees, s, cfg.returnsTo, s.pc), JitCall(w, callees, t, cfg.returnsTo, s.pc);
        FollowAlike(w, m.callees, cfg, t, choice, m.outcome, q.outcome, m.returnsTo);
      } else if choice.stencil.Return? || choice.stencil.ReturnNil? {
        var a, nil := chunk.code[s.pc].a, choice.stencil.ReturnNil?;
        JitReturnApart(w, s, t, cfg.returnsTo, callees, s.pc, a, nil);
        var m := JitReturn(w, s, cfg.returnsTo, callees, s.pc, a, nil);
        FollowAlike(w, m.callees, cfg, t, choice, m.outcome,
                    JitReturn(w, t, cfg.returnsTo, callees, s.pc, a, nil).outcome, m.returnsTo);
      } else {
        StencilAlike(w, callees, cfg, t, choice);
      }
    } else {
      EndAlike(w, callees, cfg, t);
    }
  }

  lemma EndAlike(w: World, callees: Callees, cfg: Config, t: State)
    requires Live(w, cfg) && Live(w, cfg.(state := t)) && CalleesOk(w, callees) && Apart(cfg.state, t)
    requires cfg.state.pc == |w.p.bodies[cfg.at.body].chunk.code|
    ensures AlikeEnds(Advance(w, callees, cfg), Advance(w, callees, cfg.(state := t)))
  {
    hide StateOk, EntryIs, ReturnsOk, WorldOk, CalleesOk, Settled;
    LiveFacts(w, cfg);
    PcAtIs(w, cfg.at, cfg.state.pc);
  }

  lemma StencilAlike(w: World, callees: Callees, cfg: Config, t: State, choice: Choice)
    requires Live(w, cfg) && Live(w, cfg.(state := t)) && CalleesOk(w, callees) && Apart(cfg.state, t) && Blind(w.p)
    requires cfg.state.pc < |w.p.bodies[cfg.at.body].chunk.code|
    requires choice == Settled(w.p.bodies[cfg.at.body].chunk, cfg.state.pc) && StaysInFrame(choice.stencil)
    ensures AlikeEnds(Advance(w, callees, cfg), Advance(w, callees, cfg.(state := t)))
  {
    hide Run, JitCall, JitReturn, StateOk, Settled, Laid, LaidOut, CalleesOk, EntryIs, ReturnsOk, WorldOk, Follow, Blind,
         InPlaceWork, AlikeEnds, AlikeOutcomes;
    var s := cfg.state;
    LiveFacts(w, cfg);
    Preservation.TopFacts(w.p, s);
    var chunk := ChunkOf(w.p, s);
    PcAtIs(w, cfg.at, s.pc);
    SettledBounds(chunk, s.pc);
    WindowHeld(w.p, s);
    WindowHeld(w.p, t);
    var h := HolesOf(chunk, s.pc);
    if choice.stencil.InPlace? {
      WorkAlike(w.p, s, t, h);
      RunIsWork(w.p, s, choice.stencil, h);
      RunIsWork(w.p, t, choice.stencil, h);
    } else {
      RunApart(w.p, s, t, choice.stencil, h);
    }
    FollowAlike(w, callees, cfg, t, choice, Run(w.p, s, choice.stencil, h), Run(w.p, t, choice.stencil, h), cfg.returnsTo);
  }

  lemma ApartLives(w: World, cfg: Config, t: State)
    requires Live(w, cfg) && Apart(cfg.state, t)
    ensures Live(w, cfg.(state := t)) && StateOk(w.p, t)
  {
    hide EntryIs, ReturnsOk, WorldOk, StateOk;
    Preservation.TopFacts(w.p, cfg.state);
    Preservation.SameFrames(w.p, cfg.state, t);
  }

  // ------------------------------------------------------------------
  // One stencil against the interpreter elsewhere

  /** From the same machine with its collector elsewhere, what some number of the
      interpreter's turns comes to, or a handing over: the stencil's own end but
      for the collector, or one where something is held back. */
  ghost predicate Unnoticed(p: Program, s: State, n: nat, end: Progress, other: Progress)
    requires StateOk(p, s)
  {
    Follows(p, s, other, n) && AlikeEnds(end, other) && (Apart(Arrived(end), Arrived(other)) || Arrived(other).pending)
  }

  lemma StencilUnnoticed(w: World, callees: Callees, cfg: Config, t: State) returns (n: nat, other: Progress)
    requires Live(w, cfg) && CalleesOk(w, callees) && Apart(cfg.state, t) && Blind(w.p)
    requires !cfg.state.Traps() && !HandsBackRun(w, cfg) && !Arrived(Advance(w, callees, cfg)).pending
    ensures StateOk(w.p, t) && Unnoticed(w.p, t, n, Advance(w, callees, cfg), other)
  {
    hide StateOk, Advance, Follows, CalleesOk, ReturnsOk, EntryIs, WorldOk, HandsBackRun, SkipsStep, Blind, AlikeEnds;
    ApartLives(w, cfg, t);
    var there := cfg.(state := t);
    AdvanceAlike(w, callees, cfg, t);
    AlikeArrives(Advance(w, callees, cfg), Advance(w, callees, there));
    Preservation.TopFacts(w.p, t);
    RunHandedSame(w, cfg, t);
    if SkipsStep(w, callees, there) {
      n, other := SkippedUnnoticed(w, callees, there);
      AlikeThrough(Advance(w, callees, cfg), Advance(w, callees, there), other);
    } else {
      n := AdvanceRefines(w, callees, there);
      other := Advance(w, callees, there);
    }
  }

  lemma AlikeArrives(end: Progress, other: Progress)
    requires AlikeEnds(end, other)
    ensures Alike(Arrived(end), Arrived(other))
    ensures Arrived(other).pending == Arrived(end).pending ==> Apart(Arrived(end), Arrived(other))
  {
  }

  lemma AlikeThrough(end: Progress, there: Progress, other: Progress)
    requires AlikeEnds(end, there) && AlikeEnds(there, other)
    ensures AlikeEnds(end, other)
    ensures Arrived(other).pending == Arrived(end).pending ==> Apart(Arrived(end), Arrived(other))
  {
  }

  lemma RunHandedSame(w: World, cfg: Config, t: State)
    requires Live(w, cfg) && Live(w, cfg.(state := t)) && Apart(cfg.state, t)
    ensures HandsBackRun(w, cfg) <==> HandsBackRun(w, cfg.(state := t))
  {
    hide StateOk, ReturnsOk, EntryIs, WorldOk, Settled;
  }

  /** A call that skips a step comes to what the interpreter's comes to, the step
      taken. */
  lemma SkippedUnnoticed(w: World, callees: Callees, cfg: Config) returns (n: nat, other: Progress)
    requires Live(w, cfg) && CalleesOk(w, callees) && SkipsStep(w, callees, cfg)
    ensures Follows(w.p, cfg.state, other, n) && AlikeEnds(Advance(w, callees, cfg), other)
  {
    hide StateOk, Advance, Follows, CalleesOk, ReturnsOk, EntryIs, WorldOk, JitCall, StaysPut, CallMade, CallState,
         Settled, OperandsOk;
    var s, end := cfg.state, Advance(w, callees, cfg);
    Preservation.TopFacts(w.p, s);
    SiteHolds(w, cfg);
    LiveFacts(w, cfg);
    AdvanceCalls(w, callees, cfg);
    var moved;
    n, moved := JitCallRefines(w, callees, s, cfg.returnsTo);
    var o := JitCall(w, callees, s, cfg.returnsTo, s.pc).outcome;
    var v := CallState(w.p, s);
    MovesOrLeaves(w.p, s, o, v, moved, n);
    if moved.None? {
      RefusedStaysPut(w.p, s, o, v, n, end);
    }
    other := PolledEnd(end, w.p.collect(v));
    MadeFollows(w.p, s, o, v, moved, n, end);
  }

  function PolledEnd(end: Progress, poll: Poll): Progress {
    match end
    case Went(c, callees) => Went(c.(state := c.state.Polled(poll)), callees)
    case Left(t, links, pc, callees) => Left(t.Polled(poll), links, pc, callees)
  }

  lemma MadeFollows(p: Program, s: State, o: Outcome, v: State, moved: Option<State>, n: nat, end: Progress)
    requires StateOk(p, s) && CallMade(p, s, o, v, moved, n) && moved.Some? && ComesOf(o, end)
    ensures Follows(p, s, PolledEnd(end, p.collect(v)), n) && AlikeEnds(end, PolledEnd(end, p.collect(v)))
  {
    hide StateOk, Turns, Interpreter.Step, HandsOver;
  }

  // ------------------------------------------------------------------
  // A run

  /** None of these stencils hands back a run of values. */
  ghost predicate AnswersSingly(w: World, found: nat -> Callees, k: nat, n: nat, cfg: Config)
    requires Live(w, cfg) && AllOk(w, found)
    decreases n
  {
    n == 0 ||
    (!HandsBackRun(w, cfg) &&
     match Advance(w, found(k), cfg)
     case Left(_, _, _, _) => true
     case Went(c, _) =>
       AdvanceStands(w, found(k), cfg);
       AnswersSingly(w, found, k + 1, n - 1, c))
  }

  lemma {:induction false} NothingHeldBefore(w: World, found: nat -> Callees, k: nat, n: nat, cfg: Config)
    requires Live(w, cfg) && AllOk(w, found) && cfg.state.pending
    ensures Arrived(Running(w, found, k, n, cfg)).pending
    decreases n
  {
    hide Live, StateOk, Advance, CalleesOk;
    if n > 0 {
      AdvanceTraps(w, found(k), cfg);
      AdvanceStands(w, found(k), cfg);
      match Advance(w, found(k), cfg) {
        case Left(_, _, _, _) =>
        case Went(c, _) => NothingHeldBefore(w, found, k + 1, n - 1, c);
      }
    }
  }

  /** A run that holds nothing back itself, from an untrapped machine: whatever
      steps of the collector its calls skip, the interpreter comes to where it
      ends, but for the collector, unless it first comes to where it has held
      something back. */
  lemma {:induction false} RunUnnoticed(w: World, found: nat -> Callees, k: nat, n: nat, cfg: Config, t: State)
    returns (m: nat, u: State, last: nat, other: Progress)
    requires Live(w, cfg) && AllOk(w, found) && Apart(cfg.state, t) && Blind(w.p)
    requires !cfg.state.Traps() && AnswersSingly(w, found, k, n, cfg)
    requires !Arrived(Running(w, found, k, n, cfg)).pending
    ensures StateOk(w.p, t) && RunFollows(w.p, t, other, m, u, last)
    ensures ApartEnds(Running(w, found, k, n, cfg), other) || Arrived(other).pending
    decreases n
  {
    hide Live, StateOk, Advance, Turns, HandsOver, CalleesOk, Blind, HandsBackRun;
    ApartLives(w, cfg, t);
    if n == 0 {
      m, u, last, other := 0, t, 0, Went(cfg.(state := t), found(k));
      NoTurn(w.p, t);
    } else {
      AdvanceTraps(w, found(k), cfg);
      AdvanceStands(w, found(k), cfg);
      var end := Advance(w, found(k), cfg);
      if end.Went? && end.cfg.state.pending {
        NothingHeldBefore(w, found, k + 1, n - 1, end.cfg);
      }
      last, other := StencilUnnoticed(w, found(k), cfg, t);
      m, u := 0, t;
      NoTurn(w.p, t);
      if other.Went? {
        m, u := last, other.cfg.state;
        if !other.cfg.state.pending {
          var first := m;
          m, u, last, other := RunUnnoticed(w, found, k + 1, n - 1, end.cfg, u);
          TurnsAdd(w.p, t, first, m);
          m := first + m;
        }
      }
    }
  }
}
