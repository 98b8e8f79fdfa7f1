/** Where compiled code and the interpreter part: exactly at the stencils that run
    past what the traps word stands for, at the calls before which the collector
    was due a step, and at the returns that hand back a run of values (src/vm.c,
    VM_SLOW_PATH and LHAT_GC_POLL; jit/jit.c, jit_call and jit_return). */
module Parting {
  import opened Wrappers
  import opened Bytecode
  import opened Machine
  import Interpreter
  import Preservation
  import opened Stencils
  import opened Choosing
  import opened Layout
  import opened Calls
  import opened Refinement
  import opened CallRefinement
  import opened CompiledRuns
  import opened WholeRuns

  // ------------------------------------------------------------------
  // Turns that end

  /** From a state the interpreter takes no turn of its own reach from. */
  lemma NoFurtherTurn(p: Program, s: State, n: nat)
    requires StateOk(p, s) && !Interpreter.Step(p, s).Next?
    ensures Turns(p, s, n) == if n == 0 then Some(s) else None
  {
  }

  lemma TurnsStop(p: Program, s: State, last: nat, n: nat)
    requires StateOk(p, s) && Turns(p, s, last).Some?
    requires !Interpreter.Step(p, Turns(p, s, last).value).Next? && n > last
    ensures Turns(p, s, n) == None
  {
    hide StateOk, Interpreter.Step;
    TurnsAdd(p, s, last, n - last);
    NoFurtherTurn(p, Turns(p, s, last).value, n - last);
  }

  /** What the collector held back only the interpreter takes, and not in a turn
      in reach. */
  lemma StepKeepsPending(p: Program, s: State)
    requires StateOk(p, s) && Interpreter.Step(p, s).Next?
    ensures s.pending ==> Interpreter.Step(p, s).state.pending
    ensures Interpreter.Step(p, s).state.hook == s.hook
    ensures s.collector <= Interpreter.Step(p, s).state.collector
  {
    hide CloseFrom, CloseAt, ClearScratch, MoveDown, MembersOk;
    Preservation.TopFacts(p, s);
    assert PollOk(s, p.collect(s));
  }

  lemma {:induction false} TurnsKeepCollector(p: Program, s: State, n: nat)
    requires StateOk(p, s) && Turns(p, s, n).Some?
    ensures s.collector <= Turns(p, s, n).value.collector
    decreases n
  {
    hide StateOk, Interpreter.Step;
    if n > 0 {
      StepKeepsPending(p, s);
      Preservation.StepKeeps(p, s);
      TurnsKeepCollector(p, Interpreter.Step(p, s).state, n - 1);
    }
  }

  lemma {:induction false} TurnsKeepPending(p: Program, s: State, n: nat)
    requires StateOk(p, s) && s.pending && Turns(p, s, n).Some?
    ensures Turns(p, s, n).value.pending
    decreases n
  {
    hide StateOk, Interpreter.Step;
    if n > 0 {
      StepKeepsPending(p, s);
      Preservation.StepKeeps(p, s);
      TurnsKeepPending(p, Interpreter.Step(p, s).state, n - 1);
    }
  }

  /** Every state on the way to one where nothing waits has nothing waiting. */
  lemma NothingPendingBefore(p: Program, s: State, n: nat, m: nat)
    requires StateOk(p, s) && Turns(p, s, n).Some? && !Turns(p, s, n).value.pending && m <= n
    ensures Turns(p, s, m).Some? && !Turns(p, s, m).value.pending
  {
    hide StateOk;
    TurnsBefore(p, s, n, m);
    TurnsAdd(p, s, m, n - m);
    if Turns(p, s, m).value.pending {
      TurnsKeepPending(p, Turns(p, s, m).value, n - m);
    }
  }

  lemma {:induction false} TurnsBefore(p: Program, s: State, n: nat, m: nat)
    requires StateOk(p, s) && Turns(p, s, n).Some? && m <= n
    ensures Turns(p, s, m).Some?
    decreases n
  {
    hide StateOk, Interpreter.Step;
    if m > 0 {
      Preservation.StepKeeps(p, s);
      TurnsBefore(p, Interpreter.Step(p, s).state, n - 1, m - 1);
    }
  }

  // ------------------------------------------------------------------
  // What a stencil does with the traps word set

  lemma RunTraps(p: Program, s: State, st: Stencil, h: Holes)
    requires InWindow(s, st, h) && StaysInFrame(st)
    ensures var t := Run(p, s, st, h).state;
            && t.hook == s.hook
            && (!st.InPlace? ==> t.pending == s.pending && t.collector == s.collector)
  {
    hide Interpreter.Exact, Interpreter.Holds, OfInteger, OfBool, CloseFrom, CloseAt;
  }

  lemma WorkKeepsPending(p: Program, s: State, h: Holes)
    requires StateOk(p, s)
    ensures s.pending ==> InPlaceWork(p, s, h).state.pending
    ensures s.collector <= InPlaceWork(p, s, h).state.collector
  {
    hide CloseFrom, CloseAt;
  }

  /** The stencil at the processor's place is work done in place. */
  ghost predicate WorksInPlace(w: World, cfg: Config)
    requires Live(w, cfg)
  {
    var chunk := w.p.bodies[cfg.at.body].chunk;
    cfg.state.pc < |chunk.code| && Settled(chunk, cfg.state.pc).stencil.InPlace?
  }

  /** The machine's own state where a stencil goes on or leaves. */
  ghost function Arrived(end: Progress): State {
    match end
    case Went(c, _) => c.state
    case Left(t, _, pc, _) => t.At(pc)
  }

  /** Compiled code never takes what waits; only by work done in place does it move
      the collector, or come to have something waiting. With something waiting it goes on only forward, in
      the frame it is in: whatever polls leaves. */
  lemma AdvanceTraps(w: World, callees: Callees, cfg: Config)
    requires Live(w, cfg) && CalleesOk(w, callees)
    ensures var s, end := cfg.state, Advance(w, callees, cfg);
            && Arrived(end).hook == s.hook
            && (s.pending ==> Arrived(end).pending)
            && (Arrived(end).pending ==> s.pending || WorksInPlace(w, cfg))
            && s.collector <= Arrived(end).collector
            && (Arrived(end).collector == s.collector || WorksInPlace(w, cfg))
            && (s.Traps() && end.Went? ==> end.cfg.state.frames == s.frames && end.cfg.state.pc > s.pc)
  {
    hide Run, JitCall, JitReturn, StateOk, Settled, Laid, LaidOut, CalleesOk, EntryIs, ReturnsOk, WorldOk;
    var s := cfg.state;
    LiveFacts(w, cfg);
    Preservation.TopFacts(w.p, s);
    var chunk := ChunkOf(w.p, s);
    PcAtIs(w, cfg.at, s.pc);
    SettledBounds(chunk, s.pc);
    var choice := Settled(chunk, s.pc);
    if s.pc < |chunk.code| {
      if choice.stencil.Call? {
        CallSite(chunk, s.pc);
        JitCallSpends(w, callees, cfg);
      } else if choice.stencil.Return? || choice.stencil.ReturnNil? {
        ReturnSpends(w, callees, cfg, chunk.code[s.pc].a, choice.stencil.ReturnNil?);
      } else {
        InFrameTraps(w, cfg, choice);
      }
    }
  }

  lemma InFrameTraps(w: World, cfg: Config, choice: Choice)
    requires Live(w, cfg) && cfg.state.pc < |w.p.bodies[cfg.at.body].chunk.code|
    requires choice == Settled(w.p.bodies[cfg.at.body].chunk, cfg.state.pc) && StaysInFrame(choice.stencil)
    ensures var s := cfg.state;
            var h := HolesOf(w.p.bodies[cfg.at.body].chunk, s.pc);
            && InWindow(s, choice.stencil, h)
            && var o := Run(w.p, s, choice.stencil, h);
               && o.state.frames == s.frames && o.state.hook == s.hook && !o.Moved?
               && (s.pending ==> o.state.pending)
               && (o.state.pending ==> s.pending || choice.stencil.InPlace?)
               && s.collector <= o.state.collector
               && (o.state.collector == s.collector || choice.stencil.InPlace?)
               && (o.Continue? ==> choice.next > s.pc)
               && (o.Target? && s.Traps() ==> choice.target > s.pc)
  {
    hide Run, StateOk, Settled, Laid, LaidOut, EntryIs, ReturnsOk, WorldOk, InPlaceWork;
    var s := cfg.state;
    Preservation.TopFacts(w.p, s);
    var chunk := w.p.bodies[cfg.at.body].chunk;
    var h := HolesOf(chunk, s.pc);
    WindowHeld(w.p, s);
    RunStays(w.p, s, choice.stencil, h);
    RunTraps(w.p, s, choice.stencil, h);
    RunSpends(w.p, s, choice.stencil, h);
    ForwardTarget(chunk, s.pc);
    WorkKeepsPending(w.p, s, h);
    RunIsWork(w.p, s, choice.stencil, h);
  }

  lemma RunIsWork(p: Program, s: State, st: Stencil, h: Holes)
    requires InWindow(s, st, h) && StaysInFrame(st)
    ensures st.InPlace? ==> Run(p, s, st, h) == InPlaceWork(p, s, h)
  {
    hide InPlaceWork;
  }

  // ------------------------------------------------------------------
  // One stencil

  /** At one stencil, exactly: what it does is some number of the interpreter's
      turns, or a handing over, unless it runs past what waits at its boundary
      without leaving the machine as it found it, makes a call before which the
      collector was due a step, or hands back a run. */
  lemma AdvanceAgreesIff(w: World, callees: Callees, cfg: Config)
    requires Live(w, cfg) && CalleesOk(w, callees)
    ensures (exists n: nat :: Follows(w.p, cfg.state, Advance(w, callees, cfg), n)) <==> !Parts(w, callees, cfg)
  {
    hide StateOk, Advance, Follows, HandsBackRun, PassesTrap, SkipsStep, CalleesOk, ReturnsOk;
    if PassesTrap(w, callees, cfg) {
      PassingAgreesNever(w, callees, cfg);
    } else if SkipsStep(w, callees, cfg) {
      SkippingAgreesNever(w, callees, cfg);
    } else if HandsBackRun(w, cfg) {
      HandingBackAgreesNever(w, callees, cfg);
    } else {
      var n := AdvanceRefines(w, callees, cfg);
    }
  }

  lemma BoundaryTakesNoTurn(p: Program, s: State)
    requires StateOk(p, s) && !s.polling && s.Interrupted()
    ensures !Interpreter.Step(p, s).Next?
  {
    hide StateOk;
  }

  lemma PassingAgreesNever(w: World, callees: Callees, cfg: Config)
    requires Live(w, cfg) && CalleesOk(w, callees) && PassesTrap(w, callees, cfg)
    ensures forall n: nat :: !Follows(w.p, cfg.state, Advance(w, callees, cfg), n)
  {
    hide StateOk, Advance, Follows, CalleesOk, ReturnsOk, EntryIs, WorldOk;
    var s, end := cfg.state, Advance(w, callees, cfg);
    BoundaryTakesNoTurn(w.p, s);
    forall n: nat ensures !Follows(w.p, s, end, n) {
      NeverFollows(w.p, s, end, n);
    }
  }

  /** Where the interpreter takes no turn, what is not left whole follows from none. */
  lemma NeverFollows(p: Program, s: State, end: Progress, n: nat)
    requires StateOk(p, s) && !s.polling && !Interpreter.Step(p, s).Next?
    requires !LeavesWhole(p, s, end)
    ensures !Follows(p, s, end, n)
  {
    hide StateOk, Interpreter.Step, Turns;
    NoFurtherTurn(p, s, n);
    NoFurtherTurn(p, s, 1);
    assert s.At(s.pc) == s;
  }

  /** Past the collector's step the interpreter's collector is ahead, and stays so. */
  lemma SkippingAgreesNever(w: World, callees: Callees, cfg: Config)
    requires Live(w, cfg) && CalleesOk(w, callees) && SkipsStep(w, callees, cfg)
    ensures forall n: nat :: !Follows(w.p, cfg.state, Advance(w, callees, cfg), n)
  {
    hide StateOk, Advance, Follows, CalleesOk, ReturnsOk, EntryIs, WorldOk, JitCall, StaysPut, CallMade, CallState,
         Settled, OperandsOk;
    var s, end := cfg.state, Advance(w, callees, cfg);
    Preservation.TopFacts(w.p, s);
    SiteHolds(w, cfg);
    LiveFacts(w, cfg);
    AdvanceCalls(w, callees, cfg);
    var made, moved := JitCallRefines(w, callees, s, cfg.returnsTo);
    var o := JitCall(w, callees, s, cfg.returnsTo, s.pc).outcome;
    var v := CallState(w.p, s);
    PollIsOk(w.p, s, v);
    MovesOrLeaves(w.p, s, o, v, moved, made);
    if moved.None? {
      RefusedStaysPut(w.p, s, o, v, made, end);
    } else {
      forall n: nat ensures !Follows(w.p, s, end, n) {
        LeftBehind(w.p, s, o, v, moved.value, made, end, n);
      }
    }
  }

  lemma MovesOrLeaves(p: Program, s: State, o: Outcome, v: State, moved: Option<State>, n: nat)
    requires StateOk(p, s) && CallMade(p, s, o, v, moved, n)
    ensures o.Moved? || o.Leave?
  {
    hide StateOk, Turns, Interpreter.Step, HandsOn;
  }

  /** What a call's outcome becomes. */
  ghost predicate ComesOf(o: Outcome, end: Progress) {
    match o
    case Moved(t, _) => end.Went? && end.cfg.state == t
    case Leave(t, pc) => end.Left? && end.state == t && end.pc == pc
    case _ => false
  }

  lemma RefusedStaysPut(p: Program, s: State, o: Outcome, v: State, n: nat, end: Progress)
    requires StateOk(p, s) && !s.polling && CallMade(p, s, o, v, None, n) && ComesOf(o, end)
    ensures StaysPut(p, s, end)
  {
    hide StateOk, Turns, Interpreter.Step;
    assert s.At(s.pc) == s;
  }

  lemma LeftBehind(p: Program, s: State, o: Outcome, v: State, moved: State, made: nat, end: Progress, n: nat)
    requires StateOk(p, s) && !s.polling && CallMade(p, s, o, v, Some(moved), made) && ComesOf(o, end)
    requires v.collector < p.collect(v).collector && !StaysPut(p, s, end)
    ensures !Follows(p, s, end, n)
  {
    hide StateOk, Turns, Interpreter.Step, HandsOn;
    assert s.At(s.pc) == s;
    NoTurn(p, s);
    var polled := moved.Polled(p.collect(v)).(polling := true);
    OneTurn(p, v, polled);
    if Follows(p, s, end, n) && n > 0 {
      if v == s {
        TurnsBefore(p, s, n, 1);
        TurnsAdd(p, s, 1, n - 1);
        TurnsKeepCollector(p, polled, n - 1);
      } else if n > 1 {
        TurnsBefore(p, s, n, 2);
        TurnsAdd(p, s, 1, 1);
        TurnsAdd(p, s, 2, n - 2);
        TurnsKeepCollector(p, polled, n - 2);
      }
    }
  }

  lemma HandingBackAgreesNever(w: World, callees: Callees, cfg: Config)
    requires Live(w, cfg) && CalleesOk(w, callees) && HandsBackRun(w, cfg)
    ensures forall n: nat :: !Follows(w.p, cfg.state, Advance(w, callees, cfg), n)
  {
    hide StateOk, Follows, CalleesOk, ReturnsOk, EntryIs, WorldOk, JitReturn, Run, JitCall, Settled, AnswersRun;
    var s := cfg.state;
    LiveFacts(w, cfg);
    Preservation.TopFacts(w.p, s);
    PcAtIs(w, cfg.at, s.pc);
    var chunk := ChunkOf(w.p, s);
    SettledBounds(chunk, s.pc);
    ReturnSite(chunk, s.pc);
    RunReturnBeyond(w.p, s);
    AnsweredGone(w, s, cfg.returnsTo, callees, chunk.code[s.pc].a);
    var end := Advance(w, callees, cfg);
    assert |Arrived(end).frames| < |s.frames|;
    forall n: nat ensures !Follows(w.p, s, end, n) {
      NeverFollows(w.p, s, end, n);
    }
  }

  lemma RunReturnBeyond(p: Program, s: State)
    requires AtInstruction(p, s) && ChunkOf(p, s).code[s.pc].op.Return? && ChunkOf(p, s).code[s.pc].b == 0
    requires s.Holds(ChunkOf(p, s).code[s.pc].a) && AnswersRun(p, s, ChunkOf(p, s).code[s.pc].a, false)
    ensures !Interpreter.Step(p, s).Next?
  {
    hide StateOk;
    Preservation.TopFacts(p, s);
  }

  lemma AnsweredGone(w: World, s: State, returnsTo: seq<Option<Address>>, callees: Callees, a: Byte)
    requires WorldOk(w) && AtInstruction(w.p, s) && |returnsTo| == |s.frames| && s.Holds(a)
    requires AnswersRun(w.p, s, a, false)
    ensures var o := JitReturn(w, s, returnsTo, callees, s.pc, a, false).outcome;
            |o.state.frames| < |s.frames| && (o.Moved? || o.Leave?)
  {
    hide CloseFrom, EnterAt, LaidOut, StateOk;
    Preservation.TopFacts(w.p, s);
    LinkFacts(w.p, s);
  }

  // ------------------------------------------------------------------
  // A run

  /** The run and the interpreter in step: after each stencil the machine is where
      the interpreter is so many turns from `origin`, each time further on; and
      where it leaves, it hands over what so many turns further allow. */
  ghost predicate InStep(w: World, found: nat -> Callees, k: nat, n: nat, cfg: Config, origin: State, marks: seq<nat>)
    requires Live(w, cfg) && AllOk(w, found) && StateOk(w.p, origin)
    decreases n
  {
    && |marks| == n + 1
    && Turns(w.p, origin, marks[0]) == Some(cfg.state)
    && (n == 0 ||
        match Advance(w, found(k), cfg)
        case Left(t, _, pc, _) =>
          marks[0] <= marks[1] && HandsOver(w.p, cfg.state, t, pc, marks[1] - marks[0])
        case Went(c, _) =>
          AdvanceStands(w, found(k), cfg);
          marks[0] < marks[1] && InStep(w, found, k + 1, n - 1, c, origin, marks[1..]))
  }

  lemma {:induction false} InStepMeans(w: World, found: nat -> Callees, k: nat, n: nat, cfg: Config,
                                       origin: State, marks: seq<nat>)
    requires Live(w, cfg) && AllOk(w, found) && StateOk(w.p, origin)
    requires InStep(w, found, k, n, cfg, origin, marks)
    ensures KeepsTogether(w, found, k, n, cfg)
    decreases n
  {
    hide StateOk, Advance, CalleesOk, ReturnsOk, EntryIs, WorldOk, Turns, Parts, HandsOver;
    if n > 0 {
      AdvanceAgreesIff(w, found(k), cfg);
      AdvanceStands(w, found(k), cfg);
      match Advance(w, found(k), cfg) {
        case Left(_, _, _, _) =>
          assert Follows(w.p, cfg.state, Advance(w, found(k), cfg), marks[1] - marks[0]);
        case Went(c, _) =>
          assert Turns(w.p, origin, marks[1]) == Some(c.state) by { InStepStarts(w, found, k + 1, n - 1, c, origin, marks[1..]); }
          TurnsAdd(w.p, origin, marks[0], marks[1] - marks[0]);
          LiveStands(w, c);
          assert !c.state.polling;
          assert Follows(w.p, cfg.state, Advance(w, found(k), cfg), marks[1] - marks[0]);
          InStepMeans(w, found, k + 1, n - 1, c, origin, marks[1..]);
      }
    }
  }

  lemma InStepStarts(w: World, found: nat -> Callees, k: nat, n: nat, cfg: Config, origin: State, marks: seq<nat>)
    requires Live(w, cfg) && AllOk(w, found) && StateOk(w.p, origin)
    requires InStep(w, found, k, n, cfg, origin, marks)
    ensures |marks| == n + 1 && Turns(w.p, origin, marks[0]) == Some(cfg.state)
  {
  }

  lemma {:induction false} KeepsInStep(w: World, found: nat -> Callees, k: nat, n: nat, cfg: Config,
                                       origin: State, before: nat) returns (marks: seq<nat>)
    requires Live(w, cfg) && AllOk(w, found) && StateOk(w.p, origin)
    requires KeepsTogether(w, found, k, n, cfg) && Turns(w.p, origin, before) == Some(cfg.state)
    ensures InStep(w, found, k, n, cfg, origin, marks) && marks[0] == before
    decreases n
  {
    hide StateOk, Advance, CalleesOk, ReturnsOk, EntryIs, WorldOk, Turns, Parts, HandsOver;
    marks := seq(n + 1, _ => before);
    if n > 0 {
      var gone := AdvanceRefines(w, found(k), cfg);
      AdvanceStands(w, found(k), cfg);
      match Advance(w, found(k), cfg) {
        case Left(_, _, _, _) =>
          marks := marks[1 := before + gone];
        case Went(c, _) =>
          TurnsAdd(w.p, origin, before, gone);
          var rest := KeepsInStep(w, found, k + 1, n - 1, c, origin, before + gone);
          marks := [before] + rest;
          assert marks[1..] == rest;
      }
    }
  }

  /** A run of any length, exactly: it and the interpreter are in step all along
      when and only when they part at none of its stencils. */
  lemma RunAgreesIff(w: World, found: nat -> Callees, k: nat, n: nat, cfg: Config)
    requires Live(w, cfg) && AllOk(w, found)
    ensures StateOk(w.p, cfg.state)
    ensures (exists marks :: InStep(w, found, k, n, cfg, cfg.state, marks)) <==> KeepsTogether(w, found, k, n, cfg)
  {
    hide Live, StateOk, InStep, KeepsTogether, CalleesOk;
    LiveStands(w, cfg);
    if marks :| InStep(w, found, k, n, cfg, cfg.state, marks) {
      InStepMeans(w, found, k, n, cfg, cfg.state, marks);
    }
    if KeepsTogether(w, found, k, n, cfg) {
      NoTurn(w.p, cfg.state);
      var marks := KeepsInStep(w, found, k, n, cfg, cfg.state, 0);
    }
  }

  // ------------------------------------------------------------------
  // A run past what waits

  /** Parting at none of those stencils but past what the traps word stands for. */
  ghost predicate OnlyTrapsPart(w: World, found: nat -> Callees, k: nat, n: nat, cfg: Config)
    requires Live(w, cfg) && AllOk(w, found)
    decreases n
  {
    n == 0 ||
    (!HandsBackRun(w, cfg) && !SkipsStep(w, found(k), cfg) &&
     match Advance(w, found(k), cfg)
     case Left(_, _, _, _) => true
     case Went(c, _) =>
       AdvanceStands(w, found(k), cfg);
       OnlyTrapsPart(w, found, k + 1, n - 1, c))
  }

  /** Behind a disposal under way what waits goes on waiting, and compiled code and
      the interpreter keep together. */
  lemma {:induction false} WaitsForDisposal(w: World, found: nat -> Callees, k: nat, n: nat, cfg: Config)
    requires Live(w, cfg) && AllOk(w, found) && OnlyTrapsPart(w, found, k, n, cfg)
    requires cfg.state.pending && !cfg.state.Interrupted()
    ensures KeepsTogether(w, found, k, n, cfg)
    decreases n
  {
    hide StateOk, Advance, CalleesOk, ReturnsOk, EntryIs, WorldOk, HandsBackRun, SkipsStep;
    if n > 0 {
      AdvanceTraps(w, found(k), cfg);
      AdvanceStands(w, found(k), cfg);
      match Advance(w, found(k), cfg) {
        case Left(_, _, _, _) =>
        case Went(c, _) => WaitsForDisposal(w, found, k + 1, n - 1, c);
      }
    }
  }

  /** How compiled code leaves with something waiting: at the instruction it stands
      at, at a body's entry, or in a frame of its own number no more. */
  lemma LeftFrom(w: World, callees: Callees, cfg: Config)
    requires Live(w, cfg) && CalleesOk(w, callees) && cfg.state.Traps()
    ensures match Advance(w, callees, cfg)
            case Left(t, _, pc, _) => pc == cfg.state.pc || pc == 0 || |t.frames| != |cfg.state.frames|
            case _ => true
  {
    hide Run, JitCall, JitReturn, StateOk, Settled, Laid, LaidOut, CalleesOk, EntryIs, ReturnsOk, WorldOk;
    var s := cfg.state;
    LiveFacts(w, cfg);
    Preservation.TopFacts(w.p, s);
    var chunk := ChunkOf(w.p, s);
    PcAtIs(w, cfg.at, s.pc);
    SettledBounds(chunk, s.pc);
    var choice := Settled(chunk, s.pc);
    if s.pc < |chunk.code| {
      if choice.stencil.Call? {
        CallSite(chunk, s.pc);
        JitCallLeaves(w, callees, cfg);
      } else if choice.stencil.Return? || choice.stencil.ReturnNil? {
        ReturnLeaves(w, callees, cfg, chunk.code[s.pc].a, choice.stencil.ReturnNil?);
      } else {
        WindowHeld(w.p, s);
        RunStays(w.p, s, choice.stencil, HolesOf(chunk, s.pc));
        RunLeavesAtPc(w.p, s, choice.stencil, HolesOf(chunk, s.pc));
      }
    }
  }

  lemma ReturnLeaves(w: World, callees: Callees, cfg: Config, a: Byte, nil: bool)
    requires Live(w, cfg) && CalleesOk(w, callees) && cfg.state.Holds(a)
    ensures var o := JitReturn(w, cfg.state, cfg.returnsTo, callees, cfg.state.pc, a, nil).outcome;
            match o
            case Leave(t, pc) => pc == cfg.state.pc || |t.frames| != |cfg.state.frames|
            case Moved(_, _) => true
            case _ => false
  {
    hide CloseFrom, StateOk, LaidOut, EnterAt, WorldOk, ReturnsOk, EntryIs, CalleesOk, ClosureOk, FrameOk, LinkOk;
    LiveFacts(w, cfg);
    Preservation.TopFacts(w.p, cfg.state);
    if Interpreter.NothingToDrain(w.p, cfg.state) {
      LinkFacts(w.p, cfg.state);
    }
  }

  lemma EnterCallLeaves(w: World, callees: Callees, s: State, returnsTo: seq<Option<Address>>,
                        pc: nat, i: Instruction, resume: nat)
    requires WorldOk(w) && CalleesOk(w, callees) && StateOk(w.p, s) && |returnsTo| == |s.frames|
    requires s.Top().closure.body in w.codes && pc < |ChunkOf(w.p, s).code|
    requires i.op.Call? && i.a < ChunkOf(w.p, s).registers && s.Holds(i.a)
    requires SiteInstruction(ChunkOf(w.p, s), pc) == Some(i)
    ensures match EnterCall(w, callees, s, returnsTo, pc, i, resume).outcome
            case Leave(_, at) => at == pc || at == 0
            case Moved(_, _) => true
            case _ => false
  {
    hide EnterBody, EnterCall, StateOk, WorldOk, CalleesOk, HasRoom, ClearScratch, MoveDown, CloseFrom,
         Interpreter.PlainCall, MovedInto;
    Preservation.TopFacts(w.p, s);
    EnterCallIs(w, callees, s, returnsTo, pc, i, resume);
    var closure := Interpreter.CalledClosure(s.heap, s.R(i.a));
    if closure.Some? {
      var callee := w.p.bodies[closure.value.body];
      if Interpreter.PlainCall(i, callee) && HasRoom(w.p, s, i, callee) {
        EnterBodyFrom(w, callees, MovedInto(w.p, s, i, closure.value, resume),
                      Links(w, s, returnsTo, pc, i), (s.Top().closure.body, pc), closure.value.body);
      }
    }
  }

  lemma JitCallLeaves(w: World, callees: Callees, cfg: Config)
    requires Live(w, cfg) && CalleesOk(w, callees) && cfg.state.pc < |w.p.bodies[cfg.at.body].chunk.code|
    requires SiteInstruction(w.p.bodies[cfg.at.body].chunk, cfg.state.pc).Some?
    ensures match JitCall(w, callees, cfg.state, cfg.returnsTo, cfg.state.pc).outcome
            case Leave(_, at) => at == cfg.state.pc || at == 0
            case Moved(_, _) => true
            case _ => false
  {
    hide StateOk, EnterCall, JitCall, CalleesOk, ReadMember, Settled, OperandsOk, ReturnsOk, EntryIs, WorldOk;
    var s := cfg.state;
    Preservation.TopFacts(w.p, s);
    var chunk := ChunkOf(w.p, s);
    SiteFacts(w.p, s, s.pc);
    LiveFacts(w, cfg);
    var i := chunk.code[s.pc];
    if i.op.CallMember? {
      JitCallMember(w, callees, s, cfg.returnsTo, i);
      match w.p.member(s.heap, s.Top().closure.body, i.c, s.R(i.b)) {
        case None =>
        case Some(hit) =>
          var read, paired := ReadMember(s, i, hit), chunk.code[s.pc + 1];
          ReadStays(s, i, hit);
          StillHolds(s, read, paired.a);
          assert SiteInstruction(ChunkOf(w.p, read), s.pc) == Some(paired);
          EnterCallLeaves(w, callees, read, cfg.returnsTo, s.pc, paired, s.pc + 2);
      }
    } else {
      assert i.op.Call?;
      JitCallPlain(w, callees, s, cfg.returnsTo, i);
      EnterCallLeaves(w, callees, s, cfg.returnsTo, s.pc, i, s.pc + 1);
    }
  }

  /** Once past a place with something waiting, compiled code never comes to look
      as it did there. */
  lemma {:induction false} NeverBack(w: World, found: nat -> Callees, k: nat, n: nat, cfg: Config, s: State)
    requires Live(w, cfg) && AllOk(w, found)
    requires cfg.state.pending && cfg.state.frames == s.frames && cfg.state.pc > s.pc > 0
    ensures var end := Running(w, found, k, n, cfg);
            Arrived(end).pending && (Arrived(end).frames == s.frames ==> Arrived(end).pc != s.pc)
    decreases n
  {
    hide StateOk, Advance, CalleesOk, ReturnsOk, EntryIs, WorldOk;
    if n > 0 {
      AdvanceTraps(w, found(k), cfg);
      LeftFrom(w, found(k), cfg);
      AdvanceStands(w, found(k), cfg);
      match Advance(w, found(k), cfg) {
        case Left(_, _, _, _) =>
        case Went(c, _) => NeverBack(w, found, k + 1, n - 1, c, s);
      }
    }
  }

  lemma PassedForGood(w: World, found: nat -> Callees, k: nat, n: nat, cfg: Config)
    requires Live(w, cfg) && AllOk(w, found) && OnlyTrapsPart(w, found, k, n, cfg)
    requires cfg.state.pending && cfg.state.Interrupted() && cfg.state.pc > 0
    requires !KeepsTogether(w, found, k, n, cfg)
    ensures var end := Running(w, found, k, n, cfg);
            Arrived(end).pending && Arrived(end) != cfg.state &&
            !(end.Left? && HeldBack(w.p, cfg.state, end.state, end.pc))
  {
    hide StateOk, Advance, CalleesOk, ReturnsOk, EntryIs, WorldOk, HandsBackRun, SkipsStep;
    AdvanceTraps(w, found(k), cfg);
    AdvanceStands(w, found(k), cfg);
    AsItStands(cfg.state);
    match Advance(w, found(k), cfg) {
      case Left(_, _, _, _) =>
      case Went(c, _) => NeverBack(w, found, k + 1, n - 1, c, cfg.state);
    }
  }

  /** What waits, comes to wait in the last turn the interpreter takes of its own
      reach: nothing it passes through but that last state has anything
      waiting. */
  lemma OnlyTheLastWaits(p: Program, s: State, before: nat, q: nat)
    requires StateOk(p, s) && Turns(p, s, before).Some? && !Turns(p, s, before).value.pending
    requires Turns(p, s, before + 1).Some? && !Interpreter.Step(p, Turns(p, s, before + 1).value).Next?
    requires Turns(p, s, q).Some? && Turns(p, s, q).value.pending
    ensures q == before + 1
  {
    hide StateOk, Interpreter.Step, Turns;
    if q <= before {
      NothingPendingBefore(p, s, before, q);
    } else if q > before + 1 {
      TurnsStop(p, s, before + 1, q);
    }
  }

  lemma NotOnTheWay(p: Program, origin: State, before: nat, end: Progress, m: nat, u: State, last: nat)
    requires StateOk(p, origin) && Turns(p, origin, before).Some? && Turns(p, origin, before + 1).Some?
    requires var prev := Turns(p, origin, before).value;
             !prev.pending && prev.pc < |ChunkOf(p, prev).code| && ChunkOf(p, prev).code[prev.pc].op.InC?
    requires var s := Turns(p, origin, before + 1).value;
             s.pending && !s.polling && !Interpreter.Step(p, s).Next? && Arrived(end) != s
    requires Arrived(end).pending
    requires end.Left? ==> !HeldBack(p, Turns(p, origin, before + 1).value, end.state, end.pc)
    ensures !RunFollows(p, origin, end, m, u, last)
  {
    hide StateOk, Interpreter.Step, Turns;
    if RunFollows(p, origin, end, m, u, last) {
      match end {
        case Went(c, _) => OnlyTheLastWaits(p, origin, before, m);
        case Left(t, _, pc, _) =>
          if Clean(p, u, t, pc, last) || AtEntry(p, u, t, pc, last) {
            TurnsAdd(p, origin, m, last);
            OnlyTheLastWaits(p, origin, before, m + last);
          } else if Reread(p, u, t, pc, last) {
            TurnsAdd(p, origin, m, 1);
            OnlyTheLastWaits(p, origin, before, m + 1);
          } else if m <= before {
            TurnsStop(p, origin, m, before + 1);
          } else if m > before + 1 {
            TurnsStop(p, origin, before + 1, m);
          }
      }
    }
  }

  /** Work done in place is one turn of the interpreter's. */
  lemma WorkIsOneTurn(w: World, callees: Callees, cfg: Config)
    requires Live(w, cfg) && CalleesOk(w, callees) && WorksInPlace(w, cfg) && !cfg.state.Interrupted()
    requires Advance(w, callees, cfg).Went?
    ensures var s := cfg.state;
            && s.pc < |ChunkOf(w.p, s).code| && ChunkOf(w.p, s).code[s.pc].op.InC?
            && Turns(w.p, s, 1) == Some(Advance(w, callees, cfg).cfg.state)
            && Advance(w, callees, cfg).cfg.state.pc > 0
  {
    hide Run, StateOk, Settled, Laid, LaidOut, CalleesOk, EntryIs, ReturnsOk, WorldOk, Turns, Interpreter.Step;
    var s := cfg.state;
    LiveFacts(w, cfg);
    Preservation.TopFacts(w.p, s);
    PcAtIs(w, cfg.at, s.pc);
    WorkSite(ChunkOf(w.p, s), s.pc);
    InPlaceRefines(w.p, s);
    InPlaceTurn(w.p, s);
    SettledBounds(ChunkOf(w.p, s), s.pc);
  }

  lemma WorkSite(chunk: Chunk, pc: nat)
    requires ChunkOk(chunk) && pc < |chunk.code| && Settled(chunk, pc).stencil.InPlace?
    ensures chunk.code[pc].op.InC?
  {
    assert OperandsOk(chunk, pc);
  }

  /** A run that passes what waits is no run of the interpreter's from where it
      began: no number of turns of its own comes to where it goes or leaves. */
  lemma {:induction false} RunGoesAstray(w: World, found: nat -> Callees, k: nat, n: nat, cfg: Config,
                                         origin: State, before: nat)
    requires Live(w, cfg) && AllOk(w, found) && OnlyTrapsPart(w, found, k, n, cfg)
    requires !cfg.state.Traps() && !KeepsTogether(w, found, k, n, cfg)
    requires StateOk(w.p, origin) && Turns(w.p, origin, before) == Some(cfg.state)
    ensures forall m: nat, u, last: nat :: !RunFollows(w.p, origin, Running(w, found, k, n, cfg), m, u, last)
    decreases n
  {
    hide StateOk, Advance, CalleesOk, ReturnsOk, EntryIs, WorldOk, HandsBackRun, SkipsStep, Turns, RunFollows;
    AdvanceTraps(w, found(k), cfg);
    AdvanceStands(w, found(k), cfg);
    match Advance(w, found(k), cfg) {
      case Left(_, _, _, _) =>
      case Went(c, _) =>
        LiveStands(w, c);
        Preservation.TopFacts(w.p, c.state);
        if c.state.Traps() {
          WorkIsOneTurn(w, found(k), cfg);
          TurnsAdd(w.p, origin, before, 1);
          if !c.state.Interrupted() {
            WaitsForDisposal(w, found, k + 1, n - 1, c);
          }
          PassedForGood(w, found, k + 1, n - 1, c);
          BoundaryTakesNoTurn(w.p, c.state);
          forall m: nat, u, last: nat ensures !RunFollows(w.p, origin, Running(w, found, k, n, cfg), m, u, last) {
            NotOnTheWay(w.p, origin, before, Running(w, found, k, n, cfg), m, u, last);
          }
        } else {
          var gone := AdvanceRefines(w, found(k), cfg);
          TurnsAdd(w.p, origin, before, gone);
          RunGoesAstray(w, found, k + 1, n - 1, c, origin, before + gone);
        }
    }
  }

  /** A run from where nothing waits, that parts from the interpreter nowhere but
      past what waits: it ends where some number of the interpreter's turns does,
      or in a handing over after some number, when and only when it runs past
      nothing that work done in place has left waiting. Nothing it does afterwards
      brings it back. */
  lemma RunEndsIff(w: World, found: nat -> Callees, k: nat, n: nat, cfg: Config)
    requires Live(w, cfg) && AllOk(w, found) && OnlyTrapsPart(w, found, k, n, cfg) && !cfg.state.Traps()
    ensures (exists m: nat, u, last: nat :: RunFollows(w.p, cfg.state, Running(w, found, k, n, cfg), m, u, last)) <==>
            KeepsTogether(w, found, k, n, cfg)
  {
    hide Live, StateOk, RunFollows, Running, KeepsTogether, OnlyTrapsPart, CalleesOk;
    if KeepsTogether(w, found, k, n, cfg) {
      var m, u, last := RunRefines(w, found, k, n, cfg);
    } else {
      LiveStands(w, cfg);
      NoTurn(w.p, cfg.state);
      RunGoesAstray(w, found, k, n, cfg, cfg.state, 0);
    }
  }

  lemma LiveStands(w: World, cfg: Config)
    requires Live(w, cfg)
    ensures StateOk(w.p, cfg.state)
  {
  }

  /** lhat_jit_run with a bound on the slice, exactly: it leaves after some `n`
      stencils, with turns left; it and the interpreter are in step up to where it
      hands back when and only when none of those stencils parts from it; and where
      they can part past a trap only, what it hands back is what the interpreter
      would have come to when and only when they do not. */
  lemma JitRunAgreesIff(w: World, found: nat -> Callees, s: State, returnsTo: seq<Option<Address>>)
    returns (n: nat)
    requires WorldOk(w) && AllOk(w, found)
    requires StateOk(w.p, s) && !s.polling && s.steps > 0 && ReturnsOk(w, s.frames, returnsTo)
    requires EnterAt(w, s, s.Top().closure.body, s.pc).Some?
    ensures var cfg := Config(s, returnsTo, EnterAt(w, s, s.Top().closure.body, s.pc).value);
            && Live(w, cfg)
            && var end := Running(w, found, 0, n, cfg);
               && end.Left? && end.state.steps > 0
               && ((exists marks :: InStep(w, found, 0, n, cfg, s, marks)) <==> KeepsTogether(w, found, 0, n, cfg))
               && (OnlyTrapsPart(w, found, 0, n, cfg) ==>
                     ((exists m: nat, u, last: nat :: RunFollows(w.p, s, end, m, u, last)) <==>
                      KeepsTogether(w, found, 0, n, cfg)))
  {
    hide Live, StateOk, ReturnsOk, WorldOk, RunFollows, Running, KeepsTogether, OnlyTrapsPart, InStep;
    Preservation.TopFacts(w.p, s);
    var cfg := Config(s, returnsTo, EnterAt(w, s, s.Top().closure.body, s.pc).value);
    EntersLive(w, s, returnsTo);
    n := RunLeaves(w, found, 0, cfg);
    RunAgreesIff(w, found, 0, n, cfg);
    if OnlyTrapsPart(w, found, 0, n, cfg) {
      RunEndsIff(w, found, 0, n, cfg);
    }
  }
}
