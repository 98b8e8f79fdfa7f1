/** Runs of compiled code from where the interpreter comes in to where it takes
    over again, and machines that go back and forth between the two
    (jit/jit.c, lhat_jit_run; src/vm.c, VM_ENTER_JIT). */
module WholeRuns {
  import opened Wrappers
  import opened Bytecode
  import opened Machine
  import Interpreter
  import Preservation
  import opened Stencils
  import opened Choosing
  import opened Layout
  import opened Calls
  import opened Refinement
  import opened CallRefinement
  import opened CompiledRuns

  // ------------------------------------------------------------------
  // The next stencil stands as the last one did

  /** A frame given up keeps the machine well formed, whatever it answered. */
  lemma PopKeeps(p: Program, s: State, value: Value)
    requires StateOk(p, s) && Interpreter.NothingToDrain(p, s)
    ensures var top, last := s.Top(), |s.frames| - 1;
            var rest := s.(heap := CloseFrom(s.heap, s.slots, top.base + ProtoOf(p, top).kept),
                           frames := s.frames[..last]);
            && rest.frames != [] && rest.Holds(top.result)
            && StateOk(p, rest.SetR(top.result, value).At(s.frames[last - 1].pc))
  {
    hide CloseFrom;
    LinkFacts(p, s);
    Preservation.ReturnKeeps(p, s, NIL);
    var u := Interpreter.ReturnStep(p, s, NIL).state;
    Preservation.SetRKeeps(p, u, s.Top().result, value);
    var top, last := s.Top(), |s.frames| - 1;
    var rest := s.(heap := CloseFrom(s.heap, s.slots, top.base + ProtoOf(p, top).kept), frames := s.frames[..last]);
    assert u.SetR(top.result, value) == rest.SetR(top.result, value).At(s.frames[last - 1].pc);
  }

  lemma ReturnStands(w: World, callees: Callees, cfg: Config, a: Byte, nil: bool)
    requires Live(w, cfg) && CalleesOk(w, callees) && cfg.state.Holds(a)
    ensures var o := JitReturn(w, cfg.state, cfg.returnsTo, callees, cfg.state.pc, a, nil).outcome;
            match o
            case Moved(t, _) => StateOk(w.p, t) && !t.polling
            case Leave(t, pc) => StateOk(w.p, t.At(pc))
            case _ => false
  {
    hide CloseFrom, StateOk, EnterAt, LaidOut, WorldOk, ReturnsOk, EntryIs, CalleesOk, ClosureOk, FrameOk, LinkOk;
    LiveFacts(w, cfg);
    Preservation.TopFacts(w.p, cfg.state);
    assert cfg.state.At(cfg.state.pc) == cfg.state;
    if Interpreter.NothingToDrain(w.p, cfg.state) {
      var s := cfg.state;
      PopKeeps(w.p, s, if s.Top().drop then NIL else if nil then NIL else s.R(a));
    }
  }

  /** A stencil that stays in its frame leaves a well formed machine, wherever in
      the chunk it goes on. */
  lemma RunStandsOk(p: Program, s: State, st: Stencil, h: Holes, q: nat)
    requires StateOk(p, s) && InWindow(s, st, h) && StaysInFrame(st) && q <= |ChunkOf(p, s).code|
    ensures StateOk(p, Run(p, s, st, h).state.At(q))
  {
    hide StateOk;
    RunStays(p, s, st, h);
    Preservation.TopFacts(p, s);
    var t := Run(p, s, st, h).state;
    if st.InPlace? {
      WorkStandsOk(p, s, h, q);
    } else {
      RunWrites(p, s, st, h);
      Preservation.SameFrames(p, s, t.At(q));
    }
  }

  lemma RunWrites(p: Program, s: State, st: Stencil, h: Holes)
    requires InWindow(s, st, h) && StaysInFrame(st) && !st.InPlace?
    ensures var t := Run(p, s, st, h).state; t.heap == s.heap && |t.slots| == |s.slots|
  {
    hide Interpreter.Exact, Interpreter.Holds, OfInteger, OfBool;
  }

  lemma WorkStandsOk(p: Program, s: State, h: Holes, q: nat)
    requires StateOk(p, s) && q <= |ChunkOf(p, s).code|
    ensures StateOk(p, InPlaceWork(p, s, h).state.At(q))
  {
    hide CloseFrom, CloseAt;
    var t := InPlaceWork(p, s, h).state.At(q);
    match h.work {
      case Close => Preservation.CloseFromKeeps(p, s.heap, s.slots, s.Top().base + h.a);
      case CloseOne => Preservation.CloseAtKeeps(p, s.heap, s.slots, s.Top().base + h.a);
      case _ => assert p.work(h.work, h.a, h.b, h.c, s.At(h.pc)).Done? || p.work(h.work, h.a, h.b, h.c, s.At(h.pc)).Refused?;
    }
    Preservation.OtherHeap(p, s, t);
  }

  /** A call leaves a well formed machine, gone through or refused. */
  lemma EnterCallStands(w: World, callees: Callees, s: State, returnsTo: seq<Option<Address>>,
                        pc: nat, i: Instruction, v: State)
    requires WorldOk(w) && CalleesOk(w, callees) && StateOk(w.p, s) && |returnsTo| == |s.frames| && i.op.Call?
    requires StateOk(w.p, v) && v == s.At(v.pc) && pc <= v.pc
    requires s.Top().closure.body in w.codes && pc < |ChunkOf(w.p, s).code| && v.pc < |ChunkOf(w.p, s).code|
    requires i == ChunkOf(w.p, s).code[v.pc]
    requires i.a < ChunkOf(w.p, s).registers && s.Holds(i.a)
    requires SiteInstruction(ChunkOf(w.p, s), pc) == Some(i)
    ensures MovedOk(w.p, EnterCall(w, callees, s, returnsTo, pc, i, v.pc + 1).outcome)
  {
    hide StateOk, EnterCall, WorldOk, CalleesOk, Interpreter.CallStep;
    Preservation.TopFacts(w.p, s);
    var moved := EnterCallRefines(w, callees, s, returnsTo, pc, i, v);
    if moved.Some? {
      var m := moved.value;
      Preservation.CallKeeps(w.p, v, i);
      var polled := m.Polled(w.p.collect(v)).(polling := true);
      Preservation.TopFacts(w.p, polled);
      Preservation.SameFrames(w.p, polled, m.At(0));
      Preservation.SameFrames(w.p, m.At(0), Counted(m));
    } else {
      Preservation.SameFrames(w.p, s, s.At(pc));
    }
  }

  ghost predicate MovedOk(p: Program, o: Outcome) {
    match o
    case Moved(t, _) => StateOk(p, t) && !t.polling
    case Leave(t, pc) => StateOk(p, t.At(pc))
    case _ => false
  }

  lemma JitCallStands(w: World, callees: Callees, cfg: Config)
    requires Live(w, cfg) && CalleesOk(w, callees) && cfg.state.pc < |w.p.bodies[cfg.at.body].chunk.code|
    requires SiteInstruction(w.p.bodies[cfg.at.body].chunk, cfg.state.pc).Some?
    ensures MovedOk(w.p, JitCall(w, callees, cfg.state, cfg.returnsTo, cfg.state.pc).outcome)
  {
    hide StateOk, EnterCall, JitCall, CalleesOk, ReadMember, Settled, OperandsOk, ReturnsOk, EntryIs, WorldOk, MovedOk;
    var s := cfg.state;
    Preservation.TopFacts(w.p, s);
    var chunk := ChunkOf(w.p, s);
    SiteFacts(w.p, s, s.pc);
    LiveFacts(w, cfg);
    AsItStands(s);
    var i := chunk.code[s.pc];
    if i.op.CallMember? {
      JitCallMember(w, callees, s, cfg.returnsTo, i);
      match w.p.member(s.heap, s.Top().closure.body, i.c, s.R(i.b)) {
        case None => RefusedOk(w.p, s);
        case Some(hit) =>
          var read, paired := ReadMember(s, i, hit), chunk.code[s.pc + 1];
          ReadStays(s, i, hit);
          StillHolds(s, read, paired.a);
          assert SiteInstruction(ChunkOf(w.p, read), s.pc) == Some(paired);
          Preservation.SameFrames(w.p, read, read.At(s.pc + 1));
          EnterCallStands(w, callees, read, cfg.returnsTo, s.pc, paired, read.At(s.pc + 1));
      }
    } else {
      assert i.op.Call?;
      JitCallPlain(w, callees, s, cfg.returnsTo, i);
      EnterCallStands(w, callees, s, cfg.returnsTo, s.pc, i, s);
    }
  }

  lemma AsItStands(s: State)
    requires !s.polling
    ensures s.At(s.pc) == s
  {
  }

  lemma RefusedOk(p: Program, s: State)
    requires StateOk(p, s) && !s.polling
    ensures MovedOk(p, Leave(s, s.pc))
  {
    AsItStands(s);
  }

  /** Wherever a stencil goes on, it stands there as compiled code stands, even
      where it has parted from the interpreter. */
  lemma AdvanceStands(w: World, callees: Callees, cfg: Config)
    requires Live(w, cfg) && CalleesOk(w, callees)
    ensures CalleesOk(w, Advance(w, callees, cfg).callees)
    ensures match Advance(w, callees, cfg)
            case Went(c, _) => Live(w, c)
            case Left(t, links, pc, _) => ReturnsOk(w, t.frames, links) && StateOk(w.p, t.At(pc))
  {
    hide Advance, StateOk, EntryIs, ReturnsOk, CalleesOk;
    AdvanceKeeps(w, callees, cfg);
    AdvanceOk(w, callees, cfg);
  }

  lemma AdvanceOk(w: World, callees: Callees, cfg: Config)
    requires Live(w, cfg) && CalleesOk(w, callees)
    ensures match Advance(w, callees, cfg)
            case Went(c, _) => StateOk(w.p, c.state) && !c.state.polling
            case Left(t, _, pc, _) => StateOk(w.p, t.At(pc))
  {
    hide Run, JitCall, JitReturn, StateOk, Settled, Laid, LaidOut, CalleesOk, EntryIs, ReturnsOk, WorldOk;
    var s := cfg.state;
    LiveFacts(w, cfg);
    Preservation.TopFacts(w.p, s);
    var chunk := ChunkOf(w.p, s);
    PcAtIs(w, cfg.at, s.pc);
    SettledBounds(chunk, s.pc);
    AsItStands(s);
    var choice := Settled(chunk, s.pc);
    if s.pc < |chunk.code| {
      if choice.stencil.Call? {
        CallSite(chunk, s.pc);
        JitCallStands(w, callees, cfg);
      } else if choice.stencil.Return? || choice.stencil.ReturnNil? {
        ReturnStands(w, callees, cfg, chunk.code[s.pc].a, choice.stencil.ReturnNil?);
      } else {
        WindowHeld(w.p, s);
        var h := HolesOf(chunk, s.pc);
        RunStays(w.p, s, choice.stencil, h);
        RunLeavesAtPc(w.p, s, choice.stencil, h);
        RunStandsOk(w.p, s, choice.stencil, h, choice.next);
        RunStandsOk(w.p, s, choice.stencil, h, choice.target);
        RunStandsOk(w.p, s, choice.stencil, h, s.pc);
      }
    }
  }

  lemma RunLeavesAtPc(p: Program, s: State, st: Stencil, h: Holes)
    requires InWindow(s, st, h) && StaysInFrame(st)
    ensures Run(p, s, st, h).Leave? ==> Run(p, s, st, h).pc == h.pc
  {
  }

  // ------------------------------------------------------------------
  // The slice's steps

  /** A jump not counted as a turn goes forward. */
  lemma ForwardTarget(chunk: Chunk, pc: nat)
    requires ChunkOk(chunk) && pc < |chunk.code|
    ensures var choice := Settled(chunk, pc);
            choice.stencil.Jump? || choice.stencil.JumpFalse? ||
            (choice.stencil.Order? && choice.stencil.fused) || (choice.stencil.Equality? && choice.stencil.fused) ==>
            choice.target > pc
    ensures Settled(chunk, pc).next > pc
  {
    assert OperandsOk(chunk, pc);
  }

  /** What a stencil that stays in its frame spends: a turn where it jumps back
      or round a loop, and nothing where it goes on. */
  lemma RunSpends(p: Program, s: State, st: Stencil, h: Holes)
    requires InWindow(s, st, h) && StaysInFrame(st)
    ensures match Run(p, s, st, h)
            case Continue(t) => t.steps == s.steps
            case Target(t) =>
              if st.JumpBack? || st.JumpFalseBack? || st.ForLoop? then !MustLeave(s) && t.steps == Counted(s).steps
              else
                t.steps == s.steps &&
                (st.Jump? || st.JumpFalse? || (st.Order? && st.fused) || (st.Equality? && st.fused))
            case Leave(t, _) => t.steps == s.steps
            case _ => false
  {
  }

  /** A call spends a turn where the code goes on in the body it entered. */
  lemma EnterCallSpends(w: World, callees: Callees, s: State, returnsTo: seq<Option<Address>>,
                        pc: nat, i: Instruction, resume: nat)
    requires WorldOk(w) && CalleesOk(w, callees) && StateOk(w.p, s) && |returnsTo| == |s.frames|
    requires s.Top().closure.body in w.codes && pc < |ChunkOf(w.p, s).code|
    requires i.op.Call? && i.a < ChunkOf(w.p, s).registers && s.Holds(i.a)
    requires SiteInstruction(ChunkOf(w.p, s), pc) == Some(i)
    ensures Spends(s, EnterCall(w, callees, s, returnsTo, pc, i, resume).outcome)
  {
    hide EnterBody, EnterCall, StateOk, WorldOk, CalleesOk, HasRoom, ClearScratch, MoveDown, CloseFrom, Interpreter.PlainCall;
    Preservation.TopFacts(w.p, s);
    EnterCallIs(w, callees, s, returnsTo, pc, i, resume);
    var closure := Interpreter.CalledClosure(s.heap, s.R(i.a));
    if closure.Some? {
      var callee := w.p.bodies[closure.value.body];
      if Interpreter.PlainCall(i, callee) && HasRoom(w.p, s, i, callee) {
        EnterBodyFrom(w, callees, MovedInto(w.p, s, i, closure.value, resume),
                      Links(w, s, returnsTo, pc, i), (s.Top().closure.body, pc), closure.value.body);
      }
    }
  }

  predicate SameTraps(s: State, t: State) {
    t.pending == s.pending && t.hook == s.hook && t.collector == s.collector
  }

  predicate Spends(s: State, o: Outcome) {
    SameTraps(s, o.state) &&
    match o
    case Moved(t, _) => !MustLeave(s) && t.steps == Counted(s).steps
    case Leave(t, _) => t.steps == s.steps || (s.steps > 1 && t.steps == s.steps - 1)
    case _ => false
  }

  lemma JitCallSpends(w: World, callees: Callees, cfg: Config)
    requires Live(w, cfg) && CalleesOk(w, callees) && cfg.state.pc < |w.p.bodies[cfg.at.body].chunk.code|
    requires SiteInstruction(w.p.bodies[cfg.at.body].chunk, cfg.state.pc).Some?
    ensures Spends(cfg.state, JitCall(w, callees, cfg.state, cfg.returnsTo, cfg.state.pc).outcome)
  {
    hide StateOk, EnterCall, JitCall, CalleesOk, ReadMember, Settled, OperandsOk, ReturnsOk, EntryIs, WorldOk;
    var s := cfg.state;
    Preservation.TopFacts(w.p, s);
    var chunk := ChunkOf(w.p, s);
    SiteFacts(w.p, s, s.pc);
    LiveFacts(w, cfg);
    var i := chunk.code[s.pc];
    if i.op.CallMember? {
      JitCallMember(w, callees, s, cfg.returnsTo, i);
      match w.p.member(s.heap, s.Top().closure.body, i.c, s.R(i.b)) {
        case None =>
        case Some(hit) =>
          var read, paired := ReadMember(s, i, hit), chunk.code[s.pc + 1];
          ReadStays(s, i, hit);
          StillHolds(s, read, paired.a);
          ReadSpends(s, i, hit);
          assert SiteInstruction(ChunkOf(w.p, read), s.pc) == Some(paired);
          EnterCallSpends(w, callees, read, cfg.returnsTo, s.pc, paired, s.pc + 2);
      }
    } else {
      assert i.op.Call?;
      JitCallPlain(w, callees, s, cfg.returnsTo, i);
      EnterCallSpends(w, callees, s, cfg.returnsTo, s.pc, i, s.pc + 1);
    }
  }

  lemma ReadSpends(s: State, i: Instruction, hit: Hit)
    requires s.frames != [] && s.Holds(i.a) && s.Holds(i.b)
    ensures var t := ReadMember(s, i, hit); t.steps == s.steps && SameTraps(s, t)
  {
  }

  lemma ReturnSpends(w: World, callees: Callees, cfg: Config, a: Byte, nil: bool)
    requires Live(w, cfg) && CalleesOk(w, callees) && cfg.state.Holds(a)
    ensures var o := JitReturn(w, cfg.state, cfg.returnsTo, callees, cfg.state.pc, a, nil).outcome;
            && o.state.steps == cfg.state.steps && SameTraps(cfg.state, o.state)
            && (o.Moved? ==> |o.state.frames| < |cfg.state.frames| && !cfg.state.Traps())
            && (o.Moved? || o.Leave?)
  {
    hide CloseFrom, StateOk, LaidOut, WorldOk, ReturnsOk, EntryIs, CalleesOk, ClosureOk, FrameOk, LinkOk;
    LiveFacts(w, cfg);
    Preservation.TopFacts(w.p, cfg.state);
    if Interpreter.NothingToDrain(w.p, cfg.state) {
      LinkFacts(w.p, cfg.state);
    }
  }

  /** How far compiled code can still go: turns first, then frames, then code. */
  ghost predicate Nearer(w: World, from: Config, to: Config)
    requires WorldOk(w)
  {
    || to.state.steps < from.state.steps
    || (to.state.steps == from.state.steps &&
        (|to.state.frames| < |from.state.frames| ||
         (|to.state.frames| == |from.state.frames| && to.at.body == from.at.body && from.state.pc < to.state.pc)))
  }

  /** With a bound on the slice, a stencil never brings the count to zero -- which
      would read as no bound -- and every one brings leaving nearer. */
  lemma AdvanceSpends(w: World, callees: Callees, cfg: Config)
    requires Live(w, cfg) && CalleesOk(w, callees) && cfg.state.steps > 0
    ensures match Advance(w, callees, cfg)
            case Went(c, _) => c.state.steps > 0 && Nearer(w, cfg, c)
            case Left(t, _, _, _) => t.steps > 0
  {
    hide Run, JitCall, JitReturn, StateOk, Settled, Laid, LaidOut, CalleesOk, EntryIs, ReturnsOk, WorldOk;
    var s := cfg.state;
    LiveFacts(w, cfg);
    Preservation.TopFacts(w.p, s);
    var chunk := ChunkOf(w.p, s);
    PcAtIs(w, cfg.at, s.pc);
    SettledBounds(chunk, s.pc);
    var choice := Settled(chunk, s.pc);
    if s.pc < |chunk.code| {
      if choice.stencil.Call? {
        CallSite(chunk, s.pc);
        JitCallSpends(w, callees, cfg);
      } else if choice.stencil.Return? || choice.stencil.ReturnNil? {
        ReturnSpends(w, callees, cfg, chunk.code[s.pc].a, choice.stencil.ReturnNil?);
      } else {
        WindowHeld(w.p, s);
        RunStays(w.p, s, choice.stencil, HolesOf(chunk, s.pc));
        RunSpends(w.p, s, choice.stencil, HolesOf(chunk, s.pc));
        ForwardTarget(chunk, s.pc);
      }
    }
  }

  // ------------------------------------------------------------------
  // A run of compiled code

  /** What call sites remember may change under a machine's feet: other machines
      run the same chunks. `found(k)` is what the k-th stencil finds. */
  ghost predicate AllOk(w: World, found: nat -> Callees)
    requires WorldOk(w)
  {
    forall k :: CalleesOk(w, found(k))
  }

  /** `n` stencils, or as many as it takes to leave. */
  ghost function Running(w: World, found: nat -> Callees, k: nat, n: nat, cfg: Config): (end: Progress)
    requires Live(w, cfg) && AllOk(w, found)
    ensures match end
            case Went(c, _) => Live(w, c)
            case Left(t, links, _, _) => ReturnsOk(w, t.frames, links)
    decreases n
  {
    if n == 0 then Went(cfg, found(k))
    else
      AdvanceStands(w, found(k), cfg);
      match Advance(w, found(k), cfg)
      case Left(t, links, pc, after) => Left(t, links, pc, after)
      case Went(c, _) => Running(w, found, k + 1, n - 1, c)
  }

  /** Compiled code and the interpreter part at none of those stencils. */
  ghost predicate KeepsTogether(w: World, found: nat -> Callees, k: nat, n: nat, cfg: Config)
    requires Live(w, cfg) && AllOk(w, found)
    decreases n
  {
    n == 0 ||
    (!Parts(w, found(k), cfg) &&
     match Advance(w, found(k), cfg)
     case Left(_, _, _, _) => true
     case Went(c, _) =>
       AdvanceStands(w, found(k), cfg);
       KeepsTogether(w, found, k + 1, n - 1, c))
  }

  /** What a run of any length is, against the interpreter's turns from where it
      started: a state the interpreter reaches, and on leaving, what HandsOver
      allows there. */
  ghost predicate RunFollows(p: Program, s: State, end: Progress, m: nat, u: State, n: nat)
    requires StateOk(p, s)
  {
    && Turns(p, s, m) == Some(u)
    && match end
       case Went(c, _) => u == c.state
       case Left(t, _, pc, _) => HandsOver(p, u, t, pc, n)
  }

  /** However long compiled code runs, and whatever other machines remember at
      the sites they share, what it does is what the interpreter would have
      done, and leaving hands the interpreter a state it would have reached. */
  lemma {:induction false} RunRefines(w: World, found: nat -> Callees, k: nat, n: nat, cfg: Config)
    returns (m: nat, u: State, last: nat)
    requires Live(w, cfg) && AllOk(w, found) && KeepsTogether(w, found, k, n, cfg)
    ensures RunFollows(w.p, cfg.state, Running(w, found, k, n, cfg), m, u, last)
    decreases n
  {
    hide StateOk, Advance, Turns, HandsOver, CalleesOk, WorldOk, ReturnsOk, EntryIs, Parts;
    if n == 0 {
      m, u, last := 0, cfg.state, 0;
      NoTurn(w.p, cfg.state);
    } else {
      last := AdvanceRefines(w, found(k), cfg);
      AdvanceStands(w, found(k), cfg);
      match Advance(w, found(k), cfg) {
        case Left(t, _, pc, _) =>
          m, u := 0, cfg.state;
          NoTurn(w.p, cfg.state);
        case Went(c, _) =>
          var first := last;
          m, u, last := RunRefines(w, found, k + 1, n - 1, c);
          TurnsAdd(w.p, cfg.state, first, m);
          m := first + m;
      }
    }
  }

  /** A slice with a bound always gets back to the interpreter, with turns left:
      whatever the code, and whatever other machines remember. */
  lemma {:induction false} RunLeaves(w: World, found: nat -> Callees, k: nat, cfg: Config) returns (n: nat)
    requires Live(w, cfg) && AllOk(w, found) && cfg.state.steps > 0
    ensures Running(w, found, k, n, cfg).Left? && Running(w, found, k, n, cfg).state.steps > 0
    decreases cfg.state.steps, |cfg.state.frames|, |w.p.bodies[cfg.at.body].chunk.code| - cfg.state.pc
  {
    hide Advance, StateOk, CalleesOk, ReturnsOk, WorldOk, Laid, Start;
    AdvanceSpends(w, found(k), cfg);
    AdvanceStands(w, found(k), cfg);
    match Advance(w, found(k), cfg) {
      case Left(_, _, _, _) =>
        n := 1;
      case Went(c, _) =>
        n := RunLeaves(w, found, k + 1, c);
        n := n + 1;
    }
  }

  /** Where lhat_jit_run comes in, compiled code stands. */
  lemma EntersLive(w: World, s: State, returnsTo: seq<Option<Address>>)
    requires WorldOk(w) && StateOk(w.p, s) && !s.polling && ReturnsOk(w, s.frames, returnsTo)
    requires EnterAt(w, s, s.Top().closure.body, s.pc).Some?
    ensures Live(w, Config(s, returnsTo, EnterAt(w, s, s.Top().closure.body, s.pc).value))
  {
    EnterAtIs(w, s, s.Top().closure.body, s.pc);
  }

  /** lhat_jit_run with a bound on the slice: entered where the interpreter
      stands, compiled code leaves after some `n` stencils, and hands back what
      the interpreter would have come to. */
  lemma JitRunRefines(w: World, found: nat -> Callees, s: State, returnsTo: seq<Option<Address>>)
    returns (n: nat, m: nat, u: State, last: nat)
    requires WorldOk(w) && AllOk(w, found)
    requires StateOk(w.p, s) && !s.polling && s.steps > 0 && ReturnsOk(w, s.frames, returnsTo)
    requires EnterAt(w, s, s.Top().closure.body, s.pc).Some?
    requires var cfg := Config(s, returnsTo, EnterAt(w, s, s.Top().closure.body, s.pc).value);
             Live(w, cfg) ==> forall j: nat :: KeepsTogether(w, found, 0, j, cfg)
    ensures var cfg := Config(s, returnsTo, EnterAt(w, s, s.Top().closure.body, s.pc).value);
            && Live(w, cfg)
            && var end := Running(w, found, 0, n, cfg);
               && end.Left? && end.state.steps > 0
               && RunFollows(w.p, s, end, m, u, last)
  {
    hide Live, StateOk, ReturnsOk, EnterAt, WorldOk, RunFollows, Running, KeepsTogether;
    Preservation.TopFacts(w.p, s);
    var cfg := Config(s, returnsTo, EnterAt(w, s, s.Top().closure.body, s.pc).value);
    EntersLive(w, s, returnsTo);
    n := RunLeaves(w, found, 0, cfg);
    m, u, last := RunRefines(w, found, 0, n, cfg);
  }
}
