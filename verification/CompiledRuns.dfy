/** Whole runs of compiled code: where the processor may be, what every stencil
    keeps, and what leaving amounts to however long the run was (jit/jit.c,
    lhat_jit_run). */
module CompiledRuns {
  import opened Wrappers
  import opened Bytecode
  import opened Machine
  import Interpreter
  import Preservation
  import opened Stencils
  import opened Choosing
  import opened HoleWriting
  import opened Layout
  import opened Calls
  import opened Refinement
  import opened CallRefinement

  // ------------------------------------------------------------------
  // Where the processor is

  /** The address is where the code of pc begins, in that body's memory. */
  ghost predicate EntryIs(w: World, at: Address, pc: nat)
    requires WorldOk(w)
  {
    && at.body in w.codes
    && pc <= |w.p.bodies[at.body].chunk.code|
    && Laid(w.p.bodies[at.body].chunk, pc)
    && at.offset == Start(w.table, w.p.bodies[at.body].chunk, pc)
  }

  /** Which instruction's code that is: an address names one. */
  ghost function PcAt(w: World, at: Address): (pc: nat)
    requires WorldOk(w) && exists q :: EntryIs(w, at, q)
    ensures EntryIs(w, at, pc)
  {
    var q :| EntryIs(w, at, q); q
  }

  lemma PcAtIs(w: World, at: Address, pc: nat)
    requires WorldOk(w) && EntryIs(w, at, pc)
    ensures PcAt(w, at) == pc
  {
    EntryNamesOne(w.table, w.p.bodies[at.body].chunk, pc, PcAt(w, at));
  }

  // ------------------------------------------------------------------
  // The return discipline

  /** A jit_return names the code its caller goes on in: of the caller's own
      chunk, at the caller's saved pc. */
  ghost predicate ReturnOk(w: World, caller: Frame, to: Address)
    requires WorldOk(w)
  {
    && to.body == caller.closure.body
    && EntryIs(w, to, caller.pc)
    && Enterable(w.p.bodies[to.body].chunk, caller.pc)
  }

  ghost predicate ReturnsOk(w: World, frames: seq<Frame>, returnsTo: seq<Option<Address>>)
    requires WorldOk(w)
  {
    && |returnsTo| == |frames|
    && forall k | 0 < k < |frames| ::
         returnsTo[k].Some? ==> ReturnOk(w, frames[k - 1], returnsTo[k].value)
  }

  /** What holds wherever compiled code stands. The state's own pc is the
      instruction the interpreter would be at; the processor follows `at`. */
  ghost predicate Live(w: World, cfg: Config) {
    && WorldOk(w)
    && StateOk(w.p, cfg.state) && !cfg.state.polling
    && ReturnsOk(w, cfg.state.frames, cfg.returnsTo)
    && cfg.at.body == cfg.state.Top().closure.body
    && EntryIs(w, cfg.at, cfg.state.pc)
  }

  // ------------------------------------------------------------------
  // One stencil

  datatype Progress =
    | Went(cfg: Config, callees: Callees)
    | Left(state: State, returnsTo: seq<Option<Address>>, pc: nat, callees: Callees)

  /** The address of a laid instruction of the chunk `at` is in. */
  ghost function AddressOf(w: World, body: nat, pc: nat): Address
    requires WorldOk(w) && body in w.codes && pc <= |w.p.bodies[body].chunk.code|
  {
    Address(body, Start(w.table, w.p.bodies[body].chunk, pc))
  }

  ghost function Follow(w: World, callees: Callees, cfg: Config, choice: Choice, o: Outcome,
                        returnsTo: seq<Option<Address>>): Progress
    requires WorldOk(w) && cfg.at.body in w.codes
    requires choice.next <= |w.p.bodies[cfg.at.body].chunk.code|
    requires 0 <= choice.target <= |w.p.bodies[cfg.at.body].chunk.code|
  {
    match o
    case Continue(t) => Went(Config(t.At(choice.next), returnsTo, AddressOf(w, cfg.at.body, choice.next)), callees)
    case Target(t) => Went(Config(t.At(choice.target), returnsTo, AddressOf(w, cfg.at.body, choice.target)), callees)
    case Moved(t, to) => Went(Config(t, returnsTo, to), callees)
    case Leave(t, pc) => Left(t, returnsTo, pc, callees)
  }

  /** The stencil the processor is at, run. */
  ghost function Advance(w: World, callees: Callees, cfg: Config): Progress
    requires Live(w, cfg) && CalleesOk(w, callees)
  {
    PcAtIs(w, cfg.at, cfg.state.pc);
    var pc := PcAt(w, cfg.at);
    var chunk := w.p.bodies[cfg.at.body].chunk;
    var s := cfg.state;
    var choice := Settled(chunk, pc);
    SettledBounds(chunk, pc);
    if pc == |chunk.code| then Left(s, cfg.returnsTo, pc, callees)
    else if choice.stencil.Call? then
      CallSite(chunk, pc);
      var m := JitCall(w, callees, s, cfg.returnsTo, pc);
      Follow(w, m.callees, cfg, choice, m.outcome, m.returnsTo)
    else if choice.stencil.Return? || choice.stencil.ReturnNil? then
      Preservation.TopFacts(w.p, s);
      var m := JitReturn(w, s, cfg.returnsTo, callees, pc, chunk.code[pc].a, choice.stencil.ReturnNil?);
      Follow(w, m.callees, cfg, choice, m.outcome, m.returnsTo)
    else
      WindowHeld(w.p, s);
      Follow(w, callees, cfg, choice, Run(w.p, s, choice.stencil, HolesOf(chunk, pc)), cfg.returnsTo)
  }

  /** The call stencil stands for a call site; the return stencils for returns. */
  lemma CallSite(chunk: Chunk, pc: nat)
    requires ChunkOk(chunk) && pc < |chunk.code| && Settled(chunk, pc).stencil.Call?
    ensures SiteInstruction(chunk, pc).Some?
    ensures Settled(chunk, pc).next == if chunk.code[pc].op.CallMember? then pc + 2 else pc + 1
  {
    assert OperandsOk(chunk, pc);
  }

  lemma ReturnSite(chunk: Chunk, pc: nat)
    requires ChunkOk(chunk) && pc < |chunk.code|
    requires Settled(chunk, pc).stencil.Return? || Settled(chunk, pc).stencil.ReturnNil?
    ensures IsReturn(chunk.code[pc])
    ensures Settled(chunk, pc).stencil.ReturnNil? <==> chunk.code[pc].op.ReturnNil?
  {
    assert OperandsOk(chunk, pc);
  }

  /** The one stencil whose answer the interpreter would lay out otherwise: a
      RETURN of a register holding the head of a run. The compiler names such a
      register in no RETURN of one value. */
  ghost predicate HandsBackRun(w: World, cfg: Config)
    requires Live(w, cfg)
  {
    var chunk := w.p.bodies[cfg.at.body].chunk;
    var pc := cfg.state.pc;
    Preservation.TopFacts(w.p, cfg.state);
    pc < |chunk.code| && Settled(chunk, pc).stencil.Return? && AnswersRun(w.p, cfg.state, chunk.code[pc].a, false)
  }

  /** Going on is where the interpreter would be; leaving is what it can go on
      from. */
  ghost predicate Follows(p: Program, s: State, to: Progress, n: nat)
    requires StateOk(p, s)
  {
    match to
    case Went(cfg, _) => n > 0 && Turns(p, s, n) == Some(cfg.state) && !cfg.state.polling
    case Left(t, _, pc, _) => HandsOver(p, s, t, pc, n)
  }

  lemma FollowRefines(w: World, callees: Callees, cfg: Config, choice: Choice, o: Outcome, n: nat)
    requires Live(w, cfg) && cfg.at.body in w.codes
    requires choice.next <= |w.p.bodies[cfg.at.body].chunk.code|
    requires 0 <= choice.target <= |w.p.bodies[cfg.at.body].chunk.code|
    requires Refines(w.p, cfg.state, choice, o, n)
    ensures Follows(w.p, cfg.state, Follow(w, callees, cfg, choice, o, cfg.returnsTo), if o.Leave? then 0 else n)
  {
    if o.Leave? {
      assert cfg.state.At(cfg.state.pc) == cfg.state;
    }
  }

  lemma FollowMoves(w: World, callees: Callees, cfg: Config, choice: Choice, o: Outcome,
                    returnsTo: seq<Option<Address>>, n: nat)
    requires Live(w, cfg) && cfg.at.body in w.codes
    requires choice.next <= |w.p.bodies[cfg.at.body].chunk.code|
    requires 0 <= choice.target <= |w.p.bodies[cfg.at.body].chunk.code|
    requires HandsOn(w.p, cfg.state, o, n)
    ensures Follows(w.p, cfg.state, Follow(w, callees, cfg, choice, o, returnsTo), n)
  {
  }

  /** Left as it was found, but for a step the collector may have taken. */
  ghost predicate LeavesWhole(p: Program, s: State, end: Progress)
    requires StateOk(p, s)
  {
    end.Left? && (end.state.At(end.pc) == s.At(s.pc) || HeldBack(p, s, end.state, end.pc))
  }

  /** The stencil runs an instruction where the interpreter would have seen to what
      the traps word stands for first: the word is not asked between one
      instruction and the next, only where a stencil polls. */
  ghost predicate PassesTrap(w: World, callees: Callees, cfg: Config)
    requires Live(w, cfg) && CalleesOk(w, callees)
  {
    && cfg.state.pc < |w.p.bodies[cfg.at.body].chunk.code| && cfg.state.Interrupted()
    && !LeavesWhole(w.p, cfg.state, Advance(w, callees, cfg))
  }

  /** Left so, or with the member read that it would have called. */
  ghost predicate StaysPut(p: Program, s: State, end: Progress)
    requires StateOk(p, s)
  {
    LeavesWhole(p, s, end) || (end.Left? && Reread(p, s, end.state, end.pc, 1))
  }

  /** The stencil makes a call before which the interpreter would have given the
      collector a step: compiled code, which allocates nothing there, does not
      poll it. */
  ghost predicate SkipsStep(w: World, callees: Callees, cfg: Config)
    requires Live(w, cfg) && CalleesOk(w, callees)
  {
    var chunk := w.p.bodies[cfg.at.body].chunk;
    var s := cfg.state;
    && s.pc < |chunk.code| && Settled(chunk, s.pc).stencil.Call? && !s.Interrupted()
    && !StaysPut(w.p, s, Advance(w, callees, cfg))
    && (SiteHolds(w, cfg);
        var v := CallState(w.p, s);
        w.p.collect(v).collector != v.collector)
  }

  lemma SiteHolds(w: World, cfg: Config)
    requires Live(w, cfg) && cfg.state.pc < |w.p.bodies[cfg.at.body].chunk.code|
    requires Settled(w.p.bodies[cfg.at.body].chunk, cfg.state.pc).stencil.Call?
    ensures var s := cfg.state;
            && ChunkOf(w.p, s) == w.p.bodies[cfg.at.body].chunk
            && SiteInstruction(ChunkOf(w.p, s), s.pc).Some?
            && var i := ChunkOf(w.p, s).code[s.pc];
               i.op.CallMember? ==> s.Holds(i.a) && s.Holds(i.b)
  {
    hide Settled, OperandsOk, ReturnsOk, EntryIs, WorldOk;
    var s := cfg.state;
    Preservation.TopFacts(w.p, s);
    CallSite(ChunkOf(w.p, s), s.pc);
    SiteFacts(w.p, s, s.pc);
  }

  /** Where compiled code and the interpreter part. */
  ghost predicate Parts(w: World, callees: Callees, cfg: Config)
    requires Live(w, cfg) && CalleesOk(w, callees)
  {
    PassesTrap(w, callees, cfg) || SkipsStep(w, callees, cfg) || HandsBackRun(w, cfg)
  }

  /** Every stencil, from every place the processor may be and the two do not
      part: what it does is what the interpreter's next turns do. */
  lemma AdvanceRefines(w: World, callees: Callees, cfg: Config) returns (n: nat)
    requires Live(w, cfg) && CalleesOk(w, callees) && !Parts(w, callees, cfg)
    ensures Follows(w.p, cfg.state, Advance(w, callees, cfg), n)
  {
    hide Run, JitCall, JitReturn, Follow, Follows, StateOk, Settled, Laid, LaidOut, Turns, HandsOn, Refines, CalleesOk,
         Advance, LeavesWhole;
    Preservation.TopFacts(w.p, cfg.state);
    LiveFacts(w, cfg);
    n := 0;
    if cfg.state.pc == |w.p.bodies[cfg.at.body].chunk.code| {
      EndLeaves(w, callees, cfg);
    } else if cfg.state.Interrupted() {
      WholeFollows(w.p, cfg.state, Advance(w, callees, cfg));
    } else {
      n := StandingRefines(w, callees, cfg);
    }
  }

  lemma WholeFollows(p: Program, s: State, end: Progress)
    requires StateOk(p, s) && !s.polling && LeavesWhole(p, s, end)
    ensures Follows(p, s, end, 0)
  {
    assert s.At(s.pc) == s;
  }

  lemma StandingRefines(w: World, callees: Callees, cfg: Config) returns (n: nat)
    requires Live(w, cfg) && CalleesOk(w, callees) && !HandsBackRun(w, cfg)
    requires cfg.state.pc < |w.p.bodies[cfg.at.body].chunk.code| && !cfg.state.Interrupted()
    requires !SkipsStep(w, callees, cfg)
    ensures Follows(w.p, cfg.state, Advance(w, callees, cfg), n)
  {
    hide Run, JitCall, JitReturn, Follow, Follows, StateOk, Settled, Laid, LaidOut, Turns, HandsOn, Refines, CalleesOk;
    var s, chunk := cfg.state, w.p.bodies[cfg.at.body].chunk;
    Preservation.TopFacts(w.p, s);
    PcAtIs(w, cfg.at, s.pc);
    SettledBounds(chunk, s.pc);
    var choice := Settled(chunk, s.pc);
    if choice.stencil.Call? {
      n := CallFollows(w, callees, cfg);
    } else if choice.stencil.Return? || choice.stencil.ReturnNil? {
      ReturnSite(chunk, s.pc);
      n := ReturnRefines(w, s, cfg.returnsTo, callees, chunk.code[s.pc]);
      var m := JitReturn(w, s, cfg.returnsTo, callees, s.pc, chunk.code[s.pc].a, choice.stencil.ReturnNil?);
      FollowMoves(w, m.callees, cfg, choice, m.outcome, m.returnsTo, n);
    } else {
      n := StencilRefines(w.p, s);
      var o := Run(w.p, s, choice.stencil, HolesOf(chunk, s.pc));
      FollowRefines(w, callees, cfg, choice, o, n);
      n := if o.Leave? then 0 else n;
    }
  }

  lemma CallFollows(w: World, callees: Callees, cfg: Config) returns (n: nat)
    requires Live(w, cfg) && CalleesOk(w, callees) && !SkipsStep(w, callees, cfg)
    requires cfg.state.pc < |w.p.bodies[cfg.at.body].chunk.code| && !cfg.state.Interrupted()
    requires Settled(w.p.bodies[cfg.at.body].chunk, cfg.state.pc).stencil.Call?
    ensures Follows(w.p, cfg.state, Advance(w, callees, cfg), n)
  {
    hide JitCall, Follow, Follows, StateOk, Settled, Turns, HandsOn, CalleesOk, Advance, StaysPut, Interpreter.Step,
         EntryIs, ReturnsOk, WorldOk, Reread;
    var s := cfg.state;
    Preservation.TopFacts(w.p, s);
    SiteHolds(w, cfg);
    LiveFacts(w, cfg);
    var end := Advance(w, callees, cfg);
    if StaysPut(w.p, s, end) {
      n := PutFollows(w.p, s, end);
    } else {
      var moved;
      n, moved := JitCallRefines(w, callees, s, cfg.returnsTo);
      AdvanceCalls(w, callees, cfg);
      var m := JitCall(w, callees, s, cfg.returnsTo, s.pc);
      var choice := Settled(ChunkOf(w.p, s), s.pc);
      SettledBounds(ChunkOf(w.p, s), s.pc);
      CallHandsOn(w.p, s, m.outcome, CallState(w.p, s), moved, n);
      FollowMoves(w, m.callees, cfg, choice, m.outcome, m.returnsTo, n);
    }
  }

  /** Made with no step of the collector to make, or refused. */
  lemma CallHandsOn(p: Program, s: State, o: Outcome, v: State, moved: Option<State>, n: nat)
    requires StateOk(p, s) && !s.polling && CallMade(p, s, o, v, moved, n)
    requires moved.Some? ==> p.collect(v).collector == v.collector
    ensures HandsOn(p, s, o, n)
  {
    hide StateOk, Turns, Interpreter.Step;
    PollIsOk(p, s, v);
    NoTurn(p, s);
    assert s.At(s.pc) == s;
    assert moved.Some? ==> AsPolled(o, p.collect(v)) == o;
  }

  lemma PollIsOk(p: Program, s: State, v: State)
    requires StateOk(p, s)
    ensures PollOk(v, p.collect(v))
  {
  }

  lemma PutFollows(p: Program, s: State, end: Progress) returns (n: nat)
    requires StateOk(p, s) && !s.polling && StaysPut(p, s, end)
    ensures Follows(p, s, end, n)
  {
    if LeavesWhole(p, s, end) {
      n := 0;
      WholeFollows(p, s, end);
    } else {
      n := 1;
    }
  }

  lemma AdvanceCalls(w: World, callees: Callees, cfg: Config)
    requires Live(w, cfg) && CalleesOk(w, callees)
    requires cfg.state.pc < |w.p.bodies[cfg.at.body].chunk.code|
    requires Settled(w.p.bodies[cfg.at.body].chunk, cfg.state.pc).stencil.Call?
    ensures var s := cfg.state;
            && cfg.at.body in w.codes && SiteInstruction(ChunkOf(w.p, s), s.pc).Some?
            && ChunkOf(w.p, s) == w.p.bodies[cfg.at.body].chunk
            && Settled(ChunkOf(w.p, s), s.pc).next <= |ChunkOf(w.p, s).code|
            && 0 <= Settled(ChunkOf(w.p, s), s.pc).target <= |ChunkOf(w.p, s).code|
            && var m := JitCall(w, callees, s, cfg.returnsTo, s.pc);
               Advance(w, callees, cfg) == Follow(w, m.callees, cfg, Settled(ChunkOf(w.p, s), s.pc), m.outcome, m.returnsTo)
  {
    hide JitCall, JitReturn, Follow, StateOk, Settled, CalleesOk, Run, ReturnsOk, EntryIs, WorldOk;
    var s := cfg.state;
    Preservation.TopFacts(w.p, s);
    SiteHolds(w, cfg);
    LiveFacts(w, cfg);
    PcAtIs(w, cfg.at, s.pc);
    SettledBounds(ChunkOf(w.p, s), s.pc);
  }

  lemma EndLeaves(w: World, callees: Callees, cfg: Config)
    requires Live(w, cfg) && CalleesOk(w, callees)
    requires cfg.state.pc == |w.p.bodies[cfg.at.body].chunk.code|
    ensures Follows(w.p, cfg.state, Advance(w, callees, cfg), 0)
  {
    PcAtIs(w, cfg.at, cfg.state.pc);
    assert cfg.state.At(cfg.state.pc) == cfg.state;
  }

  // ------------------------------------------------------------------
  // What every stencil keeps

  ghost predicate Keeps(w: World, to: Progress)
    requires WorldOk(w)
  {
    CalleesOk(w, to.callees) &&
    match to
    case Went(cfg, _) =>
      && ReturnsOk(w, cfg.state.frames, cfg.returnsTo) && cfg.state.frames != []
      && cfg.at.body == cfg.state.Top().closure.body
      && EntryIs(w, cfg.at, cfg.state.pc)
    case Left(t, returnsTo, _, _) => ReturnsOk(w, t.frames, returnsTo)
  }

  lemma RunStays(p: Program, s: State, st: Stencil, h: Holes)
    requires InWindow(s, st, h) && StaysInFrame(st)
    ensures var o := Run(p, s, st, h); !o.Moved? && o.state.frames == s.frames
  {
  }

  lemma FollowKeeps(w: World, callees: Callees, cfg: Config, pc: nat, o: Outcome)
    requires Live(w, cfg) && CalleesOk(w, callees) && pc < |w.p.bodies[cfg.at.body].chunk.code|
    requires Laid(w.p.bodies[cfg.at.body].chunk, pc)
    requires !o.Moved? && o.state.frames == cfg.state.frames
    ensures var choice := Settled(w.p.bodies[cfg.at.body].chunk, pc);
            && choice.next <= |w.p.bodies[cfg.at.body].chunk.code|
            && 0 <= choice.target <= |w.p.bodies[cfg.at.body].chunk.code|
            && Keeps(w, Follow(w, callees, cfg, choice, o, cfg.returnsTo))
  {
    hide Settled, Laid, Start, LaidOut, StateOk;
    Preservation.TopFacts(w.p, cfg.state);
    LayoutClosure(w.p.bodies[cfg.at.body].chunk, pc);
  }

  /** What moving between frames keeps, whether it goes through or refuses. */
  ghost predicate MovesWell(w: World, m: Moving)
    requires WorldOk(w)
  {
    && CalleesOk(w, m.callees)
    && (m.outcome.Leave? || m.outcome.Moved?)
    && ReturnsOk(w, m.outcome.state.frames, m.returnsTo)
    && m.outcome.state.frames != []
    && (m.outcome.Moved? ==>
          m.outcome.to.body == m.outcome.state.Top().closure.body &&
          EntryIs(w, m.outcome.to, m.outcome.state.pc))
  }

  /** enter_at's address is where that instruction's code begins. */
  lemma EnterAtIs(w: World, s: State, body: nat, pc: nat)
    requires WorldOk(w) && EnterAt(w, s, body, pc).Some?
    ensures var to := EnterAt(w, s, body, pc).value;
            && to.body == body && EntryIs(w, to, pc)
            && pc < |w.p.bodies[body].chunk.code| && Enterable(w.p.bodies[body].chunk, pc)
  {
    assert LaidOut(w.table, w.helpers, w.p.bodies[body].chunk, w.codes[body]);
  }

  lemma FirstEntryIs(w: World, body: nat)
    requires WorldOk(w) && body in w.codes
    ensures |w.codes[body].entries| > 0
    ensures EntryIs(w, Address(body, w.codes[body].entries[0]), 0)
  {
    assert LaidOut(w.table, w.helpers, w.p.bodies[body].chunk, w.codes[body]);
  }

  /** The jit_return of a frame compiled code pushes: its caller's next code. */
  lemma ResumeIs(w: World, body: nat, pc: nat, caller: Frame)
    requires WorldOk(w) && body in w.codes && pc < |w.p.bodies[body].chunk.code|
    requires Settled(w.p.bodies[body].chunk, pc).stencil.Call?
    requires caller.closure.body == body && caller.pc == Settled(w.p.bodies[body].chunk, pc).next
    requires ResumeAddress(w, body, pc).Some?
    ensures ReturnOk(w, caller, ResumeAddress(w, body, pc).value)
  {
    hide Settled, Start;
    assert LaidOut(w.table, w.helpers, w.p.bodies[body].chunk, w.codes[body]);
    SettledBounds(w.p.bodies[body].chunk, pc);
  }

  /** A body entered: its address, and the site's guess kept honest. */
  lemma EnterBodyKeeps(w: World, callees: Callees, moved: State, links: seq<Option<Address>>,
                       site: (nat, nat), callee: nat)
    requires WorldOk(w) && CalleesOk(w, callees) && callee < |w.p.bodies|
    requires site.0 < |w.p.bodies| && SiteInstruction(w.p.bodies[site.0].chunk, site.1).Some?
    requires Interpreter.PlainCall(SiteInstruction(w.p.bodies[site.0].chunk, site.1).value, w.p.bodies[callee])
    ensures var m := EnterBody(w, callees, moved, links, site, callee);
            && CalleesOk(w, m.callees) && m.returnsTo == links
            && m.outcome.state.frames == moved.frames && m.outcome.state.pc == moved.pc
            && (m.outcome.Moved? ==> m.outcome.to.body == callee && EntryIs(w, m.outcome.to, 0))
            && (m.outcome.Moved? || m.outcome.Leave?)
  {
    hide Start, LaidOut;
    if !MustLeave(moved) {
      if site in callees && callees[site] == callee {
        KnownHasCode(w, callees, site);
        FirstEntryIs(w, callee);
      } else if EnterAt(w, Counted(moved), callee, 0).Some? {
        EnterAtIs(w, Counted(moved), callee, 0);
        assert CalleeOk(w, site, callee);
      }
    }
  }

  /** Frame k's jit_return asks only about the frame below it. */
  lemma TakeOverReturns(w: World, frames: seq<Frame>, returnsTo: seq<Option<Address>>, over: Frame)
    requires WorldOk(w) && ReturnsOk(w, frames, returnsTo) && frames != []
    ensures ReturnsOk(w, frames[|frames| - 1 := over], returnsTo)
  {
    hide ReturnOk, WorldOk;
    var after := frames[|frames| - 1 := over];
    forall k | 0 < k < |frames| && returnsTo[k].Some? ensures ReturnOk(w, after[k - 1], returnsTo[k].value) {
      assert after[k - 1] == frames[k - 1];
    }
  }

  lemma PushReturns(w: World, frames: seq<Frame>, returnsTo: seq<Option<Address>>, caller: Frame, pushed: Frame,
                    to: Option<Address>)
    requires WorldOk(w) && ReturnsOk(w, frames, returnsTo) && frames != []
    requires to.Some? ==> ReturnOk(w, caller, to.value)
    ensures ReturnsOk(w, frames[|frames| - 1 := caller] + [pushed], returnsTo + [to])
  {
    hide ReturnOk, WorldOk;
    var after := frames[|frames| - 1 := caller] + [pushed];
    var links := returnsTo + [to];
    forall k | 0 < k < |after| && links[k].Some? ensures ReturnOk(w, after[k - 1], links[k].value) {
      if k < |frames| {
        assert after[k - 1] == frames[k - 1];
      }
    }
  }

  lemma PopReturns(w: World, frames: seq<Frame>, returnsTo: seq<Option<Address>>)
    requires WorldOk(w) && ReturnsOk(w, frames, returnsTo) && frames != []
    ensures ReturnsOk(w, frames[..|frames| - 1], returnsTo[..|frames| - 1])
  {
    hide ReturnOk, WorldOk;
  }

  lemma CallKeeps(w: World, callees: Callees, cfg: Config, pc: nat, s: State, i: Instruction, resume: nat)
    requires Live(w, cfg) && CalleesOk(w, callees) && pc < |w.p.bodies[cfg.at.body].chunk.code|
    requires StateOk(w.p, s) && s.frames == cfg.state.frames
    requires SiteInstruction(ChunkOf(w.p, s), pc) == Some(i) && i.a < ChunkOf(w.p, s).registers && s.Holds(i.a)
    requires Settled(ChunkOf(w.p, s), pc).stencil.Call? && Settled(ChunkOf(w.p, s), pc).next == resume
    ensures MovesWell(w, EnterCall(w, callees, s, cfg.returnsTo, pc, i, resume))
  {
    hide EnterBody, MovedInto, Settled, Start, Laid, LaidOut, StateOk, ResumeAddress, CalleesOk, HasRoom, EnterCall, Interpreter.PlainCall;
    Preservation.TopFacts(w.p, s);
    EnterCallIs(w, callees, s, cfg.returnsTo, pc, i, resume);
    var closure := Interpreter.CalledClosure(s.heap, s.R(i.a));
    if closure.Some? {
      var callee := w.p.bodies[closure.value.body];
      if Interpreter.PlainCall(i, callee) && HasRoom(w.p, s, i, callee) {
        var moved := MovedInto(w.p, s, i, closure.value, resume);
        var links := Links(w, s, cfg.returnsTo, pc, i);
        EnterBodyKeeps(w, callees, moved, links, (cfg.at.body, pc), closure.value.body);
        MovedFrames(w, s, i, closure.value, resume, cfg.returnsTo, pc);
      }
    }
  }

  lemma MovedFrames(w: World, s: State, i: Instruction, closure: Closure, resume: nat,
                    returnsTo: seq<Option<Address>>, pc: nat)
    requires WorldOk(w) && ReturnsOk(w, s.frames, returnsTo) && s.frames != [] && i.op.Call?
    requires s.Top().closure.body < |w.p.bodies| && s.Top().closure.body in w.codes
    requires pc < |w.p.bodies[s.Top().closure.body].chunk.code|
    requires Settled(w.p.bodies[s.Top().closure.body].chunk, pc).stencil.Call?
    requires Settled(w.p.bodies[s.Top().closure.body].chunk, pc).next == resume
    requires closure.body < |w.p.bodies| && HasRoom(w.p, s, i, w.p.bodies[closure.body])
    ensures var moved := MovedInto(w.p, s, i, closure, resume);
            && ReturnsOk(w, moved.frames, Links(w, s, returnsTo, pc, i))
            && moved.frames != [] && moved.Top().closure == closure && moved.pc == 0
  {
    hide Settled, Start, Laid, LaidOut, ClearScratch, MoveDown, CloseFrom, EntryIs, ReturnOk, ResumeAddress;
    var callee := w.p.bodies[closure.body];
    var nextBase := NextBase(s, i, callee);
    if Reuses(w.p, s, i) {
      TakeOverReturns(w, s.frames, returnsTo, TakeOver(s, i, closure, callee, nextBase).Top());
    } else {
      var caller := s.Top().(pc := resume);
      var to := ResumeAddress(w, s.Top().closure.body, pc);
      if to.Some? {
        ResumeIs(w, s.Top().closure.body, pc, caller);
      }
      PushReturns(w, s.frames, returnsTo, caller, NewFrame(closure, nextBase, i.a, CallPrepared(i.c)), to);
    }
  }

  lemma ReturnKeepsReturns(w: World, callees: Callees, cfg: Config, a: Byte, nil: bool)
    requires Live(w, cfg) && CalleesOk(w, callees) && cfg.state.Holds(a)
    ensures MovesWell(w, JitReturn(w, cfg.state, cfg.returnsTo, callees, cfg.state.pc, a, nil))
  {
    hide CloseFrom, LaidOut, StateOk, EntryIs, EnterAt, Enterable;
    var s := cfg.state;
    Preservation.TopFacts(w.p, s);
    if Interpreter.NothingToDrain(w.p, s) {
      LinkFacts(w.p, s);
      PopReturns(w, s.frames, cfg.returnsTo);
      var last := |s.frames| - 1;
      var caller := s.frames[last - 1];
      var m := JitReturn(w, s, cfg.returnsTo, callees, s.pc, a, nil);
      if cfg.returnsTo[last].Some? {
        assert ReturnOk(w, s.frames[last - 1], cfg.returnsTo[last].value);
      } else if EnterAt(w, m.outcome.state, caller.closure.body, caller.pc).Some? {
        EnterAtIs(w, m.outcome.state, caller.closure.body, caller.pc);
      }
    }
  }

  lemma JitCallKeeps(w: World, callees: Callees, cfg: Config)
    requires Live(w, cfg) && CalleesOk(w, callees) && cfg.state.pc < |w.p.bodies[cfg.at.body].chunk.code|
    requires Settled(w.p.bodies[cfg.at.body].chunk, cfg.state.pc).stencil.Call?
    ensures SiteInstruction(w.p.bodies[cfg.at.body].chunk, cfg.state.pc).Some?
    ensures MovesWell(w, JitCall(w, callees, cfg.state, cfg.returnsTo, cfg.state.pc))
  {
    hide StateOk, EnterCall, JitCall, MovesWell, CalleesOk, Settled, OperandsOk, ReturnsOk, EntryIs, WorldOk;
    var s := cfg.state;
    Preservation.TopFacts(w.p, s);
    var chunk := ChunkOf(w.p, s);
    CallSite(chunk, s.pc);
    SiteFacts(w.p, s, s.pc);
    LiveFacts(w, cfg);
    var i := chunk.code[s.pc];
    assert i.op.CallMember? || i.op.Call?;
    if i.op.CallMember? {
      MemberCallKeeps(w, callees, cfg, i);
    } else {
      JitCallPlain(w, callees, s, cfg.returnsTo, i);
      CallKeeps(w, callees, cfg, s.pc, s, i, s.pc + 1);
    }
  }

  lemma MemberCallKeeps(w: World, callees: Callees, cfg: Config, i: Instruction)
    requires Live(w, cfg) && CalleesOk(w, callees) && cfg.state.pc < |w.p.bodies[cfg.at.body].chunk.code|
    requires i == w.p.bodies[cfg.at.body].chunk.code[cfg.state.pc] && i.op.CallMember?
    requires Settled(w.p.bodies[cfg.at.body].chunk, cfg.state.pc).stencil.Call?
    requires SiteInstruction(w.p.bodies[cfg.at.body].chunk, cfg.state.pc).Some?
    ensures MovesWell(w, JitCall(w, callees, cfg.state, cfg.returnsTo, cfg.state.pc))
  {
    hide StateOk, EnterCall, JitCall, MovesWell, CalleesOk, ReadMember, Settled, OperandsOk, ReturnsOk, EntryIs, WorldOk;
    var s := cfg.state;
    Preservation.TopFacts(w.p, s);
    var chunk := ChunkOf(w.p, s);
    CallSite(chunk, s.pc);
    SiteFacts(w.p, s, s.pc);
    LiveFacts(w, cfg);
    JitCallMember(w, callees, s, cfg.returnsTo, i);
    match w.p.member(s.heap, s.Top().closure.body, i.c, s.R(i.b)) {
      case None => MissKeeps(w, callees, cfg);
      case Some(hit) =>
        ReadStays(s, i, hit);
        var read, paired := ReadMember(s, i, hit), chunk.code[s.pc + 1];
        StillHolds(s, read, paired.a);
        assert SiteInstruction(ChunkOf(w.p, read), s.pc) == Some(paired);
        CallKeeps(w, callees, cfg, s.pc, read, paired, s.pc + 2);
    }
  }

  lemma StillHolds(s: State, t: State, r: nat)
    requires s.frames != [] && t.frames == s.frames && |t.slots| == |s.slots| && s.Holds(r)
    ensures t.Holds(r)
  {
  }

  lemma LiveFacts(w: World, cfg: Config)
    requires Live(w, cfg)
    ensures |cfg.returnsTo| == |cfg.state.frames| && cfg.at.body in w.codes && EntryIs(w, cfg.at, cfg.state.pc)
  {
  }

  lemma MissKeeps(w: World, callees: Callees, cfg: Config)
    requires Live(w, cfg) && CalleesOk(w, callees)
    requires SiteInstruction(w.p.bodies[cfg.at.body].chunk, cfg.state.pc).Some?
    requires JitCall(w, callees, cfg.state, cfg.returnsTo, cfg.state.pc)
             == Moving(Leave(cfg.state, cfg.state.pc), cfg.returnsTo, callees)
    ensures MovesWell(w, JitCall(w, callees, cfg.state, cfg.returnsTo, cfg.state.pc))
  {
    hide JitCall;
  }

  /** Every stencil keeps the discipline: each jit_return names its caller's own
      code at its caller's saved pc, every remembered body passes its site's
      checks, and the processor stands at the code of the machine's own pc. */
  lemma AdvanceKeeps(w: World, callees: Callees, cfg: Config)
    requires Live(w, cfg) && CalleesOk(w, callees)
    ensures Keeps(w, Advance(w, callees, cfg))
  {
    hide Run, JitCall, JitReturn, Follow, StateOk, Settled, Laid, LaidOut, CalleesOk, Keeps, MovesWell;
    var s, chunk := cfg.state, w.p.bodies[cfg.at.body].chunk;
    Preservation.TopFacts(w.p, s);
    PcAtIs(w, cfg.at, s.pc);
    SettledBounds(chunk, s.pc);
    var choice := Settled(chunk, s.pc);
    if s.pc == |chunk.code| {
      EndKeeps(w, callees, cfg);
    } else if choice.stencil.Call? {
      JitCallKeeps(w, callees, cfg);
      MovedKeeps(w, cfg, choice, JitCall(w, callees, s, cfg.returnsTo, s.pc));
    } else if choice.stencil.Return? || choice.stencil.ReturnNil? {
      var a := chunk.code[s.pc].a;
      ReturnKeepsReturns(w, callees, cfg, a, choice.stencil.ReturnNil?);
      MovedKeeps(w, cfg, choice,
                 JitReturn(w, s, cfg.returnsTo, callees, s.pc, a, choice.stencil.ReturnNil?));
    } else {
      WindowHeld(w.p, s);
      RunStays(w.p, s, choice.stencil, HolesOf(chunk, s.pc));
      FollowKeeps(w, callees, cfg, s.pc, Run(w.p, s, choice.stencil, HolesOf(chunk, s.pc)));
    }
  }

  lemma MovedKeeps(w: World, cfg: Config, choice: Choice, m: Moving)
    requires Live(w, cfg) && MovesWell(w, m)
    requires choice.next <= |w.p.bodies[cfg.at.body].chunk.code|
    requires 0 <= choice.target <= |w.p.bodies[cfg.at.body].chunk.code|
    ensures Keeps(w, Follow(w, m.callees, cfg, choice, m.outcome, m.returnsTo))
  {
    hide StateOk, EntryIs, ReturnsOk;
  }

  lemma EndKeeps(w: World, callees: Callees, cfg: Config)
    requires Live(w, cfg) && CalleesOk(w, callees)
    requires cfg.state.pc == |w.p.bodies[cfg.at.body].chunk.code|
    ensures Keeps(w, Advance(w, callees, cfg))
  {
    hide StateOk, ReturnsOk;
    PcAtIs(w, cfg.at, cfg.state.pc);
  }
}
