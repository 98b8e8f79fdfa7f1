/** A machine over its whole life: the interpreter's turns, the compiled code it
    enters and leaves, and every frame's jit_return through all of it
    (jit/jit.c, jit_call and jit_return; src/vm_internal.h, vm_push_frame). */
module ReturnDiscipline {
  import opened Wrappers
  import opened Bytecode
  import opened Machine
  import Interpreter
  import Preservation
  import opened Stencils
  import opened Choosing
  import opened Layout
  import opened Calls
  import opened Refinement
  import opened CallRefinement
  import opened CompiledRuns
  import opened WholeRuns

  datatype Mode =
    | InCode(cfg: Config)
    | Interpreted(state: State, returnsTo: seq<Option<Address>>)

  /** What the interpreter does to the frames in one turn, in reach of Interpreter
      or beyond it: it gives up every frame above the first `keep`, changes the
      one then on top as it pleases, and pushes frames that carry no
      jit_return. No frame below is touched. */
  ghost predicate TouchesTop(before: seq<Frame>, links: seq<Option<Address>>,
                             after: seq<Frame>, afterLinks: seq<Option<Address>>, keep: nat)
  {
    && 0 < keep <= |before| == |links| && keep <= |after| == |afterLinks|
    && after[..keep - 1] == before[..keep - 1]
    && afterLinks[..keep] == links[..keep]
    && forall k | keep <= k < |after| :: afterLinks[k].None?
  }

  /** One move of a machine. What the interpreter does out of Interpreter's reach --
      at an instruction, or at its boundary before it -- may leave any state, so
      long as it keeps to TouchesTop. */
  ghost predicate Moves(w: World, callees: Callees, from: Mode, to: Mode)
    requires Good(w, from) && CalleesOk(w, callees)
  {
    match from
    case InCode(cfg) =>
      (match Advance(w, callees, cfg)
       case Went(c, _) => to == InCode(c)
       case Left(t, links, pc, _) => to == Interpreted(t.At(pc), links))
    case Interpreted(s, links) =>
      || Turns1(w, s, links, to)
      || (to.Interpreted? && StateOk(w.p, to.state) &&
          exists keep :: TouchesTop(s.frames, links, to.state.frames, to.returnsTo, keep))
      || (!s.polling && EnterAt(w, s, s.Top().closure.body, s.pc).Some? &&
          to == InCode(Config(s, links, EnterAt(w, s, s.Top().closure.body, s.pc).value)))
  }

  /** A turn in Interpreter's reach: a frame pushed carries no jit_return, and a
      frame that stays keeps its own. */
  ghost predicate Turns1(w: World, s: State, links: seq<Option<Address>>, to: Mode)
    requires StateOk(w.p, s) && |links| == |s.frames|
  {
    && Interpreter.Step(w.p, s).Next?
    && var t := Interpreter.Step(w.p, s).state;
       to == Interpreted(t, LinksAfter(s, t, links))
  }

  function LinksAfter(s: State, t: State, links: seq<Option<Address>>): seq<Option<Address>>
    requires |links| == |s.frames|
  {
    if |t.frames| > |s.frames| then links + [None] else links[..|t.frames|]
  }

  ghost predicate Good(w: World, mode: Mode) {
    match mode
    case InCode(cfg) => Live(w, cfg)
    case Interpreted(s, links) => WorldOk(w) && StateOk(w.p, s) && ReturnsOk(w, s.frames, links)
  }

  // ------------------------------------------------------------------
  // Turns touch only the top

  lemma TurnTouchesTop(w: World, s: State, links: seq<Option<Address>>) returns (keep: nat)
    requires StateOk(w.p, s) && |links| == |s.frames| && Interpreter.Step(w.p, s).Next?
    ensures var t := Interpreter.Step(w.p, s).state;
            TouchesTop(s.frames, links, t.frames, LinksAfter(s, t, links), keep)
  {
    hide Interpreter.CallStep, Interpreter.ReturnStep, Interpreter.Answer, Interpreter.WorkStep, Interpreter.CallMemberStep,
         Interpreter.Goto, Interpreter.JumpFalseStep, Interpreter.ForLoopStep, StateOk;
    Preservation.TopFacts(w.p, s);
    var t := Interpreter.Step(w.p, s).state;
    keep := |s.frames|;
    if !s.polling {
      var i := ChunkOf(w.p, s).code[s.pc];
      match i.op {
        case Call(_, _) => CallTouchesTop(w.p, s, links, i);
        case Return => ReturnTouchesTop(w.p, s, links, s.R(i.a)); keep := keep - 1;
        case ReturnNil => ReturnTouchesTop(w.p, s, links, NIL); keep := keep - 1;
        case InC(work) => WorkStays(s, w.p, i, work);
        case CallMember => MemberStays(w.p, s, i);
        case _ => Preservation.StaysInFrame(w.p, s, i);
      }
    }
  }

  lemma WorkStays(s: State, p: Program, i: Instruction, work: Work)
    requires s.frames != [] && Interpreter.WorkStep(p, s, i, work).Next?
    ensures Interpreter.WorkStep(p, s, i, work).state.frames == s.frames
  {
    hide CloseFrom, CloseAt;
  }

  lemma MemberStays(p: Program, s: State, i: Instruction)
    requires StateOk(p, s) && s.Holds(i.a) && s.Holds(i.b) && Interpreter.CallMemberStep(p, s, i).Next?
    ensures Interpreter.CallMemberStep(p, s, i).state.frames == s.frames
  {
    hide StateOk;
  }

  lemma CallTouchesTop(p: Program, s: State, links: seq<Option<Address>>, i: Instruction)
    requires StateOk(p, s) && |links| == |s.frames| && i.op.Call? && s.Holds(i.a)
    requires Interpreter.CallStep(p, s, i).Next?
    ensures var t := Interpreter.CallStep(p, s, i).state;
            TouchesTop(s.frames, links, t.frames, LinksAfter(s, t, links), |s.frames|)
  {
    hide ClearScratch, MoveDown, CloseFrom, Interpreter.PlainCall;
  }

  lemma ReturnTouchesTop(p: Program, s: State, links: seq<Option<Address>>, answer: Value)
    requires StateOk(p, s) && |links| == |s.frames| && Interpreter.ReturnStep(p, s, answer).Next?
    ensures var t := Interpreter.ReturnStep(p, s, answer).state;
            TouchesTop(s.frames, links, t.frames, LinksAfter(s, t, links), |s.frames| - 1)
  {
    hide CloseFrom;
  }

  /** The frame the interpreter pushes at a boundary for a disposal that waits: the
      frame on top keeps where it stands, and the new one carries no
      jit_return. */
  lemma DisposalMoves(w: World, callees: Callees, s: State, links: seq<Option<Address>>, to: State, disposal: Frame)
    requires Good(w, Interpreted(s, links)) && CalleesOk(w, callees) && s.Interrupted()
    requires to.frames == s.frames[|s.frames| - 1 := s.Top().(pc := s.pc)] + [disposal] && StateOk(w.p, to)
    ensures Moves(w, callees, Interpreted(s, links), Interpreted(to, links + [None]))
  {
    hide StateOk, EnterAt, Interpreter.Step;
    Preservation.TopFacts(w.p, s);
    LinksOfFrames(w, s, links);
    assert TouchesTop(s.frames, links, to.frames, links + [None], |s.frames|);
  }

  /** A jit_return speaks only of the frame below its own. */
  lemma TouchingTopKeeps(w: World, before: seq<Frame>, links: seq<Option<Address>>,
                         after: seq<Frame>, afterLinks: seq<Option<Address>>, keep: nat)
    requires WorldOk(w) && ReturnsOk(w, before, links)
    requires TouchesTop(before, links, after, afterLinks, keep)
    ensures ReturnsOk(w, after, afterLinks)
  {
    hide ReturnOk, WorldOk;
    forall k | 0 < k < |after| && afterLinks[k].Some? ensures ReturnOk(w, after[k - 1], afterLinks[k].value) {
      assert k < keep;
      assert after[k - 1] == after[..keep - 1][k - 1] == before[k - 1];
      assert afterLinks[k] == afterLinks[..keep][k] == links[k];
    }
  }

  // ------------------------------------------------------------------
  // Every move, and every life

  lemma MoveKeeps(w: World, callees: Callees, from: Mode, to: Mode)
    requires Good(w, from) && CalleesOk(w, callees) && Moves(w, callees, from, to)
    ensures Good(w, to)
  {
    hide StateOk, ReturnsOk, Advance, EnterAt, CalleesOk, TouchesTop;
    match from {
      case InCode(cfg) =>
        AdvanceStands(w, callees, cfg);
      case Interpreted(s, links) =>
        LinksOfFrames(w, s, links);
        if Turns1(w, s, links, to) {
          Preservation.StepKeeps(w.p, s);
          var keep := TurnTouchesTop(w, s, links);
          TouchingTopKeeps(w, s.frames, links, to.state.frames, to.returnsTo, keep);
        } else if to.Interpreted? {
          var keep :| TouchesTop(s.frames, links, to.state.frames, to.returnsTo, keep);
          TouchingTopKeeps(w, s.frames, links, to.state.frames, to.returnsTo, keep);
        } else {
          EntersLive(w, s, links);
        }
    }
  }

  lemma LinksOfFrames(w: World, s: State, links: seq<Option<Address>>)
    requires WorldOk(w) && ReturnsOk(w, s.frames, links)
    ensures |links| == |s.frames|
  {
  }

  /** Every machine's whole life: whatever mix of the interpreter's turns,
      compiled code and what neither models, and whatever the sites it shares
      remember meanwhile, each frame's jit_return stays the code its caller goes
      on in, and compiled code stands where the machine stands. */
  lemma {:induction false} LifeKeeps(w: World, found: seq<Callees>, life: seq<Mode>)
    requires |life| == |found| + 1 && Good(w, life[0])
    requires forall k | 0 <= k < |found| ::
               Good(w, life[k]) && CalleesOk(w, found[k]) ==> Moves(w, found[k], life[k], life[k + 1])
    requires BodiesOk(w.p) && forall callees <- found :: CalleesOk(w, callees)
    ensures forall mode <- life :: Good(w, mode)
    decreases |found|
  {
    hide Good, Moves, CalleesOk;
    if found == [] {
      assert life == [life[0]];
    } else {
      MoveKeeps(w, found[0], life[0], life[1]);
      LifeKeeps(w, found[1..], life[1..]);
      assert life == [life[0]] + life[1..];
    }
  }

  /** A return made in compiled code goes on at the instruction the interpreter
      would go on at, in the code of the caller's own chunk, whether it took
      the frame's jit_return unasked or asked. */
  lemma ReturnResumes(w: World, callees: Callees, cfg: Config)
    requires Live(w, cfg) && CalleesOk(w, callees) && cfg.state.pc < |w.p.bodies[cfg.at.body].chunk.code|
    requires IsReturn(w.p.bodies[cfg.at.body].chunk.code[cfg.state.pc])
    requires Advance(w, callees, cfg).Went?
    ensures |cfg.state.frames| >= 2
    ensures var c := Advance(w, callees, cfg).cfg;
            var caller := cfg.state.frames[|cfg.state.frames| - 2];
            && c.state.frames == cfg.state.frames[..|cfg.state.frames| - 1]
            && c.state.pc == caller.pc
            && c.at.body == caller.closure.body
            && EntryIs(w, c.at, caller.pc) && PcAt(w, c.at) == caller.pc
  {
    hide StateOk, JitReturn, ReturnsOk, CalleesOk, Start, Laid, LaidOut, Run, JitCall;
    AdvanceStands(w, callees, cfg);
    var chunk := w.p.bodies[cfg.at.body].chunk;
    PcAtIs(w, cfg.at, cfg.state.pc);
    LiveFacts(w, cfg);
    Preservation.TopFacts(w.p, cfg.state);
    SettledBounds(chunk, cfg.state.pc);
    var st := Settled(chunk, cfg.state.pc).stencil;
    assert st.Return? || st.ReturnNil?;
    ReturnPops(w, callees, cfg, chunk.code[cfg.state.pc].a, st.ReturnNil?);
    PcAtIs(w, Advance(w, callees, cfg).cfg.at, Advance(w, callees, cfg).cfg.state.pc);
  }

  lemma ReturnPops(w: World, callees: Callees, cfg: Config, a: Byte, nil: bool)
    requires Live(w, cfg) && CalleesOk(w, callees) && cfg.state.Holds(a)
    ensures var o := JitReturn(w, cfg.state, cfg.returnsTo, callees, cfg.state.pc, a, nil).outcome;
            match o
            case Moved(t, _) =>
              && |cfg.state.frames| >= 2
              && t.frames == cfg.state.frames[..|cfg.state.frames| - 1]
              && t.pc == cfg.state.frames[|cfg.state.frames| - 2].pc
            case Leave(_, _) => true
            case _ => false
  {
    hide CloseFrom, StateOk, EnterAt, LaidOut, WorldOk, ReturnsOk, EntryIs, CalleesOk, ClosureOk, FrameOk, LinkOk;
    LiveFacts(w, cfg);
    Preservation.TopFacts(w.p, cfg.state);
    if Interpreter.NothingToDrain(w.p, cfg.state) {
      LinkFacts(w.p, cfg.state);
    }
  }
}
