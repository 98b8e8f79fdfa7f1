/** Machines that meet the hypotheses of the theorems about compiled code, and one
    for each way in which it and the interpreter differ. */
module Witnesses {
  import opened Wrappers
  import opened Bytecode
  import opened Machine
  import Interpreter
  import Preservation
  import opened Stencils
  import opened Choosing
  import opened HoleWriting
  import opened Layout
  import opened Calls
  import opened Refinement
  import opened CallRefinement
  import opened CompiledRuns
  import opened WholeRuns
  import opened Parting

  // ------------------------------------------------------------------
  // A layout of any chunk

  const ONE_BYTE: StencilData := StencilData([0x90], 1, [])

  /** Every stencil one byte without a hole. */
  function PlainTable(): Table {
    (st: Stencil) => ONE_BYTE
  }

  function NoHelpers(): Helpers {
    Helpers(0, 0, (work: Work) => 0)
  }

  ghost function PlainCode(chunk: Chunk): JitCode
    requires ChunkOk(chunk)
  {
    JitCode(0, seq(Total(PlainTable(), chunk), _ => 0x90), Entries(PlainTable(), chunk),
            seq(|chunk.code| + 1, pc requires 0 <= pc <= |chunk.code| => Enterable(chunk, pc)),
            seq(|chunk.code| + 1, pc requires 0 <= pc <= |chunk.code| => Resume(PlainTable(), chunk, pc)))
  }

  lemma PlainIsLaidOut(chunk: Chunk)
    requires ChunkOk(chunk)
    ensures LaidOut(PlainTable(), NoHelpers(), chunk, PlainCode(chunk))
  {
    hide Start, Laid, Settled, Entries, Enterable, Resume, Values, Cut;
    var code := PlainCode(chunk);
    forall pc | 0 <= pc <= |chunk.code| && Laid(chunk, pc)
      ensures PieceIn(PlainTable(), NoHelpers(), chunk, 0, code.memory, pc)
    {
      PlainPiece(chunk, pc);
      StartsBelow(chunk, pc);
      var start := Start(PlainTable(), chunk, pc);
      assert code.memory[start..start + 1] == [0x90];
    }
  }

  lemma PlainPiece(chunk: Chunk, pc: nat)
    requires ChunkOk(chunk) && pc <= |chunk.code|
    ensures Length(PlainTable(), chunk, pc) == 1
    ensures Piece(PlainTable(), NoHelpers(), chunk, 0, pc) == Some([0x90])
  {
    hide Start, Laid, Settled, Values, Cut;
    assert ONE_BYTE.code[..1] == [0x90];
  }

  lemma StartsBelow(chunk: Chunk, pc: nat)
    requires ChunkOk(chunk) && pc <= |chunk.code| && Laid(chunk, pc)
    ensures Start(PlainTable(), chunk, pc) + 1 <= Total(PlainTable(), chunk)
  {
    PlainPiece(chunk, pc);
    StartsGrow(PlainTable(), chunk, pc + 1, |chunk.code| + 1);
  }

  /** The bodies of a program, every one with its code. */
  ghost function WorldOf(p: Program): World
    requires BodiesOk(p)
  {
    World(p, map b | 0 <= b < |p.bodies| :: PlainCode(ChunkAt(p, b)), PlainTable(), NoHelpers())
  }

  function ChunkAt(p: Program, b: nat): (chunk: Chunk)
    requires BodiesOk(p) && b < |p.bodies|
    ensures ChunkOk(chunk)
  {
    assert p.bodies[b] in p.bodies;
    p.bodies[b].chunk
  }

  lemma WorldOfIsOk(p: Program)
    requires BodiesOk(p)
    ensures WorldOk(WorldOf(p))
  {
    hide LaidOut, BodiesOk;
    var w := WorldOf(p);
    forall b <- w.codes ensures b < |p.bodies| && LaidOut(w.table, w.helpers, p.bodies[b].chunk, w.codes[b]) {
      PlainIsLaidOut(ChunkAt(p, b));
    }
  }

  /** Standing at a laid instruction of a body, compiled code stands. */
  lemma StandsThere(p: Program, s: State)
    requires StateOk(p, s) && !s.polling && Laid(ChunkOf(p, s), s.pc)
    ensures var cfg := ConfigOf(p, s); Live(WorldOf(p), cfg)
  {
    hide Laid, LaidOut, Start, HeapOk, FrameOk, LinkOk;
    WorldOfIsOk(p);
    Preservation.TopFacts(p, s);
  }

  ghost function ConfigOf(p: Program, s: State): Config
    requires StateOk(p, s)
  {
    Preservation.TopFacts(p, s);
    Config(s, seq(|s.frames|, _ => None), Address(s.Top().closure.body, Start(PlainTable(), ChunkOf(p, s), s.pc)))
  }

  // ------------------------------------------------------------------
  // One program

  /** Work that makes a table, a call, a method call through a member, a return, and
      work that is refused. */
  const CALLER: Chunk :=
    Chunk([Instruction(Op.InC(NewTable), 0, 0, 0),
           Instruction(Op.LoadNil, 2, 0, 0),
           Instruction(Op.Call(false, false), 0, 0, 0),
           Instruction(Op.CallMember, 0, 1, 0),
           Instruction(Op.Call(true, false), 0, 0, 0),
           Instruction(Op.Return, 0, 0, 0),
           Instruction(Op.InC(NewInstance), 0, 0, 0)], [], 3)

  const CALLEE: Chunk := Chunk([Instruction(Op.Return, 0, 0, 0)], [], 1)

  /** The collector's poll holds a coroutine back where work begins with it, and at
      every call but one made with the slice's last turn. The table 2 lends to the
      host type's table 3, whose member is the host function 4. */
  const LENT: Hit := Hit(OfObject(4), Some(OfObject(3)))

  function Small(): Program {
    Program([Proto(CALLER, 0, 0, false, false, false, 0), Proto(CALLEE, 0, 0, false, false, false, 0)], 8, 0, 0,
            (o: Arithmetic, x: Word, y: Word) => 0,
            (h: Heap, body: nat, c: nat, v: Value) =>
              if v == OfObject(2) then Some(LENT) else None,
            (h: Heap, body: nat, c: nat, v: Value) =>
              if v == OfObject(2) then Some(LENT) else if v == OfObject(3) then Some(Hit(OfObject(4), None)) else None,
            (work: Work, a: Byte, b: Byte, c: Byte, s: State) =>
              if work.NewTable? then Done(Effect(s.slots, s.heap, true, s.collector + 1, s.carriers))
              else Refused(Poll(s.collector + 1, work.NewInstance?)),
            (s: State) => if s.steps == 1 then Poll(s.collector, false) else Poll(s.collector + 1, true))
  }

  lemma ChunksAreOk()
    ensures ChunkOk(CALLER) && ChunkOk(CALLEE)
  {
    hide OperandsOk;
    forall pc | 0 <= pc < |CALLER.code| ensures OperandsOk(CALLER, pc) {
      CallerOperands(pc);
    }
    CalleeOperands();
  }

  lemma CallerOperands(pc: nat)
    requires pc < |CALLER.code|
    ensures OperandsOk(CALLER, pc)
  {
  }

  lemma CalleeOperands()
    ensures OperandsOk(CALLEE, 0)
  {
  }

  lemma SmallIsOk()
    ensures BodiesOk(Small())
  {
    hide ChunkOk;
    ChunksAreOk();
    var p := Small();
    assert p.bodies[0].chunk == CALLER && p.bodies[1].chunk == CALLEE;
  }

  const IN_CALLER: Frame := Frame(Closure(0, 0, []), 0, 0, 0, 0, 0, false, false, false, false)

  const HEAP: Heap :=
    Heap(map[1 := Subroutine(Closure(1, 1, [])), 2 := Object.Table([]), 3 := OtherObject, 4 := Native], map[])

  /** The caller about to run one of its instructions, with `first` in register 0. */
  function Before(pc: nat, first: Value, frames: seq<Frame>, steps: nat): State {
    State([first, OfObject(2), NIL, NIL, NIL, NIL, NIL, NIL], frames, HEAP, steps, false, false, 0, 0, pc, false)
  }

  lemma BeforeIsOk(pc: nat, first: Value, frames: seq<Frame>, steps: nat)
    requires pc <= 6 && (frames == [IN_CALLER] || frames == [IN_CALLER.(pc := 3), IN_CALLER])
    ensures StateOk(Small(), Before(pc, first, frames, steps))
    ensures ChunkOf(Small(), Before(pc, first, frames, steps)) == CALLER
  {
    SmallIsOk();
  }

  lemma CallerIsLaid(pc: nat)
    requires pc <= 6 && pc != 4
    ensures ChunkOk(CALLER) && Laid(CALLER, pc)
  {
    hide Settled;
    CallerSettles();
  }

  lemma CallerStands(pc: nat, first: Value, frames: seq<Frame>, steps: nat)
    requires pc <= 6 && pc != 4 && (frames == [IN_CALLER] || frames == [IN_CALLER.(pc := 3), IN_CALLER])
    ensures StateOk(Small(), Before(pc, first, frames, steps))
    ensures BodiesOk(Small()) && Live(WorldOf(Small()), ConfigOf(Small(), Before(pc, first, frames, steps)))
  {
    hide Live, StateOk, Laid;
    SmallIsOk();
    BeforeIsOk(pc, first, frames, steps);
    CallerIsLaid(pc);
    StandsThere(Small(), Before(pc, first, frames, steps));
  }

  // ------------------------------------------------------------------
  // The machines

  /** The hypotheses of the theorems about runs can be met: a machine the
      interpreter has brought to where it may come in, with turns left and
      nothing waiting. */
  lemma SomeMachineLives() returns (w: World, cfg: Config)
    ensures Live(w, cfg) && cfg.state.steps > 0 && !cfg.state.Traps()
    ensures EnterAt(w, cfg.state, 0, cfg.state.pc) == Some(cfg.at)
  {
    hide StateOk, LaidOut, Start, Live, Settled, Laid, ReturnsOk, EntryIs;
    var s := Before(0, NIL, [IN_CALLER], 5);
    CallerStands(0, NIL, [IN_CALLER], 5);
    BeforeIsOk(0, NIL, [IN_CALLER], 5);
    w, cfg := WorldOf(Small()), ConfigOf(Small(), s);
    CallerIsLaid(0);
    CallerSettles();
  }

  lemma CallerSettles()
    ensures ChunkOk(CALLER)
    ensures Settled(CALLER, 0) == Choice(InPlace, 1, 0, NIL, NewTable)
    ensures Settled(CALLER, 1) == Choice(Stencil.LoadK, 2, 0, NIL, Work.Close)
    ensures Settled(CALLER, 2) == Choice(Stencil.Call, 3, 0, NIL, Work.Close)
    ensures Settled(CALLER, 3) == Choice(Stencil.Call, 5, 0, NIL, Work.Close)
    ensures Settled(CALLER, 4) == Choice(Stencil.Call, 5, 0, NIL, Work.Close)
    ensures Settled(CALLER, 5) == Choice(Stencil.Return, 6, 0, NIL, Work.Close)
    ensures Settled(CALLER, 6) == Choice(InPlace, 7, 0, NIL, NewInstance)
  {
    hide Settled, ChunkOk;
    ChunksAreOk();
    SettlesPlainly(CALLER, 0);
    SettlesPlainly(CALLER, 1);
    SettlesPlainly(CALLER, 2);
    SettlesMember(CALLER, 3);
    SettlesPlainly(CALLER, 4);
    SettlesPlainly(CALLER, 5);
    SettlesPlainly(CALLER, 6);
  }

  lemma SettlesPlainly(chunk: Chunk, pc: nat)
    requires ChunkOk(chunk) && pc < |chunk.code|
    ensures var i := chunk.code[pc];
            var choice := Settled(chunk, pc);
            match i.op
            case InC(work) => choice == Choice(InPlace, pc + 1, 0, NIL, work)
            case LoadNil => choice == Choice(Stencil.LoadK, pc + 1, 0, NIL, Work.Close)
            case Call(_, _) => choice == Choice(Stencil.Call, pc + 1, 0, NIL, Work.Close)
            case Return => i.b == 0 ==> choice == Choice(Stencil.Return, pc + 1, 0, NIL, Work.Close)
            case _ => true
  {
    assert OperandsOk(chunk, pc);
  }

  lemma SettlesMember(chunk: Chunk, pc: nat)
    requires ChunkOk(chunk) && pc + 1 < |chunk.code| && chunk.code[pc].op.CallMember?
    requires chunk.code[pc + 1].op.Call? && chunk.code[pc + 1].op.asMethod
    ensures Settled(chunk, pc) == Choice(Stencil.Call, pc + 2, 0, NIL, Work.Close)
  {
    assert OperandsOk(chunk, pc);
  }

  /** The work at 0 leaves something waiting and the load at 1 runs past it: two
      stencils after which the machine is where no number of the interpreter's
      turns brings it. */
  lemma SomeRunGoesAstray() returns (w: World, cfg: Config, found: nat -> Callees)
    ensures Live(w, cfg) && AllOk(w, found) && !cfg.state.Traps() && cfg.state.steps > 0
    ensures Running(w, found, 0, 2, cfg).Went? && Running(w, found, 0, 2, cfg).cfg.state.pc == 2
    ensures forall m: nat, u, last: nat :: !RunFollows(w.p, cfg.state, Running(w, found, 0, 2, cfg), m, u, last)
  {
    hide StateOk, LaidOut, Start, Live, Settled, Laid, ReturnsOk, EntryIs, Advance, Running, RunFollows, KeepsTogether,
         OnlyTrapsPart, WorldOk;
    var s := Before(0, NIL, [IN_CALLER], 5);
    CallerStands(0, NIL, [IN_CALLER], 5);
    BeforeIsOk(0, NIL, [IN_CALLER], 5);
    WorldOfIsOk(Small());
    w, cfg, found := WorldOf(Small()), ConfigOf(Small(), s), _ => map[];
    var c := WorkWaits(w, found(0), cfg);
    AdvanceStands(w, found(0), cfg);
    var d := LoadGoesOn(w, found(1), c);
    TwoStencils(w, found, cfg, c, d);
    RunGoesAstray(w, found, 0, 2, cfg, s, 0) by { NoTurn(w.p, s); }
  }

  /** The first stencil: what it leaves waiting. */
  lemma WorkWaits(w: World, callees: Callees, cfg: Config) returns (c: Config)
    requires BodiesOk(Small()) && w == WorldOf(Small()) && Live(w, cfg) && CalleesOk(w, callees)
    requires cfg.state == Before(0, NIL, [IN_CALLER], 5)
    ensures Advance(w, callees, cfg).Went? && Advance(w, callees, cfg).cfg == c
    ensures c.state == cfg.state.(pending := true, collector := 1).At(1)
    ensures !HandsBackRun(w, cfg) && !SkipsStep(w, callees, cfg)
  {
    hide StateOk, LaidOut, Start, Settled, Laid, ReturnsOk, EntryIs, CalleesOk, WorldOk;
    CallerSettles();
    LiveFacts(w, cfg);
    PcAtIs(w, cfg.at, 0);
    c := Advance(w, callees, cfg).cfg;
  }

  /** The second, which the interpreter would not have come to yet. */
  lemma LoadGoesOn(w: World, callees: Callees, cfg: Config) returns (c: Config)
    requires BodiesOk(Small()) && w == WorldOf(Small()) && Live(w, cfg) && CalleesOk(w, callees)
    requires cfg.state == Before(0, NIL, [IN_CALLER], 5).(pending := true, collector := 1).At(1)
    ensures Advance(w, callees, cfg).Went? && Advance(w, callees, cfg).cfg == c && c.state.pc == 2
    ensures Parts(w, callees, cfg) && !HandsBackRun(w, cfg) && !SkipsStep(w, callees, cfg)
  {
    hide StateOk, LaidOut, Start, Settled, Laid, ReturnsOk, EntryIs, CalleesOk, WorldOk;
    CallerSettles();
    LiveFacts(w, cfg);
    PcAtIs(w, cfg.at, 1);
    c := Advance(w, callees, cfg).cfg;
  }

  lemma TwoStencils(w: World, found: nat -> Callees, cfg: Config, c: Config, d: Config)
    requires Live(w, cfg) && AllOk(w, found)
    requires Advance(w, found(0), cfg).Went? && Advance(w, found(0), cfg).cfg == c && !HandsBackRun(w, cfg)
    requires !SkipsStep(w, found(0), cfg)
    requires Live(w, c) ==> Advance(w, found(1), c).Went? && Advance(w, found(1), c).cfg == d
    requires Live(w, c) ==> Parts(w, found(1), c) && !HandsBackRun(w, c) && !SkipsStep(w, found(1), c)
    ensures Running(w, found, 0, 2, cfg).Went? && Running(w, found, 0, 2, cfg).cfg == d
    ensures OnlyTrapsPart(w, found, 0, 2, cfg) && !KeepsTogether(w, found, 0, 2, cfg)
  {
    hide Live, StateOk, Advance, CalleesOk, WorldOk, ReturnsOk, HandsBackRun, SkipsStep, Parts;
    AdvanceStands(w, found(0), cfg);
    AdvanceStands(w, found(1), c);
    assert Running(w, found, 2, 0, d).Went? && Running(w, found, 2, 0, d).cfg == d;
  }

  /** A call on a slice's last step is left at its body's entry, unpolled: the
      interpreter, polling there, would have ended the slice. */
  lemma SomeCallLeftAtEntry() returns (w: World, cfg: Config, t: State)
    ensures Live(w, cfg) && CalleesOk(w, map[])
    ensures match Advance(w, map[], cfg)
            case Left(left, _, pc, _) => left == t && pc == 0
            case _ => false
    ensures AtEntry(w.p, cfg.state, t, 0, 1) && t.steps == 1
    ensures StateOk(w.p, t.(pc := 0, polling := true))
    ensures Interpreter.Step(w.p, t.(pc := 0, polling := true)).Suspended?
  {
    hide LaidOut, Start, Settled, Laid, ReturnsOk, EntryIs, WorldOk, StateOk, JitCall, MovedInto, Advance, Turns,
         Interpreter.Step;
    var s := Before(2, OfObject(1), [IN_CALLER], 1);
    CallerStands(2, OfObject(1), [IN_CALLER], 1);
    BeforeIsOk(2, OfObject(1), [IN_CALLER], 1);
    w, cfg := WorldOf(Small()), ConfigOf(Small(), s);
    CallerSettles();
    LiveFacts(w, cfg);
    NothingRemembered(w);
    AdvanceCalls(w, map[], cfg);
    var i := CALLER.code[2];
    t := MovedInto(w.p, s, i, Closure(1, 1, []), 3);
    SmallCallMoves(w, s);
    assert cfg.returnsTo == [None];
    CallStepMoves(w.p, s, i, Closure(1, 1, []), s);
    CallTurn(w.p, s, i, t.(polling := true));
    EntryPollIsSkipped(w.p, s, t, 1);
  }

  lemma SmallCallMoves(w: World, s: State)
    requires BodiesOk(Small()) && w == WorldOf(Small()) && WorldOk(w)
    requires s == Before(2, OfObject(1), [IN_CALLER], s.steps) && s.steps > 0 && StateOk(w.p, s) && 0 in w.codes
    ensures SiteInstruction(CALLER, 2) == Some(CALLER.code[2]) && CalleesOk(w, map[])
    ensures HasRoom(w.p, s, CALLER.code[2], w.p.bodies[1]) && Interpreter.PlainCall(CALLER.code[2], w.p.bodies[1])
    ensures Interpreter.CalledClosure(s.heap, s.R(0)) == Some(Closure(1, 1, []))
    ensures var m := MovedInto(w.p, s, CALLER.code[2], Closure(1, 1, []), 3);
            var o := JitCall(w, map[], s, [None], 2).outcome;
            && (s.steps == 1 ==> o == Leave(m, 0))
            && m.steps == s.steps && |m.frames| == 2 && !m.pending
            && EntersFrom(m, o) && (o.Moved? || o.Leave?)
  {
    hide LaidOut, WorldOk, ClearScratch, SiteInstruction, CalleesOk, HasRoom, Interpreter.PlainCall,
         Interpreter.CalledClosure, StateOk, EnterCall, EnterBody, MovedInto, JitCall;
    SmallCallSite(w, s);
    Preservation.TopFacts(w.p, s);
    var i, m := CALLER.code[2], MovedInto(w.p, s, CALLER.code[2], Closure(1, 1, []), 3);
    JitCallPlain(w, map[], s, [None], i);
    EnterCallIs(w, map[], s, [None], 2, i, 3);
    EnterBodyFrom(w, map[], m, Links(w, s, [None], 2, i), (0, 2), 1);
    SmallMoves(w.p, s, m);
  }

  lemma SmallMoves(p: Program, s: State, m: State)
    requires p == Small() && s == Before(2, OfObject(1), [IN_CALLER], s.steps)
    requires HasRoom(p, s, CALLER.code[2], p.bodies[1]) && m == MovedInto(p, s, CALLER.code[2], Closure(1, 1, []), 3)
    ensures m.steps == s.steps && |m.frames| == 2 && !m.pending
  {
    hide ClearScratch;
  }

  lemma SmallCallSite(w: World, s: State)
    requires BodiesOk(Small()) && w == WorldOf(Small()) && WorldOk(w)
    requires s == Before(2, OfObject(1), [IN_CALLER], s.steps) && StateOk(w.p, s)
    ensures SiteInstruction(CALLER, 2) == Some(CALLER.code[2]) && CalleesOk(w, map[])
    ensures HasRoom(w.p, s, CALLER.code[2], w.p.bodies[1]) && Interpreter.PlainCall(CALLER.code[2], w.p.bodies[1])
    ensures s.frames != [] && s.Holds(0)
    ensures Interpreter.CalledClosure(s.heap, s.R(0)) == Some(Closure(1, 1, []))
  {
    hide LaidOut, WorldOk;
  }

  /** A call at which the interpreter's poll holds a coroutine back: compiled code
      goes into the body, and no number of turns is there. */
  lemma SomeStepSkipped() returns (w: World, cfg: Config)
    ensures Live(w, cfg) && CalleesOk(w, map[]) && !cfg.state.Traps()
    ensures SkipsStep(w, map[], cfg) && !Arrived(Advance(w, map[], cfg)).pending
    ensures Interpreter.Step(w.p, cfg.state).Next? && Interpreter.Step(w.p, cfg.state).state.pending
    ensures forall n: nat :: !Follows(w.p, cfg.state, Advance(w, map[], cfg), n)
  {
    hide LaidOut, Start, Settled, Laid, ReturnsOk, EntryIs, WorldOk, StateOk, Follows, JitCall, MovedInto, Advance,
         StaysPut, EntersFrom, Interpreter.Step, Turns;
    var s := Before(2, OfObject(1), [IN_CALLER], 5);
    CallerStands(2, OfObject(1), [IN_CALLER], 5);
    BeforeIsOk(2, OfObject(1), [IN_CALLER], 5);
    w, cfg := WorldOf(Small()), ConfigOf(Small(), s);
    CallerSettles();
    LiveFacts(w, cfg);
    NothingRemembered(w);
    AdvanceCalls(w, map[], cfg);
    SmallCallMoves(w, s);
    var i, m := CALLER.code[2], MovedInto(w.p, s, CALLER.code[2], Closure(1, 1, []), 3);
    CallStepMoves(w.p, s, i, Closure(1, 1, []), s);
    CallTurn(w.p, s, i, m.Polled(w.p.collect(s)).(polling := true));
    assert cfg.returnsTo == [None];
    Departs(w.p, s, m, JitCall(w, map[], s, [None], 2).outcome, Advance(w, map[], cfg));
    SkippingAgreesNever(w, map[], cfg);
  }

  lemma Departs(p: Program, s: State, m: State, o: Outcome, end: Progress)
    requires AtInstruction(p, s) && !ChunkOf(p, s).code[s.pc].op.CallMember?
    requires EntersFrom(m, o) && |m.frames| > |s.frames| && !m.pending && ComesOf(o, end)
    ensures !StaysPut(p, s, end) && !Arrived(end).pending
  {
    hide StateOk;
  }

  /** A member lent through a delegate^, whose call is refused: run again, the
      CALLMEMBER asks what lent it, and stands as it stood. */
  lemma SomeMemberReadTwice() returns (w: World, cfg: Config, t: State)
    ensures Live(w, cfg) && CalleesOk(w, map[])
    ensures match Advance(w, map[], cfg)
            case Left(left, _, pc, _) => left == t && pc == cfg.state.pc
            case _ => false
    ensures Reread(w.p, cfg.state, t, cfg.state.pc, 1) && t.slots != cfg.state.slots
    ensures StateOk(w.p, t.At(cfg.state.pc)) && Turns(w.p, t.At(cfg.state.pc), 1) == Turns(w.p, cfg.state, 1)
  {
    hide LaidOut, Start, Settled, Laid, ReturnsOk, EntryIs, WorldOk, StateOk, JitCall, Reread, Interpreter.Step, Turns;
    var s := Before(3, NIL, [IN_CALLER], 5);
    CallerStands(3, NIL, [IN_CALLER], 5);
    BeforeIsOk(3, NIL, [IN_CALLER], 5);
    w, cfg := WorldOf(Small()), ConfigOf(Small(), s);
    CallerSettles();
    LiveFacts(w, cfg);
    PcAtIs(w, cfg.at, 3);
    assert cfg.returnsTo == [None];
    t := SmallMemberReads(w, s);
    RereadIsHarmless(w.p, s, t, 3, 1);
  }

  lemma SmallMemberReads(w: World, s: State) returns (t: State)
    requires BodiesOk(Small()) && w == WorldOf(Small()) && WorldOk(w)
    requires s == Before(3, NIL, [IN_CALLER], 5) && StateOk(w.p, s) && 0 in w.codes
    ensures SiteInstruction(CALLER, 3) == Some(CALLER.code[4]) && CalleesOk(w, map[])
    ensures JitCall(w, map[], s, [None], 3).outcome == Leave(t, 3)
    ensures Standing(w.p, s) && Reread(w.p, s, t, 3, 1) && t.slots != s.slots
  {
    hide LaidOut, WorldOk, StateOk, JitCall, EnterCall, Turns, Interpreter.Step, ReadMember, CalleesOk, OperandsOk;
    var i := CALLER.code[3];
    t := ReadMember(s, i, LENT);
    ReadMemberOk(w.p, s, i, LENT);
    AtSmallMember(s);
    SmallRead(s);
    MemberTurn(w.p, s, i, LENT);
    NothingRemembered(w);
    JitCallMember(w, map[], s, [None], i);
    EnterCallIs(w, map[], t, [None], 3, CALLER.code[4], 5);
  }

  lemma SmallRead(s: State)
    requires s == Before(3, NIL, [IN_CALLER], 5)
    ensures var t := ReadMember(s, CALLER.code[3], LENT);
            && t == s.(slots := [OfObject(4), OfObject(3), NIL, NIL, NIL, NIL, NIL, NIL])
            && t.slots != s.slots && Interpreter.CalledClosure(t.heap, t.R(0)) == None
  {
  }

  lemma NothingRemembered(w: World)
    requires BodiesOk(w.p)
    ensures CalleesOk(w, map[])
  {
  }

  lemma AtSmallMember(s: State)
    requires s == Before(3, NIL, [IN_CALLER], 5) && StateOk(Small(), s)
    ensures Standing(Small(), s) && Interpreter.Paired(CALLER, 3) && s.Holds(0) && s.Holds(1)
    ensures Small().member(s.heap, 0, 0, s.R(1)) == Some(LENT)
  {
  }

  /** A RETURN of a register that heads a run of values: given up as one value,
      where the interpreter takes no turn of that kind. No RETURN the compiler
      writes names such a register with a count of none. */
  lemma SomeRunHandedBack() returns (w: World, cfg: Config)
    ensures Live(w, cfg) && CalleesOk(w, map[]) && HandsBackRun(w, cfg)
    ensures |Arrived(Advance(w, map[], cfg)).frames| < |cfg.state.frames|
    ensures forall n: nat :: !Follows(w.p, cfg.state, Advance(w, map[], cfg), n)
  {
    hide LaidOut, Start, Settled, Laid, ReturnsOk, EntryIs, WorldOk, JitReturn, Follows, StateOk;
    var run := Value(RunTag, 2);
    var frames := [IN_CALLER.(pc := 3), IN_CALLER];
    var s := Before(5, run, frames, 5);
    CallerStands(5, run, frames, 5);
    BeforeIsOk(5, run, frames, 5);
    w, cfg := WorldOf(Small()), ConfigOf(Small(), s);
    CallerSettles();
    LiveFacts(w, cfg);
    PcAtIs(w, cfg.at, 5);
    Preservation.TopFacts(w.p, s);
    AnsweredGone(w, s, cfg.returnsTo, map[], 0);
    HandingBackAgreesNever(w, map[], cfg);
  }

  /** Work refused after the collector's poll held a coroutine back: the interpreter
      takes up with the disposal, where its own turn would have been the refusal. */
  lemma SomePollHoldsBack() returns (w: World, cfg: Config, t: State)
    ensures Live(w, cfg) && CalleesOk(w, map[])
    ensures match Advance(w, map[], cfg)
            case Left(left, _, pc, _) => left == t && pc == cfg.state.pc
            case _ => false
    ensures HeldBack(w.p, cfg.state, t, cfg.state.pc)
    ensures !cfg.state.Traps() && t.frames != [] && t.Interrupted()
  {
    hide LaidOut, Start, Settled, Laid, ReturnsOk, EntryIs, WorldOk, StateOk, HeldBack, Advance, Run;
    var s := Before(6, NIL, [IN_CALLER], 5);
    CallerStands(6, NIL, [IN_CALLER], 5);
    BeforeIsOk(6, NIL, [IN_CALLER], 5);
    w, cfg := WorldOf(Small()), ConfigOf(Small(), s);
    CallerSettles();
    LiveFacts(w, cfg);
    t := s.(pending := true, collector := 1);
    RefusedWork(s);
    assert s.At(6) == s;
    AdvanceWorks(w, map[], cfg);
  }

  /** Work done in place, as the stencil has it. */
  lemma AdvanceWorks(w: World, callees: Callees, cfg: Config)
    requires Live(w, cfg) && CalleesOk(w, callees) && WorksInPlace(w, cfg)
    ensures var s := cfg.state;
            var chunk := w.p.bodies[cfg.at.body].chunk;
            match InPlaceWork(w.p, s, HolesOf(chunk, s.pc))
            case Continue(t) =>
              Advance(w, callees, cfg).Went? && Advance(w, callees, cfg).cfg.state == t.At(Settled(chunk, s.pc).next)
            case Leave(t, pc) =>
              Advance(w, callees, cfg).Left? && Advance(w, callees, cfg).state == t && Advance(w, callees, cfg).pc == pc
            case _ => false
  {
    hide LaidOut, Start, Settled, Laid, ReturnsOk, EntryIs, WorldOk, StateOk, Run, JitCall, JitReturn, CloseFrom, CloseAt;
    var s := cfg.state;
    Preservation.TopFacts(w.p, s);
    LiveFacts(w, cfg);
    PcAtIs(w, cfg.at, s.pc);
    var chunk := w.p.bodies[cfg.at.body].chunk;
    SettledBounds(chunk, s.pc);
    WindowHeld(w.p, s);
    RunIsWork(w.p, s, Settled(chunk, s.pc).stencil, HolesOf(chunk, s.pc));
  }

  lemma RefusedWork(s: State)
    requires s == Before(6, NIL, [IN_CALLER], 5) && StateOk(Small(), s)
    ensures HeldBack(Small(), s, s.(pending := true, collector := 1), 6)
  {
  }
}
