/** Calls and returns made by compiled code: the machine's frames move, and the
    code goes on in the frame now on top (jit/jit.c, enter_at to jit_return). */
module Calls {
  import opened Wrappers
  import opened Bytecode
  import opened Machine
  import Interpreter
  import opened Stencils
  import opened Choosing
  import opened HoleWriting
  import opened Layout

  /** Which body a call site last called the fast way. */
  type Callees = map<(nat, nat), nat>

  /** The bodies, and the code each chunk's `jit` pointer holds: it is written
      once (Publication), so while the machines run it is one map. */
  datatype World = World(p: Program, codes: map<nat, JitCode>, table: Table, helpers: Helpers)

  ghost predicate WorldOk(w: World) {
    && BodiesOk(w.p)
    && TableOk(w.table)
    && forall b <- w.codes ::
         b < |w.p.bodies| && LaidOut(w.table, w.helpers, w.p.bodies[b].chunk, w.codes[b])
  }

  /** A machine in compiled code: `at` is where the processor is, and
      `returnsTo[k]` the jit_return of frame k. */
  datatype Config = Config(state: State, returnsTo: seq<Option<Address>>, at: Address)

  // ------------------------------------------------------------------
  // Call sites

  /** The instruction a call at pc reads its counts from: its own, or for a
      CALLMEMBER the method call it is paired with. */
  function SiteInstruction(chunk: Chunk, pc: nat): Option<Instruction> {
    if pc >= |chunk.code| then None
    else if chunk.code[pc].op.Call? then Some(chunk.code[pc])
    else if chunk.code[pc].op.CallMember? && Interpreter.Paired(chunk, pc) then Some(chunk.code[pc + 1])
    else None
  }

  /** A body a site may take without asking: it passes the site's checks, and
      its code may be entered at its first instruction. */
  ghost predicate CalleeOk(w: World, site: (nat, nat), callee: nat)
    requires BodiesOk(w.p)
  {
    && site.0 < |w.p.bodies| && callee < |w.p.bodies|
    && SiteInstruction(w.p.bodies[site.0].chunk, site.1).Some?
    && Interpreter.PlainCall(SiteInstruction(w.p.bodies[site.0].chunk, site.1).value, w.p.bodies[callee])
    && callee in w.codes
    && Enterable(w.p.bodies[callee].chunk, 0)
  }

  ghost predicate CalleesOk(w: World, callees: Callees)
    requires BodiesOk(w.p)
  {
    forall site <- callees :: CalleeOk(w, site, callees[site])
  }

  // ------------------------------------------------------------------
  // The helpers

  /** enter_at. */
  function EnterAt(w: World, s: State, body: nat, pc: nat): Option<Address> {
    if s.Traps() || body !in w.codes then None
    else
      var code := w.codes[body];
      if pc < |code.enter| && pc < |code.entries| && code.enter[pc]
      then Some(Address(body, code.entries[pc])) else None
  }

  datatype Moving = Moving(outcome: Outcome, returnsTo: seq<Option<Address>>, callees: Callees)

  /** What a CALLMEMBER's hit writes on the way into its call. */
  function ReadMember(s: State, i: Instruction, hit: Hit): State
    requires s.frames != [] && s.Holds(i.a) && s.Holds(i.b)
  {
    (if hit.lent.Some? then s.SetR(i.b, hit.lent.value) else s).SetR(i.a, hit.value)
  }

  /** jit_call. */
  ghost function JitCall(w: World, callees: Callees, s: State, returnsTo: seq<Option<Address>>, pc: nat): Moving
    requires WorldOk(w) && StateOk(w.p, s) && |returnsTo| == |s.frames|
    requires s.Top().closure.body in w.codes
    requires CalleesOk(w, callees) && SiteInstruction(ChunkOf(w.p, s), pc).Some?
  {
    var chunk := ChunkOf(w.p, s);
    var i := chunk.code[pc];
    SiteFacts(w.p, s, pc);
    if i.op.CallMember? then
      match w.p.member(s.heap, s.Top().closure.body, i.c, s.R(i.b))
      case None => Moving(Leave(s, pc), returnsTo, callees)
      case Some(hit) =>
        ReadMemberOk(w.p, s, i, hit);
        EnterCall(w, callees, ReadMember(s, i, hit), returnsTo, pc, chunk.code[pc + 1], pc + 2)
    else
      EnterCall(w, callees, s, returnsTo, pc, i, pc + 1)
  }

  /** A call site's registers are inside its frame's window. */
  lemma SiteFacts(p: Program, s: State, pc: nat)
    requires StateOk(p, s) && SiteInstruction(ChunkOf(p, s), pc).Some?
    ensures SiteInstruction(ChunkOf(p, s), pc).value.a < ChunkOf(p, s).registers
    ensures var i := ChunkOf(p, s).code[pc];
            i.a < ChunkOf(p, s).registers && (i.op.CallMember? ==> i.b < ChunkOf(p, s).registers && i.a != i.b)
    ensures forall r | 0 <= r < ChunkOf(p, s).registers :: s.Holds(r)
  {
    var chunk := ChunkOf(p, s);
    assert OperandsOk(chunk, pc);
    if chunk.code[pc].op.CallMember? {
      assert OperandsOk(chunk, pc + 1);
    }
  }

  lemma ReadMemberOk(p: Program, s: State, i: Instruction, hit: Hit)
    requires StateOk(p, s) && i.a < ChunkOf(p, s).registers && i.b < ChunkOf(p, s).registers
    ensures s.Holds(i.a) && s.Holds(i.b)
    ensures var t := ReadMember(s, i, hit);
            StateOk(p, t) && t.Top() == s.Top() && |t.frames| == |s.frames| && ChunkOf(p, t) == ChunkOf(p, s)
  {
    var t := ReadMember(s, i, hit);
    assert forall k | 0 <= k < |t.frames| :: FrameOk(p, s, s.frames[k]) ==> FrameOk(p, t, t.frames[k]);
  }

  /** The call itself, written as `i`; its return goes on at `resume`. */
  ghost function EnterCall(w: World, callees: Callees, s: State, returnsTo: seq<Option<Address>>,
                           pc: nat, i: Instruction, resume: nat): Moving
    requires WorldOk(w) && StateOk(w.p, s) && |returnsTo| == |s.frames| && i.op.Call?
    requires s.Top().closure.body in w.codes && pc < |ChunkOf(w.p, s).code|
    requires i.a < ChunkOf(w.p, s).registers && CalleesOk(w, callees)
  {
    var body := s.Top().closure.body;
    match Interpreter.CalledClosure(s.heap, s.R(i.a))
    case None => Moving(Leave(s, pc), returnsTo, callees)
    case Some(closure) =>
      assert ClosureOk(w.p, s.heap, closure);
      var callee := w.p.bodies[closure.body];
      var known := (body, pc) in callees && callees[(body, pc)] == closure.body;
      if !known && !Interpreter.PlainCall(i, callee) then Moving(Leave(s, pc), returnsTo, callees)
      else if !HasRoom(w.p, s, i, callee) then Moving(Leave(s, pc), returnsTo, callees)
      else
        EnterBody(w, callees, MovedInto(w.p, s, i, closure, resume), Links(w, s, returnsTo, pc, i),
                  (body, pc), closure.body)
  }

  /** A frame taken over keeps its own jit_return; a pushed one gets the site's. */
  ghost function Links(w: World, s: State, returnsTo: seq<Option<Address>>, pc: nat, i: Instruction)
    : seq<Option<Address>>
    requires s.frames != [] && s.Top().closure.body < |w.p.bodies| && i.op.Call?
    requires s.Top().closure.body in w.codes
  {
    if Reuses(w.p, s, i) then returnsTo else returnsTo + [ResumeAddress(w, s.Top().closure.body, pc)]
  }

  predicate Reuses(p: Program, s: State, i: Instruction)
    requires s.frames != [] && s.Top().closure.body < |p.bodies| && i.op.Call?
  {
    i.op.tail && Interpreter.FreeToGo(p, s.Top())
  }

  function NextBase(s: State, i: Instruction, callee: Proto): nat
    requires s.frames != [] && i.op.Call?
  {
    s.Top().base + i.a + Interpreter.Skip(i, callee)
  }

  predicate HasRoom(p: Program, s: State, i: Instruction, callee: Proto)
    requires s.frames != [] && s.Top().closure.body < |p.bodies| && i.op.Call?
  {
    && (Reuses(p, s, i) || |s.frames| < p.frameCapacity)
    && NextBase(s, i, callee) + callee.chunk.registers < |s.slots|
  }

  /** The machine moved into the body, before anything is counted. */
  function MovedInto(p: Program, s: State, i: Instruction, closure: Closure, resume: nat): State
    requires s.frames != [] && s.Top().closure.body < |p.bodies| && i.op.Call?
    requires closure.body < |p.bodies| && HasRoom(p, s, i, p.bodies[closure.body])
  {
    var callee := p.bodies[closure.body];
    var nextBase := NextBase(s, i, callee);
    if Reuses(p, s, i) then TakeOver(s, i, closure, callee, nextBase)
    else PushOn(s, i, closure, callee, nextBase, resume)
  }

  /** At the body's first instruction: the last of a slice's turns is not taken
      here but left to the interpreter; a body the site remembers is entered unasked. */
  ghost function EnterBody(w: World, callees: Callees, moved: State, links: seq<Option<Address>>,
                           site: (nat, nat), callee: nat): Moving
    requires WorldOk(w) && CalleesOk(w, callees)
  {
    if MustLeave(moved) then Moving(Leave(moved, 0), links, callees)
    else if site in callees && callees[site] == callee then
      KnownHasCode(w, callees, site);
      Moving(Moved(Counted(moved), Address(callee, w.codes[callee].entries[0])), links, callees)
    else
      match EnterAt(w, Counted(moved), callee, 0)
      case None => Moving(Leave(Counted(moved), 0), links, callees)
      case Some(to) => Moving(Moved(Counted(moved), to), links, callees[site := callee])
  }

  /** Why a remembered body's code needs no asking for. */
  lemma KnownHasCode(w: World, callees: Callees, site: (nat, nat))
    requires WorldOk(w) && CalleesOk(w, callees) && site in callees
    ensures callees[site] in w.codes && |w.codes[callees[site]].entries| > 0
  {
    assert CalleeOk(w, site, callees[site]);
    assert LaidOut(w.table, w.helpers, w.p.bodies[callees[site]].chunk, w.codes[callees[site]]);
  }

  function ResumeAddress(w: World, body: nat, pc: nat): Option<Address>
    requires body in w.codes
  {
    var resumes := w.codes[body].resumes;
    if pc < |resumes| && resumes[pc].Some? then Some(Address(body, resumes[pc].value)) else None
  }

  function TakeOver(s: State, i: Instruction, closure: Closure, callee: Proto, nextBase: nat): State
    requires s.frames != [] && s.Top().base <= nextBase && nextBase + callee.chunk.registers <= |s.slots|
  {
    var slots := ClearScratch(s.slots, nextBase, callee);
    var over := s.Top().(closure := closure, pc := 0, drop := if CallDrop(i.c) then true else s.Top().drop);
    s.(heap := CloseFrom(s.heap, slots, s.Top().base),
       slots := MoveDown(slots, s.Top().base, nextBase, callee.chunk.registers),
       frames := s.frames[|s.frames| - 1 := over]).At(0)
  }

  function PushOn(s: State, i: Instruction, closure: Closure, callee: Proto, nextBase: nat, resume: nat): State
    requires s.frames != [] && nextBase + callee.chunk.registers <= |s.slots|
  {
    s.(slots := ClearScratch(s.slots, nextBase, callee),
       frames := s.frames[|s.frames| - 1 := s.Top().(pc := resume)]
                 + [NewFrame(closure, nextBase, i.a, CallPrepared(i.c))]).At(0)
  }

  /** jit_return: of register `a`, or of nil^. */
  ghost function JitReturn(w: World, s: State, returnsTo: seq<Option<Address>>, callees: Callees,
                           pc: nat, a: Byte, nil: bool): Moving
    requires WorldOk(w) && StateOk(w.p, s) && |returnsTo| == |s.frames|
    requires s.Holds(a)
  {
    if !Interpreter.NothingToDrain(w.p, s) then Moving(Leave(s, pc), returnsTo, callees)
    else
      var read := if nil then NIL else s.R(a);
      if read.tag.HostValueTag? then Moving(Leave(s, pc), returnsTo, callees)
      else
        var top, last := s.Top(), |s.frames| - 1;
        var value := if top.drop then NIL else read;
        var caller := s.frames[last - 1];
        LinkFacts(w.p, s);
        var popped := s.(
          heap := CloseFrom(s.heap, s.slots, top.base + ProtoOf(w.p, top).kept),
          frames := s.frames[..last]).SetR(top.result, value).At(caller.pc);
        GoBack(w, popped, caller, returnsTo[last], returnsTo[..last], callees)
  }

  /** Where a return goes on: at the address the frame was pushed with, or where the
      caller's code may be entered. */
  function GoBack(w: World, popped: State, caller: Frame, link: Option<Address>, links: seq<Option<Address>>,
                  callees: Callees): Moving
  {
    var to := if link.None? then EnterAt(w, popped, caller.closure.body, caller.pc)
              else if popped.Traps() then None else link;
    match to
    case None => Moving(Leave(popped, caller.pc), links, callees)
    case Some(address) => Moving(Moved(popped, address), links, callees)
  }

  lemma LinkFacts(p: Program, s: State)
    requires StateOk(p, s) && |s.frames| >= 2
    ensures LinkOk(p, s.frames[|s.frames| - 2], s.Top())
    ensures FrameOk(p, s, s.frames[|s.frames| - 2]) && FrameOk(p, s, s.Top())
  {
  }
}
