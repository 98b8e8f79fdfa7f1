/** What a call and a return do to a machine, slot by slot and frame by frame: the
    window a body starts in, what the frames remember, and what a return leaves
    (jit/jit.c, jit_call and jit_return; src/vm_internal.h; src/vm.c,
    script_call). Said once, and proved of both compiled code's and the
    interpreter's. */
module CallMeanings {
  import opened Wrappers
  import opened Bytecode
  import opened Machine
  import Interpreter
  import Preservation
  import opened Stencils
  import opened Choosing
  import opened HoleWriting
  import opened Layout
  import opened Calls
  import opened Refinement
  import opened CallRefinement
  import opened Meanings

  // ------------------------------------------------------------------
  // Calls

  /** The closure a register holds. */
  function Called(s: State, i: Instruction): Option<Closure> {
    if s.frames == [] || s.frames[|s.frames| - 1].base + i.a >= |s.slots| then None
    else
      var v := s.slots[s.frames[|s.frames| - 1].base + i.a];
      if v.tag.ObjectTag? && v.payload in s.heap.objects && s.heap.objects[v.payload].Subroutine?
      then Some(s.heap.objects[v.payload].closure) else None
  }

  /** Where the arguments stand: after the callee, and after the receiver too where
      the body takes none. */
  function ArgumentsAt(s: State, i: Instruction, callee: Proto): nat
    requires s.frames != [] && i.op.Call?
  {
    s.frames[|s.frames| - 1].base + i.a + (if i.op.asMethod && !callee.takesSelf then 2 else 1)
  }

  /** A tail call takes its caller's frame, if the caller has nothing to clean up or
      hand over. */
  predicate TakesFrame(p: Program, s: State, i: Instruction)
    requires s.frames != [] && i.op.Call?
  {
    var top := s.frames[|s.frames| - 1];
    i.op.tail && top.cleanups == 0 && !top.coroutine && top.closure.body < |p.bodies| &&
    p.bodies[top.closure.body].kept == 0
  }

  /** The calls made without help: of a closure, with as many arguments as its body
      takes, none spread or collected, no coroutine to make, and room for the body's
      registers and its frame. C's low bit says that the last argument is spread. */
  predicate Callable(p: Program, s: State, i: Instruction, closure: Closure) {
    && s.frames != [] && i.op.Call? && Called(s, i) == Some(closure) && closure.body < |p.bodies|
    && var callee := p.bodies[closure.body];
       && i.c % 2 == 0 && !callee.hasVariadic && !callee.suspends
       && callee.parameters == i.b + (if i.op.asMethod && callee.takesSelf then 1 else 0)
       && (TakesFrame(p, s, i) || |s.frames| < p.frameCapacity)
       && ArgumentsAt(s, i, callee) + callee.chunk.registers < |s.slots|
  }

  /** The body's parameters are the arguments; its other registers are nil^, over
      whatever payload lay there. */
  predicate Windowed(s: State, from: nat, t: State, base: nat, callee: Proto) {
    && |t.slots| == |s.slots| && from + callee.chunk.registers < |s.slots| && base <= from
    && (forall j | base <= j < base + callee.chunk.registers ::
          t.slots[j] ==
          var was := s.slots[from + (j - base)];
          if j - base < callee.parameterSlots then was else Value(NilTag, was.payload))
  }

  /** What a call that goes through makes of the machine, but for the slice: a frame
      more, over the arguments, its answer to go into A; or the caller's frame, the
      arguments moved down to it and its places closed. */
  ghost predicate Entered(p: Program, s: State, i: Instruction, closure: Closure, resume: nat, t: State)
    requires Callable(p, s, i, closure)
  {
    var callee := p.bodies[closure.body];
    var from := ArgumentsAt(s, i, callee);
    var last := |s.frames| - 1;
    var top := s.frames[last];
    && t.pc == 0 && t.hook == s.hook && t.carriers == s.carriers
    && if TakesFrame(p, s, i) then
         && t.frames == s.frames[..last] + [top.(closure := closure, pc := 0, drop := top.drop || i.c >= 128)]
         && Windowed(s, from, t, top.base, callee)
         && (forall j | 0 <= j < |s.slots| && !(top.base <= j < from + callee.chunk.registers) :: t.slots[j] == s.slots[j])
         && ClosesFrom(s.heap, t.heap,
                       seq(|s.slots|, j requires 0 <= j < |s.slots| =>
                         if from + callee.parameterSlots <= j < from + callee.chunk.registers
                         then Value(NilTag, s.slots[j].payload) else s.slots[j]),
                       top.base)
       else
         && t.frames == s.frames[..last] + [top.(pc := resume),
              Frame(closure, 0, from, i.a, (i.c / 2) % 64, 0, false, false, false, false)]
         && Windowed(s, from, t, from, callee)
         && (forall j | 0 <= j < |s.slots| && !(from <= j < from + callee.chunk.registers) :: t.slots[j] == s.slots[j])
         && t.heap == s.heap
  }

  /** The interpreter's call: made exactly where it is callable, it comes to stand at
      the body's entry, where the slice is polled next. */
  lemma CallStepMeans(p: Program, s: State, i: Instruction)
    requires StateOk(p, s) && !s.polling && i.op.Call? && s.Holds(i.a)
    ensures match Called(s, i)
            case None => Interpreter.CallStep(p, s, i) == Interpreter.Beyond
            case Some(closure) =>
              if Callable(p, s, i, closure) then
                Interpreter.CallStep(p, s, i).Next? &&
                var t := Interpreter.CallStep(p, s, i).state;
                && Entered(p, s, i, closure, s.pc + 1, t) && t.polling && t.steps == s.steps
                && t.collector == p.collect(s).collector && (t.pending <==> s.pending || p.collect(s).held)
              else Interpreter.CallStep(p, s, i) == Interpreter.Beyond
  {
    hide StateOk, Entered, Interpreter.CallStep, MovedInto, HasRoom, Interpreter.PlainCall;
    Preservation.TopFacts(p, s);
    var closure := Called(s, i);
    if closure.Some? {
      ClosureHeld(p, s, i, closure.value);
      CallableIs(p, s, i, closure.value);
      if Callable(p, s, i, closure.value) {
        CallStepMoves(p, s, i, closure.value, s);
        var moved := MovedInto(p, s, i, closure.value, s.pc + 1);
        MovedMeans(p, s, i, closure.value, s.pc + 1);
        SpentEnters(p, s, i, closure.value, s.pc + 1, moved, moved.Polled(p.collect(s)).(polling := true));
      } else {
        RefusedIsBeyond(p, s, i, closure.value);
      }
    } else {
      NoneIsBeyond(p, s, i);
    }
  }

  lemma RefusedIsBeyond(p: Program, s: State, i: Instruction, closure: Closure)
    requires StateOk(p, s) && i.op.Call? && s.Holds(i.a) && Called(s, i) == Some(closure) && closure.body < |p.bodies|
    requires !(Interpreter.PlainCall(i, p.bodies[closure.body]) && HasRoom(p, s, i, p.bodies[closure.body]))
    ensures Interpreter.CallStep(p, s, i) == Interpreter.Beyond
  {
    hide StateOk, Interpreter.PlainCall, ClearScratch, MoveDown, CloseFrom;
    Preservation.TopFacts(p, s);
    CalledIs(s.Polled(p.collect(s)), s, i);
  }

  lemma NoneIsBeyond(p: Program, s: State, i: Instruction)
    requires StateOk(p, s) && i.op.Call? && s.Holds(i.a) && Called(s, i) == None
    ensures Interpreter.CallStep(p, s, i) == Interpreter.Beyond
  {
    hide StateOk, Interpreter.PlainCall, ClearScratch, MoveDown, CloseFrom;
    Preservation.TopFacts(p, s);
    CalledIs(s.Polled(p.collect(s)), s, i);
  }

  lemma CalledIs(polled: State, s: State, i: Instruction)
    requires s.frames != [] && s.Holds(i.a) && polled == s.(pending := polled.pending, collector := polled.collector)
    ensures Interpreter.CalledClosure(polled.heap, polled.R(i.a)) == Called(s, i)
  {
  }

  /** Compiled code's: made exactly there too; with a turn of the slice taken, unless
      the last is left to the interpreter or a trap is set. */
  lemma EnterCallMeans(w: World, callees: Callees, s: State, returnsTo: seq<Option<Address>>,
                       pc: nat, i: Instruction, resume: nat)
    requires WorldOk(w) && CalleesOk(w, callees) && StateOk(w.p, s) && |returnsTo| == |s.frames| && i.op.Call?
    requires s.Top().closure.body in w.codes && pc < |ChunkOf(w.p, s).code|
    requires i.a < ChunkOf(w.p, s).registers && s.Holds(i.a)
    requires SiteInstruction(ChunkOf(w.p, s), pc) == Some(i)
    ensures var o := EnterCall(w, callees, s, returnsTo, pc, i, resume).outcome;
            match Called(s, i)
            case None => o == Leave(s, pc)
            case Some(closure) =>
              if Callable(w.p, s, i, closure) then
                && (o.Moved? || (o.Leave? && o.pc == 0))
                && Entered(w.p, s, i, closure, resume, o.state) && !o.state.polling
                && o.state.pending == s.pending && o.state.collector == s.collector
                && (!Polls(s) ==> o.Leave?)
                && o.state.steps == if Polls(s) && s.steps > 1 then s.steps - 1 else s.steps
              else o == Leave(s, pc)
  {
    hide EnterBody, EnterCall, MovedInto, StateOk, WorldOk, CalleesOk, ResumeAddress, Entered;
    Preservation.TopFacts(w.p, s);
    EnterCallIs(w, callees, s, returnsTo, pc, i, resume);
    var closure := Called(s, i);
    if closure.Some? {
      ClosureHeld(w.p, s, i, closure.value);
      CallableIs(w.p, s, i, closure.value);
      if Callable(w.p, s, i, closure.value) {
        var moved := MovedInto(w.p, s, i, closure.value, resume);
        MovedMeans(w.p, s, i, closure.value, resume);
        EnterBodyFrom(w, callees, moved, Links(w, s, returnsTo, pc, i), (s.Top().closure.body, pc), closure.value.body);
        SpentEnters(w.p, s, i, closure.value, resume, moved,
                    EnterBody(w, callees, moved, Links(w, s, returnsTo, pc, i), (s.Top().closure.body, pc),
                              closure.value.body).outcome.state);
      }
    }
  }

  lemma CallableIs(p: Program, s: State, i: Instruction, closure: Closure)
    requires s.frames != [] && s.Top().closure.body < |p.bodies| && i.op.Call? && s.Holds(i.a)
    requires Called(s, i) == Some(closure) && closure.body < |p.bodies|
    ensures Callable(p, s, i, closure) <==>
            Interpreter.PlainCall(i, p.bodies[closure.body]) && HasRoom(p, s, i, p.bodies[closure.body])
  {
  }

  lemma MovedMeans(p: Program, s: State, i: Instruction, closure: Closure, resume: nat)
    requires s.frames != [] && s.Top().closure.body < |p.bodies| && Callable(p, s, i, closure)
    requires HasRoom(p, s, i, p.bodies[closure.body])
    ensures var m := MovedInto(p, s, i, closure, resume);
            && Entered(p, s, i, closure, resume, m) && !m.polling
            && m.pending == s.pending && m.collector == s.collector && m.steps == s.steps
  {
    hide TakeOver, PushOn, Entered;
    if TakesFrame(p, s, i) {
      TakenMeans(p, s, i, closure, resume);
    } else {
      PushedMeans(p, s, i, closure, resume);
    }
  }

  lemma TakenMeans(p: Program, s: State, i: Instruction, closure: Closure, resume: nat)
    requires s.frames != [] && s.Top().closure.body < |p.bodies| && Callable(p, s, i, closure) && TakesFrame(p, s, i)
    ensures var callee := p.bodies[closure.body];
            var m := TakeOver(s, i, closure, callee, ArgumentsAt(s, i, callee));
            && Entered(p, s, i, closure, resume, m) && !m.polling
            && m.pending == s.pending && m.collector == s.collector && m.steps == s.steps
  {
    var callee := p.bodies[closure.body];
    var from := ArgumentsAt(s, i, callee);
    assert ClearScratch(s.slots, from, callee) ==
      seq(|s.slots|, j requires 0 <= j < |s.slots| =>
        if from + callee.parameterSlots <= j < from + callee.chunk.registers
        then Value(NilTag, s.slots[j].payload) else s.slots[j]);
  }

  lemma PushedMeans(p: Program, s: State, i: Instruction, closure: Closure, resume: nat)
    requires s.frames != [] && s.Top().closure.body < |p.bodies| && Callable(p, s, i, closure) && !TakesFrame(p, s, i)
    ensures var callee := p.bodies[closure.body];
            var m := PushOn(s, i, closure, callee, ArgumentsAt(s, i, callee), resume);
            && Entered(p, s, i, closure, resume, m) && !m.polling
            && m.pending == s.pending && m.collector == s.collector && m.steps == s.steps
  {
  }

  lemma SpentEnters(p: Program, s: State, i: Instruction, closure: Closure, resume: nat, m: State, t: State)
    requires Callable(p, s, i, closure) && Entered(p, s, i, closure, resume, m)
    requires t == m.(steps := t.steps, polling := t.polling, pending := t.pending, collector := t.collector)
    ensures Entered(p, s, i, closure, resume, t)
  {
  }

  // ------------------------------------------------------------------
  // Where code goes on

  /** Code of a body that may be entered at this instruction. */
  ghost predicate HasCode(w: World, body: nat, pc: nat)
    requires WorldOk(w)
  {
    body in w.codes && pc < |w.p.bodies[body].chunk.code| && ChunkOk(w.p.bodies[body].chunk) &&
    Laid(w.p.bodies[body].chunk, pc) && !NotCompiled(w.p.bodies[body].chunk, pc)
  }

  /** Compiled code is entered, with no trap set, at what is laid and compiled: where
      that instruction's code begins. */
  lemma EnterAtMeans(w: World, s: State, body: nat, pc: nat)
    requires WorldOk(w)
    ensures EnterAt(w, s, body, pc).Some? <==> !s.pending && !s.hook && HasCode(w, body, pc)
    ensures EnterAt(w, s, body, pc).Some? ==>
              pc < |w.codes[body].entries| && EnterAt(w, s, body, pc).value == Address(body, w.codes[body].entries[pc])
  {
    if body in w.codes {
      EntersIff(w.table, w.helpers, w.p.bodies[body].chunk, w.codes[body], pc);
    }
  }

  lemma EntersIff(table: Table, helpers: Helpers, chunk: Chunk, code: JitCode, pc: nat)
    requires LaidOut(table, helpers, chunk, code)
    ensures pc < |code.enter| && pc < |code.entries| && code.enter[pc] <==>
            pc < |chunk.code| && Laid(chunk, pc) && !NotCompiled(chunk, pc)
  {
    hide Laid, Settled, NotCompiled, PieceIn, Resume;
    assert pc <= |chunk.code| ==> (code.enter[pc] <==> Enterable(chunk, pc));
    if pc < |chunk.code| {
      CompiledIff(chunk, pc);
    }
  }

  /** A call that is made goes on in the body's code where it has such code at its
      entry and the slice lets it; and the site then remembers the body. A frame pushed
      is left where its caller's code goes on (ResumeIff); one taken over keeps its own. */
  lemma CallGoesOnIff(w: World, callees: Callees, s: State, returnsTo: seq<Option<Address>>,
                      pc: nat, i: Instruction, resume: nat, closure: Closure)
    requires WorldOk(w) && CalleesOk(w, callees) && StateOk(w.p, s) && |returnsTo| == |s.frames| && i.op.Call?
    requires s.Top().closure.body in w.codes && pc < |ChunkOf(w.p, s).code|
    requires i.a < ChunkOf(w.p, s).registers && s.Holds(i.a)
    requires SiteInstruction(ChunkOf(w.p, s), pc) == Some(i)
    requires Called(s, i) == Some(closure) && Callable(w.p, s, i, closure)
    ensures var m := EnterCall(w, callees, s, returnsTo, pc, i, resume);
            var site := (s.Top().closure.body, pc);
            && m.returnsTo == (if TakesFrame(w.p, s, i) then returnsTo else returnsTo + [ResumeAddress(w, site.0, pc)])
            && (m.outcome.Moved? <==> Polls(s) && HasCode(w, closure.body, 0))
            && (m.outcome.Moved? ==>
                  && |w.codes[closure.body].entries| > 0
                  && m.outcome.to == Address(closure.body, w.codes[closure.body].entries[0])
                  && m.callees == callees[site := closure.body])
            && (!m.outcome.Moved? ==> m.callees == callees)
  {
    hide EnterBody, EnterCall, MovedInto, StateOk, WorldOk, CalleesOk, ResumeAddress, Entered, HasCode, HasRoom;
    Preservation.TopFacts(w.p, s);
    EnterCallIs(w, callees, s, returnsTo, pc, i, resume);
    ClosureHeld(w.p, s, i, closure);
    CallableIs(w.p, s, i, closure);
    MovedMeans(w.p, s, i, closure, resume);
    MovedPolls(w.p, s, i, closure, resume);
    BodyGoesOnIff(w, callees, MovedInto(w.p, s, i, closure, resume), Links(w, s, returnsTo, pc, i),
                  (s.Top().closure.body, pc), closure.body);
  }

  lemma MovedPolls(p: Program, s: State, i: Instruction, closure: Closure, resume: nat)
    requires s.frames != [] && s.Top().closure.body < |p.bodies| && Callable(p, s, i, closure)
    requires HasRoom(p, s, i, p.bodies[closure.body])
    requires Entered(p, s, i, closure, resume, MovedInto(p, s, i, closure, resume))
    requires var m := MovedInto(p, s, i, closure, resume); m.pending == s.pending && m.steps == s.steps
    ensures Polls(MovedInto(p, s, i, closure, resume)) <==> Polls(s)
  {
    hide MovedInto, Windowed;
  }

  lemma BodyGoesOnIff(w: World, callees: Callees, moved: State, links: seq<Option<Address>>, site: (nat, nat), callee: nat)
    requires WorldOk(w) && CalleesOk(w, callees)
    ensures var m := EnterBody(w, callees, moved, links, site, callee);
            && m.returnsTo == links
            && (m.outcome.Moved? <==> Polls(moved) && HasCode(w, callee, 0))
            && (m.outcome.Moved? ==>
                  && |w.codes[callee].entries| > 0
                  && m.outcome.to == Address(callee, w.codes[callee].entries[0])
                  && m.callees == callees[site := callee])
            && (!m.outcome.Moved? ==> m.callees == callees)
  {
    hide WorldOk, CalleesOk, EnterAt, HasCode;
    EnterAtMeans(w, Counted(moved), callee, 0);
    if site in callees && callees[site] == callee {
      KnownHasCode(w, callees, site);
      KnownEnters(w, callees, site);
      assert callees[site := callee] == callees;
    }
  }

  lemma KnownEnters(w: World, callees: Callees, site: (nat, nat))
    requires WorldOk(w) && CalleesOk(w, callees) && site in callees
    ensures HasCode(w, callees[site], 0)
  {
    hide Settled, Laid, NotCompiled, LaidOut;
    var chunk := w.p.bodies[callees[site]].chunk;
    assert CalleeOk(w, site, callees[site]);
    CompiledIff(chunk, 0);
  }

  /** What a compiled call leaves for its return: where its caller's code goes on,
      if it does. */
  lemma ResumeIff(w: World, body: nat, pc: nat)
    requires WorldOk(w) && body in w.codes && pc < |w.p.bodies[body].chunk.code| && ChunkOk(w.p.bodies[body].chunk)
    ensures var chunk := w.p.bodies[body].chunk;
            var next := if chunk.code[pc].op.CallMember? then pc + 2 else pc + 1;
            && (ResumeAddress(w, body, pc).Some? <==>
                  (chunk.code[pc].op.Call? || ReadsForCall(chunk, pc)) && HasCode(w, body, next))
            && (ResumeAddress(w, body, pc).Some? ==>
                  next < |w.codes[body].entries| &&
                  ResumeAddress(w, body, pc).value == Address(body, w.codes[body].entries[next]))
  {
    hide Laid, Settled, NotCompiled, ReadsForCall, PieceIn, Entries;
    var chunk := w.p.bodies[body].chunk;
    assert LaidOut(w.table, w.helpers, chunk, w.codes[body]);
    assert w.codes[body].resumes[pc] == Resume(w.table, chunk, pc);
    CallsAre(chunk, pc);
    SettledBounds(chunk, pc);
    var next := Settled(chunk, pc).next;
    if next < |chunk.code| {
      CompiledIff(chunk, next);
      if Laid(chunk, next) {
        EntryLaid(w.table, chunk, next);
      }
    }
  }

  lemma CallsAre(chunk: Chunk, pc: nat)
    requires ChunkOk(chunk) && pc < |chunk.code|
    ensures Settled(chunk, pc).stencil.Call? <==> chunk.code[pc].op.Call? || ReadsForCall(chunk, pc)
    ensures Settled(chunk, pc).stencil.Call? ==>
              Settled(chunk, pc).next == if chunk.code[pc].op.CallMember? then pc + 2 else pc + 1
  {
    assert OperandsOk(chunk, pc);
  }

  lemma EntryLaid(table: Table, chunk: Chunk, pc: nat)
    requires ChunkOk(chunk) && pc <= |chunk.code| && Laid(chunk, pc)
    ensures Entries(table, chunk)[pc] == Start(table, chunk, pc)
  {
    hide Laid, Start;
  }

  /** A return that is made goes on in its caller, no trap set, where the call it
      answers was made by compiled code that goes on there or the caller has code
      there to enter. */
  lemma ReturnGoesOnIff(w: World, s: State, returnsTo: seq<Option<Address>>, callees: Callees, pc: nat, a: Byte, nil: bool)
    requires WorldOk(w) && StateOk(w.p, s) && |returnsTo| == |s.frames| && s.Holds(a)
    requires Poppable(w.p, s) && (nil || !s.R(a).tag.HostValueTag?)
    ensures var m := JitReturn(w, s, returnsTo, callees, pc, a, nil);
            var last := |s.frames| - 1;
            var caller := s.frames[last - 1];
            && m.returnsTo == returnsTo[..last] && m.callees == callees
            && (m.outcome.Moved? <==>
                  !s.pending && !s.hook && (returnsTo[last].Some? || HasCode(w, caller.closure.body, caller.pc)))
            && (m.outcome.Moved? && returnsTo[last].Some? ==> m.outcome.to == returnsTo[last].value)
            && (m.outcome.Moved? && returnsTo[last].None? ==>
                  caller.pc < |w.codes[caller.closure.body].entries| &&
                  m.outcome.to == Address(caller.closure.body, w.codes[caller.closure.body].entries[caller.pc]))
  {
    hide WorldOk, EnterAt, StateOk, HasCode, CloseFrom, GoBack;
    Preservation.TopFacts(w.p, s);
    LinkFacts(w.p, s);
    var top, last := s.Top(), |s.frames| - 1;
    var caller := s.frames[last - 1];
    var popped := PoppedTo(w.p, s, if nil then NIL else s.R(a));
    GoBackIff(w, popped, caller, returnsTo[last], returnsTo[..last], callees);
  }

  lemma GoBackIff(w: World, popped: State, caller: Frame, link: Option<Address>, links: seq<Option<Address>>, callees: Callees)
    requires WorldOk(w)
    ensures var m := GoBack(w, popped, caller, link, links, callees);
            && m.returnsTo == links && m.callees == callees
            && (m.outcome.Moved? <==>
                  !popped.pending && !popped.hook && (link.Some? || HasCode(w, caller.closure.body, caller.pc)))
            && (m.outcome.Moved? && link.Some? ==> m.outcome.to == link.value)
            && (m.outcome.Moved? && link.None? ==>
                  caller.pc < |w.codes[caller.closure.body].entries| &&
                  m.outcome.to == Address(caller.closure.body, w.codes[caller.closure.body].entries[caller.pc]))
  {
    hide WorldOk, EnterAt, HasCode;
    EnterAtMeans(w, popped, caller.closure.body, caller.pc);
  }

  // ------------------------------------------------------------------
  // Turns

  /** A turn of the interpreter: the slice's poll where one is due, which suspends
      with the last turn of a bound; nothing here where the hook is on, or a disposal
      waits and the frame on top is not one; and otherwise the instruction. */
  lemma TurnMeans(p: Program, s: State)
    requires StateOk(p, s)
    ensures var interrupted := s.hook || (s.pending && !s.frames[|s.frames| - 1].disposing);
            Interpreter.Step(p, s) ==
            if s.polling then
              if s.steps == 1 then Interpreter.Suspended(s.(steps := 0))
              else Interpreter.Next(s.(steps := if s.steps > 1 then s.steps - 1 else 0, polling := false))
            else if interrupted || s.pc == |ChunkOf(p, s).code| then Interpreter.Beyond
            else Interpreter.Execute(p, s, ChunkOf(p, s).code[s.pc])
  {
    hide Interpreter.Execute, HeapOk, FramesOk, BodiesOk;
  }

  // ------------------------------------------------------------------
  // Members

  /** A member read: it in A, what lent it in B over the receiver, all else as it
      was. */
  predicate ReadInto(s: State, i: Instruction, hit: Hit, t: State) {
    && s.frames != [] && |t.slots| == |s.slots| && t == s.(slots := t.slots)
    && var base := s.frames[|s.frames| - 1].base;
       forall j | 0 <= j < |s.slots| ::
         t.slots[j] == if j == base + i.a then hit.value
                       else if j == base + i.b && hit.lent.Some? then hit.lent.value else s.slots[j]
  }

  /** The interpreter reads it, remembered or looked up, and comes to the call it is
      paired with. */
  lemma MemberStepMeans(p: Program, s: State, i: Instruction)
    requires StateOk(p, s) && !s.polling && s.Holds(i.a) && s.Holds(i.b)
    ensures var asked := s.slots[s.frames[|s.frames| - 1].base + i.b];
            match p.read(s.heap, s.frames[|s.frames| - 1].closure.body, i.c, asked)
            case None => Interpreter.CallMemberStep(p, s, i) == Interpreter.Beyond
            case Some(hit) =>
              Interpreter.CallMemberStep(p, s, i).Next? &&
              var t := Interpreter.CallMemberStep(p, s, i).state;
              t.pc == s.pc + 1 && ReadInto(s, i, hit, t.(pc := s.pc))
  {
    hide HeapOk, FrameOk, ReadInto;
    var body := s.Top().closure.body;
    var hit := p.read(s.heap, body, i.c, s.R(i.b));
    assert p.member(s.heap, body, i.c, s.R(i.b)).Some? ==> p.member(s.heap, body, i.c, s.R(i.b)) == hit;
    if hit.Some? {
      assert Interpreter.CallMemberStep(p, s, i) == Interpreter.Next(ReadMember(s, i, hit.value).At(s.pc + 1));
      ReadMemberMeans(s, i, hit.value);
      assert ReadMember(s, i, hit.value).At(s.pc + 1).(pc := s.pc) == ReadMember(s, i, hit.value);
    }
  }

  /** So does compiled code, of what the site remembers (CallRefinement.JitCallMember). */
  lemma ReadMemberMeans(s: State, i: Instruction, hit: Hit)
    requires s.frames != [] && s.Holds(i.a) && s.Holds(i.b)
    ensures ReadInto(s, i, hit, ReadMember(s, i, hit))
  {
  }

  // ------------------------------------------------------------------
  // Returns

  /** A return that only pops its frame: not the run's own, nothing to clean up, no
      coroutine, no operator's answer to derive, no carrier. */
  predicate Poppable(p: Program, s: State) {
    && |s.frames| >= 2 && |s.frames| > p.runBase + 1
    && var top := s.frames[|s.frames| - 1];
       top.cleanups == 0 && !top.coroutine && !top.derive && s.carriers == 0
  }

  /** What a return leaves: the caller's frame on top, going on where it stood, the
      answer in the register it asked for it in -- nil^ where it drops it -- and the
      places from the body's first kept register on closed over. */
  ghost predicate Handed(p: Program, s: State, answer: Value, t: State) {
    && |s.frames| >= 2
    && var last := |s.frames| - 1;
       var top, caller := s.frames[last], s.frames[last - 1];
       && top.closure.body < |p.bodies| && caller.base + top.result < |s.slots|
       && t.frames == s.frames[..last] && t.pc == caller.pc && !t.polling
       && t.slots == s.slots[caller.base + top.result := if top.drop then Value(NilTag, 0) else answer]
       && ClosesFrom(s.heap, t.heap, s.slots, top.base + p.bodies[top.closure.body].kept)
       && t == s.(frames := t.frames, pc := t.pc, polling := t.polling, slots := t.slots, heap := t.heap)
  }

  lemma ReturnStepMeans(p: Program, s: State, answer: Value)
    requires StateOk(p, s)
    ensures if Poppable(p, s) && (s.frames[|s.frames| - 1].drop || !(answer.tag.HostValueTag? || answer.tag.RunTag?))
            then Interpreter.ReturnStep(p, s, answer).Next? &&
                 Handed(p, s, answer, Interpreter.ReturnStep(p, s, answer).state)
            else Interpreter.ReturnStep(p, s, answer) == Interpreter.Beyond
  {
    hide BodiesOk, HeapOk;
    Preservation.TopFacts(p, s);
    if Interpreter.NothingToDrain(p, s) {
      LinkFacts(p, s);
    }
  }

  lemma JitReturnMeans(w: World, s: State, returnsTo: seq<Option<Address>>, callees: Callees, pc: nat, a: Byte, nil: bool)
    requires WorldOk(w) && StateOk(w.p, s) && |returnsTo| == |s.frames| && s.Holds(a)
    ensures var answer := if nil then Value(NilTag, 0) else s.slots[s.frames[|s.frames| - 1].base + a];
            var o := JitReturn(w, s, returnsTo, callees, pc, a, nil).outcome;
            if Poppable(w.p, s) && !answer.tag.HostValueTag?
            then (o.Moved? || (o.Leave? && o.pc == s.frames[|s.frames| - 2].pc)) && Handed(w.p, s, answer, o.state)
            else o == Leave(s, pc)
  {
    hide WorldOk, EnterAt, StateOk, GoBack, Handed, CloseFrom;
    Preservation.TopFacts(w.p, s);
    if Interpreter.NothingToDrain(w.p, s) {
      LinkFacts(w.p, s);
      var answer := if nil then NIL else s.R(a);
      PoppedHands(w.p, s, answer);
      var top, last := s.Top(), |s.frames| - 1;
      var caller := s.frames[last - 1];
      var popped := PoppedTo(w.p, s, answer);
      GoesBackAs(w, popped, caller, returnsTo[last], returnsTo[..last], callees);
    }
  }

  function PoppedTo(p: Program, s: State, answer: Value): State
    requires |s.frames| >= 2 && s.Top().closure.body < |p.bodies|
    requires s.frames[|s.frames| - 2].base + s.Top().result < |s.slots|
  {
    var top, last := s.Top(), |s.frames| - 1;
    s.(heap := CloseFrom(s.heap, s.slots, top.base + ProtoOf(p, top).kept), frames := s.frames[..last])
    .SetR(top.result, if top.drop then NIL else answer).At(s.frames[last - 1].pc)
  }

  lemma PoppedHands(p: Program, s: State, answer: Value)
    requires |s.frames| >= 2 && s.Top().closure.body < |p.bodies|
    requires s.frames[|s.frames| - 2].base + s.Top().result < |s.slots|
    ensures Handed(p, s, answer, PoppedTo(p, s, answer))
  {
  }

  lemma GoesBackAs(w: World, popped: State, caller: Frame, link: Option<Address>, links: seq<Option<Address>>, callees: Callees)
    ensures var o := GoBack(w, popped, caller, link, links, callees).outcome;
            o.state == popped && (o.Moved? || (o.Leave? && o.pc == caller.pc))
  {
    hide EnterAt;
  }
}
