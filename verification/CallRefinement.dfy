/** Calls and returns made by compiled code against the interpreter's own
    (jit/jit.c, jit_call and jit_return; src/vm.c, script_call and RETURN). */
module CallRefinement {
  import opened Wrappers
  import opened Bytecode
  import opened Machine
  import Interpreter
  import Preservation
  import opened Stencils
  import opened Choosing
  import opened Layout
  import opened Calls
  import opened Refinement

  /** What leaving compiled code hands the interpreter, to go on at `pc` with.

      - The state it would have reached itself, at that pc.
      - Or, at a body's entry with the slice about to run out or the traps word
        set: the state it would have reached, except that it would have polled
        the slice there and is not going to (see EntryPollIsSkipped).
      - Or, a CALLMEMBER whose call was refused after its member was read: the
        state it would have reached one instruction later, standing at the
        CALLMEMBER again, which reads the same again (see RereadIsHarmless).
      - Or, work refused after a step of the collector: the state it would have
        reached, where a disposal may now go first. */
  ghost predicate HandsOver(p: Program, s: State, t: State, pc: nat, n: nat)
    requires StateOk(p, s)
  {
    Clean(p, s, t, pc, n) || AtEntry(p, s, t, pc, n) || Reread(p, s, t, pc, n) || (n == 0 && HeldBack(p, s, t, pc))
  }

  ghost predicate Clean(p: Program, s: State, t: State, pc: nat, n: nat)
    requires StateOk(p, s)
  {
    Turns(p, s, n) == Some(t.At(pc))
  }

  ghost predicate AtEntry(p: Program, s: State, t: State, pc: nat, n: nat)
    requires StateOk(p, s)
  {
    pc == 0 && MustLeave(t) && Turns(p, s, n) == Some(t.(pc := 0, polling := true))
  }

  ghost predicate Reread(p: Program, s: State, t: State, pc: nat, n: nat)
    requires StateOk(p, s)
  {
    && pc == s.pc < |ChunkOf(p, s).code|
    && ChunkOf(p, s).code[pc].op.CallMember?
    && n == 1 && Turns(p, s, 1) == Some(t.At(pc + 1))
  }

  // ------------------------------------------------------------------
  // Calls

  /** Where the interpreter stands as it makes the call compiled code makes here: at
      the call, the member of a CALLMEMBER read. */
  function CallState(p: Program, s: State): State
    requires s.frames != [] && s.Top().closure.body < |p.bodies| && s.pc < |ChunkOf(p, s).code|
    requires var i := ChunkOf(p, s).code[s.pc]; i.op.CallMember? ==> s.Holds(i.a) && s.Holds(i.b)
  {
    var i := ChunkOf(p, s).code[s.pc];
    if !i.op.CallMember? then s
    else
      match p.member(s.heap, s.Top().closure.body, i.c, s.R(i.b))
      case None => s
      case Some(hit) => ReadMember(s, i, hit).At(s.pc + 1)
  }

  /** The same outcome, the collector having been polled on the way. */
  function AsPolled(o: Outcome, poll: Poll): Outcome {
    match o
    case Moved(t, to) => Moved(t.Polled(poll), to)
    case Leave(t, pc) => Leave(t.Polled(poll), pc)
    case _ => o
  }

  /** Entering the body the machine has moved to: `moved` itself where the poll
      is left to the interpreter, and `moved` with its turn counted elsewhere. */
  ghost predicate EntersFrom(moved: State, o: Outcome) {
    match o
    case Leave(t, at) => at == 0 && t == if MustLeave(moved) then moved else Counted(moved)
    case Moved(t, _) => !MustLeave(moved) && t == Counted(moved)
    case _ => false
  }

  /** A call refuses with nothing changed, or moves the machine the way the
      interpreter's call instruction does, up to the slice's poll, but for the
      collector's poll, which only the interpreter makes. `v` is the same state
      standing at the call instruction. */
  lemma EnterCallRefines(w: World, callees: Callees, s: State, returnsTo: seq<Option<Address>>,
                         pc: nat, i: Instruction, v: State)
    returns (moved: Option<State>)
    requires WorldOk(w) && CalleesOk(w, callees) && StateOk(w.p, s) && |returnsTo| == |s.frames| && i.op.Call?
    requires StateOk(w.p, v) && v == s.At(v.pc)
    requires s.Top().closure.body in w.codes && pc < |ChunkOf(w.p, s).code|
    requires i.a < ChunkOf(w.p, s).registers && s.Holds(i.a)
    requires SiteInstruction(ChunkOf(w.p, s), pc) == Some(i)
    ensures var o := EnterCall(w, callees, s, returnsTo, pc, i, v.pc + 1).outcome;
            match moved
            case None => o == Leave(s, pc)
            case Some(m) =>
              && EntersFrom(m, o) && m.At(0) == m && m.collector == s.collector
              && Interpreter.CallStep(w.p, v, i) == Interpreter.Next(m.Polled(w.p.collect(v)).(polling := true))
  {
    hide EnterBody, EnterCall, MovedInto, StateOk, WorldOk, CalleesOk, Interpreter.CallStep, ResumeAddress;
    Preservation.TopFacts(w.p, s);
    moved := None;
    EnterCallIs(w, callees, s, returnsTo, pc, i, v.pc + 1);
    var closure := Interpreter.CalledClosure(s.heap, s.R(i.a));
    if closure.Some? {
      ClosureHeld(w.p, s, i, closure.value);
      var callee := w.p.bodies[closure.value.body];
      if Interpreter.PlainCall(i, callee) && HasRoom(w.p, s, i, callee) {
        CallStepMoves(w.p, s, i, closure.value, v);
        EnterBodyFrom(w, callees, MovedInto(w.p, s, i, closure.value, v.pc + 1),
                      Links(w, s, returnsTo, pc, i), (s.Top().closure.body, pc), closure.value.body);
        moved := Some(MovedInto(w.p, s, i, closure.value, v.pc + 1));
      }
    }
  }

  /** A call goes through exactly where the site's checks pass and there is room:
      a remembered body passes them, or it would not be remembered. */
  lemma EnterCallIs(w: World, callees: Callees, s: State, returnsTo: seq<Option<Address>>,
                    pc: nat, i: Instruction, resume: nat)
    requires WorldOk(w) && CalleesOk(w, callees) && StateOk(w.p, s) && |returnsTo| == |s.frames| && i.op.Call?
    requires s.Top().closure.body in w.codes && pc < |ChunkOf(w.p, s).code|
    requires i.a < ChunkOf(w.p, s).registers && s.Holds(i.a)
    requires SiteInstruction(ChunkOf(w.p, s), pc) == Some(i)
    ensures var m := EnterCall(w, callees, s, returnsTo, pc, i, resume);
            match Interpreter.CalledClosure(s.heap, s.R(i.a))
            case None => m == Moving(Leave(s, pc), returnsTo, callees)
            case Some(closure) =>
              && closure.body < |w.p.bodies|
              && var callee := w.p.bodies[closure.body];
                 if Interpreter.PlainCall(i, callee) && HasRoom(w.p, s, i, callee) then
                   m == EnterBody(w, callees, MovedInto(w.p, s, i, closure, resume),
                                  Links(w, s, returnsTo, pc, i), (s.Top().closure.body, pc), closure.body)
                 else m == Moving(Leave(s, pc), returnsTo, callees)
  {
    var closure := Interpreter.CalledClosure(s.heap, s.R(i.a));
    if closure.Some? {
      ClosureHeld(w.p, s, i, closure.value);
      var site := (s.Top().closure.body, pc);
      if site in callees && callees[site] == closure.value.body {
        assert CalleeOk(w, site, closure.value.body);
      }
      hide EnterBody, MovedInto, StateOk, WorldOk, CalleesOk, ResumeAddress, HasRoom;
    }
  }

  lemma ClosureHeld(p: Program, s: State, i: Instruction, closure: Closure)
    requires StateOk(p, s) && s.Holds(i.a)
    requires Interpreter.CalledClosure(s.heap, s.R(i.a)) == Some(closure)
    ensures ClosureOk(p, s.heap, closure)
  {
  }

  /** Where the site's checks pass and the machine has room, the interpreter's
      call instruction moves the machine the same way. */
  lemma CallStepMoves(p: Program, s: State, i: Instruction, closure: Closure, v: State)
    requires StateOk(p, s) && StateOk(p, v) && v == s.At(v.pc) && i.op.Call? && s.Holds(i.a)
    requires Interpreter.CalledClosure(s.heap, s.R(i.a)) == Some(closure) && closure.body < |p.bodies|
    requires Interpreter.PlainCall(i, p.bodies[closure.body]) && HasRoom(p, s, i, p.bodies[closure.body])
    ensures var m := MovedInto(p, s, i, closure, v.pc + 1);
            && m.At(0) == m && m.collector == s.collector
            && Interpreter.CallStep(p, v, i) == Interpreter.Next(m.Polled(p.collect(v)).(polling := true))
  {
    hide ClearScratch, MoveDown, CloseFrom, StateOk;
  }

  lemma EnterBodyFrom(w: World, callees: Callees, moved: State, links: seq<Option<Address>>,
                      site: (nat, nat), callee: nat)
    requires WorldOk(w) && CalleesOk(w, callees)
    ensures EntersFrom(moved, EnterBody(w, callees, moved, links, site, callee).outcome)
  {
    hide WorldOk, CalleesOk, EnterAt;
  }

  /** The call from a state the interpreter stands in, `n` turns after `s`. */
  lemma CallFrom(p: Program, s: State, n: nat, v: State, i: Instruction, moved: State, o: Outcome) returns (total: nat)
    requires StateOk(p, s) && Turns(p, s, n) == Some(v)
    requires Standing(p, v) && ChunkOf(p, v).code[v.pc] == i && i.op.Call? && v.Holds(i.a)
    requires Interpreter.CallStep(p, v, i) == Interpreter.Next(moved.Polled(p.collect(v)).(polling := true))
    requires EntersFrom(moved, o) && moved.At(0) == moved
    ensures HandsOn(p, s, AsPolled(o, p.collect(v)), total)
    ensures Interpreter.Step(p, v) == Interpreter.Next(moved.Polled(p.collect(v)).(polling := true))
  {
    hide StateOk, Turns, Interpreter.Step, Interpreter.CallStep;
    var polled := moved.Polled(p.collect(v)).(polling := true);
    CallTurn(p, v, i, polled);
    if MustLeave(moved) && o.Leave? {
      total := n + 1;
      TurnsAdd(p, s, n, 1);
      assert polled == moved.Polled(p.collect(v)).(pc := 0, polling := true);
    } else {
      PolledTwice(p, v, polled);
      total := n + 2;
      TurnsAdd(p, s, n, 2);
    }
  }

  lemma CallTurn(p: Program, v: State, i: Instruction, polled: State)
    requires Standing(p, v) && ChunkOf(p, v).code[v.pc] == i && i.op.Call? && v.Holds(i.a)
    requires Interpreter.CallStep(p, v, i) == Interpreter.Next(polled)
    ensures Interpreter.Step(p, v) == Interpreter.Next(polled)
    ensures Turns(p, v, 1) == Some(polled) && StateOk(p, polled)
  {
    hide Interpreter.CallStep;
    assert Interpreter.Step(p, v) == Interpreter.Next(polled);
    OneTurn(p, v, polled);
  }

  lemma PolledTwice(p: Program, v: State, polled: State)
    requires StateOk(p, v) && Interpreter.Step(p, v) == Interpreter.Next(polled)
    requires StateOk(p, polled) && polled.polling && polled.steps != 1
    ensures Turns(p, v, 2) == Some(Counted(polled).(polling := false))
  {
    PollTurn(p, polled);
    hide Interpreter.Step, StateOk, Turns;
    TwoTurns(p, v, polled, Counted(polled).(polling := false));
  }

  lemma LeavesAsFound(p: Program, s: State)
    requires AtInstruction(p, s)
    ensures HandsOver(p, s, s, s.pc, 0)
  {
    assert s.At(s.pc) == s;
  }

  /** The member read alone is the CALLMEMBER's own turn. */
  lemma MemberTurn(p: Program, s: State, i: Instruction, hit: Hit)
    requires Standing(p, s) && i == ChunkOf(p, s).code[s.pc] && i.op.CallMember?
    requires Interpreter.Paired(ChunkOf(p, s), s.pc)
    requires i.a < ChunkOf(p, s).registers && i.b < ChunkOf(p, s).registers
    requires s.Holds(i.a) && s.Holds(i.b)
    requires p.member(s.heap, s.Top().closure.body, i.c, s.R(i.b)) == Some(hit)
    ensures var v := ReadMember(s, i, hit).At(s.pc + 1);
            && Interpreter.Step(p, s) == Interpreter.Next(v)
            && Turns(p, s, 1) == Some(v) && Standing(p, v)
            && v.Top() == s.Top() && ChunkOf(p, v) == ChunkOf(p, s)
            && forall r | 0 <= r < ChunkOf(p, s).registers :: v.Holds(r)
  {
    ReadMemberOk(p, s, i, hit);
    var v := ReadMember(s, i, hit).At(s.pc + 1);
    assert Interpreter.Step(p, s) == Interpreter.Next(v);
    OneTurn(p, s, v);
    Preservation.TopFacts(p, v);
  }

  ghost predicate HandsOn(p: Program, s: State, o: Outcome, n: nat)
    requires StateOk(p, s)
  {
    match o
    case Moved(t, _) => n > 0 && !t.polling && Turns(p, s, n) == Some(t)
    case Leave(t, pc) => HandsOver(p, s, t, pc, n)
    case _ => false
  }

  /** What comes of a call made here: refused, the machine is as it was, or has read
      the member it would have called; made, it has moved to where the
      interpreter's call moves it, `n` turns on, had it polled the collector as
      that does. */
  ghost predicate CallMade(p: Program, s: State, o: Outcome, v: State, moved: Option<State>, n: nat)
    requires StateOk(p, s)
  {
    match moved
    case None =>
      && o.Leave? && o.pc == s.pc
      && ((n == 0 && o.state == s) || (n == 1 && Reread(p, s, o.state, s.pc, 1)))
    case Some(m) =>
      && EntersFrom(m, o) && m.At(0) == m && m.collector == s.collector
      && StateOk(p, v) && Interpreter.Step(p, v) == Interpreter.Next(m.Polled(p.collect(v)).(polling := true))
      && (v == s || (v.pc > 0 && !v.polling && v.collector == s.collector && Turns(p, s, 1) == Some(v)))
      && HandsOn(p, s, AsPolled(o, p.collect(v)), n)
  }

  lemma PlainCallRefines(w: World, callees: Callees, s: State, returnsTo: seq<Option<Address>>, i: Instruction)
    returns (n: nat, moved: Option<State>)
    requires WorldOk(w) && CalleesOk(w, callees) && Standing(w.p, s) && |returnsTo| == |s.frames|
    requires s.Top().closure.body in w.codes && i == ChunkOf(w.p, s).code[s.pc] && i.op.Call?
    requires i.a < ChunkOf(w.p, s).registers && s.Holds(i.a)
    ensures CallMade(w.p, s, EnterCall(w, callees, s, returnsTo, s.pc, i, s.pc + 1).outcome, s, moved, n)
  {
    hide StateOk, EnterCall, Turns, WorldOk, CalleesOk, HandsOn, Interpreter.Step;
    assert s.At(s.pc) == s;
    moved := EnterCallRefines(w, callees, s, returnsTo, s.pc, i, s);
    var o := EnterCall(w, callees, s, returnsTo, s.pc, i, s.pc + 1).outcome;
    n := 0;
    if moved.Some? {
      assert Turns(w.p, s, 0) == Some(s) by { NoTurn(w.p, s); }
      n := CallFrom(w.p, s, 0, s, i, moved.value, o);
    }
  }

  lemma NoTurn(p: Program, s: State)
    requires StateOk(p, s)
    ensures Turns(p, s, 0) == Some(s)
  {
  }

  /** The call a member read walks into; `v` stands at the paired call. */
  lemma PairedCallRefines(w: World, callees: Callees, s: State, returnsTo: seq<Option<Address>>,
                          read: State, v: State, paired: Instruction)
    returns (n: nat, moved: Option<State>)
    requires WorldOk(w) && CalleesOk(w, callees) && Standing(w.p, s) && |returnsTo| == |s.frames|
    requires s.Top().closure.body in w.codes && ChunkOf(w.p, s).code[s.pc].op.CallMember?
    requires SiteInstruction(ChunkOf(w.p, s), s.pc) == Some(paired)
    requires StateOk(w.p, read) && v == read.At(s.pc + 1) && Turns(w.p, s, 1) == Some(v) && Standing(w.p, v)
    requires read.Top() == s.Top() && |read.frames| == |s.frames| && read.pc == s.pc && read.collector == s.collector
    requires ChunkOf(w.p, v).code[v.pc] == paired && paired.op.Call?
    requires paired.a < ChunkOf(w.p, read).registers && read.Holds(paired.a)
    ensures CallMade(w.p, s, EnterCall(w, callees, read, returnsTo, s.pc, paired, s.pc + 2).outcome, v, moved, n)
  {
    hide StateOk, EnterCall, Turns, WorldOk, CalleesOk, HandsOn, Interpreter.Step;
    moved := EnterCallRefines(w, callees, read, returnsTo, s.pc, paired, v);
    var o := EnterCall(w, callees, read, returnsTo, s.pc, paired, s.pc + 2).outcome;
    if moved.Some? {
      n := CallFrom(w.p, s, 1, v, paired, moved.value, o);
    } else {
      n := 1;
      assert Reread(w.p, s, read, s.pc, 1);
    }
  }

  lemma MemberHitRefines(w: World, callees: Callees, s: State, returnsTo: seq<Option<Address>>,
                         i: Instruction, hit: Hit) returns (n: nat, moved: Option<State>)
    requires WorldOk(w) && CalleesOk(w, callees) && Standing(w.p, s) && |returnsTo| == |s.frames|
    requires s.Top().closure.body in w.codes && i == ChunkOf(w.p, s).code[s.pc] && i.op.CallMember?
    requires Interpreter.Paired(ChunkOf(w.p, s), s.pc)
    requires i.a < ChunkOf(w.p, s).registers && i.b < ChunkOf(w.p, s).registers
    requires s.Holds(i.a) && s.Holds(i.b)
    requires w.p.member(s.heap, s.Top().closure.body, i.c, s.R(i.b)) == Some(hit)
    ensures var read := ReadMember(s, i, hit);
            var paired := ChunkOf(w.p, s).code[s.pc + 1];
            && StateOk(w.p, read) && |returnsTo| == |read.frames| && ChunkOf(w.p, read) == ChunkOf(w.p, s)
            && read.Top() == s.Top() && paired.op.Call? && paired.a < ChunkOf(w.p, s).registers
            && CallMade(w.p, s, EnterCall(w, callees, read, returnsTo, s.pc, paired, s.pc + 2).outcome,
                        read.At(s.pc + 1), moved, n)
  {
    hide StateOk, EnterCall, Turns, WorldOk, CalleesOk, CallMade, ReadMember, ChunkOk, OperandsOk, Interpreter.Step;
    Preservation.TopFacts(w.p, s);
    SiteFacts(w.p, s, s.pc);
    ReadMemberOk(w.p, s, i, hit);
    MemberTurn(w.p, s, i, hit);
    var read := ReadMember(s, i, hit);
    var paired := ChunkOf(w.p, s).code[s.pc + 1];
    ReadStays(s, i, hit);
    var v := read.At(s.pc + 1);
    assert s.Holds(paired.a);
    assert SiteInstruction(ChunkOf(w.p, s), s.pc) == Some(paired);
    assert ChunkOf(w.p, v) == ChunkOf(w.p, read) == ChunkOf(w.p, s);
    n, moved := PairedCallRefines(w, callees, s, returnsTo, read, v, paired);
  }

  lemma ReadStays(s: State, i: Instruction, hit: Hit)
    requires s.frames != [] && s.Holds(i.a) && s.Holds(i.b)
    ensures var read := ReadMember(s, i, hit);
            && read.pc == s.pc && read.frames == s.frames && |read.slots| == |s.slots|
            && read.collector == s.collector
  {
  }

  /** Every call compiled code makes -- plain, method, tail or through a
      remembered member, its site's body known or asked. */
  lemma JitCallRefines(w: World, callees: Callees, s: State, returnsTo: seq<Option<Address>>)
    returns (n: nat, moved: Option<State>)
    requires WorldOk(w) && CalleesOk(w, callees) && Standing(w.p, s) && |returnsTo| == |s.frames|
    requires s.Top().closure.body in w.codes
    requires SiteInstruction(ChunkOf(w.p, s), s.pc).Some?
    ensures var i := ChunkOf(w.p, s).code[s.pc]; i.op.CallMember? ==> s.Holds(i.a) && s.Holds(i.b)
    ensures CallMade(w.p, s, JitCall(w, callees, s, returnsTo, s.pc).outcome, CallState(w.p, s), moved, n)
  {
    hide EnterCall, Turns, CallMade, JitCall, StateOk, WorldOk, CalleesOk, ReadMember;
    Preservation.TopFacts(w.p, s);
    var chunk := ChunkOf(w.p, s);
    var i := chunk.code[s.pc];
    SiteFacts(w.p, s, s.pc);
    if !i.op.CallMember? {
      n, moved := PlainCallRefines(w, callees, s, returnsTo, i);
      JitCallPlain(w, callees, s, returnsTo, i);
    } else {
      var hit := w.p.member(s.heap, s.Top().closure.body, i.c, s.R(i.b));
      JitCallMember(w, callees, s, returnsTo, i);
      if hit.None? {
        n, moved := 0, None;
        MissLeaves(w.p, s, CallState(w.p, s));
      } else {
        n, moved := MemberHitRefines(w, callees, s, returnsTo, i, hit.value);
      }
    }
  }

  lemma JitCallPlain(w: World, callees: Callees, s: State, returnsTo: seq<Option<Address>>, i: Instruction)
    requires WorldOk(w) && CalleesOk(w, callees) && AtInstruction(w.p, s) && |returnsTo| == |s.frames|
    requires s.Top().closure.body in w.codes && i == ChunkOf(w.p, s).code[s.pc] && i.op.Call?
    requires i.a < ChunkOf(w.p, s).registers
    ensures JitCall(w, callees, s, returnsTo, s.pc) == EnterCall(w, callees, s, returnsTo, s.pc, i, s.pc + 1)
  {
    hide EnterCall;
  }

  lemma JitCallMember(w: World, callees: Callees, s: State, returnsTo: seq<Option<Address>>, i: Instruction)
    requires WorldOk(w) && CalleesOk(w, callees) && AtInstruction(w.p, s) && |returnsTo| == |s.frames|
    requires s.Top().closure.body in w.codes && i == ChunkOf(w.p, s).code[s.pc] && i.op.CallMember?
    requires Interpreter.Paired(ChunkOf(w.p, s), s.pc)
    requires i.a < ChunkOf(w.p, s).registers && i.b < ChunkOf(w.p, s).registers
    requires s.Holds(i.a) && s.Holds(i.b)
    ensures match w.p.member(s.heap, s.Top().closure.body, i.c, s.R(i.b))
            case None => JitCall(w, callees, s, returnsTo, s.pc) == Moving(Leave(s, s.pc), returnsTo, callees)
            case Some(hit) =>
              var read := ReadMember(s, i, hit);
              var paired := ChunkOf(w.p, s).code[s.pc + 1];
              && StateOk(w.p, read) && |returnsTo| == |read.frames| && ChunkOf(w.p, read) == ChunkOf(w.p, s)
              && read.Top() == s.Top() && paired.op.Call? && paired.a < ChunkOf(w.p, s).registers
              && JitCall(w, callees, s, returnsTo, s.pc)
                 == EnterCall(w, callees, read, returnsTo, s.pc, paired, s.pc + 2)
  {
    hide EnterCall, StateOk, ReadMember, WorldOk, CalleesOk, OperandsOk, ChunkOk, FrameOk, LinkOk, ClosureOk;
    Preservation.TopFacts(w.p, s);
    SiteFacts(w.p, s, s.pc);
    var hit := w.p.member(s.heap, s.Top().closure.body, i.c, s.R(i.b));
    if hit.Some? {
      ReadMemberOk(w.p, s, i, hit.value);
    }
  }

  lemma MissLeaves(p: Program, s: State, v: State)
    requires AtInstruction(p, s)
    ensures CallMade(p, s, Leave(s, s.pc), v, None, 0)
  {
  }

  // ------------------------------------------------------------------
  // Returns

  /** The one answer compiled code hands back and the interpreter would not as
      one value: a run of several, which jit_return does not ask about. */
  predicate AnswersRun(p: Program, s: State, a: Byte, nil: bool)
    requires s.frames != [] && s.Holds(a)
  {
    Interpreter.NothingToDrain(p, s) && !nil && !s.Top().drop && s.R(a).tag.RunTag?
  }

  /** How a return compares with the interpreter's: refused with nothing changed,
      or the caller's state with the answer in place, at the caller's own pc. */
  lemma JitReturnRefines(w: World, s: State, returnsTo: seq<Option<Address>>, callees: Callees, a: Byte, nil: bool)
    requires WorldOk(w) && AtInstruction(w.p, s) && |returnsTo| == |s.frames| && s.Holds(a)
    requires !AnswersRun(w.p, s, a, nil)
    ensures match JitReturn(w, s, returnsTo, callees, s.pc, a, nil).outcome
            case Leave(t, pc) =>
              || (t == s && pc == s.pc)
              || (Interpreter.ReturnStep(w.p, s, if nil then NIL else s.R(a)) == Interpreter.Next(t) && t == t.At(pc))
            case Moved(t, _) =>
              Interpreter.ReturnStep(w.p, s, if nil then NIL else s.R(a)) == Interpreter.Next(t) && !t.polling
            case _ => false
  {
    hide CloseFrom, EnterAt, LaidOut, StateOk;
    Preservation.TopFacts(w.p, s);
    if Interpreter.NothingToDrain(w.p, s) {
      LinkFacts(w.p, s);
    }
  }

  predicate IsReturn(i: Instruction) {
    (i.op.Return? && i.b == 0) || i.op.ReturnNil?
  }

  lemma ReturnTurn(p: Program, s: State, t: State)
    requires Standing(p, s) && IsReturn(ChunkOf(p, s).code[s.pc])
    requires ChunkOf(p, s).code[s.pc].a < ChunkOf(p, s).registers
    requires s.Holds(ChunkOf(p, s).code[s.pc].a)
    requires var i := ChunkOf(p, s).code[s.pc];
             Interpreter.ReturnStep(p, s, if i.op.ReturnNil? then NIL else s.R(i.a)) == Interpreter.Next(t)
    ensures Turns(p, s, 1) == Some(t) && StateOk(p, t)
  {
    hide Interpreter.ReturnStep;
    assert Interpreter.Step(p, s) == Interpreter.Next(t);
    OneTurn(p, s, t);
  }

  /** Every return compiled code makes, except of a run of several values. */
  lemma ReturnRefines(w: World, s: State, returnsTo: seq<Option<Address>>, callees: Callees, i: Instruction)
    returns (n: nat)
    requires WorldOk(w) && Standing(w.p, s) && |returnsTo| == |s.frames|
    requires i == ChunkOf(w.p, s).code[s.pc] && IsReturn(i) && i.a < ChunkOf(w.p, s).registers && s.Holds(i.a)
    requires !AnswersRun(w.p, s, i.a, i.op.ReturnNil?)
    ensures HandsOn(w.p, s, JitReturn(w, s, returnsTo, callees, s.pc, i.a, i.op.ReturnNil?).outcome, n)
  {
    hide StateOk, WorldOk, JitReturn, Turns, Interpreter.ReturnStep;
    Preservation.TopFacts(w.p, s);
    JitReturnRefines(w, s, returnsTo, callees, i.a, i.op.ReturnNil?);
    var turn := Interpreter.ReturnStep(w.p, s, if i.op.ReturnNil? then NIL else s.R(i.a));
    n := 0;
    var o := JitReturn(w, s, returnsTo, callees, s.pc, i.a, i.op.ReturnNil?).outcome;
    if o == Leave(s, s.pc) {
      LeavesAsFound(w.p, s);
    } else {
      n := 1;
      ReturnTurn(w.p, s, turn.state);
    }
  }

  // ------------------------------------------------------------------
  // Where handing over is not quite the state the interpreter reaches

  /** Leaving at a body's entry: the interpreter, making the call itself, would
      have polled there. It comes out with the same state exactly when nothing
      is counted and nothing ends -- when the slice has no bound. With a bound,
      the machine keeps a step it would have spent, and a slice on its last step
      goes on instead of ending. */
  lemma EntryPollIsSkipped(p: Program, s: State, t: State, n: nat)
    requires StateOk(p, s) && AtEntry(p, s, t, 0, n)
    ensures var polled := t.(pc := 0, polling := true);
            && StateOk(p, polled)
            && (Interpreter.Step(p, polled) == Interpreter.Next(t.At(0)) <==> t.steps == 0)
            && (t.steps == 1 ==> Interpreter.Step(p, polled).Suspended?)
  {
  }

  /** A CALLMEMBER whose call was refused is run again by the interpreter from the
      state `t` its read left, and stands where it would have stood: what is now
      in the receiver's slot answers the same member, remembered or not, and
      nothing lends it any more. */
  lemma RereadIsHarmless(p: Program, s: State, t: State, pc: nat, n: nat)
    requires Standing(p, s) && Reread(p, s, t, pc, n)
    ensures StateOk(p, t.At(pc)) && Turns(p, t.At(pc), 1) == Turns(p, s, 1) == Some(t.At(pc + 1))
  {
    hide FrameOk, LinkOk, ClosureOk, HeapOk, BodiesOk, Turns, OperandsOk;
    Preservation.TopFacts(p, s);
    SiteRegisters(p, s);
    var i := ChunkOf(p, s).code[s.pc];
    FirstTurn(p, s);
    var hit := MemberHit(p, s, i).value;
    ReadMemberOk(p, s, i, hit);
    ReadStays(s, i, hit);
    var read := ReadMember(s, i, hit);
    assert t.At(pc + 1) == read.At(pc + 1);
    assert t.At(pc) == read;
    MembersHeld(p, s);
    SameHit(p, s, i, hit);
    SameRead(read, i, MemberHit(p, read, i).value);
    MemberStep(p, read, i);
    OneTurn(p, read, read.At(pc + 1));
  }

  /** What the interpreter reads at a CALLMEMBER: what the site remembers, or what
      is found anew. */
  function MemberHit(p: Program, s: State, i: Instruction): Option<Hit>
    requires s.frames != [] && s.Holds(i.b)
  {
    var remembered := p.member(s.heap, s.Top().closure.body, i.c, s.R(i.b));
    if remembered.Some? then remembered else p.read(s.heap, s.Top().closure.body, i.c, s.R(i.b))
  }

  lemma MemberStep(p: Program, s: State, i: Instruction)
    requires Standing(p, s) && i == ChunkOf(p, s).code[s.pc] && i.op.CallMember?
    requires s.Holds(i.a) && s.Holds(i.b)
    ensures Interpreter.Step(p, s) ==
            if Interpreter.Paired(ChunkOf(p, s), s.pc) && MemberHit(p, s, i).Some?
            then Interpreter.Next(ReadMember(s, i, MemberHit(p, s, i).value).At(s.pc + 1)) else Interpreter.Beyond
  {
  }

  lemma SiteRegisters(p: Program, s: State)
    requires AtInstruction(p, s) && ChunkOf(p, s).code[s.pc].op.CallMember?
    ensures var i := ChunkOf(p, s).code[s.pc];
            && i.a < ChunkOf(p, s).registers && i.b < ChunkOf(p, s).registers && i.a != i.b
            && s.Holds(i.a) && s.Holds(i.b)
  {
    Preservation.TopFacts(p, s);
    assert OperandsOk(ChunkOf(p, s), s.pc);
  }

  lemma FirstTurn(p: Program, s: State)
    requires StateOk(p, s) && Turns(p, s, 1).Some?
    ensures Interpreter.Step(p, s) == Interpreter.Next(Turns(p, s, 1).value)
  {
    if Interpreter.Step(p, s).Next? {
      OneTurn(p, s, Interpreter.Step(p, s).state);
    }
  }

  lemma MembersHeld(p: Program, s: State)
    requires StateOk(p, s)
    ensures MembersOk(p)
  {
  }

  /** The receiver's slot holds what lent the member, or still the receiver. */
  lemma SameHit(p: Program, s: State, i: Instruction, hit: Hit)
    requires MembersOk(p) && s.frames != [] && s.Holds(i.a) && s.Holds(i.b) && i.a != i.b
    requires MemberHit(p, s, i) == Some(hit)
    ensures var read := ReadMember(s, i, hit);
            && read.frames == s.frames && read.Holds(i.b) && read.R(i.a) == hit.value
            && MemberHit(p, read, i).Some? && MemberHit(p, read, i).value.value == hit.value
            && (MemberHit(p, read, i).value.lent.Some? ==> MemberHit(p, read, i).value.lent.value == read.R(i.b))
  {
  }

  /** Reading a member changes nothing exactly where both slots hold it already. */
  lemma SameRead(t: State, i: Instruction, hit: Hit)
    requires t.frames != [] && t.Holds(i.a) && t.Holds(i.b) && i.a != i.b
    ensures ReadMember(t, i, hit).At(t.pc + 1) == t.At(t.pc + 1) <==>
            hit.value == t.R(i.a) && (hit.lent.Some? ==> hit.lent.value == t.R(i.b))
  {
    var read := ReadMember(t, i, hit);
    assert read.R(i.a) == hit.value;
    assert hit.lent.Some? ==> read.R(i.b) == hit.lent.value;
    if hit.value == t.R(i.a) && (hit.lent.Some? ==> hit.lent.value == t.R(i.b)) {
      assert read.slots == t.slots;
    }
  }

  /** Why the receiver's slot must not be the callee's: read into its own
      receiver, a member is asked for on itself the second time, and a machine
      whose member carries no such member goes on somewhere else. */
  lemma RereadGoesWrong(p: Program, s: State, i: Instruction, hit: Hit)
    requires StateOk(p, s) && s.Holds(i.a) && i.a == i.b
    requires p.member(s.heap, s.Top().closure.body, i.c, s.R(i.b)) == Some(hit)
    requires p.member(s.heap, s.Top().closure.body, i.c, hit.value).None?
    requires p.read(s.heap, s.Top().closure.body, i.c, hit.value).None?
    requires i.a < ChunkOf(p, s).registers
    ensures Interpreter.CallMemberStep(p, s, i).Next?
    ensures StateOk(p, ReadMember(s, i, hit))
    ensures Interpreter.CallMemberStep(p, ReadMember(s, i, hit), i) == Interpreter.Beyond
  {
    ReadMemberOk(p, s, i, hit);
    assert ReadMember(s, i, hit).R(i.b) == hit.value;
  }

  /** A return with nothing to drain is made by compiled code whatever single
      register it names; the interpreter makes it exactly when that is not the
      head of a run, which it lays out whole in its drain. */
  lemma ReturnOfRunDiffers(w: World, s: State, returnsTo: seq<Option<Address>>, callees: Callees, a: Byte, nil: bool)
    requires WorldOk(w) && AtInstruction(w.p, s) && |returnsTo| == |s.frames| && s.Holds(a)
    requires Interpreter.NothingToDrain(w.p, s) && !(if nil then NIL else s.R(a)).tag.HostValueTag?
    ensures |JitReturn(w, s, returnsTo, callees, s.pc, a, nil).outcome.state.frames| == |s.frames| - 1
    ensures Interpreter.ReturnStep(w.p, s, if nil then NIL else s.R(a)).Next? <==> !AnswersRun(w.p, s, a, nil)
  {
    hide CloseFrom, EnterAt, LaidOut, StateOk;
    Preservation.TopFacts(w.p, s);
    LinkFacts(w.p, s);
  }
}
