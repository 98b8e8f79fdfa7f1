/** Each laid stencil refines the instructions it stands for: it goes on where
    the interpreter would be, or leaves before it has changed anything
    (jit/stencils.c against src/vm.c). */
module Refinement {
  import opened Wrappers
  import opened Bytecode
  import opened Machine
  import Interpreter
  import Preservation
  import opened Stencils
  import opened Choosing

  /** The interpreter's state after `n` turns, while it stays in reach. */
  ghost function Turns(p: Program, s: State, n: nat): Option<State>
    requires StateOk(p, s)
    ensures Turns(p, s, n).Some? ==> StateOk(p, Turns(p, s, n).value)
    decreases n
  {
    if n == 0 then Some(s)
    else
      match Interpreter.Step(p, s)
      case Next(t) =>
        Preservation.StepKeeps(p, s);
        Turns(p, t, n - 1)
      case _ => None
  }

  lemma {:induction false} TurnsAdd(p: Program, s: State, m: nat, n: nat)
    requires StateOk(p, s) && Turns(p, s, m).Some?
    ensures Turns(p, s, m + n) == Turns(p, Turns(p, s, m).value, n)
    decreases m
  {
    hide StateOk, Interpreter.Step;
    if m > 0 {
      Preservation.StepKeeps(p, s);
      TurnsAdd(p, Interpreter.Step(p, s).state, m - 1, n);
    }
  }

  /** What the holes of the piece of pc carry. */
  function HolesOf(chunk: Chunk, pc: nat): Holes
    requires ChunkOk(chunk) && pc < |chunk.code|
  {
    var i := chunk.code[pc];
    Holes(i.a, i.b, i.c, Settled(chunk, pc).k, pc, Settled(chunk, pc).work)
  }

  /** A state at the boundary of the instruction at pc. */
  ghost predicate AtInstruction(p: Program, s: State) {
    StateOk(p, s) && !s.polling && s.pc < |ChunkOf(p, s).code|
  }

  /** One where the interpreter is about to run it: nothing waits to be seen to
      first. */
  ghost predicate Standing(p: Program, s: State) {
    AtInstruction(p, s) && !s.Interrupted()
  }

  /** Left whole, but for a step the collector took, and what it held back, before
      the work was refused: the interpreter's own turn there is out of reach. */
  ghost predicate HeldBack(p: Program, s: State, t: State, pc: nat)
    requires StateOk(p, s)
  {
    && pc == s.pc < |ChunkOf(p, s).code| && ChunkOf(p, s).code[pc].op.InC?
    && t == s.Polled(Poll(t.collector, t.pending)) && s.collector < t.collector
    && Interpreter.Step(p, s) == Interpreter.Beyond
  }

  /** What a stencil's outcome must be, against the interpreter's turns. */
  ghost predicate Refines(p: Program, s: State, choice: Choice, o: Outcome, n: nat)
    requires StateOk(p, s)
  {
    match o
    case Continue(t) => n > 0 && Turns(p, s, n) == Some(t.At(choice.next))
    case Target(t) => n > 0 && choice.target >= 0 && Turns(p, s, n) == Some(t.At(choice.target))
    case Leave(t, pc) => (t == s && pc == s.pc) || HeldBack(p, s, t, pc)
    case Moved(_, _) => false
  }

  lemma OneTurn(p: Program, s: State, t: State)
    requires StateOk(p, s) && Interpreter.Step(p, s) == Interpreter.Next(t)
    ensures Turns(p, s, 1) == Some(t) && StateOk(p, t)
  {
    Preservation.StepKeeps(p, s);
    assert Turns(p, t, 0) == Some(t);
  }

  lemma TwoTurns(p: Program, s: State, t: State, u: State)
    requires StateOk(p, s) && Interpreter.Step(p, s) == Interpreter.Next(t)
    requires StateOk(p, t) ==> Interpreter.Step(p, t) == Interpreter.Next(u)
    ensures Turns(p, s, 2) == Some(u) && StateOk(p, u)
  {
    Preservation.StepKeeps(p, s);
    OneTurn(p, t, u);
    assert Turns(p, s, 2) == Turns(p, t, 1);
  }

  lemma WindowHeld(p: Program, s: State)
    requires AtInstruction(p, s)
    ensures var chunk := ChunkOf(p, s);
            InWindow(s, Settled(chunk, s.pc).stencil, HolesOf(chunk, s.pc))
  {
    var chunk := ChunkOf(p, s);
    Preservation.TopFacts(p, s);
  }

  // ------------------------------------------------------------------
  // Instructions that write one register

  predicate WritesOnly(op: Op) {
    op.LoadK? || op.LoadNil? || op.LoadBool? || op.Move? || op.Arith? || op.Env? || op.IsNil? ||
    op.Not? || op.This? || op.GetUpval? || op.GetIndex? || op.GetElement?
  }

  lemma WriterRefines(p: Program, s: State)
    requires Standing(p, s) && WritesOnly(ChunkOf(p, s).code[s.pc].op)
    requires !Settled(ChunkOf(p, s), s.pc).stencil.Exit?
    ensures var chunk := ChunkOf(p, s);
            var choice := Settled(chunk, s.pc);
            && InWindow(s, choice.stencil, HolesOf(chunk, s.pc))
            && choice.next == s.pc + 1
            && !choice.stencil.Call? && !choice.stencil.Return? && !choice.stencil.ReturnNil?
            && Refines(p, s, choice, Run(p, s, choice.stencil, HolesOf(chunk, s.pc)), 1)
  {
    var chunk := ChunkOf(p, s);
    var i := chunk.code[s.pc];
    Preservation.TopFacts(p, s);
    var choice := Settled(chunk, s.pc);
    assert choice == Choose(chunk, s.pc);
    WriterAnswer(p, s, i);
    hide Run, Choose, Settled, Interpreter.Answer;
    var o := Run(p, s, choice.stencil, HolesOf(chunk, s.pc));
    if o.Continue? {
      OneTurn(p, s, o.state.At(s.pc + 1));
    }
  }

  lemma WriterAnswer(p: Program, s: State, i: Instruction)
    requires Standing(p, s) && i == ChunkOf(p, s).code[s.pc] && WritesOnly(i.op)
    requires !Settled(ChunkOf(p, s), s.pc).stencil.Exit?
    ensures var chunk := ChunkOf(p, s);
            var choice := Settled(chunk, s.pc);
            && InWindow(s, choice.stencil, HolesOf(chunk, s.pc))
            && choice == Choose(chunk, s.pc) && choice.next == s.pc + 1
            && !choice.stencil.Call? && !choice.stencil.Return? && !choice.stencil.ReturnNil?
            && match Run(p, s, choice.stencil, HolesOf(chunk, s.pc))
               case Continue(t) =>
                 && Interpreter.Answer(p, s, i).Some?
                 && s.Holds(i.a)
                 && t == s.SetR(i.a, Interpreter.Answer(p, s, i).value)
               case Leave(t, pc) => t == s && pc == s.pc
               case _ => false
  {
    var chunk := ChunkOf(p, s);
    Preservation.TopFacts(p, s);
    assert Settled(chunk, s.pc) == Choose(chunk, s.pc);
  }

  // ------------------------------------------------------------------
  // Comparisons, alone and with the JUMP_FALSE they take in

  predicate Compares(op: Op) {
    op.Order? || op.Equality?
  }

  /** A comparison's stencil writes the answer the interpreter writes. */
  lemma CompareAnswer(p: Program, s: State, i: Instruction) returns (held: bool)
    requires Standing(p, s) && i == ChunkOf(p, s).code[s.pc] && Compares(i.op)
    requires !Settled(ChunkOf(p, s), s.pc).stencil.Exit?
    ensures var chunk := ChunkOf(p, s);
            var choice := Settled(chunk, s.pc);
            var h := HolesOf(chunk, s.pc);
            && InWindow(s, choice.stencil, h)
            && choice == Choose(chunk, s.pc)
            && (choice.stencil.Order? || choice.stencil.Equality?)
            && choice.stencil.fused == TakesJumpFalse(chunk, s.pc)
            && choice == Comparing(chunk, s.pc, choice.stencil, choice.stencil, choice.k)
            && h.a == i.a && s.Holds(i.a)
            && match Run(p, s, choice.stencil, h)
               case Leave(t, pc) => t == s && pc == s.pc
               case o =>
                 && o == Answered(s, h, held, choice.stencil.fused)
                 && Interpreter.Answer(p, s, i) == Some(OfBool(held))
  {
    var chunk := ChunkOf(p, s);
    Preservation.TopFacts(p, s);
    var choice := Settled(chunk, s.pc);
    assert choice == Choose(chunk, s.pc);
    held := Interpreter.Answer(p, s, i).Some? && Interpreter.Answer(p, s, i).value.Truth();
  }

  /** The JUMP_FALSE that reads an answer just written, forward. */
  lemma TakesTheJump(p: Program, s: State, held: bool)
    requires Standing(p, s) && TakesJumpFalse(ChunkOf(p, s), s.pc)
    requires ChunkOf(p, s).code[s.pc].a < ChunkOf(p, s).registers
    ensures var chunk := ChunkOf(p, s);
            var a := chunk.code[s.pc].a;
            && s.Holds(a)
            && var t := s.SetR(a, OfBool(held)).At(s.pc + 1);
               var target := JumpTarget(s.pc + 1, chunk.code[s.pc + 1]);
               && StateOk(p, t)
               && (held ==> Interpreter.Step(p, t) == Interpreter.Next(t.At(s.pc + 2)))
               && (!held && 0 <= target <= |chunk.code| ==>
                     Interpreter.Step(p, t) == Interpreter.Next(t.At(target)))
  {
    var chunk := ChunkOf(p, s);
    Preservation.TopFacts(p, s);
    var a := chunk.code[s.pc].a;
    var t := s.SetR(a, OfBool(held)).At(s.pc + 1);
    Preservation.SameFrames(p, s, t);
  }

  lemma CompareRefines(p: Program, s: State) returns (n: nat)
    requires Standing(p, s) && Compares(ChunkOf(p, s).code[s.pc].op)
    requires !Settled(ChunkOf(p, s), s.pc).stencil.Exit?
    ensures var chunk := ChunkOf(p, s);
            var choice := Settled(chunk, s.pc);
            && InWindow(s, choice.stencil, HolesOf(chunk, s.pc))
            && !choice.stencil.Call? && !choice.stencil.Return? && !choice.stencil.ReturnNil?
            && Refines(p, s, choice, Run(p, s, choice.stencil, HolesOf(chunk, s.pc)), n)
  {
    hide Run, Settled, Choose, Interpreter.Answer, Interpreter.Step, Turns, StateOk;
    Preservation.TopFacts(p, s);
    var chunk := ChunkOf(p, s);
    var i := chunk.code[s.pc];
    SettledBounds(chunk, s.pc);
    var held := CompareAnswer(p, s, i);
    n := 1;
    ComparedTurn(p, s, held);
    var choice := Settled(chunk, s.pc);
    var o := Run(p, s, choice.stencil, HolesOf(chunk, s.pc));
    if !o.Leave? {
      var t := s.SetR(i.a, OfBool(held));
      if choice.stencil.fused {
        TakesTheJump(p, s, held);
        n := 2;
        TwoTurns(p, s, t.At(s.pc + 1), t.At(if held then choice.next else choice.target));
      } else {
        OneTurn(p, s, t.At(s.pc + 1));
      }
    }
  }

  lemma ComparedTurn(p: Program, s: State, held: bool)
    requires Standing(p, s) && Compares(ChunkOf(p, s).code[s.pc].op)
    ensures var i := ChunkOf(p, s).code[s.pc];
            && s.Holds(i.a)
            && (Interpreter.Answer(p, s, i) == Some(OfBool(held)) ==>
                  Interpreter.Step(p, s) == Interpreter.Next(s.SetR(i.a, OfBool(held)).At(s.pc + 1)))
  {
    Preservation.TopFacts(p, s);
  }

  // ------------------------------------------------------------------
  // Jumps and loops

  predicate Jumps(op: Op) {
    op.Jump? || op.JumpFalse? || op.ForLoop?
  }

  /** The slice poll a turn ends with is the one the stencil asked before it. */
  lemma PollTurn(p: Program, s: State)
    requires StateOk(p, s) && s.polling && s.steps != 1
    ensures Interpreter.Step(p, s) == Interpreter.Next(Counted(s).(polling := false))
  {
  }

  /** `u` is the state a jump that polls is polled in. */
  lemma JumpTurn(p: Program, s: State) returns (polls: bool, u: State)
    requires Standing(p, s) && Jumps(ChunkOf(p, s).code[s.pc].op)
    requires !Settled(ChunkOf(p, s), s.pc).stencil.Exit?
    ensures var chunk := ChunkOf(p, s);
            var i := chunk.code[s.pc];
            var choice := Settled(chunk, s.pc);
            && InWindow(s, choice.stencil, HolesOf(chunk, s.pc))
            && choice.next == s.pc + 1 && choice.target == JumpTarget(s.pc, i) && 0 <= choice.target <= |chunk.code|
            && !choice.stencil.Call? && !choice.stencil.Return? && !choice.stencil.ReturnNil?
            && match Run(p, s, choice.stencil, HolesOf(chunk, s.pc))
               case Leave(t, pc) => t == s && pc == s.pc
               case Continue(t) => Interpreter.Step(p, s) == Interpreter.Next(t.At(s.pc + 1))
               case Target(t) =>
                 if polls then
                   && u.steps == s.steps != 1 && t == Counted(u)
                   && Interpreter.Step(p, s) == Interpreter.Next(u.(pc := choice.target, polling := true))
                 else Interpreter.Step(p, s) == Interpreter.Next(t.At(choice.target))
               case Moved(_, _) => false
  {
    var chunk := ChunkOf(p, s);
    var i := chunk.code[s.pc];
    Preservation.TopFacts(p, s);
    var choice := Settled(chunk, s.pc);
    assert choice == Choose(chunk, s.pc);
    polls, u := choice.stencil.JumpBack? || choice.stencil.JumpFalseBack?, s;
    if i.op.ForLoop? {
      u := LoopTurn(p, s);
      polls := true;
    }
  }

  lemma LoopTurn(p: Program, s: State) returns (u: State)
    requires Standing(p, s) && ChunkOf(p, s).code[s.pc].op.ForLoop?
    requires !Settled(ChunkOf(p, s), s.pc).stencil.Exit?
    ensures var chunk := ChunkOf(p, s);
            var i := chunk.code[s.pc];
            var choice := Settled(chunk, s.pc);
            && InWindow(s, choice.stencil, HolesOf(chunk, s.pc)) && s.Holds(i.a)
            && choice.stencil == Stencil.ForLoop(i.op.down)
            && match Run(p, s, choice.stencil, HolesOf(chunk, s.pc))
               case Leave(t, pc) => t == s && pc == s.pc
               case Continue(t) => Interpreter.Step(p, s) == Interpreter.Next(t.At(s.pc + 1))
               case Target(t) =>
                 && u.steps == s.steps != 1 && t == Counted(u)
                 && Interpreter.Step(p, s) == Interpreter.Next(u.(pc := choice.target, polling := true))
               case Moved(_, _) => false
  {
    var chunk := ChunkOf(p, s);
    var i := chunk.code[s.pc];
    Preservation.TopFacts(p, s);
    var choice := Settled(chunk, s.pc);
    assert choice == Choose(chunk, s.pc);
    var o := Run(p, s, choice.stencil, HolesOf(chunk, s.pc));
    u := s;
    if o.Target? {
      var n := Interpreter.Exact(if i.op.down then Sub else Add, s.R(i.a).Integer(), s.R(i.a + 2).Integer());
      u := s.SetR(i.a, OfInteger(n.value));
    }
  }

  lemma JumpRefines(p: Program, s: State) returns (n: nat)
    requires Standing(p, s) && Jumps(ChunkOf(p, s).code[s.pc].op)
    requires !Settled(ChunkOf(p, s), s.pc).stencil.Exit?
    ensures var chunk := ChunkOf(p, s);
            var choice := Settled(chunk, s.pc);
            && InWindow(s, choice.stencil, HolesOf(chunk, s.pc))
            && !choice.stencil.Call? && !choice.stencil.Return? && !choice.stencil.ReturnNil?
            && Refines(p, s, choice, Run(p, s, choice.stencil, HolesOf(chunk, s.pc)), n)
  {
    var chunk := ChunkOf(p, s);
    Preservation.TopFacts(p, s);
    var polls, u := JumpTurn(p, s);
    hide Run, Settled, Interpreter.Step, Turns, StateOk;
    var choice := Settled(chunk, s.pc);
    n := 1;
    match Run(p, s, choice.stencil, HolesOf(chunk, s.pc)) {
      case Continue(t) => OneTurn(p, s, t.At(choice.next));
      case Target(t) =>
        if polls {
          n := 2;
          var polled := u.(pc := choice.target, polling := true);
          Preservation.StepKeeps(p, s);
          PollTurn(p, polled);
          TwoTurns(p, s, polled, t.At(choice.target));
        } else {
          OneTurn(p, s, t.At(choice.target));
        }
      case _ =>
    }
  }

  // ------------------------------------------------------------------
  // Work done in C, and everything left to the interpreter

  lemma InPlaceRefines(p: Program, s: State)
    requires Standing(p, s) && ChunkOf(p, s).code[s.pc].op.InC?
    ensures var chunk := ChunkOf(p, s);
            var choice := Settled(chunk, s.pc);
            && InWindow(s, choice.stencil, HolesOf(chunk, s.pc))
            && choice.stencil.InPlace?
            && Refines(p, s, choice, Run(p, s, choice.stencil, HolesOf(chunk, s.pc)), 1)
  {
    hide Run, Settled, Interpreter.Step, StateOk;
    InPlaceTurn(p, s);
    Preservation.TopFacts(p, s);
    var chunk := ChunkOf(p, s);
    var o := Run(p, s, Settled(chunk, s.pc).stencil, HolesOf(chunk, s.pc));
    if o.Continue? {
      OneTurn(p, s, o.state.At(s.pc + 1));
    }
  }

  lemma InPlaceTurn(p: Program, s: State)
    requires Standing(p, s) && ChunkOf(p, s).code[s.pc].op.InC?
    ensures var chunk := ChunkOf(p, s);
            var choice := Settled(chunk, s.pc);
            && InWindow(s, choice.stencil, HolesOf(chunk, s.pc))
            && choice.stencil.InPlace? && choice.next == s.pc + 1
            && match Run(p, s, choice.stencil, HolesOf(chunk, s.pc))
               case Continue(t) => Interpreter.Step(p, s) == Interpreter.Next(t.At(s.pc + 1))
               case Leave(t, pc) => (t == s && pc == s.pc) || HeldBack(p, s, t, pc)
               case _ => false
  {
    hide CloseFrom, CloseAt, ClosureOk, FrameOk, LinkOk;
    Preservation.TopFacts(p, s);
    var chunk := ChunkOf(p, s);
    assert Settled(chunk, s.pc) == Choose(chunk, s.pc);
    assert s.At(s.pc) == s;
  }

  predicate StaysInFrame(st: Stencil) {
    !st.Call? && !st.Return? && !st.ReturnNil?
  }

  /** Every stencil that stays in its frame, from every state: going on is where
      the interpreter would be after `n` turns -- one for an instruction, one
      more for the slice poll and for the JUMP_FALSE taken in -- and leaving
      answers the instruction's own pc with nothing changed -- but for a disposal
      the collector's poll held back before work that was then refused. */
  lemma StencilRefines(p: Program, s: State) returns (n: nat)
    requires Standing(p, s)
    requires StaysInFrame(Settled(ChunkOf(p, s), s.pc).stencil)
    ensures var chunk := ChunkOf(p, s);
            var choice := Settled(chunk, s.pc);
            && InWindow(s, choice.stencil, HolesOf(chunk, s.pc))
            && Refines(p, s, choice, Run(p, s, choice.stencil, HolesOf(chunk, s.pc)), n)
  {
    var chunk := ChunkOf(p, s);
    Preservation.TopFacts(p, s);
    var op := chunk.code[s.pc].op;
    n := 1;
    if Settled(chunk, s.pc).stencil.Exit? {
      WindowHeld(p, s);
    } else if WritesOnly(op) {
      WriterRefines(p, s);
    } else if Compares(op) {
      n := CompareRefines(p, s);
    } else if Jumps(op) {
      n := JumpRefines(p, s);
    } else {
      InPlaceRefines(p, s);
    }
  }
}
