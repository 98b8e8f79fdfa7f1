/** Which stencil an instruction is compiled to, and which instructions are laid
    at all (jit/jit.c, "Choosing" and the first half of lay_out). */
module Choosing {
  import opened Wrappers
  import opened Bytecode
  import opened Stencils

  /** `next` and `target` say where the stencil's two ways out lead; `target` is 0
      where it has but one. */
  datatype Choice = Choice(stencil: Stencil, next: nat, target: int, k: Value, work: Work)

  function Left(pc: nat): Choice {
    Choice(Stencil.Exit, pc + 1, 0, NIL, Work.Close)
  }

  /** take_jump_false: a comparison and a forward JUMP_FALSE on its register
      become one stencil. */
  predicate TakesJumpFalse(chunk: Chunk, pc: nat)
    requires pc < |chunk.code|
  {
    && pc + 1 < |chunk.code|
    && chunk.code[pc + 1].op.JumpFalse?
    && chunk.code[pc + 1].a == chunk.code[pc].a
    && chunk.code[pc + 1].JumpOffset() >= 0
  }

  /** A comparison, fused with the JUMP_FALSE after it or plain. */
  function Comparing(chunk: Chunk, pc: nat, fused: Stencil, plain: Stencil, k: Value): Choice
    requires pc < |chunk.code|
  {
    if TakesJumpFalse(chunk, pc)
    then Choice(fused, pc + 2, JumpTarget(pc + 1, chunk.code[pc + 1]), k, Work.Close)
    else Choice(plain, pc + 1, 0, k, Work.Close)
  }

  function ArithStencil(oper: Arithmetic, constant: bool, k: Value): Option<Stencil> {
    if !constant then Some(ArithPair(oper))
    else if oper.Div? then if k.tag.RealTag? then Some(ArithReal(Div)) else None
    else if k.tag.IntTag? then Some(ArithInt(oper)) else Some(ArithReal(oper))
  }

  /** choose. */
  function Choose(chunk: Chunk, pc: nat): Choice
    requires pc < |chunk.code| && OperandsOk(chunk, pc)
  {
    var i := chunk.code[pc];
    var exit := Left(pc);
    match i.op
    case LoadK => exit.(stencil := Stencil.LoadK, k := chunk.constants[i.Bx()])
    case LoadNil => exit.(stencil := Stencil.LoadK)
    case LoadBool => exit.(stencil := Stencil.LoadK, k := OfBool(i.b != 0))
    case Move => exit.(stencil := Stencil.Move)
    case Arith(oper, constant) =>
      var k := if constant then chunk.constants[i.c] else NIL;
      (match ArithStencil(oper, constant, k)
       case Some(st) => exit.(stencil := st, k := k)
       case None => exit.(k := k))
    case Order(order, constant) =>
      var k := if constant then chunk.constants[i.c] else NIL;
      if constant && !k.tag.IntTag? then exit.(k := k)
      else Comparing(chunk, pc, Stencil.Order(order, constant, true), Stencil.Order(order, constant, false), k)
    case Equality(same, constant) =>
      var k := if constant then chunk.constants[i.c] else NIL;
      if constant && !k.tag.IntTag? then exit.(k := k)
      else Comparing(chunk, pc, Stencil.Equality(same, constant, true), Stencil.Equality(same, constant, false), k)
    case Env => exit.(stencil := Stencil.Env)
    case IsNil => exit.(stencil := Stencil.IsNil)
    case Not => exit.(stencil := Stencil.Not)
    case This => exit.(stencil := Stencil.This)
    case GetUpval => exit.(stencil := Stencil.GetUpval)
    case GetIndex => exit.(stencil := Stencil.GetIndex)
    case GetElement => exit.(stencil := Stencil.GetIndex)
    case InC(work) => exit.(stencil := InPlace, work := work)
    case Jump =>
      exit.(stencil := if i.JumpOffset() < 0 then JumpBack else Stencil.Jump, target := JumpTarget(pc, i))
    case JumpFalse =>
      exit.(stencil := if i.JumpOffset() < 0 then JumpFalseBack else Stencil.JumpFalse,
            target := JumpTarget(pc, i))
    case ForLoop(down) => exit.(stencil := Stencil.ForLoop(down), target := JumpTarget(pc, i))
    case Call(_, _) => exit.(stencil := Stencil.Call)
    case CallMember =>
      if pc + 1 < |chunk.code| && chunk.code[pc + 1].op.Call? && chunk.code[pc + 1].op.asMethod
      then exit.(stencil := Stencil.Call, next := pc + 2)
      else exit
    case Return => if i.b == 0 then exit.(stencil := Stencil.Return) else exit
    case ReturnNil => exit.(stencil := Stencil.ReturnNil)
    case _ => exit
  }

  /** What lay_out settles on: a jump outside the chunk is left to the
      interpreter, and the end of the chunk answers itself. */
  function Settled(chunk: Chunk, pc: nat): (choice: Choice)
    requires ChunkOk(chunk) && pc <= |chunk.code|
  {
    var count := |chunk.code|;
    if pc == count then Choice(Stencil.Exit, count, 0, NIL, Work.Close)
    else
      var choice := Choose(chunk, pc);
      if choice.next > count || choice.target > count || choice.target < 0 then Left(pc) else choice
  }

  /** Where jumps land. */
  ghost predicate Landed(chunk: Chunk, pc: nat) {
    exists q | 0 <= q < |chunk.code| ::
      IsJump(chunk.code[q].op) && JumpTarget(q, chunk.code[q]) == pc
  }

  /** An instruction the one before took in, which no jump lands on, gets no
      code of its own. */
  ghost predicate Laid(chunk: Chunk, pc: nat)
    requires ChunkOk(chunk) && pc <= |chunk.code|
  {
    !(0 < pc < |chunk.code| && Settled(chunk, pc - 1).next == pc + 1 && !Landed(chunk, pc))
  }

  // ------------------------------------------------------------------
  // Layout closure

  lemma SettledBounds(chunk: Chunk, pc: nat)
    requires ChunkOk(chunk) && pc <= |chunk.code|
    ensures Settled(chunk, pc).next <= |chunk.code|
    ensures 0 <= Settled(chunk, pc).target <= |chunk.code|
    ensures pc < |chunk.code| ==> Settled(chunk, pc).next == pc + 1 || Settled(chunk, pc).next == pc + 2
  {
    if pc < |chunk.code| {
      assert OperandsOk(chunk, pc);
    }
  }

  /** An instruction that takes in the next one is a comparison or a CALLMEMBER,
      and what it takes in is neither: nothing taken in takes in another. */
  lemma TakenInTakesNothing(chunk: Chunk, pc: nat)
    requires ChunkOk(chunk) && pc < |chunk.code|
    requires Settled(chunk, pc).next == pc + 2
    ensures pc + 1 < |chunk.code|
    ensures chunk.code[pc + 1].op.JumpFalse? || chunk.code[pc + 1].op.Call?
    ensures Settled(chunk, pc + 1).next == pc + 2
  {
    SettledBounds(chunk, pc);
    assert OperandsOk(chunk, pc);
    assert OperandsOk(chunk, pc + 1);
  }

  /** Where a choice names a target, a jump of the chunk lands there. */
  lemma TargetLanded(chunk: Chunk, pc: nat)
    requires ChunkOk(chunk) && pc < |chunk.code|
    requires Settled(chunk, pc).target != 0
    ensures Landed(chunk, Settled(chunk, pc).target)
  {
    SettledBounds(chunk, pc);
    assert OperandsOk(chunk, pc);
    var i := chunk.code[pc];
    var jump := if i.op.Order? || i.op.Equality? then pc + 1 else pc;
    assert IsJump(chunk.code[jump].op) && JumpTarget(jump, chunk.code[jump]) == Settled(chunk, pc).target;
  }

  /** The instruction a laid stencil goes on in, and the one it jumps to, were
      both laid: no hole is ever written with the mark of an absent entry. */
  lemma LayoutClosure(chunk: Chunk, pc: nat)
    requires ChunkOk(chunk) && pc <= |chunk.code| && Laid(chunk, pc)
    ensures Settled(chunk, pc).next <= |chunk.code| && Laid(chunk, Settled(chunk, pc).next)
    ensures 0 <= Settled(chunk, pc).target <= |chunk.code| && Laid(chunk, Settled(chunk, pc).target)
  {
    SettledBounds(chunk, pc);
    if pc < |chunk.code| {
      if Settled(chunk, pc).next == pc + 2 {
        TakenInTakesNothing(chunk, pc);
      }
      if Settled(chunk, pc).target != 0 {
        TargetLanded(chunk, pc);
      }
    }
  }
}
