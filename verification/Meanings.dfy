/** What each stencil makes, in plain numbers and slots: integers as their 64 bits
    hold them, registers as slots past the frame's base, places by where they
    aim (jit/stencils.c; include/lhat/value.h). With Refinement it is also what
    the interpreter makes. */
module Meanings {
  import opened Wrappers
  import opened Bytecode
  import opened Machine
  import Interpreter
  import opened Stencils
  import opened Choosing

  // ------------------------------------------------------------------
  // Registers and numbers

  const LOWEST: int := -0x8000_0000_0000_0000
  const HIGHEST: int := 0x7FFF_FFFF_FFFF_FFFF

  /** An integer in two's complement. */
  function IntegerOf(n: int): Value
    requires LOWEST <= n <= HIGHEST
  {
    Value(IntTag, if n >= 0 then n else 0x1_0000_0000_0000_0000 + n)
  }

  function BooleanOf(b: bool): Value {
    Value(BoolTag, if b then 1 else 0)
  }

  predicate Has(s: State, r: nat, v: Value) {
    s.frames != [] && s.frames[|s.frames| - 1].base + r < |s.slots| &&
    s.slots[s.frames[|s.frames| - 1].base + r] == v
  }

  /** One register written, and nothing else. */
  predicate Wrote(s: State, t: State, r: nat, v: Value) {
    s.frames != [] && s.frames[|s.frames| - 1].base + r < |s.slots| &&
    t == s.(slots := s.slots[s.frames[|s.frames| - 1].base + r := v])
  }

  predicate GoesOnWith(s: State, o: Outcome, r: nat, v: Value) {
    o.Continue? && Wrote(s, o.state, r, v)
  }

  /** A truth value written; a comparison that took in the jump reading it jumps
      where it is false. */
  predicate Answers(s: State, o: Outcome, r: nat, truth: bool, fused: bool) {
    (if fused && !truth then o.Target? else o.Continue?) && Wrote(s, o.state, r, BooleanOf(truth))
  }

  lemma OneInteger(v: Value, n: int)
    requires LOWEST <= n <= HIGHEST
    ensures v == IntegerOf(n) <==> v.tag.IntTag? && v.Integer() == n
    ensures OfInteger(n) == IntegerOf(n)
  {
  }

  // ------------------------------------------------------------------
  // Arithmetic

  /** What an operation of two integers makes; a division makes none. */
  predicate Makes(oper: Arithmetic, b: int, c: int, n: int) {
    match oper
    case Add => n == b + c
    case Sub => n + c == b
    case Mul => n == b * c
    case Div => false
  }

  /** Of two integers in registers: exactly what the operation makes of them where 64
      bits hold it, and otherwise the instruction is left, nothing changed. */
  lemma ArithmeticMeans(p: Program, s: State, h: Holes, oper: Arithmetic, b: int, c: int, n: int)
    requires InWindow(s, Stencil.ArithPair(oper), h) && LOWEST <= b <= HIGHEST && LOWEST <= c <= HIGHEST
    requires Has(s, h.b, IntegerOf(b)) && Has(s, h.c, IntegerOf(c)) && (oper.Div? || Makes(oper, b, c, n))
    ensures var o := Run(p, s, Stencil.ArithPair(oper), h);
            if !oper.Div? && LOWEST <= n <= HIGHEST then GoesOnWith(s, o, h.a, IntegerOf(n)) else o == Leave(s, h.pc)
  {
    OneInteger(IntegerOf(b), b);
    OneInteger(IntegerOf(c), c);
    if LOWEST <= n <= HIGHEST {
      OneInteger(IntegerOf(n), n);
    }
  }

  /** The same with a constant for the right operand, of which the stencil takes the
      payload alone. */
  lemma ConstantArithmeticMeans(p: Program, s: State, h: Holes, oper: Arithmetic, b: int, c: int, n: int)
    requires InWindow(s, Stencil.ArithInt(oper), h) && LOWEST <= b <= HIGHEST && LOWEST <= c <= HIGHEST
    requires Has(s, h.b, IntegerOf(b)) && h.k.payload == IntegerOf(c).payload
    requires oper.Div? || Makes(oper, b, c, n)
    ensures var o := Run(p, s, Stencil.ArithInt(oper), h);
            if !oper.Div? && LOWEST <= n <= HIGHEST then GoesOnWith(s, o, h.a, IntegerOf(n)) else o == Leave(s, h.pc)
  {
    OneInteger(IntegerOf(b), b);
    OneInteger(h.k.(tag := IntTag), c);
    if LOWEST <= n <= HIGHEST {
      OneInteger(IntegerOf(n), n);
    }
  }

  /** Of two reals, the machine's own answer as a real; of anything else, nothing. */
  lemma RealArithmeticMeans(p: Program, s: State, h: Holes, oper: Arithmetic, b: Value, c: Value)
    requires InWindow(s, Stencil.ArithPair(oper), h) && Has(s, h.b, b) && Has(s, h.c, c)
    requires !(b.tag.IntTag? && c.tag.IntTag?)
    ensures var o := Run(p, s, Stencil.ArithPair(oper), h);
            if b.tag.RealTag? && c.tag.RealTag?
            then GoesOnWith(s, o, h.a, Value(RealTag, p.realOp(oper, b.payload, c.payload)))
            else o == Leave(s, h.pc)
  {
  }

  lemma RealConstantMeans(p: Program, s: State, h: Holes, oper: Arithmetic, b: Value)
    requires InWindow(s, Stencil.ArithReal(oper), h) && Has(s, h.b, b)
    ensures var o := Run(p, s, Stencil.ArithReal(oper), h);
            if b.tag.RealTag? then GoesOnWith(s, o, h.a, Value(RealTag, p.realOp(oper, b.payload, h.k.payload)))
            else o == Leave(s, h.pc)
  {
  }

  // ------------------------------------------------------------------
  // Comparisons

  predicate Stands(order: Ordering, b: int, c: int) {
    match order
    case Lt => b < c
    case Le => b < c || b == c
    case Gt => c < b
    case Ge => c < b || b == c
  }

  lemma OrderMeans(p: Program, s: State, h: Holes, order: Ordering, constant: bool, fused: bool, b: int, c: int)
    requires InWindow(s, Stencil.Order(order, constant, fused), h) && LOWEST <= b <= HIGHEST && LOWEST <= c <= HIGHEST
    requires Has(s, h.b, IntegerOf(b))
    requires if constant then h.k.payload == IntegerOf(c).payload else Has(s, h.c, IntegerOf(c))
    ensures Answers(s, Run(p, s, Stencil.Order(order, constant, fused), h), h.a, Stands(order, b, c), fused)
  {
    OneInteger(IntegerOf(b), b);
    OneInteger(IntegerOf(c), c);
    OneInteger(h.k.(tag := IntTag), c);
  }

  /** Anything but integers is left. */
  lemma OrderLeaves(p: Program, s: State, h: Holes, order: Ordering, fused: bool, b: Value, c: Value)
    requires InWindow(s, Stencil.Order(order, false, fused), h) && Has(s, h.b, b) && Has(s, h.c, c)
    requires !(b.tag.IntTag? && c.tag.IntTag?)
    ensures Run(p, s, Stencil.Order(order, false, fused), h) == Leave(s, h.pc)
  {
  }

  /** nil^, bool^s and integers are equal where they are of one kind and of one value
      of it; any other kind is left. */
  lemma EqualityMeans(p: Program, s: State, h: Holes, same: bool, fused: bool, b: Value, c: Value)
    requires InWindow(s, Stencil.Equality(same, false, fused), h) && Has(s, h.b, b) && Has(s, h.c, c)
    ensures var o := Run(p, s, Stencil.Equality(same, false, fused), h);
            var exact := (b.tag.NilTag? || b.tag.BoolTag? || b.tag.IntTag?) && (c.tag.NilTag? || c.tag.BoolTag? || c.tag.IntTag?);
            var equal := b.tag == c.tag && (b.tag.NilTag? ||
                         if b.tag.BoolTag? then b.payload % 256 == 0 <==> c.payload % 256 == 0
                         else b.payload == c.payload);
            if exact then Answers(s, o, h.a, if same then equal else !equal, fused) else o == Leave(s, h.pc)
  {
  }

  lemma ConstantEqualityMeans(p: Program, s: State, h: Holes, same: bool, fused: bool, b: Value)
    requires InWindow(s, Stencil.Equality(same, true, fused), h) && Has(s, h.b, b)
    ensures var o := Run(p, s, Stencil.Equality(same, true, fused), h);
            var equal := b.tag.IntTag? && b.payload == h.k.payload;
            if b.tag.NilTag? || b.tag.BoolTag? || b.tag.IntTag?
            then Answers(s, o, h.a, if same then equal else !equal, fused) else o == Leave(s, h.pc)
  {
  }

  // ------------------------------------------------------------------
  // Values moved and asked about

  lemma MovesMean(p: Program, s: State, h: Holes, v: Value)
    ensures InWindow(s, Stencil.LoadK, h) ==> GoesOnWith(s, Run(p, s, Stencil.LoadK, h), h.a, h.k)
    ensures InWindow(s, Stencil.Move, h) && Has(s, h.b, v) ==> GoesOnWith(s, Run(p, s, Stencil.Move, h), h.a, v)
    ensures InWindow(s, Stencil.Env, h) ==>
              GoesOnWith(s, Run(p, s, Stencil.Env, h), h.a, Value(ObjectTag, p.environment))
    ensures InWindow(s, Stencil.This, h) ==>
              GoesOnWith(s, Run(p, s, Stencil.This, h), h.a, Value(ObjectTag, s.frames[|s.frames| - 1].closure.ref))
    ensures InWindow(s, Stencil.IsNil, h) && Has(s, h.b, v) ==>
              GoesOnWith(s, Run(p, s, Stencil.IsNil, h), h.a, BooleanOf(v.tag.NilTag?))
    ensures InWindow(s, Stencil.Not, h) && Has(s, h.b, v) ==>
              if v.tag.BoolTag? then GoesOnWith(s, Run(p, s, Stencil.Not, h), h.a, BooleanOf(v.payload % 256 == 0))
              else Run(p, s, Stencil.Not, h) == Leave(s, h.pc)
  {
  }

  /** The element a table's dense half holds there, if it holds one. */
  lemma IndexMeans(p: Program, s: State, h: Holes, on: Value, key: Value)
    requires InWindow(s, Stencil.GetIndex, h) && Has(s, h.b, on) && Has(s, h.c, key)
    ensures var o := Run(p, s, Stencil.GetIndex, h);
            var table := on.tag.ObjectTag? && on.payload in s.heap.objects && s.heap.objects[on.payload].Table?;
            if table && key.tag.IntTag? && key.payload < |s.heap.objects[on.payload].dense| &&
               !s.heap.objects[on.payload].dense[key.payload].tag.NilTag?
            then GoesOnWith(s, o, h.a, s.heap.objects[on.payload].dense[key.payload])
            else o == Leave(s, h.pc)
  {
  }

  /** The slot an open place aims at, in whatever frame, or the value a closed one has. */
  lemma PlaceMeans(p: Program, s: State, h: Holes, v: Value)
    requires InWindow(s, Stencil.GetUpval, h)
    requires var places := s.frames[|s.frames| - 1].closure.upvalues;
             h.b < |places| && places[h.b] in s.heap.places &&
             match s.heap.places[places[h.b]]
             case Open(slot) => slot < |s.slots| && v == s.slots[slot]
             case Closed(held) => v == held
    ensures GoesOnWith(s, Run(p, s, Stencil.GetUpval, h), h.a, v)
  {
  }

  // ------------------------------------------------------------------
  // Jumps and the slice

  /** A slice has a bound where `steps` is not 0, and its last turn is not compiled
      code's; nor is any turn while a disposal waits or the debugger's hook is on. */
  predicate Polls(s: State) {
    !s.pending && !s.hook && s.steps != 1
  }

  predicate Spent(s: State, t: State) {
    t == s.(steps := if s.steps > 1 then s.steps - 1 else s.steps)
  }

  predicate JumpsBack(s: State, o: Outcome, pc: nat) {
    if Polls(s) then o.Target? && Spent(s, o.state) else o == Leave(s, pc)
  }

  lemma JumpsMean(p: Program, s: State, h: Holes, v: Value)
    ensures InWindow(s, Stencil.Jump, h) ==> Run(p, s, Stencil.Jump, h) == Target(s)
    ensures InWindow(s, JumpBack, h) ==> JumpsBack(s, Run(p, s, JumpBack, h), h.pc)
    ensures InWindow(s, Stencil.JumpFalse, h) && Has(s, h.a, v) ==>
              Run(p, s, Stencil.JumpFalse, h) ==
              if !v.tag.BoolTag? then Leave(s, h.pc) else if v.payload % 256 != 0 then Continue(s) else Target(s)
    ensures InWindow(s, JumpFalseBack, h) && Has(s, h.a, v) ==>
              if v.tag.BoolTag? && v.payload % 256 == 0 then JumpsBack(s, Run(p, s, JumpFalseBack, h), h.pc)
              else Run(p, s, JumpFalseBack, h) == if v.tag.BoolTag? then Continue(s) else Leave(s, h.pc)
  {
  }

  /** A counted loop's focus takes its step; the loop goes round again while it is on
      its side of the bound, and is over past it or where 64 bits do not hold it. */
  lemma LoopMeans(p: Program, s: State, h: Holes, down: bool, focus: int, bound: int, step: int)
    requires InWindow(s, Stencil.ForLoop(down), h)
    requires LOWEST <= focus <= HIGHEST && LOWEST <= bound <= HIGHEST && LOWEST <= step <= HIGHEST
    requires Has(s, h.a, IntegerOf(focus)) && Has(s, h.a + 1, IntegerOf(bound)) && Has(s, h.a + 2, IntegerOf(step))
    ensures var o := Run(p, s, Stencil.ForLoop(down), h);
            var n := if down then focus - step else focus + step;
            if !Polls(s) then o == Leave(s, h.pc)
            else if !(LOWEST <= n <= HIGHEST) then o == Continue(s)
            else if (if down then bound <= n else n <= bound) then
              o.Target? && Wrote(s.(steps := o.state.steps), o.state, h.a, IntegerOf(n)) &&
              o.state.steps == if s.steps > 1 then s.steps - 1 else s.steps
            else GoesOnWith(s, o, h.a, IntegerOf(n))
  {
    hide Interpreter.Holds, OfInteger;
    OneInteger(IntegerOf(focus), focus);
    OneInteger(IntegerOf(bound), bound);
    OneInteger(IntegerOf(step), step);
    LoopSteps(down, focus, step);
    var n := if down then focus - step else focus + step;
    if LOWEST <= n <= HIGHEST {
      OneInteger(IntegerOf(n), n);
      LoopBound(down, n, bound);
    }
  }

  lemma LoopSteps(down: bool, focus: int, step: int)
    ensures var n := if down then focus - step else focus + step;
            Interpreter.Exact(if down then Sub else Add, focus, step) == if LOWEST <= n <= HIGHEST then Some(n) else None
  {
  }

  lemma LoopBound(down: bool, n: int, bound: int)
    ensures Interpreter.Holds(if down then Ge else Le, n, bound) <==> if down then bound <= n else n <= bound
  {
  }

  /** Anywhere in a chunk a jump goes as far as its sixteen bits say past the
      instruction after it. */
  lemma JumpsGo(chunk: Chunk, pc: nat)
    requires ChunkOk(chunk) && pc < |chunk.code|
    requires var op := chunk.code[pc].op; op.Jump? || op.JumpFalse? || op.ForLoop?
    ensures var i := chunk.code[pc];
            var to := pc + 1 + (i.b + 256 * i.c) - 0x8000;
            && Settled(chunk, pc).target == (if 0 <= to <= |chunk.code| then to else 0)
            && (0 <= to <= |chunk.code| ==>
                  Settled(chunk, pc).stencil ==
                  match i.op
                  case Jump => if to <= pc then JumpBack else Stencil.Jump
                  case JumpFalse => if to <= pc then JumpFalseBack else Stencil.JumpFalse
                  case ForLoop(down) => Stencil.ForLoop(down)
                  case _ => Exit)
  {
    assert OperandsOk(chunk, pc);
  }

  // ------------------------------------------------------------------
  // What is compiled

  /** Where a jump at pc goes. */
  function JumpTo(chunk: Chunk, pc: nat): int
    requires pc < |chunk.code|
  {
    pc + 1 + (chunk.code[pc].b + 256 * chunk.code[pc].c) - 0x8000
  }

  /** A comparison is one with a forward JUMP_FALSE on its register, if that comes next. */
  predicate Fused(chunk: Chunk, pc: nat)
    requires pc < |chunk.code|
  {
    && (chunk.code[pc].op.Order? || chunk.code[pc].op.Equality?) && pc + 1 < |chunk.code|
    && chunk.code[pc + 1].op.JumpFalse? && chunk.code[pc + 1].a == chunk.code[pc].a && JumpTo(chunk, pc + 1) >= pc + 2
  }

  predicate ReadsForCall(chunk: Chunk, pc: nat)
    requires pc < |chunk.code|
  {
    chunk.code[pc].op.CallMember? && pc + 1 < |chunk.code| && chunk.code[pc + 1].op.Call? && chunk.code[pc + 1].op.asMethod
  }

  /** The instructions compiled code leaves to the interpreter: what no stencil was
      written for, a division by an integer constant, a comparison with a constant
      that is none, a jump out of the chunk, a CALLMEMBER without its call, and a
      return of several values. */
  predicate NotCompiled(chunk: Chunk, pc: nat)
    requires ChunkOk(chunk) && pc < |chunk.code|
  {
    var i := chunk.code[pc];
    assert OperandsOk(chunk, pc);
    match i.op
    case OtherOp => true
    case ForPrep(_) => true
    case Arith(oper, constant) => oper.Div? && constant && chunk.constants[i.c].tag.IntTag?
    case Order(_, constant) =>
      (constant && !chunk.constants[i.c].tag.IntTag?) || (Fused(chunk, pc) && JumpTo(chunk, pc + 1) > |chunk.code|)
    case Equality(_, constant) =>
      (constant && !chunk.constants[i.c].tag.IntTag?) || (Fused(chunk, pc) && JumpTo(chunk, pc + 1) > |chunk.code|)
    case Jump => !(0 <= JumpTo(chunk, pc) <= |chunk.code|)
    case JumpFalse => !(0 <= JumpTo(chunk, pc) <= |chunk.code|)
    case ForLoop(_) => !(0 <= JumpTo(chunk, pc) <= |chunk.code|)
    case CallMember => !ReadsForCall(chunk, pc)
    case Return => i.b != 0
    case _ => false
  }

  lemma CompiledIff(chunk: Chunk, pc: nat)
    requires ChunkOk(chunk) && pc < |chunk.code|
    ensures Settled(chunk, pc).stencil.Exit? <==> NotCompiled(chunk, pc)
    ensures !NotCompiled(chunk, pc) ==>
              Settled(chunk, pc).next == if Fused(chunk, pc) || ReadsForCall(chunk, pc) then pc + 2 else pc + 1
    ensures !NotCompiled(chunk, pc) && Fused(chunk, pc) ==> Settled(chunk, pc).target == JumpTo(chunk, pc + 1)
  {
    assert OperandsOk(chunk, pc);
  }

  /** Compiled, an instruction that reads a constant carries the one it names, of its
      own kind. */
  lemma ConstantsMean(chunk: Chunk, pc: nat)
    requires ChunkOk(chunk) && pc < |chunk.code| && !NotCompiled(chunk, pc)
    ensures var i := chunk.code[pc];
            var choice := Settled(chunk, pc);
            match i.op
            case LoadK => choice.stencil.LoadK? && i.b + 256 * i.c < |chunk.constants| && choice.k == chunk.constants[i.b + 256 * i.c]
            case LoadNil => choice.stencil.LoadK? && choice.k == Value(NilTag, 0)
            case LoadBool => choice.stencil.LoadK? && choice.k == BooleanOf(i.b > 0)
            case Arith(oper, constant) =>
              if !constant then choice.stencil == ArithPair(oper)
              else
                && i.c < |chunk.constants| && choice.k == chunk.constants[i.c]
                && choice.stencil == if choice.k.tag.IntTag? then ArithInt(oper) else ArithReal(oper)
            case Order(order, constant) =>
              && choice.stencil == Stencil.Order(order, constant, Fused(chunk, pc))
              && (constant ==> i.c < |chunk.constants| && choice.k == chunk.constants[i.c])
            case Equality(same, constant) =>
              && choice.stencil == Stencil.Equality(same, constant, Fused(chunk, pc))
              && (constant ==> i.c < |chunk.constants| && choice.k == chunk.constants[i.c])
            case _ => true
  {
    CompiledIff(chunk, pc);
    assert OperandsOk(chunk, pc);
  }

  /** No code of its own has what the instruction before took in, unless some jump of
      the chunk goes there. */
  lemma LaidIff(chunk: Chunk, pc: nat)
    requires ChunkOk(chunk) && 0 < pc < |chunk.code|
    ensures Laid(chunk, pc) <==>
            || !((Fused(chunk, pc - 1) || ReadsForCall(chunk, pc - 1)) && !NotCompiled(chunk, pc - 1))
            || exists q :: 0 <= q < |chunk.code| && IsJump(chunk.code[q].op) && JumpTo(chunk, q) == pc
  {
    hide Settled, NotCompiled, Fused, ReadsForCall;
    CompiledIff(chunk, pc - 1);
    if NotCompiled(chunk, pc - 1) {
      NotCompiledGoesOn(chunk, pc - 1);
    }
    assert Landed(chunk, pc) <==> exists q :: 0 <= q < |chunk.code| && IsJump(chunk.code[q].op) && JumpTo(chunk, q) == pc;
  }

  lemma NotCompiledGoesOn(chunk: Chunk, pc: nat)
    requires ChunkOk(chunk) && pc < |chunk.code| && NotCompiled(chunk, pc)
    ensures Settled(chunk, pc).next == pc + 1
  {
    assert OperandsOk(chunk, pc);
  }

  /** Work done in C is asked of the machine standing at its instruction, with its
      three operands; refused, it is left with the collector's step alone. */
  lemma WorkMeans(p: Program, s: State, h: Holes)
    requires InWindow(s, InPlace, h) && h.work != Close && h.work != CloseOne
    ensures var o := Run(p, s, InPlace, h);
            match p.work(h.work, h.a, h.b, h.c, s.(pc := h.pc, polling := false))
            case Done(e) =>
              o == Continue(s.(slots := e.slots, heap := e.heap, pending := e.pending, collector := e.collector,
                               carriers := e.carriers))
            case Refused(poll) =>
              o == Leave(s.(collector := poll.collector, pending := s.pending || poll.held), h.pc)
  {
  }

  // ------------------------------------------------------------------
  // Places

  /** Every open place from a slot on has taken its slot's value, and no other place
      or object has changed. */
  predicate ClosesFrom(before: Heap, after: Heap, slots: seq<Value>, above: nat) {
    && after.objects == before.objects && after.places.Keys == before.places.Keys
    && forall u <- before.places ::
         match before.places[u]
         case Open(slot) =>
           after.places[u] == if above <= slot < |slots| then Closed(slots[slot]) else Open(slot)
         case Closed(v) => after.places[u] == Closed(v)
  }

  /** CLOSE: what points into the registers from A on takes its value with it; and
      of CLOSE's one, what points at A alone. */
  lemma ClosingMeans(p: Program, s: State, h: Holes)
    requires s.frames != []
    ensures var from := s.frames[|s.frames| - 1].base + h.a;
            && (h.work == Close ==>
                  var o := InPlaceWork(p, s, h);
                  o.Continue? && o.state == s.(heap := o.state.heap) && ClosesFrom(s.heap, o.state.heap, s.slots, from))
            && (h.work == CloseOne ==>
                  var o := InPlaceWork(p, s, h);
                  o.Continue? && o.state == s.(heap := o.state.heap)
                  && o.state.heap.objects == s.heap.objects && o.state.heap.places.Keys == s.heap.places.Keys
                  && forall u <- s.heap.places ::
                       o.state.heap.places[u] ==
                       if s.heap.places[u] == Open(from) && from < |s.slots| then Closed(s.slots[from])
                       else s.heap.places[u])
  {
  }
}
