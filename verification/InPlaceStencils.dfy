/** The stencils as they are written: a frame's payloads and tags in two arrays,
    changed in place, and the slice's steps behind a pointer
    (jit/stencils.c). Each is proved to do what Stencils.Run says of it. */
module InPlaceStencils {
  import opened Wrappers
  import opened Bytecode
  import opened Machine
  import Interpreter
  import opened Stencils

  /** NEXT, JUMP and LEAVE. */
  datatype Ending = Next | Jumped | Left(pc: nat)

  class Context {
    const values: array<Word>
    const tags: array<Tag>
    /** Where the frame's window begins in both. */
    var base: nat
    var steps: nat
    var traps: bool

    constructor (values: array<Word>, tags: array<Tag>, base: nat, steps: nat, traps: bool)
      ensures this.values == values && this.tags == tags
      ensures this.base == base && this.steps == steps && this.traps == traps
    {
      this.values, this.tags := values, tags;
      this.base, this.steps, this.traps := base, steps, traps;
    }

    /** The arrays and the poll hold the state `s`. */
    ghost predicate Sees(s: State)
      reads this, values, tags
    {
      && s.frames != [] && s.Top().base == base
      && |s.slots| == values.Length == tags.Length
      && (forall i | 0 <= i < |s.slots| :: s.slots[i] == Value(tags[i], values[i]))
      && s.steps == steps && s.Traps() == traps
    }

    /** The stencil ended as the outcome says, in the state it says. */
    ghost predicate Ended(end: Ending, o: Outcome)
      reads this, values, tags
    {
      && Sees(o.state)
      && match o
         case Continue(_) => end.Next?
         case Target(_) => end.Jumped?
         case Leave(_, pc) => end == Left(pc)
         case Moved(_, _) => false
    }

    method Put(r: nat, payload: Word, tag: Tag, ghost s: State)
      requires Sees(s) && s.Holds(r)
      modifies values, tags
      ensures Sees(s.SetR(r, Value(tag, payload)))
    {
      values[base + r] := payload;
      tags[base + r] := tag;
    }

    /** A register that holds an integer takes another: its tag stays. */
    method Count(r: nat, n: int, ghost s: State)
      requires Sees(s) && s.Holds(r) && s.R(r).tag.IntTag? && FitsInteger(n)
      modifies values
      ensures Sees(s.SetR(r, OfInteger(n)))
    {
      values[base + r] := OfInteger(n).payload;
    }

    function V(r: nat): Word
      requires base + r < values.Length
      reads this, values
    {
      values[base + r]
    }

    function T(r: nat): Tag
      requires base + r < tags.Length
      reads this, tags
    {
      tags[base + r]
    }

    function Int(r: nat): int
      requires base + r < values.Length
      reads this, values
    {
      Value(IntTag, V(r)).Integer()
    }

    method CountTurn(ghost s: State)
      requires Sees(s)
      modifies this`steps
      ensures Sees(Counted(s))
    {
      if steps != 0 {
        steps := steps - 1;
      }
    }

    // ----------------------------------------------------------------
    // Values moved into a register

    method LoadK(h: Holes, ghost p: Program, ghost s: State) returns (end: Ending)
      requires Sees(s) && InWindow(s, Stencil.LoadK, h)
      modifies values, tags
      ensures Ended(end, Run(p, s, Stencil.LoadK, h))
    {
      Put(h.a, h.k.payload, h.k.tag, s);
      end := Next;
    }

    method Move(h: Holes, ghost p: Program, ghost s: State) returns (end: Ending)
      requires Sees(s) && InWindow(s, Stencil.Move, h)
      modifies values, tags
      ensures Ended(end, Run(p, s, Stencil.Move, h))
    {
      Put(h.a, V(h.b), T(h.b), s);
      end := Next;
    }

    method Env(h: Holes, environment: Word, ghost p: Program, ghost s: State) returns (end: Ending)
      requires Sees(s) && InWindow(s, Stencil.Env, h) && environment == p.environment
      modifies values, tags
      ensures Ended(end, Run(p, s, Stencil.Env, h))
    {
      Put(h.a, environment, ObjectTag, s);
      end := Next;
    }

    method This(h: Holes, closure: Closure, ghost p: Program, ghost s: State) returns (end: Ending)
      requires Sees(s) && InWindow(s, Stencil.This, h) && closure == s.Top().closure
      modifies values, tags
      ensures Ended(end, Run(p, s, Stencil.This, h))
    {
      Put(h.a, closure.ref, ObjectTag, s);
      end := Next;
    }

    method IsNil(h: Holes, ghost p: Program, ghost s: State) returns (end: Ending)
      requires Sees(s) && InWindow(s, Stencil.IsNil, h)
      modifies values, tags
      ensures Ended(end, Run(p, s, Stencil.IsNil, h))
    {
      Put(h.a, if T(h.b).NilTag? then 1 else 0, BoolTag, s);
      end := Next;
    }

    method Not(h: Holes, ghost p: Program, ghost s: State) returns (end: Ending)
      requires Sees(s) && InWindow(s, Stencil.Not, h)
      modifies values, tags
      ensures Ended(end, Run(p, s, Stencil.Not, h))
    {
      if !T(h.b).BoolTag? {
        return Left(h.pc);
      }
      Put(h.a, if V(h.b) % 256 == 0 then 1 else 0, BoolTag, s);
      end := Next;
    }

    /** A table's dense half, or whatever a place aims at now. */
    method GetIndex(h: Holes, heap: Heap, ghost p: Program, ghost s: State) returns (end: Ending)
      requires Sees(s) && InWindow(s, Stencil.GetIndex, h) && heap == s.heap
      modifies values, tags
      ensures Ended(end, Run(p, s, Stencil.GetIndex, h))
    {
      if !T(h.b).ObjectTag? || !T(h.c).IntTag? {
        return Left(h.pc);
      }
      var table := V(h.b);
      if table !in heap.objects || !heap.objects[table].Table? {
        return Left(h.pc);
      }
      var dense, at := heap.objects[table].dense, V(h.c);
      if at >= |dense| || dense[at].tag.NilTag? {
        return Left(h.pc);
      }
      Put(h.a, dense[at].payload, dense[at].tag, s);
      end := Next;
    }

    // ----------------------------------------------------------------
    // Arithmetic

    /** __builtin_add_overflow and its kin: left where 64 bits do not hold it. */
    method Checked(h: Holes, oper: Arithmetic, x: int, y: int, ghost s: State) returns (end: Ending)
      requires Sees(s) && s.Holds(h.a)
      modifies values, tags
      ensures Ended(end, match Interpreter.Exact(oper, x, y)
                         case None => Leave(s, h.pc)
                         case Some(n) => Continue(s.SetR(h.a, OfInteger(n))))
    {
      if oper.Div? {
        return Left(h.pc);
      }
      var n: int := if oper.Add? then x + y else if oper.Sub? then x - y else x * y;
      if n < -TWO_TO_THE_63 || n >= TWO_TO_THE_63 {
        return Left(h.pc);
      }
      Put(h.a, OfInteger(n).payload, IntTag, s);
      end := Next;
    }

    method ArithPair(h: Holes, oper: Arithmetic, realOp: (Arithmetic, Word, Word) -> Word,
                     ghost p: Program, ghost s: State)
      returns (end: Ending)
      requires Sees(s) && InWindow(s, Stencil.ArithPair(oper), h) && realOp == p.realOp
      modifies values, tags
      ensures Ended(end, Run(p, s, Stencil.ArithPair(oper), h))
    {
      if T(h.b).IntTag? && T(h.c).IntTag? {
        end := Checked(h, oper, Int(h.b), Int(h.c), s);
        return;
      }
      if T(h.b).RealTag? && T(h.c).RealTag? {
        Put(h.a, realOp(oper, V(h.b), V(h.c)), RealTag, s);
        return Next;
      }
      end := Left(h.pc);
    }

    method ArithInt(h: Holes, oper: Arithmetic, ghost p: Program, ghost s: State) returns (end: Ending)
      requires Sees(s) && InWindow(s, Stencil.ArithInt(oper), h)
      modifies values, tags
      ensures Ended(end, Run(p, s, Stencil.ArithInt(oper), h))
    {
      if !T(h.b).IntTag? {
        return Left(h.pc);
      }
      end := Checked(h, oper, Int(h.b), h.k.Integer(), s);
    }

    method ArithReal(h: Holes, oper: Arithmetic, realOp: (Arithmetic, Word, Word) -> Word,
                     ghost p: Program, ghost s: State)
      returns (end: Ending)
      requires Sees(s) && InWindow(s, Stencil.ArithReal(oper), h) && realOp == p.realOp
      modifies values, tags
      ensures Ended(end, Run(p, s, Stencil.ArithReal(oper), h))
    {
      if !T(h.b).RealTag? {
        return Left(h.pc);
      }
      Put(h.a, realOp(oper, V(h.b), h.k.payload), RealTag, s);
      end := Next;
    }

    // ----------------------------------------------------------------
    // Comparisons

    /** The end every comparison shares: the answer, and the jump it took in. */
    method Answer(h: Holes, held: bool, fused: bool, ghost s: State) returns (end: Ending)
      requires Sees(s) && s.Holds(h.a)
      modifies values, tags
      ensures Ended(end, Answered(s, h, held, fused))
    {
      Put(h.a, if held then 1 else 0, BoolTag, s);
      end := if fused && !held then Jumped else Next;
    }

    method Order(h: Holes, order: Ordering, constant: bool, fused: bool, ghost p: Program, ghost s: State)
      returns (end: Ending)
      requires Sees(s) && InWindow(s, Stencil.Order(order, constant, fused), h)
      modifies values, tags
      ensures Ended(end, Run(p, s, Stencil.Order(order, constant, fused), h))
    {
      if !T(h.b).IntTag? || !(constant || T(h.c).IntTag?) {
        return Left(h.pc);
      }
      var right := if constant then h.k.Integer() else Int(h.c);
      var left := Int(h.b);
      var held := match order
        case Lt => left < right
        case Le => left <= right
        case Gt => left > right
        case Ge => left >= right;
      end := Answer(h, held, fused, s);
    }

    predicate Exactly(r: nat)
      requires base + r < tags.Length
      reads this, tags
    {
      T(r).NilTag? || T(r).BoolTag? || T(r).IntTag?
    }

    method Equality(h: Holes, same: bool, constant: bool, fused: bool, ghost p: Program, ghost s: State)
      returns (end: Ending)
      requires Sees(s) && InWindow(s, Stencil.Equality(same, constant, fused), h)
      modifies values, tags
      ensures Ended(end, Run(p, s, Stencil.Equality(same, constant, fused), h))
    {
      hide Run;
      EqualityRuns(h, same, constant, fused, p, s);
      if !Exactly(h.b) || !(constant || Exactly(h.c)) {
        return Left(h.pc);
      }
      var equal: bool;
      if constant {
        equal := T(h.b).IntTag? && Int(h.b) == h.k.Integer();
      } else {
        equal := T(h.b) == T(h.c) &&
                 (T(h.b).NilTag? ||
                  if T(h.b).BoolTag? then (V(h.b) % 256 != 0) == (V(h.c) % 256 != 0) else Int(h.b) == Int(h.c));
      }
      end := Answer(h, equal == same, fused, s);
    }

    // ----------------------------------------------------------------
    // Jumps

    method JumpBack(h: Holes, ghost p: Program, ghost s: State) returns (end: Ending)
      requires Sees(s) && InWindow(s, Stencil.JumpBack, h)
      modifies this`steps
      ensures Ended(end, Run(p, s, Stencil.JumpBack, h))
    {
      if traps || steps == 1 {
        return Left(h.pc);
      }
      CountTurn(s);
      end := Jumped;
    }

    method JumpFalse(h: Holes, back: bool, ghost p: Program, ghost s: State) returns (end: Ending)
      requires Sees(s) && InWindow(s, Stencil.JumpFalse, h)
      modifies this`steps
      ensures Ended(end, Run(p, s, if back then Stencil.JumpFalseBack else Stencil.JumpFalse, h))
    {
      if !T(h.a).BoolTag? {
        return Left(h.pc);
      }
      if V(h.a) % 256 != 0 {
        return Next;
      }
      if back {
        if traps || steps == 1 {
          return Left(h.pc);
        }
        CountTurn(s);
      }
      end := Jumped;
    }

    method ForLoop(h: Holes, down: bool, ghost p: Program, ghost s: State) returns (end: Ending)
      requires Sees(s) && InWindow(s, Stencil.ForLoop(down), h)
      modifies values, tags, this`steps
      ensures Ended(end, Run(p, s, Stencil.ForLoop(down), h))
    {
      hide Run, OfInteger;
      LoopRuns(h, down, p, s);
      if !T(h.a).IntTag? || !T(h.a + 1).IntTag? || !T(h.a + 2).IntTag? {
        return Left(h.pc);
      }
      if traps || steps == 1 {
        return Left(h.pc);
      }
      var focus := if down then Int(h.a) - Int(h.a + 2) else Int(h.a) + Int(h.a + 2);
      if focus < -TWO_TO_THE_63 || focus >= TWO_TO_THE_63 {
        return Next;
      }
      var bound := Int(h.a + 1);
      Count(h.a, focus, s);
      if (if down then focus >= bound else focus <= bound) {
        CountTurn(s.SetR(h.a, OfInteger(focus)));
        return Jumped;
      }
      end := Next;
    }

    // ----------------------------------------------------------------
    // A place a closure shares

    /** A closure's shared place is a register of some frame while it is open and a
        cell of its own once closed; the read goes through either. */
    method GetUpval(h: Holes, closure: Closure, places: map<nat, Place>, ghost p: Program, ghost s: State)
      returns (end: Ending)
      requires Sees(s) && InWindow(s, Stencil.GetUpval, h)
      requires closure == s.Top().closure && places == s.heap.places
      modifies values, tags
      ensures Ended(end, Run(p, s, Stencil.GetUpval, h))
    {
      if h.b >= |closure.upvalues| || closure.upvalues[h.b] !in places {
        return Left(h.pc);
      }
      match places[closure.upvalues[h.b]] {
        case Closed(v) =>
          Put(h.a, v.payload, v.tag, s);
        case Open(at) =>
          if at >= values.Length {
            return Left(h.pc);
          }
          Put(h.a, values[at], tags[at], s);
      }
      end := Next;
    }
  }

  lemma EqualityRuns(h: Holes, same: bool, constant: bool, fused: bool, p: Program, s: State)
    requires InWindow(s, Stencil.Equality(same, constant, fused), h)
    ensures Run(p, s, Stencil.Equality(same, constant, fused), h) ==
            EqualWork(s, h, Stencil.Equality(same, constant, fused), s.R(h.b), if constant then h.k else s.R(h.c))
  {
  }

  lemma LoopRuns(h: Holes, down: bool, p: Program, s: State)
    requires InWindow(s, Stencil.ForLoop(down), h)
    ensures Run(p, s, Stencil.ForLoop(down), h) == ForLoopWork(s, h, down)
  {
  }
}
