/** The stencils: one instruction's work each, in place, ending in a jump or an
    answered pc (jit/stencils.c). */
module Stencils {
  import opened Wrappers
  import opened Bytecode
  import opened Machine
  import Interpreter

  datatype Stencil =
    | Exit | LoadK | Move
    | ArithPair(oper: Arithmetic) | ArithInt(oper: Arithmetic) | ArithReal(oper: Arithmetic)
    | Order(order: Ordering, constant: bool, fused: bool)
    | Equality(same: bool, constant: bool, fused: bool)
    | Env | IsNil | Not | This | GetUpval | GetIndex | InPlace
    | Jump | JumpBack | JumpFalse | JumpFalseBack | ForLoop(down: bool)
    | Call | Return | ReturnNil

  predicate UsesB(st: Stencil) {
    st.Move? || st.ArithPair? || st.ArithInt? || st.ArithReal? || st.Order? || st.Equality? ||
    st.IsNil? || st.Not? || st.GetIndex?
  }

  predicate UsesC(st: Stencil) {
    st.ArithPair? || (st.Order? && !st.constant) || (st.Equality? && !st.constant) || st.GetIndex?
  }

  /** What the holes of one laid stencil carry. */
  datatype Holes = Holes(a: Byte, b: Byte, c: Byte, k: Value, pc: nat, work: Work)

  /** How a stencil ends: by one of the two jumps its own layout fills in, by a jump
      the runtime worked out, or by answering a pc. */
  datatype Outcome =
    | Continue(state: State)
    | Target(state: State)
    | Moved(state: State, to: Address)
    | Leave(state: State, pc: nat)

  predicate InWindow(s: State, st: Stencil, h: Holes) {
    && s.frames != []
    && s.Holds(h.a)
    && (UsesB(st) ==> s.Holds(h.b))
    && (UsesC(st) ==> s.Holds(h.c))
    && (st.ForLoop? ==> s.Holds(h.a + 2))
  }

  /** POLL_OR_LEAVE: with one turn left, or a trap set, compiled code answers its pc. */
  predicate MustLeave(s: State) {
    s.Traps() || s.steps == 1
  }

  /** COUNT_TURN. */
  function Counted(s: State): State {
    if s.steps != 0 then s.(steps := s.steps - 1) else s
  }

  function ArithmeticWork(p: Program, s: State, h: Holes, oper: Arithmetic, left: Value, right: Value): Outcome
    requires s.frames != [] && s.Holds(h.a)
  {
    if left.tag.IntTag? && right.tag.IntTag? then
      match Interpreter.Exact(oper, left.Integer(), right.Integer())
      case None => Leave(s, h.pc)
      case Some(n) => Continue(s.SetR(h.a, OfInteger(n)))
    else if left.tag.RealTag? && right.tag.RealTag? then
      Continue(s.SetR(h.a, Value(RealTag, p.realOp(oper, left.payload, right.payload))))
    else
      Leave(s, h.pc)
  }

  /** A comparison's end: the answer is written, and a fused one takes the
      JUMP_FALSE that reads it. */
  function Answered(s: State, h: Holes, held: bool, fused: bool): Outcome
    requires s.frames != [] && s.Holds(h.a)
  {
    var written := s.SetR(h.a, OfBool(held));
    if fused && !held then Target(written) else Continue(written)
  }

  function CompareWork(s: State, h: Holes, st: Stencil, left: Value, right: Value): Outcome
    requires st.Order? && s.frames != [] && s.Holds(h.a)
  {
    if !(left.tag.IntTag? && right.tag.IntTag?) then Leave(s, h.pc)
    else Answered(s, h, Interpreter.Holds(st.order, left.Integer(), right.Integer()), st.fused)
  }

  function EqualWork(s: State, h: Holes, st: Stencil, left: Value, right: Value): Outcome
    requires st.Equality? && s.frames != [] && s.Holds(h.a)
  {
    if !ExactKind(left) || !(st.constant || ExactKind(right)) then Leave(s, h.pc)
    else
      var equal :=
        if st.constant then left.tag.IntTag? && left.Integer() == right.Integer()
        else left.tag == right.tag &&
             (left.tag.NilTag? || if left.tag.BoolTag? then left.Truth() == right.Truth()
                                  else left.Integer() == right.Integer());
      Answered(s, h, equal == st.same, st.fused)
  }

  function JumpFalseWork(s: State, h: Holes, back: bool): Outcome
    requires s.frames != [] && s.Holds(h.a)
  {
    if !s.R(h.a).tag.BoolTag? then Leave(s, h.pc)
    else if s.R(h.a).Truth() then Continue(s)
    else if !back then Target(s)
    else if MustLeave(s) then Leave(s, h.pc)
    else Target(Counted(s))
  }

  function ForLoopWork(s: State, h: Holes, down: bool): Outcome
    requires s.frames != [] && s.Holds(h.a + 2)
  {
    var focus, bound, step := s.R(h.a), s.R(h.a + 1), s.R(h.a + 2);
    if !(focus.tag.IntTag? && bound.tag.IntTag? && step.tag.IntTag?) then Leave(s, h.pc)
    else if MustLeave(s) then Leave(s, h.pc)
    else
      match Interpreter.Exact(if down then Sub else Add, focus.Integer(), step.Integer())
      case None => Continue(s)
      case Some(n) =>
        var moved := s.SetR(h.a, OfInteger(n));
        if Interpreter.Holds(if down then Ge else Le, n, bound.Integer())
        then Target(Counted(moved))
        else Continue(moved)
  }

  function GetIndexWork(s: State, h: Holes): Outcome
    requires s.frames != [] && s.Holds(h.a) && s.Holds(h.b) && s.Holds(h.c)
  {
    var on, key := s.R(h.b), s.R(h.c);
    if !on.tag.ObjectTag? || !key.tag.IntTag? then Leave(s, h.pc)
    else if on.payload !in s.heap.objects || !s.heap.objects[on.payload].Table? then Leave(s, h.pc)
    else
      var dense := s.heap.objects[on.payload].dense;
      if key.payload >= |dense| || dense[key.payload].tag.NilTag? then Leave(s, h.pc)
      else Continue(s.SetR(h.a, dense[key.payload]))
  }

  function GetUpvalWork(s: State, h: Holes): Outcome
    requires s.frames != [] && s.Holds(h.a)
  {
    match Interpreter.PlaceValue(s.heap, s.slots, s.Top().closure, h.b)
    case None => Leave(s, h.pc)
    case Some(v) => Continue(s.SetR(h.a, v))
  }

  function InPlaceWork(p: Program, s: State, h: Holes): Outcome
    requires s.frames != []
  {
    match h.work
    case Close => Continue(s.(heap := CloseFrom(s.heap, s.slots, s.Top().base + h.a)))
    case CloseOne => Continue(s.(heap := CloseAt(s.heap, s.slots, s.Top().base + h.a)))
    case _ =>
      match p.work(h.work, h.a, h.b, h.c, s.At(h.pc))
      case Refused(poll) => Leave(s.Polled(poll), h.pc)
      case Done(e) =>
        Continue(s.(slots := e.slots, heap := e.heap, pending := e.pending, collector := e.collector,
                    carriers := e.carriers))
  }

  /** The stencils that stay in their frame. Those that push or pop one
      go through the runtime (Calls). */
  function Run(p: Program, s: State, st: Stencil, h: Holes): Outcome
    requires InWindow(s, st, h)
    requires !st.Call? && !st.Return? && !st.ReturnNil?
  {
    match st
    case Exit => Leave(s, h.pc)
    case LoadK => Continue(s.SetR(h.a, h.k))
    case Move => Continue(s.SetR(h.a, s.R(h.b)))
    case ArithPair(oper) => ArithmeticWork(p, s, h, oper, s.R(h.b), s.R(h.c))
    case ArithInt(oper) =>
      if !s.R(h.b).tag.IntTag? then Leave(s, h.pc)
      else ArithmeticWork(p, s, h, oper, s.R(h.b), h.k.(tag := IntTag))
    case ArithReal(oper) =>
      if !s.R(h.b).tag.RealTag? then Leave(s, h.pc)
      else ArithmeticWork(p, s, h, oper, s.R(h.b), h.k.(tag := RealTag))
    case Order(_, k, _) => CompareWork(s, h, st, s.R(h.b), if k then h.k.(tag := IntTag) else s.R(h.c))
    case Equality(_, k, _) => EqualWork(s, h, st, s.R(h.b), if k then h.k else s.R(h.c))
    case Env => Continue(s.SetR(h.a, OfObject(p.environment)))
    case IsNil => Continue(s.SetR(h.a, OfBool(s.R(h.b).tag.NilTag?)))
    case Not =>
      if s.R(h.b).tag.BoolTag? then Continue(s.SetR(h.a, OfBool(!s.R(h.b).Truth())))
      else Leave(s, h.pc)
    case This => Continue(s.SetR(h.a, OfObject(s.Top().closure.ref)))
    case GetUpval => GetUpvalWork(s, h)
    case GetIndex => GetIndexWork(s, h)
    case InPlace => InPlaceWork(p, s, h)
    case Jump => Target(s)
    case JumpBack => if MustLeave(s) then Leave(s, h.pc) else Target(Counted(s))
    case JumpFalse => JumpFalseWork(s, h, false)
    case JumpFalseBack => JumpFalseWork(s, h, true)
    case ForLoop(down) => ForLoopWork(s, h, down)
  }
}
