/** The interpreter, one instruction at a time, as far as the stencils reach
    (src/vm.c, run_frames_loop). What an instruction does beyond that -- faults,
    widening, operators a type carries, hosts, coroutines -- is `Beyond`.

    The slice poll a jump back or a body's entry ends with is a turn of its own:
    the state in between is `polling`. */
module Interpreter {
  import opened Wrappers
  import opened Bytecode
  import opened Machine

  datatype Turn = Next(state: State) | Suspended(state: State) | Beyond

  // ------------------------------------------------------------------
  // Instructions that stay in their frame

  /** What two integers make, where it is an integer that fits; '/' never does. */
  function Exact(oper: Arithmetic, x: int, y: int): (exact: Option<int>)
    ensures exact.Some? ==> FitsInteger(exact.value)
  {
    var n := match oper
      case Add => x + y
      case Sub => x - y
      case Mul => x * y
      case Div => TWO_TO_THE_64;
    if FitsInteger(n) then Some(n) else None
  }

  predicate Holds(order: Ordering, x: int, y: int) {
    match order
    case Lt => x < y
    case Le => x <= y
    case Gt => x > y
    case Ge => x >= y
  }

  /** A pair of one representation answers on the spot; the rest is Beyond. */
  function ArithmeticAnswer(p: Program, oper: Arithmetic, left: Value, right: Value): Option<Value> {
    if left.tag.IntTag? && right.tag.IntTag? then
      match Exact(oper, left.Integer(), right.Integer())
      case Some(n) => Some(OfInteger(n))
      case None => None
    else if left.tag.RealTag? && right.tag.RealTag? then
      Some(Value(RealTag, p.realOp(oper, left.payload, right.payload)))
    else
      None
  }

  /** How two integers stand; anything with a real in it is Beyond. */
  function OrderAnswer(order: Ordering, left: Value, right: Value): Option<Value> {
    if left.tag.IntTag? && right.tag.IntTag?
    then Some(OfBool(Holds(order, left.Integer(), right.Integer())))
    else None
  }

  function EqualityAnswer(same: bool, left: Value, right: Value): Option<Value> {
    if ExactKind(left) && ExactKind(right)
    then Some(OfBool(ExactlyEqual(left, right) == same))
    else None
  }

  /** A table's dense half at an integer index; everything else is a lookup. */
  function DenseRead(heap: Heap, on: Value, key: Value): Option<Value> {
    if on.tag.ObjectTag? && on.payload in heap.objects && heap.objects[on.payload].Table? &&
       key.tag.IntTag? && key.payload < |heap.objects[on.payload].dense|
    then Some(heap.objects[on.payload].dense[key.payload])
    else None
  }

  function PlaceValue(heap: Heap, slots: seq<Value>, closure: Closure, b: nat): Option<Value> {
    if b < |closure.upvalues| && closure.upvalues[b] in heap.places then
      match heap.places[closure.upvalues[b]]
      case Closed(v) => Some(v)
      case Open(at) => if at < |slots| then Some(slots[at]) else None
    else None
  }

  /** The value an instruction writes into its A, where it only does that. */
  ghost function Answer(p: Program, s: State, i: Instruction): Option<Value>
    requires StateOk(p, s) && s.pc < |ChunkOf(p, s).code| && i == ChunkOf(p, s).code[s.pc]
  {
    var constants := ChunkOf(p, s).constants;
    assert OperandsOk(ChunkOf(p, s), s.pc);
    match i.op
    case LoadK => Some(constants[i.Bx()])
    case LoadNil => Some(NIL)
    case LoadBool => Some(OfBool(i.b != 0))
    case Move => Some(s.R(i.b))
    case Arith(oper, k) => ArithmeticAnswer(p, oper, s.R(i.b), if k then constants[i.c] else s.R(i.c))
    case Order(order, k) => OrderAnswer(order, s.R(i.b), if k then constants[i.c] else s.R(i.c))
    case Equality(same, k) => EqualityAnswer(same, s.R(i.b), if k then constants[i.c] else s.R(i.c))
    case Env => Some(OfObject(p.environment))
    case IsNil => Some(OfBool(s.R(i.b).tag.NilTag?))
    case Not => if s.R(i.b).tag.BoolTag? then Some(OfBool(!s.R(i.b).Truth())) else None
    case This => Some(OfObject(s.Top().closure.ref))
    case GetUpval => PlaceValue(s.heap, s.slots, s.Top().closure, i.b)
    case GetIndex => DenseRead(s.heap, s.R(i.b), s.R(i.c))
    case GetElement => DenseRead(s.heap, s.R(i.b), s.R(i.c))
    case _ => None
  }

  ghost function WorkStep(p: Program, s: State, i: Instruction, work: Work): Turn
    requires s.frames != []
  {
    match work
    case Close => Next(s.(heap := CloseFrom(s.heap, s.slots, s.Top().base + i.a)).At(s.pc + 1))
    case CloseOne => Next(s.(heap := CloseAt(s.heap, s.slots, s.Top().base + i.a)).At(s.pc + 1))
    case _ =>
      match p.work(work, i.a, i.b, i.c, s)
      case Refused(_) => Beyond
      case Done(e) =>
        Next(s.(slots := e.slots, heap := e.heap, pending := e.pending, collector := e.collector,
                carriers := e.carriers).At(s.pc + 1))
  }

  // ------------------------------------------------------------------
  // Jumps

  /** A jump that leaves the chunk is not one its compiler writes. */
  function Goto(count: nat, s: State, i: Instruction, poll: bool): Turn {
    var to := JumpTarget(s.pc, i);
    if 0 <= to <= count then Next(s.(pc := to, polling := poll)) else Beyond
  }

  ghost function JumpFalseStep(count: nat, s: State, i: Instruction): Turn
    requires s.frames != [] && s.Holds(i.a)
  {
    var v := s.R(i.a);
    if !v.tag.BoolTag? then Beyond
    else if v.Truth() then Next(s.At(s.pc + 1))
    else Goto(count, s, i, i.JumpOffset() < 0)
  }

  /** Integers all three; an overflow is past any bound, and the loop is over. */
  ghost function ForLoopStep(count: nat, s: State, i: Instruction, down: bool): Turn
    requires s.frames != [] && s.Holds(i.a + 2)
  {
    var focus, bound, step := s.R(i.a), s.R(i.a + 1), s.R(i.a + 2);
    if !(focus.tag.IntTag? && bound.tag.IntTag? && step.tag.IntTag?) then Beyond
    else
      match Exact(if down then Sub else Add, focus.Integer(), step.Integer())
      case None => Next(s.At(s.pc + 1))
      case Some(n) =>
        var moved := s.SetR(i.a, OfInteger(n));
        if Holds(if down then Ge else Le, n, bound.Integer())
        then Goto(count, moved, i, true)
        else Next(moved.At(s.pc + 1))
  }

  // ------------------------------------------------------------------
  // Calls and returns

  function CalledClosure(heap: Heap, called: Value): Option<Closure> {
    if called.tag.ObjectTag? && called.payload in heap.objects && heap.objects[called.payload].Subroutine?
    then Some(heap.objects[called.payload].closure)
    else None
  }

  /** How many arguments a callee is given: with the receiver, for a method call
      of a body that declares one. */
  function Given(i: Instruction, callee: Proto): nat
    requires i.op.Call?
  {
    if i.op.asMethod && callee.takesSelf then i.b + 1 else i.b
  }

  function Skip(i: Instruction, callee: Proto): nat
    requires i.op.Call?
  {
    if i.op.asMethod && !callee.takesSelf then 2 else 1
  }

  /** A call of this body written this way lays out exactly the window the body
      runs in: no spread, no collected tail, no coroutine to make. */
  predicate PlainCall(i: Instruction, callee: Proto)
    requires i.op.Call?
  {
    && !CallSpread(i.c)
    && !callee.hasVariadic
    && !callee.suspends
    && Given(i, callee) == callee.parameters
  }

  /** Whether a tail call may have this frame for its own. */
  predicate FreeToGo(p: Program, f: Frame)
    requires f.closure.body < |p.bodies|
  {
    f.cleanups == 0 && !f.coroutine && ProtoOf(p, f).kept == 0
  }

  /** A call polls the collector before it asks what it calls. */
  ghost function CallStep(p: Program, unpolled: State, i: Instruction): Turn
    requires StateOk(p, unpolled) && i.op.Call? && unpolled.Holds(i.a)
  {
    var s := unpolled.Polled(p.collect(unpolled));
    match CalledClosure(s.heap, s.R(i.a))
    case None => Beyond
    case Some(closure) =>
      var callee := p.bodies[closure.body];
      var nextBase := s.Top().base + i.a + Skip(i, callee);
      var reuse := i.op.tail && FreeToGo(p, s.Top());
      if !PlainCall(i, callee) then Beyond
      else if !reuse && |s.frames| >= p.frameCapacity then Beyond
      else if nextBase + callee.chunk.registers >= |s.slots| then Beyond
      else
        var slots := ClearScratch(s.slots, nextBase, callee);
        var last := |s.frames| - 1;
        if reuse then
          var over := s.Top().(closure := closure, pc := 0, drop := s.Top().drop || CallDrop(i.c));
          Next(s.(
            heap := CloseFrom(s.heap, slots, s.Top().base),
            slots := MoveDown(slots, s.Top().base, nextBase, callee.chunk.registers),
            frames := s.frames[last := over],
            pc := 0, polling := true))
        else
          var caller := s.Top().(pc := s.pc + 1);
          Next(s.(
            slots := slots,
            frames := s.frames[last := caller] + [NewFrame(closure, nextBase, i.a, CallPrepared(i.c))],
            pc := 0, polling := true))
  }

  /** The compiler writes a method call right after every CALLMEMBER. */
  predicate Paired(chunk: Chunk, pc: nat) {
    pc + 1 < |chunk.code| && chunk.code[pc + 1].op.Call? && chunk.code[pc + 1].op.asMethod
  }

  /** A CALLMEMBER reads the member into A, from what the site remembers or found
      anew; the call it is paired with runs as the next instruction. A member
      that is made and not found is Beyond. */
  ghost function CallMemberStep(p: Program, s: State, i: Instruction): Turn
    requires StateOk(p, s) && s.Holds(i.a) && s.Holds(i.b)
  {
    var remembered := p.member(s.heap, s.Top().closure.body, i.c, s.R(i.b));
    match if remembered.Some? then remembered else p.read(s.heap, s.Top().closure.body, i.c, s.R(i.b))
    case None => Beyond
    case Some(hit) =>
      var lent := if hit.lent.Some? then s.SetR(i.b, hit.lent.value) else s;
      Next(lent.SetR(i.a, hit.value).At(s.pc + 1))
  }

  /** A return that pops its frame and is done: none of what the drain is for
      (cleanups, coroutines, an operator's answer, the run's end) is there. */
  predicate NothingToDrain(p: Program, s: State)
    requires s.frames != []
  {
    && |s.frames| > p.runBase + 1
    && s.Top().cleanups == 0 && !s.Top().coroutine && !s.Top().derive
    && s.carriers == 0
  }

  /** One value goes back; a host value and a run of several are laid out by the
      drain, which is Beyond. */
  ghost function ReturnStep(p: Program, s: State, answer: Value): Turn
    requires StateOk(p, s)
  {
    var top := s.Top();
    var value := if top.drop then NIL else answer;
    if !NothingToDrain(p, s) then Beyond
    else if value.tag.HostValueTag? || value.tag.RunTag? then Beyond
    else
      var heap := CloseFrom(s.heap, s.slots, top.base + ProtoOf(p, top).kept);
      var frames := s.frames[..|s.frames| - 1];
      var caller := frames[|frames| - 1];
      assert LinkOk(p, s.frames[|s.frames| - 2], top);
      assert FrameOk(p, s, s.frames[|s.frames| - 2]);
      Next(s.(heap := heap, frames := frames).SetR(top.result, value).At(caller.pc))
  }

  // ------------------------------------------------------------------
  // One turn

  /** LHAT_SLICE_POLL: counts a slice that has a bound, and ends it at zero. */
  function Poll(s: State): Turn {
    if s.steps == 0 then Next(s.(polling := false))
    else if s.steps == 1 then Suspended(s.(steps := 0))
    else Next(s.(steps := s.steps - 1, polling := false))
  }

  ghost function Execute(p: Program, s: State, i: Instruction): Turn
    requires StateOk(p, s) && s.pc < |ChunkOf(p, s).code| && i == ChunkOf(p, s).code[s.pc]
  {
    assert OperandsOk(ChunkOf(p, s), s.pc);
    match i.op
    case Jump => Goto(|ChunkOf(p, s).code|, s, i, i.JumpOffset() < 0)
    case JumpFalse => JumpFalseStep(|ChunkOf(p, s).code|, s, i)
    case ForLoop(down) => ForLoopStep(|ChunkOf(p, s).code|, s, i, down)
    case InC(work) => WorkStep(p, s, i, work)
    case Call(_, _) => CallStep(p, s, i)
    case CallMember => if Paired(ChunkOf(p, s), s.pc) then CallMemberStep(p, s, i) else Beyond
    case Return => if i.b == 0 then ReturnStep(p, s, s.R(i.a)) else Beyond
    case ReturnNil => ReturnStep(p, s, NIL)
    case _ =>
      match Answer(p, s, i)
      case None => Beyond
      case Some(v) => Next(s.SetR(i.a, v).At(s.pc + 1))
  }

  ghost function Step(p: Program, s: State): Turn
    requires StateOk(p, s)
  {
    if s.polling then Poll(s)
    else if s.pc >= |ChunkOf(p, s).code| || s.Interrupted() then Beyond
    else Execute(p, s, ChunkOf(p, s).code[s.pc])
  }
}
