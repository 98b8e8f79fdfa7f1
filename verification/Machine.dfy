/** The parts of a machine that compiled code and the interpreter both move:
    slots, frames, the slice's steps, and the objects a stencil looks into
    (src/machine.h, src/vm_internal.h, src/vm_call.c). */
module Machine {
  import opened Wrappers
  import opened Bytecode

  /** Where a piece of compiled code begins: the body whose code it is, and how
      far into that body's memory. */
  datatype Address = Address(body: nat, offset: nat)

  /** A subroutine object: the closure of one body over the places it shares. */
  datatype Closure = Closure(ref: Word, body: nat, upvalues: seq<nat>)

  datatype Object =
    | Table(dense: seq<Value>)
    | Subroutine(closure: Closure)
    | Native
    | OtherObject

  /** An open upvalue aims at a slot; a closed one holds its value. */
  datatype Place = Open(slot: nat) | Closed(value: Value)

  datatype Heap = Heap(objects: map<Word, Object>, places: map<nat, Place>)

  /** `collector` is how far the collector has come: a step of it moves it on, and
      nothing moves it back. A frame's `jit_return` is not here but beside the frames (Calls.Config):
      only compiled code reads it. */
  datatype Frame = Frame(
    closure: Closure, pc: nat, base: nat, result: nat, prepared: nat,
    cleanups: nat, coroutine: bool, derive: bool, drop: bool, disposing: bool)

  datatype State = State(
    slots: seq<Value>, frames: seq<Frame>, heap: Heap,
    steps: nat, pending: bool, hook: bool, collector: nat, carriers: nat,
    pc: nat, polling: bool)
  {
    function Top(): Frame
      requires frames != []
    {
      frames[|frames| - 1]
    }

    predicate Holds(r: nat)
      requires frames != []
    {
      Top().base + r < |slots|
    }

    function R(r: nat): Value
      requires frames != [] && Holds(r)
    {
      slots[Top().base + r]
    }

    function SetR(r: nat, v: Value): (s: State)
      requires frames != [] && Holds(r)
    {
      this.(slots := slots[Top().base + r := v])
    }

    /** The traps word: a coroutine the collector held back waits to be disposed
        of, or the debugger's hook is live. */
    predicate Traps() { pending || hook }

    /** What the interpreter turns to at an instruction's boundary before it runs
        the instruction; a disposal under way lets the next one wait. */
    predicate Interrupted()
      requires frames != []
    {
      hook || (pending && !Top().disposing)
    }

    function At(pc: nat): State { this.(pc := pc, polling := false) }

    /** The collector polled. */
    function Polled(poll: Poll): State {
      this.(collector := poll.collector, pending := pending || poll.held)
    }
  }

  /** What does not change while compiled code runs. `realOp`, `member`, `read`,
      `work` and `collect` are the machine's own operations: real arithmetic, a
      member cache's answer, a member found without it, the work of an
      instruction done in C, and a poll of the collector. */
  datatype Program = Program(
    bodies: seq<Proto>, frameCapacity: nat, runBase: nat, environment: Word,
    realOp: (Arithmetic, Word, Word) -> Word,
    member: (Heap, nat, nat, Value) -> Option<Hit>,
    read: (Heap, nat, nat, Value) -> Option<Hit>,
    work: (Work, Byte, Byte, Byte, State) -> Worked,
    collect: State -> Poll)

  /** A poll of the collector: where it has come to, and whether it held a coroutine
      back for its cleanups. */
  datatype Poll = Poll(collector: nat, held: bool)

  /** A member found; `lent` is what lent it through a delegate^, which the
      read puts in the receiver's slot. */
  datatype Hit = Hit(value: Value, lent: Option<Value>)

  /** What an instruction done in C may change. */
  datatype Effect = Effect(slots: seq<Value>, heap: Heap, pending: bool, collector: nat, carriers: nat)

  /** Refused, the work left no trace but that of the collector's poll it may begin
      with. */
  datatype Worked = Done(effect: Effect) | Refused(poll: Poll)

  function ProtoOf(p: Program, f: Frame): Proto
    requires f.closure.body < |p.bodies|
  {
    p.bodies[f.closure.body]
  }

  function ChunkOf(p: Program, s: State): Chunk
    requires s.frames != [] && s.Top().closure.body < |p.bodies|
  {
    ProtoOf(p, s.Top()).chunk
  }

  // ------------------------------------------------------------------
  // Well-formed states

  ghost predicate BodiesOk(p: Program) {
    && (forall b <- p.bodies :: ChunkOk(b.chunk) && b.parameterSlots <= b.chunk.registers)
    && (forall w, a, b, c, s: State ::
          p.work(w, a, b, c, s).Done? && HeapOk(p, s.heap, |s.slots|) ==>
            var done := p.work(w, a, b, c, s).effect;
            && |done.slots| == |s.slots|
            && (s.pending ==> done.pending) && s.collector <= done.collector
            && HeapOk(p, done.heap, |s.slots|)
            && forall f <- s.frames :: ClosureOk(p, s.heap, f.closure) ==> ClosureOk(p, done.heap, f.closure))
    && (forall w, a, b, c, s: State ::
          p.work(w, a, b, c, s).Refused? ==> PollOk(s, p.work(w, a, b, c, s).poll))
    && (forall s: State :: PollOk(s, p.collect(s)))
    && MembersOk(p)
  }

  /** The collector holds back only in a step it takes. */
  predicate PollOk(s: State, poll: Poll) {
    s.collector <= poll.collector && (poll.held ==> s.collector < poll.collector)
  }

  /** What a site remembers is what the lookup finds; and what lent a member has it
      as its own (Delegates.LenderHasItself). */
  ghost predicate MembersOk(p: Program) {
    && (forall heap, body, site, on ::
          p.member(heap, body, site, on).Some? ==> p.read(heap, body, site, on) == p.member(heap, body, site, on))
    && (forall heap, body, site, on ::
          p.read(heap, body, site, on).Some? && p.read(heap, body, site, on).value.lent.Some? ==>
            var hit := p.read(heap, body, site, on).value;
            p.read(heap, body, site, hit.lent.value) == Some(Hit(hit.value, None)))
  }

  ghost predicate HeapOk(p: Program, heap: Heap, slots: nat) {
    && (forall o <- heap.objects :: heap.objects[o].Subroutine? ==>
          ClosureOk(p, heap, heap.objects[o].closure))
    && (forall u <- heap.places :: heap.places[u].Open? ==> heap.places[u].slot < slots)
  }

  predicate ClosureOk(p: Program, heap: Heap, c: Closure) {
    c.body < |p.bodies| && forall u <- c.upvalues :: u in heap.places
  }

  /** A frame's window lies inside the slots, below the end the call asked for. */
  predicate FrameOk(p: Program, s: State, f: Frame) {
    && ClosureOk(p, s.heap, f.closure)
    && f.base + ProtoOf(p, f).chunk.registers < |s.slots|
    && (f.disposing ==> f.coroutine)
  }

  /** The answer of `callee` goes into its caller's window, or into the slot just
      past it where a disposal's goes unread, and the caller goes on inside its
      own code. */
  predicate LinkOk(p: Program, caller: Frame, callee: Frame) {
    && caller.closure.body < |p.bodies|
    && callee.result <= ProtoOf(p, caller).chunk.registers
    && caller.pc <= |ProtoOf(p, caller).chunk.code|
  }

  ghost predicate FramesOk(p: Program, s: State) {
    && s.frames != []
    && (forall k | 0 <= k < |s.frames| :: FrameOk(p, s, s.frames[k]))
    && (forall k | 0 < k < |s.frames| :: LinkOk(p, s.frames[k - 1], s.frames[k]))
  }

  ghost predicate StateOk(p: Program, s: State) {
    && BodiesOk(p)
    && HeapOk(p, s.heap, |s.slots|)
    && FramesOk(p, s)
    && FrameOk(p, s, s.Top())
    && s.pc <= |ChunkOf(p, s).code|
  }

  // ------------------------------------------------------------------
  // What the interpreter's calls and the compiled code's share

  /** vm_close_upvalues: every place at `above` or higher takes its value. */
  function CloseFrom(heap: Heap, slots: seq<Value>, above: nat): Heap
  {
    heap.(places := map u <- heap.places ::
            if heap.places[u].Open? && above <= heap.places[u].slot < |slots|
            then Closed(slots[heap.places[u].slot]) else heap.places[u])
  }

  /** vm_close_one_upvalue: the one place at `slot`. */
  function CloseAt(heap: Heap, slots: seq<Value>, slot: nat): Heap
  {
    heap.(places := map u <- heap.places ::
            if heap.places[u] == Open(slot) && slot < |slots|
            then Closed(slots[slot]) else heap.places[u])
  }

  /** vm_clear_scratch: the registers past the parameters lose their tags, and
      keep whatever payload lay there. */
  function ClearScratch(slots: seq<Value>, base: nat, callee: Proto): (cleared: seq<Value>)
    requires base + callee.chunk.registers <= |slots|
    ensures |cleared| == |slots|
  {
    seq(|slots|, i requires 0 <= i < |slots| =>
      if base + callee.parameterSlots <= i < base + callee.chunk.registers
      then slots[i].(tag := NilTag) else slots[i])
  }

  /** A tail call's window moving down onto the frame it takes over. */
  function MoveDown(slots: seq<Value>, to: nat, from: nat, count: nat): (moved: seq<Value>)
    requires to <= from && from + count <= |slots|
    ensures |moved| == |slots|
  {
    seq(|slots|, i requires 0 <= i < |slots| =>
      if to <= i < to + count then slots[from + (i - to)] else slots[i])
  }

  /** vm_push_frame. */
  function NewFrame(closure: Closure, base: nat, result: nat, prepared: nat): Frame {
    Frame(closure, 0, base, result, prepared, 0, false, false, false, false)
  }
}
