/** What every turn of the interpreter keeps: frames whose windows lie inside
    the slots, answers and resumptions that land inside their callers. */
module Preservation {
  import opened Wrappers
  import opened Bytecode
  import opened Machine
  import opened Interpreter

  /** Writing a register of the frame on top keeps a state well formed. */
  lemma SetRKeeps(p: Program, s: State, r: nat, v: Value)
    requires StateOk(p, s) && s.Holds(r)
    ensures StateOk(p, s.SetR(r, v)) && s.SetR(r, v).Top() == s.Top()
  {
    SameFrames(p, s, s.SetR(r, v));
  }

  /** Where the frames, the heap and the number of slots stay, only the pc counts. */
  lemma SameFrames(p: Program, s: State, t: State)
    requires StateOk(p, s)
    requires t.frames == s.frames && t.heap == s.heap && |t.slots| == |s.slots|
    requires t.pc <= |ChunkOf(p, s).code|
    ensures StateOk(p, t)
  {
    assert forall k | 0 <= k < |t.frames| :: FrameOk(p, s, s.frames[k]) ==> FrameOk(p, t, t.frames[k]);
  }

  /** A heap that still holds every frame's places. */
  lemma OtherHeap(p: Program, s: State, t: State)
    requires StateOk(p, s)
    requires t.frames == s.frames && |t.slots| == |s.slots|
    requires HeapOk(p, t.heap, |s.slots|)
    requires forall f <- s.frames :: ClosureOk(p, s.heap, f.closure) ==> ClosureOk(p, t.heap, f.closure)
    requires t.pc <= |ChunkOf(p, s).code|
    ensures StateOk(p, t)
  {
    forall k | 0 <= k < |t.frames| ensures FrameOk(p, t, t.frames[k]) {
      assert FrameOk(p, s, s.frames[k]);
      assert s.frames[k] in s.frames;
    }
  }

  lemma CloseFromKeeps(p: Program, heap: Heap, slots: seq<Value>, above: nat)
    requires HeapOk(p, heap, |slots|)
    ensures HeapOk(p, CloseFrom(heap, slots, above), |slots|)
    ensures CloseFrom(heap, slots, above).objects == heap.objects
    ensures CloseFrom(heap, slots, above).places.Keys == heap.places.Keys
  {
    var closed := CloseFrom(heap, slots, above);
    assert forall o | o in heap.objects && heap.objects[o].Subroutine? ::
      ClosureOk(p, heap, heap.objects[o].closure) ==> ClosureOk(p, closed, heap.objects[o].closure);
  }

  lemma CloseAtKeeps(p: Program, heap: Heap, slots: seq<Value>, slot: nat)
    requires HeapOk(p, heap, |slots|)
    ensures HeapOk(p, CloseAt(heap, slots, slot), |slots|)
    ensures CloseAt(heap, slots, slot).objects == heap.objects
    ensures CloseAt(heap, slots, slot).places.Keys == heap.places.Keys
  {
    var closed := CloseAt(heap, slots, slot);
    assert forall o | o in heap.objects && heap.objects[o].Subroutine? ::
      ClosureOk(p, heap, heap.objects[o].closure) ==> ClosureOk(p, closed, heap.objects[o].closure);
  }

  lemma SamePlaces(p: Program, heap: Heap, other: Heap, c: Closure)
    requires ClosureOk(p, heap, c) && other.places.Keys == heap.places.Keys
    ensures ClosureOk(p, other, c)
  {
  }

  // ------------------------------------------------------------------
  // Frames

  lemma WorkKeeps(p: Program, s: State, i: Instruction, work: Work)
    requires StateOk(p, s) && s.pc < |ChunkOf(p, s).code|
    requires WorkStep(p, s, i, work).Next?
    ensures StateOk(p, WorkStep(p, s, i, work).state)
  {
    var t := WorkStep(p, s, i, work).state;
    match work {
      case Close =>
        CloseFromKeeps(p, s.heap, s.slots, s.Top().base + i.a);
      case CloseOne =>
        CloseAtKeeps(p, s.heap, s.slots, s.Top().base + i.a);
      case _ =>
        assert p.work(work, i.a, i.b, i.c, s).Done?;
    }
    OtherHeap(p, s, t);
  }

  /** A frame taken over: its caller's link asks nothing of the body in it. */
  lemma TakenOverKeeps(p: Program, s: State, t: State, over: Frame)
    requires StateOk(p, s)
    requires t.frames == s.frames[|s.frames| - 1 := over] && |t.slots| == |s.slots|
    requires HeapOk(p, t.heap, |s.slots|) && t.heap.places.Keys == s.heap.places.Keys
    requires over.result == s.Top().result && t.pc == 0
    requires FrameOk(p, t, over)
    ensures StateOk(p, t)
  {
    forall k | 0 <= k < |t.frames| ensures FrameOk(p, t, t.frames[k]) {
      assert FrameOk(p, s, s.frames[k]);
    }
    forall k | 0 < k < |t.frames| ensures LinkOk(p, t.frames[k - 1], t.frames[k]) {
      assert LinkOk(p, s.frames[k - 1], s.frames[k]);
    }
  }

  lemma PushedKeeps(p: Program, s: State, t: State, resume: nat, pushed: Frame)
    requires StateOk(p, s)
    requires t.frames == s.frames[|s.frames| - 1 := s.Top().(pc := resume)] + [pushed] && |t.slots| == |s.slots|
    requires t.heap == s.heap && t.pc == 0 && resume <= |ChunkOf(p, s).code|
    requires pushed.result < ChunkOf(p, s).registers
    requires FrameOk(p, t, pushed)
    ensures StateOk(p, t)
  {
    forall k | 0 <= k < |t.frames| ensures FrameOk(p, t, t.frames[k]) {
      assert k < |s.frames| ==> FrameOk(p, s, s.frames[k]);
    }
    forall k | 0 < k < |t.frames| ensures LinkOk(p, t.frames[k - 1], t.frames[k]) {
      assert k < |s.frames| ==> LinkOk(p, s.frames[k - 1], s.frames[k]);
    }
  }

  lemma CallKeeps(p: Program, s: State, i: Instruction)
    requires StateOk(p, s) && s.pc < |ChunkOf(p, s).code| && i.op.Call?
    requires i.a < ChunkOf(p, s).registers && s.Holds(i.a)
    requires CallStep(p, s, i).Next?
    ensures StateOk(p, CallStep(p, s, i).state)
  {
    var t := CallStep(p, s, i).state;
    var closure := CalledClosure(s.heap, s.R(i.a)).value;
    assert ClosureOk(p, s.heap, closure);
    var callee := p.bodies[closure.body];
    var nextBase := s.Top().base + i.a + Skip(i, callee);
    var slots := ClearScratch(s.slots, nextBase, callee);
    if i.op.tail && FreeToGo(p, s.Top()) {
      CloseFromKeeps(p, s.heap, slots, s.Top().base);
      SamePlaces(p, s.heap, t.heap, closure);
      TakenOverKeeps(p, s, t, t.Top());
    } else {
      PushedKeeps(p, s, t, s.pc + 1, t.Top());
    }
  }

  lemma ReturnKeeps(p: Program, s: State, answer: Value)
    requires StateOk(p, s)
    requires ReturnStep(p, s, answer).Next?
    ensures StateOk(p, ReturnStep(p, s, answer).state)
  {
    var t := ReturnStep(p, s, answer).state;
    var top, last := s.Top(), |s.frames| - 1;
    assert LinkOk(p, s.frames[last - 1], top);
    CloseFromKeeps(p, s.heap, s.slots, top.base + ProtoOf(p, top).kept);
    forall k | 0 <= k < |t.frames| ensures FrameOk(p, t, t.frames[k]) {
      assert FrameOk(p, s, s.frames[k]);
      SamePlaces(p, s.heap, t.heap, s.frames[k].closure);
    }
    forall k | 0 < k < |t.frames| ensures LinkOk(p, t.frames[k - 1], t.frames[k]) {
      assert LinkOk(p, s.frames[k - 1], s.frames[k]);
    }
  }

  lemma CallMemberKeeps(p: Program, s: State, i: Instruction)
    requires StateOk(p, s) && s.pc < |ChunkOf(p, s).code|
    requires s.Holds(i.a) && s.Holds(i.b)
    requires CallMemberStep(p, s, i).Next?
    ensures StateOk(p, CallMemberStep(p, s, i).state)
  {
    SameFrames(p, s, CallMemberStep(p, s, i).state);
  }

  // ------------------------------------------------------------------
  // One turn

  /** What the frame on top and its instruction may rely on. */
  lemma TopFacts(p: Program, s: State)
    requires StateOk(p, s)
    ensures s.frames != [] && s.Top().closure.body < |p.bodies|
    ensures ChunkOk(ChunkOf(p, s)) && s.pc <= |ChunkOf(p, s).code|
    ensures s.pc < |ChunkOf(p, s).code| ==> OperandsOk(ChunkOf(p, s), s.pc)
    ensures forall r | 0 <= r < ChunkOf(p, s).registers :: s.Holds(r)
  {
  }

  /** Every turn of the interpreter keeps a state well formed. */
  lemma StepKeeps(p: Program, s: State)
    requires StateOk(p, s) && Step(p, s).Next?
    ensures StateOk(p, Step(p, s).state)
  {
    if s.polling {
      SameFrames(p, s, Step(p, s).state);
    } else {
      ExecuteKeeps(p, s, ChunkOf(p, s).code[s.pc]);
    }
  }

  lemma ExecuteKeeps(p: Program, s: State, i: Instruction)
    requires StateOk(p, s) && s.pc < |ChunkOf(p, s).code| && i == ChunkOf(p, s).code[s.pc]
    requires Execute(p, s, i).Next?
    ensures StateOk(p, Execute(p, s, i).state)
  {
    hide CallStep, CallMemberStep, ReturnStep, WorkStep, ForLoopStep, JumpFalseStep, Goto, Answer;
    TopFacts(p, s);
    match i.op {
      case InC(work) => WorkKeeps(p, s, i, work);
      case Call(_, _) => CallKeeps(p, s, i);
      case CallMember => CallMemberKeeps(p, s, i);
      case Return => ReturnKeeps(p, s, s.R(i.a));
      case ReturnNil => ReturnKeeps(p, s, NIL);
      case _ =>
        StaysInFrame(p, s, i);
        SameFrames(p, s, Execute(p, s, i).state);
    }
  }

  lemma StaysInFrame(p: Program, s: State, i: Instruction)
    requires StateOk(p, s) && s.pc < |ChunkOf(p, s).code| && i == ChunkOf(p, s).code[s.pc]
    requires !i.op.InC? && !i.op.Call? && !i.op.CallMember? && !i.op.Return? && !i.op.ReturnNil?
    requires Execute(p, s, i).Next?
    ensures var t := Execute(p, s, i).state;
            t.frames == s.frames && t.heap == s.heap && |t.slots| == |s.slots| && t.pc <= |ChunkOf(p, s).code|
  {
    TopFacts(p, s);
  }
}
