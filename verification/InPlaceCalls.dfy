/** Calls and returns as the runtime makes them: a machine's slots in two arrays
    and its frames, changed in place (jit/jit.c, jit_call and jit_return). */
module InPlaceCalls {
  import opened Wrappers
  import opened Bytecode
  import opened Machine
  import Interpreter
  import Preservation
  import opened Stencils
  import opened Layout
  import opened Calls
  import CallRefinement

  class Runtime {
    const values: array<Word>
    const tags: array<Tag>
    var frames: seq<Frame>
    var links: seq<Option<Address>>
    var heap: Heap
    var steps: nat
    var traps: bool
    var carriers: nat
    var callees: Callees

    constructor (values: array<Word>, tags: array<Tag>, frames: seq<Frame>, heap: Heap,
                 steps: nat, traps: bool, carriers: nat)
      requires values.Length == tags.Length
      ensures this.values == values && this.tags == tags && this.frames == frames && this.heap == heap
      ensures this.steps == steps && this.traps == traps && this.carriers == carriers
      ensures links == seq(|frames|, _ => None) && callees == map[]
    {
      this.values, this.tags, this.frames, this.heap := values, tags, frames, heap;
      this.steps, this.traps, this.carriers := steps, traps, carriers;
      links, callees := seq(|frames|, _ => None), map[];
    }

    ghost predicate Slots(slots: seq<Value>)
      reads values, tags
    {
      && |slots| == values.Length == tags.Length
      && forall i | 0 <= i < |slots| :: slots[i] == Value(tags[i], values[i])
    }

    /** The machine is in the state `s`, its frames' jit_return being `returnsTo`. */
    ghost predicate Sees(s: State, returnsTo: seq<Option<Address>>)
      reads this, values, tags
    {
      && Slots(s.slots)
      && frames == s.frames && links == returnsTo && heap == s.heap
      && steps == s.steps && traps == s.Traps() && carriers == s.carriers
    }

    // ----------------------------------------------------------------
    // Slots

    method ClearRegisters(base: nat, callee: Proto, ghost slots: seq<Value>)
      requires Slots(slots) && base + callee.chunk.registers <= |slots|
      modifies tags
      ensures Slots(ClearScratch(slots, base, callee))
    {
      var i := callee.parameterSlots;
      while i < callee.chunk.registers
        invariant callee.parameterSlots <= i
        invariant forall j | 0 <= j < |slots| ::
          tags[j] == if base + callee.parameterSlots <= j < base + callee.chunk.registers && j < base + i
                     then NilTag else slots[j].tag
      {
        tags[base + i] := NilTag;
        i := i + 1;
      }
    }

    /** A window moving down over the one below it, which it may overlap: copied
        upward, each slot is read before it is written over. */
    method MoveWindow(to: nat, from: nat, count: nat, ghost slots: seq<Value>)
      requires Slots(slots) && to <= from && from + count <= |slots|
      modifies values, tags
      ensures Slots(MoveDown(slots, to, from, count))
    {
      for i := 0 to count
        invariant Slots(MoveDown(slots, to, from, i))
      {
        MovedOneMore(slots, to, from, i);
        CopySlot(to + i, from + i, MoveDown(slots, to, from, i));
      }
    }

    method CopySlot(to: nat, from: nat, ghost slots: seq<Value>)
      requires Slots(slots) && to < |slots| && from < |slots|
      modifies values, tags
      ensures Slots(slots[to := slots[from]])
    {
      values[to] := values[from];
      tags[to] := tags[from];
    }

    /** What the slots hold, read out. */
    method Snapshot(ghost slots: seq<Value>) returns (now: seq<Value>)
      requires Slots(slots)
      ensures now == slots
    {
      now := [];
      for i := 0 to values.Length
        invariant now == slots[..i]
      {
        now := now + [Value(tags[i], values[i])];
      }
    }

    // ----------------------------------------------------------------
    // Frames

    method Take(i: Instruction, closure: Closure, callee: Proto, nextBase: nat,
                ghost s: State, ghost returnsTo: seq<Option<Address>>)
      requires Sees(s, returnsTo) && s.frames != [] && s.Top().base <= nextBase
      requires nextBase + callee.chunk.registers <= |s.slots|
      modifies this`frames, this`heap, values, tags
      ensures Sees(TakeOver(s, i, closure, callee, nextBase), returnsTo)
    {
      ghost var cleared := ClearScratch(s.slots, nextBase, callee);
      ClearRegisters(nextBase, callee, s.slots);
      var top := frames[|frames| - 1];
      var now := Snapshot(cleared);
      heap := CloseFrom(heap, now, top.base);
      MoveWindow(top.base, nextBase, callee.chunk.registers, cleared);
      frames := frames[|frames| - 1 := top.(closure := closure, pc := 0, drop := CallDrop(i.c) || top.drop)];
    }

    method Push(i: Instruction, closure: Closure, callee: Proto, nextBase: nat, resume: nat, to: Option<Address>,
                ghost s: State, ghost returnsTo: seq<Option<Address>>)
      requires Sees(s, returnsTo) && s.frames != []
      requires nextBase + callee.chunk.registers <= |s.slots|
      modifies this`frames, this`links, tags
      ensures Sees(PushOn(s, i, closure, callee, nextBase, resume), returnsTo + [to])
    {
      ClearRegisters(nextBase, callee, s.slots);
      frames := frames[|frames| - 1 := frames[|frames| - 1].(pc := resume)]
                + [NewFrame(closure, nextBase, i.a, CallPrepared(i.c))];
      links := links + [to];
    }

    // ----------------------------------------------------------------
    // The helpers

    /** The helper ended as `o` says: with code to go on in, or a leave_pc. */
    ghost predicate Ended(to: Option<Address>, leavePc: nat, m: Moving)
      reads this, values, tags
    {
      && Sees(m.outcome.state, m.returnsTo) && callees == m.callees
      && match m.outcome
         case Moved(_, at) => to == Some(at)
         case Leave(_, pc) => to == None && leavePc == pc
         case _ => false
    }

    method Enter(w: World, site: (nat, nat), callee: nat,
                 ghost moved: State, ghost returnsTo: seq<Option<Address>>) returns (to: Option<Address>)
      requires WorldOk(w) && CalleesOk(w, callees) && Sees(moved, returnsTo)
      modifies this`steps, this`callees
      ensures Ended(to, 0, EnterBody(w, old(callees), moved, returnsTo, site, callee))
    {
      hide WorldOk, CalleesOk, EnterAt;
      if steps == 1 || traps {
        return None;
      }
      if steps != 0 {
        steps := steps - 1;
      }
      if site in callees && callees[site] == callee {
        KnownHasCode(w, callees, site);
        return Some(Address(callee, w.codes[callee].entries[0]));
      }
      to := EntryOf(w, Counted(moved), callee, 0, returnsTo);
      if to.Some? {
        callees := callees[site := callee];
      }
    }

    /** enter_at, asked of the machine as it stands. */
    method EntryOf(w: World, ghost s: State, body: nat, pc: nat, ghost returnsTo: seq<Option<Address>>)
      returns (to: Option<Address>)
      requires Sees(s, returnsTo)
      ensures to == EnterAt(w, s, body, pc)
    {
      if traps || body !in w.codes {
        return None;
      }
      var code := w.codes[body];
      if pc < |code.enter| && pc < |code.entries| && code.enter[pc] {
        return Some(Address(body, code.entries[pc]));
      }
      to := None;
    }

    /** jit_call, once it knows which instruction says what to call. */
    method Call(w: World, pc: nat, i: Instruction, resume: nat,
                ghost s: State, ghost returnsTo: seq<Option<Address>>)
      returns (to: Option<Address>, leavePc: nat)
      requires WorldOk(w) && CalleesOk(w, callees) && Sees(s, returnsTo)
      requires StateOk(w.p, s) && |returnsTo| == |s.frames| && i.op.Call?
      requires s.Top().closure.body in w.codes && pc < |ChunkOf(w.p, s).code|
      requires i.a < ChunkOf(w.p, s).registers && s.Holds(i.a)
      requires SiteInstruction(ChunkOf(w.p, s), pc) == Some(i)
      modifies this`frames, this`links, this`heap, this`steps, this`callees, values, tags
      ensures Ended(to, leavePc, EnterCall(w, old(callees), s, returnsTo, pc, i, resume))
    {
      hide StateOk, WorldOk, CalleesOk, EnterBody, EnterCall, ClearScratch, MoveDown, CloseFrom, ResumeAddress;
      CallRefinement.EnterCallIs(w, callees, s, returnsTo, pc, i, resume);
      Preservation.TopFacts(w.p, s);
      to, leavePc := None, pc;
      var top := frames[|frames| - 1];
      var called := Interpreter.CalledClosure(heap, Value(tags[top.base + i.a], values[top.base + i.a]));
      if called.None? {
        return;
      }
      var closure := called.value;
      var callee := w.p.bodies[closure.body];
      var site := (top.closure.body, pc);
      var known := site in callees && callees[site] == closure.body;
      if known {
        BodiesOf(w);
        RememberedIsPlain(w, callees, site, i);
      } else if !Interpreter.PlainCall(i, callee) {
        return;
      }
      var nextBase := top.base + i.a + Interpreter.Skip(i, callee);
      var reuse := i.op.tail && Interpreter.FreeToGo(w.p, top);
      if (!reuse && |frames| >= w.p.frameCapacity) || nextBase + callee.chunk.registers >= values.Length {
        return;
      }
      if reuse {
        Take(i, closure, callee, nextBase, s, returnsTo);
      } else {
        Push(i, closure, callee, nextBase, resume, ResumeAddress(w, top.closure.body, pc), s, returnsTo);
      }
      leavePc := 0;
      to := Enter(w, site, closure.body, MovedInto(w.p, s, i, closure, resume), Links(w, s, returnsTo, pc, i));
    }

    /** The frame on top goes, and its answer into its caller's window. */
    method Pop(kept: nat, value: Value, caller: Frame, ghost s: State, ghost returnsTo: seq<Option<Address>>)
      requires Sees(s, returnsTo) && |returnsTo| == |s.frames| >= 2
      requires caller == s.frames[|s.frames| - 2] && caller.base + s.Top().result < |s.slots|
      modifies this`frames, this`links, this`heap, values, tags
      ensures Sees(Popped(s, kept, value), returnsTo[..|returnsTo| - 1])
    {
      hide CloseFrom;
      var top := frames[|frames| - 1];
      var now := Snapshot(s.slots);
      heap := CloseFrom(heap, now, top.base + kept);
      frames, links := frames[..|frames| - 1], links[..|links| - 1];
      values[caller.base + top.result] := value.payload;
      tags[caller.base + top.result] := value.tag;
    }

    /** jit_return. */
    method Return(w: World, pc: nat, a: Byte, nil: bool, ghost s: State, ghost returnsTo: seq<Option<Address>>)
      returns (to: Option<Address>, leavePc: nat)
      requires WorldOk(w) && Sees(s, returnsTo)
      requires StateOk(w.p, s) && |returnsTo| == |s.frames| && s.Holds(a)
      modifies this`frames, this`links, this`heap, values, tags
      ensures Ended(to, leavePc, JitReturn(w, s, returnsTo, old(callees), pc, a, nil))
    {
      hide StateOk, WorldOk, CloseFrom, EnterAt, FrameOk, LinkOk, ClosureOk, JitReturn, Popped;
      Preservation.TopFacts(w.p, s);
      ReturnIs(w, s, returnsTo, callees, pc, a, nil);
      to, leavePc := None, pc;
      var top := frames[|frames| - 1];
      if |frames| <= w.p.runBase + 1 || top.cleanups != 0 || top.coroutine || top.derive || carriers != 0 {
        return;
      }
      var value := if nil then NIL else Value(tags[top.base + a], values[top.base + a]);
      if value.tag.HostValueTag? {
        return;
      }
      if top.drop {
        value := NIL;
      }
      var resume, caller := links[|links| - 1], frames[|frames| - 2];
      var kept := ProtoOf(w.p, top).kept;
      Pop(kept, value, caller, s, returnsTo);
      leavePc := caller.pc;
      if resume.Some? {
        to := if traps then None else resume;
      } else {
        to := EntryOf(w, Popped(s, kept, value), caller.closure.body, caller.pc, links);
      }
    }
  }

  lemma MovedOneMore(slots: seq<Value>, to: nat, from: nat, i: nat)
    requires to <= from && from + i < |slots|
    ensures var moved := MoveDown(slots, to, from, i);
            MoveDown(slots, to, from, i + 1) == moved[to + i := moved[from + i]]
  {
  }

  ghost function Popped(s: State, kept: nat, value: Value): State
    requires |s.frames| >= 2 && s.frames[|s.frames| - 2].base + s.Top().result < |s.slots|
  {
    s.(heap := CloseFrom(s.heap, s.slots, s.Top().base + kept), frames := s.frames[..|s.frames| - 1])
    .SetR(s.Top().result, value).At(s.frames[|s.frames| - 2].pc)
  }

  lemma ReturnIs(w: World, s: State, returnsTo: seq<Option<Address>>, callees: Callees, pc: nat, a: Byte, nil: bool)
    requires WorldOk(w) && StateOk(w.p, s) && |returnsTo| == |s.frames| && s.Holds(a)
    ensures var m := JitReturn(w, s, returnsTo, callees, pc, a, nil);
            if Interpreter.NothingToDrain(w.p, s) && !(if nil then NIL else s.R(a)).tag.HostValueTag? then
              var last := |s.frames| - 1;
              && |s.frames| >= 2 && s.frames[last - 1].base + s.Top().result < |s.slots|
              && var t := Popped(s, ProtoOf(w.p, s.Top()).kept,
                                 if s.Top().drop then NIL else if nil then NIL else s.R(a));
                 var caller := s.frames[last - 1];
                 var to := if returnsTo[last].None? then EnterAt(w, t, caller.closure.body, caller.pc)
                           else if s.Traps() then None else returnsTo[last];
                 m == Moving(if to.None? then Leave(t, caller.pc) else Moved(t, to.value), returnsTo[..last], callees)
            else m == Moving(Leave(s, pc), returnsTo, callees)
  {
    hide WorldOk, CloseFrom, EnterAt, StateOk;
    Preservation.TopFacts(w.p, s);
    if Interpreter.NothingToDrain(w.p, s) {
      LinkFacts(w.p, s);
    }
  }

  lemma BodiesOf(w: World)
    requires WorldOk(w)
    ensures BodiesOk(w.p)
  {
  }

  /** A body remembered at a site passes the site's checks unasked. */
  lemma RememberedIsPlain(w: World, callees: Callees, site: (nat, nat), i: Instruction)
    requires BodiesOk(w.p) && CalleesOk(w, callees) && site in callees && site.0 < |w.p.bodies|
    requires SiteInstruction(w.p.bodies[site.0].chunk, site.1) == Some(i) && i.op.Call?
    ensures callees[site] < |w.p.bodies| && Interpreter.PlainCall(i, w.p.bodies[callees[site]])
  {
    assert CalleeOk(w, site, callees[site]);
  }
}
