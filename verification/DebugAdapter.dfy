/** The session as the adapter keeps it: fields changed in place under the lock,
    each part of a step proved to be what Debugging says of it (dap/adapter.c). */
module DebugAdapter {
  import opened Wrappers
  import opened Debugging
  import opened DebuggingRuns

  class DapSession {
    var threads: seq<Thread>
    var nextId: nat
    var breaks: seq<Break>
    var stopping: bool
    var pauseAll: bool
    var ended: bool
    var peerEnded: bool
    var detached: bool
    var vars: seq<Var>
    /** What has gone to the debugger. */
    var events: seq<Event>

    // Counted to say when a table was handed out and which run a machine is of.
    var stops: nat
    var run: nat

    // What the session does not keep but acts on: the machines and their hooks,
    // and where the caller is.
    ghost var alive: set<nat>
    ghost var hooked: set<nat>
    ghost var panicked: set<nat>
    ghost var main: nat
    ghost var watching: bool
    ghost var caller: Caller
    ghost var late: set<nat>
    ghost var crowded: bool

    ghost function Now(): Session
      reads this
    {
      Session(threads, nextId, breaks, stopping, pauseAll, ended, peerEnded, detached, vars, stops, events,
              alive, hooked, panicked, main, watching, caller, run, late, crowded)
    }

    constructor (machine: nat)
      ensures Now() == Begin(machine) && Ok(Now())
    {
      threads, nextId, breaks, vars, events := [], 1, [], [], [];
      stopping, pauseAll, ended, peerEnded, detached := false, false, false, false, false;
      stops, alive, hooked, panicked, main, watching, caller, run := 0, {machine}, {}, {}, machine, true, Attached, 0;
      late, crowded := {}, false;
      new;
      AddThread(machine, false);
      BeginsOk(machine);
    }

    // ----------------------------------------------------------------
    // The records

    method ThreadOf(machine: nat) returns (i: nat)
      ensures i == Find(threads, machine)
    {
      i := 0;
      while i < |threads| && threads[i].machine != machine
        invariant i <= |threads|
        invariant forall k | 0 <= k < i :: threads[k].machine != machine
      {
        i := i + 1;
      }
    }

    method ThreadById(id: int) returns (i: nat)
      ensures i == FindId(threads, id)
    {
      i := 0;
      while i < |threads| && threads[i].id != id
        invariant i <= |threads|
        invariant forall k | 0 <= k < i :: threads[k].id != id
      {
        i := i + 1;
      }
    }

    method AddThread(machine: nat, announce: bool)
      modifies this
      ensures Now() == Debugging.AddThread(old(Now()), machine, announce)
    {
      if |threads| >= MAX_THREADS {
        return;
      }
      var t := Thread(machine, nextId, Run, 0, false, false, run);
      Enlist(t);
      if announce {
        events := events + [Started(t.id)];
      }
    }

    method Enlist(t: Thread)
      modifies this`nextId, this`threads, this`hooked
      ensures Now() == old(Now()).(threads := old(threads) + [t], nextId := old(nextId) + 1,
                                   hooked := old(hooked) + {t.machine})
    {
      nextId := nextId + 1;
      threads := threads + [t];
      hooked := hooked + {t.machine};
    }

    /** remove_thread: the last record takes the place of the one that goes. */
    method RemoveThread(i: nat, announce: bool)
      requires i < |threads|
      modifies this
      ensures Now() == Debugging.RemoveThread(old(Now()), i, announce)
    {
      var t := threads[i];
      hooked := hooked - {t.machine};
      var last := |threads| - 1;
      threads := threads[i := threads[last]];
      threads := threads[..last];
      if announce {
        events := events + [Exited(t.id)];
      }
    }

    /** The one record left, where only one is. */
    method DropLast(announce: bool)
      modifies this
      ensures Now() == Drop(old(Now()), announce)
    {
      if |threads| == 1 {
        RemoveThread(0, announce);
      }
    }

    /** machine_born and machine_dying. */
    method MachineBorn(machine: nat)
      requires Ok(Now()) && Enabled(Now(), Birth(machine)) && watching
      modifies this
      ensures Now() == Next(old(Now()), Birth(machine)) && Ok(Now())
    {
      hide Ok, Debugging.AddThread;
      NextKeeps(Now(), Birth(machine));
      alive := alive + {machine};
      late := if caller.Unhooked? then late + {machine} else late;
      if !ended {
        AddThread(machine, true);
      }
    }

    method MachineDying(machine: nat)
      requires Ok(Now()) && Enabled(Now(), Death(machine)) && watching
      modifies this
      ensures Now() == Next(old(Now()), Death(machine)) && Ok(Now())
    {
      hide Ok, Debugging.RemoveThread;
      NextKeeps(Now(), Death(machine));
      alive := alive - {machine};
      var i := ThreadOf(machine);
      if i < |threads| {
        RemoveThread(i, true);
      }
    }

    // ----------------------------------------------------------------
    // The hook

    /** dap_hook up to its wait: false where the machine is to panic. A machine
        that parks waits while Waits holds, and then Woken is the rest. */
    method Hook(machine: nat, fault: bool, hostPoint: bool, depth: nat, breakHit: bool) returns (goesOn: bool)
      requires Ok(Now()) && Enabled(Now(), AtLine(machine, fault, hostPoint, depth, breakHit))
      modifies this
      ensures Now() == Next(old(Now()), AtLine(machine, fault, hostPoint, depth, breakHit)) && Ok(Now())
      ensures goesOn <==> !old(ended) && !old(detached)
    {
      hide Ok, Parks;
      NextKeeps(Now(), AtLine(machine, fault, hostPoint, depth, breakHit));
      if ended || detached {
        panicked := panicked + {machine};
        return false;
      }
      goesOn := true;
      var i := ThreadOf(machine);
      var t := threads[i];
      if fault {
        t := t.(faulted := true);
      }
      var stop := fault || stopping || pauseAll ||
                  (!hostPoint &&
                   (t.mode.StepIn? || (t.mode.StepOver? && depth <= t.stepDepth) ||
                    (t.mode.StepOut? && depth < t.stepDepth) || breakHit));
      if !stop {
        return;
      }
      var reason := if fault then Exception else if pauseAll then Paused
                    else if !t.mode.Run? then Stepped else AtBreakpoint;
      Park(i, t.(mode := Run, parked := true), reason);
    }

    method Park(i: nat, t: Thread, reason: Reason)
      requires i < |threads|
      modifies this
      ensures Now() == Parks(old(Now()), i, t, reason)
    {
      if !stopping {
        stopping := true;
        pauseAll := false;
        vars := [];
        stops := stops + 1;
        events := events + [Stopped(t.id, reason)];
      }
      threads := threads[i := t];
    }

    /** The rest of dap_hook, once the wait has ended: false where the machine is
        to panic. */
    method Woken(machine: nat) returns (goesOn: bool)
      requires Ok(Now()) && Enabled(Now(), WakeUp(machine))
      modifies this
      ensures Now() == Next(old(Now()), WakeUp(machine)) && Ok(Now())
      ensures goesOn <==> !old(ended) && !old(detached)
    {
      hide Ok;
      NextKeeps(Now(), WakeUp(machine));
      var i := ThreadOf(machine);
      threads := threads[i := threads[i].(parked := false)];
      goesOn := !ended && !detached;
      if !goesOn {
        panicked := panicked + {machine};
      }
    }

    // ----------------------------------------------------------------
    // Requests

    method ResumeAll()
      modifies this
      ensures Now() == Debugging.ResumeAll(old(Now()))
    {
      stopping := false;
      pauseAll := false;
      vars := [];
    }

    /** DAP replaces a source's breakpoints: the others close up in place. */
    method ClearBreakpointsFor(source: nat)
      modifies this`breaks
      ensures breaks == WithoutSource(old(breaks), source)
    {
      var kept := 0;
      for i := 0 to |breaks|
        invariant kept <= i && |breaks| == |old(breaks)|
        invariant forall j | i <= j < |breaks| :: breaks[j] == old(breaks)[j]
        invariant breaks[..kept] == WithoutSource(old(breaks)[..i], source)
      {
        WithoutOneMore(old(breaks), i, source);
        if breaks[i].source != source {
          ghost var before := breaks[..kept];
          breaks := breaks[kept := breaks[i]];
          assert breaks[..kept + 1] == before + [old(breaks)[i]];
          kept := kept + 1;
        }
      }
      assert old(breaks)[..|breaks|] == old(breaks);
      breaks := breaks[..kept];
    }

    method SetBreakpoints(source: nat, lines: seq<nat>)
      modifies this`breaks
      ensures Now() == Dispatch(old(Now()), Request.SetBreakpoints(source, lines))
    {
      ClearBreakpointsFor(source);
      ghost var kept := breaks;
      for i := 0 to |lines|
        invariant breaks == kept + seq(i, k requires 0 <= k < i => Break(source, lines[k]))
      {
        breaks := breaks + [Break(source, lines[i])];
      }
    }

    /** decode_scope: the record a scope's reference names, where it is parked. */
    method ScopeOf(ref: int) returns (i: Option<nat>)
      requires Ok(Now())
      ensures match i
              case Some(k) => k < |threads| && ParkedMachine(Now(), ScopeThread(ref)) == Some(threads[k].machine)
              case None => ParkedMachine(Now(), ScopeThread(ref)) == None
    {
      if ref < 2 || ref >= TABLE_REFS {
        NoThreadZero(Now());
        return None;
      }
      var k := ThreadById((ref - 2) / 2 / 1000);
      i := if k < |threads| && threads[k].parked then Some(k) else None;
    }

    /** The variables request: each table answered is handed out, numbered from
        the first free reference. */
    method AnswerVariables(ref: int, tables: nat) returns (first: nat)
      requires Ok(Now()) && !ended && !detached
      modifies this`vars
      ensures Now() == Dispatch(old(Now()), Variables(ref, tables)) && Ok(Now())
      ensures first == |old(vars)|
    {
      hide Ok, FindId;
      VariablesKeep(Now(), ref, tables);
      first := |vars|;
      var machine := 0;
      if ref >= TABLE_REFS {
        var index := ref - TABLE_REFS;
        if index >= |vars| {
          return;
        }
        machine := vars[index].machine;
      } else {
        var i := ScopeOf(ref);
        if i.None? {
          return;
        }
        machine := threads[i.value].machine;
      }
      ghost var before := vars;
      var one := Var(machine, stops);
      for k := 0 to tables
        invariant vars == before + seq(k, _ => one)
      {
        vars := vars + [one];
      }
    }

    method StepThread(id: int, mode: Mode, depth: nat)
      requires Ok(Now()) && !ended && !detached
      modifies this
      ensures Now() == Dispatch(old(Now()), Request.StepThread(id, mode, depth)) && Ok(Now())
    {
      hide Ok;
      DispatchKeeps(Now(), Request.StepThread(id, mode, depth));
      var i := ThreadById(id);
      if i < |threads| {
        var t := threads[i].(mode := mode);
        threads := threads[i := if t.parked then t.(stepDepth := depth) else t];
      }
      ResumeAll();
    }

    method Disconnect()
      requires Ok(Now()) && !ended && !detached
      modifies this
      ensures Now() == Dispatch(old(Now()), Request.Disconnect) && Ok(Now())
    {
      hide Ok;
      DispatchKeeps(Now(), Request.Disconnect);
      ended := true;
      peerEnded := true;
    }

    // ----------------------------------------------------------------
    // The calls around a run

    /** dap_session_detach up to its wait, and after it. */
    method DetachBegins()
      requires Ok(Now()) && Enabled(Now(), DetachBegin)
      modifies this
      ensures Now() == Next(old(Now()), DetachBegin) && Ok(Now())
    {
      hide Ok;
      NextKeeps(Now(), DetachBegin);
      detached := true;
      stopping := false;
      pauseAll := false;
      caller := Detaching;
    }

    method DetachFinishes()
      requires Ok(Now()) && Enabled(Now(), DetachFinish)
      modifies this
      ensures Now() == Next(old(Now()), DetachFinish) && Ok(Now())
      ensures !old(ended) ==> threads == []
    {
      hide Ok, Drop;
      NextKeeps(Now(), DetachFinish);
      DropEmpties(Now(), true);
      DropLast(true);
      vars := [];
      caller, late := Unhooked, {};
    }

    /** dap_session_rebind: refused once the debugger has ended the session. */
    method RebindTo(machine: nat) returns (bound: bool)
      requires Ok(Now()) && caller.Between? && machine !in alive && !Follows(threads, machine)
      modifies this
      ensures bound <==> !old(ended)
      ensures if bound then Now() == Next(old(Now()), Rebind(machine)) && Ok(Now()) else Now() == old(Now())
      ensures bound ==> breaks == old(breaks)
      ensures bound ==> forall i | 0 <= i < |threads| :: threads[i].machine == machine || threads[i].machine in late
      ensures bound && (forall m <- late :: !Follows(old(threads), m)) ==> |threads| == 1 && threads[0].machine == machine
    {
      if ended {
        return false;
      }
      hide Ok, Follows, Debugging.AddThread, Enabled;
      NextKeeps(Now(), Rebind(machine));
      BetweenIsClean(Now());
      BoundTo(Now(), machine);
      Bind(machine);
      bound := true;
    }

    method Bind(machine: nat)
      modifies this
      ensures Now() ==
              Debugging.AddThread(old(Now()).(alive := old(alive) + {machine}, main := machine, run := old(run) + 1,
                                              crowded := |old(threads)| >= MAX_THREADS),
                                  machine, true)
              .(detached := false, caller := Rebound)
    {
      hide Debugging.AddThread;
      NextRun(machine);
      AddThread(machine, true);
      detached := false;
      caller := Rebound;
    }

    method NextRun(machine: nat)
      modifies this`alive, this`main, this`run, this`crowded
      ensures Now() == old(Now()).(alive := old(alive) + {machine}, main := machine, run := old(run) + 1,
                                   crowded := |old(threads)| >= MAX_THREADS)
    {
      alive, main, crowded := alive + {machine}, machine, |threads| >= MAX_THREADS;
      run := run + 1;
    }

    method EndFinishes()
      requires Ok(Now()) && Enabled(Now(), EndFinish)
      modifies this
      ensures Now() == Next(old(Now()), EndFinish) && Ok(Now())
      ensures threads == []
    {
      hide Ok, Drop;
      NextKeeps(Now(), EndFinish);
      DropEmpties(Now(), false);
      DropLast(false);
      caller := Closing;
    }
  }

  lemma DropEmpties(s: Session, announce: bool)
    ensures |s.threads| <= 1 ==> Drop(s, announce).threads == []
  {
  }

  lemma {:induction false} WithoutOneMore(breaks: seq<Break>, i: nat, source: nat)
    requires i < |breaks|
    ensures WithoutSource(breaks[..i + 1], source) ==
            WithoutSource(breaks[..i], source) + if breaks[i].source == source then [] else [breaks[i]]
  {
    if i > 0 {
      assert breaks[..i + 1][1..] == breaks[1..][..i] && breaks[..i][1..] == breaks[1..][..i - 1];
      WithoutOneMore(breaks[1..], i - 1, source);
    }
  }

  lemma BoundTo(s: Session, machine: nat)
    requires forall i | 0 <= i < |s.threads| :: s.threads[i].machine in s.late
    ensures var u := Debugging.AddThread(s.(alive := s.alive + {machine}, main := machine, run := s.run + 1,
                                            crowded := |s.threads| >= MAX_THREADS),
                                         machine, true);
            && u.breaks == s.breaks && u.late == s.late
            && (forall i | 0 <= i < |u.threads| :: u.threads[i].machine == machine || u.threads[i].machine in u.late)
            && (s.threads == [] ==> |u.threads| == 1 && u.threads[0].machine == machine)
  {
  }

  lemma NoThreadZero(s: Session)
    requires Ok(s)
    ensures ParkedMachine(s, 0) == None
  {
  }
}
