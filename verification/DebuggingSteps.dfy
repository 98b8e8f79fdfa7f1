/** What the debugger's requests come to at a machine's next line, what is said of
    births, deaths and stops, and which machine a request reaches, in the fields
    of the session alone (dap/adapter.c, dispatch and dap_hook). */
module DebuggingSteps {
  import opened Wrappers
  import opened Debugging
  import opened DebuggingRuns
  import opened DebuggingSafety

  // ------------------------------------------------------------------
  // The next line

  /** One record parked, and the debugger told where it is the first. */
  predicate ParksAs(s: Session, i: nat, u: Session, faulted: bool, reason: Reason) {
    && i < |s.threads| && u.threads == s.threads[i := s.threads[i].(mode := Run, parked := true, faulted := faulted)]
    && u.stopping
    && if s.stopping then u == s.(threads := u.threads)
       else u == s.(threads := u.threads, stopping := true, pauseAll := false, vars := [], stops := s.stops + 1,
                    events := s.events + [Stopped(s.threads[i].id, reason)])
  }

  /** A machine comes to a line, or a host point, while the session neither has ended
      nor is between runs: a fault always stops it, so do a stop under way and a
      pause asked for; its own step and a breakpoint do, but not at a host point. */
  lemma LineMeans(s: Session, i: nat, fault: bool, hostPoint: bool, depth: nat, breakHit: bool)
    requires Ok(s) && i < |s.threads| && !s.ended && !s.detached
    requires Enabled(s, AtLine(s.threads[i].machine, fault, hostPoint, depth, breakHit))
    ensures var t := s.threads[i];
            var u := Next(s, AtLine(t.machine, fault, hostPoint, depth, breakHit));
            var stepped := match t.mode
              case Run => false
              case StepIn => true
              case StepOver => depth <= t.stepDepth
              case StepOut => depth < t.stepDepth;
            if fault then ParksAs(s, i, u, true, Exception)
            else if s.pauseAll then ParksAs(s, i, u, t.faulted, Paused)
            else if s.stopping || (!hostPoint && (stepped || breakHit))
            then ParksAs(s, i, u, t.faulted, if t.mode == Run then AtBreakpoint else Stepped)
            else u == s
  {
    FindIs(s.threads, s.nextId, i);
  }

  /** Once it has ended, or between runs, the machine panics and nothing else happens. */
  lemma OverMeans(s: Session, i: nat, fault: bool, hostPoint: bool, depth: nat, breakHit: bool)
    requires Ok(s) && i < |s.threads| && (s.ended || s.detached)
    requires Enabled(s, AtLine(s.threads[i].machine, fault, hostPoint, depth, breakHit))
    ensures var m := s.threads[i].machine;
            Next(s, AtLine(m, fault, hostPoint, depth, breakHit)) == s.(panicked := s.panicked + {m})
  {
    FindIs(s.threads, s.nextId, i);
  }

  // ------------------------------------------------------------------
  // Requests and what they come to

  /** A parked machine asked to step is let go, and its next line parks it exactly
      when it steps in, over to this depth or less, or out to less; a host point
      never does. */
  lemma StepAskedStops(s: Session, i: nat, mode: Mode, asked: nat, depth: nat, hostPoint: bool)
    requires Ok(s) && i < |s.threads| && s.threads[i].parked && !s.ended && !s.detached
    ensures var m := s.threads[i].machine;
            var line := AtLine(m, false, hostPoint, depth, false);
            && Enabled(s, Ask(StepThread(s.threads[i].id, mode, asked)))
            && var t := Next(s, Ask(StepThread(s.threads[i].id, mode, asked)));
               && Enabled(t, WakeUp(m))
               && var u := Next(t, WakeUp(m));
                  && !u.stopping && u.vars == [] && i < |u.threads| && !u.threads[i].parked
                  && (Enabled(u, line) ==>
                        var v := Next(u, line);
                        var due := !hostPoint && match mode
                          case Run => false
                          case StepIn => true
                          case StepOver => depth <= asked
                          case StepOut => depth < asked;
                        if due then v.threads[i].parked && ParksAs(u, i, v, u.threads[i].faulted, Stepped) else v == u)
  {
    hide Ok, Line, Due, Follows;
    var m, id := s.threads[i].machine, s.threads[i].id;
    ThreadAt(s, i);
    DispatchKeeps(s, StepThread(id, mode, asked));
    var t := Next(s, Ask(StepThread(id, mode, asked)));
    assert t.threads == s.threads[i := s.threads[i].(mode := mode, stepDepth := asked)];
    ThreadAt(t, i);
    WakeKeeps(t, i);
    var u := Next(t, WakeUp(m));
    ThreadAt(u, i);
    if Enabled(u, AtLine(m, false, hostPoint, depth, false)) {
      LineMeans(u, i, false, hostPoint, depth, false);
    }
  }

  /** Asked of a machine that is not parked, a step sets its mode and leaves the depth
      of the step before; of a number nobody has, it only lets the others go. */
  lemma StepOfOthers(s: Session, i: nat, id: int, mode: Mode, asked: nat)
    requires Ok(s) && !s.ended && !s.detached
    requires if i < |s.threads| then s.threads[i].id == id && !s.threads[i].parked
             else forall k | 0 <= k < |s.threads| :: s.threads[k].id != id
    ensures Next(s, Ask(StepThread(id, mode, asked))) ==
            s.(stopping := false, pauseAll := false, vars := [],
               threads := if i < |s.threads| then s.threads[i := s.threads[i].(mode := mode)] else s.threads)
  {
    if i < |s.threads| {
      ThreadAt(s, i);
    }
  }

  lemma ThreadAt(s: Session, i: nat)
    requires Ok(s) && i < |s.threads|
    ensures Find(s.threads, s.threads[i].machine) == i && FindId(s.threads, s.threads[i].id) == i
    ensures Follows(s.threads, s.threads[i].machine)
    ensures ParkedOn(s.threads, s.threads[i].machine) <==> s.threads[i].parked
  {
  }

  /** A pause asked for stops the next machine that comes to a line or a host point,
      as a pause. */
  lemma PauseStops(s: Session, i: nat, hostPoint: bool, depth: nat, breakHit: bool)
    requires Ok(s) && i < |s.threads| && !s.ended && !s.detached
    ensures var line := AtLine(s.threads[i].machine, false, hostPoint, depth, breakHit);
            var t := Next(s, Ask(Pause));
            && t == s.(pauseAll := true)
            && (Enabled(t, line) ==> ParksAs(t, i, Next(t, line), t.threads[i].faulted, Paused))
  {
    PauseKeeps(s);
    hide Ok, Line;
    var t := Next(s, Ask(Pause));
    if Enabled(t, AtLine(t.threads[i].machine, false, hostPoint, depth, breakHit)) {
      LineMeans(t, i, false, hostPoint, depth, breakHit);
    }
  }

  /** Continue lets everything go and changes no record; what was handed out is void. */
  lemma ContinueMeans(s: Session)
    requires !s.ended && !s.detached
    ensures Next(s, Ask(Continue)) == s.(stopping := false, pauseAll := false, vars := [])
  {
  }

  /** Asked to stop on entry, the machine numbered 1 stops as stepped at its next
      line, and otherwise a launch changes nothing. */
  lemma LaunchMeans(s: Session, i: nat)
    requires Ok(s) && i < |s.threads| && s.threads[i].id == 1 && !s.ended && !s.detached
    ensures Next(s, Ask(Launch(true))) == s.(threads := s.threads[i := s.threads[i].(mode := StepIn)])
    ensures Next(s, Ask(Launch(false))) == s
  {
    ThreadAt(s, i);
  }

  /** Setting a source's breakpoints leaves it with those lines, each as often as it
      was asked for, and every other source with its own. */
  lemma BreakpointsMean(s: Session, source: nat, lines: seq<nat>, at: nat, line: nat)
    requires !s.ended && !s.detached
    ensures var u := Next(s, Ask(SetBreakpoints(source, lines)));
            && u == s.(breaks := u.breaks)
            && multiset(u.breaks)[Break(at, line)] ==
               if at == source then multiset(lines)[line] else multiset(s.breaks)[Break(at, line)]
  {
    OthersStay(s.breaks, source, Break(at, line));
    var set_ := seq(|lines|, k requires 0 <= k < |lines| => Break(source, lines[k]));
    LinesOf(source, lines, set_, at, line);
  }

  lemma {:induction false} LinesOf(source: nat, lines: seq<nat>, breaks: seq<Break>, at: nat, line: nat)
    requires |breaks| == |lines| && forall k | 0 <= k < |lines| :: breaks[k] == Break(source, lines[k])
    ensures multiset(breaks)[Break(at, line)] == if at == source then multiset(lines)[line] else 0
  {
    if lines != [] {
      var last := |lines| - 1;
      assert lines == lines[..last] + [lines[last]] && breaks == breaks[..last] + [breaks[last]];
      LinesOf(source, lines[..last], breaks[..last], at, line);
    }
  }

  lemma DisconnectMeans(s: Session)
    requires !s.ended && !s.detached
    ensures Next(s, Ask(Disconnect)) == s.(ended := true, peerEnded := true)
  {
  }

  // ------------------------------------------------------------------
  // Births and deaths

  /** A birth heard is recorded last, running, under the next number, and said; past
      the cap, and once the session has ended, it is not. */
  lemma BirthMeans(s: Session, m: nat)
    requires Enabled(s, Birth(m))
    ensures var u := Next(s, Birth(m));
            && u.alive == s.alive + {m}
            && if s.watching && !s.ended && |s.threads| < 64 then
                 && u.threads == s.threads + [Thread(m, s.nextId, Run, 0, false, false, s.run)]
                 && u.nextId == s.nextId + 1 && u.events == s.events + [Started(s.nextId)] && u.hooked == s.hooked + {m}
               else u == s.(alive := u.alive, late := u.late)
  {
  }

  /** A death heard takes the machine's record, and no other, and its hook, and is
      said under its number. */
  lemma DeathMeans(s: Session, i: nat)
    requires Ok(s) && i < |s.threads| && s.watching && Enabled(s, Death(s.threads[i].machine))
    ensures var m := s.threads[i].machine;
            var u := Next(s, Death(m));
            && u.events == s.events + [Exited(s.threads[i].id)] && u.hooked == s.hooked - {m}
            && multiset(u.threads) == multiset(s.threads) - multiset{s.threads[i]}
  {
    ThreadAt(s, i);
    RemovedIs(s.threads, i);
  }

  lemma RemovedIs(threads: seq<Thread>, i: nat)
    requires i < |threads|
    ensures multiset(RemoveAt(threads, i)) == multiset(threads) - multiset{threads[i]}
  {
    var last := |threads| - 1;
    var front := threads[..last];
    assert threads == front + [threads[last]];
    if i < last {
      assert RemoveAt(threads, i) == front[i := threads[last]];
      assert multiset(front[i := threads[last]]) == multiset(front) - multiset{threads[i]} + multiset{threads[last]};
    } else {
      assert RemoveAt(threads, i) == front;
    }
  }

  // ------------------------------------------------------------------
  // Which machine a request reaches

  /** The number of the thread a request names by itself, or by a frame's. */
  function Named(r: Request): Option<int> {
    match r
    case StackTrace(id) => Some(id)
    case StepThread(id, _, _) => Some(id)
    case Scopes(frame) => Some(if frame >= 0 then frame / 1000 else -(-frame / 1000))
    case Evaluate(frame) => Some(if frame >= 0 then frame / 1000 else -(-frame / 1000))
    case _ => None
  }

  /** It reaches the machine recorded under that number, if that is parked, and no
      other. */
  lemma ReachesIff(s: Session, r: Request, m: nat)
    requires Ok(s) && Named(r).Some?
    ensures Touched(s, r) == Some(m) <==>
            exists i :: 0 <= i < |s.threads| && s.threads[i].id == Named(r).value && s.threads[i].machine == m &&
                        s.threads[i].parked
  {
    var id := Named(r).value;
    var i := FindId(s.threads, id);
    if j :| 0 <= j < |s.threads| && s.threads[j].id == id && s.threads[j].machine == m && s.threads[j].parked {
      ThreadAt(s, j);
    }
  }

  /** A table's reference reaches the machine it was handed out on, the first handed
      out since the last resuming being 100000. */
  lemma TableReaches(s: Session, k: nat, tables: nat)
    ensures var ref := 100000 + k;
            Touched(s, Variables(ref, tables)) == Touched(s, SetVariable(ref)) ==
            if k < |s.vars| then Some(s.vars[k].machine) else None
  {
  }

  /** Variables asked for hand out their tables last, on the machine they were read
      from, as of the stop that was heard of. */
  lemma VariablesMean(s: Session, ref: int, tables: nat, m: nat)
    requires !s.ended && !s.detached
    ensures var u := Next(s, Ask(Variables(ref, tables)));
            && u == s.(vars := u.vars)
            && (Touched(s, Variables(ref, tables)) == None ==> u.vars == s.vars)
            && (Touched(s, Variables(ref, tables)) == Some(m) ==>
                  |u.vars| == |s.vars| + tables && u.vars[..|s.vars|] == s.vars &&
                  forall k | |s.vars| <= k < |u.vars| :: u.vars[k] == Var(m, s.stops))
  {
  }
}
