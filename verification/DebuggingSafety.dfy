/** What a reader of the debug session may rely on over whole runs, and the
    corners where it may not (dap/adapter.c). */
module DebuggingSafety {
  import opened Wrappers
  import opened Debugging
  import opened DebuggingRuns

  // ------------------------------------------------------------------
  // Runs

  /** Any interleaving of the steps of any threads. */
  ghost predicate IsRun(run: seq<Session>, steps: seq<Step>) {
    && |run| == |steps| + 1 && Ok(run[0])
    && forall k | 0 <= k < |steps| :: Enabled(run[k], steps[k]) && run[k + 1] == Next(run[k], steps[k])
  }

  lemma {:induction false} RunKeeps(run: seq<Session>, steps: seq<Step>, k: nat)
    requires IsRun(run, steps) && k < |run|
    ensures Ok(run[k])
  {
    hide Ok;
    if k > 0 {
      RunKeeps(run, steps, k - 1);
      assert Enabled(run[k - 1], steps[k - 1]);
      NextKeeps(run[k - 1], steps[k - 1]);
    }
  }

  // ------------------------------------------------------------------
  // All-stop

  /** In every run, whatever the reader reads, writes or evaluates on is parked:
      always for a frame, and for a table while the machines are stopped, when
      it was also handed out since the last stopped event. */
  lemma EveryTouchIsParked(run: seq<Session>, steps: seq<Step>, k: nat)
    requires IsRun(run, steps) && k < |steps| && steps[k].Ask?
    requires Touched(run[k], steps[k].request).Some?
    requires run[k].stopping || !NamesTable(steps[k].request)
    ensures ParkedOn(run[k].threads, Touched(run[k], steps[k].request).value)
    ensures run[k].stopping ==> forall v <- run[k].vars :: v.stop == run[k].stops
  {
    RunKeeps(run, steps, k);
    assert Enabled(run[k], steps[k]);
    TouchedIsParked(run[k], steps[k].request);
  }

  /** The debugger asks for variables only between a stop and its resuming. */
  ghost predicate AsksAtStops(run: seq<Session>, steps: seq<Step>)
    requires |run| == |steps| + 1
  {
    forall k | 0 <= k < |steps| ::
      steps[k].Ask? && steps[k].request.Variables? ==> run[k].stopping
  }

  lemma NothingHandedOut(s: Session, step: Step)
    requires Ok(s) && Enabled(s, step)
    requires step.Ask? && step.request.Variables? ==> s.stopping
    requires !s.stopping && !s.ended && !s.detached ==> s.vars == []
    ensures var u := Next(s, step); !u.stopping && !u.ended && !u.detached ==> u.vars == []
  {
    hide Ok, Find, FindId, Touched, WithoutSource;
    if step.Rebind? {
      BetweenIsClean(s);
    }
  }

  lemma {:induction false} VarsAtStops(run: seq<Session>, steps: seq<Step>, k: nat)
    requires IsRun(run, steps) && AsksAtStops(run, steps) && run[0].vars == [] && k < |run|
    ensures !run[k].stopping && !run[k].ended && !run[k].detached ==> run[k].vars == []
  {
    hide Ok;
    if k > 0 {
      VarsAtStops(run, steps, k - 1);
      RunKeeps(run, steps, k - 1);
      assert Enabled(run[k - 1], steps[k - 1]);
      NothingHandedOut(run[k - 1], steps[k - 1]);
    }
  }

  /** A debugger that asks for variables only while stopped never has the reader
      touch a machine that runs: tables included, at every step of every run. */
  lemma AskingAtStopsIsSafe(run: seq<Session>, steps: seq<Step>, k: nat)
    requires IsRun(run, steps) && AsksAtStops(run, steps) && run[0].vars == []
    requires k < |steps| && steps[k].Ask? && Touched(run[k], steps[k].request).Some?
    ensures ParkedOn(run[k].threads, Touched(run[k], steps[k].request).value)
  {
    RunKeeps(run, steps, k);
    VarsAtStops(run, steps, k);
    assert Enabled(run[k], steps[k]);
    TouchedIsParked(run[k], steps[k].request);
  }

  /** The table a scope's variables hand out first, asked for once its machine
      has gone on. */
  ghost predicate Strands(s: Session, ref: int, tables: nat, m: nat)
    requires Enabled(s, Ask(Variables(ref, tables)))
  {
    var t := Next(s, Ask(Variables(ref, tables)));
    && Enabled(t, WakeUp(m))
    && var u := Next(t, WakeUp(m));
       && Enabled(u, Ask(Variables(TABLE_REFS + |s.vars|, 0)))
       && Touched(u, Variables(TABLE_REFS + |s.vars|, 0)) == Some(m)
       && !ParkedOn(u.threads, m)
  }

  /** A machine let go is still parked until its thread wakes, and a scope of it
      asked for in between hands out tables that outlive the wake: the reader
      can then touch a machine that runs. It can exactly when the request is
      not made while stopped. */
  lemma StrandsIff(s: Session, ref: int, tables: nat, m: nat)
    requires Ok(s) && !s.ended && !s.detached && tables > 0 && ref < TABLE_REFS
    requires Touched(s, Variables(ref, tables)) == Some(m)
    ensures Strands(s, ref, tables, m) <==> !s.stopping
  {
    var t := Next(s, Ask(Variables(ref, tables)));
    ParkedMachineIs(s, ScopeThread(ref));
    assert t.vars[|s.vars|] == Var(m, s.stops);
    if !s.stopping {
      var u := Next(t, WakeUp(m));
      var i := Find(s.threads, m);
      ChangedInPlace(t.threads, t.nextId, i, u.threads[i], m);
    }
  }

  /** The session after these steps in turn, where each can be taken. */
  function Perform(s: Session, steps: seq<Step>): Option<Session>
    decreases |steps|
  {
    if steps == [] then Some(s)
    else if !Enabled(s, steps[0]) then None
    else Perform(Next(s, steps[0]), steps[1..])
  }

  /** Such a run, from the beginning: a breakpoint, a resume, a scope asked for
      too late, the machine on its way, and one of its tables read. */
  lemma StrandedRun(m: nat)
    ensures var end := Perform(Begin(m), [AtLine(m, false, false, 1, true), Ask(Continue),
                                          Ask(Variables(2002, 1)), WakeUp(m)]);
            && end.Some?
            && Enabled(end.value, Ask(Variables(TABLE_REFS, 0)))
            && Touched(end.value, Variables(TABLE_REFS, 0)) == Some(m)
            && Enabled(end.value, AtLine(m, false, false, 1, false))
  {
    var s3 := HandedOutLate(m);
    var s4 := Next(s3, WakeUp(m));
    assert s4.threads == [Thread(m, 1, Run, 0, false, false, 0)];
    hide Perform;
    Last(s3, WakeUp(m));
    assert [AtLine(m, false, false, 1, true), Ask(Continue), Ask(Variables(2002, 1))] + [WakeUp(m)]
        == [AtLine(m, false, false, 1, true), Ask(Continue), Ask(Variables(2002, 1)), WakeUp(m)];
  }

  lemma HandedOutLate(m: nat) returns (s3: Session)
    ensures s3.threads == [Thread(m, 1, Run, 0, true, false, 0)] && s3.vars == [Var(m, 1)]
    ensures !s3.stopping && !s3.ended && !s3.detached && s3.caller.Attached? && m in s3.hooked && m in s3.alive
    ensures forall more :: Perform(Begin(m), [AtLine(m, false, false, 1, true), Ask(Continue),
                                              Ask(Variables(2002, 1))] + more) == Perform(s3, more)
  {
    var s0 := Begin(m);
    assert s0.threads == [Thread(m, 1, Run, 0, false, false, 0)];
    var s1 := Next(s0, AtLine(m, false, false, 1, true));
    assert s1.threads == [Thread(m, 1, Run, 0, true, false, 0)];
    var s2 := Next(s1, Ask(Continue));
    assert ParkedMachine(s2, 1) == Some(m);
    s3 := Next(s2, Ask(Variables(2002, 1)));
    ThreeSteps(s0, AtLine(m, false, false, 1, true), Ask(Continue), Ask(Variables(2002, 1)));
  }

  // ------------------------------------------------------------------
  // One stopped event a stop

  function StoppedIn(events: seq<Event>): nat {
    if events == [] then 0
    else StoppedIn(events[..|events| - 1]) + if events[|events| - 1].Stopped? then 1 else 0
  }

  function Rises(run: seq<Session>): nat {
    if |run| < 2 then 0
    else
      var last := |run| - 1;
      Rises(run[..last]) + if !run[last - 1].stopping && run[last].stopping then 1 else 0
  }

  /** What a step adds to what the debugger hears: nothing, or one event, and a
      stopped one exactly where the machines come to be stopped. */
  ghost predicate Hears(s: Session, u: Session) {
    || (u.events == s.events && !(!s.stopping && u.stopping))
    || (|u.events| == |s.events| + 1 && u.events[..|s.events|] == s.events &&
        (u.events[|s.events|].Stopped? <==> !s.stopping && u.stopping))
  }

  lemma StepIsHeard(s: Session, step: Step)
    requires Enabled(s, step)
    ensures Hears(s, Next(s, step))
  {
    match step {
      case AtLine(m, fault, hostPoint, depth, breakHit) =>
        LineIsHeard(s, Find(s.threads, m), fault, hostPoint, depth, breakHit);
      case Ask(r) =>
        AskIsHeard(s, r);
      case _ =>
        CallIsHeard(s, step);
    }
  }

  lemma LineIsHeard(s: Session, i: nat, fault: bool, hostPoint: bool, depth: nat, breakHit: bool)
    requires i < |s.threads|
    ensures Hears(s, Line(s, i, fault, hostPoint, depth, breakHit))
  {
  }

  lemma AskIsHeard(s: Session, r: Request)
    ensures Dispatch(s, r).events == s.events && (Dispatch(s, r).stopping ==> s.stopping)
  {
    hide Touched, FindId, WithoutSource;
    match r {
      case Variables(_, tables) => VariablesUnheard(s, Touched(s, r), tables);
      case StepThread(id, mode, depth) => ModeUnheard(s, id, mode, depth);
      case _ =>
    }
  }

  lemma VariablesUnheard(s: Session, machine: Option<nat>, tables: nat)
    ensures AnswerVariables(s, machine, tables).events == s.events
    ensures AnswerVariables(s, machine, tables).stopping == s.stopping
    ensures AnswerVariables(s, machine, tables).late == s.late
  {
  }

  lemma ModeUnheard(s: Session, id: int, mode: Mode, depth: nat)
    ensures SetMode(s, id, mode, depth).events == s.events && SetMode(s, id, mode, depth).stopping == s.stopping
    ensures SetMode(s, id, mode, depth).late == s.late
  {
  }

  lemma CallIsHeard(s: Session, step: Step)
    requires Enabled(s, step) && !step.AtLine? && !step.Ask?
    ensures Hears(s, Next(s, step))
  {
    match step {
      case Birth(m) => BirthIsHeard(s, m);
      case Death(m) => DeathIsHeard(s, m);
      case Rebind(m) => RebindIsHeard(s, m);
      case DetachFinish => DropIsHeard(s, true);
      case EndFinish => DropIsHeard(s, false);
      case _ =>
    }
  }

  lemma BirthIsHeard(s: Session, m: nat)
    requires Enabled(s, Birth(m))
    ensures Hears(s, Next(s, Birth(m)))
  {
  }

  lemma DeathIsHeard(s: Session, m: nat)
    requires Enabled(s, Death(m))
    ensures Hears(s, Next(s, Death(m)))
  {
  }

  lemma RebindIsHeard(s: Session, m: nat)
    requires Enabled(s, Rebind(m))
    ensures Hears(s, Next(s, Rebind(m)))
  {
  }

  lemma DropIsHeard(s: Session, announce: bool)
    ensures Hears(s, Drop(s, announce)) && Drop(s, announce).stopping == s.stopping
  {
  }

  lemma StopsOnce(s: Session, u: Session)
    requires Hears(s, u)
    ensures StoppedIn(u.events) == StoppedIn(s.events) + if !s.stopping && u.stopping then 1 else 0
  {
    if u.events != s.events {
      assert u.events[..|u.events| - 1] == s.events;
    }
  }

  /** In every run the debugger hears of exactly one stop each time the machines
      are stopped. */
  lemma {:induction false} OneEventAStop(run: seq<Session>, steps: seq<Step>)
    requires IsRun(run, steps)
    ensures StoppedIn(run[|run| - 1].events) == StoppedIn(run[0].events) + Rises(run)
    decreases |run|
  {
    hide Ok, Next;
    var last := |run| - 1;
    if last > 0 {
      assert run[..last][last - 1] == run[last - 1];
      forall k | 0 <= k < last - 1
        ensures Enabled(run[..last][k], steps[..last - 1][k])
        ensures run[..last][k + 1] == Next(run[..last][k], steps[..last - 1][k])
      {
        assert Enabled(run[k], steps[k]);
      }
      OneEventAStop(run[..last], steps[..last - 1]);
      assert Enabled(run[last - 1], steps[last - 1]);
      StepIsHeard(run[last - 1], steps[last - 1]);
      StopsOnce(run[last - 1], run[last]);
    }
  }

  // ------------------------------------------------------------------
  // Resuming

  /** What a machine does at its next line after a continue, with nothing else
      stopping it: a step asked of it before and never taken is still there. */
  lemma StaleStepStops(s: Session, i: nat, depth: nat)
    requires Ok(s) && !s.ended && !s.detached && i < |s.threads| && s.threads[i].parked
    ensures var m := s.threads[i].machine;
            var t := Next(s, Ask(Continue));
            && Enabled(t, WakeUp(m))
            && var u := Next(t, WakeUp(m));
               && i < |u.threads| && !u.threads[i].parked
               && (Enabled(u, AtLine(m, false, false, depth, false)) ==>
                     var v := Next(u, AtLine(m, false, false, depth, false));
                     && i < |v.threads|
                     && (v.threads[i].parked <==>
                         match s.threads[i].mode
                         case Run => false
                         case StepIn => true
                         case StepOver => depth <= s.threads[i].stepDepth
                         case StepOut => depth < s.threads[i].stepDepth))
  {
    FindIs(s.threads, s.nextId, i);
    var t := Next(s, Ask(Continue));
    var u := Next(t, WakeUp(s.threads[i].machine));
    ChangedInPlace(t.threads, t.nextId, i, u.threads[i], s.threads[i].machine);
  }

  /** Of two machines stopped together, the one asked to step may find the other
      at a breakpoint first; the continue that follows leaves its step in place. */
  lemma StaleStepRun(m: nat, n: nat)
    requires m != n
    ensures var end := Perform(Begin(m), [Birth(n), AtLine(m, false, false, 1, true), Ask(StepThread(1, StepIn, 1)),
                                          AtLine(n, false, false, 1, true), Ask(Continue)]);
            && end.Some?
            && var u := Perform(end.value, [WakeUp(m), AtLine(m, false, false, 1, false)]);
               u.Some? && u.value.stopping && u.value.events != [] && u.value.events[|u.value.events| - 1] == Stopped(1, Stepped)
  {
    hide Perform;
    var s3 := TwoStops(m, n);
    var s4 := Next(s3, Ask(Continue));
    assert Perform(Begin(m), [Birth(n), AtLine(m, false, false, 1, true), Ask(StepThread(1, StepIn, 1)),
                              AtLine(n, false, false, 1, true), Ask(Continue)]) == Some(s4);
    var s5 := Next(s4, WakeUp(m));
    assert s5.threads == [Thread(m, 1, StepIn, 1, false, false, 0), Thread(n, 2, Run, 0, true, false, 0)];
    Last(s5, AtLine(m, false, false, 1, false));
    assert [WakeUp(m)] + [AtLine(m, false, false, 1, false)] == [WakeUp(m), AtLine(m, false, false, 1, false)];
    First(s4, WakeUp(m), [AtLine(m, false, false, 1, false)]);
  }

  lemma First(s: Session, step: Step, steps: seq<Step>)
    requires Enabled(s, step)
    ensures Perform(s, [step] + steps) == Perform(Next(s, step), steps)
  {
    assert ([step] + steps)[1..] == steps;
  }

  lemma Last(s: Session, step: Step)
    requires Enabled(s, step)
    ensures Perform(s, [step]) == Some(Next(s, step))
  {
  }

  /** The first machine stopped and asked to step. */
  lemma OneStop(m: nat, n: nat) returns (s2: Session)
    requires m != n
    ensures s2.threads == [Thread(m, 1, StepIn, 1, true, false, 0), Thread(n, 2, Run, 0, false, false, 0)]
    ensures !s2.ended && !s2.detached && s2.hooked == {m, n} && s2.alive == {m, n} && s2.caller.Attached?
    ensures !s2.stopping && !s2.pauseAll && s2.main == m
    ensures forall more :: Perform(Begin(m), [Birth(n), AtLine(m, false, false, 1, true),
                                              Ask(StepThread(1, StepIn, 1))] + more) == Perform(s2, more)
  {
    assert Begin(m).threads == [Thread(m, 1, Run, 0, false, false, 0)];
    var s0 := Next(Begin(m), Birth(n));
    assert s0.threads == [Thread(m, 1, Run, 0, false, false, 0), Thread(n, 2, Run, 0, false, false, 0)];
    assert Find(s0.threads, m) == 0;
    var s1 := Next(s0, AtLine(m, false, false, 1, true));
    assert s1.threads == [Thread(m, 1, Run, 0, true, false, 0), Thread(n, 2, Run, 0, false, false, 0)];
    s2 := Next(s1, Ask(StepThread(1, StepIn, 1)));
    ThreeSteps(Begin(m), Birth(n), AtLine(m, false, false, 1, true), Ask(StepThread(1, StepIn, 1)));
  }

  lemma ThreeSteps(s: Session, a: Step, b: Step, c: Step)
    requires Enabled(s, a) && Enabled(Next(s, a), b) && Enabled(Next(Next(s, a), b), c)
    ensures forall more :: Perform(s, [a, b, c] + more) == Perform(Next(Next(Next(s, a), b), c), more)
  {
    hide Perform, Enabled, Next;
    forall more ensures Perform(s, [a, b, c] + more) == Perform(Next(Next(Next(s, a), b), c), more) {
      assert [a, b, c] + more == [a] + ([b] + ([c] + more));
      First(s, a, [b] + ([c] + more));
      First(Next(s, a), b, [c] + more);
      First(Next(Next(s, a), b), c, more);
    }
  }

  lemma TwoStops(m: nat, n: nat) returns (s3: Session)
    requires m != n
    ensures s3.threads == [Thread(m, 1, StepIn, 1, true, false, 0), Thread(n, 2, Run, 0, true, false, 0)]
    ensures !s3.ended && !s3.detached && s3.hooked == {m, n} && s3.alive == {m, n} && s3.caller.Attached?
    ensures Perform(Begin(m), [Birth(n), AtLine(m, false, false, 1, true), Ask(StepThread(1, StepIn, 1)),
                               AtLine(n, false, false, 1, true), Ask(Continue)]) == Some(Next(s3, Ask(Continue)))
  {
    var s2 := OneStop(m, n);
    var stop := AtLine(n, false, false, 1, true);
    assert Find(s2.threads, n) == 1;
    s3 := Next(s2, stop);
    hide Perform, Next;
    Last(s3, Ask(Continue));
    First(s2, stop, [Ask(Continue)]);
    assert [stop] + [Ask(Continue)] == [stop, Ask(Continue)];
    assert [Birth(n), AtLine(m, false, false, 1, true), Ask(StepThread(1, StepIn, 1))] + [stop, Ask(Continue)]
        == [Birth(n), AtLine(m, false, false, 1, true), Ask(StepThread(1, StepIn, 1)), stop, Ask(Continue)];
  }
}
