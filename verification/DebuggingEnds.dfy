/** How a run and a session end, how one run gives way to the next, and what a
    reference names (dap/adapter.c). */
module DebuggingEnds {
  import opened Wrappers
  import opened Debugging
  import opened DebuggingRuns
  import opened DebuggingSafety

  // ------------------------------------------------------------------
  // Detach and rebind

  /** Between two runs nothing is dispatched, and what the next run is to find
      stays: the breakpoints and the numbering of threads. */
  lemma DetachedKeeps(s: Session, step: Step)
    requires Ok(s) && Enabled(s, step) && s.detached
    ensures !step.Ask?
    ensures Next(s, step).breaks == s.breaks && Next(s, step).nextId >= s.nextId
  {
  }

  /** Where the next line, or the wake, of a machine of an earlier run takes it:
      off to panic, always, unless it was born late; and one born late exactly
      where the session has ended or is between runs. */
  lemma OldRunsPanic(s: Session, m: nat)
    requires Ok(s) && Follows(s.threads, m) && s.threads[Find(s.threads, m)].run != s.run
    ensures m !in s.late ==> s.ended || s.detached
    ensures Enabled(s, WakeUp(m)) ==>
              Next(s, WakeUp(m)).panicked == s.panicked + if s.ended || s.detached then {m} else {}
    ensures forall fault, hostPoint, depth, breakHit ::
              Enabled(s, AtLine(m, fault, hostPoint, depth, breakHit)) ==>
                Next(s, AtLine(m, fault, hostPoint, depth, breakHit)).panicked ==
                  s.panicked + if s.ended || s.detached then {m} else {}
  {
    hide Line;
    forall fault, hostPoint, depth, breakHit {
      LinePanics(s, Find(s.threads, m), fault, hostPoint, depth, breakHit);
    }
  }

  lemma LinePanics(s: Session, i: nat, fault: bool, hostPoint: bool, depth: nat, breakHit: bool)
    requires i < |s.threads|
    ensures Line(s, i, fault, hostPoint, depth, breakHit).panicked ==
            s.panicked + if s.ended || s.detached then {s.threads[i].machine} else {}
  {
    hide Due;
  }

  /** `late` in terms of a run's steps: born after a detach let go of the lock and
      before births were no longer heard, and no detach since. */
  lemma {:induction false} LateIsBornLate(run: seq<Session>, steps: seq<Step>, m: nat)
    requires IsRun(run, steps) && run[0].late == {}
    ensures m in run[|run| - 1].late <==> BornLate(run, steps, m)
    decreases |run|
  {
    hide Ok, Enabled, Next, BornLate;
    var last := |steps| - 1;
    if last >= 0 {
      var before, taken := run[..last + 1], steps[..last];
      assert IsRun(before, taken) by {
        forall k | 0 <= k < last ensures Enabled(before[k], taken[k]) && before[k + 1] == Next(before[k], taken[k]) {
          assert Enabled(run[k], steps[k]);
        }
      }
      LateIsBornLate(before, taken, m);
      assert Enabled(run[last], steps[last]) && run[last + 1] == Next(run[last], steps[last]);
      LateAfter(run[last], steps[last]);
      BornLateAfter(run, steps, m);
    } else {
      NeverBornLate(run, m);
      assert steps == [];
    }
  }

  ghost predicate BornLate(run: seq<Session>, steps: seq<Step>, m: nat)
    requires |run| >= |steps|
  {
    exists j :: 0 <= j < |steps| && steps[j] == Birth(m) && run[j].caller.Unhooked? &&
                forall i | j < i < |steps| :: !steps[i].DetachFinish?
  }

  lemma BornLateAfter(run: seq<Session>, steps: seq<Step>, m: nat)
    requires |run| == |steps| + 1 && |steps| > 0
    ensures var last := |steps| - 1;
            BornLate(run, steps, m) <==>
            !steps[last].DetachFinish? &&
            (BornLate(run[..last + 1], steps[..last], m) || (steps[last] == Birth(m) && run[last].caller.Unhooked?))
  {
    var last := |steps| - 1;
    if BornLate(run, steps, m) {
      var j :| 0 <= j < |steps| && steps[j] == Birth(m) && run[j].caller.Unhooked? &&
               forall i | j < i < |steps| :: !steps[i].DetachFinish?;
      if j < last {
        assert steps[..last][j] == Birth(m) && run[..last + 1][j].caller.Unhooked?;
        assert !steps[last].DetachFinish?;
      }
    }
    if BornLate(run[..last + 1], steps[..last], m) && !steps[last].DetachFinish? {
      var j :| 0 <= j < last && steps[..last][j] == Birth(m) && run[..last + 1][j].caller.Unhooked? &&
               forall i | j < i < last :: !steps[..last][i].DetachFinish?;
      assert steps[j] == Birth(m) && run[j].caller.Unhooked?;
      forall i | j < i < |steps| ensures !steps[i].DetachFinish? {
        assert i < last ==> steps[..last][i] == steps[i];
      }
    }
  }

  lemma NeverBornLate(run: seq<Session>, m: nat)
    ensures !BornLate(run, [], m)
  {
  }

  lemma LateAfter(s: Session, step: Step)
    requires Enabled(s, step)
    ensures Next(s, step).late == if step.DetachFinish? then {}
                                  else if step.Birth? && s.caller.Unhooked? then s.late + {step.machine} else s.late
  {
    hide Find, RemoveAt, Dispatch, Line;
    match step {
      case AtLine(m, fault, hostPoint, depth, breakHit) =>
        LineKeepsLate(s, Find(s.threads, m), fault, hostPoint, depth, breakHit);
      case Ask(r) => AskKeepsLate(s, r);
      case _ =>
    }
  }

  lemma LineKeepsLate(s: Session, i: nat, fault: bool, hostPoint: bool, depth: nat, breakHit: bool)
    requires i < |s.threads|
    ensures Line(s, i, fault, hostPoint, depth, breakHit).late == s.late
  {
    hide Due;
  }

  lemma AskKeepsLate(s: Session, r: Request)
    ensures Dispatch(s, r).late == s.late
  {
    hide Touched, WithoutSource, FindId, SetMode, AnswerVariables;
    match r {
      case Variables(_, tables) => VariablesUnheard(s, Touched(s, r), tables);
      case StepThread(id, mode, depth) => ModeUnheard(s, id, mode, depth);
      case _ =>
    }
  }

  /** The session is bound to its next run with a record of an earlier one left,
      hooked and no longer told to panic, exactly where a machine born late is
      still followed. */
  lemma LeftAtRebindIff(s: Session, main: nat)
    requires Ok(s) && Enabled(s, Rebind(main))
    ensures var u := Next(s, Rebind(main));
            && (forall m :: Left(u, m) <==> m in s.late && Follows(s.threads, m))
            && (forall m :: Left(u, m) ==> m in u.hooked)
            && !u.detached && !u.ended
  {
    BetweenIsClean(s);
    var u := Next(s, Rebind(main));
    forall m: nat ensures Left(u, m) <==> m in s.late && Follows(s.threads, m) {
      RebindFollows(s, main, m);
    }
    assert Ok(u) by { RebindKeeps(s, main); }
  }

  /** Recorded, and of an earlier run than the session is bound to. */
  predicate Left(s: Session, m: nat) {
    Follows(s.threads, m) && s.threads[Find(s.threads, m)].run != s.run
  }

  lemma RebindFollows(s: Session, main: nat, m: nat)
    requires Ok(s) && Enabled(s, Rebind(main))
    ensures var u := Next(s, Rebind(main));
            && (Left(u, m) <==> Follows(s.threads, m))
            && (Left(u, m) ==> u.threads[Find(u.threads, m)] == s.threads[Find(s.threads, m)])
  {
    var u := Next(s, Rebind(main));
    var i := Find(s.threads, m);
    if |s.threads| < MAX_THREADS {
      AddedFollows(s.threads, u.threads[|s.threads|], m);
      if i < |s.threads| {
        assert u.threads[i] == s.threads[i];
      }
    }
  }

  /** Such a run, from the beginning: the old run's machine at its next line is
      parked as the new run's would be. */
  lemma LateBirthRun(m: nat, n: nat, k: nat)
    requires m != n && n != k && k != m
    ensures var end := Perform(Begin(m), [DetachBegin, DetachFinish, Birth(n), Unwatch, Rebind(k)]);
            && end.Some? && Left(end.value, n)
            && Enabled(end.value, AtLine(n, false, false, 1, true))
            && var u := Next(end.value, AtLine(n, false, false, 1, true));
               ParkedOn(u.threads, n) && u.stopping && u.panicked == {}
  {
    var s3 := BornLateOf(m, n);
    var s4 := Next(s3, Unwatch);
    var s5 := Next(s4, Rebind(k));
    assert s5.threads == [Thread(n, 2, Run, 0, false, false, 0), Thread(k, 3, Run, 0, false, false, 1)];
    assert Find(s5.threads, n) == 0;
    var u := Next(s5, AtLine(n, false, false, 1, true));
    assert u.threads[0].machine == n && u.threads[0].parked;
    hide Perform, Enabled, Next;
    Last(s4, Rebind(k));
    First(s3, Unwatch, [Rebind(k)]);
    assert [Unwatch] + [Rebind(k)] == [Unwatch, Rebind(k)];
    assert [DetachBegin, DetachFinish, Birth(n)] + [Unwatch, Rebind(k)]
        == [DetachBegin, DetachFinish, Birth(n), Unwatch, Rebind(k)];
  }

  lemma BornLateOf(m: nat, n: nat) returns (s3: Session)
    requires m != n
    ensures s3.threads == [Thread(n, 2, Run, 0, false, false, 0)] && s3.nextId == 3
    ensures s3.caller.Unhooked? && s3.detached && !s3.ended && s3.watching
    ensures s3.alive == {m, n} && s3.hooked == {n} && s3.panicked == {} && s3.run == 0 && s3.main == m
    ensures !s3.stopping && !s3.pauseAll && s3.late == {n}
    ensures forall more :: Perform(Begin(m), [DetachBegin, DetachFinish, Birth(n)] + more) == Perform(s3, more)
  {
    assert Begin(m).threads == [Thread(m, 1, Run, 0, false, false, 0)];
    var s1 := Next(Begin(m), DetachBegin);
    var s2 := Next(s1, DetachFinish);
    assert s2.threads == [];
    s3 := Next(s2, Birth(n));
    ThreeSteps(Begin(m), DetachBegin, DetachFinish, Birth(n));
  }

  /** A record of one state found again in a later one. */
  ghost predicate SameIds(s: Session, u: Session) {
    && u.nextId >= s.nextId
    && forall j | 0 <= j < |u.threads| && u.threads[j].id < s.nextId ::
         exists i :: 0 <= i < |s.threads| && s.threads[i].id == u.threads[j].id &&
                     s.threads[i].machine == u.threads[j].machine && s.threads[i].run == u.threads[j].run
  }

  lemma ChangedSameIds(s: Session, i: nat, t: Thread, u: Session)
    requires i < |s.threads| && u.nextId == s.nextId && u.threads == s.threads[i := t]
    requires t.id == s.threads[i].id && t.machine == s.threads[i].machine && t.run == s.threads[i].run
    ensures SameIds(s, u)
  {
    assert forall j | 0 <= j < |u.threads| ::
      s.threads[j].id == u.threads[j].id && s.threads[j].machine == u.threads[j].machine && s.threads[j].run == u.threads[j].run;
  }

  lemma AddedSameIds(s: Session, u: Session)
    requires (u.threads == s.threads && u.nextId >= s.nextId) ||
             (|u.threads| == |s.threads| + 1 && u.threads[..|s.threads|] == s.threads &&
              u.threads[|s.threads|].id == s.nextId <= u.nextId)
    ensures SameIds(s, u)
  {
    assert forall j | 0 <= j < |s.threads| :: u.threads[j] == s.threads[j];
  }

  lemma RemovedSameIds(s: Session, i: nat, u: Session)
    requires i < |s.threads| && u.threads == RemoveAt(s.threads, i) && u.nextId == s.nextId
    ensures SameIds(s, u)
  {
    var last := |s.threads| - 1;
    assert forall j | 0 <= j < last :: u.threads[j] == s.threads[if j == i then last else j];
  }

  lemma StepSameIds(s: Session, step: Step)
    requires Ok(s) && Enabled(s, step)
    ensures SameIds(s, Next(s, step))
  {
    hide Ok, SameIds, Find, Dispatch, RemoveAt, Line, Wake;
    var u := Next(s, step);
    match step {
      case AtLine(m, fault, hostPoint, depth, breakHit) =>
        LineSameIds(s, Find(s.threads, m), fault, hostPoint, depth, breakHit);
      case WakeUp(m) => WakeSameIds(s, Find(s.threads, m));
      case Ask(r) => AskedSameIds(s, r);
      case Death(m) =>
        if s.watching && Follows(s.threads, m) {
          RemovedSameIds(s, Find(s.threads, m), u);
        } else {
          AddedSameIds(s, u);
        }
      case DetachFinish => DroppedSameIds(s, u);
      case EndFinish => DroppedSameIds(s, u);
      case Rebind(_) => AddedSameIds(s, u);
      case _ => AddedSameIds(s, u);
    }
  }

  lemma LineSameIds(s: Session, i: nat, fault: bool, hostPoint: bool, depth: nat, breakHit: bool)
    requires i < |s.threads|
    ensures SameIds(s, Line(s, i, fault, hostPoint, depth, breakHit))
  {
    hide SameIds, Due;
    var u := Line(s, i, fault, hostPoint, depth, breakHit);
    ChangedSameIds(s, i, u.threads[i], u);
  }

  lemma WakeSameIds(s: Session, i: nat)
    requires i < |s.threads|
    ensures SameIds(s, Wake(s, i))
  {
    hide SameIds;
    ChangedSameIds(s, i, Wake(s, i).threads[i], Wake(s, i));
  }

  lemma DroppedSameIds(s: Session, u: Session)
    requires u.threads == (if |s.threads| == 1 then RemoveAt(s.threads, 0) else s.threads) && u.nextId == s.nextId
    ensures SameIds(s, u)
  {
    if |s.threads| == 1 {
      RemovedSameIds(s, 0, u);
    } else {
      AddedSameIds(s, u);
    }
  }

  lemma AskedSameIds(s: Session, r: Request)
    ensures SameIds(s, Dispatch(s, r))
  {
    hide SameIds, FindId, Touched, WithoutSource;
    var u := Dispatch(s, r);
    match r {
      case Launch(_) =>
        LaunchedSameIds(s, u);
      case StepThread(id, mode, depth) =>
        ModeSameIds(s, id, mode, depth, u);
      case Variables(_, tables) =>
        VariablesUnheard(s, Touched(s, r), tables);
        AddedSameIds(s, u);
      case _ =>
        AddedSameIds(s, u);
    }
  }

  lemma LaunchedSameIds(s: Session, u: Session)
    requires u == s || u == Launched(s)
    ensures SameIds(s, u)
  {
    hide SameIds;
    var i := FindId(s.threads, 1);
    if u != s && i < |s.threads| {
      ChangedSameIds(s, i, u.threads[i], u);
    } else {
      AddedSameIds(s, u);
    }
  }

  lemma ModeSameIds(s: Session, id: int, mode: Mode, depth: nat, u: Session)
    requires u == ResumeAll(SetMode(s, id, mode, depth))
    ensures SameIds(s, u)
  {
    hide SameIds;
    var i := FindId(s.threads, id);
    if i < |s.threads| {
      ChangedSameIds(s, i, u.threads[i], u);
    } else {
      AddedSameIds(s, u);
    }
  }

  /** A thread's number is never given again, through any detach and rebind: a
      reference made of it names that machine or nothing. */
  lemma {:induction false} IdsAreNotReused(run: seq<Session>, steps: seq<Step>, k: nat, j: nat)
    requires IsRun(run, steps) && k <= j < |run|
    ensures SameIds(run[k], run[j])
    decreases j
  {
    hide Ok, SameIds, Next, Enabled;
    if k < j {
      IdsAreNotReused(run, steps, k, j - 1);
      RunKeeps(run, steps, j - 1);
      assert Enabled(run[j - 1], steps[j - 1]);
      StepSameIds(run[j - 1], steps[j - 1]);
      SameIdsOn(run[k], run[j - 1], run[j]);
    } else {
      SameIdsItself(run[k]);
    }
  }

  lemma SameIdsItself(s: Session)
    ensures SameIds(s, s)
  {
  }

  lemma SameIdsOn(s: Session, u: Session, v: Session)
    requires SameIds(s, u) && SameIds(u, v)
    ensures SameIds(s, v)
  {
    forall j | 0 <= j < |v.threads| && v.threads[j].id < s.nextId
      ensures exists i :: 0 <= i < |s.threads| && s.threads[i].id == v.threads[j].id &&
                          s.threads[i].machine == v.threads[j].machine && s.threads[i].run == v.threads[j].run
    {
      var n :| 0 <= n < |u.threads| && u.threads[n].id == v.threads[j].id &&
               u.threads[n].machine == v.threads[j].machine && u.threads[n].run == v.threads[j].run;
    }
  }

  // ------------------------------------------------------------------
  // The end

  /** Nothing of the session is left in any machine when it is freed. */
  lemma FreedIsClean(s: Session)
    requires Ok(s) && s.caller.Freed?
    ensures s.threads == [] && s.hooked == {}
  {
    assert forall m :: m in s.hooked <==> Follows(s.threads, m);
  }

  predicate Waiting(s: Session) {
    (s.caller.Detaching? && s.detached) || (s.caller.Ending? && s.ended)
  }

  /** A record nothing takes off the list: the main machine's, whose caller keeps
      it alive; a dead machine's, whose death nobody heard; and any, once deaths
      are not heard. */
  predicate Fixed(s: Session, m: nat) {
    Follows(s.threads, m) && (m == s.main || m !in s.alive || !s.watching)
  }

  /** Where no two records are fixed, the wait can end: from wherever it stands,
      each parked worker can wake, and none that has woken is held. What is left
      is the main machine alone, where there was room for it, and the call goes
      through. */
  lemma {:induction false} WorkersCanGo(s: Session) returns (steps: seq<Step>)
    requires Ok(s) && Waiting(s) && !TwoFixed(s)
    ensures forall step <- steps :: step.WakeUp? || step.Death?
    ensures Perform(s, steps).Some?
    ensures var end := Perform(s, steps).value;
            && Ok(end) && end.caller == s.caller && end.main == s.main && |end.threads| <= 1
            && (s.watching && !s.crowded ==> |end.threads| == 1 && end.threads[0].machine == s.main)
            && Enabled(end, if s.caller.Detaching? then DetachFinish else EndFinish)
    decreases |s.threads|
  {
    hide Ok, Perform, Find, ParkedOn, Next, AllLive, TwoFixed;
    steps := [];
    if |s.threads| > 1 {
      var u, before := OneWorkerGoes(s);
      var rest := WorkersCanGo(u);
      steps := before + rest;
      assert Perform(s, steps) == Perform(u, rest);
    } else {
      NothingPerformed(s);
      if s.watching && !s.crowded {
        OneLeftIsMain(s);
      }
    }
  }

  ghost predicate TwoFixed(s: Session) {
    exists a, b :: a != b && Fixed(s, a) && Fixed(s, b)
  }

  /** And where two are, it cannot, whatever any thread does: the end and the
      detach wait for ever, but that a detach stops waiting once the debugger
      has gone. */
  lemma WaitEndsIff(s: Session)
    requires Ok(s) && Waiting(s)
    ensures (exists steps :: OneIsLeft(s, steps)) <==> !TwoFixed(s)
  {
    hide Ok, Perform, Fixed;
    if TwoFixed(s) {
      var a, b :| a != b && Fixed(s, a) && Fixed(s, b);
      forall steps | Perform(s, steps).Some? ensures !OneIsLeft(s, steps) {
        HeldForEver(s, a, b, steps);
      }
    } else {
      var steps := WorkersCanGo(s);
      assert OneIsLeft(s, steps);
    }
  }

  predicate OneIsLeft(s: Session, steps: seq<Step>) {
    var end := Perform(s, steps);
    end.Some? && |end.value.threads| <= 1
  }

  predicate Held(s: Session, a: nat, b: nat) {
    && a != b && Fixed(s, a) && Fixed(s, b)
    && (s.caller.Detaching? || s.caller.Ending? || ((s.caller.Unhooked? || s.caller.Between?) && s.ended))
  }

  lemma HeldAreTwo(s: Session, a: nat, b: nat)
    requires Held(s, a, b)
    ensures |s.threads| >= 2
  {
  }

  lemma HeldStays(s: Session, a: nat, b: nat, step: Step)
    requires Ok(s) && Held(s, a, b) && Enabled(s, step)
    ensures Held(Next(s, step), a, b)
  {
    hide Ok, Follows, ParkedOn, Waits, Dispatch, Line, Wake, AddThread;
    HeldAreTwo(s, a, b);
    match step {
      case AtLine(m, fault, hostPoint, depth, breakHit) => LineFollows(s, m, fault, hostPoint, depth, breakHit);
      case WakeUp(m) => WakeFollows(s, m);
      case Ask(r) => AskFollows(s, r);
      case Birth(m) => BirthFollows(s, m);
      case Death(m) => DeathFollows(s, m);
      case _ =>
    }
  }

  lemma LineFollows(s: Session, m: nat, fault: bool, hostPoint: bool, depth: nat, breakHit: bool)
    requires Ok(s) && Enabled(s, AtLine(m, fault, hostPoint, depth, breakHit))
    ensures var u := Next(s, AtLine(m, fault, hostPoint, depth, breakHit));
            && (forall n :: Follows(u.threads, n) <==> Follows(s.threads, n))
            && u.main == s.main && u.alive == s.alive && u.watching == s.watching
            && u.caller == s.caller && u.ended == s.ended
  {
    var u := Next(s, AtLine(m, fault, hostPoint, depth, breakHit));
    PlacedFollows(s, Find(s.threads, m), u.threads[Find(s.threads, m)]);
  }

  lemma WakeFollows(s: Session, m: nat)
    requires Ok(s) && Enabled(s, WakeUp(m))
    ensures var u := Next(s, WakeUp(m));
            && (forall n :: Follows(u.threads, n) <==> Follows(s.threads, n))
            && u.main == s.main && u.alive == s.alive && u.watching == s.watching
            && u.caller == s.caller && u.ended == s.ended
  {
    var u := Next(s, WakeUp(m));
    PlacedFollows(s, Find(s.threads, m), u.threads[Find(s.threads, m)]);
  }

  lemma AskFollows(s: Session, r: Request)
    requires Ok(s)
    ensures var u := Dispatch(s, r);
            && (forall n :: Follows(u.threads, n) <==> Follows(s.threads, n))
            && u.main == s.main && u.alive == s.alive && u.watching == s.watching
            && u.caller == s.caller && (s.ended ==> u.ended)
  {
    hide Touched, WithoutSource, Find, FindId, Follows, Ok, SetMode, Launched;
    var u := Dispatch(s, r);
    match r {
      case Launch(_) => LaunchedFollows(s);
      case StepThread(id, mode, depth) => ModeFollows(s, id, mode, depth);
      case _ =>
    }
  }

  lemma LaunchedFollows(s: Session)
    requires Ok(s)
    ensures var u := Launched(s);
            u == s.(threads := u.threads) && forall n :: Follows(u.threads, n) <==> Follows(s.threads, n)
  {
    hide Ok, Find, FindId, Follows;
    var i := FindId(s.threads, 1);
    if i < |s.threads| {
      PlacedFollows(s, i, s.threads[i].(mode := StepIn));
    }
  }

  lemma ModeFollows(s: Session, id: int, mode: Mode, depth: nat)
    requires Ok(s)
    ensures var u := SetMode(s, id, mode, depth);
            u == s.(threads := u.threads) && forall n :: Follows(u.threads, n) <==> Follows(s.threads, n)
  {
    hide Ok, Find, FindId, Follows;
    var i := FindId(s.threads, id);
    if i < |s.threads| {
      PlacedFollows(s, i, SetMode(s, id, mode, depth).threads[i]);
    }
  }

  lemma PlacedFollows(s: Session, i: nat, t: Thread)
    requires Ok(s) && i < |s.threads| && t.machine == s.threads[i].machine && t.id == s.threads[i].id
    ensures forall n :: Follows(s.threads[i := t], n) <==> Follows(s.threads, n)
  {
    forall n: nat ensures Follows(s.threads[i := t], n) <==> Follows(s.threads, n) {
      ChangedInPlace(s.threads, s.nextId, i, t, n);
    }
  }

  lemma BirthFollows(s: Session, m: nat)
    requires Ok(s) && Enabled(s, Birth(m))
    ensures var u := Next(s, Birth(m));
            && (forall n :: Follows(s.threads, n) ==> Follows(u.threads, n) && n != m)
            && u.main == s.main && u.alive == s.alive + {m} && u.watching == s.watching
            && u.caller == s.caller && u.ended == s.ended
  {
    var u := Next(s, Birth(m));
    if |u.threads| > |s.threads| {
      forall n: nat ensures Follows(s.threads, n) ==> Follows(u.threads, n) {
        AddedFollows(s.threads, u.threads[|s.threads|], n);
      }
    }
  }

  lemma DeathFollows(s: Session, m: nat)
    requires Ok(s) && Enabled(s, Death(m))
    ensures var u := Next(s, Death(m));
            && (forall n :: Follows(u.threads, n) <==> Follows(s.threads, n) && !(s.watching && n == m))
            && u.main == s.main && u.alive == s.alive - {m} && u.watching == s.watching
            && u.caller == s.caller && u.ended == s.ended
  {
    var i := Find(s.threads, m);
    if s.watching && i < |s.threads| {
      forall n: nat ensures Follows(RemoveAt(s.threads, i), n) <==> Follows(s.threads, n) && n != m {
        RemovedFollows(s.threads, s.nextId, i, n);
      }
    }
  }

  lemma {:induction false} HeldForEver(s: Session, a: nat, b: nat, steps: seq<Step>)
    requires Ok(s) && Held(s, a, b) && Perform(s, steps).Some?
    ensures Held(Perform(s, steps).value, a, b) && |Perform(s, steps).value.threads| >= 2
    decreases |steps|
  {
    hide Ok, Held, Next, Enabled;
    if steps != [] {
      NextKeeps(s, steps[0]);
      HeldStays(s, a, b, steps[0]);
      HeldForEver(Next(s, steps[0]), a, b, steps[1..]);
    } else {
      HeldAreTwo(s, a, b);
    }
  }

  /** A run, from the beginning, in which the end comes to wait for ever: a late
      birth dies before deaths are heard again. */
  lemma LateDeathRun(m: nat, n: nat, k: nat)
    requires m != n && n != k && k != m
    ensures var end := Perform(Begin(m), [DetachBegin, DetachFinish, Birth(n), Unwatch, Death(n), Rebind(k),
                                          Rewatch, EndBegin]);
            end.Some? && Waiting(end.value) && TwoFixed(end.value)
  {
    var s3 := BornLateOf(m, n);
    var s5 := Next(Next(s3, Unwatch), Death(n));
    var s6 := Next(s5, Rebind(k));
    assert s6.threads == [Thread(n, 2, Run, 0, false, false, 0), Thread(k, 3, Run, 0, false, false, 1)];
    var s8 := Next(Next(s6, Rewatch), EndBegin);
    assert s8.threads == s6.threads && Find(s8.threads, n) == 0 && Find(s8.threads, k) == 1;
    assert Fixed(s8, n) && Fixed(s8, k);
    ThreeSteps(s3, Unwatch, Death(n), Rebind(k));
    hide Perform, Enabled, Next, Fixed;
    First(s6, Rewatch, [EndBegin]);
    Last(Next(s6, Rewatch), EndBegin);
    assert [Rewatch] + [EndBegin] == [Rewatch, EndBegin];
    assert [DetachBegin, DetachFinish, Birth(n)] + ([Unwatch, Death(n), Rebind(k)] + [Rewatch, EndBegin])
        == [DetachBegin, DetachFinish, Birth(n), Unwatch, Death(n), Rebind(k), Rewatch, EndBegin];
  }

  lemma NothingPerformed(s: Session)
    ensures Perform(s, []) == Some(s)
  {
  }

  /** One worker wakes, if it is parked, and dies. */
  lemma OneWorkerGoes(s: Session) returns (u: Session, steps: seq<Step>)
    requires Ok(s) && Waiting(s) && |s.threads| > 1 && !TwoFixed(s)
    ensures forall step <- steps :: step.WakeUp? || step.Death?
    ensures Ok(u) && Waiting(u) && !TwoFixed(u) && u.caller == s.caller && u.main == s.main
    ensures u.watching == s.watching && u.crowded == s.crowded && |u.threads| < |s.threads|
    ensures forall rest :: Perform(s, steps + rest) == Perform(u, rest)
  {
    hide Ok, Perform, Find, ParkedOn, Next, AllLive, Enabled, Follows;
    var m := SomeWorker(s);
    var t, before := s, [];
    if ParkedOn(s.threads, m) {
      before := [WakeUp(m)];
      WorkerWakes(s, m);
      t := Next(s, WakeUp(m));
    }
    WorkerDies(t, m);
    u := Next(t, Death(m));
    steps := before + [Death(m)];
    forall rest ensures Perform(s, steps + rest) == Perform(u, rest) {
      First(t, Death(m), rest);
      assert steps + rest == before + ([Death(m)] + rest);
      if before != [] {
        First(s, WakeUp(m), [Death(m)] + rest);
      } else {
        assert steps + rest == [Death(m)] + rest;
      }
    }
  }

  /** One of any two records is not fixed. */
  lemma SomeWorker(s: Session) returns (m: nat)
    requires Ok(s) && |s.threads| > 1 && !TwoFixed(s)
    ensures Follows(s.threads, m) && !Fixed(s, m)
  {
    hide Find;
    var a, b := s.threads[0].machine, s.threads[1].machine;
    FindIs(s.threads, s.nextId, 0);
    FindIs(s.threads, s.nextId, 1);
    m := if Fixed(s, a) then b else a;
  }

  lemma FixedBefore(s: Session, u: Session)
    requires !TwoFixed(s) && forall m :: Fixed(u, m) ==> Fixed(s, m)
    ensures !TwoFixed(u)
  {
  }

  lemma WorkerWakes(s: Session, m: nat)
    requires Ok(s) && Waiting(s) && !TwoFixed(s) && ParkedOn(s.threads, m) && !Fixed(s, m)
    ensures Enabled(s, WakeUp(m))
    ensures var t := Next(s, WakeUp(m));
            && Ok(t) && Waiting(t) && !TwoFixed(t) && Follows(t.threads, m) && !ParkedOn(t.threads, m)
            && !Fixed(t, m) && t.caller == s.caller && t.main == s.main
            && t.watching == s.watching && t.crowded == s.crowded && |t.threads| == |s.threads|
  {
    var t := Next(s, WakeUp(m));
    var i := Find(s.threads, m);
    ChangedInPlace(s.threads, s.nextId, i, t.threads[i], m);
    hide Ok, Find, ParkedOn, TwoFixed;
    NextKeeps(s, WakeUp(m));
    WakeFollows(s, m);
    FixedBefore(s, t);
  }

  lemma WorkerDies(t: Session, m: nat)
    requires Ok(t) && Waiting(t) && !TwoFixed(t) && Follows(t.threads, m) && !ParkedOn(t.threads, m) && !Fixed(t, m)
    ensures Enabled(t, Death(m))
    ensures var u := Next(t, Death(m));
            && Ok(u) && Waiting(u) && !TwoFixed(u) && u.caller == t.caller && u.main == t.main
            && u.watching == t.watching && u.crowded == t.crowded && |u.threads| == |t.threads| - 1
  {
    hide Ok, Find, ParkedOn, TwoFixed;
    NextKeeps(t, Death(m));
    DeathFollows(t, m);
    FixedBefore(t, Next(t, Death(m)));
  }

  // ------------------------------------------------------------------
  // The debugger leaving while a run is given up

  /** Two records and nobody hearing of deaths: the count dap_session_end waits
      on does not change again. */
  predicate Stuck(s: Session) {
    && (s.caller.Between? || s.caller.Ending?) && !s.watching && s.ended
    && |s.threads| >= 2
  }

  lemma StuckStays(s: Session, step: Step)
    requires Stuck(s) && Enabled(s, step)
    ensures Stuck(Next(s, step)) && !step.EndFinish? && !step.Free?
  {
  }

  lemma {:induction false} StuckForEver(run: seq<Session>, steps: seq<Step>, k: nat)
    requires IsRun(run, steps) && k < |run| && Stuck(run[0])
    ensures Stuck(run[k]) && !run[k].caller.Freed?
  {
    hide Ok;
    if k > 0 {
      StuckForEver(run, steps, k - 1);
      assert Enabled(run[k - 1], steps[k - 1]);
      StuckStays(run[k - 1], steps[k - 1]);
    }
  }

  /** A detach does not wait for the workers once the debugger has ended the
      session, and no death is heard after it: the session can be ended and
      freed afterwards exactly where at most one record is left by then. */
  lemma EndsAfterDetachIff(s: Session)
    requires Ok(s) && s.caller.Unhooked? && s.ended && !ParkedOn(s.threads, s.main)
    ensures var between := Next(s, Unwatch);
            if |s.threads| <= 1 then
              var end := Perform(between, [EndBegin, EndFinish, Free]);
              end.Some? && end.value.caller.Freed?
            else Stuck(between)
  {
    var between := Next(s, Unwatch);
    if |s.threads| <= 1 {
      var ending := Next(between, EndBegin);
      var closing := Next(ending, EndFinish);
      Last(closing, Free);
      First(ending, EndFinish, [Free]);
      assert [EndFinish] + [Free] == [EndFinish, Free];
      First(between, EndBegin, [EndFinish, Free]);
      assert [EndBegin] + [EndFinish, Free] == [EndBegin, EndFinish, Free];
    }
  }

  /** Such a run: a worker is born, the run is given up, the debugger leaves. */
  lemma StuckRun(m: nat, n: nat)
    requires m != n
    ensures var end := Perform(Begin(m), [Birth(n), DetachBegin, PeerGone, DetachFinish, Unwatch]);
            end.Some? && Stuck(end.value)
  {
    var s3 := LeftInDetach(m, n);
    var s4 := Next(s3, DetachFinish);
    assert Enabled(s4, Unwatch) && Stuck(Next(s4, Unwatch));
    hide Perform, Next, Enabled, Stuck;
    First(s3, DetachFinish, [Unwatch]);
    Last(s4, Unwatch);
    assert [DetachFinish] + [Unwatch] == [DetachFinish, Unwatch];
    assert [Birth(n), DetachBegin, PeerGone] + [DetachFinish, Unwatch]
        == [Birth(n), DetachBegin, PeerGone, DetachFinish, Unwatch];
  }

  lemma LeftInDetach(m: nat, n: nat) returns (s3: Session)
    requires m != n
    ensures |s3.threads| == 2 && s3.caller.Detaching? && s3.ended && s3.watching
    ensures forall more :: Perform(Begin(m), [Birth(n), DetachBegin, PeerGone] + more) == Perform(s3, more)
  {
    assert Begin(m).threads == [Thread(m, 1, Run, 0, false, false, 0)];
    var s1 := Next(Begin(m), Birth(n));
    s3 := Next(Next(s1, DetachBegin), PeerGone);
    ThreeSteps(Begin(m), Birth(n), DetachBegin, PeerGone);
  }

  // ------------------------------------------------------------------
  // What a reference names

  /** frame_ref, and a scope's reference made of it. */
  function FrameRef(id: nat, level: nat): nat { id * 1000 + level }

  function ScopeRef(frame: nat, captures: bool): nat { frame * 2 + 2 + if captures then 1 else 0 }

  /** decode_scope: the thread, the level and the half a reference names. */
  function DecodeScope(ref: nat): Option<(nat, nat, bool)> {
    if 2 <= ref < TABLE_REFS then
      var frame := (ref - 2) / 2;
      Some((frame / 1000, frame % 1000, (ref - 2) % 2 != 0))
    else None
  }

  lemma DecodeIsScopeThread(ref: nat)
    ensures DecodeScope(ref).Some? ==> DecodeScope(ref).value.0 == ScopeThread(ref)
  {
  }

  /** A scope's reference comes back to the scope it was made for exactly while
      the frame is not a thousand deep and the reference stays below the tables:
      deeper, it names another thread's frame; for a thread numbered 50 or more,
      it is read as a table. */
  lemma ScopeComesBack(id: nat, level: nat, captures: bool)
    ensures var ref := ScopeRef(FrameRef(id, level), captures);
            && (DecodeScope(ref) == Some((id, level, captures)) <==> level < 1000 && ref < TABLE_REFS)
            && (level >= 1000 && ref < TABLE_REFS ==> DecodeScope(ref).value.0 == id + level / 1000)
            && (id >= 50 ==> ref >= TABLE_REFS)
  {
    hide FrameRef, ScopeRef;
    Halves(FrameRef(id, level), captures);
    Thousands(id, level);
  }

  /** So what a request about that scope touches is the machine of the thread it
      was made for, where that is parked; and of a frame a thousand deep, the
      machine of a thread with another number. */
  lemma ScopeTouches(s: Session, id: nat, level: nat, captures: bool, tables: nat)
    requires ScopeRef(FrameRef(id, level), captures) < TABLE_REFS
    ensures var ref := ScopeRef(FrameRef(id, level), captures);
            Touched(s, Variables(ref, tables)) == Touched(s, SetVariable(ref)) == ParkedMachine(s, id + level / 1000)
  {
    hide FrameRef, ScopeRef, DecodeScope;
    var ref := ScopeRef(FrameRef(id, level), captures);
    Halves(FrameRef(id, level), captures);
    Thousands(id, level);
    DecodeIsScopeThread(ref);
    DecodedThread(ref);
  }

  lemma DecodedThread(ref: nat)
    requires 2 <= ref < TABLE_REFS
    ensures DecodeScope(ref).Some? && DecodeScope(ref).value.0 == (ref - 2) / 2 / 1000
  {
  }

  lemma Halves(frame: nat, captures: bool)
    ensures var ref := ScopeRef(frame, captures);
            ref >= 2 && (ref - 2) / 2 == frame && ((ref - 2) % 2 != 0 <==> captures)
    ensures frame >= 50000 ==> ScopeRef(frame, captures) >= TABLE_REFS
  {
  }

  lemma Thousands(id: nat, level: nat)
    ensures FrameRef(id, level) / 1000 == id + level / 1000
    ensures FrameRef(id, level) % 1000 == level % 1000
    ensures level % 1000 == level <==> level < 1000
    ensures level >= 1000 ==> level / 1000 > 0
    ensures id >= 50 ==> FrameRef(id, level) >= 50000
  {
    var q, r := level / 1000, level % 1000;
    assert FrameRef(id, level) == 1000 * (id + q) + r;
  }

  /** Two scopes of shallow frames never share a reference. */
  lemma ScopesApart(id: nat, level: nat, captures: bool, id2: nat, level2: nat, captures2: bool)
    requires level < 1000 && level2 < 1000
    requires ScopeRef(FrameRef(id, level), captures) == ScopeRef(FrameRef(id2, level2), captures2)
    ensures id == id2 && level == level2 && captures == captures2
  {
    assert FrameRef(id, level) == FrameRef(id2, level2);
  }
}
