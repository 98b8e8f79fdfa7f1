/** What every run of a debug session keeps: the all-stop discipline, one
    stopped event a stop, and what is left when a run ends (dap/adapter.c). */
module DebuggingRuns {
  import opened Wrappers
  import opened Debugging

  // ------------------------------------------------------------------
  // The records

  ghost predicate ThreadsOk(threads: seq<Thread>, nextId: nat) {
    && |threads| <= MAX_THREADS && 1 <= nextId
    && (forall i | 0 <= i < |threads| :: 1 <= threads[i].id < nextId)
    && (forall i, j | 0 <= i < j < |threads| ::
          threads[i].machine != threads[j].machine && threads[i].id != threads[j].id)
  }

  /** The hook's context is a record of the list: a machine carries the hook
      exactly where it has one. */
  ghost predicate HookedExactly(s: Session) {
    forall m :: m in s.hooked <==> Follows(s.threads, m)
  }

  /** Every machine recorded is there, but for one born late, whose death nobody
      may have heard of. */
  ghost predicate AllLive(s: Session) {
    forall i | 0 <= i < |s.threads| :: s.threads[i].machine in s.alive || s.threads[i].machine in s.late
  }

  /** While stopped, some machine is parked, and every table handed out lives on
      a parked one and was handed out since the last stopped event. */
  ghost predicate AllStop(s: Session) {
    Waits(s) ==>
      && (exists m :: ParkedOn(s.threads, m))
      && (forall v <- s.vars :: ParkedOn(s.threads, v.machine) && v.stop == s.stops)
  }

  /** Where the caller is, and what that says of everything else. */
  ghost predicate CallerOk(s: Session) {
    && (s.main in s.alive)
    && (s.caller.Attached? || s.caller.Detaching? || s.caller.Rebound? || (s.caller.Ending? && s.watching) ==>
          Follows(s.threads, s.main) || s.crowded)
    && (!s.caller.Attached? ==> !ParkedOn(s.threads, s.main))
    && (s.caller.Attached? || s.caller.Detaching? || s.caller.Unhooked? ==> s.watching)
    && (s.caller.Between? || s.caller.Rebound? || s.caller.Freed? ==> !s.watching)
    && (s.caller.Detaching? || s.caller.Unhooked? || s.caller.Between? ==> s.detached)
    && (s.caller.Attached? || s.caller.Rebound? ==> !s.detached)
    && (s.detached ==> !s.stopping && !s.pauseAll)
    && (s.caller.Unhooked? || s.caller.Between? ==> s.vars == [])
    && ((s.caller.Unhooked? || s.caller.Between?) && !s.ended ==> forall i | 0 <= i < |s.threads| :: s.threads[i].machine in s.late)
    && (s.caller.Rebound? ==> forall i | 0 <= i < |s.threads| :: s.threads[i].machine == s.main || s.threads[i].machine in s.late)
    && (s.caller.Closing? || s.caller.Freed? ==> s.threads == [])
    && (s.caller.Ending? || s.caller.Closing? || s.caller.Freed? ==> s.ended)
    && ((s.watching && !s.caller.Unhooked?) || s.caller.Rebound? ==> AllLive(s))
    && (forall i | 0 <= i < |s.threads| :: s.threads[i].run <= s.run)
    && (!s.detached ==> forall i | 0 <= i < |s.threads| :: s.threads[i].run == s.run || s.threads[i].machine in s.late)
  }

  ghost predicate Ok(s: Session) {
    ThreadsOk(s.threads, s.nextId) && HookedExactly(s) && AllStop(s) && CallerOk(s)
  }

  // ------------------------------------------------------------------
  // Finding a record

  lemma FindIs(threads: seq<Thread>, nextId: nat, i: nat)
    requires ThreadsOk(threads, nextId) && i < |threads|
    ensures Find(threads, threads[i].machine) == i
  {
  }

  lemma FollowsIff(threads: seq<Thread>, machine: nat)
    ensures Follows(threads, machine) <==> exists i :: 0 <= i < |threads| && threads[i].machine == machine
  {
  }

  /** A record changed in place keeps its machine: everything is found where it was. */
  lemma {:induction false} FindSame(threads: seq<Thread>, other: seq<Thread>, machine: nat)
    requires |other| == |threads|
    requires forall k | 0 <= k < |threads| :: other[k].machine == threads[k].machine
    ensures Find(other, machine) == Find(threads, machine)
  {
    if threads != [] && threads[0].machine != machine {
      FindSame(threads[1..], other[1..], machine);
    }
  }

  lemma RemovedFollows(threads: seq<Thread>, nextId: nat, i: nat, machine: nat)
    requires ThreadsOk(threads, nextId) && i < |threads|
    ensures ThreadsOk(RemoveAt(threads, i), nextId)
    ensures Follows(RemoveAt(threads, i), machine) <==> Follows(threads, machine) && machine != threads[i].machine
    ensures ParkedOn(RemoveAt(threads, i), machine) <==> ParkedOn(threads, machine) && machine != threads[i].machine
  {
    var rest := RemoveAt(threads, i);
    var last := |threads| - 1;
    FollowsIff(threads, machine);
    FollowsIff(rest, machine);
    var k := Find(threads, machine);
    if k < |threads| && k != i {
      assert rest[if k == last then i else k] == threads[k];
      FindIs(rest, nextId, if k == last then i else k);
    }
    if Follows(rest, machine) {
      var j := Find(rest, machine);
      assert rest[j] == threads[if j == i then last else j];
      FindIs(threads, nextId, if j == i then last else j);
    }
  }

  lemma AddedFollows(threads: seq<Thread>, t: Thread, machine: nat)
    requires !Follows(threads, t.machine)
    ensures Follows(threads + [t], machine) <==> Follows(threads, machine) || machine == t.machine
    ensures ParkedOn(threads + [t], machine) <==> ParkedOn(threads, machine) || (machine == t.machine && t.parked)
  {
    var more := threads + [t];
    FollowsIff(threads, machine);
    FollowsIff(more, machine);
    var k := Find(threads, machine);
    var j := Find(more, machine);
    if k < |threads| {
      assert more[k] == threads[k];
      assert j == k;
    } else if machine == t.machine {
      assert more[|threads|] == t;
      assert j == |threads|;
    }
  }

  lemma ChangedInPlace(threads: seq<Thread>, nextId: nat, i: nat, t: Thread, machine: nat)
    requires ThreadsOk(threads, nextId) && i < |threads|
    requires t.machine == threads[i].machine && t.id == threads[i].id
    ensures ThreadsOk(threads[i := t], nextId)
    ensures Find(threads[i := t], machine) == Find(threads, machine)
    ensures Follows(threads[i := t], machine) <==> Follows(threads, machine)
    ensures ParkedOn(threads[i := t], machine) <==>
            if machine == t.machine then t.parked else ParkedOn(threads, machine)
  {
    FindSame(threads, threads[i := t], machine);
    FindIs(threads, nextId, i);
  }

  // ------------------------------------------------------------------
  // Every step keeps it

  /** A record changed in place, parked as it was or parked now. */
  lemma ChangedKeeps(s: Session, i: nat, t: Thread, u: Session)
    requires Ok(s) && i < |s.threads|
    requires t.machine == s.threads[i].machine && t.id == s.threads[i].id && t.run == s.threads[i].run
    requires s.threads[i].parked ==> t.parked
    requires t.parked && !s.threads[i].parked ==> t.machine == s.main ==> s.caller.Attached?
    requires u == s.(threads := s.threads[i := t])
    ensures Ok(u)
  {
    FindIs(s.threads, s.nextId, i);
    forall m: nat
      ensures Follows(u.threads, m) <==> Follows(s.threads, m)
      ensures ParkedOn(s.threads, m) ==> ParkedOn(u.threads, m)
      ensures ParkedOn(u.threads, m) && !ParkedOn(s.threads, m) ==> m == t.machine && t.parked && !s.threads[i].parked
    {
      ChangedInPlace(s.threads, s.nextId, i, t, m);
    }
    ChangedInPlace(s.threads, s.nextId, i, t, t.machine);
    assert forall k | 0 <= k < |s.threads| :: u.threads[k].machine == s.threads[k].machine;
    assert forall k | 0 <= k < |s.threads| :: u.threads[k].run == s.threads[k].run;
  }

  lemma LineKeeps(s: Session, i: nat, fault: bool, hostPoint: bool, depth: nat, breakHit: bool)
    requires Ok(s) && i < |s.threads| && !s.threads[i].parked
    requires s.threads[i].machine == s.main ==> s.caller.Attached?
    ensures Ok(Line(s, i, fault, hostPoint, depth, breakHit))
  {
    hide Ok, Due;
    var u := Line(s, i, fault, hostPoint, depth, breakHit);
    if u == s.(panicked := u.panicked) {
      PanickedKeeps(s, u);
    } else {
      var v := s.(threads := u.threads);
      ParkingKeeps(s, i, u.threads[i], v);
      if !s.stopping {
        StoppedKeeps(v, i, u);
      }
    }
  }

  lemma PanickedKeeps(s: Session, u: Session)
    requires Ok(s) && u == s.(panicked := u.panicked)
    ensures Ok(u)
  {
  }

  lemma ParkingKeeps(s: Session, i: nat, t: Thread, v: Session)
    requires Ok(s) && i < |s.threads| && v == s.(threads := s.threads[i := t])
    requires t.machine == s.threads[i].machine && t.id == s.threads[i].id && t.run == s.threads[i].run
    requires t.parked && (t.machine == s.main ==> s.caller.Attached?)
    ensures Ok(v) && ParkedOn(v.threads, t.machine)
  {
    ChangedInPlace(s.threads, s.nextId, i, t, t.machine);
    hide Ok;
    ChangedKeeps(s, i, t, v);
  }

  lemma StoppedKeeps(s: Session, i: nat, u: Session)
    requires Ok(s) && i < |s.threads| && ParkedOn(s.threads, s.threads[i].machine) && !s.detached
    requires u == s.(stopping := true, pauseAll := false, vars := [], stops := s.stops + 1, events := u.events)
    ensures Ok(u)
  {
    assert ParkedOn(u.threads, s.threads[i].machine);
  }

  lemma WakeKeeps(s: Session, i: nat)
    requires Ok(s) && i < |s.threads| && !Waits(s)
    ensures Ok(Wake(s, i))
  {
    var u := Wake(s, i);
    forall m: nat
      ensures Follows(u.threads, m) <==> Follows(s.threads, m)
      ensures ParkedOn(u.threads, m) ==> ParkedOn(s.threads, m)
    {
      ChangedInPlace(s.threads, s.nextId, i, u.threads[i], m);
      FindIs(s.threads, s.nextId, i);
    }
  }

  lemma AddKeeps(s: Session, machine: nat, announce: bool)
    requires Ok(s) && !Follows(s.threads, machine) && machine in s.alive
    requires s.caller.Attached? || s.caller.Detaching? || (s.caller.Unhooked? && machine in s.late)
    ensures Ok(AddThread(s, machine, announce))
  {
    var u := AddThread(s, machine, announce);
    if |s.threads| < MAX_THREADS {
      var t := u.threads[|s.threads|];
      FollowsIff(s.threads, machine);
      forall m: nat
        ensures Follows(u.threads, m) <==> Follows(s.threads, m) || m == machine
        ensures ParkedOn(u.threads, m) <==> ParkedOn(s.threads, m)
      {
        AddedFollows(s.threads, t, m);
      }
    }
  }

  /** A record goes that is neither parked nor one the caller needs. */
  lemma RemoveKeeps(s: Session, i: nat, announce: bool)
    requires Ok(s) && i < |s.threads| && !s.threads[i].parked && s.threads[i].machine != s.main
    requires !s.caller.Rebound?
    ensures Ok(RemoveThread(s, i, announce))
  {
    var u := RemoveThread(s, i, announce);
    forall m: nat
      ensures Follows(u.threads, m) <==> Follows(s.threads, m) && m != s.threads[i].machine
      ensures ParkedOn(u.threads, m) <==> ParkedOn(s.threads, m) && m != s.threads[i].machine
    {
      RemovedFollows(s.threads, s.nextId, i, m);
    }
    RemovedFollows(s.threads, s.nextId, i, s.main);
    FindIs(s.threads, s.nextId, i);
    RemovedAll(s, i);
  }

  lemma RemovedAll(s: Session, i: nat)
    requires i < |s.threads|
    ensures forall k | 0 <= k < |s.threads| - 1 ::
              RemoveAt(s.threads, i)[k] == s.threads[if k == i then |s.threads| - 1 else k]
  {
  }

  lemma DeathKeeps(s: Session, m: nat)
    requires Ok(s) && Enabled(s, Death(m))
    ensures Ok(Next(s, Death(m)))
  {
    hide Ok;
    FollowedAtMostOnce(s, m);
    if s.watching && Follows(s.threads, m) {
      var i := Find(s.threads, m);
      assert !s.caller.Rebound? by { WatchingIsNotRebound(s); }
      RemoveKeeps(s, i, true);
      GoneKeeps(RemoveThread(s, i, true), m);
      assert Next(s, Death(m)) == RemoveThread(s, i, true).(alive := s.alive - {m});
    } else {
      GoneKeeps(s, m);
    }
  }

  lemma WatchingIsNotRebound(s: Session)
    requires Ok(s) && s.watching
    ensures !s.caller.Rebound?
  {
  }

  lemma FollowedAtMostOnce(s: Session, m: nat)
    requires Ok(s)
    ensures Follows(s.threads, m) && s.watching && m != s.main && !ParkedOn(s.threads, m) ==>
            !Follows(RemoveAt(s.threads, Find(s.threads, m)), m)
    ensures s.caller.Rebound? && m != s.main && Follows(s.threads, m) ==> m in s.late
  {
    if Follows(s.threads, m) {
      RemovedFollows(s.threads, s.nextId, Find(s.threads, m), m);
    }
  }

  lemma GoneKeeps(s: Session, m: nat)
    requires Ok(s) && m != s.main
    requires Follows(s.threads, m) ==> !s.watching && (s.caller.Rebound? ==> m in s.late)
    ensures Ok(s.(alive := s.alive - {m}))
  {
    FollowsIff(s.threads, m);
  }

  lemma BirthKeeps(s: Session, m: nat)
    requires Ok(s) && Enabled(s, Birth(m))
    ensures Ok(Next(s, Birth(m)))
  {
    hide Ok;
    var born := s.(alive := s.alive + {m}, late := if s.caller.Unhooked? then s.late + {m} else s.late);
    BornKeeps(s, born);
    if s.watching && !s.ended {
      HeardWhere(s);
      AddKeeps(born, m, true);
    }
  }

  lemma BornKeeps(s: Session, born: Session)
    requires Ok(s) && born == s.(alive := born.alive, late := born.late) && s.alive <= born.alive && s.late <= born.late
    ensures Ok(born)
  {
  }

  lemma HeardWhere(s: Session)
    requires Ok(s) && s.watching && !s.ended
    ensures s.caller.Attached? || s.caller.Detaching? || s.caller.Unhooked?
  {
  }

  // ------------------------------------------------------------------
  // Requests

  lemma ParkedMachineIs(s: Session, id: int)
    requires ThreadsOk(s.threads, s.nextId) && ParkedMachine(s, id).Some?
    ensures ParkedOn(s.threads, ParkedMachine(s, id).value)
  {
    FindIs(s.threads, s.nextId, FindId(s.threads, id));
  }

  /** A frame is read, written or evaluated on only while its machine is parked,
      and so is a table while the machines are stopped. */
  lemma TouchedIsParked(s: Session, r: Request)
    requires Ok(s) && Touched(s, r).Some?
    requires Waits(s) || !NamesTable(r)
    ensures ParkedOn(s.threads, Touched(s, r).value)
  {
    match r {
      case StackTrace(id) => ParkedMachineIs(s, id);
      case Scopes(frame) => ParkedMachineIs(s, Quotient(frame, 1000));
      case Evaluate(frame) => ParkedMachineIs(s, Quotient(frame, 1000));
      case StepThread(id, _, _) => ParkedMachineIs(s, id);
      case Variables(ref, _) => if ref < TABLE_REFS { ParkedMachineIs(s, ScopeThread(ref)); }
      case SetVariable(ref) => if ref < TABLE_REFS { ParkedMachineIs(s, ScopeThread(ref)); }
      case _ =>
    }
  }

  predicate NamesTable(r: Request) {
    match r
    case Variables(ref, _) => ref >= TABLE_REFS
    case SetVariable(ref) => ref >= TABLE_REFS
    case _ => false
  }

  lemma ResumeKeeps(s: Session)
    requires Ok(s)
    ensures Ok(ResumeAll(s))
  {
  }

  lemma ModeKeeps(s: Session, i: nat, t: Thread)
    requires Ok(s) && i < |s.threads|
    requires t == s.threads[i].(mode := t.mode, stepDepth := t.stepDepth)
    ensures Ok(s.(threads := s.threads[i := t]))
  {
    hide Ok;
    ChangedKeeps(s, i, t, s.(threads := s.threads[i := t]));
  }

  lemma VariablesKeep(s: Session, ref: int, tables: nat)
    requires Ok(s) && !s.ended && !s.detached
    ensures Ok(Dispatch(s, Variables(ref, tables)))
  {
    var r := Variables(ref, tables);
    if Touched(s, r).Some? && Waits(s) {
      TouchedIsParked(s, r);
    }
  }

  lemma DispatchKeeps(s: Session, r: Request)
    requires Ok(s) && !s.ended && !s.detached
    ensures Ok(Dispatch(s, r))
  {
    hide Ok;
    match r {
      case Launch(stopOnEntry) =>
        var i := FindId(s.threads, 1);
        if stopOnEntry && i < |s.threads| {
          ModeKeeps(s, i, s.threads[i].(mode := StepIn));
        }
      case Variables(ref, tables) => VariablesKeep(s, ref, tables);
      case Continue => ResumeKeeps(s);
      case StepThread(id, mode, depth) =>
        var i := FindId(s.threads, id);
        if i < |s.threads| {
          ModeKeeps(s, i, SetMode(s, id, mode, depth).threads[i]);
        }
        ResumeKeeps(SetMode(s, id, mode, depth));
      case Disconnect => EndedKeeps(s);
      case Pause => PauseKeeps(s);
      case SetBreakpoints(_, _) => BreaksKeep(s, Dispatch(s, r).breaks);
      case _ =>
    }
  }

  lemma PauseKeeps(s: Session)
    requires Ok(s) && !s.detached
    ensures Ok(s.(pauseAll := true))
  {
  }

  lemma BreaksKeep(s: Session, breaks: seq<Break>)
    requires Ok(s)
    ensures Ok(s.(breaks := breaks))
  {
  }

  // ------------------------------------------------------------------
  // The calls around a run

  /** With one record left at the end of a run or of the session, it is the main
      machine's, which the caller has kept alive, unless there was no room for it. */
  lemma OneLeftIsMain(s: Session)
    requires Ok(s) && (s.caller.Detaching? || (s.caller.Ending? && s.watching)) && !s.crowded
    ensures |s.threads| >= 1
    ensures |s.threads| == 1 ==> s.threads[0].machine == s.main
  {
  }

  lemma DropKeeps(s: Session, announce: bool)
    requires Ok(s) && (s.caller.Detaching? || s.caller.Ending?)
    requires |s.threads| <= 1 || s.ended
    ensures var u := Drop(s, announce);
            && ThreadsOk(u.threads, u.nextId) && HookedExactly(u)
            && (|s.threads| <= 1 ==> u.threads == [])
            && (|s.threads| > 1 ==> u == s)
            && !ParkedOn(u.threads, s.main)
  {
    if |s.threads| == 1 {
      forall m: nat ensures Follows(Drop(s, announce).threads, m) <==> Follows(s.threads, m) && m != s.threads[0].machine {
        RemovedFollows(s.threads, s.nextId, 0, m);
      }
    }
  }

  lemma CallsKeep(s: Session, step: Step)
    requires Ok(s) && Enabled(s, step)
    requires step.DetachBegin? || step.DetachFinish? || step.Unwatch? || step.Rewatch? ||
             step.EndBegin? || step.EndFinish? || step.Free?
    ensures Ok(Next(s, step))
  {
    match step {
      case DetachFinish => DropKeeps(s, true);
      case EndFinish => DropKeeps(s, false);
      case _ =>
    }
  }

  /** When the session is bound to its next run no reference is left, and no
      record and no hook but of machines born late: none at all exactly where
      none of those is still followed. */
  lemma BetweenIsClean(s: Session)
    requires Ok(s) && s.caller.Between? && !s.ended
    ensures s.vars == [] && s.detached && !s.stopping && !s.pauseAll && !s.watching && 1 <= s.nextId
    ensures forall i | 0 <= i < |s.threads| :: s.threads[i].machine in s.late
    ensures s.hooked <= s.late
    ensures s.threads == [] && s.hooked == {} <==> forall m <- s.late :: !Follows(s.threads, m)
  {
    assert forall m :: m in s.hooked <==> Follows(s.threads, m);
    forall m: nat | Follows(s.threads, m) ensures m in s.late {
      assert s.threads[Find(s.threads, m)].machine in s.late;
    }
    if s.threads != [] {
      assert s.threads[0].machine in s.late && Follows(s.threads, s.threads[0].machine);
    }
  }

  lemma OneThread(t: Thread, m: nat)
    ensures Follows([t], m) <==> m == t.machine
    ensures ParkedOn([t], m) <==> m == t.machine && t.parked
  {
    FollowsIff([t], m);
  }

  lemma RebindKeeps(s: Session, m: nat)
    requires Ok(s) && Enabled(s, Rebind(m))
    ensures Ok(Next(s, Rebind(m)))
  {
    var u := Next(s, Rebind(m));
    if |s.threads| < MAX_THREADS {
      FollowsIff(s.threads, m);
      forall n: nat
        ensures Follows(u.threads, n) <==> Follows(s.threads, n) || n == m
        ensures ParkedOn(u.threads, n) <==> ParkedOn(s.threads, n)
      {
        AddedFollows(s.threads, u.threads[|s.threads|], n);
      }
    }
  }

  lemma BoundOk(u: Session, t: Thread)
    requires u.threads == [t] && u.hooked == {t.machine} && t.machine == u.main && u.main in u.alive
    requires !t.parked && 1 <= t.id < u.nextId && t.run == u.run && !u.stopping
    requires u.caller.Attached? && u.watching && !u.detached
    ensures Ok(u)
  {
    forall n: nat ensures (Follows(u.threads, n) <==> n == t.machine) && !ParkedOn(u.threads, n) {
      OneThread(t, n);
    }
  }

  /** Every step of every thread keeps the session well formed. */
  lemma NextKeeps(s: Session, step: Step)
    requires Ok(s) && Enabled(s, step)
    ensures Ok(Next(s, step))
  {
    hide Ok;
    match step {
      case AtLine(m, fault, hostPoint, depth, breakHit) =>
        LineKeeps(s, Find(s.threads, m), fault, hostPoint, depth, breakHit);
      case WakeUp(m) => WakeKeeps(s, Find(s.threads, m));
      case Birth(m) => BirthKeeps(s, m);
      case Death(m) => DeathKeeps(s, m);
      case Ask(r) => DispatchKeeps(s, r);
      case PeerGone => EndedKeeps(s);
      case Rebind(m) => RebindKeeps(s, m);
      case _ => CallsKeep(s, step);
    }
  }

  lemma EndedKeeps(s: Session)
    requires Ok(s)
    ensures Ok(s.(ended := true, peerEnded := true))
  {
  }

  lemma BeginsOk(machine: nat)
    ensures Ok(Begin(machine))
  {
    BoundOk(Begin(machine), Thread(machine, 1, Run, 0, false, false, 0));
  }
}
