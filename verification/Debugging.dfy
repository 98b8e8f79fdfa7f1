/** The debug session, one step under its lock at a time: the hooks of the
    machines it follows, the reader's requests, machines born and dying, and
    the run's own end, detach and rebind (dap/adapter.c). */
module Debugging {
  import opened Wrappers

  const MAX_THREADS: nat := 64
  const TABLE_REFS: int := 100000

  datatype Mode = Run | StepIn | StepOver | StepOut

  /** One machine the session follows. `run` counts the runs the session has
      been bound to, and says which one the machine belongs to. */
  datatype Thread = Thread(machine: nat, id: nat, mode: Mode, stepDepth: nat, parked: bool, faulted: bool, run: nat)

  /** A table handed out, on the machine it lives on; `stop` is how many stops
      the debugger had heard of when it was. */
  datatype Var = Var(machine: nat, stop: nat)

  datatype Break = Break(source: nat, line: nat)

  datatype Reason = Exception | Paused | Stepped | AtBreakpoint

  datatype Event =
    | Stopped(id: nat, reason: Reason)
    | Started(id: nat)
    | Exited(id: nat)

  /** Where the thread that runs the main machine is: in the run, or in one of
      the calls around it (dap_session_detach, _rebind and _end). */
  datatype Caller =
    | Attached
    | Detaching   // detached set, waiting for the workers
    | Unhooked    // the lock let go, births and deaths still heard
    | Between     // between two runs
    | Rebound     // the next main machine hooked, births not heard yet
    | Ending      // ended set, waiting for the workers
    | Closing     // every record gone, births and deaths still heard
    | Freed

  datatype Session = Session(
    threads: seq<Thread>, nextId: nat, breaks: seq<Break>,
    stopping: bool, pauseAll: bool, ended: bool, peerEnded: bool, detached: bool,
    vars: seq<Var>, stops: nat, events: seq<Event>,
    // The machines there are, and those of them (or of those gone) whose hook
    // is the session's; those a hook sent off to panic; and the main one.
    alive: set<nat>, hooked: set<nat>, panicked: set<nat>, main: nat,
    watching: bool, caller: Caller, run: nat,
    // The machines born since the last detach let go of the lock and before births
    // were no longer heard; and whether the records left no room for the main one.
    late: set<nat>, crowded: bool)

  // ------------------------------------------------------------------
  // Threads

  /** The index of the first thread that is this machine's, or their number. */
  function Find(threads: seq<Thread>, machine: nat): (i: nat)
    ensures i <= |threads|
    ensures i < |threads| ==> threads[i].machine == machine
    ensures forall k | 0 <= k < i :: threads[k].machine != machine
  {
    if threads == [] then 0
    else if threads[0].machine == machine then 0
    else 1 + Find(threads[1..], machine)
  }

  function FindId(threads: seq<Thread>, id: int): (i: nat)
    ensures i <= |threads|
    ensures i < |threads| ==> threads[i].id == id
    ensures forall k | 0 <= k < i :: threads[k].id != id
  {
    if threads == [] then 0
    else if threads[0].id == id then 0
    else 1 + FindId(threads[1..], id)
  }

  predicate Follows(threads: seq<Thread>, machine: nat) {
    Find(threads, machine) < |threads|
  }

  predicate ParkedOn(threads: seq<Thread>, machine: nat) {
    Follows(threads, machine) && threads[Find(threads, machine)].parked
  }

  /** add_thread: nothing is recorded or hooked beyond the cap. */
  function AddThread(s: Session, machine: nat, announce: bool): Session {
    if |s.threads| >= MAX_THREADS then s
    else
      s.(threads := s.threads + [Thread(machine, s.nextId, Run, 0, false, false, s.run)],
         nextId := s.nextId + 1,
         hooked := s.hooked + {machine},
         events := if announce then s.events + [Started(s.nextId)] else s.events)
  }

  /** remove_thread: the last record takes the place of the one that goes. */
  function RemoveAt(threads: seq<Thread>, i: nat): (rest: seq<Thread>)
    requires i < |threads|
    ensures |rest| == |threads| - 1
  {
    var last := |threads| - 1;
    threads[i := threads[last]][..last]
  }

  function RemoveThread(s: Session, i: nat, announce: bool): Session
    requires i < |s.threads|
  {
    s.(threads := RemoveAt(s.threads, i),
       hooked := s.hooked - {s.threads[i].machine},
       events := if announce then s.events + [Exited(s.threads[i].id)] else s.events)
  }

  // ------------------------------------------------------------------
  // The hook

  predicate Due(t: Thread, depth: nat, breakHit: bool) {
    || t.mode.StepIn?
    || (t.mode.StepOver? && depth <= t.stepDepth)
    || (t.mode.StepOut? && depth < t.stepDepth)
    || breakHit
  }

  /** A machine at a line, a fault, or a boundary its host chose: it goes on,
      parks, or -- the session over or between runs -- panics. */
  function Line(s: Session, i: nat, fault: bool, hostPoint: bool, depth: nat, breakHit: bool): Session
    requires i < |s.threads|
  {
    var t := s.threads[i];
    if s.ended || s.detached then s.(panicked := s.panicked + {t.machine})
    else
      var noted := if fault then t.(faulted := true) else t;
      var stop := fault || s.stopping || s.pauseAll || (!hostPoint && Due(t, depth, breakHit));
      if !stop then s
      else
        var reason := if fault then Exception else if s.pauseAll then Paused
                      else if !t.mode.Run? then Stepped else AtBreakpoint;
        Parks(s, i, noted.(mode := Run, parked := true), reason)
  }

  /** A machine parks; where it is the first, its stop is announced and whatever
      was handed out before is void. */
  function Parks(s: Session, i: nat, t: Thread, reason: Reason): Session
    requires i < |s.threads|
  {
    var parked := s.(threads := s.threads[i := t]);
    if s.stopping then parked
    else
      parked.(stopping := true, pauseAll := false, vars := [], stops := s.stops + 1,
              events := s.events + [Stopped(t.id, reason)])
  }

  /** A parked machine's wait has ended: it goes on, or panics. */
  function Wake(s: Session, i: nat): Session
    requires i < |s.threads|
  {
    s.(threads := s.threads[i := s.threads[i].(parked := false)],
       panicked := if s.ended || s.detached then s.panicked + {s.threads[i].machine} else s.panicked)
  }

  predicate Waits(s: Session) {
    s.stopping && !s.ended && !s.detached
  }

  // ------------------------------------------------------------------
  // Requests

  /** C's division of an int: toward zero. */
  function Quotient(n: int, divisor: nat): int
    requires divisor > 0
  {
    if n >= 0 then n / divisor else -((-n) / divisor)
  }

  /** `tables` is how many of the variables answered are tables. */
  datatype Request =
    | Launch(stopOnEntry: bool)
    | SetBreakpoints(source: nat, lines: seq<nat>)
    | Threads
    | StackTrace(id: int)
    | ExceptionInfo(id: int)
    | Scopes(frame: int)
    | Variables(ref: int, tables: nat)
    | SetVariable(ref: int)
    | Evaluate(frame: int)
    | Continue
    | StepThread(id: int, mode: Mode, depth: nat)
    | Pause
    | Disconnect
    | Unknown

  /** Which thread a reference to a scope names, if it names one at all. */
  function ScopeThread(ref: int): int {
    if 2 <= ref < TABLE_REFS then (ref - 2) / 2 / 1000 else 0
  }

  /** The parked thread under this id, or none. */
  function ParkedMachine(s: Session, id: int): Option<nat> {
    var i := FindId(s.threads, id);
    if i < |s.threads| && s.threads[i].parked then Some(s.threads[i].machine) else None
  }

  function TableMachine(s: Session, ref: int): Option<nat> {
    if TABLE_REFS <= ref < TABLE_REFS + |s.vars| then Some(s.vars[ref - TABLE_REFS].machine) else None
  }

  /** The machine whose frames, bindings or tables the reader reads, writes or
      evaluates on to answer this request. */
  function Touched(s: Session, r: Request): Option<nat> {
    match r
    case StackTrace(id) => ParkedMachine(s, id)
    case Scopes(frame) => ParkedMachine(s, Quotient(frame, 1000))
    case Evaluate(frame) => ParkedMachine(s, Quotient(frame, 1000))
    case Variables(ref, _) =>
      if ref >= TABLE_REFS then TableMachine(s, ref) else ParkedMachine(s, ScopeThread(ref))
    case SetVariable(ref) =>
      if ref >= TABLE_REFS then TableMachine(s, ref) else ParkedMachine(s, ScopeThread(ref))
    case StepThread(id, _, _) => ParkedMachine(s, id)
    case _ => None
  }

  function ResumeAll(s: Session): Session {
    s.(stopping := false, pauseAll := false, vars := [])
  }

  function SetMode(s: Session, id: int, mode: Mode, depth: nat): Session {
    var i := FindId(s.threads, id);
    if i == |s.threads| then s
    else
      var t := s.threads[i].(mode := mode);
      s.(threads := s.threads[i := if t.parked then t.(stepDepth := depth) else t])
  }

  /** stopOnEntry: the main machine stops at its first line. */
  function Launched(s: Session): Session {
    var i := FindId(s.threads, 1);
    if i == |s.threads| then s else s.(threads := s.threads[i := s.threads[i].(mode := StepIn)])
  }

  function WithoutSource(breaks: seq<Break>, source: nat): seq<Break> {
    if breaks == [] then []
    else (if breaks[0].source == source then [] else [breaks[0]]) + WithoutSource(breaks[1..], source)
  }

  /** A source's breakpoints go, and every other stays as often as it was. */
  lemma {:induction false} OthersStay(breaks: seq<Break>, source: nat, b: Break)
    ensures multiset(WithoutSource(breaks, source))[b] == if b.source == source then 0 else multiset(breaks)[b]
  {
    if breaks != [] {
      assert breaks == [breaks[0]] + breaks[1..];
      OthersStay(breaks[1..], source, b);
    }
  }

  function AnswerVariables(s: Session, machine: Option<nat>, tables: nat): Session {
    match machine
    case None => s
    case Some(m) => s.(vars := s.vars + seq(tables, _ => Var(m, s.stops)))
  }

  /** dispatch. */
  function Dispatch(s: Session, r: Request): Session {
    match r
    case Launch(stopOnEntry) => if stopOnEntry then Launched(s) else s
    case SetBreakpoints(source, lines) =>
      s.(breaks := WithoutSource(s.breaks, source)
                   + seq(|lines|, k requires 0 <= k < |lines| => Break(source, lines[k])))
    case Variables(_, tables) => AnswerVariables(s, Touched(s, r), tables)
    case Continue => ResumeAll(s)
    case StepThread(id, mode, depth) => ResumeAll(SetMode(s, id, mode, depth))
    case Pause => s.(pauseAll := true)
    case Disconnect => s.(ended := true, peerEnded := true)
    case _ => s
  }

  // ------------------------------------------------------------------
  // Every step

  datatype Step =
    | AtLine(machine: nat, fault: bool, hostPoint: bool, depth: nat, breakHit: bool)
    | WakeUp(machine: nat)
    | Birth(machine: nat)
    | Death(machine: nat)
    | Ask(request: Request)
    | PeerGone
    | DetachBegin | DetachFinish | Unwatch
    | Rebind(machine: nat) | Rewatch
    | EndBegin | EndFinish | Free

  /** A machine's own thread runs it unless it is parked; the main machine runs
      only where its caller is not in one of the session's calls, and lives on
      through them. */
  predicate Enabled(s: Session, step: Step) {
    match step
    case AtLine(m, _, _, _, _) =>
      m in s.alive && m in s.hooked && Follows(s.threads, m) && !ParkedOn(s.threads, m) &&
      (m == s.main ==> s.caller.Attached?)
    case WakeUp(m) => ParkedOn(s.threads, m) && !Waits(s)
    case Birth(m) => m !in s.alive && !Follows(s.threads, m)
    case Death(m) => m in s.alive && m != s.main && !ParkedOn(s.threads, m)
    case Ask(_) => !s.ended && !s.detached
    case PeerGone => !s.ended
    case DetachBegin => s.caller.Attached? && !ParkedOn(s.threads, s.main)
    case DetachFinish => s.caller.Detaching? && (|s.threads| <= 1 || s.ended)
    case Unwatch => s.caller.Unhooked?
    case Rebind(m) => s.caller.Between? && !s.ended && m !in s.alive && !Follows(s.threads, m)
    case Rewatch => s.caller.Rebound?
    case EndBegin => (s.caller.Attached? || s.caller.Between?) && !ParkedOn(s.threads, s.main)
    case EndFinish => s.caller.Ending? && |s.threads| <= 1
    case Free => s.caller.Closing?
  }

  function Drop(s: Session, announce: bool): Session {
    if |s.threads| == 1 then RemoveThread(s, 0, announce) else s
  }

  function Next(s: Session, step: Step): Session
    requires Enabled(s, step)
  {
    match step
    case AtLine(m, fault, hostPoint, depth, breakHit) =>
      Line(s, Find(s.threads, m), fault, hostPoint, depth, breakHit)
    case WakeUp(m) => Wake(s, Find(s.threads, m))
    case Birth(m) =>
      var born := s.(alive := s.alive + {m}, late := if s.caller.Unhooked? then s.late + {m} else s.late);
      if s.watching && !s.ended then AddThread(born, m, true) else born
    case Death(m) =>
      var gone := s.(alive := s.alive - {m});
      if s.watching && Follows(s.threads, m) then RemoveThread(gone, Find(s.threads, m), true) else gone
    case Ask(r) => Dispatch(s, r)
    case PeerGone => s.(ended := true, peerEnded := true)
    case DetachBegin => s.(detached := true, stopping := false, pauseAll := false, caller := Detaching)
    case DetachFinish => Drop(s, true).(vars := [], caller := Unhooked, late := {})
    case Unwatch => s.(watching := false, caller := Between)
    case Rebind(m) =>
      AddThread(s.(alive := s.alive + {m}, main := m, run := s.run + 1, crowded := |s.threads| >= MAX_THREADS), m, true)
      .(detached := false, caller := Rebound)
    case Rewatch => s.(watching := true, caller := Attached)
    case EndBegin => s.(ended := true, caller := Ending)
    case EndFinish => Drop(s, false).(caller := Closing)
    case Free => s.(watching := false, caller := Freed)
  }

  /** The session as dap_session_begin leaves it: one record, numbered 1, and the
      watcher set. */
  function Begin(machine: nat): Session {
    AddThread(Session([], 1, [], false, false, false, false, false, [], 0, [],
                      {machine}, {}, {}, machine, true, Attached, 0, {}, false), machine, false)
  }
}
