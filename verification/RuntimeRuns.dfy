/**
 Runs of the runtime: any interleaving of workers, fibers, the kernel and the
 timers. No assertion of the source fires, every wake-up reference is in exactly
 one place, fibers execute exclusively, counters are exact, and a quiescent
 runtime stays quiescent.
 */
module RuntimeRuns {
  import opened Options
  import opened Events
  import opened Runtime
  import opened RuntimeSafety

  datatype Move =
    | SpawnFiber(t: nat, thread: int)                  // schedule(new fiber)
    | PostCall(t: nat, thread: int)                    // schedule(callback)
    | Take(w: nat, i: nat)                             // run: dequeue
    | Rest(w: nat)                                     // run: nothing to do, idle
    | WakeWorker(w: nat)                               // back from idle
    | Resume(w: nat, g: nat, ok: bool)                 // run: execute what was taken
    | Reschedule(w: nat)                               // YieldToReady
    | Park(w: nat)                                     // YieldToHold
    | End(w: nat, how: FiberState)                     // MainFunc returns or throws
    | Enter(f: nat, op: nat, fd: nat, e: Event)        // do_io: EAGAIN
    | ArmTimeout(f: nat, j: nat)                       // do_io: addConditionTimer
    | RegisterEvent(f: nat, ok: bool)                  // do_io: addEvent
    | LeaveIo(f: nat)                                  // do_io: the call succeeded
    | GoOn(f: nat)                                     // do_io: after the park
    | FallAsleep(f: nat, j: nat)                       // sleep, usleep, nanosleep
    | TimerDue(j: nat)                                 // idle: expired callback
    | Ready(fd: nat, ready: set<Event>, ok: bool)      // idle: epoll report
    | CancelOne(fd: nat, e: Event, ok: bool)           // cancelEvent
    | CancelBoth(fd: nat, ok: bool)                    // cancelAll
    | AddUserCall(fd: nat, e: Event, j: nat, ok: bool) // addEvent with a callback
    | DelUserCall(fd: nat, e: Event, ok: bool)         // delEvent of a callback
    | Stop                                             // stop: the flags

  /** When a move can happen. The discipline asked of user code: one waiter per
      descriptor and event, yielding with HOLD only after a registration or a sleep
      timer, and no delEvent for a waiting fiber, which would lose it (`DelEventLoses`).
      The kernel may report anything. */
  ghost predicate Legal(s: State, m: Move)
  {
    match m
    case SpawnFiber(t, _) => t !in s.tasks
    case PostCall(t, _) => t !in s.tasks
    case Take(w, i) => w in s.workers && s.workers[w].phase == Scanning && FirstEligible(s, w, i)
    case Rest(w) => w in s.workers && s.workers[w].phase == Scanning && NoneEligible(s, w)
    case WakeWorker(w) => w in s.workers && s.workers[w].phase == Idling
    case Resume(w, g, _) => w in s.workers && s.workers[w].phase.Holding? && CallFiber(s, w, g)
    case Reschedule(w) => RunsUser(s, w)
    case Park(w) => Runs(s, w) && (Code(s, w).Registered? || Code(s, w).Dozing?)
    case End(w, how) => RunsUser(s, w) && (how == TERM || how == EXCEPT)
    case Enter(f, op, fd, e) =>
      Executes(s, f) && s.tasks[f].kind.pc == User && op !in s.calls && FreeSlot(s, fd, e)
    case ArmTimeout(f, j) =>
      Executes(s, f) && s.tasks[f].kind.pc.InIo? && s.tasks[f].kind.pc.timer.None? && j !in s.tasks
    case RegisterEvent(f, _) => Executes(s, f) && s.tasks[f].kind.pc.InIo?
    case LeaveIo(f) => Executes(s, f) && s.tasks[f].kind.pc.InIo? && s.tasks[f].kind.pc.timer.None?
    case GoOn(f) => Executes(s, f) && s.tasks[f].kind.pc.Woken?
    case FallAsleep(f, j) => Executes(s, f) && s.tasks[f].kind.pc == User && j !in s.tasks
    case TimerDue(j) => j in s.timers
    case Ready(fd, _, _) => fd < |s.io.fds|
    case CancelOne(_, _, _) => true
    case CancelBoth(_, _) => true
    case AddUserCall(fd, e, j, _) => j !in s.tasks && FreeSlot(s, fd, e) && Waiter(s.io, fd, e) == None
    case DelUserCall(fd, e, _) =>
      Waiter(s.io, fd, e).Some? ==> !IsFiber(s, Waiter(s.io, fd, e).value)
    case Stop => true
  }

  ghost predicate NoneEligible(s: State, w: nat)
  {
    forall i :: 0 <= i < |s.queue| ==> !Eligible(s, s.queue[i], w)
  }

  ghost predicate Runs(s: State, w: nat)
  {
    && w in s.workers && s.workers[w].phase.Executing?
    && s.workers[w].phase.fiber in s.tasks && s.tasks[s.workers[w].phase.fiber].kind.Fiber?
  }

  ghost function Code(s: State, w: nat): Pc
    requires Runs(s, w)
  {
    s.tasks[s.workers[w].phase.fiber].kind.pc
  }

  ghost predicate RunsUser(s: State, w: nat) { Runs(s, w) && Code(s, w) == User }

  /** Executing what was taken; a dangling entry would be an abort. */
  function DoResume(s: State, w: nat, g: nat, ok: bool): Outcome<State>
    requires w in s.workers && s.workers[w].phase.Holding? && CallFiber(s, w, g)
  {
    var t := s.workers[w].phase.task;
    if t !in s.tasks then Abort
    else
      match s.tasks[t].kind
      case Fiber(_, _, _, _, _, _) => ResumeFiber(s, w)
      case Call(UserCall) => ResumeCall(s, w, g)
      case Call(_) => TimerCall(s, w, g, ok)
  }

  /** The effect of a move. Abort stands for a failed assertion and for a reference
      to a task that does not exist. */
  ghost function Do(s: State, m: Move): Outcome<State>
    requires Legal(s, m)
  {
    match m
    case SpawnFiber(t, thread) => Fine(Spawn(s, t, NewFiber, thread))
    case PostCall(t, thread) => Fine(Spawn(s, t, Task(Queued, Call(UserCall)), thread))
    case Take(w, i) => if s.queue[i].task in s.tasks then Fine(ScanTake(s, w, i)) else Abort
    case Rest(w) => Fine(ScanNone(s, w))
    case WakeWorker(w) => Fine(Back(s, w))
    case Resume(w, g, ok) => DoResume(s, w, g, ok)
    case Reschedule(w) => Fine(YieldReady(s, w))
    case Park(w) => Fine(YieldHold(s, w))
    case End(w, how) => Fine(Finish(s, w, how))
    case Enter(f, op, fd, e) => Fine(EnterIo(s, f, op, fd, e))
    case ArmTimeout(f, j) => Fine(Arm(s, f, j))
    case RegisterEvent(f, ok) =>
      if s.tasks[f].kind.pc.op in s.calls && s.tasks[f].kind.pc.timer != Some(f) && |s.io.fds| >= 2
      then Register(s, f, ok) else Abort
    case LeaveIo(f) => if s.tasks[f].kind.pc.op in s.calls then Fine(Return(s, f)) else Abort
    case GoOn(f) =>
      if s.tasks[f].kind.pc.op in s.calls && s.tasks[f].kind.pc.timer != Some(f)
      then Fine(Continue(s, f)) else Abort
    case FallAsleep(f, j) => Fine(Sleep(s, f, j))
    case TimerDue(j) => if j in s.tasks then Fine(Expire(s, j)) else Abort
    case Ready(fd, ready, ok) => Handover(s, Dispatch(s.io, fd, ready, ok))
    case CancelOne(fd, e, ok) => Handover(s, CancelEvent(s.io, fd, e, ok))
    case CancelBoth(fd, ok) => Handover(s, CancelAll(s.io, fd, ok))
    case AddUserCall(fd, e, j, ok) => if |s.io.fds| >= 2 then AddCall(s, fd, e, j, ok) else Abort
    case DelUserCall(fd, e, ok) => Fine(DropCall(s, fd, e, ok))
    case Stop => Fine(s.(stop := true))
  }

  lemma ResumeSafe(s: State, w: nat, g: nat, ok: bool)
    requires Invariant(s) && w in s.workers && s.workers[w].phase.Holding? && CallFiber(s, w, g)
    ensures DoResume(s, w, g, ok).Fine? && Invariant(DoResume(s, w, g, ok).value)
  {
    HeldTask(s, w);
    hide Tokens, Shape, Inv, Counters, ResumeFiber, ResumeCall, TimerCall;
    match s.tasks[s.workers[w].phase.task].kind
    case Fiber(_, _, _, _, _, _) => ResumeFiberSafe(s, w);
    case Call(UserCall) => ResumeCallSafe(s, w, g);
    case Call(Timeout(_)) => TimeoutSafe(s, w, g, ok);
    case Call(WakeUp(_)) => WakeUpSafe(s, w, g, ok);
  }

  lemma StopSafe(s: State)
    requires Invariant(s)
    ensures Invariant(s.(stop := true))
  {
    var s' := s.(stop := true);
    SameTokens(s, s');
    CountersSame(s, s');
    forall u ensures TaskInv(s', u) { assert TaskInv(s, u); }
    forall v ensures WorkerInv(s', v) { assert WorkerInv(s, v); }
    forall op ensures CallInv(s', op) { assert CallInv(s, op); }
    forall a, b ensures PairInv(s', a, b) { assert PairInv(s, a, b); }
    forall u, op ensures ApartInv(s', u, op) { assert ApartInv(s, u, op); }
  }

  /** The one move that trips an assertion. */
  predicate Trips(s: State, m: Move) { m.Ready? && Beyond(s, m.fd, m.ready, m.ok) }

  /** One move: an assertion fires exactly for a report beyond the registration;
      otherwise the invariant holds again. */
  lemma MoveSafe(s: State, m: Move)
    requires Invariant(s) && Legal(s, m)
    ensures Do(s, m).Abort? <==> Trips(s, m)
    ensures Do(s, m).Fine? ==> Invariant(Do(s, m).value)
  {
    hide Invariant, Spawn, ScanTake, ScanNone, Back, DoResume, YieldReady, YieldHold, Finish, EnterIo, Arm;
    hide Register, Return, Continue, Sleep, Expire, Handover, AddCall, DropCall;
    hide Dispatch, CancelEvent, CancelAll, Beyond;
    match m
    case SpawnFiber(t, thread) => SpawnSafe(s, t, NewFiber, thread);
    case PostCall(t, thread) => SpawnSafe(s, t, Task(Queued, Call(UserCall)), thread);
    case Take(w, i) => ScanTakeSafe(s, w, i);
    case Rest(w) => ScanNoneSafe(s, w);
    case WakeWorker(w) => BackSafe(s, w);
    case Resume(w, g, ok) => ResumeSafe(s, w, g, ok);
    case Reschedule(w) => YieldReadySafe(s, w);
    case Park(w) => YieldHoldSafe(s, w);
    case End(w, how) => FinishSafe(s, w, how);
    case Enter(f, op, fd, e) => EnterIoSafe(s, f, op, fd, e);
    case ArmTimeout(f, j) => ArmSafe(s, f, j);
    case RegisterEvent(f, ok) => RegisterSafe(s, f, ok);
    case LeaveIo(f) => ReturnSafe(s, f);
    case GoOn(f) => ContinueSafe(s, f);
    case FallAsleep(f, j) => SleepSafe(s, f, j);
    case TimerDue(j) => ExpireSafe(s, j);
    case Ready(fd, ready, ok) => DeliverSafe(s, fd, ready, ok);
    case CancelOne(fd, e, ok) => CancelEventSafe(s, fd, e, ok);
    case CancelBoth(fd, ok) => CancelAllSafe(s, fd, ok);
    case AddUserCall(fd, e, j, ok) => AddCallSafe(s, fd, e, j, ok);
    case DelUserCall(fd, e, ok) => DropCallSafe(s, fd, e, ok);
    case Stop => StopSafe(s);
  }

  // ----- whole runs --------------------------------------------------------

  /** A run ends at the first move that cannot happen, or aborts. */
  ghost function Run(s: State, ms: seq<Move>): Outcome<State>
    decreases |ms|
  {
    if ms == [] || !Legal(s, ms[0]) then Fine(s)
    else if Do(s, ms[0]).Abort? then Abort
    else Run(Do(s, ms[0]).value, ms[1..])
  }

  /** Somewhere along the run the kernel reports beyond the registration. */
  ghost predicate RunTrips(s: State, ms: seq<Move>)
    decreases |ms|
  {
    ms != [] && Legal(s, ms[0])
    && (Trips(s, ms[0]) || (Do(s, ms[0]).Fine? && RunTrips(Do(s, ms[0]).value, ms[1..])))
  }

  /** In every interleaving: an assertion fires if and only if the kernel reports beyond
      the registration; until then the invariant holds. */
  lemma {:induction false} RunSafe(s: State, ms: seq<Move>)
    requires Invariant(s)
    ensures Run(s, ms).Abort? <==> RunTrips(s, ms)
    ensures Run(s, ms).Fine? ==> Invariant(Run(s, ms).value)
    decreases |ms|
  {
    hide Invariant;
    hide Do, Trips;
    if ms != [] && Legal(s, ms[0]) {
      hide Legal;
      MoveSafe(s, ms[0]);
      if Do(s, ms[0]).Fine? { RunSafe(Do(s, ms[0]).value, ms[1..]); }
    }
  }

  /** Workers `W` scanning an empty queue. */
  ghost function Start(W: set<nat>): State
  {
    State(Initial(), [], Scanners(W), map[], {}, map[], 0, 0, false)
  }

  ghost function Scanners(W: set<nat>): map<nat, Worker>
  {
    map w | w in W :: Worker(Scanning, None)
  }

  lemma StartInvariant(W: set<nat>)
    ensures Invariant(Start(W))
  {
    InitialInv();
    var s := Start(W);
    assert Busy(s.workers) == {} && Idlers(s.workers) == {};
    forall p, t ensures !Refers(s, p, t) {
      if p.Waiting? && p.fd < |s.io.fds| { assert s.io.fds[p.fd] == NoFd; }
    }
    forall t ensures TaskInv(s, t) && WorkerInv(s, t) && CallInv(s, t) { }
    forall a, b ensures PairInv(s, a, b) && ApartInv(s, a, b) { }
  }

  lemma EveryRunIsSafe(W: set<nat>, ms: seq<Move>)
    ensures Run(Start(W), ms).Abort? <==> RunTrips(Start(W), ms)
    ensures Run(Start(W), ms).Fine? ==> Invariant(Run(Start(W), ms).value)
  {
    StartInvariant(W);
    RunSafe(Start(W), ms);
  }

  // ----- what the invariant says ---------------------------------------------

  /** A fiber parked by do_io is referenced by exactly one of its event context, the
      run queue, and the worker about to resume it; it was woken once for every
      registration but the one it may still wait on. */
  lemma ParkedOnce(s: State, f: nat) returns (p: Place)
    requires Invariant(s) && f in s.tasks && s.tasks[f].kind.Fiber? && s.tasks[f].kind.pc.Parked?
    ensures s.tasks[f].kind.pc.op in s.calls
    ensures
      var c := s.calls[s.tasks[f].kind.pc.op];
      && Refers(s, p, f)
      && (p == Waiting(c.fd, c.e) || p.Queued? || p.Held?)
      && (forall q :: Refers(s, q, f) ==> q == p)
      && s.tasks[f].kind.regs == s.tasks[f].kind.wakes + (if p.Waiting? then 1 else 0)
  {
    assert TaskInv(s, f);
    p := s.tasks[f].place;
    assert Refers(s, p, f);
  }

  /** Nothing that can still run is lost: a suspended or ready fiber, and a callback
      that was not executed, has exactly one reference. */
  lemma NothingLost(s: State, t: nat) returns (p: Place)
    requires Invariant(s) && t in s.tasks
    requires s.tasks[t].kind.Fiber? ==> s.tasks[t].kind.state == HOLD || s.tasks[t].kind.state == READY
    requires s.tasks[t].kind.Call? ==> s.tasks[t].place != Gone
    ensures Refers(s, p, t) && p != Gone && !p.Running? && forall q :: Refers(s, q, t) ==> q == p
  {
    assert TaskInv(s, t);
    p := s.tasks[t].place;
    assert Refers(s, p, t);
  }

  predicate OnWorker(s: State, w: nat, f: nat)
  {
    w in s.workers && s.workers[w].phase.Executing? && s.workers[w].phase.fiber == f
  }

  /** A fiber is in state EXEC exactly when one worker, and only one, executes it. */
  lemma ExclusiveExecution(s: State, f: nat)
    requires Invariant(s) && f in s.tasks && s.tasks[f].kind.Fiber?
    ensures s.tasks[f].kind.state == EXEC <==> exists w :: OnWorker(s, w, f)
    ensures forall v, w :: OnWorker(s, v, f) && OnWorker(s, w, f) ==> v == w
  {
    assert TaskInv(s, f);
    assert s.tasks[f].kind.state == EXEC ==> OnWorker(s, s.tasks[f].kind.on, f);
    forall w | OnWorker(s, w, f)
      ensures s.tasks[f].kind.state == EXEC && s.tasks[f].kind.on == w
    {
      assert WorkerInv(s, w);
    }
  }

  /** In every reachable state the counters are exact: workers with a dequeued entry,
      idle workers, and event bits over all descriptors. */
  lemma ExactCounters(W: set<nat>, ms: seq<Move>)
    ensures Run(Start(W), ms).Fine? ==>
              var s := Run(Start(W), ms).value;
              s.active == |Busy(s.workers)| && s.idle == |Idlers(s.workers)| && s.io.pending == Bits(s.io.fds)
  {
    EveryRunIsSafe(W, ms);
  }

  // ----- quiescence ----------------------------------------------------------

  /** IOManager::stopping: no timer, no pending event, no task, nobody at work. */
  predicate Quiescent(s: State)
  {
    s.stop && s.timers == {} && s.io.pending == 0 && s.queue == [] && s.active == 0
  }

  /** Moves only an outside thread can make here. */
  predicate Outside(m: Move) { m.SpawnFiber? || m.PostCall? || m.AddUserCall? }

  lemma NobodyWorks(s: State)
    requires Invariant(s) && Quiescent(s)
    ensures forall w :: w in s.workers ==> s.workers[w].phase.Scanning? || s.workers[w].phase.Idling?
    ensures forall f :: !Executes(s, f)
    ensures forall fd :: 0 <= fd < |s.io.fds| ==> s.io.fds[fd].events == {}
  {
    assert Busy(s.workers) == {};
    forall w | w in s.workers ensures s.workers[w].phase.Scanning? || s.workers[w].phase.Idling? {
      assert w !in Busy(s.workers);
    }
    forall f ensures !Executes(s, f) { assert TaskInv(s, f); }
    forall fd | 0 <= fd < |s.io.fds| ensures s.io.fds[fd].events == {} { NoBits(s.io.fds, fd); }
  }

  /** The moves that remain: workers turning, the kernel and cancellations. */
  predicate Idle(m: Move)
  {
    m.Rest? || m.WakeWorker? || m.Ready? || m.CancelOne? || m.CancelBoth? || m.DelUserCall? || m.Stop?
  }

  lemma OnlyIdleMoves(s: State, m: Move)
    requires Invariant(s) && Quiescent(s) && Legal(s, m) && !Outside(m)
    ensures Idle(m)
  {
    NobodyWorks(s);
    hide Invariant;
  }

  /** A quiescent runtime stays quiescent: nothing is dequeued, triggered or expired
      until somebody outside schedules or registers something. */
  lemma QuiescenceIsStable(s: State, m: Move)
    requires Invariant(s) && Quiescent(s) && Legal(s, m) && !Outside(m)
    ensures Do(s, m).Fine? && Quiescent(Do(s, m).value)
    ensures Do(s, m).value.tasks == s.tasks && Do(s, m).value.io == s.io
  {
    OnlyIdleMoves(s, m);
    NobodyWorks(s);
    hide Invariant;
    if m.DelUserCall? { NothingToDrop(s.io, m.fd, m.e, m.ok); }
    hide Legal, Outside, AddEvent, DelEvent;
  }

  lemma NothingToDrop(io: IO, fd: nat, e: Event, ok: bool)
    requires forall i :: 0 <= i < |io.fds| ==> io.fds[i].events == {}
    ensures DelEvent(io, fd, e, ok) == (io, false)
  {
  }

  /** ... so, over any run without outside moves, stopping() stays true and no fiber,
      callback or registration changes. */
  lemma {:induction false} QuiescentForever(s: State, ms: seq<Move>)
    requires Invariant(s) && Quiescent(s) && forall i :: 0 <= i < |ms| ==> !Outside(ms[i])
    ensures Run(s, ms).Fine? && Quiescent(Run(s, ms).value)
    ensures Run(s, ms).value.tasks == s.tasks && Run(s, ms).value.io == s.io
    decreases |ms|
  {
    hide Invariant, Do, Quiescent;
    if ms != [] && Legal(s, ms[0]) {
      hide Legal;
      QuiescenceIsStable(s, ms[0]);
      MoveSafe(s, ms[0]);
      QuiescentForever(Do(s, ms[0]).value, ms[1..]);
    }
  }
}
