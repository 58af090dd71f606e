/**
 A blocking call that times out while its fiber is parked gives up: it never registers
 for its event again, whatever else happens.
 */
module RuntimeTimeouts {
  import opened Options
  import opened Events
  import opened Runtime
  import opened RuntimeSafety
  import opened RuntimeRuns
  import opened RuntimeEffects

  predicate PastRegistration(pc: Pc, op: nat)
  {
    (pc.Registered? || pc.Parked? || pc.Woken?) && pc.op == op
  }

  /** The call was marked as timed out, and is over or waits for its fiber to see it. */
  predicate TimedOut(s: State, op: nat)
  {
    && op in s.calls && s.calls[op].cancelled
    && (s.calls[op].live ==>
          var f := s.calls[op].fiber;
          f in s.tasks && s.tasks[f].kind.Fiber? && PastRegistration(s.tasks[f].kind.pc, op))
  }

  /** The fiber of the call is untouched, or only its place and state changed. */
  lemma Untouched(s: State, s': State, op: nat, T: set<nat>)
    requires TimedOut(s, op) && s'.calls == s.calls && TasksExcept(s, s', T)
    requires s.calls[op].live && s.calls[op].fiber in T ==>
               var f := s.calls[op].fiber;
               s'.tasks[f].kind.Fiber? && PastRegistration(s'.tasks[f].kind.pc, op)
    ensures TimedOut(s', op)
  {
  }

  lemma WakesTimedOut(s: State, s': State, fd: nat, es: set<Event>, op: nat)
    requires TimedOut(s, op) && Wakes(s, s', fd, es)
    ensures TimedOut(s', op)
  {
    hide Waiter;
  }

  lemma ResumeTimedOut(s: State, w: nat, g: nat, ok: bool, op: nat)
    requires Invariant(s) && Legal(s, Resume(w, g, ok)) && TimedOut(s, op)
    ensures Do(s, Resume(w, g, ok)).Fine? && TimedOut(Do(s, Resume(w, g, ok)).value, op)
  {
    HeldTask(s, w);
    CallFiberFree(s, w, g);
    var t := s.workers[w].phase.task;
    hide Invariant, Legal;
    match s.tasks[t].kind
    case Fiber(_, _, _, _, _, _) =>
      ResumeFiberEffect(s, w, g, ok);
      hide Do;
      Untouched(s, Do(s, Resume(w, g, ok)).value, op, {t});
    case Call(UserCall) =>
      ResumeCallEffect(s, w, g, ok);
      hide Do;
      Untouched(s, Do(s, Resume(w, g, ok)).value, op, {t, g});
    case Call(Timeout(o)) =>
      hide Do, TimedOut;
      TimeoutTimedOut(s, w, g, ok, o, op);
    case Call(WakeUp(f)) =>
      var m := WakeUpEffect(s, w, g, ok, f);
      hide Do;
      Untouched(s, m, op, {t, g});
      Untouched(m, Do(s, Resume(w, g, ok)).value, op, {f});
  }

  lemma TimeoutTimedOut(s: State, w: nat, g: nat, ok: bool, o: nat, op: nat)
    requires Invariant(s) && Legal(s, Resume(w, g, ok)) && TimedOut(s, op)
    requires s.workers[w].phase.task in s.tasks && s.tasks[s.workers[w].phase.task].kind == Call(Timeout(o))
    ensures Do(s, Resume(w, g, ok)).Fine? && TimedOut(Do(s, Resume(w, g, ok)).value, op)
  {
    CallFiberFree(s, w, g);
    var m := TimeoutEffect(s, w, g, ok, o);
    hide Do, Legal, Invariant, Wakes;
    Untouched(s, m, op, {s.workers[w].phase.task, g});
    if o in s.calls && s.calls[o].live && !s.calls[o].cancelled {
      var c := s.calls[o];
      var es := if ok && c.fd < |s.io.fds| && c.e in s.io.fds[c.fd].events then {c.e} else {};
      hide RanCallback;
      WakesTimedOut(m.(calls := s.calls[o := c.(cancelled := true)]), Do(s, Resume(w, g, ok)).value, c.fd, es, op);
    }
  }

  /** Moves of scheduling and of the workers ... */
  lemma QueueTimedOut(s: State, m: Move, op: nat)
    requires Invariant(s) && Legal(s, m) && TimedOut(s, op)
    requires m.SpawnFiber? || m.PostCall? || m.Take? || m.Rest? || m.WakeWorker?
    ensures Do(s, m).Fine? && TimedOut(Do(s, m).value, op)
  {
    match m
    case SpawnFiber(t, thread) =>
      SpawnEffect(s, t, thread);
      hide Do, Invariant;
      Untouched(s, Do(s, m).value, op, {t});
    case PostCall(t, thread) =>
      SpawnEffect(s, t, thread);
      hide Do, Invariant;
      Untouched(s, Do(s, m).value, op, {t});
    case Take(w, i) =>
      TakeEffect(s, w, i);
      hide Do, Invariant;
      Untouched(s, Do(s, m).value, op, {s.queue[i].task});
    case Rest(w) => RestEffect(s, w); hide Invariant;
    case WakeWorker(w) => WakeWorkerEffect(s, w); hide Invariant;
  }

  /** ... of fibers that give the thread back ... */
  lemma YieldTimedOut(s: State, m: Move, op: nat)
    requires Invariant(s) && Legal(s, m) && TimedOut(s, op) && (m.Reschedule? || m.Park? || m.End?)
    ensures Do(s, m).Fine? && TimedOut(Do(s, m).value, op)
  {
    match m
    case Reschedule(w) =>
      RescheduleEffect(s, w);
      hide Invariant;
      Untouched(s, Do(s, m).value, op, {s.workers[w].phase.fiber});
    case Park(w) =>
      ParkEffect(s, w);
      hide Invariant;
      Untouched(s, Do(s, m).value, op, {s.workers[w].phase.fiber});
    case End(w, how) =>
      EndEffect(s, w, how);
      hide Invariant;
      Untouched(s, Do(s, m).value, op, {s.workers[w].phase.fiber});
  }

  /** ... of blocking calls and sleeps ... */
  lemma CallTimedOut(s: State, m: Move, op: nat)
    requires Invariant(s) && Legal(s, m) && TimedOut(s, op)
    requires m.Enter? || m.ArmTimeout? || m.RegisterEvent? || m.LeaveIo? || m.GoOn? || m.FallAsleep? || m.TimerDue?
    ensures Do(s, m).Fine? && TimedOut(Do(s, m).value, op)
  {
    match m
    case Enter(f, o, fd, e) => EnterEffect(s, f, o, fd, e); hide Invariant;
    case ArmTimeout(f, j) =>
      ArmEffect(s, f, j);
      hide Invariant;
      Untouched(s, Do(s, m).value, op, {f, j});
    case RegisterEvent(f, ok) => RegisterTimedOut(s, f, ok, op);
    case LeaveIo(f) => LeaveTimedOut(s, f, op);
    case GoOn(f) => GoOnTimedOut(s, f, op);
    case FallAsleep(f, j) =>
      SleepEffect(s, f, j);
      hide Invariant;
      Untouched(s, Do(s, m).value, op, {f, j});
    case TimerDue(j) =>
      TimerDueEffect(s, j);
      hide Do, Invariant;
      Untouched(s, Do(s, m).value, op, {j});
  }

  lemma LeaveTimedOut(s: State, f: nat, op: nat)
    requires Invariant(s) && Legal(s, LeaveIo(f)) && TimedOut(s, op)
    ensures Do(s, LeaveIo(f)).Fine? && TimedOut(Do(s, LeaveIo(f)).value, op)
  {
    CallKnown(s, f);
    LeaveEffect(s, f);
    hide Do, Invariant;
  }

  /** ... and of events and the rest. */
  lemma EventTimedOut(s: State, m: Move, op: nat)
    requires Invariant(s) && Legal(s, m) && Do(s, m).Fine? && TimedOut(s, op)
    requires m.Ready? || m.CancelOne? || m.CancelBoth? || m.AddUserCall? || m.DelUserCall? || m.Stop?
    ensures TimedOut(Do(s, m).value, op)
  {
    match m
    case Ready(fd, ready, ok) => ReadyTimedOut(s, fd, ready, ok, op);
    case CancelOne(fd, e, ok) =>
      CancelOneEffect(s, fd, e, ok);
      hide Do, Invariant, Wakes;
      var es := if ok && fd < |s.io.fds| && e in s.io.fds[fd].events then {e} else {};
      WakesTimedOut(s, Do(s, m).value, fd, es, op);
    case CancelBoth(fd, ok) =>
      CancelBothEffect(s, fd, ok);
      hide Do, Invariant, Wakes;
      WakesTimedOut(s, Do(s, m).value, fd, if ok && fd < |s.io.fds| then s.io.fds[fd].events else {}, op);
    case AddUserCall(fd, e, j, ok) =>
      AddUserCallEffect(s, fd, e, j, ok);
      hide Do, Invariant, Waiter;
      Untouched(s, Do(s, m).value, op, if ok then {j} else {});
    case DelUserCall(fd, e, ok) =>
      DelUserCallEffect(s, fd, e, ok);
      var x := Waiter(s.io, fd, e);
      hide Do, Invariant, Waiter;
      Untouched(s, Do(s, m).value, op, if ok && x.Some? then {x.value} else {});
    case Stop => StopEffect(s); hide Invariant;
  }

  /** No move takes a call that timed out while parked back to registration. */
  lemma MoveTimedOut(s: State, m: Move, op: nat)
    requires Invariant(s) && Legal(s, m) && Do(s, m).Fine? && TimedOut(s, op)
    ensures TimedOut(Do(s, m).value, op)
  {
    hide Do, Legal, Invariant, TimedOut;
    if m.Resume? {
      ResumeTimedOut(s, m.w, m.g, m.ok, op);
    } else if m.Ready? || m.CancelOne? || m.CancelBoth? || m.AddUserCall? || m.DelUserCall? || m.Stop? {
      EventTimedOut(s, m, op);
    } else if m.Enter? || m.ArmTimeout? || m.RegisterEvent? || m.LeaveIo? || m.GoOn? || m.FallAsleep? || m.TimerDue? {
      CallTimedOut(s, m, op);
    } else if m.Reschedule? || m.Park? || m.End? {
      YieldTimedOut(s, m, op);
    } else {
      QueueTimedOut(s, m, op);
    }
  }

  lemma RegistersTimedOut(s: State, s': State, f: nat, ok: bool, op: nat)
    requires IsFiber(s, f) && s.tasks[f].kind.pc.InIo? && s.tasks[f].kind.pc.op in s.calls && TimedOut(s, op)
    requires s.calls[s.tasks[f].kind.pc.op].live && s.calls[s.tasks[f].kind.pc.op].fiber == f
    requires s.tasks[f].kind.pc.timer.Some? ==>
               s.tasks[f].kind.pc.timer.value in s.tasks && s.tasks[s.tasks[f].kind.pc.timer.value].kind.Call?
    requires Registers(s, s', f, ok)
    ensures s.tasks[f].kind.pc.op != op && TimedOut(s', op)
  {
    hide Waiter, Inner;
  }

  lemma RegisterTimedOut(s: State, f: nat, ok: bool, op: nat)
    requires Invariant(s) && Legal(s, RegisterEvent(f, ok)) && TimedOut(s, op)
    ensures s.tasks[f].kind.pc.op != op
    ensures Do(s, RegisterEvent(f, ok)).Fine? && TimedOut(Do(s, RegisterEvent(f, ok)).value, op)
  {
    CallKnown(s, f);
    RegisterEffect(s, f, ok);
    if s.tasks[f].kind.pc.timer.Some? { TimerKnown(s, f); }
    hide Do, Invariant, Waiter, Registers, TimedOut;
    RegistersTimedOut(s, Do(s, RegisterEvent(f, ok)).value, f, ok, op);
  }

  lemma GoesOnTimedOut(s: State, s': State, f: nat, op: nat)
    requires IsFiber(s, f) && s.tasks[f].kind.pc.Woken? && s.tasks[f].kind.pc.op in s.calls && TimedOut(s, op)
    requires s.calls[s.tasks[f].kind.pc.op].live && s.calls[s.tasks[f].kind.pc.op].fiber == f
    requires s.tasks[f].kind.pc.timer.Some? ==>
               s.tasks[f].kind.pc.timer.value in s.tasks && s.tasks[s.tasks[f].kind.pc.timer.value].kind.Call?
    requires GoesOn(s, s', f)
    ensures TimedOut(s', op)
  {
    hide Inner;
  }

  lemma GoOnTimedOut(s: State, f: nat, op: nat)
    requires Invariant(s) && Legal(s, GoOn(f)) && TimedOut(s, op)
    ensures Do(s, GoOn(f)).Fine? && TimedOut(Do(s, GoOn(f)).value, op)
  {
    CallKnown(s, f);
    GoOnEffect(s, f);
    if s.tasks[f].kind.pc.timer.Some? { TimerKnown(s, f); }
    hide Do, Invariant, GoesOn, TimedOut;
    GoesOnTimedOut(s, Do(s, GoOn(f)).value, f, op);
  }

  lemma ReadyTimedOut(s: State, fd: nat, ready: set<Event>, ok: bool, op: nat)
    requires Invariant(s) && Legal(s, Ready(fd, ready, ok)) && Do(s, Ready(fd, ready, ok)).Fine? && TimedOut(s, op)
    ensures TimedOut(Do(s, Ready(fd, ready, ok)).value, op)
  {
    ReadyEffect(s, fd, ready, ok);
    hide Do, Invariant, Legal, Wakes;
    var fired := if ok && s.io.fds[fd].events * ready != {} then ready else {};
    WakesTimedOut(s, Do(s, Ready(fd, ready, ok)).value, fd, fired, op);
  }

  /** The timeout of a live call marks it; if its fiber is past the registration, the
      call then gives up. */
  lemma TimeoutMarks(s: State, w: nat, g: nat, ok: bool, op: nat)
    requires Invariant(s) && Legal(s, Resume(w, g, ok)) && op in s.calls && s.calls[op].live
    requires s.workers[w].phase.task in s.tasks && s.tasks[s.workers[w].phase.task].kind == Call(Timeout(op))
    ensures Do(s, Resume(w, g, ok)).Fine?
    ensures
      var s' := Do(s, Resume(w, g, ok)).value;
      && op in s'.calls && s'.calls[op].cancelled
      && (IsFiber(s, s.calls[op].fiber) && PastRegistration(s.tasks[s.calls[op].fiber].kind.pc, op) ==>
            TimedOut(s', op))
  {
    var t, f, c := s.workers[w].phase.task, s.calls[op].fiber, s.calls[op];
    CallFiberFree(s, w, g);
    var m := TimeoutEffect(s, w, g, ok, op);
    hide Do, Legal, Invariant;
    if !c.cancelled {
      var n := m.(calls := s.calls[op := c.(cancelled := true)]);
      var es := if ok && c.fd < |s.io.fds| && c.e in s.io.fds[c.fd].events then {c.e} else {};
      if IsFiber(s, f) && PastRegistration(s.tasks[f].kind.pc, op) {
        assert TimedOut(n, op);
        WakesTimedOut(n, Do(s, Resume(w, g, ok)).value, c.fd, es, op);
      }
    }
  }

  /** Over every run: a call that timed out while it was parked never registers again. */
  lemma {:induction false} TimedOutGivesUp(s: State, ms: seq<Move>, op: nat)
    requires Invariant(s) && TimedOut(s, op) && RuntimeRuns.Run(s, ms).Fine?
    ensures Invariant(RuntimeRuns.Run(s, ms).value) && TimedOut(RuntimeRuns.Run(s, ms).value, op)
    ensures
      var s' := RuntimeRuns.Run(s, ms).value;
      forall f, ok :: Legal(s', RegisterEvent(f, ok)) ==> s'.tasks[f].kind.pc.op != op
    decreases |ms|
  {
    if ms != [] && Legal(s, ms[0]) {
      hide Legal, Invariant, TimedOut;
      MoveTimedOut(s, ms[0], op);
      MoveSafe(s, ms[0]);
      hide Do;
      TimedOutGivesUp(Do(s, ms[0]).value, ms[1..], op);
    } else {
      forall f, ok | Legal(s, RegisterEvent(f, ok)) ensures s.tasks[f].kind.pc.op != op {
        RegisterTimedOut(s, f, ok, op);
      }
      hide Legal, Do, Invariant;
    }
  }
}
