/**
 What each move of a run does, field by field, whoever waits for what: the places
 tasks go to, the order of the queue, the states and code positions of fibers, and
 that everything else stays as it was.
 */
module RuntimeEffects {
  import opened Options
  import opened Events
  import opened Runtime
  import opened RuntimeSafety
  import opened RuntimeRuns

  /** Besides the tasks `T`, which exist afterwards, no task changed. */
  ghost predicate TasksExcept(s: State, s': State, T: set<nat>)
  {
    && s'.tasks.Keys == s.tasks.Keys + T
    && forall u :: u in s.tasks && u !in T ==> s'.tasks[u] == s.tasks[u]
  }

  ghost predicate WorkersExcept(s: State, s': State, w: nat)
  {
    && s'.workers.Keys == s.workers.Keys
    && forall v :: v in s.workers && v != w ==> s'.workers[v] == s.workers[v]
  }

  /** Descriptors, timers, calls and the stop flag are as they were. */
  predicate Outer(s: State, s': State)
  {
    s'.io == s.io && s'.timers == s.timers && s'.calls == s.calls && s'.stop == s.stop
  }

  /** The queue, the workers and the counters are as they were. */
  predicate Inner(s: State, s': State)
  {
    s'.queue == s.queue && s'.workers == s.workers && s'.active == s.active && s'.idle == s.idle && s'.stop == s.stop
  }

  /** An entry worker `w` has to pass: pinned to another thread, or executing. */
  predicate Passed(s: State, e: Entry, w: nat)
  {
    || (e.thread != -1 && e.thread != w)
    || (e.task in s.tasks && s.tasks[e.task].kind.Fiber? && s.tasks[e.task].kind.state == EXEC)
  }

  // ----- the queue and the workers -----------------------------------------------

  lemma SpawnEffect(s: State, t: nat, thread: int)
    requires Legal(s, SpawnFiber(t, thread)) && Legal(s, PostCall(t, thread))
    ensures
      var s' := Do(s, SpawnFiber(t, thread)).value;
      && s'.queue == s.queue + [Entry(t, thread)] && TasksExcept(s, s', {t}) && Outer(s, s')
      && s'.tasks[t] == Task(Queued, Fiber(INIT, User, 0, None, 0, 0))
      && s'.workers == s.workers && s'.active == s.active && s'.idle == s.idle
    ensures
      var s' := Do(s, PostCall(t, thread)).value;
      && s'.queue == s.queue + [Entry(t, thread)] && TasksExcept(s, s', {t}) && Outer(s, s')
      && s'.tasks[t] == Task(Queued, Call(UserCall))
      && s'.workers == s.workers && s'.active == s.active && s'.idle == s.idle
  {
  }

  lemma TakeEffect(s: State, w: nat, i: nat)
    requires Invariant(s) && Legal(s, Take(w, i))
    ensures Do(s, Take(w, i)).Fine?
    ensures
      var s', t := Do(s, Take(w, i)).value, s.queue[i].task;
      && !Passed(s, s.queue[i], w) && (forall j :: 0 <= j < i ==> Passed(s, s.queue[j], w))
      && s'.queue == s.queue[..i] + s.queue[i + 1..]
      && TasksExcept(s, s', {t}) && s'.tasks[t] == s.tasks[t].(place := Held(w))
      && WorkersExcept(s, s', w) && s'.workers[w] == Worker(Holding(t), s.workers[w].cbFiber)
      && s'.active == s.active + 1 && s'.idle == s.idle && Outer(s, s')
  {
    QueueTask(s, i);
    forall j | 0 <= j < i ensures Passed(s, s.queue[j], w) { assert !Eligible(s, s.queue[j], w); }
    hide Invariant;
  }

  lemma RestEffect(s: State, w: nat)
    requires Legal(s, Rest(w))
    ensures
      var s' := Do(s, Rest(w)).value;
      && (forall j :: 0 <= j < |s.queue| ==> Passed(s, s.queue[j], w))
      && WorkersExcept(s, s', w) && s'.workers[w] == Worker(Idling, s.workers[w].cbFiber)
      && s'.idle == s.idle + 1 && s'.active == s.active
      && s'.queue == s.queue && s'.tasks == s.tasks && Outer(s, s')
  {
    forall j | 0 <= j < |s.queue| ensures Passed(s, s.queue[j], w) { assert !Eligible(s, s.queue[j], w); }
  }

  lemma WakeWorkerEffect(s: State, w: nat)
    requires Legal(s, WakeWorker(w))
    ensures
      var s' := Do(s, WakeWorker(w)).value;
      && WorkersExcept(s, s', w) && s'.workers[w] == Worker(Scanning, s.workers[w].cbFiber)
      && s'.idle == s.idle - 1 && s'.active == s.active
      && s'.queue == s.queue && s'.tasks == s.tasks && Outer(s, s')
  {
  }

  /** A fiber that was taken goes on where it stood: after its park in do_io, after its
      sleep, or in its own code. */
  lemma ResumeFiberEffect(s: State, w: nat, g: nat, ok: bool)
    requires Invariant(s) && Legal(s, Resume(w, g, ok)) && IsFiber(s, s.workers[w].phase.task)
    ensures Do(s, Resume(w, g, ok)).Fine?
    ensures
      var s', t := Do(s, Resume(w, g, ok)).value, s.workers[w].phase.task;
      var k := s.tasks[t].kind;
      && (k.state == HOLD || k.state == READY || k.state == INIT)
      && TasksExcept(s, s', {t}) && s'.tasks[t].place == Running(w)
      && s'.tasks[t].kind.Fiber? && s'.tasks[t].kind.state == EXEC && s'.tasks[t].kind.on == w
      && (k.pc.Parked? ==> s'.tasks[t].kind.pc == Woken(k.pc.op, k.pc.timer))
      && (k.pc.Asleep? || k.pc == User ==> s'.tasks[t].kind.pc == User)
      && s'.tasks[t].kind.regs == k.regs && s'.tasks[t].kind.wakes == k.wakes
      && WorkersExcept(s, s', w) && s'.workers[w] == Worker(Executing(t, false), s.workers[w].cbFiber)
      && s'.queue == s.queue && s'.active == s.active && s'.idle == s.idle && Outer(s, s')
  {
    HeldTask(s, w);
    var t := s.workers[w].phase.task;
    assert Refers(s, Held(w), t);
    assert TaskInv(s, t);
    hide Invariant;
  }

  /** A user callback runs in the worker's callback fiber, fresh or reset. */
  lemma ResumeCallEffect(s: State, w: nat, g: nat, ok: bool)
    requires Invariant(s) && Legal(s, Resume(w, g, ok))
    requires s.workers[w].phase.task in s.tasks && s.tasks[s.workers[w].phase.task].kind == Call(UserCall)
    ensures Do(s, Resume(w, g, ok)).Fine?
    ensures
      var s', t := Do(s, Resume(w, g, ok)).value, s.workers[w].phase.task;
      && g != t && TasksExcept(s, s', {t, g}) && s'.tasks[t] == s.tasks[t].(place := Gone)
      && s'.tasks[g].place == Running(w) && s'.tasks[g].kind.Fiber? && s'.tasks[g].kind.state == EXEC
      && s'.tasks[g].kind.pc == User && s'.tasks[g].kind.on == w && s'.tasks[g].kind.home == Some(w)
      && WorkersExcept(s, s', w) && s'.workers[w] == Worker(Executing(g, true), Some(g))
      && s'.queue == s.queue && s'.active == s.active && s'.idle == s.idle && Outer(s, s')
  {
    ResumeCallSafe(s, w, g);
    CallFiberFree(s, w, g);
    hide Invariant;
  }

  /** A fiber that yields ready is last in the queue, for any thread. */
  lemma RescheduleEffect(s: State, w: nat)
    requires Legal(s, Reschedule(w))
    ensures
      var s', f := Do(s, Reschedule(w)).value, s.workers[w].phase.fiber;
      && s'.queue == s.queue + [Entry(f, -1)] && TasksExcept(s, s', {f})
      && s'.tasks[f] == Task(Queued, s.tasks[f].kind.(state := READY, home := None))
      && WorkersExcept(s, s', w) && Released(s, s', w) && s'.active == s.active - 1 && s'.idle == s.idle && Outer(s, s')
  {
  }

  /** The worker scans again; a callback fiber that has not ended is given up. */
  predicate Released(s: State, s': State, w: nat)
    requires w in s.workers && s.workers[w].phase.Executing?
  {
    w in s'.workers
    && s'.workers[w] == Worker(Scanning, if s.workers[w].phase.viaCall then None else s.workers[w].cbFiber)
  }

  /** A fiber that parks is on hold; the reference to it stays where it is. */
  lemma ParkEffect(s: State, w: nat)
    requires Legal(s, Park(w))
    ensures
      var s', f := Do(s, Park(w)).value, s.workers[w].phase.fiber;
      var k, k' := s.tasks[f].kind, s'.tasks[f].kind;
      && TasksExcept(s, s', {f}) && s'.tasks[f].place == s.tasks[f].place
      && k' == k.(state := HOLD, home := None, pc := k'.pc)
      && (k.pc.Registered? ==> k'.pc == Parked(k.pc.op, k.pc.timer))
      && (k.pc.Dozing? ==> k'.pc == Asleep(k.pc.job))
      && WorkersExcept(s, s', w) && Released(s, s', w)
      && s'.queue == s.queue && s'.active == s.active - 1 && s'.idle == s.idle && Outer(s, s')
  {
  }

  /** A fiber that ends keeps how it ended; a callback fiber is fresh and kept. */
  lemma EndEffect(s: State, w: nat, how: FiberState)
    requires Legal(s, End(w, how))
    ensures
      var s', f := Do(s, End(w, how)).value, s.workers[w].phase.fiber;
      && TasksExcept(s, s', {f})
      && s'.tasks[f] == Task(Gone, s.tasks[f].kind.(state := if s.workers[w].phase.viaCall then INIT else how))
      && WorkersExcept(s, s', w) && s'.workers[w] == Worker(Scanning, s.workers[w].cbFiber)
      && s'.queue == s.queue && s'.active == s.active - 1 && s'.idle == s.idle && Outer(s, s')
  {
  }

  // ----- blocking calls ------------------------------------------------------------

  /** Only the code position of `f` changed, and its task is where it was. */
  ghost predicate OnlyPc(s: State, s': State, f: nat, pc: Pc, T: set<nat>)
    requires IsFiber(s, f)
  {
    && TasksExcept(s, s', {f} + T)
    && s'.tasks[f] == Task(s.tasks[f].place, s.tasks[f].kind.(pc := pc))
  }

  lemma EnterEffect(s: State, f: nat, op: nat, fd: nat, e: Event)
    requires Legal(s, Enter(f, op, fd, e))
    ensures
      var s' := Do(s, Enter(f, op, fd, e)).value;
      && OnlyPc(s, s', f, InIo(op, None), {}) && Inner(s, s') && s'.io == s.io && s'.timers == s.timers
      && s'.calls == s.calls[op := IoCall(f, fd, e, false, true)]
  {
  }

  lemma ArmEffect(s: State, f: nat, j: nat)
    requires Legal(s, ArmTimeout(f, j))
    ensures
      var s', op := Do(s, ArmTimeout(f, j)).value, s.tasks[f].kind.pc.op;
      && j != f && OnlyPc(s, s', f, InIo(op, Some(j)), {j}) && s'.tasks[j] == Task(InTimer, Call(Timeout(op)))
      && s'.timers == s.timers + {j} && Inner(s, s') && s'.io == s.io && s'.calls == s.calls
  {
  }

  /** A timer, if there is one, is not pending afterwards; a pending one is used up. */
  ghost predicate Cancelled(s: State, s': State, timer: Option<nat>)
  {
    && s'.timers == (if timer.Some? then s.timers - {timer.value} else s.timers)
    && (timer.Some? && timer.value in s.timers && timer.value in s.tasks ==>
          timer.value in s'.tasks && s'.tasks[timer.value] == s.tasks[timer.value].(place := Gone))
    && (timer.Some? && timer.value !in s.timers && timer.value in s.tasks ==>
          timer.value in s'.tasks && s'.tasks[timer.value] == s.tasks[timer.value])
  }

  function TimerSet(timer: Option<nat>): set<nat> { if timer.Some? then {timer.value} else {} }

  /** do_io returned: its fiber is in its own code and the call is over. */
  predicate CallOver(s: State, s': State, f: nat, op: nat)
  {
    && f in s'.tasks && s'.tasks[f].kind.Fiber? && s'.tasks[f].kind.pc == User
    && op in s.calls && s'.calls == s.calls[op := s.calls[op].(live := false)]
  }

  /** The registration of do_io: either the fiber now waits for the event, registered
      once more, or the timer is cancelled and the call is over. */
  ghost predicate Registers(s: State, s': State, f: nat, ok: bool)
    requires IsFiber(s, f) && s.tasks[f].kind.pc.InIo? && s.tasks[f].kind.pc.op in s.calls
  {
    var InIo(op, timer) := s.tasks[f].kind.pc;
    var c := s.calls[op];
    && Inner(s, s')
    && (forall fd, e :: Waiter(s'.io, fd, e) == if ok && fd == c.fd && e == c.e then Some(f) else Waiter(s.io, fd, e))
    && (ok ==>
          && TasksExcept(s, s', {f}) && s'.calls == s.calls && s'.timers == s.timers
          && s'.tasks[f].place == Waiting(c.fd, c.e)
          && s'.tasks[f].kind == s.tasks[f].kind.(pc := Registered(op, timer), regs := s.tasks[f].kind.regs + 1))
    && (!ok ==>
          && TasksExcept(s, s', {f} + TimerSet(timer)) && Cancelled(s, s', timer) && CallOver(s, s', f, op)
          && s'.tasks[f].place == s.tasks[f].place)
  }

  lemma DisarmGives(s: State, timer: Option<nat>)
    requires timer.Some? ==> timer.value in s.tasks
    ensures
      var s' := Disarm(s, timer);
      && Cancelled(s, s', timer) && TasksExcept(s, s', TimerSet(timer))
      && Inner(s, s') && s'.io == s.io && s'.calls == s.calls
  {
  }

  lemma RegisterGives(s: State, f: nat, ok: bool)
    requires Invariant(s) && Executes(s, f) && s.tasks[f].kind.pc.InIo? && s.tasks[f].kind.pc.op in s.calls
    requires s.tasks[f].kind.pc.timer != Some(f) && |s.io.fds| >= 2
    ensures Register(s, f, ok).Fine? && Registers(s, Register(s, f, ok).value, f, ok)
  {
    RegisterWaiters(s, f, ok);
    if s.tasks[f].kind.pc.timer.Some? { TimerKnown(s, f); }
    hide Invariant, AddEvent, Waiter;
    if ok { RegisterWorks(s, f); } else { RegisterFails(s, f); }
  }

  lemma RegisterWorks(s: State, f: nat)
    requires IsFiber(s, f) && s.tasks[f].kind.pc.InIo? && s.tasks[f].kind.pc.op in s.calls
    requires s.tasks[f].kind.pc.timer != Some(f) && |s.io.fds| >= 2
    requires
      var c := s.calls[s.tasks[f].kind.pc.op];
      && AddEvent(s.io, c.fd, c.e, None, f, true).Fine?
      && (var (io, rc) := AddEvent(s.io, c.fd, c.e, None, f, true).value;
          && rc == 0
          && forall fd, e :: Waiter(io, fd, e) == if fd == c.fd && e == c.e then Some(f) else Waiter(s.io, fd, e))
    ensures Register(s, f, true).Fine? && Registers(s, Register(s, f, true).value, f, true)
  {
    hide AddEvent, Waiter, Disarm, Return;
  }

  lemma RegisterFails(s: State, f: nat)
    requires IsFiber(s, f) && s.tasks[f].kind.pc.InIo? && s.tasks[f].kind.pc.op in s.calls
    requires s.tasks[f].kind.pc.timer != Some(f) && |s.io.fds| >= 2
    requires s.tasks[f].kind.pc.timer.Some? ==> s.tasks[f].kind.pc.timer.value in s.tasks
    requires
      var c := s.calls[s.tasks[f].kind.pc.op];
      && AddEvent(s.io, c.fd, c.e, None, f, false).Fine?
      && (var (io, rc) := AddEvent(s.io, c.fd, c.e, None, f, false).value;
          && rc != 0 && forall fd, e :: Waiter(io, fd, e) == Waiter(s.io, fd, e))
    ensures Register(s, f, false).Fine? && Registers(s, Register(s, f, false).value, f, false)
  {
    var InIo(op, timer) := s.tasks[f].kind.pc;
    var c := s.calls[op];
    var io := AddEvent(s.io, c.fd, c.e, None, f, false).value.0;
    hide AddEvent, Waiter;
    DisarmGives(s.(io := io), timer);
    hide Disarm;
  }

  lemma RegisterEffect(s: State, f: nat, ok: bool)
    requires Invariant(s) && Legal(s, RegisterEvent(f, ok))
    ensures s.tasks[f].kind.pc.op in s.calls && Do(s, RegisterEvent(f, ok)).Fine?
    ensures Registers(s, Do(s, RegisterEvent(f, ok)).value, f, ok)
  {
    RegisterSafe(s, f, ok);
    RegisterGives(s, f, ok);
    hide Invariant, Register, Registers;
  }

  lemma AddedWaiters(io: IO, fd: nat, e: Event, cb: Option<nat>, current: nat, ok: bool)
    requires Inv(io) && !(fd < |io.fds| && e in io.fds[fd].events)
    ensures |io.fds| >= 2 && AddEvent(io, fd, e, cb, current, ok).Fine?
    ensures
      var (io', rc) := AddEvent(io, fd, e, cb, current, ok).value;
      && (rc == 0 <==> ok)
      && forall fd', e' :: Waiter(io', fd', e')
           == if ok && fd' == fd && e' == e then (if cb.Some? then cb else Some(current)) else Waiter(io, fd', e')
  {
    InvSize(io);
    AddEventKeeps(io, fd, e, cb, current, ok);
    forall fd', e'
      ensures Waiter(AddEvent(io, fd, e, cb, current, ok).value.0, fd', e')
           == if ok && fd' == fd && e' == e then (if cb.Some? then cb else Some(current)) else Waiter(io, fd', e')
    {
      AddEventWaiter(io, fd, e, cb, current, ok, fd', e');
    }
    hide AddEvent, Waiter, Inv;
  }

  lemma DroppedWaiters(io: IO, fd: nat, e: Event, ok: bool)
    requires Inv(io)
    ensures
      var (io', done) := DelEvent(io, fd, e, ok);
      && (done <==> ok && fd < |io.fds| && e in io.fds[fd].events)
      && forall fd', e' :: Waiter(io', fd', e') == if ok && fd' == fd && e' == e then None else Waiter(io, fd', e')
  {
    DelEventKeeps(io, fd, e, ok);
    forall fd', e'
      ensures Waiter(DelEvent(io, fd, e, ok).0, fd', e')
           == if ok && fd' == fd && e' == e then None else Waiter(io, fd', e')
    {
      DelEventWaiter(io, fd, e, ok, fd', e');
    }
    hide DelEvent, Waiter, Inv;
  }

  lemma RegisterWaiters(s: State, f: nat, ok: bool)
    requires Invariant(s) && Executes(s, f) && s.tasks[f].kind.pc.InIo? && s.tasks[f].kind.pc.op in s.calls
    ensures |s.io.fds| >= 2
    ensures
      var c := s.calls[s.tasks[f].kind.pc.op];
      && AddEvent(s.io, c.fd, c.e, None, f, ok).Fine?
      && (var (io, rc) := AddEvent(s.io, c.fd, c.e, None, f, ok).value;
          && (rc == 0 <==> ok)
          && forall fd, e :: Waiter(io, fd, e) == if ok && fd == c.fd && e == c.e then Some(f) else Waiter(s.io, fd, e))
  {
    SlotEmpty(s, f);
    InvSize(s.io);
    var c := s.calls[s.tasks[f].kind.pc.op];
    AddedWaiters(s.io, c.fd, c.e, None, f, ok);
    hide AddEvent, Waiter, Inv;
  }

  /** The timer of a fiber is a task of its own. */
  lemma TimerKnown(s: State, f: nat)
    requires Invariant(s) && IsFiber(s, f) && PcTimer(s.tasks[f].kind.pc).Some?
    ensures var j := PcTimer(s.tasks[f].kind.pc).value; j in s.tasks && s.tasks[j].kind.Call? && j != f
  {
    assert TaskInv(s, f);
  }

  lemma CallKnown(s: State, f: nat)
    requires Invariant(s) && IsFiber(s, f) && PcCall(s.tasks[f].kind.pc).Some?
    ensures var op := PcCall(s.tasks[f].kind.pc).value; op in s.calls && s.calls[op].live && s.calls[op].fiber == f
  {
    assert TaskInv(s, f);
  }

  lemma LeaveEffect(s: State, f: nat)
    requires Invariant(s) && Legal(s, LeaveIo(f))
    ensures Do(s, LeaveIo(f)).Fine?
    ensures
      var s', op := Do(s, LeaveIo(f)).value, s.tasks[f].kind.pc.op;
      && OnlyPc(s, s', f, User, {}) && CallOver(s, s', f, op)
      && Inner(s, s') && s'.io == s.io && s'.timers == s.timers
  {
    CallKnown(s, f);
    hide Invariant, Executes;
  }

  /** After the park of do_io: the timer is cancelled, and the call is over if and only
      if it was marked as timed out; otherwise it tries again. */
  ghost predicate GoesOn(s: State, s': State, f: nat)
    requires IsFiber(s, f) && s.tasks[f].kind.pc.Woken? && s.tasks[f].kind.pc.op in s.calls
  {
    var Woken(op, timer) := s.tasks[f].kind.pc;
    && Cancelled(s, s', timer) && TasksExcept(s, s', {f} + TimerSet(timer)) && op in s'.calls
    && s'.tasks[f].place == s.tasks[f].place && s'.tasks[f].kind.Fiber?
    && s'.tasks[f].kind == s.tasks[f].kind.(pc := s'.tasks[f].kind.pc)
    && (s.calls[op].cancelled <==> s'.tasks[f].kind.pc == User && !s'.calls[op].live)
    && (s.calls[op].cancelled ==> CallOver(s, s', f, op))
    && (!s.calls[op].cancelled ==>
          s'.tasks[f].kind.pc == InIo(op, None) && s'.calls == s.calls && s'.calls[op].live)
    && Inner(s, s') && s'.io == s.io
  }

  lemma ContinueGives(s: State, f: nat)
    requires IsFiber(s, f) && s.tasks[f].kind.pc.Woken? && s.tasks[f].kind.pc.op in s.calls
    requires s.calls[s.tasks[f].kind.pc.op].live
    requires s.tasks[f].kind.pc.timer.Some? ==>
               s.tasks[f].kind.pc.timer.value in s.tasks && s.tasks[f].kind.pc.timer.value != f
    ensures GoesOn(s, Continue(s, f), f)
  {
    DisarmGives(s, s.tasks[f].kind.pc.timer);
    hide Disarm;
  }

  lemma GoOnEffect(s: State, f: nat)
    requires Invariant(s) && Legal(s, GoOn(f))
    ensures s.tasks[f].kind.pc.op in s.calls && Do(s, GoOn(f)).Fine?
    ensures GoesOn(s, Do(s, GoOn(f)).value, f)
  {
    CallKnown(s, f);
    if s.tasks[f].kind.pc.timer.Some? { TimerKnown(s, f); }
    ContinueGives(s, f);
    hide Invariant, Continue, GoesOn;
  }

  /** Falling asleep: the timer callback is the one reference to the fiber. */
  lemma SleepEffect(s: State, f: nat, j: nat)
    requires Legal(s, FallAsleep(f, j))
    ensures
      var s' := Do(s, FallAsleep(f, j)).value;
      && j != f && TasksExcept(s, s', {f, j}) && s'.tasks[j] == Task(InTimer, Call(WakeUp(f)))
      && s'.tasks[f] == Task(OfCall(j), s.tasks[f].kind.(pc := Dozing(j)))
      && s'.timers == s.timers + {j} && Inner(s, s') && s'.io == s.io && s'.calls == s.calls
  {
  }

  lemma TimerDueEffect(s: State, j: nat)
    requires Invariant(s) && Legal(s, TimerDue(j))
    ensures Do(s, TimerDue(j)).Fine?
    ensures
      var s' := Do(s, TimerDue(j)).value;
      && s'.queue == s.queue + [Entry(j, -1)] && s'.timers == s.timers - {j}
      && TasksExcept(s, s', {j}) && s'.tasks[j] == s.tasks[j].(place := Queued)
      && s'.workers == s.workers && s'.active == s.active && s'.idle == s.idle
      && s'.io == s.io && s'.calls == s.calls && s'.stop == s.stop
  {
    assert Refers(s, InTimer, j);
    hide Shape, Counters, Inv;
  }

  // ----- events ----------------------------------------------------------------------

  /** A waiter in the queue: a fiber was woken once more. */
  function Woken1(x: Task): Task
  {
    Task(Queued, if x.kind.Fiber? then x.kind.(wakes := x.kind.wakes + 1) else x.kind)
  }

  function EntryOf(s: State, fd: nat, e: Event): seq<Entry>
  {
    match Waiter(s.io, fd, e)
    case None => []
    case Some(t) => [Entry(t, -1)]
  }

  predicate IsWaiter(s: State, fd: nat, es: set<Event>, u: nat)
  {
    (READ in es && Waiter(s.io, fd, READ) == Some(u)) || (WRITE in es && Waiter(s.io, fd, WRITE) == Some(u))
  }

  /** The waiters of the events `es` of `fd` went from their contexts to the end of the
      queue, the reader first; everybody else is where he was. */
  ghost predicate Wakes(s: State, s': State, fd: nat, es: set<Event>)
  {
    && (forall e :: e in es ==> Waiter(s.io, fd, e).Some? && Waiter(s.io, fd, e).value in s.tasks)
    && (forall fd', e :: Waiter(s'.io, fd', e) == if fd' == fd && e in es then None else Waiter(s.io, fd', e))
    && s'.queue == s.queue + (if READ in es then EntryOf(s, fd, READ) else [])
                           + (if WRITE in es then EntryOf(s, fd, WRITE) else [])
    && s'.tasks.Keys == s.tasks.Keys
    && (forall u :: u in s.tasks ==>
          s'.tasks[u] == if IsWaiter(s, fd, es, u) then Woken1(s.tasks[u]) else s.tasks[u])
    && s'.workers == s.workers && s'.active == s.active && s'.idle == s.idle
    && s'.timers == s.timers && s'.calls == s.calls && s'.stop == s.stop
  }

  lemma WakesNone(s: State, io: IO, fd: nat)
    requires forall fd', e :: Waiter(io, fd', e) == Waiter(s.io, fd', e)
    ensures Wakes(s, s.(io := io), fd, {})
  {
    hide Waiter;
  }

  lemma WakesOne(s: State, io: IO, fd: nat, e: Event, t: nat)
    requires t in s.tasks && Waiter(s.io, fd, e) == Some(t)
    requires forall fd', e' :: Waiter(io, fd', e') == if fd' == fd && e' == e then None else Waiter(s.io, fd', e')
    ensures Wakes(s, WakeTask(s.(io := io), t), fd, {e})
  {
    hide Waiter;
  }

  lemma WakesBoth(s: State, io: IO, fd: nat, t: nat, u: nat)
    requires t in s.tasks && u in s.tasks && t != u
    requires Waiter(s.io, fd, READ) == Some(t) && Waiter(s.io, fd, WRITE) == Some(u)
    requires forall fd', e' :: Waiter(io, fd', e') == if fd' == fd then None else Waiter(s.io, fd', e')
    ensures Wakes(s, WakeTask(WakeTask(s.(io := io), t), u), fd, {READ, WRITE})
  {
    hide Waiter;
    var s' := WakeTask(WakeTask(s.(io := io), t), u);
    assert s'.queue == s.queue + [Entry(t, -1)] + [Entry(u, -1)];
    forall e: Event ensures Waiter(s.io, fd, e).Some? && e in {READ, WRITE} { if e.READ? {} else {} }
  }

  lemma HandoverWakes(s: State, fd: nat, es: set<Event>, io: IO, ws: seq<Wake>)
    requires Tokens(s) && Fired(s.io, fd, es, io, ws)
    ensures Wakes(s, WakeAll(s.(io := io), ws), fd, es)
  {
    FiredWaiters(s.io, fd, es, io, ws);
    EventSets(es);
    if READ in es { WaiterTask(s, fd, READ); }
    if WRITE in es { WaiterTask(s, fd, WRITE); }
    if es == {} {
      assert |ws| == 0;
      hide Fired, Waiter, Tokens;
      WakesNone(s, io, fd);
    } else if es == {READ} {
      assert |ws| == 1 && ws[1..] == [];
      hide Fired, Waiter, Tokens, WakeTask, Wakes;
      WakesOne(s, io, fd, READ, WakeId(ws[0]));
    } else if es == {WRITE} {
      assert |ws| == 1 && ws[1..] == [];
      hide Fired, Waiter, Tokens, WakeTask, Wakes;
      WakesOne(s, io, fd, WRITE, WakeId(ws[0]));
    } else {
      assert |ws| == 2 && ws == [ws[0], ws[1]];
      hide Fired, Waiter, Tokens, Wakes;
      WakeTwo(s.(io := io), ws[0], ws[1]);
      hide WakeTask;
      WakesBoth(s, io, fd, WakeId(ws[0]), WakeId(ws[1]));
    }
  }

  /** Which events of `fd` are fired. */
  lemma ReadyEffect(s: State, fd: nat, ready: set<Event>, ok: bool)
    requires Invariant(s) && Legal(s, Ready(fd, ready, ok)) && Do(s, Ready(fd, ready, ok)).Fine?
    ensures
      var es := s.io.fds[fd].events;
      var fired := if ok && es * ready != {} then ready else {};
      && fired <= es
      && Wakes(s, Do(s, Ready(fd, ready, ok)).value, fd, fired)
  {
    DispatchKeeps(s.io, fd, ready, ok);
    var (io, ws) := Dispatch(s.io, fd, ready, ok).value;
    hide Shape, Counters, Inv, Dispatch, Wakes, Fired;
    if ok && s.io.fds[fd].events * ready != {} {
      HandoverWakes(s, fd, ready, io, ws);
    } else {
      WakesNone(s, io, fd);
    }
  }

  lemma CancelOneEffect(s: State, fd: nat, e: Event, ok: bool)
    requires Invariant(s)
    ensures Do(s, CancelOne(fd, e, ok)).Fine?
    ensures Wakes(s, Do(s, CancelOne(fd, e, ok)).value, fd,
                  if ok && fd < |s.io.fds| && e in s.io.fds[fd].events then {e} else {})
  {
    CancelEventKeeps(s.io, fd, e, ok);
    var (io, ws) := CancelEvent(s.io, fd, e, ok).value;
    hide Shape, Counters, Inv, CancelEvent, Wakes, Fired;
    if ok && fd < |s.io.fds| && e in s.io.fds[fd].events {
      HandoverWakes(s, fd, {e}, io, ws);
    } else {
      WakesNone(s, io, fd);
    }
  }

  lemma CancelBothEffect(s: State, fd: nat, ok: bool)
    requires Invariant(s)
    ensures Do(s, CancelBoth(fd, ok)).Fine?
    ensures Wakes(s, Do(s, CancelBoth(fd, ok)).value, fd, if ok && fd < |s.io.fds| then s.io.fds[fd].events else {})
  {
    CancelAllKeeps(s.io, fd, ok);
    var (io, ws) := CancelAll(s.io, fd, ok).value;
    hide Shape, Counters, Inv, CancelAll, Wakes, Fired;
    if ok && fd < |s.io.fds| && s.io.fds[fd].events != {} {
      HandoverWakes(s, fd, s.io.fds[fd].events, io, ws);
    } else {
      WakesNone(s, io, fd);
    }
  }

  /** A user callback was registered, or nothing happened. */
  ghost predicate CallAdded(s: State, s': State, fd: nat, e: Event, j: nat, ok: bool)
  {
    && (forall fd', e' ::
          Waiter(s'.io, fd', e') == if ok && fd' == fd && e' == e then Some(j) else Waiter(s.io, fd', e'))
    && TasksExcept(s, s', if ok then {j} else {})
    && (ok ==> s'.tasks[j] == Task(Waiting(fd, e), Call(UserCall)))
    && Inner(s, s') && s'.timers == s.timers && s'.calls == s.calls
  }

  lemma AddCallGives(s: State, fd: nat, e: Event, j: nat, ok: bool, io: IO, rc: int)
    requires |s.io.fds| >= 2 && AddEvent(s.io, fd, e, Some(j), 0, ok) == Fine((io, rc)) && (rc == 0 <==> ok)
    requires forall fd', e' ::
               Waiter(io, fd', e') == if ok && fd' == fd && e' == e then Some(j) else Waiter(s.io, fd', e')
    ensures AddCall(s, fd, e, j, ok).Fine? && CallAdded(s, AddCall(s, fd, e, j, ok).value, fd, e, j, ok)
  {
    hide AddEvent, Waiter;
  }

  lemma AddUserCallEffect(s: State, fd: nat, e: Event, j: nat, ok: bool)
    requires Invariant(s) && Legal(s, AddUserCall(fd, e, j, ok))
    ensures Do(s, AddUserCall(fd, e, j, ok)).Fine?
    ensures CallAdded(s, Do(s, AddUserCall(fd, e, j, ok)).value, fd, e, j, ok)
  {
    NoWaiterNoBit(s.io, fd, e);
    AddedWaiters(s.io, fd, e, Some(j), 0, ok);
    var (io, rc) := AddEvent(s.io, fd, e, Some(j), 0, ok).value;
    hide Invariant, CallAdded, AddEvent, Waiter;
    AddCallGives(s, fd, e, j, ok, io, rc);
    hide AddCall;
  }

  /** The registration of a user callback is gone, and the callback with it. */
  ghost predicate CallDropped(s: State, s': State, fd: nat, e: Event, ok: bool)
  {
    var x := Waiter(s.io, fd, e);
    && (forall fd', e' :: Waiter(s'.io, fd', e') == if ok && fd' == fd && e' == e then None else Waiter(s.io, fd', e'))
    && (x.Some? ==> x.value in s.tasks)
    && TasksExcept(s, s', if ok && x.Some? then {x.value} else {})
    && (ok && x.Some? ==> s'.tasks[x.value] == s.tasks[x.value].(place := Gone))
    && Inner(s, s') && s'.timers == s.timers && s'.calls == s.calls
  }

  lemma DropCallGives(s: State, fd: nat, e: Event, ok: bool, io: IO, done: bool)
    requires DelEvent(s.io, fd, e, ok) == (io, done)
    requires forall fd', e' :: Waiter(io, fd', e') == if ok && fd' == fd && e' == e then None else Waiter(s.io, fd', e')
    requires Waiter(s.io, fd, e).Some? ==> Waiter(s.io, fd, e).value in s.tasks && (done <==> ok)
    ensures CallDropped(s, DropCall(s, fd, e, ok), fd, e, ok)
  {
    hide DelEvent, Waiter;
  }

  lemma DelUserCallEffect(s: State, fd: nat, e: Event, ok: bool)
    requires Invariant(s) && Legal(s, DelUserCall(fd, e, ok))
    ensures CallDropped(s, Do(s, DelUserCall(fd, e, ok)).value, fd, e, ok)
  {
    DroppedWaiters(s.io, fd, e, ok);
    if Waiter(s.io, fd, e).Some? {
      WaiterRegistered(s.io, fd, e);
      WaiterTask(s, fd, e);
    }
    var (io, done) := DelEvent(s.io, fd, e, ok);
    hide Invariant, CallDropped, DelEvent, Waiter;
    DropCallGives(s, fd, e, ok, io, done);
    hide DropCall;
  }

  lemma StopEffect(s: State)
    ensures Do(s, Stop) == Fine(s.(stop := true))
  {
  }

  // ----- timer callbacks ---------------------------------------------------------------

  /** A timer callback ran from start to end: it is used up, the callback fiber is fresh
      and kept, the worker scans again. */
  ghost predicate RanCallback(s: State, m: State, w: nat, g: nat, t: nat)
    requires w in s.workers && t in s.tasks
  {
    && t != g && TasksExcept(s, m, {t, g}) && m.tasks[t] == s.tasks[t].(place := Gone)
    && m.tasks[g].place == Gone && m.tasks[g].kind.Fiber? && m.tasks[g].kind.state == INIT
    && m.tasks[g].kind.pc == User && m.tasks[g].kind.home == Some(w)
    && WorkersExcept(s, m, w) && m.workers[w] == Worker(Scanning, Some(g))
    && m.active == s.active - 1 && m.idle == s.idle && m.queue == s.queue && Outer(s, m)
  }

  lemma CallDoneGives(s: State, w: nat, g: nat)
    requires Tokens(s) && CallFiber(s, w, g) && s.workers[w].phase.Holding? && CallFiberTask(s, g).kind.Fiber?
    requires s.workers[w].phase.task in s.tasks && g != s.workers[w].phase.task
    ensures RanCallback(s, CallDone(s, w, g), w, g, s.workers[w].phase.task)
  {
    hide Tokens;
  }

  /** The timeout of do_io: a live call that was not marked is marked, and its waiter, if
      it is registered and the kernel agrees, is woken; otherwise nothing happens. */
  lemma TimeoutEffect(s: State, w: nat, g: nat, ok: bool, op: nat) returns (m: State)
    requires Invariant(s) && Legal(s, Resume(w, g, ok))
    requires s.workers[w].phase.task in s.tasks && s.tasks[s.workers[w].phase.task].kind == Call(Timeout(op))
    ensures Do(s, Resume(w, g, ok)).Fine? && RanCallback(s, m, w, g, s.workers[w].phase.task)
    ensures op in s.calls && s.calls[op].live && !s.calls[op].cancelled ==>
              var c := s.calls[op];
              Wakes(m.(calls := s.calls[op := c.(cancelled := true)]), Do(s, Resume(w, g, ok)).value, c.fd,
                    if ok && c.fd < |s.io.fds| && c.e in s.io.fds[c.fd].events then {c.e} else {})
    ensures !(op in s.calls && s.calls[op].live && !s.calls[op].cancelled) ==> Do(s, Resume(w, g, ok)) == Fine(m)
  {
    var t := s.workers[w].phase.task;
    HeldTask(s, w);
    CallFiberFree(s, w, g);
    CallDoneTokens(s, w, g);
    m := CallDone(s, w, g);
    CallDoneGives(s, w, g);
    assert DoResume(s, w, g, ok) == TimerCall(s, w, g, ok);
    if op in s.calls && s.calls[op].live && !s.calls[op].cancelled {
      TimeoutCancels(s, m, op, ok);
      hide Invariant, RanCallback, Wakes, Handover, CancelEvent;
    } else {
      hide Invariant, RanCallback, Wakes, Handover, CancelEvent;
    }
  }

  lemma TimeoutCancels(s: State, m: State, op: nat, ok: bool)
    requires Tokens(m) && Inv(m.io) && m.io == s.io && m.calls == s.calls && op in s.calls
    ensures
      var c := s.calls[op];
      var n := m.(calls := s.calls[op := c.(cancelled := true)]);
      && Handover(n, CancelEvent(s.io, c.fd, c.e, ok)).Fine?
      && Wakes(n, Handover(n, CancelEvent(s.io, c.fd, c.e, ok)).value, c.fd,
               if ok && c.fd < |s.io.fds| && c.e in s.io.fds[c.fd].events then {c.e} else {})
  {
    var c := s.calls[op];
    var n := m.(calls := s.calls[op := c.(cancelled := true)]);
    SameTokens(m, n);
    CancelEventKeeps(s.io, c.fd, c.e, ok);
    var (io, ws) := CancelEvent(s.io, c.fd, c.e, ok).value;
    hide Inv, CancelEvent, Wakes, Fired, Tokens;
    if ok && c.fd < |s.io.fds| && c.e in s.io.fds[c.fd].events {
      HandoverWakes(n, c.fd, {c.e}, io, ws);
    } else {
      WakesNone(n, io, c.fd);
    }
  }

  /** The end of a sleep: besides, the fiber is last in the queue. */
  ghost predicate WokeUp(s: State, m: State, s': State, f: nat)
  {
    && f in s.tasks && s'.queue == s.queue + [Entry(f, -1)] && TasksExcept(m, s', {f})
    && s'.tasks[f] == s.tasks[f].(place := Queued)
    && s'.workers == m.workers && s'.active == m.active && s'.idle == m.idle && Outer(s, s')
  }

  lemma WakeUpGives(s: State, w: nat, g: nat, ok: bool, f: nat)
    requires CallFiber(s, w, g) && s.workers[w].phase.Holding? && Resettable(CallFiberTask(s, g))
    requires s.workers[w].phase.task in s.tasks && s.tasks[s.workers[w].phase.task].kind == Call(WakeUp(f))
    requires f in s.tasks && f != g && f != s.workers[w].phase.task
    ensures TimerCall(s, w, g, ok).Fine? && WokeUp(s, CallDone(s, w, g), TimerCall(s, w, g, ok).value, f)
  {
  }

  lemma WakeUpEffect(s: State, w: nat, g: nat, ok: bool, f: nat) returns (m: State)
    requires Invariant(s) && Legal(s, Resume(w, g, ok))
    requires s.workers[w].phase.task in s.tasks && s.tasks[s.workers[w].phase.task].kind == Call(WakeUp(f))
    ensures Do(s, Resume(w, g, ok)).Fine? && RanCallback(s, m, w, g, s.workers[w].phase.task)
    ensures WokeUp(s, m, Do(s, Resume(w, g, ok)).value, f)
  {
    var t := s.workers[w].phase.task;
    HeldTask(s, w);
    assert Refers(s, OfCall(t), f);
    assert TaskInv(s, f);
    CallFiberFree(s, w, g);
    m := CallDone(s, w, g);
    assert f != g && f != t;
    CallDoneGives(s, w, g);
    WakeUpGives(s, w, g, ok, f);
    hide Invariant, RanCallback, WokeUp, TimerCall, CallDone;
    assert DoResume(s, w, g, ok) == TimerCall(s, w, g, ok);
  }
}
