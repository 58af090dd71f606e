/**
 The coroutine runtime as a step system: workers scanning one run queue, fibers,
 event registrations, timer callbacks and the blocking-call loop of do_io.

 Fibers and callbacks share one space of task numbers. `place`, `on`, `home`,
 `regs` and `wakes` are auxiliary: they record where the one wake-up reference of
 a task is, which worker executes or owns a fiber, and how often a fiber was
 registered and woken. No step depends on them; the invariant ties them to the
 queue, the contexts, the workers and the timers.
 */
module Runtime {
  import opened Options
  import opened Sequences
  import opened Events

  datatype FiberState = INIT | HOLD | EXEC | TERM | READY | EXCEPT

  datatype Callback =
    | Timeout(op: nat)      // the timeout of a blocking call
    | WakeUp(fiber: nat)    // the end of a sleep
    | UserCall

  /** Where a fiber's code stands. `timer` is the armed timeout callback. */
  datatype Pc =
    | User                                        // ordinary code
    | InIo(op: nat, timer: Option<nat>)           // in do_io, not registered
    | Registered(op: nat, timer: Option<nat>)     // addEvent done, about to park
    | Parked(op: nat, timer: Option<nat>)         // suspended in do_io
    | Woken(op: nat, timer: Option<nat>)          // resumed in do_io
    | Dozing(job: nat)                            // sleep timer added, about to park
    | Asleep(job: nat)                            // suspended in sleep

  datatype Place =
    | Gone
    | Queued
    | Waiting(fd: nat, e: Event)
    | Held(w: nat)
    | Running(w: nat)
    | InTimer
    | OfCall(job: nat)

  datatype Kind =
    | Fiber(state: FiberState, pc: Pc, on: nat, home: Option<nat>, regs: nat, wakes: nat)
    | Call(cb: Callback)

  datatype Task = Task(place: Place, kind: Kind)

  datatype Phase =
    | Scanning
    | Holding(task: nat)
    | Executing(fiber: nat, viaCall: bool)
    | Idling

  datatype Worker = Worker(phase: Phase, cbFiber: Option<nat>)

  datatype Entry = Entry(task: nat, thread: int)

  /** One do_io invocation; `live` until it returns. */
  datatype IoCall = IoCall(fiber: nat, fd: nat, e: Event, cancelled: bool, live: bool)

  datatype State = State(
    io: IO,
    queue: seq<Entry>,
    workers: map<nat, Worker>,
    tasks: map<nat, Task>,
    timers: set<nat>,
    calls: map<nat, IoCall>,
    active: int,
    idle: int,
    stop: bool)

  // ----- small updates -----------------------------------------------------

  function SetTask(s: State, t: nat, x: Task): State { s.(tasks := s.tasks[t := x]) }

  function SetPc(s: State, f: nat, pc: Pc): State
    requires f in s.tasks && s.tasks[f].kind.Fiber?
  {
    SetTask(s, f, s.tasks[f].(kind := s.tasks[f].kind.(pc := pc)))
  }

  function SetPhase(s: State, w: nat, p: Phase): State
    requires w in s.workers
  {
    s.(workers := s.workers[w := s.workers[w].(phase := p)])
  }

  function Push(s: State, t: nat, thread: int): State { s.(queue := s.queue + [Entry(t, thread)]) }

  predicate InQueue(q: seq<Entry>, t: nat) { exists i :: 0 <= i < |q| && q[i].task == t }

  ghost predicate NoDup(q: seq<Entry>)
  {
    forall i, j :: 0 <= i < j < |q| ==> q[i].task != q[j].task
  }

  lemma InQueuePush(q: seq<Entry>, t: nat, thread: int, x: nat)
    ensures InQueue(q + [Entry(t, thread)], x) <==> InQueue(q, x) || x == t
  {
    var r := q + [Entry(t, thread)];
    if InQueue(q, x) {
      var i :| 0 <= i < |q| && q[i].task == x;
      assert r[i].task == x;
    }
    assert r[|q|].task == t;
  }

  lemma InQueueRemove(q: seq<Entry>, i: nat, x: nat)
    requires NoDup(q) && i < |q|
    ensures InQueue(RemoveAt(q, i), x) <==> InQueue(q, x) && x != q[i].task
    ensures NoDup(RemoveAt(q, i))
  {
    var r := RemoveAt(q, i);
    if InQueue(q, x) && x != q[i].task {
      var k :| 0 <= k < |q| && q[k].task == x;
      assert r[if k < i then k else k - 1].task == x;
    }
  }

  // ----- the invariant -----------------------------------------------------

  /** Structure `p` holds the wake-up reference to task `t`. */
  ghost predicate Refers(s: State, p: Place, t: nat)
  {
    match p
    case Queued => InQueue(s.queue, t)
    case Waiting(fd, e) => Waiter(s.io, fd, e) == Some(t)
    case Held(w) => w in s.workers && s.workers[w].phase == Holding(t)
    case InTimer => t in s.timers
    case OfCall(j) => j in s.tasks && s.tasks[j].kind == Call(WakeUp(t)) && s.tasks[j].place != Gone
    case _ => t in s.tasks && s.tasks[t].place == p
  }

  /** Every task is referenced from its place and from nowhere else. */
  ghost predicate Tokens(s: State)
  {
    && NoDup(s.queue)
    && forall p, t {:trigger Refers(s, p, t)} ::
         Refers(s, p, t) <==> t in s.tasks && s.tasks[t].place == p
  }

  function PcCall(pc: Pc): Option<nat>
  {
    if pc.InIo? || pc.Registered? || pc.Parked? || pc.Woken? then Some(pc.op) else None
  }

  function PcTimer(pc: Pc): Option<nat>
  {
    if pc.InIo? || pc.Registered? || pc.Parked? || pc.Woken? then pc.timer else None
  }

  /** Which state, code position and place go together. */
  predicate TaskOk(x: Task, calls: map<nat, IoCall>)
  {
    var p := x.place;
    match x.kind
    case Call(cb) =>
      if cb.UserCall? then p.Gone? || p.Queued? || p.Held? || p.Waiting?
      else p.Gone? || p.Queued? || p.Held? || p.InTimer?
    case Fiber(st, pc, on, home, regs, wakes) =>
      && regs == wakes + (if p.Waiting? then 1 else 0)
      && (home.Some? ==> if st.EXEC? then home.value == on else p.Gone?)
      && match st
         case EXEC =>
           (match pc
            case User => p == Running(on)
            case InIo(_, _) => p == Running(on)
            case Woken(_, _) => p == Running(on)
            case Registered(op, _) =>
              p.Queued? || (op in calls && p == Waiting(calls[op].fd, calls[op].e))
            case Dozing(j) => p.Queued? || p == OfCall(j)
            case _ => false)
         case HOLD =>
           (match pc
            case Parked(op, _) =>
              p.Queued? || p.Held? || (op in calls && p == Waiting(calls[op].fd, calls[op].e))
            case Asleep(j) => p.Queued? || p.Held? || p == OfCall(j)
            case _ => false)
         case READY => pc.User? && (p.Queued? || p.Held?)
         case INIT => pc.User? && (p.Queued? || p.Held? || p.Gone?)
         case _ => pc.User? && p.Gone?
  }

  /** What holds of one task: its state fits; an executing fiber is what its worker
      executes; a callback fiber is its owner's; a fiber inside do_io is known to
      its call; its timer is a timeout. */
  ghost predicate TaskInv(s: State, t: nat)
  {
    t in s.tasks ==>
      && TaskOk(s.tasks[t], s.calls)
      && (s.tasks[t].kind.Fiber? ==>
            var k := s.tasks[t].kind;
            && (k.state == EXEC ==>
                  k.on in s.workers && s.workers[k.on].phase == Executing(t, k.home == Some(k.on)))
            && (k.home.Some? ==> k.home.value in s.workers && s.workers[k.home.value].cbFiber == Some(t))
            && (PcCall(k.pc).Some? ==>
                  var op := PcCall(k.pc).value;
                  op in s.calls && s.calls[op].live && s.calls[op].fiber == t)
            && (PcTimer(k.pc).Some? ==>
                  var j := PcTimer(k.pc).value;
                  j in s.tasks && s.tasks[j].kind.Call? && s.tasks[j].kind.cb.Timeout?))
  }

  /** What holds of one worker: the fiber it executes is in state EXEC on it, and
      its callback fiber belongs to it. */
  ghost predicate WorkerInv(s: State, w: nat)
  {
    w in s.workers ==>
      var x := s.workers[w];
      && (x.phase.Executing? ==>
            var f := x.phase.fiber;
            && f in s.tasks && s.tasks[f].kind.Fiber?
            && s.tasks[f].kind.state == EXEC && s.tasks[f].kind.on == w)
      && (x.cbFiber.Some? ==>
            var g := x.cbFiber.value;
            g in s.tasks && s.tasks[g].kind.Fiber? && s.tasks[g].kind.home == Some(w))
  }

  /** What holds of one blocking call: while it is live its fiber is in it. */
  ghost predicate CallInv(s: State, op: nat)
  {
    op in s.calls && s.calls[op].live ==>
      var t := s.calls[op].fiber;
      t in s.tasks && s.tasks[t].kind.Fiber? && PcCall(s.tasks[t].kind.pc) == Some(op)
  }

  /** At most one live call waits for an event of a descriptor ... */
  ghost predicate PairInv(s: State, a: nat, b: nat)
  {
    (&& a in s.calls && b in s.calls && s.calls[a].live && s.calls[b].live
     && s.calls[a].fd == s.calls[b].fd && s.calls[a].e == s.calls[b].e) ==> a == b
  }

  /** ... and then no user callback does. */
  ghost predicate ApartInv(s: State, t: nat, op: nat)
  {
    t in s.tasks && s.tasks[t].kind.Call? && op in s.calls && s.calls[op].live ==>
      s.tasks[t].place != Waiting(s.calls[op].fd, s.calls[op].e)
  }

  ghost predicate Shape(s: State)
  {
    && (forall t {:trigger TaskInv(s, t)} :: TaskInv(s, t))
    && (forall w {:trigger WorkerInv(s, w)} :: WorkerInv(s, w))
    && (forall op {:trigger CallInv(s, op)} :: CallInv(s, op))
    && (forall a, b {:trigger PairInv(s, a, b)} :: PairInv(s, a, b))
    && (forall t, op {:trigger ApartInv(s, t, op)} :: ApartInv(s, t, op))
  }

  ghost function Busy(ws: map<nat, Worker>): set<nat>
  {
    set w | w in ws && (ws[w].phase.Holding? || ws[w].phase.Executing?)
  }

  ghost function Idlers(ws: map<nat, Worker>): set<nat>
  {
    set w | w in ws && ws[w].phase.Idling?
  }

  ghost predicate Counters(s: State)
  {
    s.active == |Busy(s.workers)| && s.idle == |Idlers(s.workers)|
  }

  ghost predicate Invariant(s: State)
  {
    Inv(s.io) && Tokens(s) && Shape(s) && Counters(s)
  }

  // ----- steps: the queue and the workers ----------------------------------

  const NewFiber: Task := Task(Queued, Fiber(INIT, User, 0, None, 0, 0))

  /** schedule of a new fiber, or of a callback. */
  function Spawn(s: State, t: nat, x: Task, thread: int): State
  {
    SetTask(Push(s, t, thread), t, x)
  }

  /** May worker `w` take this entry? */
  predicate Eligible(s: State, e: Entry, w: nat)
  {
    && (e.thread == -1 || e.thread == w)
    && !(e.task in s.tasks && s.tasks[e.task].kind.Fiber? && s.tasks[e.task].kind.state == EXEC)
  }

  predicate FirstEligible(s: State, w: nat, i: nat)
  {
    i < |s.queue| && Eligible(s, s.queue[i], w) && forall j :: 0 <= j < i ==> !Eligible(s, s.queue[j], w)
  }

  /** The scan of run takes the earliest eligible entry ... */
  function ScanTake(s: State, w: nat, i: nat): State
    requires w in s.workers && i < |s.queue| && s.queue[i].task in s.tasks
  {
    var t := s.queue[i].task;
    SetPhase(SetTask(s.(queue := RemoveAt(s.queue, i), active := s.active + 1), t,
                     s.tasks[t].(place := Held(w))), w, Holding(t))
  }

  /** ... or finds none and turns to the idle fiber, and comes back from it. */
  function ScanNone(s: State, w: nat): State
    requires w in s.workers
  {
    SetPhase(s.(idle := s.idle + 1), w, Idling)
  }

  function Back(s: State, w: nat): State
    requires w in s.workers
  {
    SetPhase(s.(idle := s.idle - 1), w, Scanning)
  }

  function Resumed(pc: Pc): Pc
  {
    match pc
    case Parked(op, j) => Woken(op, j)
    case Asleep(_) => User
    case _ => pc
  }

  /** run resumes a fiber it took: swapIn asserts that it is not executing. */
  function ResumeFiber(s: State, w: nat): Outcome<State>
    requires w in s.workers && s.workers[w].phase.Holding?
    requires s.workers[w].phase.task in s.tasks && s.tasks[s.workers[w].phase.task].kind.Fiber?
  {
    var t := s.workers[w].phase.task;
    var x := s.tasks[t];
    if x.kind.state == TERM || x.kind.state == EXCEPT then
      Fine(SetPhase(SetTask(s.(active := s.active - 1), t, x.(place := Gone)), w, Scanning))
    else if x.kind.state == EXEC then Abort
    else
      Fine(SetPhase(SetTask(s, t, Task(Running(w), x.kind.(state := EXEC, pc := Resumed(x.kind.pc), on := w))),
                    w, Executing(t, false)))
  }

  /** The fiber a worker runs callbacks in: its own one, or a new one `g`. */
  predicate CallFiber(s: State, w: nat, g: nat)
  {
    w in s.workers && (if s.workers[w].cbFiber.Some? then s.workers[w].cbFiber == Some(g) else g !in s.tasks)
  }

  function CallFiberTask(s: State, g: nat): Task
  {
    if g in s.tasks then s.tasks[g] else NewFiber.(place := Gone)
  }

  /** Fiber::reset asserts that the callback fiber is not suspended. */
  predicate Resettable(x: Task)
  {
    x.kind.Fiber? && (x.kind.state == INIT || x.kind.state == TERM || x.kind.state == EXCEPT)
  }

  /** run resumes a user callback it took, in callback fiber `g`. */
  function ResumeCall(s: State, w: nat, g: nat): Outcome<State>
    requires CallFiber(s, w, g) && s.workers[w].phase.Holding?
    requires s.workers[w].phase.task in s.tasks && s.tasks[s.workers[w].phase.task].kind.Call?
  {
    var t := s.workers[w].phase.task;
    var x := CallFiberTask(s, g);
    if !Resettable(x) then Abort
    else
      var y := Task(Running(w), x.kind.(state := EXEC, pc := User, on := w, home := Some(w)));
      Fine(s.(tasks := s.tasks[t := s.tasks[t].(place := Gone)][g := y],
              workers := s.workers[w := Worker(Executing(g, true), Some(g))]))
  }

  /** Yielding, ending, and what run does with the fiber that came back. */
  function YieldReady(s: State, w: nat): State
    requires w in s.workers && s.workers[w].phase.Executing?
    requires s.workers[w].phase.fiber in s.tasks && s.tasks[s.workers[w].phase.fiber].kind.Fiber?
  {
    var Executing(f, via) := s.workers[w].phase;
    var x := Task(Queued, s.tasks[f].kind.(state := READY, home := None));
    Push(SetTask(s, f, x), f, -1).(active := s.active - 1,
      workers := s.workers[w := Worker(Scanning, if via then None else s.workers[w].cbFiber)])
  }

  function YieldHold(s: State, w: nat): State
    requires w in s.workers && s.workers[w].phase.Executing?
    requires s.workers[w].phase.fiber in s.tasks && s.tasks[s.workers[w].phase.fiber].kind.Fiber?
    requires s.tasks[s.workers[w].phase.fiber].kind.pc.Registered? || s.tasks[s.workers[w].phase.fiber].kind.pc.Dozing?
  {
    var Executing(f, via) := s.workers[w].phase;
    var x := s.tasks[f].kind;
    var pc := if x.pc.Registered? then Parked(x.pc.op, x.pc.timer) else Asleep(x.pc.job);
    SetTask(s, f, s.tasks[f].(kind := x.(state := HOLD, pc := pc, home := None))).(active := s.active - 1,
      workers := s.workers[w := Worker(Scanning, if via then None else s.workers[w].cbFiber)])
  }

  /** A fiber ends, normally or by exception; a callback fiber is reset for reuse. */
  function Finish(s: State, w: nat, how: FiberState): State
    requires w in s.workers && s.workers[w].phase.Executing?
    requires s.workers[w].phase.fiber in s.tasks && s.tasks[s.workers[w].phase.fiber].kind.Fiber?
  {
    var Executing(f, via) := s.workers[w].phase;
    SetPhase(SetTask(s, f, Task(Gone, s.tasks[f].kind.(state := if via then INIT else how))).(active := s.active - 1),
             w, Scanning)
  }

  // ----- steps: blocking calls, sleeping, events and timers ------------------

  function EnterIo(s: State, f: nat, op: nat, fd: nat, e: Event): State
    requires f in s.tasks && s.tasks[f].kind.Fiber?
  {
    SetPc(s, f, InIo(op, None)).(calls := s.calls[op := IoCall(f, fd, e, false, true)])
  }

  function Arm(s: State, f: nat, j: nat): State
    requires f in s.tasks && s.tasks[f].kind.Fiber? && s.tasks[f].kind.pc.InIo?
  {
    var op := s.tasks[f].kind.pc.op;
    var x := s.tasks[f].(kind := s.tasks[f].kind.(pc := InIo(op, Some(j))));
    s.(tasks := s.tasks[j := Task(InTimer, Call(Timeout(op)))][f := x], timers := s.timers + {j})
  }

  /** Timer::cancel of the timeout, if it is still pending. */
  function Disarm(s: State, timer: Option<nat>): State
  {
    if timer.Some? && timer.value in s.timers && timer.value in s.tasks
    then SetTask(s, timer.value, s.tasks[timer.value].(place := Gone)).(timers := s.timers - {timer.value})
    else s
  }

  /** do_io returns: the weak reference to its timer information dies. */
  function Return(s: State, f: nat): State
    requires f in s.tasks && s.tasks[f].kind.Fiber? && PcCall(s.tasks[f].kind.pc).Some?
    requires PcCall(s.tasks[f].kind.pc).value in s.calls
  {
    var op := PcCall(s.tasks[f].kind.pc).value;
    SetPc(s, f, User).(calls := s.calls[op := s.calls[op].(live := false)])
  }

  /** addEvent for the current fiber; on failure the timer is cancelled. */
  function Register(s: State, f: nat, ok: bool): Outcome<State>
    requires f in s.tasks && s.tasks[f].kind.Fiber? && s.tasks[f].kind.pc.InIo? && s.tasks[f].kind.pc.op in s.calls
    requires s.tasks[f].kind.pc.timer != Some(f) && |s.io.fds| >= 2
  {
    var InIo(op, timer) := s.tasks[f].kind.pc;
    var c := s.calls[op];
    match AddEvent(s.io, c.fd, c.e, None, f, ok)
    case Abort => Abort
    case Fine((io, rc)) =>
      if rc != 0 then Fine(Return(Disarm(s.(io := io), timer), f))
      else
        Fine(SetTask(s.(io := io), f, Task(Waiting(c.fd, c.e), s.tasks[f].kind.(
          pc := Registered(op, timer), regs := s.tasks[f].kind.regs + 1))))
  }

  /** After the park: cancel the timer, then give up or try again. */
  function Continue(s: State, f: nat): State
    requires f in s.tasks && s.tasks[f].kind.Fiber? && s.tasks[f].kind.pc.Woken? && s.tasks[f].kind.pc.op in s.calls
    requires s.tasks[f].kind.pc.timer != Some(f)
  {
    var Woken(op, timer) := s.tasks[f].kind.pc;
    var s1 := Disarm(s, timer);
    if s.calls[op].cancelled then Return(s1, f)
    else SetTask(s1, f, s1.tasks[f].(kind := s1.tasks[f].kind.(pc := InIo(op, None))))
  }

  function Sleep(s: State, f: nat, j: nat): State
    requires f in s.tasks && s.tasks[f].kind.Fiber?
  {
    s.(tasks := s.tasks[j := Task(InTimer, Call(WakeUp(f)))][f := Task(OfCall(j), s.tasks[f].kind.(pc := Dozing(j)))],
       timers := s.timers + {j})
  }

  /** An expired timer callback goes to the run queue. */
  function Expire(s: State, j: nat): State
    requires j in s.tasks
  {
    Push(SetTask(s, j, s.tasks[j].(place := Queued)), j, -1).(timers := s.timers - {j})
  }

  /** A waiter handed over by triggerEvent enters the run queue. */
  function WakeTask(s: State, t: nat): State
  {
    if t !in s.tasks then s
    else
      var x := s.tasks[t];
      var y := if x.kind.Fiber? then Task(Queued, x.kind.(wakes := x.kind.wakes + 1)) else x.(place := Queued);
      Push(SetTask(s, t, y), t, -1)
  }

  function WakeId(w: Wake): nat { if w.fiber.Some? then w.fiber.value else if w.cb.Some? then w.cb.value else 0 }

  function WakeAll(s: State, ws: seq<Wake>): State
    decreases |ws|
  {
    if ws == [] then s else WakeAll(WakeTask(s, WakeId(ws[0])), ws[1..])
  }

  function Handover(s: State, r: Outcome<(IO, seq<Wake>)>): Outcome<State>
  {
    match r
    case Abort => Abort
    case Fine((io, ws)) => Fine(WakeAll(s.(io := io), ws))
  }

  /** A timer callback, run from start to end in callback fiber `g`. */
  function TimerCall(s: State, w: nat, g: nat, ok: bool): Outcome<State>
    requires CallFiber(s, w, g) && s.workers[w].phase.Holding?
    requires s.workers[w].phase.task in s.tasks && s.tasks[s.workers[w].phase.task].kind.Call?
  {
    var t := s.workers[w].phase.task;
    var x := CallFiberTask(s, g);
    if !Resettable(x) then Abort
    else
      var y := Task(Gone, x.kind.(state := INIT, pc := User, home := Some(w)));
      var s1 := s.(tasks := s.tasks[t := s.tasks[t].(place := Gone)][g := y],
                   workers := s.workers[w := Worker(Scanning, Some(g))], active := s.active - 1);
      match s.tasks[t].kind.cb
      case UserCall => Abort
      case Timeout(op) =>
        if op in s.calls && s.calls[op].live && !s.calls[op].cancelled then
          Handover(s1.(calls := s.calls[op := s.calls[op].(cancelled := true)]),
                   CancelEvent(s.io, s.calls[op].fd, s.calls[op].e, ok))
        else Fine(s1)
      case WakeUp(f) =>
        if f in s1.tasks
        then Fine(Push(SetTask(s1, f, s1.tasks[f].(place := Queued)), f, -1))
        else Abort
  }

  /** A user callback registered for an event. */
  function AddCall(s: State, fd: nat, e: Event, j: nat, ok: bool): Outcome<State>
    requires |s.io.fds| >= 2
  {
    match AddEvent(s.io, fd, e, Some(j), 0, ok)
    case Abort => Abort
    case Fine((io, rc)) =>
      Fine(if rc == 0 then SetTask(s.(io := io), j, Task(Waiting(fd, e), Call(UserCall))) else s.(io := io))
  }

  /** delEvent: the registration goes, and the user callback with it. */
  function DropCall(s: State, fd: nat, e: Event, ok: bool): State
  {
    var (io, done) := DelEvent(s.io, fd, e, ok);
    match Waiter(s.io, fd, e)
    case None => s.(io := io)
    case Some(j) =>
      if done && j in s.tasks then SetTask(s.(io := io), j, s.tasks[j].(place := Gone)) else s.(io := io)
  }
}
