/**
 Every step of the runtime keeps its invariant, so no assertion of the source can
 fire and no wake-up is lost or delivered twice.
 */
module RuntimeSafety {
  import opened Options
  import opened Events
  import opened Runtime

  // ----- the queue and the workers -----------------------------------------

  predicate IsBusy(x: Worker) { x.phase.Holding? || x.phase.Executing? }

  lemma BusyUpdate(ws: map<nat, Worker>, w: nat, x: Worker)
    requires w in ws
    ensures |Busy(ws[w := x])| == |Busy(ws)| - (if IsBusy(ws[w]) then 1 else 0) + (if IsBusy(x) then 1 else 0)
  {
    var B := Busy(ws) - {w};
    assert Busy(ws) == if IsBusy(ws[w]) then B + {w} else B;
    assert Busy(ws[w := x]) == if IsBusy(x) then B + {w} else B;
  }

  lemma IdleUpdate(ws: map<nat, Worker>, w: nat, x: Worker)
    requires w in ws
    ensures |Idlers(ws[w := x])|
            == |Idlers(ws)| - (if ws[w].phase.Idling? then 1 else 0) + (if x.phase.Idling? then 1 else 0)
  {
    var I := Idlers(ws) - {w};
    assert Idlers(ws) == if ws[w].phase.Idling? then I + {w} else I;
    assert Idlers(ws[w := x]) == if x.phase.Idling? then I + {w} else I;
  }

  /** Replacing one worker, with the counters adjusted. */
  lemma CountersUpdate(s: State, w: nat, x: Worker, s': State)
    requires Counters(s) && w in s.workers && s'.workers == s.workers[w := x]
    requires s'.active == s.active - (if IsBusy(s.workers[w]) then 1 else 0) + (if IsBusy(x) then 1 else 0)
    requires s'.idle == s.idle - (if s.workers[w].phase.Idling? then 1 else 0) + (if x.phase.Idling? then 1 else 0)
    ensures Counters(s')
  {
    BusyUpdate(s.workers, w, x);
    IdleUpdate(s.workers, w, x);
  }

  lemma SpawnSafe(s: State, t: nat, x: Task, thread: int)
    requires Invariant(s) && t !in s.tasks
    requires x == NewFiber || x == Task(Queued, Call(UserCall))
    ensures Invariant(Spawn(s, t, x, thread))
  {
    hide Tokens, Inv;
    var s' := Spawn(s, t, x, thread);
    SpawnTokens(s, t, x, thread);
    forall u ensures TaskInv(s', u) { assert TaskInv(s, u); }
    forall w ensures WorkerInv(s', w) { assert WorkerInv(s, w); }
    forall op ensures CallInv(s', op) { assert CallInv(s, op); }
    forall a, b ensures PairInv(s', a, b) { assert PairInv(s, a, b); }
    forall u, op ensures ApartInv(s', u, op) { assert ApartInv(s, u, op); }
  }

  lemma SpawnTokens(s: State, t: nat, x: Task, thread: int)
    requires Tokens(s) && t !in s.tasks && x.place == Queued
    requires x.kind.Call? ==> x.kind.cb.UserCall?
    ensures Tokens(Spawn(s, t, x, thread))
  {
    var s' := Spawn(s, t, x, thread);
    forall p, u ensures Refers(s', p, u) <==> u in s'.tasks && s'.tasks[u].place == p {
      assert Refers(s, p, u) <==> u in s.tasks && s.tasks[u].place == p;
      InQueuePush(s.queue, t, thread, u);
    }
    assert NoDup(s'.queue) by {
      assert !Refers(s, Queued, t);
    }
  }

  lemma ScanTakeSafe(s: State, w: nat, i: nat)
    requires Invariant(s) && w in s.workers && s.workers[w].phase == Scanning && FirstEligible(s, w, i)
    ensures s.queue[i].task in s.tasks && Invariant(ScanTake(s, w, i))
  {
    QueueTask(s, i);
    var s' := ScanTake(s, w, i);
    ScanTakeTokens(s, w, i);
    CountersUpdate(s, w, s'.workers[w], s');
    hide Tokens, Inv, Counters;
    forall u ensures TaskInv(s', u) { assert TaskInv(s, u); }
    forall v ensures WorkerInv(s', v) { assert WorkerInv(s, v); }
    forall op ensures CallInv(s', op) { assert CallInv(s, op); }
    forall a, b ensures PairInv(s', a, b) { assert PairInv(s, a, b); }
    forall u, op ensures ApartInv(s', u, op) { assert ApartInv(s, u, op); }
  }

  lemma QueueTask(s: State, i: nat)
    requires Tokens(s) && i < |s.queue|
    ensures s.queue[i].task in s.tasks && s.tasks[s.queue[i].task].place == Queued
  {
    assert Refers(s, Queued, s.queue[i].task);
  }

  lemma ScanTakeTokens(s: State, w: nat, i: nat)
    requires Tokens(s) && w in s.workers && s.workers[w].phase == Scanning && i < |s.queue|
    ensures s.queue[i].task in s.tasks && Tokens(ScanTake(s, w, i))
  {
    QueueTask(s, i);
    var s' := ScanTake(s, w, i);
    InQueueRemove(s.queue, i, 0);
    forall p, u ensures Refers(s', p, u) <==> u in s'.tasks && s'.tasks[u].place == p {
      assert Refers(s, p, u) <==> u in s.tasks && s.tasks[u].place == p;
      InQueueRemove(s.queue, i, u);
    }
  }

  lemma ScanNoneSafe(s: State, w: nat)
    requires Invariant(s) && w in s.workers && s.workers[w].phase == Scanning
    ensures Invariant(ScanNone(s, w))
  {
    var s' := ScanNone(s, w);
    CountersUpdate(s, w, s'.workers[w], s');
    PhaseTokens(s, s', w);
    hide Tokens, Inv, Counters;
    forall u ensures TaskInv(s', u) { assert TaskInv(s, u); }
    forall v ensures WorkerInv(s', v) { assert WorkerInv(s, v); }
    forall op ensures CallInv(s', op) { assert CallInv(s, op); }
    forall a, b ensures PairInv(s', a, b) { assert PairInv(s, a, b); }
    forall u, op ensures ApartInv(s', u, op) { assert ApartInv(s, u, op); }
  }

  lemma BackSafe(s: State, w: nat)
    requires Invariant(s) && w in s.workers && s.workers[w].phase == Idling
    ensures Invariant(Back(s, w))
  {
    var s' := Back(s, w);
    CountersUpdate(s, w, s'.workers[w], s');
    PhaseTokens(s, s', w);
    hide Tokens, Inv, Counters;
    forall u ensures TaskInv(s', u) { assert TaskInv(s, u); }
    forall v ensures WorkerInv(s', v) { assert WorkerInv(s, v); }
    forall op ensures CallInv(s', op) { assert CallInv(s, op); }
    forall a, b ensures PairInv(s', a, b) { assert PairInv(s, a, b); }
    forall u, op ensures ApartInv(s', u, op) { assert ApartInv(s, u, op); }
  }

  /** Nothing but a worker that holds no entry changes. */
  lemma PhaseTokens(s: State, s': State, w: nat)
    requires Tokens(s) && w in s.workers && !s.workers[w].phase.Holding?
    requires s' == s.(workers := s'.workers, active := s'.active, idle := s'.idle)
    requires w in s'.workers && s'.workers == s.workers[w := s'.workers[w]] && !s'.workers[w].phase.Holding?
    ensures Tokens(s')
  {
    forall p, u ensures Refers(s', p, u) <==> u in s'.tasks && s'.tasks[u].place == p {
      assert Refers(s, p, u) <==> u in s.tasks && s.tasks[u].place == p;
    }
  }

  /** swapIn's assertion holds: what a worker took is not executing. */
  lemma ResumeFiberSafe(s: State, w: nat)
    requires Invariant(s) && w in s.workers && s.workers[w].phase.Holding?
    requires s.workers[w].phase.task in s.tasks && s.tasks[s.workers[w].phase.task].kind.Fiber?
    ensures ResumeFiber(s, w).Fine? && Invariant(ResumeFiber(s, w).value)
  {
    HeldTask(s, w);
    assert TaskInv(s, s.workers[w].phase.task);
    var s' := ResumeFiber(s, w).value;
    CountersUpdate(s, w, s'.workers[w], s');
    ResumeTokens(s, w, s');
    ResumeShape(s, w, s');
  }

  lemma ResumeShape(s: State, w: nat, s': State)
    requires Shape(s) && w in s.workers && s.workers[w].phase.Holding?
    requires s.workers[w].phase.task in s.tasks && s.tasks[s.workers[w].phase.task].kind.Fiber?
    requires s.tasks[s.workers[w].phase.task].place == Held(w)
    requires ResumeFiber(s, w) == Fine(s')
    ensures Shape(s')
  {
    var t := s.workers[w].phase.task;
    assert TaskInv(s, t);
    forall u ensures TaskInv(s', u) { assert TaskInv(s, u); }
    forall v ensures WorkerInv(s', v) { assert WorkerInv(s, v); }
    forall op ensures CallInv(s', op) { assert CallInv(s, op); }
    forall a, b ensures PairInv(s', a, b) { assert PairInv(s, a, b); }
    forall u, op ensures ApartInv(s', u, op) { assert ApartInv(s, u, op); }
  }

  lemma HeldTask(s: State, w: nat)
    requires Tokens(s) && w in s.workers && s.workers[w].phase.Holding?
    ensures s.workers[w].phase.task in s.tasks && s.tasks[s.workers[w].phase.task].place == Held(w)
  {
    assert Refers(s, Held(w), s.workers[w].phase.task);
  }

  lemma ResumeTokens(s: State, w: nat, s': State)
    requires Tokens(s) && w in s.workers && s.workers[w].phase.Holding?
    requires s.workers[w].phase.task in s.tasks && s.tasks[s.workers[w].phase.task].kind.Fiber?
    requires ResumeFiber(s, w) == Fine(s')
    ensures Tokens(s')
  {
    HeldTask(s, w);
    forall p, u ensures Refers(s', p, u) <==> u in s'.tasks && s'.tasks[u].place == p {
      assert Refers(s, p, u) <==> u in s.tasks && s.tasks[u].place == p;
    }
  }

  /** reset's assertion holds: a worker's callback fiber is never suspended. */
  lemma ResumeCallSafe(s: State, w: nat, g: nat)
    requires Invariant(s) && CallFiber(s, w, g) && s.workers[w].phase.Holding?
    requires s.workers[w].phase.task in s.tasks && s.tasks[s.workers[w].phase.task].kind == Call(UserCall)
    ensures ResumeCall(s, w, g).Fine? && Invariant(ResumeCall(s, w, g).value)
  {
    HeldTask(s, w);
    CallFiberFree(s, w, g);
    var s' := ResumeCall(s, w, g).value;
    CountersUpdate(s, w, s'.workers[w], s');
    ResumeCallTokens(s, w, g, s');
    ResumeCallShape(s, w, g, s');
  }

  lemma CallFiberFree(s: State, w: nat, g: nat)
    requires Tokens(s) && Shape(s) && CallFiber(s, w, g) && !s.workers[w].phase.Executing?
    ensures Resettable(CallFiberTask(s, g)) && CallFiberTask(s, g).place == Gone
    ensures g in s.tasks ==> s.tasks[g].kind.Fiber? && s.tasks[g].kind.home == Some(w) && s.tasks[g].kind.pc.User?
  {
    assert WorkerInv(s, w) && TaskInv(s, g);
  }

  lemma ResumeCallTokens(s: State, w: nat, g: nat, s': State)
    requires Tokens(s) && CallFiber(s, w, g) && s.workers[w].phase.Holding?
    requires s.workers[w].phase.task in s.tasks && s.tasks[s.workers[w].phase.task].kind == Call(UserCall)
    requires CallFiberTask(s, g).place == Gone && CallFiberTask(s, g).kind.Fiber?
    requires ResumeCall(s, w, g) == Fine(s')
    ensures Tokens(s')
  {
    HeldTask(s, w);
    forall p, u ensures Refers(s', p, u) <==> u in s'.tasks && s'.tasks[u].place == p {
      assert Refers(s, p, u) <==> u in s.tasks && s.tasks[u].place == p;
      assert Refers(s, p, g) <==> g in s.tasks && s.tasks[g].place == p;
    }
  }

  lemma ResumeCallShape(s: State, w: nat, g: nat, s': State)
    requires Shape(s) && CallFiber(s, w, g) && s.workers[w].phase.Holding?
    requires s.workers[w].phase.task in s.tasks && s.tasks[s.workers[w].phase.task].kind == Call(UserCall)
    requires CallFiberTask(s, g).place == Gone && Resettable(CallFiberTask(s, g))
    requires g in s.tasks ==> s.tasks[g].kind.pc.User?
    requires ResumeCall(s, w, g) == Fine(s')
    ensures Shape(s')
  {
    assert TaskInv(s, g) && WorkerInv(s, w);
    forall u ensures TaskInv(s', u) { assert TaskInv(s, u); }
    forall v ensures WorkerInv(s', v) { assert WorkerInv(s, v); }
    forall op ensures CallInv(s', op) { assert CallInv(s, op); }
    forall a, b ensures PairInv(s', a, b) { assert PairInv(s, a, b); }
    forall u, op ensures ApartInv(s', u, op) { assert ApartInv(s, u, op); }
  }

  // ----- yielding ----------------------------------------------------------

  lemma ExecutingFiber(s: State, w: nat)
    requires Shape(s) && w in s.workers && s.workers[w].phase.Executing?
    ensures
      var f := s.workers[w].phase.fiber;
      && f in s.tasks && s.tasks[f].kind.Fiber? && s.tasks[f].kind.state == EXEC && s.tasks[f].kind.on == w
      && TaskOk(s.tasks[f], s.calls)
      && (s.workers[w].phase.viaCall <==> s.tasks[f].kind.home == Some(w))
      && (s.tasks[f].kind.home.Some? ==> s.tasks[f].kind.home == Some(w) && s.workers[w].cbFiber == Some(f))
      && (s.workers[w].cbFiber == Some(f) ==> s.tasks[f].kind.home == Some(w))
  {
    assert WorkerInv(s, w) && TaskInv(s, s.workers[w].phase.fiber);
  }

  lemma YieldReadySafe(s: State, w: nat)
    requires Invariant(s) && w in s.workers && s.workers[w].phase.Executing?
    requires s.workers[w].phase.fiber in s.tasks && s.tasks[s.workers[w].phase.fiber].kind.Fiber?
    requires s.tasks[s.workers[w].phase.fiber].kind.pc == User
    ensures Invariant(YieldReady(s, w))
  {
    ExecutingFiber(s, w);
    var s' := YieldReady(s, w);
    CountersUpdate(s, w, s'.workers[w], s');
    YieldReadyTokens(s, w);
    YieldReadyShape(s, w);
  }

  lemma YieldReadyTokens(s: State, w: nat)
    requires Tokens(s) && w in s.workers && s.workers[w].phase.Executing?
    requires s.workers[w].phase.fiber in s.tasks && s.tasks[s.workers[w].phase.fiber].kind.Fiber?
    requires s.tasks[s.workers[w].phase.fiber].place == Running(w)
    ensures Tokens(YieldReady(s, w))
  {
    var s', f := YieldReady(s, w), s.workers[w].phase.fiber;
    forall p, u ensures Refers(s', p, u) <==> u in s'.tasks && s'.tasks[u].place == p {
      assert Refers(s, p, u) <==> u in s.tasks && s.tasks[u].place == p;
      InQueuePush(s.queue, f, -1, u);
    }
    assert !Refers(s, Queued, f);
  }

  lemma YieldReadyShape(s: State, w: nat)
    requires Shape(s) && w in s.workers && s.workers[w].phase.Executing?
    requires s.workers[w].phase.fiber in s.tasks && s.tasks[s.workers[w].phase.fiber].kind.Fiber?
    requires s.tasks[s.workers[w].phase.fiber].kind.pc == User
    ensures Shape(YieldReady(s, w))
  {
    ExecutingFiber(s, w);
    var s', f := YieldReady(s, w), s.workers[w].phase.fiber;
    assert TaskInv(s, f) && WorkerInv(s, w);
    forall u ensures TaskInv(s', u) { assert TaskInv(s, u); }
    forall v ensures WorkerInv(s', v) { assert WorkerInv(s, v); }
    forall op ensures CallInv(s', op) { assert CallInv(s, op); }
    forall a, b ensures PairInv(s', a, b) { assert PairInv(s, a, b); }
    forall u, op ensures ApartInv(s', u, op) { assert ApartInv(s, u, op); }
  }

  lemma YieldHoldSafe(s: State, w: nat)
    requires Invariant(s) && w in s.workers && s.workers[w].phase.Executing?
    requires s.workers[w].phase.fiber in s.tasks && s.tasks[s.workers[w].phase.fiber].kind.Fiber?
    requires s.tasks[s.workers[w].phase.fiber].kind.pc.Registered? || s.tasks[s.workers[w].phase.fiber].kind.pc.Dozing?
    ensures Invariant(YieldHold(s, w))
  {
    var s' := YieldHold(s, w);
    CountersUpdate(s, w, s'.workers[w], s');
    YieldHoldShape(s, w);
    hide Shape, Inv, Counters;
    forall p, u ensures Refers(s', p, u) <==> u in s'.tasks && s'.tasks[u].place == p {
      assert Refers(s, p, u) <==> u in s.tasks && s.tasks[u].place == p;
    }
  }

  lemma YieldHoldShape(s: State, w: nat)
    requires Shape(s) && w in s.workers && s.workers[w].phase.Executing?
    requires s.workers[w].phase.fiber in s.tasks && s.tasks[s.workers[w].phase.fiber].kind.Fiber?
    requires s.tasks[s.workers[w].phase.fiber].kind.pc.Registered? || s.tasks[s.workers[w].phase.fiber].kind.pc.Dozing?
    ensures Shape(YieldHold(s, w))
  {
    ExecutingFiber(s, w);
    var s', f := YieldHold(s, w), s.workers[w].phase.fiber;
    assert TaskInv(s, f) && WorkerInv(s, w);
    forall u ensures TaskInv(s', u) { assert TaskInv(s, u); }
    forall v ensures WorkerInv(s', v) { assert WorkerInv(s, v); }
    forall op ensures CallInv(s', op) { assert CallInv(s, op); }
    forall a, b ensures PairInv(s', a, b) { assert PairInv(s, a, b); }
    forall u, op ensures ApartInv(s', u, op) { assert ApartInv(s, u, op); }
  }

  lemma FinishSafe(s: State, w: nat, how: FiberState)
    requires Invariant(s) && w in s.workers && s.workers[w].phase.Executing? && (how == TERM || how == EXCEPT)
    requires s.workers[w].phase.fiber in s.tasks && s.tasks[s.workers[w].phase.fiber].kind.Fiber?
    requires s.tasks[s.workers[w].phase.fiber].kind.pc == User
    ensures Invariant(Finish(s, w, how))
  {
    ExecutingFiber(s, w);
    var s' := Finish(s, w, how);
    CountersUpdate(s, w, s'.workers[w], s');
    FinishShape(s, w, how);
    hide Shape, Inv, Counters;
    forall p, u ensures Refers(s', p, u) <==> u in s'.tasks && s'.tasks[u].place == p {
      assert Refers(s, p, u) <==> u in s.tasks && s.tasks[u].place == p;
    }
  }

  lemma FinishShape(s: State, w: nat, how: FiberState)
    requires Shape(s) && w in s.workers && s.workers[w].phase.Executing? && (how == TERM || how == EXCEPT)
    requires s.workers[w].phase.fiber in s.tasks && s.tasks[s.workers[w].phase.fiber].kind.Fiber?
    requires s.tasks[s.workers[w].phase.fiber].kind.pc == User
    ensures Shape(Finish(s, w, how))
  {
    ExecutingFiber(s, w);
    var s', f := Finish(s, w, how), s.workers[w].phase.fiber;
    assert TaskInv(s, f) && WorkerInv(s, w);
    forall u ensures TaskInv(s', u) { assert TaskInv(s, u); }
    forall v ensures WorkerInv(s', v) { assert WorkerInv(s, v); }
    forall op ensures CallInv(s', op) { assert CallInv(s, op); }
    forall a, b ensures PairInv(s', a, b) { assert PairInv(s, a, b); }
    forall u, op ensures ApartInv(s', u, op) { assert ApartInv(s, u, op); }
  }

  // ----- blocking calls ----------------------------------------------------

  /** `f` is a fiber that is executing right now. */
  ghost predicate Executes(s: State, f: nat)
  {
    f in s.tasks && s.tasks[f].kind.Fiber? && s.tasks[f].kind.state == EXEC
  }

  /** Nobody waits for event `e` of `fd` or is about to. */
  ghost predicate FreeSlot(s: State, fd: nat, e: Event)
  {
    && (forall op :: op in s.calls && s.calls[op].live ==> !(s.calls[op].fd == fd && s.calls[op].e == e))
    && (forall t :: t in s.tasks && s.tasks[t].kind.Call? ==> s.tasks[t].place != Waiting(fd, e))
  }

  lemma EnterIoSafe(s: State, f: nat, op: nat, fd: nat, e: Event)
    requires Invariant(s) && Executes(s, f) && s.tasks[f].kind.pc == User
    requires op !in s.calls && FreeSlot(s, fd, e)
    ensures Invariant(EnterIo(s, f, op, fd, e))
  {
    var s' := EnterIo(s, f, op, fd, e);
    assert TaskInv(s, f);
    SameTokens(s, s');
    hide Tokens, Inv, Counters;
    forall u ensures TaskInv(s', u) { assert TaskInv(s, u); }
    forall v ensures WorkerInv(s', v) { assert WorkerInv(s, v); }
    forall o ensures CallInv(s', o) { assert CallInv(s, o); }
    forall a, b ensures PairInv(s', a, b) { assert PairInv(s, a, b); }
    forall u, o ensures ApartInv(s', u, o) { assert ApartInv(s, u, o); }
  }

  lemma CountersSame(s: State, s': State)
    requires Counters(s) && s'.workers == s.workers && s'.active == s.active && s'.idle == s.idle
    ensures Counters(s')
  {
  }

  /** No place changed. */
  lemma SameTokens(s: State, s': State)
    requires Tokens(s) && s'.queue == s.queue && s'.io == s.io && s'.workers == s.workers && s'.timers == s.timers
    requires s'.tasks.Keys == s.tasks.Keys
    requires forall u :: u in s.tasks ==> s'.tasks[u].place == s.tasks[u].place
    requires forall u :: u in s.tasks ==>
               (s.tasks[u].kind.Call? || s'.tasks[u].kind.Call? ==> s'.tasks[u].kind == s.tasks[u].kind)
    ensures Tokens(s')
  {
    forall p, u ensures Refers(s', p, u) <==> u in s'.tasks && s'.tasks[u].place == p {
      assert Refers(s, p, u) <==> u in s.tasks && s.tasks[u].place == p;
    }
  }

  lemma ArmSafe(s: State, f: nat, j: nat)
    requires Invariant(s) && Executes(s, f) && s.tasks[f].kind.pc.InIo? && j !in s.tasks
    ensures Invariant(Arm(s, f, j))
  {
    var s' := Arm(s, f, j);
    assert TaskInv(s, f);
    assert Tokens(s') by {
      hide Shape, Inv, Counters;
      assert !Refers(s, Queued, j);
      forall p, u ensures Refers(s', p, u) <==> u in s'.tasks && s'.tasks[u].place == p {
        assert Refers(s, p, u) <==> u in s.tasks && s.tasks[u].place == p;
      }
    }
    hide Tokens, Inv, Counters;
    forall u ensures TaskInv(s', u) { assert TaskInv(s, u); }
    forall v ensures WorkerInv(s', v) { assert WorkerInv(s, v); }
    forall op ensures CallInv(s', op) { assert CallInv(s, op); }
    forall a, b ensures PairInv(s', a, b) { assert PairInv(s, a, b); }
    forall u, op ensures ApartInv(s', u, op) { assert ApartInv(s, u, op); }
  }

  /** A timer that may be cancelled without losing anybody: a timeout. */
  ghost predicate TimeoutOrNone(s: State, timer: Option<nat>)
  {
    timer.Some? ==> timer.value in s.tasks && s.tasks[timer.value].kind.Call? && s.tasks[timer.value].kind.cb.Timeout?
  }

  lemma DisarmSafe(s: State, timer: Option<nat>)
    requires Invariant(s) && TimeoutOrNone(s, timer)
    ensures Invariant(Disarm(s, timer))
  {
    if timer.Some? && timer.value in s.timers {
      var s' := Disarm(s, timer);
      DisarmTokens(s, timer);
      hide Tokens, Inv, Counters;
      forall u ensures TaskInv(s', u) { assert TaskInv(s, u); }
      forall v ensures WorkerInv(s', v) { assert WorkerInv(s, v); }
      forall op ensures CallInv(s', op) { assert CallInv(s, op); }
      forall a, b ensures PairInv(s', a, b) { assert PairInv(s, a, b); }
      forall u, op ensures ApartInv(s', u, op) { assert ApartInv(s, u, op); }
    }
  }

  lemma DisarmTokens(s: State, timer: Option<nat>)
    requires Tokens(s) && TimeoutOrNone(s, timer) && timer.Some? && timer.value in s.timers
    ensures Tokens(Disarm(s, timer))
  {
    var s' := Disarm(s, timer);
    assert Refers(s, InTimer, timer.value);
    forall p, u ensures Refers(s', p, u) <==> u in s'.tasks && s'.tasks[u].place == p {
      assert Refers(s, p, u) <==> u in s.tasks && s.tasks[u].place == p;
    }
  }

  lemma ReturnSafe(s: State, f: nat)
    requires Invariant(s) && Executes(s, f) && (s.tasks[f].kind.pc.InIo? || s.tasks[f].kind.pc.Woken?)
    ensures s.tasks[f].kind.pc.op in s.calls && Invariant(Return(s, f))
  {
    assert TaskInv(s, f);
    var s' := Return(s, f);
    SameTokens(s, s');
    hide Tokens, Inv, Counters;
    forall u ensures TaskInv(s', u) { assert TaskInv(s, u); }
    forall v ensures WorkerInv(s', v) { assert WorkerInv(s, v); }
    forall op ensures CallInv(s', op) { assert CallInv(s, op); }
    forall a, b ensures PairInv(s', a, b) { assert PairInv(s, a, b); }
    forall u, op ensures ApartInv(s', u, op) { assert ApartInv(s, u, op); }
  }

  /** Continuing after a park: the timer goes, and the call is over or tried again. */
  lemma ContinueSafe(s: State, f: nat)
    requires Invariant(s) && Executes(s, f) && s.tasks[f].kind.pc.Woken?
    ensures s.tasks[f].kind.pc.op in s.calls && s.tasks[f].kind.pc.timer != Some(f)
    ensures Invariant(Continue(s, f))
  {
    assert TaskInv(s, f);
    var timer := s.tasks[f].kind.pc.timer;
    DisarmSafe(s, timer);
    var s1 := Disarm(s, timer);
    if s.calls[s.tasks[f].kind.pc.op].cancelled {
      ReturnSafe(s1, f);
    } else {
      RetryInv(s1, f);
    }
  }

  lemma RetryInv(s: State, f: nat)
    requires Invariant(s) && Executes(s, f) && s.tasks[f].kind.pc.Woken?
    ensures Invariant(SetTask(s, f, s.tasks[f].(kind := s.tasks[f].kind.(pc := InIo(s.tasks[f].kind.pc.op, None)))))
  {
    assert TaskInv(s, f);
    var s' := SetTask(s, f, s.tasks[f].(kind := s.tasks[f].kind.(pc := InIo(s.tasks[f].kind.pc.op, None))));
    SameTokens(s, s');
    hide Tokens, Inv, Counters;
    forall u ensures TaskInv(s', u) { assert TaskInv(s, u); }
    forall v ensures WorkerInv(s', v) { assert WorkerInv(s, v); }
    forall op ensures CallInv(s', op) { assert CallInv(s, op); }
    forall a, b ensures PairInv(s', a, b) { assert PairInv(s, a, b); }
    forall u, op ensures ApartInv(s', u, op) { assert ApartInv(s, u, op); }
  }

  // ----- registration ------------------------------------------------------

  lemma PairOf(s: State, a: nat, b: nat)
    requires Shape(s)
    ensures PairInv(s, a, b)
  {
  }

  lemma ApartOf(s: State, t: nat, op: nat)
    requires Shape(s)
    ensures ApartInv(s, t, op)
  {
  }

  /** The slot of a call that is not registered is empty: a fiber waiting there
      would be in the same call, a callback is kept apart. */
  lemma SlotEmpty(s: State, f: nat)
    requires Invariant(s) && Executes(s, f) && s.tasks[f].kind.pc.InIo?
    ensures
      var op := s.tasks[f].kind.pc.op;
      && op in s.calls && s.tasks[f].kind.pc.timer != Some(f)
      && Waiter(s.io, s.calls[op].fd, s.calls[op].e) == None
      && !(s.calls[op].fd < |s.io.fds| && s.calls[op].e in s.io.fds[s.calls[op].fd].events)
  {
    assert TaskInv(s, f);
    var op := s.tasks[f].kind.pc.op;
    var c := s.calls[op];
    if Waiter(s.io, c.fd, c.e).Some? {
      var t := Waiter(s.io, c.fd, c.e).value;
      assert Refers(s, Waiting(c.fd, c.e), t);
      assert TaskInv(s, t);
      if s.tasks[t].kind.Fiber? {
        PairOf(s, op, s.tasks[t].kind.pc.op);
      } else {
        ApartOf(s, t, op);
      }
      assert false;
    }
    if c.fd < |s.io.fds| {
      assert FdOk(s.io.fds[c.fd]);
    }
  }

  /** addEvent in do_io never meets its already-registered assertion. */
  lemma RegisterSafe(s: State, f: nat, ok: bool)
    requires Invariant(s) && Executes(s, f) && s.tasks[f].kind.pc.InIo?
    ensures s.tasks[f].kind.pc.op in s.calls && s.tasks[f].kind.pc.timer != Some(f) && |s.io.fds| >= 2
    ensures Register(s, f, ok).Fine? && Invariant(Register(s, f, ok).value)
  {
    SlotEmpty(s, f);
    InvSize(s.io);
    assert TaskInv(s, f);
    var InIo(op, timer) := s.tasks[f].kind.pc;
    var c := s.calls[op];
    AddEventKeeps(s.io, c.fd, c.e, None, f, ok);
    var (io, rc) := AddEvent(s.io, c.fd, c.e, None, f, ok).value;
    forall fd', e' ensures Waiter(io, fd', e')
      == if ok && fd' == c.fd && e' == c.e then Some(f) else Waiter(s.io, fd', e')
    {
      AddEventWaiter(s.io, c.fd, c.e, None, f, ok, fd', e');
    }
    hide AddEvent, Inv, Waiter, Tokens, Shape, Counters, TaskInv, Return, Disarm;
    if rc == 0 {
      RegisteredInv(s, f, io);
    } else {
      RegisterFailed(s, f, io);
    }
  }

  /** addEvent failed: the timer is cancelled and the call returns. */
  lemma RegisterFailed(s: State, f: nat, io: IO)
    requires Invariant(s) && Executes(s, f) && s.tasks[f].kind.pc.InIo? && s.tasks[f].kind.pc.op in s.calls
    requires s.tasks[f].kind.pc.timer != Some(f)
    requires Inv(io) && forall fd, e :: Waiter(io, fd, e) == Waiter(s.io, fd, e)
    ensures Invariant(Return(Disarm(s.(io := io), s.tasks[f].kind.pc.timer), f))
  {
    assert TaskInv(s, f);
    hide Inv, Waiter, Tokens, Counters;
    var timer := s.tasks[f].kind.pc.timer;
    IoInv(s, io);
    DisarmSafe(s.(io := io), timer);
    ReturnSafe(Disarm(s.(io := io), timer), f);
  }

  lemma IoInv(s: State, io: IO)
    requires Invariant(s) && Inv(io) && forall fd, e :: Waiter(io, fd, e) == Waiter(s.io, fd, e)
    ensures Invariant(s.(io := io))
  {
    var s' := s.(io := io);
    CountersSame(s, s');
    assert Tokens(s') by {
      hide Shape, Inv, Counters, Waiter;
      forall p, u ensures Refers(s', p, u) <==> u in s'.tasks && s'.tasks[u].place == p {
        assert Refers(s, p, u) <==> u in s.tasks && s.tasks[u].place == p;
      }
    }
    hide Tokens, Inv, Counters;
    forall u ensures TaskInv(s', u) { assert TaskInv(s, u); }
    forall v ensures WorkerInv(s', v) { assert WorkerInv(s, v); }
    forall op ensures CallInv(s', op) { assert CallInv(s, op); }
    forall a, b ensures PairInv(s', a, b) { assert PairInv(s, a, b); }
    forall u, op ensures ApartInv(s', u, op) { assert ApartInv(s, u, op); }
  }

  lemma RegisteredInv(s: State, f: nat, io: IO)
    requires Invariant(s) && Executes(s, f) && s.tasks[f].kind.pc.InIo? && Inv(io)
    requires s.tasks[f].kind.pc.op in s.calls
    requires
      var c := s.calls[s.tasks[f].kind.pc.op];
      && Waiter(s.io, c.fd, c.e) == None
      && forall fd, e :: Waiter(io, fd, e) == if fd == c.fd && e == c.e then Some(f) else Waiter(s.io, fd, e)
    ensures
      var InIo(op, timer) := s.tasks[f].kind.pc;
      Invariant(SetTask(s.(io := io), f, Task(Waiting(s.calls[op].fd, s.calls[op].e), s.tasks[f].kind.(
        pc := Registered(op, timer), regs := s.tasks[f].kind.regs + 1))))
  {
    var InIo(op, timer) := s.tasks[f].kind.pc;
    var c := s.calls[op];
    assert TaskInv(s, f);
    var s' := SetTask(s.(io := io), f, Task(Waiting(c.fd, c.e), s.tasks[f].kind.(
      pc := Registered(op, timer), regs := s.tasks[f].kind.regs + 1)));
    CountersSame(s, s');
    RegisteredTokens(s, f, io, s');
    hide Tokens, Inv, Counters, Waiter;
    forall u ensures TaskInv(s', u) { assert TaskInv(s, u); }
    forall v ensures WorkerInv(s', v) { assert WorkerInv(s, v); }
    forall o ensures CallInv(s', o) { assert CallInv(s, o); }
    forall a, b ensures PairInv(s', a, b) { assert PairInv(s, a, b); }
    forall u, o ensures ApartInv(s', u, o) { assert ApartInv(s, u, o); }
  }

  lemma RegisteredTokens(s: State, f: nat, io: IO, s': State)
    requires Tokens(s) && f in s.tasks && s.tasks[f].kind.Fiber? && s.tasks[f].place.Running?
    requires f in s'.tasks && s'.tasks[f].place.Waiting? && s'.tasks[f].kind.Fiber?
    requires s' == SetTask(s.(io := io), f, s'.tasks[f])
    requires
      var p := s'.tasks[f].place;
      && Waiter(s.io, p.fd, p.e) == None
      && forall fd, e :: Waiter(io, fd, e) == if fd == p.fd && e == p.e then Some(f) else Waiter(s.io, fd, e)
    ensures Tokens(s')
  {
    hide Waiter;
    forall p, u ensures Refers(s', p, u) <==> u in s'.tasks && s'.tasks[u].place == p {
      assert Refers(s, p, u) <==> u in s.tasks && s.tasks[u].place == p;
    }
  }

  // ----- sleeping and timers -----------------------------------------------

  lemma SleepSafe(s: State, f: nat, j: nat)
    requires Invariant(s) && Executes(s, f) && s.tasks[f].kind.pc == User && j !in s.tasks
    ensures Invariant(Sleep(s, f, j))
  {
    var s' := Sleep(s, f, j);
    assert TaskInv(s, f);
    CountersSame(s, s');
    SleepTokens(s, f, j);
    hide Tokens, Inv, Counters;
    forall u ensures TaskInv(s', u) { assert TaskInv(s, u); }
    forall v ensures WorkerInv(s', v) { assert WorkerInv(s, v); }
    forall op ensures CallInv(s', op) { assert CallInv(s, op); }
    forall a, b ensures PairInv(s', a, b) { assert PairInv(s, a, b); }
    forall u, op ensures ApartInv(s', u, op) { assert ApartInv(s, u, op); }
  }

  lemma SleepTokens(s: State, f: nat, j: nat)
    requires Tokens(s) && f in s.tasks && s.tasks[f].kind.Fiber? && s.tasks[f].place.Running? && j !in s.tasks
    ensures Tokens(Sleep(s, f, j))
  {
    var s' := Sleep(s, f, j);
    assert !Refers(s, InTimer, j) && !Refers(s, Queued, j);
    forall p, u ensures Refers(s', p, u) <==> u in s'.tasks && s'.tasks[u].place == p {
      assert Refers(s, p, u) <==> u in s.tasks && s.tasks[u].place == p;
      assert Refers(s, OfCall(j), u) <==> u in s.tasks && s.tasks[u].place == OfCall(j);
    }
  }

  lemma ExpireSafe(s: State, j: nat)
    requires Invariant(s) && j in s.timers
    ensures j in s.tasks && Invariant(Expire(s, j))
  {
    assert Refers(s, InTimer, j);
    var s' := Expire(s, j);
    assert TaskInv(s, j);
    CountersSame(s, s');
    ExpireTokens(s, j);
    hide Tokens, Inv, Counters;
    forall u ensures TaskInv(s', u) { assert TaskInv(s, u); }
    forall v ensures WorkerInv(s', v) { assert WorkerInv(s, v); }
    forall op ensures CallInv(s', op) { assert CallInv(s, op); }
    forall a, b ensures PairInv(s', a, b) { assert PairInv(s, a, b); }
    forall u, op ensures ApartInv(s', u, op) { assert ApartInv(s, u, op); }
  }

  lemma ExpireTokens(s: State, j: nat)
    requires Tokens(s) && j in s.timers && j in s.tasks && s.tasks[j].place == InTimer
    ensures Tokens(Expire(s, j))
  {
    var s' := Expire(s, j);
    assert !Refers(s, Queued, j);
    forall p, u ensures Refers(s', p, u) <==> u in s'.tasks && s'.tasks[u].place == p {
      assert Refers(s, p, u) <==> u in s.tasks && s.tasks[u].place == p;
      InQueuePush(s.queue, j, -1, u);
    }
  }

  // ----- events ------------------------------------------------------------

  /** Handing over one waiter: from its context to the run queue. */
  lemma WakeTokens(s: State, fd: nat, e: Event, t: nat, io: IO)
    requires Tokens(s) && Waiter(s.io, fd, e) == Some(t)
    requires forall fd', e' :: Waiter(io, fd', e') == if fd' == fd && e' == e then None else Waiter(s.io, fd', e')
    ensures t in s.tasks && s.tasks[t].place == Waiting(fd, e) && Tokens(WakeTask(s.(io := io), t))
  {
    hide Waiter;
    assert Refers(s, Waiting(fd, e), t);
    var s' := WakeTask(s.(io := io), t);
    assert !Refers(s, Queued, t);
    forall p, u ensures Refers(s', p, u) <==> u in s'.tasks && s'.tasks[u].place == p {
      assert Refers(s, p, u) <==> u in s.tasks && s.tasks[u].place == p;
      InQueuePush(s.queue, t, -1, u);
    }
  }

  lemma WakeShape(s: State, t: nat)
    requires Shape(s) && t in s.tasks && s.tasks[t].place.Waiting?
    ensures Shape(WakeTask(s, t))
  {
    var s' := WakeTask(s, t);
    assert TaskInv(s, t);
    forall u ensures TaskInv(s', u) { assert TaskInv(s, u); }
    forall v ensures WorkerInv(s', v) { assert WorkerInv(s, v); }
    forall op ensures CallInv(s', op) { assert CallInv(s, op); }
    forall a, b ensures PairInv(s', a, b) { assert PairInv(s, a, b); }
    forall u, op ensures ApartInv(s', u, op) { assert ApartInv(s, u, op); }
  }

  lemma WakeOne(s: State, fd: nat, e: Event, t: nat, io: IO)
    requires Tokens(s) && Shape(s) && Counters(s) && Waiter(s.io, fd, e) == Some(t)
    requires forall fd', e' :: Waiter(io, fd', e') == if fd' == fd && e' == e then None else Waiter(s.io, fd', e')
    ensures
      var s' := WakeTask(s.(io := io), t);
      t in s.tasks && Tokens(s') && Shape(s') && Counters(s') && s'.io == io
  {
    WakeTokens(s, fd, e, t, io);
    ShapeIo(s, io);
    WakeShape(s.(io := io), t);
    CountersSame(s, WakeTask(s.(io := io), t));
  }

  lemma ShapeIo(s: State, io: IO)
    requires Shape(s)
    ensures Shape(s.(io := io))
  {
    var s' := s.(io := io);
    forall u ensures TaskInv(s', u) { assert TaskInv(s, u); }
    forall v ensures WorkerInv(s', v) { assert WorkerInv(s, v); }
    forall op ensures CallInv(s', op) { assert CallInv(s, op); }
    forall a, b ensures PairInv(s', a, b) { assert PairInv(s, a, b); }
    forall u, op ensures ApartInv(s', u, op) { assert ApartInv(s, u, op); }
  }

  /** A table in which only the context of (`fd`, `e`) is emptied. */
  function Emptied(io: IO, fd: nat, e: Event): IO
    requires fd < |io.fds|
  {
    io.(fds := io.fds[fd := io.fds[fd].Put(e, NoCtx)])
  }

  lemma EmptiedWaiters(io: IO, fd: nat, e: Event)
    requires fd < |io.fds|
    ensures forall fd', e' :: Waiter(Emptied(io, fd, e), fd', e')
              == if fd' == fd && e' == e then None else Waiter(io, fd', e')
  {
  }

  lemma FiredWaiters(io: IO, fd: nat, es: set<Event>, io': IO, ws: seq<Wake>)
    requires Fired(io, fd, es, io', ws)
    ensures forall fd', e' :: Waiter(io', fd', e')
              == if fd' == fd && e' in es then None else Waiter(io, fd', e')
    ensures READ in es ==> |ws| > 0 && Waiter(io, fd, READ) == Some(WakeId(ws[0]))
    ensures WRITE in es ==> |ws| > 0 && Waiter(io, fd, WRITE) == Some(WakeId(ws[|ws| - 1]))
  {
    hide Inv;
  }

  /** Whatever set of events of a descriptor is fired, every waiter moves from its
      context to the run queue. */
  lemma HandoverSafe(s: State, fd: nat, es: set<Event>, io: IO, ws: seq<Wake>)
    requires Invariant(s) && Inv(io) && Fired(s.io, fd, es, io, ws)
    ensures Invariant(WakeAll(s.(io := io), ws))
  {
    FiredWaiters(s.io, fd, es, io, ws);
    EventSets(es);
    if es == {} {
      assert |ws| == 0;
      hide Fired, Inv;
      IoInv(s, io);
    } else if es == {READ} {
      assert |ws| == 1 && ws[1..] == [];
      hide Fired, Inv, Waiter, Tokens, Shape, Counters, WakeTask;
      WakeOne(s, fd, READ, WakeId(ws[0]), io);
    } else if es == {WRITE} {
      assert |ws| == 1 && ws[1..] == [];
      hide Fired, Inv, Waiter, Tokens, Shape, Counters, WakeTask;
      WakeOne(s, fd, WRITE, WakeId(ws[0]), io);
    } else {
      HandoverBoth(s, fd, io, ws);
    }
  }

  lemma HandoverBoth(s: State, fd: nat, io: IO, ws: seq<Wake>)
    requires Invariant(s) && Inv(io) && Fired(s.io, fd, {READ, WRITE}, io, ws)
    ensures Invariant(WakeAll(s.(io := io), ws))
  {
    FiredWaiters(s.io, fd, {READ, WRITE}, io, ws);
    assert ws == [ws[0], ws[1]];
    WakeTwo(s.(io := io), ws[0], ws[1]);
    var t, u := WakeId(ws[0]), WakeId(ws[1]);
    var io1 := Emptied(s.io, fd, READ);
    EmptiedWaiters(s.io, fd, READ);
    hide Fired, Inv, Waiter, Emptied, Tokens, Shape, Counters;
    WakeOne(s, fd, READ, t, io1);
    var s1 := WakeTask(s.(io := io1), t);
    assert s1.(io := io) == WakeTask(s.(io := io), t);
    WakeOne(s1, fd, WRITE, u, io);
  }

  lemma WakeTwo(s: State, a: Wake, b: Wake)
    ensures WakeAll(s, [a, b]) == WakeTask(WakeTask(s, WakeId(a)), WakeId(b))
  {
    hide WakeTask;
    var s1 := WakeTask(s, WakeId(a));
    assert [a, b][0] == a && [a, b][1..] == [b] && [b][0] == b && [b][1..] == [];
    assert WakeAll(s1, [b]) == WakeAll(WakeTask(s1, WakeId(b)), []);
  }

  /** A report goes beyond what is registered, next to something that is, and the
      kernel accepts the change: the assertion of triggerEvent fires. */
  predicate Beyond(s: State, fd: nat, ready: set<Event>, ok: bool)
  {
    ok && fd < |s.io.fds| && s.io.fds[fd].events * ready != {} && !(ready <= s.io.fds[fd].events)
  }

  lemma DeliverSafe(s: State, fd: nat, ready: set<Event>, ok: bool)
    requires Invariant(s) && fd < |s.io.fds|
    ensures Handover(s, Dispatch(s.io, fd, ready, ok)).Abort? <==> Beyond(s, fd, ready, ok)
    ensures !Beyond(s, fd, ready, ok) ==> Invariant(Handover(s, Dispatch(s.io, fd, ready, ok)).value)
  {
    DispatchKeeps(s.io, fd, ready, ok);
    if !Beyond(s, fd, ready, ok) {
      var (io, ws) := Dispatch(s.io, fd, ready, ok).value;
      if ok && s.io.fds[fd].events * ready != {} { HandoverSafe(s, fd, ready, io, ws); }
    }
  }

  lemma CancelEventSafe(s: State, fd: nat, e: Event, ok: bool)
    requires Invariant(s)
    ensures Handover(s, CancelEvent(s.io, fd, e, ok)).Fine?
    ensures Invariant(Handover(s, CancelEvent(s.io, fd, e, ok)).value)
  {
    CancelEventKeeps(s.io, fd, e, ok);
    var (io, ws) := CancelEvent(s.io, fd, e, ok).value;
    if ok && fd < |s.io.fds| && e in s.io.fds[fd].events { HandoverSafe(s, fd, {e}, io, ws); }
  }

  lemma CancelAllSafe(s: State, fd: nat, ok: bool)
    requires Invariant(s)
    ensures Handover(s, CancelAll(s.io, fd, ok)).Fine?
    ensures Invariant(Handover(s, CancelAll(s.io, fd, ok)).value)
  {
    CancelAllKeeps(s.io, fd, ok);
    var (io, ws) := CancelAll(s.io, fd, ok).value;
    if ok && fd < |s.io.fds| && s.io.fds[fd].events != {} {
      HandoverSafe(s, fd, s.io.fds[fd].events, io, ws);
    }
  }

  lemma AddCallSafe(s: State, fd: nat, e: Event, j: nat, ok: bool)
    requires Invariant(s) && j !in s.tasks && FreeSlot(s, fd, e) && Waiter(s.io, fd, e) == None
    ensures |s.io.fds| >= 2
    ensures AddCall(s, fd, e, j, ok).Fine? && Invariant(AddCall(s, fd, e, j, ok).value)
  {
    InvSize(s.io);
    NoWaiterNoBit(s.io, fd, e);
    AddEventKeeps(s.io, fd, e, Some(j), 0, ok);
    var (io, rc) := AddEvent(s.io, fd, e, Some(j), 0, ok).value;
    forall fd', e' ensures Waiter(io, fd', e')
      == if ok && fd' == fd && e' == e then Some(j) else Waiter(s.io, fd', e')
    {
      AddEventWaiter(s.io, fd, e, Some(j), 0, ok, fd', e');
    }
    hide AddEvent, Inv, Waiter;
    if rc == 0 {
      AddedInv(s, fd, e, j, io);
    } else {
      IoInv(s, io);
    }
  }

  lemma NoWaiterNoBit(io: IO, fd: nat, e: Event)
    requires Inv(io) && Waiter(io, fd, e) == None
    ensures !(fd < |io.fds| && e in io.fds[fd].events)
  {
    if fd < |io.fds| { assert FdOk(io.fds[fd]); }
  }

  lemma AddedTokens(s: State, fd: nat, e: Event, j: nat, io: IO)
    requires Tokens(s) && j !in s.tasks && Waiter(s.io, fd, e) == None
    requires forall fd', e' :: Waiter(io, fd', e') == if fd' == fd && e' == e then Some(j) else Waiter(s.io, fd', e')
    ensures Tokens(SetTask(s.(io := io), j, Task(Waiting(fd, e), Call(UserCall))))
  {
    hide Waiter;
    var s' := SetTask(s.(io := io), j, Task(Waiting(fd, e), Call(UserCall)));
    assert !Refers(s, Queued, j);
    forall p, u ensures Refers(s', p, u) <==> u in s'.tasks && s'.tasks[u].place == p {
      assert Refers(s, p, u) <==> u in s.tasks && s.tasks[u].place == p;
    }
  }

  lemma AddedInv(s: State, fd: nat, e: Event, j: nat, io: IO)
    requires Invariant(s) && j !in s.tasks && FreeSlot(s, fd, e) && Inv(io) && Waiter(s.io, fd, e) == None
    requires forall fd', e' :: Waiter(io, fd', e') == if fd' == fd && e' == e then Some(j) else Waiter(s.io, fd', e')
    ensures Invariant(SetTask(s.(io := io), j, Task(Waiting(fd, e), Call(UserCall))))
  {
    var s' := SetTask(s.(io := io), j, Task(Waiting(fd, e), Call(UserCall)));
    hide Tokens, Inv, Counters, Waiter;
    CountersSame(s, s');
    AddedTokens(s, fd, e, j, io);
    forall u ensures TaskInv(s', u) { assert TaskInv(s, u); }
    forall v ensures WorkerInv(s', v) { assert WorkerInv(s, v); }
    forall op ensures CallInv(s', op) { assert CallInv(s, op); }
    forall a, b ensures PairInv(s', a, b) { assert PairInv(s, a, b); }
    forall u, op ensures ApartInv(s', u, op) { assert ApartInv(s, u, op); }
  }

  /** delEvent of a user callback, or of an event nobody waits for. */
  lemma DropCallSafe(s: State, fd: nat, e: Event, ok: bool)
    requires Invariant(s)
    requires Waiter(s.io, fd, e).Some? ==> !IsFiber(s, Waiter(s.io, fd, e).value)
    ensures Invariant(DropCall(s, fd, e, ok))
  {
    var (io, done) := DelEvent(s.io, fd, e, ok);
    DelEventKeeps(s.io, fd, e, ok);
    forall fd', e' ensures Waiter(io, fd', e')
      == if ok && fd' == fd && e' == e then None else Waiter(s.io, fd', e')
    {
      DelEventWaiter(s.io, fd, e, ok, fd', e');
    }
    if Waiter(s.io, fd, e).Some? { WaiterRegistered(s.io, fd, e); }
    hide DelEvent, Inv, Waiter;
    match Waiter(s.io, fd, e)
    case None => IoInv(s, io);
    case Some(j) =>
      WaiterTask(s, fd, e);
      if done { DroppedInv(s, fd, e, j, io); } else { IoInv(s, io); }
  }

  predicate IsFiber(s: State, t: nat) { t in s.tasks && s.tasks[t].kind.Fiber? }

  lemma WaiterRegistered(io: IO, fd: nat, e: Event)
    requires Inv(io) && Waiter(io, fd, e).Some?
    ensures fd < |io.fds| && e in io.fds[fd].events
  {
    assert FdOk(io.fds[fd]);
  }

  lemma WaiterTask(s: State, fd: nat, e: Event)
    requires Tokens(s) && Waiter(s.io, fd, e).Some?
    ensures var j := Waiter(s.io, fd, e).value; j in s.tasks && s.tasks[j].place == Waiting(fd, e)
  {
    assert Refers(s, Waiting(fd, e), Waiter(s.io, fd, e).value);
  }

  lemma DroppedTokens(s: State, fd: nat, e: Event, j: nat, io: IO)
    requires Tokens(s) && Waiter(s.io, fd, e) == Some(j) && j in s.tasks && s.tasks[j].place == Waiting(fd, e)
    requires s.tasks[j].kind == Call(UserCall)
    requires forall fd', e' :: Waiter(io, fd', e') == if fd' == fd && e' == e then None else Waiter(s.io, fd', e')
    ensures Tokens(SetTask(s.(io := io), j, s.tasks[j].(place := Gone)))
  {
    hide Waiter;
    var s' := SetTask(s.(io := io), j, s.tasks[j].(place := Gone));
    forall p, u ensures Refers(s', p, u) <==> u in s'.tasks && s'.tasks[u].place == p {
      assert Refers(s, p, u) <==> u in s.tasks && s.tasks[u].place == p;
    }
  }

  lemma DroppedInv(s: State, fd: nat, e: Event, j: nat, io: IO)
    requires Invariant(s) && Inv(io) && Waiter(s.io, fd, e) == Some(j)
    requires j in s.tasks && s.tasks[j].kind.Call? && s.tasks[j].place == Waiting(fd, e)
    requires forall fd', e' :: Waiter(io, fd', e') == if fd' == fd && e' == e then None else Waiter(s.io, fd', e')
    ensures Invariant(SetTask(s.(io := io), j, s.tasks[j].(place := Gone)))
  {
    var s' := SetTask(s.(io := io), j, s.tasks[j].(place := Gone));
    assert TaskInv(s, j);
    hide Tokens, Inv, Counters, Waiter;
    CountersSame(s, s');
    DroppedTokens(s, fd, e, j, io);
    forall u ensures TaskInv(s', u) { assert TaskInv(s, u); }
    forall v ensures WorkerInv(s', v) { assert WorkerInv(s, v); }
    forall op ensures CallInv(s', op) { assert CallInv(s, op); }
    forall a, b ensures PairInv(s', a, b) { assert PairInv(s, a, b); }
    forall u, op ensures ApartInv(s', u, op) { assert ApartInv(s, u, op); }
  }

  /** delEvent of an event a fiber waits for loses the fiber: nothing refers to it any
      more. This is why the moves of a run leave it out. */
  lemma DelEventLoses(s: State, fd: nat, e: Event, f: nat)
    requires Invariant(s) && Waiter(s.io, fd, e) == Some(f) && IsFiber(s, f)
    ensures DelEvent(s.io, fd, e, true).1
    ensures
      var s' := s.(io := DelEvent(s.io, fd, e, true).0);
      forall p: Place :: !p.Gone? && !p.Running? ==> !Refers(s', p, f)
  {
    WaiterRegistered(s.io, fd, e);
    WaiterTask(s, fd, e);
    DelEventKeeps(s.io, fd, e, true);
    var s' := s.(io := DelEvent(s.io, fd, e, true).0);
    forall p: Place | !p.Gone? && !p.Running? ensures !Refers(s', p, f) {
      if p.Waiting? { DelEventWaiter(s.io, fd, e, true, p.fd, p.e); }
      assert Refers(s, p, f) <==> s.tasks[f].place == p;
      hide DelEvent, Inv, Waiter;
    }
  }

  // ----- timer callbacks ---------------------------------------------------

  /** The part every timer callback shares: the entry is used up, the callback fiber
      ran and was reset, the worker scans again. */
  function CallDone(s: State, w: nat, g: nat): State
    requires CallFiber(s, w, g) && s.workers[w].phase.Holding?
    requires s.workers[w].phase.task in s.tasks && CallFiberTask(s, g).kind.Fiber?
  {
    var t, x := s.workers[w].phase.task, CallFiberTask(s, g);
    s.(tasks := s.tasks[t := s.tasks[t].(place := Gone)]
                       [g := Task(Gone, x.kind.(state := INIT, pc := User, home := Some(w)))],
       workers := s.workers[w := Worker(Scanning, Some(g))], active := s.active - 1)
  }

  lemma CallDoneShape(s: State, w: nat, g: nat)
    requires Tokens(s) && Shape(s) && CallFiber(s, w, g) && s.workers[w].phase.Holding?
    requires s.workers[w].phase.task in s.tasks && s.tasks[s.workers[w].phase.task].kind.Call?
    ensures CallFiberTask(s, g).kind.Fiber? && Shape(CallDone(s, w, g))
  {
    CallFiberFree(s, w, g);
    hide Tokens;
    var s' := CallDone(s, w, g);
    assert TaskInv(s, g) && WorkerInv(s, w) && TaskInv(s, s.workers[w].phase.task);
    forall u ensures TaskInv(s', u) { assert TaskInv(s, u); }
    forall v ensures WorkerInv(s', v) { assert WorkerInv(s, v); }
    forall op ensures CallInv(s', op) { assert CallInv(s, op); }
    forall a, b ensures PairInv(s', a, b) { assert PairInv(s, a, b); }
    forall u, op ensures ApartInv(s', u, op) { assert ApartInv(s, u, op); }
  }

  lemma CallDoneTokens(s: State, w: nat, g: nat)
    requires Tokens(s) && CallFiber(s, w, g) && s.workers[w].phase.Holding?
    requires s.workers[w].phase.task in s.tasks && s.tasks[s.workers[w].phase.task].kind.Call?
    requires !s.tasks[s.workers[w].phase.task].kind.cb.WakeUp?
    requires CallFiberTask(s, g).kind.Fiber? && CallFiberTask(s, g).place == Gone
    ensures Tokens(CallDone(s, w, g))
  {
    HeldTask(s, w);
    var s' := CallDone(s, w, g);
    forall p, u ensures Refers(s', p, u) <==> u in s'.tasks && s'.tasks[u].place == p {
      assert Refers(s, p, u) <==> u in s.tasks && s.tasks[u].place == p;
      assert Refers(s, p, g) <==> g in s.tasks && s.tasks[g].place == p;
    }
  }

  /** The timeout of a blocking call: it cancels the event of a live call once. */
  lemma TimeoutSafe(s: State, w: nat, g: nat, ok: bool)
    requires Invariant(s) && CallFiber(s, w, g) && s.workers[w].phase.Holding?
    requires s.workers[w].phase.task in s.tasks && s.tasks[s.workers[w].phase.task].kind.Call?
    requires s.tasks[s.workers[w].phase.task].kind.cb.Timeout?
    ensures TimerCall(s, w, g, ok).Fine? && Invariant(TimerCall(s, w, g, ok).value)
  {
    CallFiberFree(s, w, g);
    CallDoneShape(s, w, g);
    CallDoneTokens(s, w, g);
    var s1 := CallDone(s, w, g);
    CountersUpdate(s, w, s1.workers[w], s1);
    var op := s.tasks[s.workers[w].phase.task].kind.cb.op;
    if op in s.calls && s.calls[op].live && !s.calls[op].cancelled {
      CancelledInv(s1, op);
      CancelEventSafe(s1.(calls := s.calls[op := s.calls[op].(cancelled := true)]), s.calls[op].fd, s.calls[op].e, ok);
    }
  }

  lemma CancelledInv(s: State, o: nat)
    requires Invariant(s) && o in s.calls
    ensures Invariant(s.(calls := s.calls[o := s.calls[o].(cancelled := true)]))
  {
    var s' := s.(calls := s.calls[o := s.calls[o].(cancelled := true)]);
    CountersSame(s, s');
    SameTokens(s, s');
    hide Tokens, Inv, Counters;
    forall u ensures TaskInv(s', u) { assert TaskInv(s, u); }
    forall v ensures WorkerInv(s', v) { assert WorkerInv(s, v); }
    forall op ensures CallInv(s', op) { assert CallInv(s, op); }
    forall a, b ensures PairInv(s', a, b) { assert PairInv(s, a, b); }
    forall u, op ensures ApartInv(s', u, op) { assert ApartInv(s, u, op); }
  }

  /** The end of a sleep: the reference passes from the callback to the queue. */
  lemma WakeUpSafe(s: State, w: nat, g: nat, ok: bool)
    requires Invariant(s) && CallFiber(s, w, g) && s.workers[w].phase.Holding?
    requires s.workers[w].phase.task in s.tasks && s.tasks[s.workers[w].phase.task].kind.Call?
    requires s.tasks[s.workers[w].phase.task].kind.cb.WakeUp?
    ensures TimerCall(s, w, g, ok).Fine? && Invariant(TimerCall(s, w, g, ok).value)
  {
    var t := s.workers[w].phase.task;
    var f := s.tasks[t].kind.cb.fiber;
    HeldTask(s, w);
    assert Refers(s, OfCall(t), f);
    assert TaskInv(s, f);
    CallFiberFree(s, w, g);
    CallDoneShape(s, w, g);
    var s1 := CallDone(s, w, g);
    assert f != g && f != t;
    var s' := Push(SetTask(s1, f, s1.tasks[f].(place := Queued)), f, -1);
    CountersUpdate(s, w, s'.workers[w], s');
    WakeUpTokens(s, w, g, s');
    WakeUpShape(s1, f);
  }

  lemma WakeUpShape(s: State, f: nat)
    requires Shape(s) && f in s.tasks && s.tasks[f].kind.Fiber? && s.tasks[f].place.OfCall?
    ensures Shape(Push(SetTask(s, f, s.tasks[f].(place := Queued)), f, -1))
  {
    var s' := Push(SetTask(s, f, s.tasks[f].(place := Queued)), f, -1);
    assert TaskInv(s, f);
    forall u ensures TaskInv(s', u) { assert TaskInv(s, u); }
    forall v ensures WorkerInv(s', v) { assert WorkerInv(s, v); }
    forall op ensures CallInv(s', op) { assert CallInv(s, op); }
    forall a, b ensures PairInv(s', a, b) { assert PairInv(s, a, b); }
    forall u, op ensures ApartInv(s', u, op) { assert ApartInv(s, u, op); }
  }

  lemma WakeUpTokens(s: State, w: nat, g: nat, s': State)
    requires Tokens(s) && CallFiber(s, w, g) && s.workers[w].phase.Holding?
    requires s.workers[w].phase.task in s.tasks && s.tasks[s.workers[w].phase.task].kind.Call?
    requires s.tasks[s.workers[w].phase.task].kind.cb.WakeUp?
    requires CallFiberTask(s, g).kind.Fiber? && CallFiberTask(s, g).place == Gone
    requires
      var t := s.workers[w].phase.task;
      var f := s.tasks[t].kind.cb.fiber;
      var s1 := CallDone(s, w, g);
      && f in s.tasks && s.tasks[f].kind.Fiber? && f != g && f in s1.tasks
      && s' == Push(SetTask(s1, f, s1.tasks[f].(place := Queued)), f, -1)
    ensures Tokens(s')
  {
    var t := s.workers[w].phase.task;
    var f := s.tasks[t].kind.cb.fiber;
    HeldTask(s, w);
    assert Refers(s, OfCall(t), f) && !Refers(s, Queued, f);
    forall p, u ensures Refers(s', p, u) <==> u in s'.tasks && s'.tasks[u].place == p {
      assert Refers(s, p, u) <==> u in s.tasks && s.tasks[u].place == p;
      assert Refers(s, p, g) <==> g in s.tasks && s.tasks[g].place == p;
      InQueuePush(s.queue, f, -1, u);
    }
  }
}
