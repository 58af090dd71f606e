/**
 The event half of the I/O manager as it updates its tables: every method is
 proved to do what module `Events` says. `kernel` stands for the epoll instance,
 `ok` for its answer.
 */
module IOManager {
  import opened Options
  import opened Events

  class IOManager {
    var fds: seq<Fd>
    var pending: int
    var kernel: map<nat, set<Event>>
    var queue: seq<Wake>  // what was handed to the scheduler

    ghost function AsIO(): IO
      reads this
    {
      IO(fds, kernel, pending)
    }

    constructor ()
      ensures AsIO() == Initial() && Inv(AsIO()) && queue == []
    {
      fds, pending, kernel, queue := seq(32, _ => NoFd), 0, map[], [];
      new;
      InitialInv();
    }

    /** epoll_ctl. */
    method Ctl(op: Ctl, fd: nat, es: set<Event>, ok: bool) returns (rt: int)
      modifies this`kernel
      ensures rt == 0 <==> EpollCtl(old(kernel), op, fd, es, ok).Some?
      ensures rt == 0 <==> ok && (op.ADD? <==> fd !in old(kernel))
      ensures rt == 0 ==> kernel == if op.DEL? then old(kernel) - {fd} else old(kernel)[fd := es]
      ensures kernel == if rt == 0 then EpollCtl(old(kernel), op, fd, es, ok).value else old(kernel)
    {
      var r := EpollCtl(kernel, op, fd, es, ok);
      match r {
        case None => rt := -1;
        case Some(k) => rt, kernel := 0, k;
      }
    }

    /** contextResize: cut the vector or fill it up with fresh contexts. */
    method ContextResize(n: nat)
      modifies this`fds
      ensures |fds| == n
      ensures forall i :: 0 <= i < n ==> fds[i] == if i < |old(fds)| then old(fds)[i] else NoFd
    {
      if n < |fds| {
        fds := fds[..n];
      }
      while |fds| < n
        invariant |fds| <= n
        invariant forall i :: 0 <= i < |fds| ==> fds[i] == if i < |old(fds)| then old(fds)[i] else NoFd
        decreases n - |fds|
      {
        fds := fds + [NoFd];
      }
    }

    /** triggerEvent: false when an assertion fails. */
    method TriggerEvent(fd: nat, e: Event) returns (ok: bool)
      requires fd < |fds|
      modifies this`fds, this`queue
      ensures ok <==> e in old(fds)[fd].events && old(fds)[fd].Get(e).scheduler
      ensures ok ==>
                var x := old(fds)[fd].Get(e);
                && queue == old(queue) + [if x.cb.Some? then Wake(None, x.cb) else Wake(x.fiber, None)]
                && |fds| == |old(fds)| && fds == old(fds)[fd := fds[fd]]
                && fds[fd].events == old(fds)[fd].events - {e}
                && !fds[fd].Get(e).scheduler
      ensures ok <==> Trigger(old(fds)[fd], e).Fine?
      ensures ok ==> var (c, w) := Trigger(old(fds)[fd], e).value;
                     fds == old(fds)[fd := c] && queue == old(queue) + [w]
    {
      var c := fds[fd];
      if e !in c.events {
        return false;
      }
      c := c.(events := c.events - {e});
      var x := c.Get(e);
      if !x.scheduler {
        return false;
      }
      if x.cb.Some? {
        queue := queue + [Wake(None, x.cb)];
        x := x.(cb := None);
      } else {
        queue := queue + [Wake(x.fiber, None)];
        x := x.(fiber := None);
      }
      x := x.(scheduler := false);
      fds := fds[fd := c.Put(e, x)];
      ok := true;
    }

    method AddEventFor(fd: nat, e: Event, cb: Option<nat>, current: nat, ok: bool) returns (r: Outcome<int>)
      requires |fds| >= 2
      modifies this`fds, this`kernel, this`pending
      ensures match AddEvent(old(AsIO()), fd, e, cb, current, ok)
              case Abort => r == Abort
              case Fine((io, rc)) => r == Fine(rc) && AsIO() == io
    {
      ghost var grown := Grow(fds, fd);
      if |fds| <= fd {
        ContextResize(fd + fd / 2);
      }
      assert fds == grown;
      var c := fds[fd];
      if e in c.events {
        return Abort;
      }
      var op := if c.events != {} then MOD else ADD;
      var rt := Ctl(op, fd, c.events + {e}, ok);
      if rt != 0 {
        return Fine(-1);
      }
      pending := pending + 1;
      if c.Get(e) != NoCtx {
        return Abort;
      }
      var x := Ctx(true, None, None);
      if cb.Some? {
        x := x.(cb := cb);
      } else {
        x := x.(fiber := Some(current));
      }
      fds := fds[fd := c.Put(e, x).(events := c.events + {e})];
      r := Fine(0);
    }

    method DelEventOf(fd: nat, e: Event, ok: bool) returns (done: bool)
      modifies this`fds, this`kernel, this`pending
      ensures (AsIO(), done) == DelEvent(old(AsIO()), fd, e, ok)
    {
      if |fds| <= fd || e !in fds[fd].events {
        return false;
      }
      var c := fds[fd];
      var left := c.events - {e};
      var op := if left != {} then MOD else DEL;
      var rt := Ctl(op, fd, left, ok);
      if rt != 0 {
        return false;
      }
      pending := pending - 1;
      fds := fds[fd := c.Put(e, NoCtx).(events := left)];
      done := true;
    }

    /** The triggering tail of cancelEvent, cancelAll and the dispatch loop. */
    method FireEvents(fd: nat, es: set<Event>) returns (ok: bool)
      requires fd < |fds|
      modifies this`fds, this`pending, this`queue
      ensures ok <==> Fire(old(AsIO()), fd, es).Fine?
      ensures ok ==> var (io, ws) := Fire(old(AsIO()), fd, es).value;
                     AsIO() == io && queue == old(queue) + ws
    {
      ok := true;
      if READ in es {
        ok := TriggerEvent(fd, READ);
        if !ok {
          return;
        }
        pending := pending - 1;
      }
      if WRITE in es {
        ok := TriggerEvent(fd, WRITE);
        if !ok {
          return;
        }
        pending := pending - 1;
      }
    }

    /** `fine` when every assertion held; `done`, the return value, says that the
        waiter was handed over. */
    method CancelEventOf(fd: nat, e: Event, ok: bool) returns (fine: bool, done: bool)
      modifies this
      ensures match CancelEvent(old(AsIO()), fd, e, ok)
              case Abort => !fine
              case Fine((io, ws)) => fine && AsIO() == io && queue == old(queue) + ws
      ensures done <==> fine && |queue| == |old(queue)| + 1
    {
      if |fds| <= fd || e !in fds[fd].events {
        return true, false;
      }
      var left := fds[fd].events - {e};
      var op := if left != {} then MOD else DEL;
      var rt := Ctl(op, fd, left, ok);
      if rt != 0 {
        return true, false;
      }
      fine := FireEvents(fd, {e});
      done := fine;
    }

    method CancelAllOf(fd: nat, ok: bool) returns (fine: bool, done: bool)
      modifies this
      ensures match CancelAll(old(AsIO()), fd, ok)
              case Abort => !fine
              case Fine((io, ws)) => fine && AsIO() == io && queue == old(queue) + ws
      ensures done <==> fine && |queue| > |old(queue)|
    {
      if |fds| <= fd || fds[fd].events == {} {
        return true, false;
      }
      var rt := Ctl(DEL, fd, {}, ok);
      if rt != 0 {
        return true, false;
      }
      ghost var es := fds[fd].events;
      fine := FireEvents(fd, fds[fd].events);
      done := fine;
      EventSets(es);
    }

    /** One report of epoll_wait. */
    method DispatchOne(fd: nat, ready: set<Event>, ok: bool) returns (fine: bool)
      requires fd < |fds|
      modifies this
      ensures match Dispatch(old(AsIO()), fd, ready, ok)
              case Abort => !fine
              case Fine((io, ws)) => fine && AsIO() == io && queue == old(queue) + ws
    {
      var es := fds[fd].events;
      if es * ready == {} {
        return true;
      }
      var left := es - ready;
      var op := if left != {} then MOD else DEL;
      var rt := Ctl(op, fd, left, ok);
      if rt != 0 {
        return true;
      }
      fine := FireEvents(fd, ready);
    }

    /** The dispatch loop of idle over the reports of one epoll_wait, at most one per
        descriptor. An assertion fires exactly when some report goes beyond what was
        registered for its descriptor and the kernel accepts the change; otherwise the
        tables stay consistent and every waiter taken out is handed over. */
    method DispatchAll(reports: seq<(nat, set<Event>, bool)>) returns (fine: bool)
      requires Inv(AsIO()) && forall i :: 0 <= i < |reports| ==> reports[i].0 < |fds|
      requires forall i, j :: 0 <= i < j < |reports| ==> reports[i].0 != reports[j].0
      modifies this
      ensures fine <==> forall i :: 0 <= i < |reports| ==> Bearable(old(fds), reports[i])
      ensures fine ==> Inv(AsIO()) && |fds| == |old(fds)| && old(queue) <= queue
      ensures fine ==> |queue| - |old(queue)| == old(pending) - pending
    {
      hide Inv, Fire, Dispatch;
      fine := true;
      ghost var fds0 := fds;
      var i := 0;
      while i < |reports|
        invariant i <= |reports| && fine && Inv(AsIO()) && |fds| == |fds0|
        invariant forall k :: i <= k < |reports| ==> fds[reports[k].0] == fds0[reports[k].0]
        invariant forall k :: 0 <= k < i ==> Bearable(fds0, reports[k])
        invariant |queue| - |old(queue)| == old(pending) - pending && old(queue) <= queue
      {
        var (fd, ready, ok) := reports[i];
        DispatchCounts(AsIO(), fd, ready, ok);
        fine := DispatchOne(fd, ready, ok);
        if !fine {
          assert !Bearable(fds0, reports[i]);
          return;
        }
        i := i + 1;
      }
    }
  }

  /** The report is one the assertions can bear: nothing is triggered, or only what
      was registered. */
  predicate Bearable(fds: seq<Fd>, report: (nat, set<Event>, bool))
  {
    var (fd, ready, ok) := report;
    fd < |fds| && (!ok || fds[fd].events * ready == {} || ready <= fds[fd].events)
  }

  lemma DispatchCounts(io: IO, fd: nat, ready: set<Event>, ok: bool)
    requires Inv(io) && fd < |io.fds|
    ensures Dispatch(io, fd, ready, ok).Fine? <==> Bearable(io.fds, (fd, ready, ok))
    ensures Dispatch(io, fd, ready, ok).Fine? ==>
              var (io', ws) := Dispatch(io, fd, ready, ok).value;
              && Inv(io') && |ws| == io.pending - io'.pending && |io'.fds| == |io.fds|
              && forall j :: 0 <= j < |io.fds| && j != fd ==> io'.fds[j] == io.fds[j]
  {
    DispatchKeeps(io, fd, ready, ok);
    EventSets(ready);
    var es := io.fds[fd].events;
    if es * ready != {} && Shrink(io, fd, es - ready, ok).Some? {
      FireFires(io.(kernel := Shrink(io, fd, es - ready, ok).value), fd, ready);
    }
  }
}
