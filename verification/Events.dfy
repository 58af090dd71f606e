/**
 Event registration of the I/O manager as values: per-descriptor event bits and
 contexts, the kernel's interest list, and the count of pending events.
 */
module Events {

  import opened Options

  datatype Event = READ | WRITE

  /** Who waits for an event: a scheduler and a fiber or a callback. */
  datatype Ctx = Ctx(scheduler: bool, fiber: Option<nat>, cb: Option<nat>)

  const NoCtx: Ctx := Ctx(false, None, None)

  /** One FdContext. */
  datatype Fd = Fd(read: Ctx, write: Ctx, events: set<Event>)
  {
    function Get(e: Event): Ctx { if e.READ? then read else write }

    function Put(e: Event, c: Ctx): Fd { if e.READ? then this.(read := c) else this.(write := c) }
  }

  const NoFd: Fd := Fd(NoCtx, NoCtx, {})

  /** The manager's tables. `kernel` is what epoll watches. */
  datatype IO = IO(fds: seq<Fd>, kernel: map<nat, set<Event>>, pending: int)

  /** What the assertions in the source turn into. */
  datatype Outcome<T> = Fine(value: T) | Abort

  /** A task handed to the scheduler. */
  datatype Wake = Wake(fiber: Option<nat>, cb: Option<nat>)

  // ----- epoll -------------------------------------------------------------

  datatype Ctl = ADD | MOD | DEL

  /** epoll_ctl: `ok` is the kernel's whim; ADD of a watched descriptor and MOD or
      DEL of an unwatched one fail anyway. */
  function EpollCtl(k: map<nat, set<Event>>, op: Ctl, fd: nat, es: set<Event>, ok: bool)
    : Option<map<nat, set<Event>>>
  {
    if !ok || (op.ADD? <==> fd in k) then None
    else Some(if op.DEL? then k - {fd} else k[fd := es])
  }

  // ----- operations --------------------------------------------------------

  /** addEvent's lookup: the table grows to one and a half times the descriptor. */
  function Grow(fds: seq<Fd>, fd: nat): (r: seq<Fd>)
    ensures |fds| <= |r| && r[..|fds|] == fds
    ensures forall i :: |fds| <= i < |r| ==> r[i] == NoFd
    ensures |fds| >= 2 ==> fd < |r|
  {
    if fd < |fds| then fds
    else
      var n := fd + fd / 2;
      fds + seq(if n < |fds| then 0 else n - |fds|, _ => NoFd)
  }

  /** FdContext::triggerEvent: hand the waiter to the scheduler. */
  function Trigger(c: Fd, e: Event): Outcome<(Fd, Wake)>
  {
    if e !in c.events || !c.Get(e).scheduler then Abort
    else
      var x := c.Get(e);
      var w := if x.cb.Some? then Wake(None, x.cb) else Wake(x.fiber, None);
      var rest := if x.cb.Some? then x.(scheduler := false, cb := None) else x.(scheduler := false, fiber := None);
      Fine((c.Put(e, rest).(events := c.events - {e}), w))
  }

  /** addEvent for callback `cb`, or for the current fiber when there is none. */
  function AddEvent(io: IO, fd: nat, e: Event, cb: Option<nat>, current: nat, ok: bool)
    : Outcome<(IO, int)>
    requires |io.fds| >= 2
  {
    var fds := Grow(io.fds, fd);
    var c := fds[fd];
    if e in c.events then Abort
    else
      match EpollCtl(io.kernel, if c.events != {} then MOD else ADD, fd, c.events + {e}, ok)
      case None => Fine((io.(fds := fds), -1))
      case Some(k) =>
        if c.Get(e) != NoCtx then Abort
        else
          var x := Ctx(true, if cb.Some? then None else Some(current), cb);
          Fine((IO(fds[fd := c.Put(e, x).(events := c.events + {e})], k, io.pending + 1), 0))
  }

  function Shrink(io: IO, fd: nat, left: set<Event>, ok: bool): Option<map<nat, set<Event>>>
  {
    EpollCtl(io.kernel, if left != {} then MOD else DEL, fd, left, ok)
  }

  function DelEvent(io: IO, fd: nat, e: Event, ok: bool): (IO, bool)
  {
    if fd >= |io.fds| || e !in io.fds[fd].events then (io, false)
    else
      var c := io.fds[fd];
      match Shrink(io, fd, c.events - {e}, ok)
      case None => (io, false)
      case Some(k) =>
        (IO(io.fds[fd := c.Put(e, NoCtx).(events := c.events - {e})], k, io.pending - 1), true)
  }

  /** Trigger the events `es` of `fd`, READ first, counting each. */
  function Fire(io: IO, fd: nat, es: set<Event>): Outcome<(IO, seq<Wake>)>
    requires fd < |io.fds|
  {
    if READ in es then
      match Trigger(io.fds[fd], READ)
      case Abort => Abort
      case Fine((c, w)) =>
        var io' := io.(fds := io.fds[fd := c], pending := io.pending - 1);
        if WRITE in es then
          match Trigger(c, WRITE)
          case Abort => Abort
          case Fine((d, v)) => Fine((io'.(fds := io.fds[fd := d], pending := io.pending - 2), [w, v]))
        else Fine((io', [w]))
    else if WRITE in es then
      match Trigger(io.fds[fd], WRITE)
      case Abort => Abort
      case Fine((c, w)) => Fine((io.(fds := io.fds[fd := c], pending := io.pending - 1), [w]))
    else Fine((io, []))
  }

  function CancelEvent(io: IO, fd: nat, e: Event, ok: bool): Outcome<(IO, seq<Wake>)>
  {
    if fd >= |io.fds| || e !in io.fds[fd].events then Fine((io, []))
    else
      match Shrink(io, fd, io.fds[fd].events - {e}, ok)
      case None => Fine((io, []))
      case Some(k) => Fire(io.(kernel := k), fd, {e})
  }

  function CancelAll(io: IO, fd: nat, ok: bool): Outcome<(IO, seq<Wake>)>
  {
    if fd >= |io.fds| || io.fds[fd].events == {} then Fine((io, []))
    else
      match Shrink(io, fd, {}, ok)
      case None => Fine((io, []))
      case Some(k) => Fire(io.(kernel := k), fd, io.fds[fd].events)
  }

  /** The dispatch part of idle for one ready descriptor; `ready` is what is left
      of the kernel's report after ERR and HUP were widened to both events. */
  function Dispatch(io: IO, fd: nat, ready: set<Event>, ok: bool): Outcome<(IO, seq<Wake>)>
    requires fd < |io.fds|
  {
    var es := io.fds[fd].events;
    if es * ready == {} then Fine((io, []))
    else
      match Shrink(io, fd, es - ready, ok)
      case None => Fine((io, []))
      case Some(k) => Fire(io.(kernel := k), fd, ready)
  }

  // ----- invariant ---------------------------------------------------------

  /** The number of event bits set over all descriptors. */
  function Bits(fds: seq<Fd>): nat
  {
    if fds == [] then 0 else Bits(fds[..|fds| - 1]) + |fds[|fds| - 1].events|
  }

  /** A bit is set exactly when its context holds a scheduler and exactly one of
      fiber and callback; otherwise the context is empty. */
  predicate CtxOk(c: Fd, e: Event)
  {
    var x := c.Get(e);
    if e in c.events then x.scheduler && (x.fiber.Some? <==> x.cb.None?) else x == NoCtx
  }

  predicate FdOk(c: Fd) { CtxOk(c, READ) && CtxOk(c, WRITE) }

  /** The kernel watches exactly the registered events. */
  ghost predicate KernelOk(io: IO)
  {
    && (forall fd :: fd in io.kernel ==> fd < |io.fds| && io.fds[fd].events != {})
    && (forall fd :: 0 <= fd < |io.fds| && io.fds[fd].events != {} ==>
          fd in io.kernel && io.kernel[fd] == io.fds[fd].events)
  }

  ghost predicate Inv(io: IO)
  {
    && |io.fds| >= 32
    && (forall fd :: 0 <= fd < |io.fds| ==> FdOk(io.fds[fd]))
    && KernelOk(io)
    && io.pending == Bits(io.fds)
  }

  function Initial(): IO { IO(seq(32, _ => NoFd), map[], 0) }

  lemma {:induction false} BitsUpdate(fds: seq<Fd>, i: nat, c: Fd)
    requires i < |fds|
    ensures Bits(fds[i := c]) == Bits(fds) - |fds[i].events| + |c.events|
  {
    var n := |fds| - 1;
    if i < n {
      BitsUpdate(fds[..n], i, c);
      assert fds[i := c][..n] == fds[..n][i := c];
    } else {
      assert fds[i := c][..n] == fds[..n];
    }
  }

  lemma {:induction false} BitsGrow(fds: seq<Fd>, r: seq<Fd>)
    requires |fds| <= |r| && r[..|fds|] == fds
    requires forall i :: |fds| <= i < |r| ==> r[i] == NoFd
    ensures Bits(r) == Bits(fds)
    decreases |r|
  {
    if |r| > |fds| {
      assert r[..|r| - 1][..|fds|] == fds;
      BitsGrow(fds, r[..|r| - 1]);
    } else {
      assert r == fds;
    }
  }

  lemma {:induction false} BitsZero(fds: seq<Fd>)
    requires forall i :: 0 <= i < |fds| ==> fds[i].events == {}
    ensures Bits(fds) == 0
  {
    if fds != [] { BitsZero(fds[..|fds| - 1]); }
  }

  lemma InitialInv()
    ensures Inv(Initial())
  {
    BitsZero(Initial().fds);
  }

  /** No bit is set when nothing is pending. */
  lemma {:induction false} NoBits(fds: seq<Fd>, i: nat)
    requires Bits(fds) == 0 && i < |fds|
    ensures fds[i].events == {}
  {
    if i < |fds| - 1 { NoBits(fds[..|fds| - 1], i); }
  }

  // ----- what the operations keep ------------------------------------------

  /** The waiter registered for an event, fiber or callback. */
  function Waiter(io: IO, fd: nat, e: Event): Option<nat>
  {
    if fd >= |io.fds| then None
    else
      var x := io.fds[fd].Get(e);
      if x.fiber.Some? then x.fiber else x.cb
  }

  /** `w` is the hand-over of the waiter of (`fd`, `e`) and of nobody else. */
  predicate HandsOver(io: IO, fd: nat, e: Event, w: Wake)
  {
    && fd < |io.fds| && w == Wake(io.fds[fd].Get(e).fiber, io.fds[fd].Get(e).cb)
    && (w.fiber.Some? <==> w.cb.None?)
  }

  /** The events `es` of `fd` are gone, their waiters are in `ws`, READ first, and
      everything else is as before. */
  ghost predicate Fired(io: IO, fd: nat, es: set<Event>, io': IO, ws: seq<Wake>)
  {
    && fd < |io.fds| == |io'.fds|
    && io'.fds[fd].events == io.fds[fd].events - es
    && |ws| == |es|
    && (READ in es ==> |ws| > 0 && HandsOver(io, fd, READ, ws[0]))
    && (WRITE in es ==> |ws| > 0 && HandsOver(io, fd, WRITE, ws[|ws| - 1]))
    && (forall e :: e in es ==> Waiter(io', fd, e) == None)
    && (forall e :: e !in es ==> io'.fds[fd].Get(e) == io.fds[fd].Get(e))
    && (forall i :: 0 <= i < |io.fds| && i != fd ==> io'.fds[i] == io.fds[i])
  }

  lemma EventSets(es: set<Event>)
    ensures es == {} || es == {READ} || es == {WRITE} || es == {READ, WRITE}
  {
    assert forall e :: e in es ==> e == READ || e == WRITE;
    if READ in es && WRITE in es {
      assert es == {READ, WRITE};
    } else if READ in es {
      assert es == {READ};
    } else if WRITE in es {
      assert es == {WRITE};
    } else {
      assert es == {};
    }
  }

  /** Changing one descriptor and telling the kernel keeps the invariant. */
  lemma UpdateInv(io: IO, fd: nat, d: Fd, k: map<nat, set<Event>>, n: int)
    requires Inv(io) && fd < |io.fds| && FdOk(d)
    requires k == if d.events == {} then io.kernel - {fd} else io.kernel[fd := d.events]
    requires n == io.pending - |io.fds[fd].events| + |d.events|
    ensures Inv(IO(io.fds[fd := d], k, n))
  {
    BitsUpdate(io.fds, fd, d);
    KernelUpdate(io, fd, d, k, n);
    hide Bits, FdOk, KernelOk;
  }

  lemma KernelUpdate(io: IO, fd: nat, d: Fd, k: map<nat, set<Event>>, n: int)
    requires KernelOk(io) && fd < |io.fds|
    requires k == if d.events == {} then io.kernel - {fd} else io.kernel[fd := d.events]
    ensures KernelOk(IO(io.fds[fd := d], k, n))
  {
  }

  /** New, empty descriptors change nothing. */
  lemma GrowInv(io: IO, fd: nat)
    requires Inv(io)
    ensures var io' := io.(fds := Grow(io.fds, fd));
            Inv(io') && fd < |io'.fds| && forall i, e :: Waiter(io', i, e) == Waiter(io, i, e)
  {
    var r := Grow(io.fds, fd);
    BitsGrow(io.fds, r);
    assert FdOk(NoFd);
    assert forall i :: 0 <= i < |io.fds| ==> r[i] == r[..|io.fds|][i];
    hide Grow, Bits, FdOk;
  }

  lemma FireFires(io: IO, fd: nat, es: set<Event>)
    requires fd < |io.fds| && FdOk(io.fds[fd])
    ensures Fire(io, fd, es).Fine? <==> es <= io.fds[fd].events
    ensures Fire(io, fd, es).Fine? ==>
              var (io', ws) := Fire(io, fd, es).value;
              && Fired(io, fd, es, io', ws) && FdOk(io'.fds[fd])
              && io'.kernel == io.kernel && io'.pending == io.pending - |es|
              && io'.fds == io.fds[fd := io'.fds[fd]]
  {
    EventSets(es);
  }

  lemma ShrinkWorks(io: IO, fd: nat, left: set<Event>, ok: bool)
    requires Inv(io) && fd < |io.fds| && left < io.fds[fd].events
    ensures Shrink(io, fd, left, ok).Some? <==> ok
  {
    EventSets(io.fds[fd].events);
  }

  /** Taking events away, in the tables and in the kernel, keeps the invariant. */
  lemma FiredInv(io: IO, fd: nat, es: set<Event>, k: map<nat, set<Event>>)
    requires Inv(io) && fd < |io.fds| && es <= io.fds[fd].events && es != {}
    requires Shrink(io, fd, io.fds[fd].events - es, true) == Some(k)
    requires Fire(io.(kernel := k), fd, es).Fine?
    ensures Inv(Fire(io.(kernel := k), fd, es).value.0)
    ensures Fired(io, fd, es, Fire(io.(kernel := k), fd, es).value.0, Fire(io.(kernel := k), fd, es).value.1)
  {
    var j := io.(kernel := k);
    FireFires(j, fd, es);
    var (io', ws) := Fire(j, fd, es).value;
    hide Fire, Fired, Inv, FdOk;
    FiredFrame(io, j, fd, es, io', ws);
    var left := io.fds[fd].events - es;
    assert io.fds[fd].events == left + es;
    UpdateInv(io, fd, io'.fds[fd], k, io'.pending);
  }

  lemma FiredFrame(io: IO, j: IO, fd: nat, es: set<Event>, io': IO, ws: seq<Wake>)
    requires j == io.(kernel := j.kernel) && Fired(j, fd, es, io', ws)
    ensures Fired(io, fd, es, io', ws)
    ensures |io'.fds| == |io.fds| && fd < |io.fds| && io'.fds[fd].events == io.fds[fd].events - es
  {
  }

  /** addEvent: the already-registered assertion fires exactly when the bit is set;
      no other one ever does, and only the kernel can refuse. */
  lemma AddEventKeeps(io: IO, fd: nat, e: Event, cb: Option<nat>, current: nat, ok: bool)
    requires Inv(io)
    ensures AddEvent(io, fd, e, cb, current, ok).Abort? <==> fd < |io.fds| && e in io.fds[fd].events
    ensures AddEvent(io, fd, e, cb, current, ok).Fine? ==>
              var (io', rc) := AddEvent(io, fd, e, cb, current, ok).value;
              Inv(io') && (rc == 0 <==> ok)
  {
    GrowInv(io, fd);
    AddEventShape(io, fd, e, cb, current, ok);
    GrowEvents(io.fds, fd);
    var j := io.(fds := Grow(io.fds, fd));
    var c := j.fds[fd];
    assert FdOk(c);
    hide Grow, AddEvent, Inv;
    if e !in c.events && ok {
      var d := Registered(c, e, cb, current);
      UpdateInv(j, fd, d, io.kernel[fd := d.events], io.pending + 1);
    }
  }

  /** A successful addEvent makes one waiter, a failed one none. */
  lemma AddEventWaiter(io: IO, fd: nat, e: Event, cb: Option<nat>, current: nat, ok: bool, fd': nat, e': Event)
    requires Inv(io) && AddEvent(io, fd, e, cb, current, ok).Fine?
    ensures Waiter(AddEvent(io, fd, e, cb, current, ok).value.0, fd', e')
            == if ok && fd' == fd && e' == e then (if cb.Some? then cb else Some(current))
               else Waiter(io, fd', e')
  {
    AddEventShape(io, fd, e, cb, current, ok);
    GrowInv(io, fd);
    var j := io.(fds := Grow(io.fds, fd));
    hide Grow, AddEvent, Inv, Waiter, Registered;
    assert Waiter(j, fd', e') == Waiter(io, fd', e');
    if ok {
      RegisteredWaiter(j, fd, e, cb, current, io.kernel[fd := Registered(j.fds[fd], e, cb, current).events], fd', e');
    }
  }

  lemma RegisteredWaiter(io: IO, fd: nat, e: Event, cb: Option<nat>, current: nat, k: map<nat, set<Event>>,
                         fd': nat, e': Event)
    requires fd < |io.fds|
    ensures Waiter(IO(io.fds[fd := Registered(io.fds[fd], e, cb, current)], k, io.pending + 1), fd', e')
            == if fd' == fd && e' == e then (if cb.Some? then cb else Some(current)) else Waiter(io, fd', e')
  {
  }

  /** A descriptor with one more event. */
  function Registered(c: Fd, e: Event, cb: Option<nat>, current: nat): Fd
  {
    c.Put(e, Ctx(true, if cb.Some? then None else Some(current), cb)).(events := c.events + {e})
  }

  lemma AddEventShape(io: IO, fd: nat, e: Event, cb: Option<nat>, current: nat, ok: bool)
    requires Inv(io)
    ensures
      var fds := Grow(io.fds, fd);
      var d := Registered(fds[fd], e, cb, current);
      AddEvent(io, fd, e, cb, current, ok) ==
        if e in fds[fd].events then Abort
        else if !ok then Fine((io.(fds := fds), -1))
        else Fine((IO(fds[fd := d], io.kernel[fd := d.events], io.pending + 1), 0))
  {
    InvSize(io);
    KernelAgrees(io, fd, Grow(io.fds, fd)[fd].events + {e}, ok);
    ContextFree(io, fd, e);
    hide Grow, Inv, EpollCtl;
  }

  /** A successful addEvent, field by field: the bit, the context with its scheduler and
      exactly the callback or the current fiber, the kernel's interest, the count; a
      failed one only fills the table up. */
  lemma AddEventFields(io: IO, fd: nat, e: Event, cb: Option<nat>, current: nat, ok: bool)
    requires Inv(io) && !(fd < |io.fds| && e in io.fds[fd].events)
    ensures AddEvent(io, fd, e, cb, current, ok).Fine?
    ensures
      var (io', rc) := AddEvent(io, fd, e, cb, current, ok).value;
      var was := if fd < |io.fds| then io.fds[fd] else NoFd;
      && fd < |io'.fds| && |io.fds| <= |io'.fds| && (fd < |io.fds| ==> |io'.fds| == |io.fds|)
      && (forall i :: 0 <= i < |io'.fds| && i != fd ==> io'.fds[i] == if i < |io.fds| then io.fds[i] else NoFd)
      && (!ok ==> rc != 0 && io'.fds[fd] == was && io'.kernel == io.kernel && io'.pending == io.pending)
      && (ok ==>
            && rc == 0 && io'.pending == io.pending + 1 && io'.kernel == io.kernel[fd := was.events + {e}]
            && io'.fds[fd].events == was.events + {e}
            && io'.fds[fd].Get(e) == (if cb.Some? then Ctx(true, None, cb) else Ctx(true, Some(current), None))
            && (forall e' :: e' != e ==> io'.fds[fd].Get(e') == was.Get(e')))
  {
    InvSize(io);
    AddEventShape(io, fd, e, cb, current, ok);
    GrowEvents(io.fds, fd);
    GrownTable(io.fds, fd);
    hide Grow, AddEvent, Inv;
  }

  lemma GrownTable(fds: seq<Fd>, fd: nat)
    requires |fds| >= 2
    ensures
      var r := Grow(fds, fd);
      && fd < |r| && (fd < |fds| ==> r == fds) && |fds| <= |r|
      && forall i :: 0 <= i < |r| ==> r[i] == if i < |fds| then fds[i] else NoFd
  {
    var r := Grow(fds, fd);
    assert forall i :: 0 <= i < |fds| ==> r[i] == r[..|fds|][i];
  }

  /** A successful delEvent: the bit is gone, the context empty, the kernel told. */
  lemma DelEventFields(io: IO, fd: nat, e: Event)
    requires Inv(io) && fd < |io.fds| && e in io.fds[fd].events
    ensures
      var (io', done) := DelEvent(io, fd, e, true);
      && done && io'.pending == io.pending - 1 && |io'.fds| == |io.fds|
      && io'.fds[fd].events == io.fds[fd].events - {e} && io'.fds[fd].Get(e) == Ctx(false, None, None)
      && (forall e' :: e' != e ==> io'.fds[fd].Get(e') == io.fds[fd].Get(e'))
      && (forall i :: 0 <= i < |io.fds| && i != fd ==> io'.fds[i] == io.fds[i])
      && io'.kernel == (if io.fds[fd].events == {e} then io.kernel - {fd}
                        else io.kernel[fd := io.fds[fd].events - {e}])
  {
    ShrinkWorks(io, fd, io.fds[fd].events - {e}, true);
    hide Inv;
  }

  /** The choice between ADD and MOD is the right one. */
  lemma KernelAgrees(io: IO, fd: nat, es: set<Event>, ok: bool)
    requires Inv(io)
    ensures EpollCtl(io.kernel, if Grow(io.fds, fd)[fd].events != {} then MOD else ADD, fd, es, ok)
            == if ok then Some(io.kernel[fd := es]) else None
  {
    GrowEvents(io.fds, fd);
    hide Grow, FdOk, Bits;
  }

  /** An event that is not registered has an empty context. */
  lemma ContextFree(io: IO, fd: nat, e: Event)
    requires Inv(io)
    ensures e !in Grow(io.fds, fd)[fd].events ==> Grow(io.fds, fd)[fd].Get(e) == NoCtx
  {
    GrowEvents(io.fds, fd);
    hide Grow, KernelOk, Bits;
  }

  lemma GrowEvents(fds: seq<Fd>, fd: nat)
    requires |fds| >= 2
    ensures fd < |fds| ==> Grow(fds, fd)[fd] == fds[fd]
    ensures fd >= |fds| ==> Grow(fds, fd)[fd] == NoFd
  {
  }

  lemma DelEventKeeps(io: IO, fd: nat, e: Event, ok: bool)
    requires Inv(io)
    ensures Inv(DelEvent(io, fd, e, ok).0)
    ensures DelEvent(io, fd, e, ok).1 <==> ok && fd < |io.fds| && e in io.fds[fd].events
  {
    if fd < |io.fds| && e in io.fds[fd].events {
      var c := io.fds[fd];
      ShrinkWorks(io, fd, c.events - {e}, ok);
      var d := c.Put(e, NoCtx).(events := c.events - {e});
      if ok { UpdateInv(io, fd, d, Shrink(io, fd, d.events, ok).value, io.pending - 1); }
      hide Inv;
    }
  }

  /** delEvent makes its waiter disappear without waking it. */
  lemma DelEventWaiter(io: IO, fd: nat, e: Event, ok: bool, fd': nat, e': Event)
    requires Inv(io)
    ensures Waiter(DelEvent(io, fd, e, ok).0, fd', e')
            == if ok && fd' == fd && e' == e then None else Waiter(io, fd', e')
  {
    if fd < |io.fds| {
      assert FdOk(io.fds[fd]);
      if e in io.fds[fd].events { ShrinkWorks(io, fd, io.fds[fd].events - {e}, ok); }
    }
    hide Inv, FdOk;
  }

  /** cancelEvent never trips the assertion in triggerEvent. */
  lemma CancelEventKeeps(io: IO, fd: nat, e: Event, ok: bool)
    requires Inv(io)
    ensures CancelEvent(io, fd, e, ok).Fine?
    ensures
      var (io', ws) := CancelEvent(io, fd, e, ok).value;
      Inv(io') && (if ok && fd < |io.fds| && e in io.fds[fd].events
                   then Fired(io, fd, {e}, io', ws) else io' == io && ws == [])
  {
    if fd < |io.fds| && e in io.fds[fd].events {
      ShrinkWorks(io, fd, io.fds[fd].events - {e}, ok);
      if ok {
        var k := Shrink(io, fd, io.fds[fd].events - {e}, ok).value;
        FireFires(io.(kernel := k), fd, {e});
        FiredInv(io, fd, {e}, k);
      }
    }
  }

  lemma CancelAllKeeps(io: IO, fd: nat, ok: bool)
    requires Inv(io)
    ensures CancelAll(io, fd, ok).Fine?
    ensures
      var (io', ws) := CancelAll(io, fd, ok).value;
      Inv(io') && (if ok && fd < |io.fds| && io.fds[fd].events != {}
                   then Fired(io, fd, io.fds[fd].events, io', ws) && io'.fds[fd].events == {}
                   else io' == io && ws == [])
  {
    if fd < |io.fds| && io.fds[fd].events != {} {
      var es := io.fds[fd].events;
      assert es - es == {};
      ShrinkWorks(io, fd, {}, ok);
      if ok {
        var k := Shrink(io, fd, {}, ok).value;
        FireFires(io.(kernel := k), fd, es);
        FiredInv(io, fd, es, k);
      }
    }
  }

  /** Dispatch trips the assertion in triggerEvent exactly when the report, widened
      by ERR or HUP, names an event nobody registered next to one somebody did. */
  lemma DispatchKeeps(io: IO, fd: nat, ready: set<Event>, ok: bool)
    requires Inv(io) && fd < |io.fds|
    ensures Dispatch(io, fd, ready, ok).Abort? <==>
              ok && io.fds[fd].events * ready != {} && !(ready <= io.fds[fd].events)
    ensures Dispatch(io, fd, ready, ok).Fine? ==>
      var (io', ws) := Dispatch(io, fd, ready, ok).value;
      Inv(io') && (if ok && io.fds[fd].events * ready != {}
                   then Fired(io, fd, ready, io', ws) else io' == io && ws == [])
  {
    var es := io.fds[fd].events;
    if es * ready != {} {
      assert es - ready < es;
      ShrinkWorks(io, fd, es - ready, ok);
      if ok {
        var k := Shrink(io, fd, es - ready, ok).value;
        FireFires(io.(kernel := k), fd, ready);
        if ready <= es { FiredInv(io, fd, ready, k); }
      }
    }
  }

  /** A widened report on a descriptor with one waiter aborts the server. */
  lemma HangUpAborts()
    ensures
      var c := Fd(Ctx(true, Some(7), None), NoCtx, {READ});
      var io := IO([c] + seq(31, _ => NoFd), map[0 := {READ}], 1);
      Inv(io) && Dispatch(io, 0, {READ, WRITE}, true).Abort?
  {
    var c := Fd(Ctx(true, Some(7), None), NoCtx, {READ});
    var fds := [c] + seq(31, _ => NoFd);
    var io := IO(fds, map[0 := {READ}], 1);
    BitsZero(fds[0 := NoFd]);
    BitsUpdate(fds[0 := NoFd], 0, c);
    assert fds[0 := NoFd][0 := c] == fds;
  }

  // ----- every run ---------------------------------------------------------

  datatype Op =
    | AddOp(fd: nat, e: Event, cb: Option<nat>, current: nat)
    | DelOp(fd: nat, e: Event)
    | CancelOp(fd: nat, e: Event)
    | CancelAllOp(fd: nat)
    | ReadyOp(fd: nat, ready: set<Event>)

  function Step(io: IO, op: Op, ok: bool): Outcome<IO>
    requires |io.fds| >= 2
  {
    match op
    case AddOp(fd, e, cb, f) =>
      (match AddEvent(io, fd, e, cb, f, ok) case Abort => Abort case Fine(r) => Fine(r.0))
    case DelOp(fd, e) => Fine(DelEvent(io, fd, e, ok).0)
    case CancelOp(fd, e) =>
      (match CancelEvent(io, fd, e, ok) case Abort => Abort case Fine(r) => Fine(r.0))
    case CancelAllOp(fd) =>
      (match CancelAll(io, fd, ok) case Abort => Abort case Fine(r) => Fine(r.0))
    case ReadyOp(fd, ready) =>
      if fd >= |io.fds| then Fine(io)
      else (match Dispatch(io, fd, ready, ok) case Abort => Abort case Fine(r) => Fine(r.0))
  }

  /** The caller's part: register an event once, and let the kernel report only
      what was registered. */
  predicate Polite(io: IO, op: Op)
  {
    match op
    case AddOp(fd, e, _, _) => !(fd < |io.fds| && e in io.fds[fd].events)
    case ReadyOp(fd, ready) =>
      fd < |io.fds| ==> ready <= io.fds[fd].events || ready * io.fds[fd].events == {}
    case _ => true
  }

  /** A step aborts exactly when the caller is impolite and the kernel agrees. */
  lemma StepKeeps(io: IO, op: Op, ok: bool)
    requires Inv(io)
    ensures Step(io, op, ok).Abort? <==> !Polite(io, op) && (op.AddOp? || ok)
    ensures Step(io, op, ok).Fine? ==> Inv(Step(io, op, ok).value)
  {
    hide Inv, AddEvent, DelEvent, CancelEvent, CancelAll, Dispatch;
    InvSize(io);
    match op
    case AddOp(fd, e, cb, f) => AddEventKeeps(io, fd, e, cb, f, ok);
    case DelOp(fd, e) => DelEventKeeps(io, fd, e, ok);
    case CancelOp(fd, e) => CancelEventKeeps(io, fd, e, ok);
    case CancelAllOp(fd) => CancelAllKeeps(io, fd, ok);
    case ReadyOp(fd, ready) =>
      if fd < |io.fds| { DispatchKeeps(io, fd, ready, ok); }
  }

  lemma InvSize(io: IO)
    requires Inv(io)
    ensures |io.fds| >= 32
  {
  }

  function Run(io: IO, ops: seq<(Op, bool)>): Outcome<IO>
    decreases |ops|
  {
    if ops == [] then Fine(io)
    else if |io.fds| < 2 then Abort
    else
      match Step(io, ops[0].0, ops[0].1)
      case Abort => Abort
      case Fine(io') => Run(io', ops[1..])
  }

  /** After every run that no assertion ended, the count is exact, contexts and bits
      agree, and the kernel watches what is registered. */
  lemma {:induction false} EveryRunKeeps(io: IO, ops: seq<(Op, bool)>)
    requires Inv(io)
    ensures Run(io, ops).Fine? ==> Inv(Run(io, ops).value)
    decreases |ops|
  {
    hide Inv, Step;
    InvSize(io);
    if ops != [] {
      StepKeeps(io, ops[0].0, ops[0].1);
      if Step(io, ops[0].0, ops[0].1).Fine? {
        EveryRunKeeps(Step(io, ops[0].0, ops[0].1).value, ops[1..]);
      }
    }
  }

  lemma EveryRunFromStart(ops: seq<(Op, bool)>)
    ensures Run(Initial(), ops).Fine? ==> Inv(Run(Initial(), ops).value)
  {
    InitialInv();
    EveryRunKeeps(Initial(), ops);
  }
}
