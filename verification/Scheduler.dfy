/**
 The run queue, the fibers and one worker's turn as the source updates them.
 `tickles` counts the calls of the tickle hook. A fiber's own code is an oracle:
 the state it leaves behind when it gives the thread back.
 */
module Scheduler {
  import opened Options
  import opened Sequences
  import opened Dispatching
  import Runtime

  type FiberState = Runtime.FiberState

  class Fiber {
    var state: FiberState
    var cb: Option<nat>

    constructor (cb: Option<nat>)
      ensures state == Runtime.INIT && this.cb == cb
    {
      state, this.cb := Runtime.INIT, cb;
    }

    /** Can be given a new callback: not suspended, ready or executing. */
    predicate Spent()
      reads this
    {
      state == Runtime.TERM || state == Runtime.INIT || state == Runtime.EXCEPT
    }

    /** Fails, as the source's assertion does, on a fiber with code to finish. */
    method Reset(cb: Option<nat>) returns (ok: bool)
      modifies this
      ensures ok <==> old(Spent())
      ensures if ok then state == Runtime.INIT && this.cb == cb else state == old(state) && this.cb == old(this.cb)
    {
      ok := Spent();
      if ok {
        this.cb := cb;
        state := Runtime.INIT;
      }
    }

    /** Switch to the fiber; `back` is the state its code leaves behind. Fails on a
        fiber that is already executing. */
    method SwapIn(back: FiberState) returns (ok: bool)
      requires back != Runtime.INIT
      modifies this
      ensures ok <==> old(state) != Runtime.EXEC
      ensures if ok then state == back && cb == (if back == Runtime.TERM then None else old(cb))
              else state == old(state) && cb == old(cb)
    {
      ok := state != Runtime.EXEC;
      if ok {
        state := Runtime.EXEC;
        if back == Runtime.TERM {
          cb := None;
        }
        state := back;
      }
    }
  }

  ghost function Members(q: seq<Entry<Fiber>>): (r: set<Fiber>)
    ensures forall i :: 0 <= i < |q| && q[i].fiber.Some? ==> q[i].fiber.value in r
  {
    set i | 0 <= i < |q| && q[i].fiber.Some? :: q[i].fiber.value
  }

  lemma MembersWithout(q: seq<Entry<Fiber>>, i: nat)
    requires i < |q|
    ensures Members(q[..i] + q[i + 1..]) <= Members(q)
  {
    var r := q[..i] + q[i + 1..];
    assert forall k :: 0 <= k < |r| ==> r[k] == q[if k < i then k else k + 1];
  }

  lemma MembersPush(q: seq<Entry<Fiber>>, f: Fiber)
    ensures Members(q + [Entry(Some(f), None, -1)]) == Members(q) + {f}
  {
    var r := q + [Entry(Some(f), None, -1)];
    assert r[|q|].fiber == Some(f);
    forall i | 0 <= i < |q| && q[i].fiber.Some? ensures q[i].fiber.value in Members(r) { assert r[i] == q[i]; }
  }

  /** The callbacks of a batch that are not empty, in order, for any thread. */
  function Batch(cbs: seq<Option<nat>>): (r: seq<Entry<Fiber>>)
  {
    if cbs == [] then []
    else Batch(cbs[..|cbs| - 1]) + (if cbs[|cbs| - 1].Some? then [Entry(None, cbs[|cbs| - 1], -1)] else [])
  }

  /** An empty callback adds nothing, wherever it stands. */
  lemma {:induction false} BatchSkips(a: seq<Option<nat>>, b: seq<Option<nat>>)
    ensures Batch(a + [None] + b) == Batch(a + b)
    decreases |b|
  {
    if b == [] {
      assert (a + [None] + b)[..|a|] == a && a + b == a;
    } else {
      BatchSkips(a, b[..|b| - 1]);
      assert (a + [None] + b)[..|a| + |b|] == a + [None] + b[..|b| - 1];
      assert (a + b)[..|a| + |b| - 1] == a + b[..|b| - 1];
    }
  }

  /** A batch without empty callbacks keeps them all, each in its place. */
  lemma {:induction false} BatchAll(cbs: seq<Option<nat>>)
    requires forall i :: 0 <= i < |cbs| ==> cbs[i].Some?
    ensures |Batch(cbs)| == |cbs|
    ensures forall i :: 0 <= i < |cbs| ==> Batch(cbs)[i] == Entry(None, cbs[i], -1)
  {
    if cbs != [] { BatchAll(cbs[..|cbs| - 1]); }
  }

  /** ... and every entry of a batch is one no thread can pass over. */
  lemma {:induction false} BatchFree(cbs: seq<Option<nat>>)
    ensures forall i :: 0 <= i < |Batch(cbs)| ==> Free(Batch(cbs)[i]) && Batch(cbs)[i].cb.Some?
  {
    if cbs != [] { BatchFree(cbs[..|cbs| - 1]); }
  }

  class Scheduler {
    var fibers: seq<Entry<Fiber>>
    var active: int
    var tickles: nat

    constructor ()
      ensures Valid() && fibers == [] && active == 0 && tickles == 0
    {
      fibers, active, tickles := [], 0, 0;
    }

    /** Every queued entry holds a fiber or a callback. */
    predicate Valid()
      reads this
    {
      forall i :: 0 <= i < |fibers| ==> fibers[i].fiber.Some? || fibers[i].cb.Some?
    }

    method Tickle()
      modifies this`tickles
      ensures tickles == old(tickles) + 1
    {
      tickles := tickles + 1;
    }

    method ScheduleNoLock(e: Entry<Fiber>) returns (needTickle: bool)
      requires Valid()
      modifies this`fibers
      ensures Valid() && needTickle == (old(fibers) == [])
      ensures fibers == if e.fiber.Some? || e.cb.Some? then old(fibers) + [e] else old(fibers)
    {
      needTickle := |fibers| == 0;
      if e.fiber.Some? || e.cb.Some? {
        fibers := fibers + [e];
      }
    }

    /** schedule of one task: appended unless it is empty; the workers are tickled
        exactly when the queue was empty. */
    method Schedule(e: Entry<Fiber>)
      requires Valid()
      modifies this`fibers, this`tickles
      ensures Valid()
      ensures fibers == if e.fiber.Some? || e.cb.Some? then old(fibers) + [e] else old(fibers)
      ensures tickles == old(tickles) + if old(fibers) == [] then 1 else 0
    {
      var needTickle := ScheduleNoLock(e);
      if needTickle {
        Tickle();
      }
    }

    /** schedule of a range of callbacks. They are swapped out of the caller's storage
        and stand at the end of the queue, contiguous and in order. */
    method ScheduleBatch(cbs: array<Option<nat>>)
      requires Valid()
      modifies this`fibers, this`tickles, cbs
      ensures Valid()
      ensures fibers == old(fibers) + Batch(old(cbs[..]))
      ensures forall i :: 0 <= i < cbs.Length ==> cbs[i] == None
      ensures tickles == old(tickles) + if old(fibers) == [] && cbs.Length > 0 then 1 else 0
    {
      ghost var all := cbs[..];
      var needTickle := false;
      var i := 0;
      while i < cbs.Length
        invariant i <= cbs.Length && Valid()
        invariant fibers == old(fibers) + Batch(all[..i])
        invariant forall k :: 0 <= k < i ==> cbs[k] == None
        invariant forall k :: i <= k < cbs.Length ==> cbs[k] == all[k]
        invariant needTickle == (old(fibers) == [] && i > 0) && tickles == old(tickles)
      {
        var e := Entry(None, cbs[i], -1);
        cbs[i] := None;
        var need := ScheduleNoLock(e);
        needTickle := need || needTickle;
        assert all[..i + 1][..i] == all[..i];
        i := i + 1;
      }
      assert all[..i] == all;
      if needTickle {
        Tickle();
      }
    }

    /** The scan of run: the earliest entry this thread may take leaves the queue, the
        rest keeps its order. An entry pinned to another thread is passed, and so is a
        fiber that is executing (it was queued again before it parked). Another worker
        is tickled when a pinned entry was passed or something follows the entry taken. */
    method Scan(thread: int) returns (taken: Option<Entry<Fiber>>, ghost at: nat)
      requires Valid()
      modifies this
      ensures Valid() && at <= |old(fibers)| && (taken.Some? <==> at < |old(fibers)|)
      ensures forall j :: 0 <= j < at ==>
                var e := old(fibers)[j];
                (e.thread != -1 && e.thread != thread) || (e.fiber.Some? && e.fiber.value.state == Runtime.EXEC)
      ensures taken.Some? ==>
                && taken.value == old(fibers)[at] && fibers == old(fibers)[..at] + old(fibers)[at + 1..]
                && (taken.value.thread == -1 || taken.value.thread == thread)
                && (taken.value.fiber.Some? ==> taken.value.fiber.value.state != Runtime.EXEC)
      ensures taken.None? ==> fibers == old(fibers)
      ensures active == old(active) + if taken.Some? then 1 else 0
      ensures tickles == old(tickles)
              + if at + 1 < |old(fibers)| || PinnedBefore(old(fibers), thread, at) then 1 else 0
    {
      ghost var q := fibers;
      var tickleMe := false;
      taken := None;
      var i := 0;
      while i < |fibers| && taken.None?
        invariant i <= |q| && Valid()
        invariant taken.None? ==> fibers == q && active == old(active)
        invariant tickleMe == PinnedBefore(q, thread, i)
        invariant forall j :: 0 <= j < i ==>
                    (q[j].thread != -1 && q[j].thread != thread)
                    || (q[j].fiber.Some? && q[j].fiber.value.state == Runtime.EXEC)
        invariant taken.Some? ==> i < |q| && taken.value == q[i] && fibers == q[..i] + q[i + 1..]
        invariant taken.Some? ==> taken.value.thread == -1 || taken.value.thread == thread
        invariant taken.Some? && taken.value.fiber.Some? ==> taken.value.fiber.value.state != Runtime.EXEC
        invariant taken.Some? ==> active == old(active) + 1
        invariant tickles == old(tickles)
        decreases |fibers| - i, taken.None?
      {
        var e := fibers[i];
        if e.thread != -1 && e.thread != thread {
          i := i + 1;
          tickleMe := true;
        } else if e.fiber.Some? && e.fiber.value.state == Runtime.EXEC {
          i := i + 1;
        } else {
          taken := Some(e);
          fibers := RemoveAt(fibers, i);
          active := active + 1;
        }
      }
      at := i;
      tickleMe := tickleMe || i < |fibers|;
      if tickleMe {
        Tickle();
      }
    }

    /** What run does with a fiber it took: nothing if it has ended, else switch to it
        and, when it comes back, queue it again if it yielded ready. */
    method RunFiber(f: Fiber, back: FiberState) returns (ok: bool)
      requires Valid() && back != Runtime.INIT
      modifies this, f
      ensures Valid()
      ensures ok <==> old(f.state) != Runtime.EXEC
      ensures ok ==> active == old(active) - 1
      ensures ok && old(f.state) in {Runtime.TERM, Runtime.EXCEPT} ==> f.state == old(f.state) && fibers == old(fibers)
      ensures ok && old(f.state) !in {Runtime.TERM, Runtime.EXCEPT} ==>
                && f.state == (if back == Runtime.EXEC then Runtime.HOLD else back)
                && fibers == if back == Runtime.READY then old(fibers) + [Entry(Some(f), None, -1)] else old(fibers)
    {
      if f.state == Runtime.TERM || f.state == Runtime.EXCEPT {
        active := active - 1;
        return true;
      }
      ok := f.SwapIn(back);
      if !ok {
        return;
      }
      active := active - 1;
      if f.state == Runtime.READY {
        Schedule(Entry(Some(f), None, -1));
      } else if f.state != Runtime.TERM && f.state != Runtime.EXCEPT {
        f.state := Runtime.HOLD;
      }
    }

    /** What run does with a callback it took: run it in the worker's callback fiber,
        and give that fiber up unless its code has ended. The fiber kept is always
        fresh, so no assertion fires on the next turn either. */
    method RunCallback(cb: nat, own: Option<Fiber>, back: FiberState) returns (ok: bool, g: Fiber, kept: Option<Fiber>)
      requires Valid() && back != Runtime.INIT
      requires own.Some? ==> own.value.state == Runtime.INIT
      modifies this, if own.Some? then {own.value} else {}
      ensures Valid() && ok && active == old(active) - 1
      ensures if own.Some? then g == own.value else fresh(g)
      ensures kept == if back == Runtime.TERM || back == Runtime.EXCEPT then Some(g) else None
      ensures kept.Some? ==> g.state == Runtime.INIT && g.cb == None && fibers == old(fibers)
      ensures kept.None? ==> g.cb == Some(cb)
      ensures kept.None? ==> g.state == if back == Runtime.READY then Runtime.READY else Runtime.HOLD
      ensures kept.None? ==> fibers == old(fibers) + if back == Runtime.READY then [Entry(Some(g), None, -1)] else []
    {
      if own.Some? {
        g := own.value;
        ok := g.Reset(Some(cb));
      } else {
        g := new Fiber(Some(cb));
      }
      ok := g.SwapIn(back);
      active := active - 1;
      if g.state == Runtime.READY {
        Schedule(Entry(Some(g), None, -1));
        kept := None;
      } else if g.state == Runtime.TERM || g.state == Runtime.EXCEPT {
        ok := g.Reset(None);
        kept := Some(g);
      } else {
        g.state := Runtime.HOLD;
        kept := None;
      }
    }

    /** Nobody executes, and the worker's callback fiber is fresh and not queued. */
    ghost predicate Calm(own: Option<Fiber>)
      reads this, Members(fibers), if own.Some? then {own.value} else {}
    {
      && Valid() && (forall f :: f in Members(fibers) ==> f.state != Runtime.EXEC)
      && (own.Some? ==> own.value.state == Runtime.INIT && own.value !in Members(fibers))
    }

    /** What run does with the entry it took, with nobody else at work. */
    method RunEntry(e: Entry<Fiber>, own: Option<Fiber>, back: FiberState) returns (ok: bool, kept: Option<Fiber>)
      requires Calm(own) && back != Runtime.INIT && (e.fiber.Some? || e.cb.Some?)
      requires e.fiber.Some? ==> e.fiber.value.state != Runtime.EXEC && Some(e.fiber.value) != own
      modifies this, if e.fiber.Some? then {e.fiber.value} else {}, if own.Some? then {own.value} else {}
      ensures ok && Calm(kept) && active == old(active) - 1
      ensures kept.Some? && kept != own ==> fresh(kept.value)
      ensures forall f :: f in Members(fibers) ==>
                f in old(Members(fibers)) || Some(f) == own || Some(f) == e.fiber || fresh(f)
      ensures old(fibers) <= fibers && |fibers| <= |old(fibers)| + 1
    {
      ghost var rest := fibers;
      if e.fiber.Some? {
        MembersPush(rest, e.fiber.value);
        hide Members;
        ok := RunFiber(e.fiber.value, back);
        kept := own;
      } else {
        var g;
        ok, g, kept := RunCallback(e.cb.value, own, back);
        MembersPush(rest, g);
        assert rest + [] == rest;
      }
    }

    /** One turn of run with nobody else at work: the earliest entry that is not pinned
        to another thread is run, the others keep their order. */
    method Turn(thread: int, own: Option<Fiber>, back: FiberState)
      returns (ok: bool, idle: bool, kept: Option<Fiber>, ghost at: nat)
      requires Calm(own) && back != Runtime.INIT
      modifies this, Members(fibers), if own.Some? then {own.value} else {}
      ensures ok && Calm(kept) && active == old(active)
      ensures kept.Some? && kept != own ==> fresh(kept.value)
      ensures forall f :: f in Members(fibers) ==> f in old(Members(fibers)) || Some(f) == own || fresh(f)
      ensures at <= |old(fibers)| && (idle <==> at == |old(fibers)|)
      ensures forall j :: 0 <= j < at ==> old(fibers)[j].thread != -1 && old(fibers)[j].thread != thread
      ensures idle ==> fibers == old(fibers)
      ensures !idle ==>
                && (old(fibers)[at].thread == -1 || old(fibers)[at].thread == thread)
                && old(fibers)[..at] + old(fibers)[at + 1..] <= fibers && |fibers| <= |old(fibers)|
    {
      ghost var before := fibers;
      var taken;
      taken, at := Scan(thread);
      assert forall j :: 0 <= j < at && before[j].fiber.Some? ==> before[j].fiber.value in Members(before);
      if taken.None? {
        return true, true, own, at;
      }
      MembersWithout(before, at);
      assert taken.value.fiber.Some? ==> taken.value.fiber.value in Members(before);
      hide Members;
      ok, kept := RunEntry(taken.value, own, back);
      idle := false;
    }

    /** One worker alone, turn after turn: `backs` are the states the code run in each
        turn leaves behind. No assertion of swapIn or reset fires, the count of active
        workers returns to what it was, the callback fiber kept between turns is never
        a suspended one, and it stops early only before entries of other threads. */
    method Work(thread: int, backs: seq<FiberState>) returns (ok: bool, own: Option<Fiber>, turns: nat)
      requires Calm(None)
      requires forall i :: 0 <= i < |backs| ==> backs[i] != Runtime.INIT
      modifies this, Members(fibers)
      ensures ok && Calm(own) && active == old(active) && turns <= |backs|
      ensures turns < |backs| ==>
                forall j :: 0 <= j < |fibers| ==> fibers[j].thread != -1 && fibers[j].thread != thread
    {
      ok, own, turns := true, None, 0;
      while turns < |backs|
        invariant turns <= |backs| && ok && active == old(active) && Calm(own)
        invariant own.Some? ==> fresh(own.value)
        invariant forall f :: f in Members(fibers) ==> f in old(Members(fibers)) || fresh(f)
      {
        var idle;
        ghost var at;
        ok, idle, own, at := Turn(thread, own, backs[turns]);
        if idle {
          return;
        }
        turns := turns + 1;
      }
    }
  }

  /** An entry pinned to another thread stands before position `i`. */
  predicate PinnedBefore(q: seq<Entry<Fiber>>, thread: int, i: nat)
  {
    exists j :: 0 <= j < i && j < |q| && q[j].thread != -1 && q[j].thread != thread
  }
}
