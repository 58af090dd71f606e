/**
 The timer manager: timers are objects updated in place, the ordered set holds
 references to them. Every operation is proved to do what module `Timers` says.
 */
module TimerManager {
  import opened Options
  import opened Sequences
  import opened Timers

  class Timer {
    const addr: nat  // the address the comparator falls back to
    var next: nat
    var ms: nat
    var recurring: bool
    var cb: Option<nat>

    constructor (addr: nat, ms: nat, cb: nat, recurring: bool, now: nat)
      ensures this.addr == addr && AsRec() == Rec(Deadline(now, ms), ms, recurring, Some(cb))
    {
      this.addr := addr;
      this.ms, this.cb, this.recurring := ms, Some(cb), recurring;
      next := Deadline(now, ms);
    }

    function AsRec(): Rec
      reads this
    {
      Rec(next, ms, recurring, cb)
    }

    /** Comparator(this, other). */
    predicate Before(other: Timer)
      reads this, other
    {
      next < other.next || (next == other.next && addr < other.addr)
    }
  }

  /** `t` was put somewhere into the sequence, or taken out of it; the others keep their
      order. */
  ghost predicate Inserted(before: seq<Timer>, t: Timer, after: seq<Timer>)
  {
    exists i {:trigger InsertAt(before, i, t)} :: 0 <= i <= |before| && after == InsertAt(before, i, t)
  }

  ghost predicate Removed(before: seq<Timer>, t: Timer, after: seq<Timer>)
  {
    exists i {:trigger before[i]} :: 0 <= i < |before| && before[i] == t && after == RemoveAt(before, i)
  }

  ghost predicate Relocated(before: seq<Timer>, t: Timer, after: seq<Timer>)
  {
    exists i {:trigger before[i]} :: 0 <= i < |before| && before[i] == t && Inserted(RemoveAt(before, i), t, after)
  }

  /** The hook is called for a new front exactly when the flag was not set yet. */
  predicate Hooked(tickled: bool, hooks: nat, front: bool, tickled': bool, hooks': nat)
  {
    tickled' == (tickled || front) && hooks' == hooks + if front && !tickled then 1 else 0
  }

  lemma RelocatedBy(before: seq<Timer>, t: Timer, rest: seq<Timer>, after: seq<Timer>)
    requires Removed(before, t, rest) && Inserted(rest, t, after)
    ensures Relocated(before, t, after)
  {
  }

  class TimerManager {
    var timers: seq<Timer>  // the std::set, in iteration order
    var tickled: bool

    ghost var objs: map<nat, Timer>  // every timer of this manager, by address
    ghost var all: set<Timer>  // the same, as a footprint
    ghost var recs: Recs
    ghost var order: seq<nat>
    ghost var hooks: nat
    ghost var seen: Option<nat>
    ghost var clock: nat

    ghost function AsState(): State
      reads this
    {
      State(recs, tickled, hooks, seen, clock)
    }

    /** The objects carry the recorded fields. */
    ghost predicate Recorded()
      reads this`objs, this`all, this`recs, all
    {
      && recs.Keys == objs.Keys
      && forall a {:trigger IsTimer(a)} :: a in objs ==> IsTimer(a)
    }

    ghost predicate IsTimer(a: nat)
      reads this`objs, this`all, this`recs, all
    {
      && a in objs && a in recs && objs[a] in all
      && objs[a].addr == a && objs[a].AsRec() == recs[a]
    }

    /** `t` is one of this manager's timers. */
    ghost predicate Owns(t: Timer)
      reads this`objs
    {
      t.addr in objs && objs[t.addr] == t
    }

    /** The timers with these addresses. */
    ghost predicate AreTimers(due: seq<Timer>, ex: seq<nat>)
      reads this`objs
    {
      |due| == |ex| && forall i :: 0 <= i < |due| ==> ex[i] in objs && objs[ex[i]] == due[i]
    }

    /** The set holds the timers `P`, in order. */
    ghost predicate Holds(P: set<nat>)
      reads this`timers, this`objs, this`recs, this`order
    {
      AreTimers(timers, order) && Ordered(recs, order, P)
    }

    lemma SplitTimers(n: nat)
      requires AreTimers(timers, order) && n <= |timers|
      ensures AreTimers(timers[..n], order[..n]) && AreTimers(timers[n..], order[n..])
    {
    }

    /** A timer is in the set exactly when it has a callback. */
    ghost predicate Valid()
      reads this, all
    {
      Recorded() && Holds(Pending(recs))
    }

    constructor ()
      ensures Valid() && AsState() == Initial && timers == []
    {
      timers, tickled := [], false;
      objs, all, recs, order := map[], {}, map[], [];
      hooks, seen, clock := 0, None, 0;
    }

    lemma KnownTimer(a: nat)
      requires Recorded() && a in objs
      ensures objs[a].addr == a && objs[a] in all && a in recs && objs[a].AsRec() == recs[a]
    {
      assert IsTimer(a);
    }

    /** A timer is in the set exactly when it is one of `P`. */
    lemma InSet(P: set<nat>, t: Timer)
      requires Recorded() && Holds(P) && Owns(t)
      ensures t in timers <==> t.addr in P
    {
      if t in timers {
        var i :| 0 <= i < |timers| && timers[i] == t;
        KnownTimer(order[i]);
      }
      if t.addr in P {
        var i :| 0 <= i < |order| && order[i] == t.addr;
        assert timers[i] == t;
      }
    }

    /** The set holds exactly the timers with a callback, earliest deadline first and
        by address where deadlines are equal. */
    lemma SetIntegrity()
      requires Valid()
      ensures forall a :: a in objs ==> (objs[a] in timers <==> objs[a].cb.Some?)
      ensures forall i, j :: 0 <= i < j < |timers| ==>
                timers[i].next < timers[j].next
                || (timers[i].next == timers[j].next && timers[i].addr < timers[j].addr)
    {
      forall a | a in objs ensures objs[a] in timers <==> objs[a].cb.Some? {
        KnownTimer(a);
        InSet(Pending(recs), objs[a]);
      }
      forall i, j | 0 <= i < j < |timers|
        ensures timers[i].next < timers[j].next
                || (timers[i].next == timers[j].next && timers[i].addr < timers[j].addr)
      {
        TimerAt(i);
        TimerAt(j);
        assert Less(recs, order[i], order[j]);
      }
    }

    lemma TimerAt(i: nat)
      requires Recorded() && |order| == |timers| && i < |timers|
      requires order[i] in objs && objs[order[i]] == timers[i]
      ensures timers[i].addr == order[i] && order[i] in recs && timers[i].AsRec() == recs[order[i]]
      ensures timers[i] in all
    {
      assert IsTimer(order[i]);
    }

    /** lower_bound: the first element that is not before `t`. */
    method LowerBound(t: Timer, ghost P: set<nat>) returns (i: nat)
      requires Recorded() && Holds(P) && Owns(t)
      ensures i <= |timers|
      ensures forall j :: 0 <= j < i ==> Less(recs, order[j], t.addr)
      ensures i < |timers| ==> !Less(recs, order[i], t.addr)
    {
      assert IsTimer(t.addr);
      i := 0;
      while i < |timers|
        invariant i <= |timers|
        invariant forall j :: 0 <= j < i ==> Less(recs, order[j], t.addr)
      {
        TimerAt(i);
        if !timers[i].Before(t) {
          return;
        }
        i := i + 1;
      }
    }

    /** find and erase. The element is always there: find never returns end(). */
    method Erase(t: Timer, ghost P: set<nat>)
      requires Recorded() && Holds(P) && t.addr in P && Owns(t)
      modifies this`timers, this`order
      ensures Holds(P - {t.addr}) && Removed(old(timers), t, timers)
    {
      var i := LowerBound(t, P);
      SearchFinds(recs, order, P, i, t.addr);
      OrderedRemove(recs, order, P, i);
      assert timers[i] == t;
      timers, order := RemoveAt(timers, i), RemoveAt(order, i);
    }

    lemma InsertFacts(t: Timer, P: set<nat>, i: nat)
      requires Recorded() && Holds(P) && Owns(t) && t.addr !in P && i <= |timers|
      requires forall j :: 0 <= j < i ==> Less(recs, order[j], t.addr)
      requires i < |timers| ==> !Less(recs, order[i], t.addr)
      ensures Ordered(recs, InsertAt(order, i, t.addr), P + {t.addr})
      ensures forall k :: 0 <= k <= |timers| ==>
                InsertAt(order, i, t.addr)[k] in objs
                && objs[InsertAt(order, i, t.addr)[k]] == InsertAt(timers, i, t)[k]
      ensures i == 0 <==> forall b :: b in P ==> b in recs && Less(recs, t.addr, b)
      ensures i == 0 <==> InsertAt(timers, i, t)[0] == t
    {
      KnownTimer(t.addr);
      OrderedInsert(recs, order, P, i, t.addr);
      FrontIff(recs, order, P, i, t.addr);
      InSet(P, t);
      hide Ordered, Less, InsertAt, Recorded;
    }

    /** insert; `front` says whether it became the first element. */
    method InsertTimer(t: Timer, ghost P: set<nat>) returns (front: bool)
      requires Recorded() && Holds(P) && t.addr !in P && Owns(t)
      modifies this`timers, this`order
      ensures Holds(P + {t.addr}) && Inserted(old(timers), t, timers)
      ensures front <==> forall b :: b in P ==> b in recs && Less(recs, t.addr, b)
      ensures front <==> timers[0] == t
    {
      var i := LowerBound(t, P);
      InsertFacts(t, P, i);
      hide Ordered, Less, InsertAt, Recorded;
      timers, order := InsertAt(timers, i, t), InsertAt(order, i, t.addr);
      front := i == 0;
    }

    /** Assign the fields of one timer. */
    method Assign(t: Timer, r: Rec)
      requires Recorded() && Owns(t)
      modifies t, this`recs
      ensures Recorded() && recs == old(recs)[t.addr := r] && t.AsRec() == r
    {
      assert IsTimer(t.addr);
      t.next, t.ms, t.recurring, t.cb := r.next, r.ms, r.recurring, r.cb;
      recs := recs[t.addr := r];
      forall a | a in objs ensures IsTimer(a) {
        assert old(IsTimer(a));
      }
    }

    /** Take a pending timer out of the set and give it new fields; no key changes while
        its timer is in the set. */
    method Detach(t: Timer, r: Rec)
      requires Valid() && Owns(t) && t.cb.Some?
      modifies this`timers, this`order, this`recs, t
      ensures Recorded() && recs == old(recs)[t.addr := r] && t.AsRec() == r
      ensures t.addr in old(Pending(recs)) && Holds(old(Pending(recs)) - {t.addr})
      ensures Removed(old(timers), t, timers)
    {
      KnownTimer(t.addr);
      ghost var P, r0 := Pending(recs), recs;
      hide Removed;
      Erase(t, P);
      Assign(t, r);
      OrderedFrame(r0, recs, order, P - {t.addr});
    }

    method InsertPending(t: Timer) returns (front: bool)
      requires Recorded() && Owns(t) && IsPending(recs, t.addr) && Holds(Pending(recs) - {t.addr})
      modifies this`timers, this`order
      ensures Valid() && Inserted(old(timers), t, timers)
      ensures (front <==> timers[0] == t) && (front <==> AtFront(recs, t.addr))
    {
      AtFrontIff(recs, t.addr);
      assert Pending(recs) - {t.addr} + {t.addr} == Pending(recs);
      hide Inserted, Ordered, AtFront, Less, Recorded;
      front := InsertTimer(t, Pending(recs) - {t.addr});
    }

    /** The tail of addTimer: insert `t` and call the hook for a new front. */
    method AddToSet(t: Timer)
      requires Recorded() && Owns(t) && IsPending(recs, t.addr) && Holds(Pending(recs) - {t.addr})
      modifies this`timers, this`order, this`tickled, this`hooks
      ensures Valid() && AsState() == Insert(old(AsState()), t.addr)
      ensures Inserted(old(timers), t, timers) && Hooked(old(tickled), old(hooks), timers[0] == t, tickled, hooks)
    {
      hide Inserted, Ordered, AtFront, Holds, Recorded, Pending;
      var first := InsertPending(t);
      CallHook(first);
    }

    /** Call the hook for a new front, unless it was called since the last query. */
    method CallHook(front: bool)
      modifies this`tickled, this`hooks
      ensures Hooked(old(tickled), old(hooks), front, tickled, hooks)
    {
      var atFront := front && !tickled;
      if atFront {
        tickled := true;
        hooks := hooks + 1;
      }
    }

    /** A new pending timer; the hook is called exactly for a new front, once until the
        next query. */
    method AddTimer(addr: nat, ms: nat, cb: nat, recurring: bool, now: nat) returns (t: Timer)
      requires Valid() && !IsPending(recs, addr)
      modifies this
      ensures Valid() && fresh(t) && all == old(all) + {t} && objs == old(objs)[addr := t]
      ensures t.addr == addr && AsState() == Add(old(AsState()), addr, ms, cb, recurring, now)
      ensures t.AsRec() == Rec((now + ms) % WRAP, ms, recurring, Some(cb))
      ensures Inserted(old(timers), t, timers)
      ensures Hooked(old(tickled), old(hooks), timers[0] == t, tickled, hooks)
    {
      AddIs(AsState(), addr, ms, cb, recurring, now);
      hide Ordered, Insert, Add, Deadline, Inserted, Recorded, Holds, Pending, Hooked;
      t := new Timer(addr, ms, cb, recurring, now);
      Record(t);
      clock := now;
      AddToSet(t);
    }

    /** A new timer becomes one of this manager's. */
    ghost method Record(t: Timer)
      requires Valid() && !IsPending(recs, t.addr) && t.cb.Some? && t !in all
      modifies this`objs, this`all, this`recs
      ensures objs == old(objs)[t.addr := t] && all == old(all) + {t} && recs == old(recs)[t.addr := t.AsRec()]
      ensures Recorded() && IsPending(recs, t.addr) && Holds(Pending(recs) - {t.addr})
    {
      ghost var P, r := Pending(recs), recs;
      objs, all, recs := objs[t.addr := t], all + {t}, recs[t.addr := t.AsRec()];
      forall a | a in objs ensures IsTimer(a) {
        assert a != t.addr ==> old(IsTimer(a));
      }
      OrderedFrame(r, recs, order, P);
      assert P == Pending(recs) - {t.addr};
    }

    /** True when the timer was pending; afterwards it is not, and it is not in the set.
        The others keep their order. */
    method CancelTimer(t: Timer) returns (ok: bool)
      requires Valid() && Owns(t)
      modifies this`timers, this`order, this`recs, t
      ensures Valid() && AsState() == Cancel(old(AsState()), t.addr)
      ensures ok == old(t.cb.Some?) && t.cb == None && t !in timers
      ensures t.AsRec() == old(t.AsRec()).(cb := None)
      ensures if ok then Removed(old(timers), t, timers) else timers == old(timers)
    {
      KnownTimer(t.addr);
      ok := t.cb.Some?;
      ghost var P := Pending(recs);
      if ok {
        Detach(t, t.AsRec().(cb := None));
        assert P - {t.addr} == Pending(recs);
      }
      hide Removed, Ordered;
      InSet(Pending(recs), t);
    }

    /** Put a timer back whose fields changed while it was out. */
    method PutBack(t: Timer)
      requires Recorded() && Owns(t) && t.addr in Pending(recs) && Holds(Pending(recs) - {t.addr})
      modifies this`timers, this`order
      ensures Valid() && Inserted(old(timers), t, timers)
    {
      assert Pending(recs) - {t.addr} + {t.addr} == Pending(recs);
      hide Inserted, Ordered, Recorded;
      var first := InsertTimer(t, Pending(recs) - {t.addr});
    }

    /** Take out, give a new deadline, put back. */
    method Rekey(t: Timer, next: nat)
      requires Valid() && Owns(t) && t.cb.Some?
      modifies this`timers, this`order, this`recs, t
      ensures Valid() && t.AsRec() == old(t.AsRec()).(next := next) && recs == old(recs)[t.addr := t.AsRec()]
      ensures Relocated(old(timers), t, timers)
    {
      KnownTimer(t.addr);
      var r := t.AsRec().(next := next);
      PendingRekeyed(recs, t.addr, r);
      hide Ordered, Removed, Inserted, Relocated, Recorded, Holds, Pending;
      Detach(t, r);
      ghost var rest := timers;
      PutBack(t);
      RelocatedBy(old(timers), t, rest, timers);
    }

    method RefreshTo(t: Timer, next: nat, now: nat) returns (ok: bool)
      requires Valid() && Owns(t)
      modifies this`timers, this`order, this`recs, this`clock, t
      ensures Valid() && t.addr in old(recs) && ok == old(t.cb.Some?)
      ensures t.AsRec() == if ok then old(t.AsRec()).(next := next) else old(t.AsRec())
      ensures clock == now && recs == old(recs)[t.addr := t.AsRec()] && old(recs)[t.addr] == old(t.AsRec())
      ensures if ok then Relocated(old(timers), t, timers) else timers == old(timers)
    {
      KnownTimer(t.addr);
      hide Relocated, Holds, Recorded, Pending;
      clock := now;
      ok := t.cb.Some?;
      if ok {
        Rekey(t, next);
      }
    }

    /** A pending timer starts its period anew; nobody is told. */
    method RefreshTimer(t: Timer, now: nat) returns (ok: bool)
      requires Valid() && Owns(t)
      modifies this`timers, this`order, this`recs, this`clock, t
      ensures Valid() && AsState() == Refresh(old(AsState()), t.addr, now)
      ensures ok == old(t.cb.Some?)
      ensures t.AsRec() == if ok then old(t.AsRec()).(next := (now + old(t.ms)) % WRAP) else old(t.AsRec())
      ensures if ok then Relocated(old(timers), t, timers) else timers == old(timers)
    {
      ghost var s := AsState();
      KnownTimer(t.addr);
      RefreshIs(s, t.addr, now);
      hide Relocated, Holds, Recorded, Refresh, Deadline;
      ok := RefreshTo(t, Deadline(now, t.ms), now);
    }

    /** Take out, give new fields, and add as a new timer is added. */
    method AddAgain(t: Timer, r: Rec)
      requires Valid() && Owns(t) && t.cb.Some? && r.cb.Some?
      modifies this`timers, this`order, this`recs, this`tickled, this`hooks, t
      ensures Valid() && t.AsRec() == r
      ensures AsState() == Insert(old(AsState()).(recs := old(recs)[t.addr := r]), t.addr)
      ensures Relocated(old(timers), t, timers) && Hooked(old(tickled), old(hooks), timers[0] == t, tickled, hooks)
    {
      KnownTimer(t.addr);
      PendingRekeyed(recs, t.addr, r);
      hide Ordered, Insert, Removed, Inserted, Relocated, Recorded, Holds, Pending, Hooked;
      Detach(t, r);
      ghost var rest := timers;
      AddToSet(t);
      RelocatedBy(old(timers), t, rest, timers);
    }

    /** A pending timer gets a new period, from now or from where the old one started;
        the hook is called as for a new timer. */
    method ResetTimer(t: Timer, ms: nat, fromNow: bool, now: nat) returns (ok: bool)
      requires Valid() && Owns(t)
      modifies this`timers, this`order, this`recs, this`clock, this`tickled, this`hooks, t
      ensures Valid() && AsState() == Reset(old(AsState()), t.addr, ms, fromNow, now)
      ensures ok == (old(t.cb.Some?) && !(ms == old(t.ms) && !fromNow))
      ensures
        var r := old(t.AsRec());
        t.AsRec() == if !ok then r
                     else r.(ms := ms, next := if fromNow then (now + ms) % WRAP else (r.next - r.ms + ms) % WRAP)
      ensures if ok then Relocated(old(timers), t, timers) else timers == old(timers)
      ensures Hooked(old(tickled), old(hooks), ok && timers[0] == t, tickled, hooks)
    {
      KnownTimer(t.addr);
      StartedAt(t.AsRec(), ms, fromNow, now);
      hide Relocated, Holds, Recorded, Pending, Insert, Deadline, ResetStart;
      clock := now;
      if ms == t.ms && !fromNow {
        return false;
      }
      ok := t.cb.Some?;
      if ok {
        var start := ResetStart(t.AsRec(), fromNow, now);
        AddAgain(t, t.AsRec().(ms := ms, next := Deadline(start, ms)));
      }
    }

    method GetNextTimer(now: nat) returns (left: nat, ghost d: Option<nat>)
      requires Valid()
      modifies this`tickled, this`hooks, this`seen, this`clock
      ensures Valid() && IsEarliest(recs, d) && AsState() == GetNext(old(AsState()), d, now)
      ensures left == TimeLeft(d, now)
      ensures !tickled && hooks == 0 && seen == d
      ensures timers == [] ==> left == WRAP - 1 && d == None
      ensures timers != [] ==>
                && d == Some(timers[0].next) && now + left == (if now < timers[0].next then timers[0].next else now)
                && forall i :: 0 <= i < |timers| ==> timers[0].next <= timers[i].next
    {
      SetIntegrity();
      tickled := false;
      d := if timers == [] then None else Some(timers[0].next);
      hooks, seen, clock := 0, d, now;
      if timers == [] {
        assert forall a :: a in recs && recs[a].cb.Some? ==> a in Pending(recs);
        return WRAP - 1, d;
      }
      TimerAt(0);
      assert order[0] in Pending(recs);
      forall a | a in recs && recs[a].cb.Some? ensures d.value <= recs[a].next {
        assert a in Pending(recs);
        var j :| 0 <= j < |order| && order[j] == a;
        assert j > 0 ==> Less(recs, order[0], order[j]);
      }
      var next := timers[0];
      left := if now >= next.next then 0 else next.next - now;
    }

    /** lower_bound of a probe timer at `now` with address `probe`. */
    method ProbeBound(now: nat, probe: nat, ghost P: set<nat>) returns (i: nat)
      requires Recorded() && Holds(P)
      ensures i <= |timers|
      ensures forall j :: 0 <= j < i ==> order[j] in recs && recs[order[j]].next <= now
      ensures i < |timers| ==> order[i] in recs && recs[order[i]].next >= now
    {
      hide Recorded;
      i := 0;
      while i < |timers| && (timers[i].next < now || (timers[i].next == now && timers[i].addr < probe))
        invariant i <= |timers|
        invariant forall j :: 0 <= j < i ==> order[j] in recs && recs[order[j]].next <= now
      {
        TimerAt(i);
        i := i + 1;
      }
      if i < |timers| { TimerAt(i); }
    }

    /** ... then on over the timers due right now: the number of due timers, whatever
        the address of the probe. */
    method CountDue(now: nat, probe: nat, ghost P: set<nat>) returns (i: nat)
      requires Recorded() && Holds(P)
      ensures i <= |timers|
      ensures forall j :: 0 <= j < i ==> order[j] in recs && recs[order[j]].next <= now
      ensures forall j :: i <= j < |order| ==> order[j] in recs && recs[order[j]].next > now
    {
      hide Recorded;
      i := ProbeBound(now, probe, P);
      if i < |timers| { TimerAt(i); }
      while i < |timers| && timers[i].next == now
        invariant i <= |timers|
        invariant forall j :: 0 <= j < i ==> order[j] in recs && recs[order[j]].next <= now
        invariant i < |timers| ==> timers[i].next >= now && recs[order[i]].next == timers[i].next
      {
        NextNotEarlier(recs, order, P, i);
        if i + 1 < |timers| { TimerAt(i + 1); }
        i := i + 1;
      }
      LaterToo(recs, order, P, i, now);
    }

    /** The loop body of listExpiredCb for one timer taken out of the set. */
    method ExpireTimer(t: Timer, now: nat, ghost P: set<nat>) returns (cb: nat)
      requires Recorded() && Holds(P) && t.addr !in P && Owns(t)
      requires IsPending(recs, t.addr)
      modifies this`timers, this`order, this`recs, t
      ensures Recorded() && recs == old(recs)[t.addr := ExpireOne(old(recs)[t.addr], now)]
      ensures Holds(if recs[t.addr].recurring then P + {t.addr} else P)
      ensures cb == old(recs)[t.addr].cb.value
    {
      assert IsTimer(t.addr);
      cb := t.cb.value;
      ghost var r := recs;
      if t.recurring {
        Assign(t, t.AsRec().(next := Deadline(now, t.ms)));
        OrderedFrame(r, recs, order, P);
        var first := InsertTimer(t, P);
      } else {
        Assign(t, t.AsRec().(cb := None));
        OrderedFrame(r, recs, order, P);
      }
    }

    /** Take the due timers out of the set. */
    method TakeDue(now: nat, probe: nat) returns (due: seq<Timer>, ghost expired: seq<nat>)
      requires Valid()
      modifies this`timers, this`order
      ensures Recorded() && AreTimers(due, expired)
      ensures Halfway(recs, recs, expired, 0, now, Pending(recs) - Elements(expired))
      ensures Holds(Pending(recs) - Elements(expired))
    {
      var n := CountDue(now, probe, Pending(recs));
      SplitTimers(n);
      SplitDue(recs, order, n, now);
      HalfwayStart(recs, order[..n], now);
      hide Recorded, Halfway, Ordered, IsExpired, Elements, Pending, AreTimers;
      due, expired := timers[..n], order[..n];
      timers, order := timers[n..], order[n..];
    }

    /** The callbacks of exactly the due timers, earliest deadline first. */
    method ListExpiredCb(now: nat, probe: nat) returns (cbs: seq<nat>, ghost expired: seq<nat>)
      requires Valid()
      modifies this`timers, this`order, this`recs, this`clock, all
      ensures Valid() && AsState() == Expire(old(AsState()), now)
      ensures Fired(old(recs), now, expired, cbs) && Left(old(recs), now, recs)
    {
      hide Recorded, Holds, Halfway, ExpireOne, IsExpired, AreCallbacks, ExpireAll, Fired, Left;
      clock := now;
      ghost var r0 := recs;
      var due;
      due, expired := TakeDue(now, probe);
      cbs := [];
      ghost var P := Pending(recs) - Elements(expired);
      NoCallbacks(r0, expired);
      var k := 0;
      while k < |due|
        invariant k <= |due| && Recorded() && Holds(P) && AreTimers(due, expired)
        invariant AsState() == old(AsState()).(recs := recs, clock := now)
        invariant Halfway(r0, recs, expired, k, now, P) && AreCallbacks(r0, expired[..k], cbs)
      {
        HalfwayStep(r0, recs, expired, k, now, P);
        KnownTimer(expired[k]);
        var cb := ExpireTimer(due[k], now, P);
        OneMoreCallback(r0, expired, k, cbs, cb);
        P := if recs[expired[k]].recurring then P + {expired[k]} else P;
        cbs, k := cbs + [cb], k + 1;
      }
      HalfwayEnd(r0, recs, expired, now, P);
      assert expired[..k] == expired;
      FiredExactly(r0, now, expired, cbs);
    }
  }

  /** `cbs` are the callbacks of exactly the timers that have one and a deadline up to
      `now`, each once, earliest deadline first. */
  ghost predicate Fired(r: Recs, now: nat, ex: seq<nat>, cbs: seq<nat>)
  {
    && |cbs| == |ex|
    && (forall i :: 0 <= i < |ex| ==> ex[i] in r && r[ex[i]].cb == Some(cbs[i]) && r[ex[i]].next <= now)
    && (forall a :: a in r && r[a].cb.Some? && r[a].next <= now ==> a in ex)
    && (forall i, j :: 0 <= i < j < |ex| ==> ex[i] != ex[j] && r[ex[i]].next <= r[ex[j]].next)
  }

  /** A one-shot timer that fired has no callback any more, a recurring one starts its
      period at `now`, all others are as before. */
  ghost predicate Left(r: Recs, now: nat, r': Recs)
  {
    && r'.Keys == r.Keys
    && forall a :: a in r ==>
         r'[a] == if r[a].cb.None? || r[a].next > now then r[a]
                  else if r[a].recurring then r[a].(next := (now + r[a].ms) % WRAP) else r[a].(cb := None)
  }

  lemma FiredExactly(r: Recs, now: nat, ex: seq<nat>, cbs: seq<nat>)
    requires IsExpired(r, now, ex) && AreCallbacks(r, ex, cbs)
    ensures Fired(r, now, ex, cbs) && Left(r, now, ExpireAll(r, now))
  {
    forall a | a in r && r[a].cb.Some? && r[a].next <= now ensures a in ex { assert Due(r[a], now); }
    forall i, j | 0 <= i < j < |ex| ensures ex[i] != ex[j] && r[ex[i]].next <= r[ex[j]].next {
      assert Less(r, ex[i], ex[j]);
    }
  }

  lemma NoCallbacks(r: Recs, ex: seq<nat>)
    ensures AreCallbacks(r, ex[..0], [])
  {
  }

  lemma OneMoreCallback(r: Recs, ex: seq<nat>, k: nat, cbs: seq<nat>, cb: nat)
    requires k < |ex| && AreCallbacks(r, ex[..k], cbs) && ex[k] in r && r[ex[k]].cb == Some(cb)
    ensures AreCallbacks(r, ex[..k + 1], cbs + [cb])
  {
    assert forall i :: 0 <= i < k ==> ex[..k + 1][i] == ex[..k][i];
  }

  /** `cbs` are the callbacks of the timers in `order`. */
  ghost predicate AreCallbacks(r: Recs, order: seq<nat>, cbs: seq<nat>)
  {
    |cbs| == |order| && forall i :: 0 <= i < |order| ==> order[i] in r && r[order[i]].cb == Some(cbs[i])
  }

  ghost function Elements(s: seq<nat>): set<nat> { set a | a in s }

  lemma SplitDue(r: Recs, order: seq<nat>, n: nat, now: nat)
    requires Ordered(r, order, Pending(r)) && n <= |order|
    requires forall j :: 0 <= j < n ==> order[j] in r && r[order[j]].next <= now
    requires forall j :: n <= j < |order| ==> order[j] in r && r[order[j]].next > now
    ensures IsExpired(r, now, order[..n])
    ensures Ordered(r, order[n..], Pending(r) - Elements(order[..n]))
  {
    forall a | a in r && Due(r[a], now) ensures a in order[..n] {
      assert a in Pending(r);
      var j :| 0 <= j < |order| && order[j] == a;
      assert order[..n][j] == a;
    }
    forall a | a in Pending(r) - Elements(order[..n]) ensures a in order[n..] {
      var j :| 0 <= j < |order| && order[j] == a;
      assert j >= n;
      assert order[n..][j - n] == a;
    }
    forall i | 0 <= i < |order[n..]| ensures order[n..][i] !in Elements(order[..n]) {
      forall j | 0 <= j < n ensures order[j] != order[n + i] {
        assert Less(r, order[j], order[n + i]);
      }
    }
  }

  /** `k` of the expired timers have been handled; the set holds `P`. */
  ghost predicate Halfway(r0: Recs, r: Recs, ex: seq<nat>, k: nat, now: nat, P: set<nat>)
  {
    && k <= |ex| && IsExpired(r0, now, ex)
    && r.Keys == r0.Keys
    && (forall a :: a in r0 ==> r[a] == if a in ex[..k] then ExpireOne(r0[a], now) else r0[a])
    && P == Pending(r) - Elements(ex[k..])
  }

  lemma HalfwayStart(r: Recs, ex: seq<nat>, now: nat)
    requires IsExpired(r, now, ex)
    ensures Halfway(r, r, ex, 0, now, Pending(r) - Elements(ex))
  {
    assert ex[0..] == ex;
  }

  lemma HalfwayStep(r0: Recs, r: Recs, ex: seq<nat>, k: nat, now: nat, P: set<nat>)
    requires Halfway(r0, r, ex, k, now, P) && k < |ex|
    ensures ex[k] in r0 && ex[k] in r && r[ex[k]] == r0[ex[k]] && r[ex[k]].cb.Some? && ex[k] !in P
    ensures
      var r' := r[ex[k] := ExpireOne(r[ex[k]], now)];
      Halfway(r0, r', ex, k + 1, now, if r'[ex[k]].recurring then P + {ex[k]} else P)
  {
    var a := ex[k];
    assert a !in ex[..k] && a !in ex[k + 1..] by {
      forall j | 0 <= j < |ex| && j != k ensures ex[j] != a {
        assert if j < k then Less(r0, ex[j], a) else Less(r0, a, ex[j]);
      }
    }
    assert ex[k..] == [a] + ex[k + 1..] && ex[..k + 1] == ex[..k] + [a];
    assert Due(r0[a], now);
    var r' := r[a := ExpireOne(r[a], now)];
    assert Elements(ex[k..]) == {a} + Elements(ex[k + 1..]);
    assert Pending(r') == if r'[a].recurring then Pending(r) else Pending(r) - {a};
  }

  lemma HalfwayEnd(r0: Recs, r: Recs, ex: seq<nat>, now: nat, P: set<nat>)
    requires Halfway(r0, r, ex, |ex|, now, P)
    ensures r == ExpireAll(r0, now) && P == Pending(r) && IsExpired(r0, now, ex)
  {
    assert ex[..|ex|] == ex && ex[|ex|..] == [];
    forall a | a in r0 ensures r[a] == ExpireAll(r0, now)[a] {
      if a in ex { assert Due(r0[a], now); }
    }
  }
}
