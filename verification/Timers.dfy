/**
 Timers as values: what each operation of TimerManager and Timer does to the set
 of pending deadlines, and what holds over every run of them.
 */
module Timers {
  import opened Options
  import opened Sequences

  /** Deadlines are unsigned 64-bit milliseconds. */
  const WRAP: int := 0x1_0000_0000_0000_0000

  /** A timer. It is pending as long as it has a callback. */
  datatype Rec = Rec(next: nat, ms: nat, recurring: bool, cb: Option<nat>)

  /** All timers of a manager, by address. */
  type Recs = map<nat, Rec>

  predicate IsPending(r: Recs, a: nat) { a in r && r[a].cb.Some? }

  ghost function Pending(r: Recs): set<nat> { set a | a in r && r[a].cb.Some? }

  /** Timer::Comparator: by deadline, then by address. */
  predicate Less(r: Recs, a: nat, b: nat)
    requires a in r && b in r
  {
    r[a].next < r[b].next || (r[a].next == r[b].next && a < b)
  }

  /** `order` is the iteration order of a std::set holding exactly `P`. */
  ghost predicate Ordered(r: Recs, order: seq<nat>, P: set<nat>)
  {
    && (forall i :: 0 <= i < |order| ==> order[i] in P && order[i] in r)
    && (forall a :: a in P ==> a in order)
    && (forall i, j :: 0 <= i < j < |order| ==> Less(r, order[i], order[j]))
  }

  // ----- the ordered set ---------------------------------------------------

  lemma OrderedRemove(r: Recs, order: seq<nat>, P: set<nat>, i: nat)
    requires Ordered(r, order, P) && i < |order|
    ensures Ordered(r, RemoveAt(order, i), P - {order[i]})
  {
    hide RemoveAt;
    var s := RemoveAt(order, i);
    forall a | a in P - {order[i]} ensures a in s {
      var j :| 0 <= j < |order| && order[j] == a;
      assert s[if j < i then j else j - 1] == a;
    }
    forall j | 0 <= j < |s| ensures s[j] in P - {order[i]} && s[j] in r {
      if j < i { assert Less(r, order[j], order[i]); } else { assert Less(r, order[i], order[j + 1]); }
    }
  }

  lemma OrderedInsert(r: Recs, order: seq<nat>, P: set<nat>, i: nat, a: nat)
    requires Ordered(r, order, P) && i <= |order| && a in r && a !in P
    requires forall j :: 0 <= j < i ==> Less(r, order[j], a)
    requires i < |order| ==> !Less(r, order[i], a)
    ensures Ordered(r, InsertAt(order, i, a), P + {a})
  {
    hide InsertAt;
    var s := InsertAt(order, i, a);
    forall b | b in P + {a} ensures b in s {
      if b == a {
        assert s[i] == a;
      } else {
        var j :| 0 <= j < |order| && order[j] == b;
        assert s[if j < i then j else j + 1] == b;
      }
    }
    forall j, k | 0 <= j < k < |s| ensures Less(r, s[j], s[k]) {
      if j == i {
        assert order[i] in P && order[k - 1] in P;
        assert Less(r, a, order[i]);
      }
    }
  }

  /** ... and the new element is the first exactly when it is before all others. */
  lemma FrontIff(r: Recs, order: seq<nat>, P: set<nat>, i: nat, a: nat)
    requires Ordered(r, order, P) && i <= |order| && a in r && a !in P
    requires forall j :: 0 <= j < i ==> Less(r, order[j], a)
    requires i < |order| ==> !Less(r, order[i], a)
    ensures i == 0 <==> forall b :: b in P ==> b in r && Less(r, a, b)
  {
    if i == 0 {
      forall b | b in P ensures b in r && Less(r, a, b) {
        var j :| 0 <= j < |order| && order[j] == b;
        assert order[0] in P;
        assert j > 0 ==> Less(r, order[0], order[j]);
      }
    } else {
      assert order[0] in P && Less(r, order[0], a);
    }
  }

  lemma NextNotEarlier(r: Recs, order: seq<nat>, P: set<nat>, i: nat)
    requires Ordered(r, order, P)
    ensures i + 1 < |order| ==> r[order[i]].next <= r[order[i + 1]].next
  {
    assert i + 1 < |order| ==> Less(r, order[i], order[i + 1]);
  }

  /** What comes after a timer that is not due is not due either. */
  lemma LaterToo(r: Recs, order: seq<nat>, P: set<nat>, i: nat, now: nat)
    requires Ordered(r, order, P) && i <= |order| && (i < |order| ==> r[order[i]].next > now)
    ensures forall j :: i <= j < |order| ==> order[j] in r && r[order[j]].next > now
  {
    forall j | i <= j < |order| ensures order[j] in r && r[order[j]].next > now {
      assert j > i ==> Less(r, order[i], order[j]);
    }
  }

  /** Changing a timer that is not in the set does not disturb the set. */
  lemma OrderedFrame(r: Recs, r': Recs, order: seq<nat>, P: set<nat>)
    requires Ordered(r, order, P)
    requires forall a :: a in P ==> a in r && a in r' && r'[a].next == r[a].next
    ensures Ordered(r', order, P)
  {
  }

  /** Searching for the key of a member stops at that member. */
  lemma SearchFinds(r: Recs, order: seq<nat>, P: set<nat>, i: nat, a: nat)
    requires Ordered(r, order, P) && a in P && i <= |order|
    requires forall j :: 0 <= j < i ==> Less(r, order[j], a)
    requires i < |order| ==> !Less(r, order[i], a)
    ensures i < |order| && order[i] == a
  {
    var k :| 0 <= k < |order| && order[k] == a;
    assert i == k;
  }

  // ----- the operations ----------------------------------------------------

  /**
   A manager: its timers, m_tickled, the number of calls of the front-insert hook
   since the last getNextTimer, the earliest deadline that call saw (None when
   there was none), and the time of the last operation.
   */
  datatype State = State(recs: Recs, tickled: bool, hooks: nat, seen: Option<nat>, clock: nat)

  /** The deadline `ms` after `start`, as the machine adds. */
  function Deadline(start: nat, ms: nat): nat { (start + ms) % WRAP }

  /** `a` comes first in the ordered set. */
  ghost predicate AtFront(r: Recs, a: nat)
  {
    a in r && forall b :: b in r && r[b].cb.Some? && b != a ==> Less(r, a, b)
  }

  /** New fields with a callback leave a pending timer pending. */
  lemma PendingRekeyed(r: Recs, a: nat, x: Rec)
    requires IsPending(r, a) && x.cb.Some?
    ensures Pending(r[a := x]) == Pending(r) && a in Pending(r) && Pending(r) - {a} + {a} == Pending(r)
  {
  }

  lemma AtFrontIff(r: Recs, a: nat)
    requires a in r
    ensures AtFront(r, a) <==> forall b :: b in Pending(r) - {a} ==> b in r && Less(r, a, b)
  {
  }

  /** The tail of addTimer: the hook is called for a new front, once. */
  ghost function Insert(s: State, a: nat): State
  {
    if AtFront(s.recs, a) && !s.tickled then s.(tickled := true, hooks := s.hooks + 1) else s
  }

  ghost function Add(s: State, a: nat, ms: nat, cb: nat, recurring: bool, now: nat): State
  {
    var r := Rec(Deadline(now, ms), ms, recurring, Some(cb));
    Insert(s.(recs := s.recs[a := r], clock := now), a)
  }

  lemma AddIs(s: State, a: nat, ms: nat, cb: nat, recurring: bool, now: nat)
    ensures Deadline(now, ms) == (now + ms) % WRAP
    ensures Add(s, a, ms, cb, recurring, now)
         == Insert(s.(recs := s.recs[a := Rec(Deadline(now, ms), ms, recurring, Some(cb))], clock := now), a)
  {
  }

  ghost function Cancel(s: State, a: nat): State
    requires a in s.recs
  {
    s.(recs := s.recs[a := s.recs[a].(cb := None)])
  }

  ghost function Refresh(s: State, a: nat, now: nat): State
    requires a in s.recs
  {
    var r := s.recs[a];
    if r.cb.None? then s.(clock := now)
    else s.(recs := s.recs[a := r.(next := Deadline(now, r.ms))], clock := now)
  }

  lemma RefreshIs(s: State, a: nat, now: nat)
    requires a in s.recs
    ensures Deadline(now, s.recs[a].ms) == (now + s.recs[a].ms) % WRAP
    ensures Refresh(s, a, now) ==
      if s.recs[a].cb.None? then s.(clock := now)
      else s.(recs := s.recs[a := s.recs[a].(next := Deadline(now, s.recs[a].ms))], clock := now)
  {
  }

  /** Where the period of a reset starts. */
  function ResetStart(r: Rec, fromNow: bool, now: nat): nat
  {
    if fromNow then now else (r.next - r.ms) % WRAP
  }

  /** The new deadline of a reset. */
  lemma StartedAt(r: Rec, ms: nat, fromNow: bool, now: nat)
    ensures Deadline(ResetStart(r, fromNow, now), ms)
         == if fromNow then (now + ms) % WRAP else (r.next - r.ms + ms) % WRAP
  {
    if !fromNow { ModMod(r.next - r.ms, ms); }
  }

  lemma ModMod(x: int, y: nat)
    ensures (x % WRAP + y) % WRAP == (x + y) % WRAP
  {
  }

  ghost function Reset(s: State, a: nat, ms: nat, fromNow: bool, now: nat): State
    requires a in s.recs
  {
    var r := s.recs[a];
    if r.cb.None? || (ms == r.ms && !fromNow) then s.(clock := now)
    else
      var r' := r.(ms := ms, next := Deadline(ResetStart(r, fromNow, now), ms));
      Insert(s.(recs := s.recs[a := r'], clock := now), a)
  }

  /** The earliest pending deadline. */
  ghost predicate IsEarliest(r: Recs, d: Option<nat>)
  {
    match d
    case None => forall a :: a in r ==> r[a].cb.None?
    case Some(n) =>
      && (exists a :: a in r && r[a].cb.Some? && r[a].next == n)
      && (forall a :: a in r && r[a].cb.Some? ==> n <= r[a].next)
  }

  function GetNext(s: State, d: Option<nat>, now: nat): State
  {
    s.(tickled := false, hooks := 0, seen := d, clock := now)
  }

  /** What getNextTimer returns: the time left, or all ones. */
  function TimeLeft(d: Option<nat>, now: nat): nat
  {
    match d
    case None => WRAP - 1
    case Some(n) => if now >= n then 0 else n - now
  }

  predicate Due(r: Rec, now: nat) { r.cb.Some? && r.next <= now }

  function ExpireOne(r: Rec, now: nat): Rec
  {
    if r.recurring then r.(next := Deadline(now, r.ms)) else r.(cb := None)
  }

  function ExpireAll(r: Recs, now: nat): (r': Recs)
    ensures r'.Keys == r.Keys
  {
    map a | a in r :: if Due(r[a], now) then ExpireOne(r[a], now) else r[a]
  }

  function Expire(s: State, now: nat): State
  {
    s.(recs := ExpireAll(s.recs, now), clock := now)
  }

  /** The timers listExpiredCb takes out: exactly the due ones, in order of their
      deadlines. */
  ghost predicate IsExpired(r: Recs, now: nat, order: seq<nat>)
  {
    && (forall i :: 0 <= i < |order| ==> order[i] in r && Due(r[order[i]], now))
    && (forall a :: a in r && Due(r[a], now) ==> a in order)
    && (forall i, j :: 0 <= i < j < |order| ==> Less(r, order[i], order[j]))
  }

  /** getNextTimer says zero exactly when listExpiredCb has something to return. */
  lemma ZeroMeansDue(r: Recs, d: Option<nat>, now: nat, order: seq<nat>)
    requires IsEarliest(r, d) && IsExpired(r, now, order)
    ensures TimeLeft(d, now) == 0 <==> order != []
  {
    if order != [] {
      assert Due(r[order[0]], now);
    }
    if d.Some? && now >= d.value {
      var a :| a in r && r[a].cb.Some? && r[a].next == d.value;
      assert Due(r[a], now) && a in order;
    }
  }

  // ----- every run ---------------------------------------------------------

  datatype Op =
    | AddOp(a: nat, addMs: nat, cb: nat, recurring: bool)
    | CancelOp(a: nat)
    | RefreshOp(a: nat)
    | ResetOp(a: nat, newMs: nat, fromNow: bool)
    | GetNextOp(d: Option<nat>)
    | ExpireOp

  /** The calls that can be made: timers exist, a new one does not have the address of
      a pending one, periods are unsigned 64-bit numbers, and getNextTimer reports what
      is there. */
  ghost predicate Legal(s: State, op: Op)
  {
    match op
    case AddOp(a, ms, _, _) => !IsPending(s.recs, a) && ms < WRAP
    case CancelOp(a) => a in s.recs
    case RefreshOp(a) => a in s.recs
    case ResetOp(a, ms, _) => a in s.recs && ms < WRAP
    case GetNextOp(d) => IsEarliest(s.recs, d)
    case ExpireOp => true
  }

  ghost function Step(s: State, op: Op, now: nat): State
    requires Legal(s, op)
  {
    match op
    case AddOp(a, ms, cb, rc) => Add(s, a, ms, cb, rc, now)
    case CancelOp(a) => Cancel(s, a)
    case RefreshOp(a) => Refresh(s, a, now)
    case ResetOp(a, ms, fromNow) => Reset(s, a, ms, fromNow, now)
    case GetNextOp(d) => GetNext(s, d, now)
    case ExpireOp => Expire(s, now)
  }

  /** Every deadline lies one period after some moment of the past, as the machine
      adds. */
  ghost predicate Anchored(s: State)
  {
    forall a :: a in s.recs ==> HasStart(s.recs[a], s.clock)
  }

  ghost predicate HasStart(r: Rec, clock: nat)
  {
    && r.ms < WRAP
    && exists st {:trigger Deadline(st, r.ms)} :: 0 <= st <= clock && st < WRAP && r.next == Deadline(st, r.ms)
  }

  /** The promise to the idle thread: unless it was told, nothing became due
      earlier than the deadline it went to sleep with. */
  ghost predicate NoneMissed(s: State)
  {
    s.tickled || forall a :: a in s.recs && s.recs[a].cb.Some? ==>
                   s.seen.Some? && s.seen.value <= s.recs[a].next
  }

  ghost predicate Inv(s: State)
  {
    && Anchored(s)
    && s.hooks == if s.tickled then 1 else 0
  }

  // ----- when a step keeps the promise -----------------------------------------

  /** A period from `now` that overflows does no harm if it still ends no earlier
      than the deadline the idle thread saw. */
  predicate Late(s: State, ms: nat, now: nat)
  {
    now + ms < WRAP || (s.seen.Some? && s.seen.value <= now + ms - WRAP)
  }

  /** listExpiredCb gives the timer a new deadline. */
  predicate Rekeyed(r: Rec, now: nat) { Due(r, now) && r.recurring }

  /** What a caller can check before the call: only a refresh and the re-keying of a
      recurring timer can break the promise, by an overflow, when the idle thread was
      not told anyway. */
  ghost predicate Harmless(s: State, op: Op, now: nat)
    requires Legal(s, op)
  {
    s.tickled ||
    match op
    case RefreshOp(a) => s.recs[a].cb.Some? ==> Late(s, s.recs[a].ms, now)
    case ExpireOp => forall a :: a in s.recs && Rekeyed(s.recs[a], now) ==> Late(s, s.recs[a].ms, now)
    case _ => true
  }

  lemma DeadlineValue(start: nat, ms: nat)
    requires start < WRAP && ms < WRAP
    ensures Deadline(start, ms) == if start + ms < WRAP then start + ms else start + ms - WRAP
  {
  }

  /** The start of a period can be recovered from the deadline. */
  lemma StartRecovered(start: nat, ms: nat)
    requires start < WRAP && ms < WRAP
    ensures (Deadline(start, ms) - ms) % WRAP == start
  {
    DeadlineValue(start, ms);
  }

  lemma NewStart(r: Rec, now: nat)
    requires now < WRAP && r.ms < WRAP && r.next == Deadline(now, r.ms)
    ensures HasStart(r, now)
  {
  }

  /** A timer that stays in place is pushed back, unless its deadline wraps. */
  lemma PushedBack(s: State, r: Rec, now: nat)
    requires HasStart(r, s.clock) && s.clock <= now < WRAP && s.seen.Some? && s.seen.value <= r.next
    ensures s.seen.value <= Deadline(now, r.ms) <==> Late(s, r.ms, now)
  {
    var st :| 0 <= st <= s.clock && st < WRAP && r.next == Deadline(st, r.ms);
    DeadlineValue(st, r.ms);
    DeadlineValue(now, r.ms);
    hide Deadline;
  }

  lemma ClockOnly(s: State, now: nat)
    requires s.clock <= now
    ensures NoneMissed(s.(clock := now)) == NoneMissed(s)
    ensures Inv(s) ==> Inv(s.(clock := now))
  {
    if Inv(s) {
      forall a | a in s.recs ensures HasStart(s.recs[a], now) { assert HasStart(s.recs[a], s.clock); }
    }
  }

  /** An insertion through addTimer keeps the promise whatever its deadline. */
  lemma InsertKeeps(s: State, r: Rec, a: nat)
    requires Inv(s) && HasStart(r, s.clock)
    ensures
      var s' := Insert(s.(recs := s.recs[a := r]), a);
      Inv(s') && (NoneMissed(s) ==> NoneMissed(s'))
  {
    hide HasStart;
    var m := s.recs[a := r];
    if !AtFront(m, a) && !s.tickled {
      var b :| b in m && m[b].cb.Some? && b != a && !Less(m, a, b);
      assert s.recs[b] == m[b];
    }
  }

  lemma AddKeeps(s: State, a: nat, r: Rec, now: nat)
    requires Inv(s) && s.clock <= now && HasStart(r, now)
    ensures
      var s' := Insert(s.(recs := s.recs[a := r], clock := now), a);
      Inv(s') && (NoneMissed(s) ==> NoneMissed(s'))
  {
    hide Inv, NoneMissed, AtFront, HasStart;
    ClockOnly(s, now);
    InsertKeeps(s.(clock := now), r, a);
  }

  /** A refresh breaks the promise exactly when it is not harmless. */
  lemma RefreshIff(s: State, a: nat, now: nat)
    requires Inv(s) && NoneMissed(s) && a in s.recs && s.clock <= now < WRAP
    ensures NoneMissed(Refresh(s, a, now)) <==> Harmless(s, RefreshOp(a), now)
  {
    var r := s.recs[a];
    assert HasStart(r, s.clock);
    if r.cb.Some? && !s.tickled {
      PushedBack(s, r, now);
      hide Inv, Deadline, HasStart, Late;
      MovedIff(s, a, Deadline(now, r.ms), now);
    }
  }

  lemma MovedIff(s: State, a: nat, next: nat, now: nat)
    requires NoneMissed(s) && !s.tickled && IsPending(s.recs, a)
    ensures s.seen.Some?
    ensures NoneMissed(s.(recs := s.recs[a := s.recs[a].(next := next)], clock := now)) <==> s.seen.value <= next
  {
    var s' := s.(recs := s.recs[a := s.recs[a].(next := next)], clock := now);
    assert s'.recs[a].next == next;
  }

  lemma ResetKeeps(s: State, a: nat, ms: nat, fromNow: bool, now: nat)
    requires Inv(s) && a in s.recs && s.clock <= now < WRAP && ms < WRAP
    ensures Inv(Reset(s, a, ms, fromNow, now)) && (NoneMissed(s) ==> NoneMissed(Reset(s, a, ms, fromNow, now)))
  {
    var r := s.recs[a];
    ClockOnly(s, now);
    if !(r.cb.None? || (ms == r.ms && !fromNow)) {
      var r' := r.(ms := ms, next := Deadline(ResetStart(r, fromNow, now), ms));
      ResetAnchored(s, r, ms, fromNow, now);
      hide Inv, NoneMissed, Deadline, ResetStart, Insert, HasStart;
      AddKeeps(s, a, r', now);
    }
  }

  lemma ResetAnchored(s: State, r: Rec, ms: nat, fromNow: bool, now: nat)
    requires HasStart(r, s.clock) && s.clock <= now < WRAP && ms < WRAP
    ensures HasStart(r.(ms := ms, next := Deadline(ResetStart(r, fromNow, now), ms)), now)
  {
    var st :| 0 <= st <= s.clock && st < WRAP && r.next == Deadline(st, r.ms);
    StartRecovered(st, r.ms);
  }

  /** So does an expiry, through its recurring timers. */
  lemma ExpireIff(s: State, now: nat)
    requires Inv(s) && NoneMissed(s) && s.clock <= now < WRAP
    ensures Inv(Expire(s, now))
    ensures NoneMissed(Expire(s, now)) <==> Harmless(s, ExpireOp, now)
  {
    var s' := Expire(s, now);
    forall a | a in s.recs
      ensures HasStart(s'.recs[a], now)
      ensures !s.tickled && s'.recs[a].cb.Some? ==>
        (s.seen.value <= s'.recs[a].next <==> (Rekeyed(s.recs[a], now) ==> Late(s, s.recs[a].ms, now)))
    {
      ExpireOneIff(s, a, now);
    }
    hide HasStart, Late;
  }

  lemma ExpireOneIff(s: State, a: nat, now: nat)
    requires Inv(s) && NoneMissed(s) && s.clock <= now < WRAP && a in s.recs
    ensures HasStart(Expire(s, now).recs[a], now)
    ensures !s.tickled && s.recs[a].cb.Some? ==> s.seen.Some?
    ensures !s.tickled && Expire(s, now).recs[a].cb.Some? ==>
      (s.seen.value <= Expire(s, now).recs[a].next <==>
        (Rekeyed(s.recs[a], now) ==> Late(s, s.recs[a].ms, now)))
  {
    var r := s.recs[a];
    assert HasStart(r, s.clock);
    if Due(r, now) && r.recurring {
      NewStart(r.(next := Deadline(now, r.ms)), now);
      if !s.tickled { PushedBack(s, r, now); }
    }
  }

  /** One step, whatever the deadlines: the bookkeeping is kept, and a promise that
      held is kept exactly when the step is harmless. */
  lemma StepKeepsInv(s: State, op: Op, now: nat)
    requires Inv(s) && Legal(s, op) && s.clock <= now < WRAP
    ensures Inv(Step(s, op, now))
    ensures NoneMissed(s) ==> (NoneMissed(Step(s, op, now)) <==> Harmless(s, op, now))
  {
    match op
    case AddOp(a, ms, cb, rc) =>
      var r := Rec(Deadline(now, ms), ms, rc, Some(cb));
      NewStart(r, now);
      hide Inv, NoneMissed, Insert, Deadline, HasStart;
      AddKeeps(s, a, r, now);
    case CancelOp(a) => CancelKeeps(s, a);
    case RefreshOp(a) =>
      RefreshKeepsInv(s, a, now);
      hide Inv, NoneMissed, Refresh;
      if NoneMissed(s) { RefreshIff(s, a, now); }
    case ResetOp(a, ms, fromNow) => hide Inv, NoneMissed, Reset; ResetKeeps(s, a, ms, fromNow, now);
    case GetNextOp(d) => hide HasStart; ClockOnly(s, now);
    case ExpireOp =>
      ExpireKeepsInv(s, now);
      hide Inv, NoneMissed, Expire;
      if NoneMissed(s) { ExpireIff(s, now); }
  }

  lemma CancelKeeps(s: State, a: nat)
    requires Inv(s) && a in s.recs
    ensures Inv(Cancel(s, a)) && (NoneMissed(s) ==> NoneMissed(Cancel(s, a)))
  {
    var r := s.recs[a];
    assert HasStart(r, s.clock);
    assert HasStart(r.(cb := None), s.clock);
    hide HasStart;
  }

  lemma RefreshKeepsInv(s: State, a: nat, now: nat)
    requires Inv(s) && a in s.recs && s.clock <= now < WRAP
    ensures Inv(Refresh(s, a, now))
  {
    assert HasStart(s.recs[a], s.clock);
    NewStart(s.recs[a].(next := Deadline(now, s.recs[a].ms)), now);
    ClockOnly(s, now);
    hide HasStart, Deadline;
  }

  lemma ExpireKeepsInv(s: State, now: nat)
    requires Inv(s) && s.clock <= now < WRAP
    ensures Inv(Expire(s, now))
  {
    forall a | a in s.recs ensures HasStart(Expire(s, now).recs[a], now) {
      assert HasStart(s.recs[a], s.clock);
      NewStart(s.recs[a].(next := Deadline(now, s.recs[a].ms)), now);
    }
    hide HasStart;
  }

  // ----- every run -------------------------------------------------------------

  /** A run: operations with the times a non-decreasing 64-bit clock showed. */
  ghost predicate IsRun(s: State, ops: seq<(Op, nat)>)
    decreases |ops|
  {
    ops == []
    || (Legal(s, ops[0].0) && s.clock <= ops[0].1 < WRAP && IsRun(Step(s, ops[0].0, ops[0].1), ops[1..]))
  }

  ghost function RunFrom(s: State, ops: seq<(Op, nat)>): State
    requires IsRun(s, ops)
    decreases |ops|
  {
    if ops == [] then s else RunFrom(Step(s, ops[0].0, ops[0].1), ops[1..])
  }

  const Initial: State := State(map[], false, 0, None, 0)

  /** No wake-up was missed at any moment of the run. */
  ghost predicate NeverMissed(s: State, ops: seq<(Op, nat)>)
    requires IsRun(s, ops)
    decreases |ops|
  {
    NoneMissed(s) && (ops == [] || NeverMissed(Step(s, ops[0].0, ops[0].1), ops[1..]))
  }

  ghost predicate AllHarmless(s: State, ops: seq<(Op, nat)>)
    requires IsRun(s, ops)
    decreases |ops|
  {
    ops == [] || (Harmless(s, ops[0].0, ops[0].1) && AllHarmless(Step(s, ops[0].0, ops[0].1), ops[1..]))
  }

  /** Over every run, whatever overflows, the hook is called at most once between two
      queries. */
  lemma {:induction false} HookOnce(s: State, ops: seq<(Op, nat)>)
    requires Inv(s) && IsRun(s, ops)
    ensures Inv(RunFrom(s, ops)) && RunFrom(s, ops).hooks <= 1
    decreases |ops|
  {
    if ops != [] {
      hide Step, Legal, Harmless, NoneMissed, Anchored;
      StepKeepsInv(s, ops[0].0, ops[0].1);
      HookOnce(Step(s, ops[0].0, ops[0].1), ops[1..]);
    }
  }

  /** A run of additions, cancellations, refreshes, resets, expiries and queries never
      misses a wake-up if and only if each of its steps is harmless. */
  lemma {:induction false} NoMissedWakeup(s: State, ops: seq<(Op, nat)>)
    requires Inv(s) && NoneMissed(s) && IsRun(s, ops)
    ensures NeverMissed(s, ops) <==> AllHarmless(s, ops)
    decreases |ops|
  {
    if ops != [] {
      hide Inv, Step, Legal, Harmless, NoneMissed;
      var s' := Step(s, ops[0].0, ops[0].1);
      StepKeepsInv(s, ops[0].0, ops[0].1);
      if NoneMissed(s') { NoMissedWakeup(s', ops[1..]); }
    }
  }

  lemma NoMissedWakeupFromStart(ops: seq<(Op, nat)>)
    requires IsRun(Initial, ops)
    ensures NeverMissed(Initial, ops) <==> AllHarmless(Initial, ops)
    ensures RunFrom(Initial, ops).hooks <= 1
  {
    NoMissedWakeup(Initial, ops);
    HookOnce(Initial, ops);
  }

  /** Without overflow in refreshes and recurring expiries, every step is harmless;
      additions and resets may overflow. */
  lemma NoOverflowIsHarmless(s: State, op: Op, now: nat)
    requires Legal(s, op)
    requires op.RefreshOp? ==> now + s.recs[op.a].ms < WRAP
    requires op.ExpireOp? ==> forall a :: a in s.recs ==> now + s.recs[a].ms < WRAP
    ensures Harmless(s, op, now)
  {
  }

  /** A refresh whose deadline wraps around can put a timer in front without telling
      anyone. */
  lemma RefreshOverflowMisses()
    ensures
      var s := State(map[1 := Rec(WRAP - 1, WRAP - 1, false, Some(0))], false, 0, Some(WRAP - 1), 0);
      && Inv(s) && NoneMissed(s) && Legal(s, RefreshOp(1)) && !Harmless(s, RefreshOp(1), 5)
      && !NoneMissed(Step(s, RefreshOp(1), 5))
  {
    var s := State(map[1 := Rec(WRAP - 1, WRAP - 1, false, Some(0))], false, 0, Some(WRAP - 1), 0);
    assert Deadline(0, WRAP - 1) == WRAP - 1;
    assert HasStart(s.recs[1], 0);
    assert Step(s, RefreshOp(1), 5).recs[1].next == 4;
  }

  /** A timer without a callback gets none again, unless it is added again. */
  lemma DeadStays(s: State, a: nat, op: Op, now: nat)
    requires Legal(s, op) && a in s.recs && s.recs[a].cb.None? && !(op.AddOp? && op.a == a)
    ensures a in Step(s, op, now).recs && Step(s, op, now).recs[a].cb.None?
  {
  }

  lemma {:induction false} DeadForever(s: State, a: nat, ops: seq<(Op, nat)>)
    requires IsRun(s, ops) && a in s.recs && s.recs[a].cb.None?
    requires forall i :: 0 <= i < |ops| ==> !(ops[i].0.AddOp? && ops[i].0.a == a)
    ensures a in RunFrom(s, ops).recs && RunFrom(s, ops).recs[a].cb.None?
    decreases |ops|
  {
    if ops != [] {
      hide Step, Legal;
      DeadStays(s, a, ops[0].0, ops[0].1);
      DeadForever(Step(s, ops[0].0, ops[0].1), a, ops[1..]);
    }
  }

  /** A cancelled timer never fires, whatever is done with it, until it is added again. */
  lemma CancelledNeverFires(s: State, a: nat, t: nat, ops: seq<(Op, nat)>, now: nat, order: seq<nat>)
    requires Legal(s, CancelOp(a)) && IsRun(Step(s, CancelOp(a), t), ops)
    requires forall i :: 0 <= i < |ops| ==> !(ops[i].0.AddOp? && ops[i].0.a == a)
    requires IsExpired(RunFrom(Step(s, CancelOp(a), t), ops).recs, now, order)
    ensures a !in order
  {
    DeadForever(Step(s, CancelOp(a), t), a, ops);
    hide RunFrom, IsRun;
  }

  // ----- the sleep of the idle thread --------------------------------------------

  const TWO_32: int := 0x1_0000_0000
  const TWO_31: int := 0x8000_0000

  /** The conversion of an unsigned 64-bit number to int. */
  function ToInt(x: nat): int { if x % TWO_32 < TWO_31 then x % TWO_32 else x % TWO_32 - TWO_32 }

  /** What idle passes to epoll_wait for the time left that getNextTimer returned. */
  function IdleWait(left: nat): int
  {
    if left == WRAP - 1 then 3000 else if ToInt(left) > 3000 then 3000 else ToInt(left)
  }

  /** epoll_wait called at `now` with this timeout returns by `deadline` if nothing
      happens before; a negative timeout means no limit. */
  predicate ReturnsBy(now: nat, wait: int, deadline: nat) { 0 <= wait && now + wait <= deadline }

  /** The sleep is bounded by the time left and by three seconds exactly when the
      conversion is not negative; from 2^31 milliseconds on it can be. */
  lemma IdleWaitIff(left: nat)
    requires left < WRAP
    ensures 0 <= IdleWait(left) <= left && IdleWait(left) <= 3000 <==> left == WRAP - 1 || left % TWO_32 < TWO_31
  {
    LowPart(left);
  }

  lemma LowPart(left: nat)
    ensures left % TWO_32 <= left
  {
  }

  /** Where the conversion is not negative: no sleep if the deadline seen has passed,
      exactly to it if it is at most three seconds away, else three seconds, or less if
      the conversion cuts the time left (from 2^32 milliseconds on). */
  lemma SleepEnds(n: nat, now: nat)
    requires n < WRAP && TimeLeft(Some(n), now) % TWO_32 < TWO_31
    ensures
      var end := now + IdleWait(TimeLeft(Some(n), now));
      && (n <= now ==> end == now)
      && (now < n && n - now <= 3000 ==> end == n)
      && (now + 3000 < n ==> end == now + if (n - now) % TWO_32 < 3000 then (n - now) % TWO_32 else 3000)
      && (now + 3000 < n && n - now < TWO_31 ==> end == now + 3000)
  {
  }

  lemma SleepWithoutTimer(now: nat)
    ensures IdleWait(TimeLeft(None, now)) == 3000
  {
  }

  /** After about 25 days left, the idle thread sleeps without limit. */
  lemma LongTimeoutBlocks()
    ensures IdleWait(TWO_31) < 0
  {
  }

  /** From the query at `now` to the return of epoll_wait: if the thread was not told
      meanwhile, no pending timer is due before it is awake again. The time left must
      convert to a non-negative int; where it does not, and something was pending, the
      thread sleeps past the deadline it saw. */
  lemma AwakeInTime(s: State, now: nat)
    requires NoneMissed(s) && !s.tickled
    requires s.seen.Some? ==> s.seen.value < WRAP
    ensures
      var left := TimeLeft(s.seen, now);
      && (left == WRAP - 1 || left % TWO_32 < TWO_31 ==>
            forall a :: a in s.recs && s.recs[a].cb.Some? ==>
              s.recs[a].next <= now || ReturnsBy(now, IdleWait(left), s.recs[a].next))
      && (!(left == WRAP - 1 || left % TWO_32 < TWO_31) ==>
            s.seen.Some? && s.seen.value > now && !ReturnsBy(now, IdleWait(left), s.seen.value))
  {
    var left := TimeLeft(s.seen, now);
    IdleWaitIff(left);
    hide IdleWait;
  }
}
