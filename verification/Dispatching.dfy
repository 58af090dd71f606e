/**
 The order of the run queue over whole histories: entries are numbered as they are
 scheduled, and every dequeue is recorded with the thread that made it.
 */
module Dispatching {
  import opened Options
  import opened Sequences

  /** FiberAndThread: a fiber or a callback, and the thread it is pinned to or -1. */
  datatype Entry<F> = Entry(fiber: Option<F>, cb: Option<nat>, thread: int)

  /** May `thread` take this entry while the fibers `exec` are executing? */
  predicate Takes<F(==)>(e: Entry<F>, thread: int, exec: set<F>)
  {
    (e.thread == -1 || e.thread == thread) && !(e.fiber.Some? && e.fiber.value in exec)
  }

  /** Entry `i` is the earliest one `thread` may take. */
  predicate First<F(==)>(q: seq<Entry<F>>, thread: int, exec: set<F>, i: nat)
  {
    i < |q| && Takes(q[i], thread, exec) && forall j :: 0 <= j < i ==> !Takes(q[j], thread, exec)
  }

  /** An entry nothing can make ineligible: a callback for any thread. */
  predicate Free<F>(e: Entry<F>) { e.thread == -1 && e.fiber.None? }

  // ----- histories ---------------------------------------------------------

  datatype Item = Item(serial: nat, entry: Entry<nat>)

  datatype Taken = Taken(item: Item, thread: int)

  datatype History = History(queue: seq<Item>, next: nat, log: seq<Taken>)

  function Number(es: seq<Entry<nat>>, from: nat): (r: seq<Item>)
    ensures |r| == |es| && forall k :: 0 <= k < |r| ==> r[k] == Item(from + k, es[k])
  {
    seq(|es|, k requires 0 <= k < |es| => Item(from + k, es[k]))
  }

  function Entries(q: seq<Item>): (r: seq<Entry<nat>>)
    ensures |r| == |q| && forall k :: 0 <= k < |r| ==> r[k] == q[k].entry
  {
    seq(|q|, k requires 0 <= k < |q| => q[k].entry)
  }

  datatype Step =
    | Add(entries: seq<Entry<nat>>)                        // schedule, single or batch
    | Dequeue(thread: int, exec: set<nat>, i: nat)         // a scan of run that finds entry i

  predicate Possible(h: History, s: Step)
  {
    s.Dequeue? ==> First(Entries(h.queue), s.thread, s.exec, s.i)
  }

  function Next(h: History, s: Step): History
    requires Possible(h, s)
  {
    match s
    case Add(es) => History(h.queue + Number(es, h.next), h.next + |es|, h.log)
    case Dequeue(w, _, i) => h.(queue := RemoveAt(h.queue, i), log := h.log + [Taken(h.queue[i], w)])
  }

  /** The queue is in the order of scheduling. */
  ghost predicate Sorted(h: History)
  {
    && (forall i, j :: 0 <= i < j < |h.queue| ==> h.queue[i].serial < h.queue[j].serial)
    && (forall i :: 0 <= i < |h.queue| ==> h.queue[i].serial < h.next)
  }

  predicate Waits(h: History, n: nat) { exists i :: 0 <= i < |h.queue| && h.queue[i].serial == n }

  predicate WasTaken(h: History, n: nat) { exists k :: 0 <= k < |h.log| && h.log[k].item.serial == n }

  /** Every entry scheduled is either queued or dequeued, and dequeued at most once. */
  ghost predicate Conserved(h: History)
  {
    && (forall n: nat {:trigger Waits(h, n)} {:trigger WasTaken(h, n)} ::
          && (Waits(h, n) || WasTaken(h, n) <==> n < h.next)
          && !(Waits(h, n) && WasTaken(h, n)))
    && (forall k, l :: 0 <= k < l < |h.log| ==> h.log[k].item.serial != h.log[l].item.serial)
  }

  /** A pinned entry is dequeued by its own thread. */
  ghost predicate PinsKept(h: History)
  {
    forall k :: 0 <= k < |h.log| ==> h.log[k].item.entry.thread == -1 || h.log[k].item.entry.thread == h.log[k].thread
  }

  /** Nothing scheduled after an unpinned callback is dequeued before it. */
  ghost predicate NoOvertaking(h: History)
  {
    && (forall i, k :: 0 <= i < |h.queue| && 0 <= k < |h.log| && Free(h.queue[i].entry) ==>
          h.log[k].item.serial < h.queue[i].serial)
    && (forall k, l :: 0 <= k < l < |h.log| && Free(h.log[l].item.entry) ==>
          h.log[k].item.serial < h.log[l].item.serial)
  }

  ghost predicate Orderly(h: History)
  {
    Sorted(h) && Conserved(h) && PinsKept(h) && NoOvertaking(h)
  }

  lemma AddKeeps(h: History, es: seq<Entry<nat>>)
    requires Orderly(h)
    ensures Orderly(Next(h, Add(es)))
  {
    var h' := Next(h, Add(es));
    assert forall i :: 0 <= i < |h.queue| ==> h'.queue[i] == h.queue[i];
    assert forall i :: |h.queue| <= i < |h'.queue| ==> h'.queue[i].serial == h.next + (i - |h.queue|);
    forall n: nat ensures Waits(h', n) <==> Waits(h, n) || h.next <= n < h'.next {
      if Waits(h, n) {
        var i :| 0 <= i < |h.queue| && h.queue[i].serial == n;
        assert h'.queue[i].serial == n;
      }
      if h.next <= n < h'.next { assert h'.queue[|h.queue| + (n - h.next)].serial == n; }
    }
    forall n: nat ensures WasTaken(h', n) <==> WasTaken(h, n) { }
    forall k | 0 <= k < |h.log| ensures h.log[k].item.serial < h.next { assert WasTaken(h, h.log[k].item.serial); }
  }

  lemma DequeueMoves(h: History, w: int, exec: set<nat>, i: nat, n: nat)
    requires Orderly(h) && Possible(h, Dequeue(w, exec, i))
    ensures Waits(Next(h, Dequeue(w, exec, i)), n) <==> Waits(h, n) && n != h.queue[i].serial
    ensures WasTaken(Next(h, Dequeue(w, exec, i)), n) <==> WasTaken(h, n) || n == h.queue[i].serial
  {
    var h' := Next(h, Dequeue(w, exec, i));
    if Waits(h, n) && n != h.queue[i].serial {
      var j :| 0 <= j < |h.queue| && h.queue[j].serial == n;
      assert h'.queue[if j < i then j else j - 1].serial == n;
    }
    if WasTaken(h, n) {
      var k :| 0 <= k < |h.log| && h.log[k].item.serial == n;
      assert h'.log[k].item.serial == n;
    }
    assert h'.log[|h.log|].item == h.queue[i];
  }

  /** Before a free entry of the queue, a scan never passes. */
  lemma TakenFirst(h: History, w: int, exec: set<nat>, i: nat, j: nat)
    requires Orderly(h) && Possible(h, Dequeue(w, exec, i)) && j < |h.queue| && Free(h.queue[j].entry)
    ensures i <= j
  {
    assert Takes(Entries(h.queue)[j], w, exec);
  }

  lemma DequeueKeeps(h: History, w: int, exec: set<nat>, i: nat)
    requires Orderly(h) && Possible(h, Dequeue(w, exec, i))
    ensures Orderly(Next(h, Dequeue(w, exec, i)))
  {
    var h' := Next(h, Dequeue(w, exec, i));
    assert Waits(h, h.queue[i].serial);
    forall n: nat
      ensures Waits(h', n) || WasTaken(h', n) <==> n < h'.next
      ensures !(Waits(h', n) && WasTaken(h', n))
    {
      DequeueMoves(h, w, exec, i, n);
    }
    forall k | 0 <= k < |h.log| ensures h.log[k].item.serial != h.queue[i].serial {
      assert WasTaken(h, h.log[k].item.serial);
    }
    hide Waits, WasTaken;
    forall j | 0 <= j < |h.queue| && Free(h.queue[j].entry) ensures i <= j { TakenFirst(h, w, exec, i, j); }
    assert Takes(Entries(h.queue)[i], w, exec);
    assert PinsKept(h');
    assert NoOvertaking(h');
  }

  /** A run stops at the first step that is not possible. */
  function RunFrom(h: History, steps: seq<Step>): History
    decreases |steps|
  {
    if steps == [] || !Possible(h, steps[0]) then h else RunFrom(Next(h, steps[0]), steps[1..])
  }

  lemma {:induction false} RunOrderly(h: History, steps: seq<Step>)
    requires Orderly(h)
    ensures Orderly(RunFrom(h, steps))
    decreases |steps|
  {
    if steps != [] && Possible(h, steps[0]) {
      match steps[0] {
        case Add(es) => AddKeeps(h, es);
        case Dequeue(w, exec, i) => DequeueKeeps(h, w, exec, i);
      }
      RunOrderly(Next(h, steps[0]), steps[1..]);
    }
  }

  /** From an empty queue, whatever is scheduled, whoever scans and whichever fibers
      execute meanwhile: order, conservation, pinning and no overtaking. */
  lemma EveryRunIsOrderly(steps: seq<Step>)
    ensures Orderly(RunFrom(History([], 0, []), steps))
  {
    RunOrderly(History([], 0, []), steps);
  }

  /** The entries numbered `first` to `first + size - 1`, scheduled as one batch: in the
      queue nothing stands between them, and unpinned callbacks among them are
      dequeued in the order of the batch, however many threads scan. */
  lemma BatchTogether(steps: seq<Step>, first: nat, size: nat)
    ensures
      var h := RunFrom(History([], 0, []), steps);
      && (forall i, m, j | 0 <= i < m < j < |h.queue|
                           && first <= h.queue[i].serial && h.queue[j].serial < first + size ::
            first <= h.queue[m].serial < first + size)
      && (forall k, l | 0 <= k < |h.log| && 0 <= l < |h.log| && Free(h.log[k].item.entry)
                        && first <= h.log[k].item.serial < h.log[l].item.serial < first + size ::
            k < l)
  {
    EveryRunIsOrderly(steps);
  }

  /** What the steps do to the queue and the log: a schedule appends its entries with the
      next numbers, a dequeue moves one entry that the thread may take, the earliest. */
  lemma StepsExplained(h: History, es: seq<Entry<nat>>, w: int, exec: set<nat>, i: nat)
    ensures
      var h' := Next(h, Add(es));
      && h'.log == h.log && |h'.queue| == |h.queue| + |es| && h'.queue[..|h.queue|] == h.queue
      && (forall k :: 0 <= k < |es| ==> h'.queue[|h.queue| + k] == Item(h.next + k, es[k]))
    ensures Possible(h, Dequeue(w, exec, i)) ==>
      var h', e := Next(h, Dequeue(w, exec, i)), h.queue[i].entry;
      && i < |h.queue| && h'.log == h.log + [Taken(h.queue[i], w)]
      && h'.queue == h.queue[..i] + h.queue[i + 1..]
      && (e.thread == -1 || e.thread == w) && !(e.fiber.Some? && e.fiber.value in exec)
      && (forall j :: 0 <= j < i ==>
            var d := h.queue[j].entry;
            (d.thread != -1 && d.thread != w) || (d.fiber.Some? && d.fiber.value in exec))
  {
    if Possible(h, Dequeue(w, exec, i)) {
      var q := Entries(h.queue);
      assert Takes(q[i], w, exec);
      forall j | 0 <= j < i
        ensures var d := h.queue[j].entry;
                (d.thread != -1 && d.thread != w) || (d.fiber.Some? && d.fiber.value in exec)
      {
        assert !Takes(q[j], w, exec);
      }
    }
  }
}
