/**
 Arbitrary runs of buffer operations: whatever a client calls, in whatever order,
 the chunked buffer answers like one flat sequence with a cursor, up to the first
 call the source turns into a null dereference.
 */
module Runs {
  import opened Bytes
  import opened Flat
  import opened ByteArray

  datatype Op =
    | Write(s: seq<byte>)
    | Read(n: nat)
    | SetPosition(v: nat)
    | ToString
    | Clear

  datatype Reply = Ok | Bytes(s: seq<byte>) | Thrown

  /** One operation of the flat buffer. Only the bytes of new memory are open. */
  ghost predicate Step(f: Flat, op: Op, r: Reply, g: Flat)
    requires f.Ok()
  {
    && g.Ok() && g.base == f.base
    && match op
       case Write(s) =>
         && r == Ok && Fits(f.base, f.Room(), |s|) && Wrote(f, s, g)
         && |g.mem| == CapacityAfter(f.base, |f.mem|, f.pos, |s|)
       case Read(n) =>
         if n > f.size - f.pos then r == Thrown && g == f
         else f.pos < |f.mem| && r == Bytes(f.mem[f.pos..f.pos + n]) && g == f.(pos := f.pos + n)
       case SetPosition(v) =>
         if v > |f.mem| then r == Thrown && g == f else r == Ok && g == Moved(f, v)
       case ToString => r == Bytes(f.Unread()) && g == f
       case Clear => r == Ok && f.base <= |f.mem| && g == Flat(f.base, f.mem[..f.base], 0, 0)
  }

  /** The calls without an answer. */
  predicate Crashes(f: Flat, op: Op)
    requires f.base > 0 && f.pos <= f.size <= |f.mem|
  {
    match op
    case Write(s) => !Fits(f.base, f.Room(), |s|)
    case Read(n) => n == 0 && f.pos == |f.mem|
    case _ => false
  }

  ghost predicate Explains(trace: seq<Flat>, ops: seq<Op>, replies: seq<Reply>)
  {
    && |trace| == |replies| + 1 && |replies| <= |ops|
    && (forall i :: 0 <= i < |trace| ==> trace[i].Ok())
    && (forall i :: 0 <= i < |replies| ==> Step(trace[i], ops[i], replies[i], trace[i + 1]))
  }

  method Perform(ba: ByteArray, op: Op, ghost f: Flat) returns (ok: bool, r: Reply)
    requires ba.Valid() && ba.View() == f && f.Ok()
    modifies ba, ba.cells, ba.store
    ensures fresh(ba.cells - old(ba.cells)) && fresh(ba.store - old(ba.store))
    ensures ok <==> !Crashes(f, op)
    ensures ok ==> ba.Valid() && Step(f, op, r, ba.View())
  {
    ba.ValidView();
    ba.FirstNode();
    hide ByteArray.Valid, Wrote, Fits, CapacityAfter, Step, Crashes, Moved;
    ok, r := true, Ok;
    match op {
      case Write(s) =>
        WriteSteps(f, s);
        ok := ba.Write(s);
      case Read(n) => ok, r := PerformRead(ba, n, f);
      case SetPosition(v) =>
        OtherSteps(f, v);
        var o := ba.SetPosition(v);
        r := if o.Done? then Ok else Thrown;
      case ToString =>
        OtherSteps(f, 0);
        var s := ba.ToString();
        r := Bytes(s);
      case Clear =>
        OtherSteps(f, 0);
        ba.Clear();
    }
  }

  method PerformRead(ba: ByteArray, n: nat, ghost f: Flat) returns (ok: bool, r: Reply)
    requires ba.Valid() && ba.View() == f && f.Ok()
    modifies ba`position, ba`size, ba`cur, ba`at
    ensures ok <==> !Crashes(f, Read(n))
    ensures ok ==> ba.Valid() && Step(f, Read(n), r, ba.View())
  {
    hide ByteArray.Valid, Step, Crashes, DidRead, ReadOutcome;
    ReadSteps(f, n);
    var o, s := ba.Read(n);
    ok := o != Outcome.Crash;
    r := if o.Done? then Bytes(s) else Thrown;
  }

  lemma WriteSteps(f: Flat, s: seq<byte>)
    requires f.Ok()
    ensures Crashes(f, Write(s)) <==> !Fits(f.base, f.Room(), |s|)
    ensures Fits(f.base, f.Room(), |s|) ==>
              forall g: Flat | Wrote(f, s, g) ::
                |g.mem| == CapacityAfter(f.base, |f.mem|, f.pos, |s|) ==> Step(f, Write(s), Ok, g)
  {
  }

  lemma ReadSteps(f: Flat, n: nat)
    requires f.Ok()
    ensures Crashes(f, Read(n)) <==> ReadOutcome(f, n).Crash?
    ensures ReadOutcome(f, n).OutOfRange? ==> Step(f, Read(n), Thrown, f)
    ensures ReadOutcome(f, n).Done? ==>
              forall s, g: Flat :: DidRead(f, n, s, g) ==> Step(f, Read(n), Bytes(s), g)
  {
  }

  lemma OtherSteps(f: Flat, v: nat)
    requires f.Ok() && f.base <= |f.mem|
    ensures !Crashes(f, SetPosition(v)) && !Crashes(f, ToString) && !Crashes(f, Clear)
    ensures v > |f.mem| ==> Step(f, SetPosition(v), Thrown, f)
    ensures v <= |f.mem| ==> Step(f, SetPosition(v), Ok, Moved(f, v))
    ensures Step(f, ToString, Bytes(f.Unread()), f)
    ensures Step(f, Clear, Ok, Flat(f.base, f.mem[..f.base], 0, 0))
  {
  }

  /** Every run has a flat explanation; it is complete unless an operation crashes. */
  method Run(ba: ByteArray, ops: seq<Op>) returns (replies: seq<Reply>, ghost trace: seq<Flat>)
    requires ba.Valid()
    modifies ba, ba.cells, ba.store
    ensures Explains(trace, ops, replies) && trace[0] == old(ba.View())
    ensures |replies| < |ops| ==> Crashes(trace[|replies|], ops[|replies|])
    ensures |replies| == |ops| ==> ba.Valid() && trace[|replies|] == ba.View()
  {
    ba.ValidView();
    replies, trace := [], [ba.View()];
    hide ByteArray.Valid, Step, Crashes;
    while |replies| < |ops|
      invariant ba.Valid() && fresh(ba.cells - old(ba.cells)) && fresh(ba.store - old(ba.store))
      invariant Explains(trace, ops, replies) && trace[0] == old(ba.View())
      invariant trace[|replies|] == ba.View()
      decreases |ops| - |replies|
    {
      var ok, r := Perform(ba, ops[|replies|], ba.View());
      if !ok {
        return;
      }
      ba.ValidView();
      replies, trace := replies + [r], trace + [ba.View()];
    }
  }
}
