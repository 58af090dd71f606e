/**
 Streams over a `ByteArray`: the scatter receive of a socket, the loop that
 insists on a fixed number of bytes, and the trip of a buffer through a file.
 */
module Streams {
  import opened Bytes
  import opened Flat
  import opened ByteArray

  /** SocketStream.read(ByteArray): offer `len` bytes of buffer space, let the
      socket put `got` there, and move the cursor. The outcome is that of
      writing `got`. */
  method SocketRead(ba: ByteArray, len: nat, got: seq<byte>) returns (ok: bool)
    requires ba.Valid() && |got| <= len
    modifies ba, ba.cells, ba.store
    ensures fresh(ba.cells - old(ba.cells)) && fresh(ba.store - old(ba.store))
    ensures ok <==> Fits(ba.base, old(ba.capacity - ba.position), len)
    ensures ok ==> ba.Valid() && Wrote(old(ba.View()), got, ba.View())
    ensures ok ==> ba.capacity - ba.position >= len - |got|
  {
    var v;
    ok, v := ba.GetWriteBuffers(len);
    if !ok {
      return;
    }
    ghost var g := ba.View();
    ba.Receive(v, ba.position, ba.position + len, got);
    ghost var m := ba.mem;
    if |got| > 0 {
      var o := ba.SetPosition(ba.position + |got|);
    }
    WroteSplice(old(ba.View()), g.mem, got, ba.View());
  }

  /** What a sequence of receives delivers when `n` bytes are wanted: the pieces
      one after the other, until there is enough or one of them is empty. */
  function Gather(pieces: seq<seq<byte>>, n: nat): (s: seq<byte>)
    ensures |s| <= n
    decreases |pieces|
  {
    if n == 0 || pieces == [] || pieces[0] == [] then []
    else
      var p := pieces[0][..Min(n, |pieces[0]|)];
      p + Gather(pieces[1..], n - |p|)
  }

  /** Without an empty piece, what is delivered is the beginning of the pieces put
      together, as much as is wanted and there is ... */
  lemma {:induction false} GatherAll(pieces: seq<seq<byte>>, n: nat)
    requires forall i :: 0 <= i < |pieces| ==> pieces[i] != []
    ensures |Gather(pieces, n)| == Min(n, |Flatten(pieces)|)
    ensures Gather(pieces, n) == Flatten(pieces)[..Min(n, |Flatten(pieces)|)]
    decreases |pieces|
  {
    if n > 0 && pieces != [] {
      var p := pieces[0][..Min(n, |pieces[0]|)];
      GatherAll(pieces[1..], n - |p|);
      FlattenFirst(pieces);
    }
  }

  lemma {:induction false} FlattenFirst(bs: seq<seq<byte>>)
    requires bs != []
    ensures Flatten(bs) == bs[0] + Flatten(bs[1..])
  {
    if |bs| == 1 {
      assert bs == [bs[0]];
      FlattenOne(bs[0]);
      FlattenNone();
      assert bs[0] + [] == bs[0];
    } else {
      var n := |bs| - 1;
      FlattenFirst(bs[..n]);
      FlattenAppend(bs[..n], bs[n]);
      FlattenAppend(bs[1..n], bs[n]);
      hide Flatten;
      assert bs[..n] + [bs[n]] == bs && bs[1..n] + [bs[n]] == bs[1..] && bs[..n][1..] == bs[1..n];
      ConcatAssoc(bs[0], Flatten(bs[1..n]), bs[n]);
    }
  }

  lemma ConcatAssoc(a: seq<byte>, b: seq<byte>, c: seq<byte>)
    ensures (a + b) + c == a + (b + c)
  {
  }

  /** ... and an empty piece, the end of the stream, ends the delivery. */
  lemma {:induction false} GatherEnds(before: seq<seq<byte>>, after: seq<seq<byte>>, n: nat)
    ensures Gather(before + [[]] + after, n) == Gather(before, n)
    decreases |before|
  {
    var all := before + [[]] + after;
    if before == [] {
      assert all[0] == [];
    } else if n > 0 && before[0] != [] {
      assert all[0] == before[0] && all[1..] == before[1..] + [[]] + after;
      GatherEnds(before[1..], after, n - |before[0][..Min(n, |before[0]|)]|);
    } else {
      assert all[0] == before[0];
    }
  }

  lemma GatherStep(done: seq<byte>, rest: seq<seq<byte>>, left: nat)
    ensures left == 0 || rest == [] || rest[0] == [] ==> done + Gather(rest, left) == done
    ensures left > 0 && rest != [] && rest[0] != [] ==>
              var p := rest[0][..Min(left, |rest[0]|)];
              (done + p) + Gather(rest[1..], left - |p|) == done + Gather(rest, left)
  {
  }

  /** Stream.readFixSize(ByteArray) over any sequence of short receives. Only the
      first request can fail to fit; the buffer ends up with all pieces. */
  method ReadFixSize(ba: ByteArray, length: nat, pieces: seq<seq<byte>>)
    returns (ok: bool, n: nat)
    requires ba.Valid()
    modifies ba, ba.cells, ba.store
    ensures fresh(ba.cells - old(ba.cells)) && fresh(ba.store - old(ba.store))
    ensures ok <==> Fits(ba.base, old(ba.capacity - ba.position), length)
    ensures ok ==> ba.Valid() && Wrote(old(ba.View()), Gather(pieces, length), ba.View())
    ensures ok ==> n == if |Gather(pieces, length)| == length then length else 0
  {
    hide Wrote, Fits, Gather, ByteArray.Valid;
    ba.ValidView();
    WroteNothing(ba.View());
    var left: nat, rest := length, pieces;
    n := 0;
    ghost var done: seq<byte> := [];
    ghost var fits := Fits(ba.base, ba.capacity - ba.position, length);
    while left > 0
      invariant ba.Valid() && fresh(ba.cells - old(ba.cells)) && fresh(ba.store - old(ba.store))
      invariant left + |done| == length
      invariant done + Gather(rest, left) == Gather(pieces, length)
      invariant Wrote(old(ba.View()), done, ba.View())
      invariant left == length ==> ba.capacity - ba.position == old(ba.capacity - ba.position)
      invariant left < length ==> ba.capacity - ba.position >= left
      invariant left < length ==> fits
      decreases left
    {
      var p := if rest == [] then [] else rest[0][..Min(left, |rest[0]|)];
      ghost var g := ba.View();
      RoomFits(ba.base, ba.capacity - ba.position, left);
      ok := SocketRead(ba, left, p);
      if !ok {
        return;
      }
      WroteWrote(old(ba.View()), done, g, p, ba.View());
      GatherStep(done, rest, left);
      if |p| == 0 {
        assert done + p == done;
        return true, 0;
      }
      done := done + p;
      left, rest := left - |p|, rest[1..];
    }
    GatherStep(done, rest, left);
    RoomFits(ba.base, old(ba.capacity - ba.position), 0);
    ok, n := true, length;
  }

  /** Write a buffer to a file and read it back into a new one, of any base
      size: the unread bytes arrive, exactly when writeToFile is safe. */
  method ThroughFile(a: ByteArray, base: nat) returns (ok: bool, b: ByteArray)
    requires a.Valid() && base > 0
    ensures fresh(b) && fresh(b.cells) && fresh(b.store)
    ensures ok <==> FileSafe(a.View())
    ensures ok ==> b.Valid() && b.View().Data() == a.View().Unread()
  {
    b := new ByteArray(base);
    var chunks;
    ok, chunks := a.WriteToFile();
    if ok {
      var file := Flatten(chunks);
      assert Start(0, base) == 0 && Start(1, base) == base;
      AlignedBlocksFit(base, 0, 1, |file|);
      ghost var f := b.View();
      ok := b.ReadFromFile(file);
      WroteData(f, file, b.View());
    }
  }
}
