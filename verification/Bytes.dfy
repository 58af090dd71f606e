/**
 Bytes, byte sequences, and the arithmetic of cutting one flat sequence into
 equally sized chunks. Nothing here touches the heap: the linked list of nodes
 in `ByteArray` is related to a flat sequence through these functions.
 */
module Bytes {

  type byte = x: int | 0 <= x < 256 witness 0

  function Max(a: nat, b: nat): nat { if a < b then b else a }

  function Min(a: nat, b: nat): nat { if a < b then a else b }

  /** Overwrite `m` from offset `p` with the bytes of `s`. */
  function Splice(m: seq<byte>, p: nat, s: seq<byte>): (r: seq<byte>)
    requires p + |s| <= |m|
    ensures |r| == |m|
  {
    m[..p] + s + m[p + |s|..]
  }

  /** Two adjacent overwrites are one. */
  lemma SpliceSplice(m: seq<byte>, p: nat, a: seq<byte>, b: seq<byte>)
    requires p + |a| + |b| <= |m|
    ensures Splice(Splice(m, p, a), p + |a|, b) == Splice(m, p, a + b)
  {
  }

  lemma SliceOfSlice(m: seq<byte>, o: nat, n: nat, a: nat, b: nat)
    requires o + n <= |m| && a <= b <= n
    ensures m[o..o + n][a..b] == m[o + a..o + b]
  {
    var x, y := m[o..o + n][a..b], m[o + a..o + b];
    assert |x| == |y| && forall k :: 0 <= k < |x| ==> x[k] == y[k];
  }

  /** Offset of the first byte of chunk `i`; see `StartIsProduct`. */
  function Start(i: nat, base: nat): nat
  {
    if i == 0 then 0 else Start(i - 1, base) + base
  }

  lemma {:induction false} StartIsProduct(i: nat, base: nat)
    ensures Start(i, base) == i * base
  {
    if i > 0 {
      StartIsProduct(i - 1, base);
      assert i * base == (i - 1) * base + base;
    }
  }

  lemma {:induction false} StartMonotone(i: nat, j: nat, base: nat)
    requires i <= j
    ensures Start(i, base) <= Start(j, base)
    ensures i < j ==> Start(i, base) + base <= Start(j, base)
    decreases j
  {
    if i < j {
      StartMonotone(i, j - 1, base);
    }
  }

  lemma {:induction false} StartAdd(i: nat, j: nat, base: nat)
    ensures Start(i + j, base) == Start(i, base) + Start(j, base)
    decreases j
  {
    if j > 0 {
      StartAdd(i, j - 1, base);
    }
  }

  /** Every offset lies in chunk `p / base` at offset `p % base`. */
  lemma Locate(p: nat, base: nat)
    requires base > 0
    ensures Start(p / base, base) + p % base == p
    ensures Start(p / base + 1, base) == Start(p / base, base) + base
  {
    StartIsProduct(p / base, base);
  }

  /** ... and in no other chunk. */
  lemma LocateUnique(p: nat, base: nat, i: nat, j: nat)
    requires base > 0 && j < base
    requires p == Start(i, base) + j
    ensures p / base == i && p % base == j
  {
    var q := p / base;
    Locate(p, base);
    if q < i {
      StartMonotone(q, i, base);
    } else if i < q {
      StartMonotone(i, q, base);
    }
  }

  // ----- a sequence of blocks as one sequence ---------------------------

  ghost predicate Uniform(bs: seq<seq<byte>>, base: nat)
  {
    forall i :: 0 <= i < |bs| ==> |bs[i]| == base
  }

  function Flatten(bs: seq<seq<byte>>): seq<byte>
  {
    if bs == [] then [] else Flatten(bs[..|bs| - 1]) + bs[|bs| - 1]
  }

  lemma FlattenNone()
    ensures Flatten([]) == []
  {
  }

  lemma FlattenAppend(bs: seq<seq<byte>>, b: seq<byte>)
    ensures Flatten(bs + [b]) == Flatten(bs) + b
  {
    assert (bs + [b])[..|bs|] == bs;
  }

  lemma FlattenOne(b: seq<byte>)
    ensures Flatten([b]) == b
  {
    FlattenAppend([], b);
    assert [] + [b] == [b];
  }

  lemma {:induction false} FlattenLength(bs: seq<seq<byte>>, base: nat)
    requires Uniform(bs, base)
    ensures |Flatten(bs)| == Start(|bs|, base)
  {
    if bs != [] {
      FlattenLength(bs[..|bs| - 1], base);
    }
  }

  /** Block `i` is the chunk that starts at `Start(i)`. */
  lemma {:induction false} FlattenBlock(bs: seq<seq<byte>>, base: nat, i: nat)
    requires Uniform(bs, base) && i < |bs|
    ensures Start(i, base) + base <= |Flatten(bs)|
    ensures Flatten(bs)[Start(i, base)..Start(i, base) + base] == bs[i]
  {
    var front := bs[..|bs| - 1];
    FlattenLength(front, base);
    if i < |front| {
      FlattenBlock(front, base, i);
      assert Flatten(bs)[Start(i, base)..Start(i, base) + base]
          == Flatten(front)[Start(i, base)..Start(i, base) + base];
    }
  }

  /** Overwriting inside one block overwrites the flat sequence in one place. */
  lemma {:induction false} FlattenSplice(bs: seq<seq<byte>>, base: nat, i: nat, at: nat, s: seq<byte>)
    requires Uniform(bs, base) && i < |bs| && at + |s| <= base
    ensures Start(i, base) + at + |s| <= |Flatten(bs)|
    ensures Flatten(bs[i := Splice(bs[i], at, s)]) == Splice(Flatten(bs), Start(i, base) + at, s)
  {
    var front, last := bs[..|bs| - 1], bs[|bs| - 1];
    var cs := bs[i := Splice(bs[i], at, s)];
    FlattenLength(front, base);
    if i < |front| {
      FlattenSplice(front, base, i, at, s);
      assert cs[..|cs| - 1] == front[i := Splice(front[i], at, s)];
      SpliceLeft(Flatten(front), last, Start(i, base) + at, s);
    } else {
      assert cs[..|cs| - 1] == front;
      SpliceRight(Flatten(front), last, at, s);
    }
  }

  lemma SpliceLeft(a: seq<byte>, b: seq<byte>, p: nat, s: seq<byte>)
    requires p + |s| <= |a|
    ensures Splice(a + b, p, s) == Splice(a, p, s) + b
  {
  }

  lemma SpliceRight(a: seq<byte>, b: seq<byte>, p: nat, s: seq<byte>)
    requires p + |s| <= |b|
    ensures Splice(a + b, |a| + p, s) == a + Splice(b, p, s)
  {
  }
}
