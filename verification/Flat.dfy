/**
 The specification of a serialization buffer: one flat sequence of bytes with a
 size and a cursor. `mem` covers the whole capacity, so the bytes between
 `size` and `|mem|` are allocated and not yet meaningful.
 */
module Flat {
  import opened Bytes

  datatype Flat = Flat(base: nat, mem: seq<byte>, size: nat, pos: nat)
  {
    ghost predicate Ok() { base > 0 && pos <= size <= |mem| }

    /** The room behind the cursor (getCapacity). */
    function Room(): nat requires pos <= |mem| { |mem| - pos }

    /** The bytes a reader can still take (getReadSize of them). */
    function Unread(): seq<byte> requires pos <= size <= |mem| { mem[pos..size] }

    /** The meaningful bytes. */
    function Data(): seq<byte> requires size <= |mem| { mem[..size] }
  }

  /** What the caller sees of an operation that can throw, or that the source
      turns into a null dereference. */
  datatype Outcome = Done | OutOfRange | Crash

  // ----- growing ---------------------------------------------------------

  /** The number of nodes addCapacity allocates for a request of `size` bytes
      when `room` bytes are free behind the cursor. */
  function AddCount(base: nat, room: nat, size: nat): nat
    requires base > 0
  {
    if size == 0 || room > size then 0
    else (size - room) / base + (if (size - room) % base > room then 1 else 0)
  }

  /** A full buffer always grows. */
  lemma AddCountPositive(base: nat, size: nat)
    requires base > 0 && size > 0
    ensures AddCount(base, 0, size) > 0
  {
    Locate(size, base);
  }

  /** The condition under which that number is enough. */
  predicate Fits(base: nat, room: nat, size: nat)
    requires base > 0
  {
    || room >= size
    || (size - room) % base == 0
    || (size - room) % base > room
  }

  /** addCapacity makes enough room exactly when `Fits` holds. */
  lemma AddCapacityIffFits(base: nat, room: nat, size: nat)
    requires base > 0
    ensures room + Start(AddCount(base, room, size), base) >= size <==> Fits(base, room, size)
  {
    if size > room {
      Locate(size - room, base);
    }
  }

  /** ... and then no smaller number of nodes would do. */
  lemma AddCapacityIsLeast(base: nat, room: nat, size: nat, k: nat)
    requires base > 0 && Fits(base, room, size)
    requires room + Start(k, base) >= size
    ensures AddCount(base, room, size) <= k
  {
    if size > room {
      Locate(size - room, base);
      if k < AddCount(base, room, size) {
        StartMonotone(k, AddCount(base, room, size) - 1, base);
      }
    }
  }

  /** The documented promise "grow so that size bytes fit" is broken here: six
      free bytes in a 4096-byte node, eight to write. */
  lemma AddCapacityFallsShort()
    ensures !Fits(4096, 6, 8)
    ensures AddCount(4096, 6, 8) == 0
  {
  }

  /** Families of calls that are always safe. */
  lemma FitsAlways(base: nat, room: nat, size: nat)
    requires base > 0
    requires base == 1 || size <= 1 || room == 0
    ensures Fits(base, room, size)
  {
    if size > room {
      Locate(size - room, base);
    }
  }

  // ----- writing, reading, moving ----------------------------------------

  /** `g` is `f` after the bytes `s` were written at the cursor: the bytes in
      front of the cursor and those behind the written ones are untouched. */
  ghost predicate Wrote(f: Flat, s: seq<byte>, g: Flat)
    requires f.Ok()
  {
    && g.Ok() && g.base == f.base
    && g.pos == f.pos + |s|
    && g.size == Max(f.size, g.pos)
    && |f.mem| <= |g.mem|
    && g.mem[..f.pos] == f.mem[..f.pos]
    && g.mem[f.pos..g.pos] == s
    && (forall k :: g.pos <= k < |f.mem| ==> g.mem[k] == f.mem[k])
  }

  /** A run of writes of the given sizes: does every one of them fit? */
  predicate FitsRun(base: nat, capacity: nat, pos: nat, sizes: seq<nat>)
    requires base > 0 && pos <= capacity
    decreases |sizes|
  {
    sizes == []
    || (Fits(base, capacity - pos, sizes[0])
        && var c := CapacityAfter(base, capacity, pos, sizes[0]);
           AddCapacityIffFits(base, capacity - pos, sizes[0]);
           FitsRun(base, c, pos + sizes[0], sizes[1..]))
  }

  /** The capacity behind such a run. */
  function RunCapacity(base: nat, capacity: nat, pos: nat, sizes: seq<nat>): (c: nat)
    requires base > 0 && pos <= capacity && FitsRun(base, capacity, pos, sizes)
    ensures pos + Total(sizes) <= c && capacity <= c
    decreases |sizes|
  {
    if sizes == [] then capacity
    else
      AddCapacityIffFits(base, capacity - pos, sizes[0]);
      RunCapacity(base, CapacityAfter(base, capacity, pos, sizes[0]), pos + sizes[0], sizes[1..])
  }

  function Total(sizes: seq<nat>): nat
  {
    if sizes == [] then 0 else sizes[0] + Total(sizes[1..])
  }

  lemma FitsRunOne(base: nat, capacity: nat, pos: nat, n: nat)
    requires base > 0 && pos <= capacity
    ensures FitsRun(base, capacity, pos, [n]) <==> Fits(base, capacity - pos, n)
    ensures Fits(base, capacity - pos, n) ==>
              RunCapacity(base, capacity, pos, [n]) == CapacityAfter(base, capacity, pos, n)
  {
    assert [n][1..] == [];
    AddCapacityIffFits(base, capacity - pos, n);
  }

  /** One run after another is one run. */
  lemma {:induction false} FitsRunAppend(base: nat, capacity: nat, pos: nat, a: seq<nat>, b: seq<nat>)
    requires base > 0 && pos <= capacity
    ensures FitsRun(base, capacity, pos, a + b) <==>
            && FitsRun(base, capacity, pos, a)
            && FitsRun(base, RunCapacity(base, capacity, pos, a), pos + Total(a), b)
    ensures FitsRun(base, capacity, pos, a + b) ==>
            RunCapacity(base, capacity, pos, a + b)
            == RunCapacity(base, RunCapacity(base, capacity, pos, a), pos + Total(a), b)
    decreases |a|
  {
    if a == [] {
      assert a + b == b;
    } else {
      hide Fits, CapacityAfter;
      assert (a + b)[0] == a[0] && (a + b)[1..] == a[1..] + b;
      if Fits(base, capacity - pos, a[0]) {
        var c := CapacityAfter(base, capacity, pos, a[0]);
        FitsRoom(base, capacity, pos, a[0]);
        FitsRunAppend(base, c, pos + a[0], a[1..], b);
      }
    }
  }

  lemma FitsRoom(base: nat, capacity: nat, pos: nat, n: nat)
    requires base > 0 && pos <= capacity && Fits(base, capacity - pos, n)
    ensures pos + n <= CapacityAfter(base, capacity, pos, n)
  {
    AddCapacityIffFits(base, capacity - pos, n);
  }

  lemma RoomFits(base: nat, room: nat, size: nat)
    requires base > 0
    ensures room >= size ==> Fits(base, room, size)
  {
  }

  lemma WroteNothing(f: Flat)
    requires f.Ok()
    ensures Wrote(f, [], f)
  {
  }

  /** Growing first and overwriting then is a write. */
  lemma WroteSplice(f: Flat, m: seq<byte>, s: seq<byte>, g: Flat)
    requires f.Ok() && f.mem <= m && f.pos + |s| <= |m|
    requires g == Flat(f.base, Splice(m, f.pos, s), Max(f.size, f.pos + |s|), f.pos + |s|)
    ensures Wrote(f, s, g)
  {
  }

  lemma GrewWrote(f: Flat, f': Flat, s: seq<byte>, g: Flat)
    requires f.Ok() && f.mem <= f'.mem && f' == f.(mem := f'.mem) && Wrote(f', s, g)
    ensures Wrote(f, s, g)
  {
  }

  /** The capacity behind which a write of `n` bytes leaves the buffer. */
  function CapacityAfter(base: nat, capacity: nat, pos: nat, n: nat): nat
    requires base > 0 && pos <= capacity
  {
    capacity + Start(AddCount(base, capacity - pos, n), base)
  }

  lemma SliceOfPrefix(m: seq<byte>, n: nat, a: nat, b: nat)
    requires a <= b <= n <= |m|
    ensures m[..n][a..b] == m[a..b]
  {
  }

  /** Seen from the outside, a write replaces the bytes it covers and extends
      the data where it reaches past the end. */
  lemma WroteData(f: Flat, s: seq<byte>, g: Flat)
    requires f.Ok() && Wrote(f, s, g)
    ensures g.Data() == f.Data()[..f.pos] + s
                        + (if g.pos < f.size then f.Data()[g.pos..] else [])
  {
    var d := g.Data();
    assert d[..f.pos] == g.mem[..f.pos] == f.Data()[..f.pos];
    SliceOfPrefix(g.mem, g.size, f.pos, g.pos);
    assert d == d[..f.pos] + d[f.pos..g.pos] + d[g.pos..];
    if g.pos < f.size {
      assert d[g.pos..] == f.Data()[g.pos..];
    }
  }

  /** Two writes in a row are one write of the concatenation. */
  lemma WroteWrote(f: Flat, a: seq<byte>, g: Flat, b: seq<byte>, h: Flat)
    requires f.Ok() && Wrote(f, a, g) && Wrote(g, b, h)
    ensures Wrote(f, a + b, h)
  {
    assert h.mem[..f.pos] == h.mem[..g.pos][..f.pos] == g.mem[..f.pos];
    assert h.mem[f.pos..h.pos] == h.mem[..g.pos][f.pos..] + h.mem[g.pos..h.pos];
    assert g.mem[..g.pos][f.pos..] == g.mem[f.pos..g.pos];
  }

  /** A read of `n` bytes: what it returns and where it leaves the cursor. */
  function ReadOutcome(f: Flat, n: nat): Outcome
    requires f.pos <= f.size <= |f.mem|
  {
    if n > f.size - f.pos then OutOfRange
    else if f.pos == |f.mem| then Crash
    else Done
  }

  ghost predicate DidRead(f: Flat, n: nat, s: seq<byte>, g: Flat)
    requires f.Ok()
  {
    f.pos + n <= f.size && s == f.mem[f.pos..f.pos + n] && g == f.(pos := f.pos + n)
  }

  /** setPosition moves the cursor and drags the size along. */
  function Moved(f: Flat, v: nat): Flat
  {
    f.(pos := v, size := Max(f.size, v))
  }

  /** What was written is what a reader finds when the cursor is put back. */
  lemma WriteThenRead(f: Flat, s: seq<byte>, g: Flat)
    requires f.Ok() && Wrote(f, s, g)
    ensures DidRead(Moved(g, f.pos), |s|, s, g)
  {
  }

  // ----- files -------------------------------------------------------------

  /** When the chunks of writeToFile are the unread bytes: it subtracts the
      offset in the first node from the length of a short last chunk too. */
  predicate FileSafe(f: Flat)
    requires f.base > 0 && f.pos <= f.size
  {
    f.size == f.pos || f.pos % f.base == 0 || f.size - f.pos >= f.base
  }

  lemma FlattenSlice(bs: seq<seq<byte>>, m: seq<byte>, a: nat, b: nat, c: nat)
    requires a <= b <= c <= |m| && Flatten(bs) == m[a..b]
    ensures Flatten(bs + [m[b..c]]) == m[a..c]
  {
    FlattenAppend(bs, m[b..c]);
  }

  /** One good step of the loop, `n` being the number of nodes. */
  lemma FileStepGood(pos: nat, base: nat, i: nat, readSize: nat, len: int, n: nat)
    requires FileStep(base, i, n, pos, readSize) && readSize > 0
    requires len == (if readSize > base then base else readSize) - pos % base
    ensures i < n && Start(i, base) + pos % base == pos
    ensures 0 < len <= readSize && FileStep(base, i + 1, n, pos + len, readSize - len)
  {
    if readSize > len {
      LocateUnique(pos + len, base, i + 1, 0);
      if n == i + 1 { assert false; }
    }
  }

  /** Offset `pos` is the next one to go out, from node `i` of `n`. */
  ghost predicate FileStep(base: nat, i: nat, n: nat, pos: nat, readSize: int)
  {
    && base > 0 && i <= n
    && (readSize > 0 ==>
          && i < n && pos + readSize <= Start(n, base)
          && Start(i, base) + pos % base == pos
          && (pos % base == 0 || readSize >= base))
  }

  /** Fewer bytes than one node, from the middle of a node: the loop never gets
      out of this state. */
  ghost predicate FileStuck(base: nat, pos: nat, readSize: int)
  {
    base > 0 && 0 < readSize < base && pos % base > 0
  }

  lemma FileEnd(base: nat, pos: nat, readSize: int)
    ensures FileStuck(base, pos, readSize) ==> readSize > 0
  {
  }

  lemma FileStepBad(pos: nat, base: nat, readSize: int, len: int)
    requires FileStuck(base, pos, readSize)
    requires len == (if readSize > base then base else readSize) - pos % base
    ensures readSize > 0 && len + pos % base < base
    ensures 0 <= len ==> FileStuck(base, pos + len, readSize - len)
  {
    Locate(pos, base);
    if 0 <= len {
      LocateUnique(pos + len, base, pos / base, readSize);
    }
  }

  /** The sizes of the blocks readFromFile writes: full ones, then one short
      one, which is empty when the length is a multiple of the base size. */
  function FileBlocks(base: nat, n: nat): seq<nat>
    requires base > 0
    decreases n
  {
    if n < base then [n] else [base] + FileBlocks(base, n - base)
  }

  /** As many full blocks as there are, then the rest, even if it is empty. */
  lemma {:induction false} FileBlocksMeans(base: nat, n: nat)
    requires base > 0
    ensures var b := FileBlocks(base, n); |b| > 0 && b[|b| - 1] < base && Total(b) == n
    ensures var b := FileBlocks(base, n); forall i :: 0 <= i < |b| - 1 ==> b[i] == base
    decreases n
  {
    if n < base {
      assert [n][1..] == [] && Total([n]) == n;
    } else {
      FileBlocksMeans(base, n - base);
      assert FileBlocks(base, n)[1..] == FileBlocks(base, n - base);
    }
  }

  lemma FitsFileStep(base: nat, capacity: nat, pos: nat, n: nat)
    requires base > 0 && pos <= capacity
    ensures
      var m := Min(base, n);
      var c := CapacityAfter(base, capacity, pos, m);
      FitsRun(base, capacity, pos, FileBlocks(base, n)) <==>
      && Fits(base, capacity - pos, m)
      && (n >= base ==> pos + m <= c && FitsRun(base, c, pos + m, FileBlocks(base, n - base)))
  {
    AddCapacityIffFits(base, capacity - pos, Min(base, n));
    if n < base {
      assert FileBlocks(base, n)[1..] == [];
    } else {
      assert FileBlocks(base, n)[1..] == FileBlocks(base, n - base);
    }
  }

  /** From a node-aligned position every block fits. */
  lemma {:induction false} AlignedBlocksFit(base: nat, i: nat, k: nat, n: nat)
    requires base > 0 && i <= k && Start(i, base) <= Start(k, base)
    ensures FitsRun(base, Start(k, base), Start(i, base), FileBlocks(base, n))
    decreases n
  {
    hide Fits, FitsRun, FileBlocks, CapacityAfter, AddCount;
    var room, m := Start(k, base) - Start(i, base), Min(base, n);
    if i < k {
      StartMonotone(i, k, base);
      RoomFits(base, room, m);
    } else {
      FitsAlways(base, room, m);
    }
    FitsFileStep(base, Start(k, base), Start(i, base), n);
    if n >= base {
      var c := AlignedStep(base, i, k);
      AlignedBlocksFit(base, i + 1, c, n - base);
    }
  }

  lemma AlignedStep(base: nat, i: nat, k: nat) returns (c: nat)
    requires base > 0 && i <= k && Start(i, base) <= Start(k, base)
    requires Fits(base, Start(k, base) - Start(i, base), base)
    ensures i + 1 <= c && Start(i + 1, base) <= Start(c, base)
    ensures CapacityAfter(base, Start(k, base), Start(i, base), base) == Start(c, base)
  {
    var room := Start(k, base) - Start(i, base);
    AddCapacityIffFits(base, room, base);
    c := k + AddCount(base, room, base);
    StartAdd(k, AddCount(base, room, base), base);
    assert Start(i + 1, base) <= Start(c, base);
    if c < i + 1 {
      StartMonotone(c, i, base);
      assert false;
    }
  }
}
