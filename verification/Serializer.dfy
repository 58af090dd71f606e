/**
 The typed readers and writers of `ByteArray`, and the trip of a list of values
 through a buffer. `machine` says whether the machine is little-endian; the
 buffer's own byte order is its field.
 */
module Serializer {
  import opened Bytes
  import opened Flat
  import opened ByteArray
  import opened Varints
  import Codec

  // ----- writers -----------------------------------------------------------

  /** writeFint8 ... writeFuint64, writeFloat, writeDouble: a word of `n` bytes. */
  method WriteFixed(ba: ByteArray, machine: bool, v: nat, n: nat) returns (ok: bool)
    requires ba.Valid() && v < Codec.Pow256(n)
    modifies ba, ba.cells, ba.store
    ensures fresh(ba.cells - old(ba.cells)) && fresh(ba.store - old(ba.store))
    ensures ok <==> Fits(ba.base, old(ba.capacity - ba.position), n)
    ensures ok ==> ba.Valid() && ba.littleEndian == old(ba.littleEndian)
    ensures ok ==> Wrote(old(ba.View()), Codec.Image(old(ba.littleEndian), v, n), ba.View())
    ensures ok ==> ba.capacity == CapacityAfter(ba.base, old(ba.capacity), old(ba.position), n)
  {
    hide Fits, Wrote, CapacityAfter, ByteArray.Valid;
    ba.ValidView();
    Codec.WireOrder(ba.littleEndian, machine, v, n);
    var w := if ba.littleEndian != machine then Codec.Byteswap(v, n) else v;
    ok := ba.Write(Codec.Image(machine, w, n));
  }

  /** writeUint32 and writeUint64: seven bits at a time into a buffer of `n` bytes. */
  method WriteVarint(ba: ByteArray, v: nat, n: nat) returns (ok: bool)
    requires ba.Valid() && n > 0 && v < Pow128(n)
    modifies ba, ba.cells, ba.store
    ensures fresh(ba.cells - old(ba.cells)) && fresh(ba.store - old(ba.store))
    ensures ok <==> Fits(ba.base, old(ba.capacity - ba.position), |Varint(v)|)
    ensures ok ==> ba.Valid() && ba.littleEndian == old(ba.littleEndian)
    ensures ok ==> Wrote(old(ba.View()), Varint(v), ba.View())
    ensures ok ==> ba.capacity == CapacityAfter(ba.base, old(ba.capacity), old(ba.position), |Varint(v)|)
  {
    hide Fits, Wrote, CapacityAfter, ByteArray.Valid;
    ba.ValidView();
    var s := EncodeVarint(v, n);
    ok := ba.Write(s);
  }

  method EncodeVarint(v: nat, n: nat) returns (s: seq<byte>)
    requires n > 0 && v < Pow128(n)
    ensures s == Varint(v) && |s| <= n
  {
    var tmp := new byte[n];
    var i: nat, w: nat := 0, v;
    while w >= 128
      invariant i < n && w < Pow128(n - i)
      invariant tmp[..i] + Varint(w) == Varint(v)
      decreases w
    {
      ghost var before := tmp[..i];
      tmp[i] := w % 128 + 128;
      assert tmp[..i + 1] == before + [w % 128 + 128];
      i, w := i + 1, w / 128;
    }
    tmp[i] := w;
    s := tmp[..i + 1];
  }

  /** writeStringF16, F32, F64 and Vint: the length, then the bytes. */
  method WriteText(ba: ByteArray, machine: bool, p: Codec.Prefix, s: seq<byte>) returns (ok: bool)
    requires ba.Valid() && |s| < TWO_64
    modifies ba, ba.cells, ba.store
    ensures fresh(ba.cells - old(ba.cells)) && fresh(ba.store - old(ba.store))
    ensures ok <==> FitsRun(ba.base, old(ba.capacity), old(ba.position),
                            Sizes(old(ba.littleEndian), Codec.Text(p, s)))
    ensures ok ==> ba.Valid() && ba.littleEndian == old(ba.littleEndian)
    ensures ok ==> Wrote(old(ba.View()), Codec.Wire(old(ba.littleEndian), Codec.Text(p, s)), ba.View())
    ensures ok ==> ba.capacity == RunCapacity(ba.base, old(ba.capacity), old(ba.position),
                                              Sizes(old(ba.littleEndian), Codec.Text(p, s)))
  {
    hide Fits, Wrote, CapacityAfter, FitsRun, RunCapacity, ByteArray.Valid, Codec.Image, Varint, Pow128, Codec.Pow256;
    ba.ValidView();
    Pow128Values();
    Codec.Pow256Values();
    ghost var f, e := ba.View(), Codec.LengthBytes(ba.littleEndian, p, |s|);
    FitsRunTwo(ba.base, ba.capacity, ba.position, |e|, |s|);
    LengthSize(ba.littleEndian, p, |s|);
    match p {
      case Len16 => ok := WriteFixed(ba, machine, |s| % 0x1_0000, 2);
      case Len32 => ok := WriteFixed(ba, machine, |s| % TWO_32, 4);
      case Len64 => ok := WriteFixed(ba, machine, |s| % TWO_64, 8);
      case LenVarint => ok := WriteVarint(ba, |s| % TWO_64, 10);
    }
    if !ok {
      return;
    }
    ba.ValidView();
    ghost var g := ba.View();
    assert Wrote(f, e, g);
    WrotePos(f, e, g);
    ok := ba.Write(s);
    if ok {
      WroteWrote(f, e, g, s, ba.View());
    }
  }

  lemma WrotePos(f: Flat, s: seq<byte>, g: Flat)
    requires f.Ok() && Wrote(f, s, g)
    ensures g.Ok() && g.base == f.base && g.pos == f.pos + |s| && g.size == Max(f.size, g.pos)
  {
  }

  lemma LengthSize(little: bool, p: Codec.Prefix, n: nat)
    ensures p.Len16? ==> |Codec.LengthBytes(little, p, n)| == 2
    ensures p.Len32? ==> |Codec.LengthBytes(little, p, n)| == 4
    ensures p.Len64? ==> |Codec.LengthBytes(little, p, n)| == 8
  {
  }

  lemma FitsRunTwo(base: nat, capacity: nat, pos: nat, a: nat, b: nat)
    requires base > 0 && pos <= capacity
    ensures FitsRun(base, capacity, pos, [a, b]) <==>
            Fits(base, capacity - pos, a) && pos + a <= CapacityAfter(base, capacity, pos, a)
            && Fits(base, CapacityAfter(base, capacity, pos, a) - (pos + a), b)
    ensures FitsRun(base, capacity, pos, [a, b]) ==>
            RunCapacity(base, capacity, pos, [a, b])
            == CapacityAfter(base, CapacityAfter(base, capacity, pos, a), pos + a, b)
  {
    hide Fits, CapacityAfter;
    assert [a, b][1..] == [b];
    if Fits(base, capacity - pos, a) {
      FitsRoom(base, capacity, pos, a);
      FitsRunOne(base, CapacityAfter(base, capacity, pos, a), pos + a, b);
    }
  }

  /** The sizes of the calls of write one value makes. */
  function Sizes(little: bool, v: Codec.Value): seq<nat>
    requires Codec.InRange(v)
  {
    if v.Text? then [|Codec.LengthBytes(little, v.prefix, |v.s|)|, |v.s|] else [|Codec.Wire(little, v)|]
  }

  /** Any typed write: dispatch to the writer of the value's kind. */
  method WriteValue(ba: ByteArray, machine: bool, v: Codec.Value) returns (ok: bool)
    requires ba.Valid() && Codec.InRange(v)
    modifies ba, ba.cells, ba.store
    ensures fresh(ba.cells - old(ba.cells)) && fresh(ba.store - old(ba.store))
    ensures ok <==> FitsRun(ba.base, old(ba.capacity), old(ba.position), Sizes(old(ba.littleEndian), v))
    ensures ok ==> ba.Valid() && ba.littleEndian == old(ba.littleEndian)
    ensures ok ==> Wrote(old(ba.View()), Codec.Wire(old(ba.littleEndian), v), ba.View())
    ensures ok ==> ba.capacity == RunCapacity(ba.base, old(ba.capacity), old(ba.position),
                                              Sizes(old(ba.littleEndian), v))
  {
    hide Fits, Wrote, CapacityAfter, FitsRun, RunCapacity, ByteArray.Valid, Codec.Image, Varint, Pow128;
    hide EncodeZigzag;
    ba.ValidView();
    FitsRunOne(ba.base, ba.capacity, ba.position, |Codec.Wire(ba.littleEndian, v)|);
    Pow128Values();
    match v {
      case Fixed(w, sg, i) =>
        ok := WriteFixed(ba, machine, i % Codec.Pow256(w), w);
      case VarU32(n) => ok := WriteVarint(ba, n, 5);
      case VarU64(n) => ok := WriteVarint(ba, n, 10);
      case VarI32(n) =>
        ZigzagIsStandard(n, TWO_32);
        ok := WriteVarint(ba, EncodeZigzag(n, TWO_32), 5);
      case VarI64(n) =>
        ZigzagIsStandard(n, TWO_64);
        ok := WriteVarint(ba, EncodeZigzag(n, TWO_64), 10);
      case Text(p, s) => ok := WriteText(ba, machine, p, s);
    }
  }

  // ----- readers -----------------------------------------------------------

  /** readFint8 ... readFuint64, readFloat. */
  method ReadFixed(ba: ByteArray, machine: bool, n: nat) returns (o: Outcome, v: nat)
    requires ba.Valid() && n > 0
    modifies ba`position, ba`size, ba`cur, ba`at
    ensures ba.Valid()
    ensures o == if n > |old(ba.View().Unread())| then OutOfRange else Done
    ensures o.Done? ==> v == Codec.Load(ba.littleEndian, old(ba.View().Unread()[..n])) < Codec.Pow256(n)
    ensures ba.View() == old(ba.View()).(pos := old(ba.position) + if o.Done? then n else 0)
  {
    ba.ValidView();
    var s;
    ghost var f := ba.View();
    o, s := ba.Read(n);
    v := 0;
    if o.Done? {
      assert s == f.Unread()[..n];
      Codec.LoadOrder(ba.littleEndian, machine, s);
      v := Codec.Load(machine, s);
      if ba.littleEndian != machine {
        v := Codec.Byteswap(v, n);
      }
    }
  }

  /** Adding the next seven bits: the shift drops what leaves the word. */
  lemma AddBits(r: nat, scale: nat, c: nat, b: nat)
    requires r < scale && c > 0
    ensures r + (b * scale) % (scale * c) == (r + b * scale) % (scale * c) < scale * c
  {
    var m := scale * c;
    var q := b / c;
    var t := b % c;
    assert b * scale == m * q + t * scale by {
      assert b == c * q + t;
      assert (c * q + t) * scale == (c * q) * scale + t * scale;
      assert (c * q) * scale == (scale * c) * q;
    }
    assert t * scale + scale <= m by {
      assert (t + 1) * scale <= c * scale;
    }
    ModUnique(b * scale, m, q, t * scale);
    ModUnique(r + b * scale, m, q, r + t * scale);
  }

  /** Where the loop of a varint reader stands after `k` bytes, all of them with
      the top bit set: `r` is their value. */
  ghost predicate Halfway(s: seq<byte>, n: nat, k: nat, r: nat)
  {
    && k <= n && k <= |s| && r < Pow128(k)
    && Unvar(s, n) == match Unvar(s[k..], n - k)
                      case Short => Short
                      case Got(v, u) => Got(r + Pow128(k) * v, k + u)
  }

  lemma HalfwayStart(s: seq<byte>, n: nat)
    ensures Halfway(s, n, 0, 0)
  {
    assert s[0..] == s;
  }

  /** The next byte is the last one ... */
  lemma HalfwayLast(s: seq<byte>, n: nat, k: nat, r: nat, g: nat)
    requires Halfway(s, n, k, r) && k < n && k < |s| && s[k] < 128 && g == Group(s[k], Pow128(k))
    ensures Unvar(s, n) == Got(r + g, k + 1)
  {
    var t := s[k..];
    UnvarStep(t, n - k);
    hide Unvar, Pow128;
    Groups(Pow128(k), s[k], r);
  }

  /** ... or one more of the others. */
  lemma HalfwayMore(s: seq<byte>, n: nat, k: nat, r: nat, g: nat)
    requires Halfway(s, n, k, r) && k < n && k < |s| && s[k] >= 128 && g == Group(s[k], Pow128(k))
    ensures Halfway(s, n, k + 1, r + g)
  {
    var t := s[k..];
    assert t[0] == s[k] && t[1..] == s[k + 1..];
    UnvarStep(t, n - k);
    hide Unvar, Pow128;
    Groups(Pow128(k), s[k] % 128, r);
    Pow128Step(k);
    if Unvar(t[1..], n - k - 1).Got? {
      GroupsAbove(Pow128(k), s[k] % 128, Unvar(t[1..], n - k - 1).value);
    }
  }

  lemma UnvarStep(t: seq<byte>, n: nat)
    requires n > 0 && t != []
    ensures t[0] < 128 ==> Unvar(t, n) == Got(t[0], 1)
    ensures t[0] >= 128 ==> Unvar(t, n) == match Unvar(t[1..], n - 1)
                                           case Short => Short
                                           case Got(v, u) => Got(t[0] % 128 + 128 * v, 1 + u)
  {
  }

  lemma Groups(p: nat, b: nat, r: nat)
    requires b < 128 && r < p
    ensures r + b * p < 128 * p && b * p == p * b
  {
    assert (b + 1) * p <= 128 * p;
  }

  lemma GroupsAbove(p: nat, b: nat, v: nat)
    ensures p * (b + 128 * v) == b * p + (128 * p) * v
  {
  }

  lemma HalfwayEnd(s: seq<byte>, n: nat, k: nat, r: nat)
    requires Halfway(s, n, k, r)
    ensures k == n ==> Unvar(s, n) == Got(r, n)
    ensures r < Pow128(k)
    ensures k < n && k == |s| ==> Unvar(s, n) == Short
  {
  }

  lemma {:induction false} Pow128Monotone(i: nat, j: nat)
    requires i <= j
    ensures Pow128(i) <= Pow128(j)
    decreases j
  {
    if i < j { Pow128Monotone(i, j - 1); }
  }

  /** The low seven bits of a byte, shifted into place, and a word's wrap-around. */
  function Group(b: byte, scale: nat): nat { (b % 128) * scale }

  function Wrap(x: nat, m: nat): nat requires m > 0 { x % m }

  predicate Reader(n: nat, m: nat) { (n == 5 && m == TWO_32) || (n == 10 && m == TWO_64) }

  /** Only the last group of a full-length varint can lose bits. */
  lemma GroupFits(r: nat, k: nat, b: byte, n: nat, m: nat)
    requires Reader(n, m) && k < n && r < Pow128(k)
    ensures var g := Group(b, Pow128(k));
            && r + Wrap(g, m) == Wrap(r + g, m)
            && (k + 1 < n ==> r + Wrap(g, m) == r + g)
  {
    hide Pow128;
    Pow128Values();
    var g := Group(b, Pow128(k));
    if k + 1 < n {
      GroupSmall(r, k, b % 128, g, n);
      ModSmall(g, m);
      ModSmall(r + g, m);
    } else if n == 5 {
      AddBits(r, 0x1000_0000, 16, b % 128);
    } else {
      AddBits(r, TWO_63, 2, b % 128);
    }
  }

  lemma GroupSmall(r: nat, k: nat, b: nat, g: nat, n: nat)
    requires k + 1 < n && r < Pow128(k) && b < 128 && g == b * Pow128(k)
    ensures r + g < Pow128(n - 1)
  {
    hide Pow128;
    Groups(Pow128(k), b, r);
    Pow128Step(k);
    Pow128Monotone(k + 1, n - 1);
  }

  lemma Pow128Step(k: nat)
    ensures Pow128(0) == 1 && Pow128(k + 1) == 128 * Pow128(k)
  {
  }

  /** readFuint8, `k` bytes behind the place where `f` was the view. */
  method ReadByte(ba: ByteArray, ghost f: Flat, ghost k: nat) returns (o: Outcome, b: byte)
    requires ba.Valid() && f.Ok() && k <= |f.Unread()| && ba.View() == f.(pos := f.pos + k)
    modifies ba`position, ba`size, ba`cur, ba`at
    ensures ba.Valid()
    ensures o == if k == |f.Unread()| then OutOfRange else Done
    ensures o.Done? ==> b == f.Unread()[k] && ba.View() == f.(pos := f.pos + k + 1)
    ensures !o.Done? ==> ba.View() == f.(pos := f.pos + k)
  {
    ba.ValidView();
    hide ByteArray.Valid;
    var t;
    o, t := ba.Read(1);
    b := if o.Done? then t[0] else 0;
  }

  /** The decoding loop after `k` bytes: `r` is the value of their groups, `v` what the
      reader holds of it. */
  ghost predicate Progress(s: seq<byte>, n: nat, m: nat, k: nat, r: nat, v: nat, scale: nat)
  {
    && Reader(n, m) && k <= n && k <= |s| && scale == Pow128(k) && Halfway(s, n, k, r)
    && v == Wrap(r, m) && (k < n ==> v == r)
  }

  lemma ProgressStart(s: seq<byte>, n: nat, m: nat)
    requires Reader(n, m)
    ensures Progress(s, n, m, 0, 0, 0, 1)
  {
    hide Halfway;
    Pow128Step(0);
    HalfwayStart(s, n);
    ModSmall(0, m);
  }

  lemma ProgressStep(s: seq<byte>, n: nat, m: nat, k: nat, r: nat, v: nat, scale: nat, b: byte)
    requires Progress(s, n, m, k, r, v, scale) && k < n && k < |s| && b == s[k]
    ensures
      var g := Group(b, scale);
      if b < 128 then Unvar(s, n) == Got(r + g, k + 1) && v + Wrap(g, m) == Wrap(r + g, m)
      else Progress(s, n, m, k + 1, r + g, v + Wrap(g, m), 128 * scale)
  {
    hide Unvar, Pow128, Halfway, Group, Wrap, Reader;
    var g := Group(b, scale);
    HalfwayEnd(s, n, k, r);
    GroupFits(r, k, b, n, m);
    Pow128Step(k);
    if b < 128 {
      HalfwayLast(s, n, k, r, g);
    } else {
      HalfwayMore(s, n, k, r, g);
    }
  }

  lemma ProgressEnd(s: seq<byte>, n: nat, m: nat, k: nat, r: nat, v: nat, scale: nat)
    requires Progress(s, n, m, k, r, v, scale)
    ensures m > 0 && k <= n && k <= |s|
    ensures k == n ==> Unvar(s, n) == Got(r, n) && v == Wrap(r, m)
    ensures k < n && k == |s| ==> Unvar(s, n) == Short
  {
    hide Unvar, Halfway;
    HalfwayEnd(s, n, k, r);
  }

  /** readUint32 (five bytes, 2^32) and readUint64 (ten bytes, 2^64). */
  method ReadVarint(ba: ByteArray, n: nat, m: nat) returns (o: Outcome, v: nat)
    requires ba.Valid() && Reader(n, m)
    modifies ba`position, ba`size, ba`cur, ba`at
    ensures ba.Valid() && ba.View() == old(ba.View()).(pos := ba.position)
    ensures Unvar(old(ba.View().Unread()), n).Short? ==> o == OutOfRange
    ensures Unvar(old(ba.View().Unread()), n).Got? ==>
              var p := Unvar(old(ba.View().Unread()), n);
              o == Done && v == Wrap(p.value, m) && ba.position == old(ba.position) + p.used
  {
    ba.ValidView();
    ghost var f, s := ba.View(), ba.View().Unread();
    assert f.Ok();
    hide Unvar, ByteArray.Valid, Group, Wrap, Reader, Progress;
    var k: nat, scale: nat := 0, 1;
    ghost var r: nat := 0;
    v := 0;
    ProgressStart(s, n, m);
    ProgressEnd(s, n, m, k, r, v, scale);
    while k < n
      invariant ba.Valid() && k <= n && k <= |s| && ba.View() == f.(pos := f.pos + k)
      invariant Progress(s, n, m, k, r, v, scale)
    {
      ProgressEnd(s, n, m, k, r, v, scale);
      var b;
      o, b := ReadByte(ba, f, k);
      if !o.Done? {
        return;
      }
      ProgressStep(s, n, m, k, r, v, scale, b);
      var g := Group(b, scale);
      r, v := r + g, v + Wrap(g, m);
      if b < 128 {
        return;
      }
      k, scale := k + 1, 128 * scale;
      ProgressEnd(s, n, m, k, r, v, scale);
    }
    ProgressEnd(s, n, m, k, r, v, scale);
    o := Done;
  }

  /** The length prefix of a string. */
  method ReadLength(ba: ByteArray, machine: bool, p: Codec.Prefix) returns (o: Outcome, n: nat)
    requires ba.Valid()
    modifies ba`position, ba`size, ba`cur, ba`at
    ensures ba.Valid() && ba.View() == old(ba.View()).(pos := ba.position)
    ensures Codec.ParseLength(ba.littleEndian, p, old(ba.View().Unread())).Short? ==> o == OutOfRange
    ensures Codec.ParseLength(ba.littleEndian, p, old(ba.View().Unread())).Got? ==>
              var r := Codec.ParseLength(ba.littleEndian, p, old(ba.View().Unread()));
              o == Done && n == r.value && ba.position == old(ba.position) + r.used
  {
    ba.ValidView();
    hide ByteArray.Valid, Codec.Load, Unvar;
    match p {
      case Len16 => o, n := ReadFixed(ba, machine, 2);
      case Len32 => o, n := ReadFixed(ba, machine, 4);
      case Len64 => o, n := ReadFixed(ba, machine, 8);
      case LenVarint => o, n := ReadVarint(ba, 10, TWO_64);
    }
  }

  /** How a typed read ends: what `Parse` says, except that an empty string right
      at the end of the buffer is read through a null cursor. */
  function ReadEnd(f: Flat, little: bool, k: Codec.Kind): Outcome
    requires f.pos <= f.size <= |f.mem|
  {
    match Codec.Parse(little, k, f.Unread())
    case Short => OutOfRange
    case Got(v, u) => if v.Text? && v.s == [] && f.pos + u == |f.mem| then Crash else Done
  }

  /** readStringF16, F32, F64 and Vint, from view `f`. */
  method ReadText(ba: ByteArray, machine: bool, p: Codec.Prefix, ghost f: Flat)
    returns (o: Outcome, v: Codec.Value)
    requires ba.Valid() && ba.View() == f && f.Ok()
    modifies ba`position, ba`size, ba`cur, ba`at
    ensures ba.Valid() && ba.View() == f.(pos := ba.position)
    ensures o == ReadEnd(f, ba.littleEndian, Codec.TextKind(p))
    ensures o.Done? ==>
              var r := Codec.Parse(ba.littleEndian, Codec.TextKind(p), f.Unread());
              r.Got? && v == r.value && ba.position == f.pos + r.used
  {
    hide ByteArray.Valid, Codec.ParseLength, Codec.Parse, ReadEnd, ReadOutcome;
    TextEnd(f, ba.littleEndian, p);
    v := Codec.Text(p, []);
    var n;
    o, n := ReadLength(ba, machine, p);
    if !o.Done? {
      return;
    }
    var t;
    o, t := ba.Read(n);
    if o.Done? {
      v := Codec.Text(p, t);
    }
  }

  /** Reading a string is reading its length, then that many bytes. */
  lemma TextEnd(f: Flat, little: bool, p: Codec.Prefix)
    requires f.Ok()
    ensures
      var k := Codec.TextKind(p);
      match Codec.ParseLength(little, p, f.Unread())
      case Short => ReadEnd(f, little, k) == OutOfRange
      case Got(n, u) =>
        && ReadEnd(f, little, k) == ReadOutcome(f.(pos := f.pos + u), n)
        && (ReadEnd(f, little, k).Done? ==>
              && f.pos + u + n <= f.size
              && Codec.Parse(little, k, f.Unread())
                 == Got(Codec.Text(p, f.mem[f.pos + u..f.pos + u + n]), u + n))
  {
    hide Codec.ParseLength;
    match Codec.ParseLength(little, p, f.Unread())
    case Short =>
    case Got(n, u) =>
      if n <= |f.Unread()| - u {
        SliceOfSlice(f.mem, f.pos, f.size - f.pos, u, u + n);
      }
  }

  /** Any typed read. */
  method ReadValue(ba: ByteArray, machine: bool, k: Codec.Kind) returns (o: Outcome, v: Codec.Value)
    requires ba.Valid() && Codec.KindOk(k)
    modifies ba`position, ba`size, ba`cur, ba`at
    ensures ba.Valid() && ba.View() == old(ba.View()).(pos := ba.position)
    ensures o == ReadEnd(old(ba.View()), ba.littleEndian, k)
    ensures o.Done? ==>
              var r := Codec.Parse(ba.littleEndian, k, old(ba.View().Unread()));
              r.Got? && v == r.value && ba.position == old(ba.position) + r.used
  {
    ba.ValidView();
    hide ByteArray.Valid, Codec.Load, Codec.ParseLength, Unvar, DecodeZigzag;
    var n;
    v := Codec.VarU32(0);
    match k {
      case FixedKind(w, sg) =>
        o, n := ReadFixed(ba, machine, w);
        v := Codec.Fixed(w, sg, if sg then Signed(n, Codec.Pow256(w)) else n);
      case VarU32Kind =>
        o, n := ReadVarint(ba, 5, TWO_32);
        v := Codec.VarU32(n);
      case VarU64Kind =>
        o, n := ReadVarint(ba, 10, TWO_64);
        v := Codec.VarU64(n);
      case VarI32Kind =>
        o, n := ReadVarint(ba, 5, TWO_32);
        if o.Done? { v := Codec.VarI32(DecodeZigzag(n, TWO_32)); }
      case VarI64Kind =>
        o, n := ReadVarint(ba, 5, TWO_32);
        if o.Done? { v := Codec.VarI64(DecodeZigzag(n, TWO_64)); }
      case TextKind(p) =>
        o, v := ReadText(ba, machine, p, ba.View());
    }
  }

  // ----- lists -------------------------------------------------------------

  function SizesAll(little: bool, vs: seq<Codec.Value>): seq<nat>
    requires Codec.AllInRange(vs)
  {
    if vs == [] then [] else Sizes(little, vs[0]) + SizesAll(little, vs[1..])
  }

  method WriteAll(ba: ByteArray, machine: bool, vs: seq<Codec.Value>) returns (ok: bool)
    requires ba.Valid() && Codec.AllInRange(vs)
    modifies ba, ba.cells, ba.store
    ensures fresh(ba.cells - old(ba.cells)) && fresh(ba.store - old(ba.store))
    ensures ok <==> FitsRun(ba.base, old(ba.capacity), old(ba.position), SizesAll(old(ba.littleEndian), vs))
    ensures ok ==> ba.Valid() && ba.littleEndian == old(ba.littleEndian)
    ensures ok ==> Wrote(old(ba.View()), Codec.WireAll(old(ba.littleEndian), vs), ba.View())
  {
    hide ByteArray.Valid, Wrote, FitsRun, RunCapacity, SizesAll, Codec.WireAll, Sizes, Codec.Wire, Codec.InRange;
    ba.ValidView();
    ghost var f, little := ba.View(), ba.littleEndian;
    ghost var all := FitsRun(ba.base, ba.capacity, ba.position, SizesAll(little, vs));
    WroteNothing(f);
    WireAllEmpty(little);
    var i := 0;
    assert vs[0..] == vs && vs[..0] == [];
    while i < |vs|
      invariant i <= |vs| && Codec.AllInRange(vs[..i]) && Codec.AllInRange(vs[i..])
      invariant ba.Valid() && ba.littleEndian == little && ba.position <= ba.capacity
      invariant fresh(ba.cells - old(ba.cells)) && fresh(ba.store - old(ba.store))
      invariant Wrote(f, Codec.WireAll(little, vs[..i]), ba.View())
      invariant all <==> FitsRun(ba.base, ba.capacity, ba.position, SizesAll(little, vs[i..]))
    {
      assert vs[i..][0] == vs[i] && vs[i..][1..] == vs[i + 1..] && vs[..i + 1] == vs[..i] + [vs[i]];
      ba.ValidView();
      ghost var g := ba.View();
      WriteStep(little, ba.base, ba.capacity, ba.position, vs[i..]);
      ok := WriteValue(ba, machine, vs[i]);
      if !ok {
        return;
      }
      ba.ValidView();
      WrotePos(g, Codec.Wire(little, vs[i]), ba.View());
      WroteWrote(f, Codec.WireAll(little, vs[..i]), g, Codec.Wire(little, vs[i]), ba.View());
      WireAllAppend(little, vs[..i], vs[i]);
      i := i + 1;
    }
    assert vs[..i] == vs && vs[i..] == [];
    FitsRunNone(ba.base, ba.capacity, ba.position, little);
    ok := true;
  }

  lemma WireAllEmpty(little: bool)
    ensures Codec.WireAll(little, []) == []
  {
  }

  lemma FitsRunNone(base: nat, capacity: nat, pos: nat, little: bool)
    requires base > 0 && pos <= capacity
    ensures FitsRun(base, capacity, pos, SizesAll(little, []))
  {
  }

  lemma {:induction false} WireAllAppend(little: bool, vs: seq<Codec.Value>, v: Codec.Value)
    requires Codec.AllInRange(vs) && Codec.InRange(v)
    ensures Codec.AllInRange(vs + [v])
    ensures Codec.WireAll(little, vs + [v]) == Codec.WireAll(little, vs) + Codec.Wire(little, v)
  {
    hide Codec.Wire, Codec.InRange;
    if vs == [] {
      assert vs + [v] == [v] && [v][1..] == [];
    } else {
      assert (vs + [v])[0] == vs[0] && (vs + [v])[1..] == vs[1..] + [v];
      WireAllAppend(little, vs[1..], v);
    }
  }

  /** The first write of a list, and what it leaves to the others. */
  lemma WriteStep(little: bool, base: nat, capacity: nat, pos: nat, vs: seq<Codec.Value>)
    requires base > 0 && pos <= capacity && vs != [] && Codec.AllInRange(vs)
    ensures
      var a := Sizes(little, vs[0]);
      && FitsRun(base, capacity, pos, SizesAll(little, vs)) <==>
         && FitsRun(base, capacity, pos, a)
         && FitsRun(base, RunCapacity(base, capacity, pos, a),
                    pos + |Codec.Wire(little, vs[0])|, SizesAll(little, vs[1..]))
  {
    hide FitsRun, RunCapacity;
    FitsRunAppend(base, capacity, pos, Sizes(little, vs[0]), SizesAll(little, vs[1..]));
    SizesTotal(little, vs[0]);
  }

  lemma SizesTotal(little: bool, v: Codec.Value)
    requires Codec.InRange(v)
    ensures Total(Sizes(little, v)) == |Codec.Wire(little, v)|
  {
    if v.Text? {
      var a, b := |Codec.LengthBytes(little, v.prefix, |v.s|)|, |v.s|;
      assert [a, b][1..] == [b] && [b][1..] == [];
      assert Total([b]) == b;
    } else {
      assert [|Codec.Wire(little, v)|][1..] == [];
    }
  }

  /** How reading a list of values ends. */
  function ReadAllEnd(f: Flat, little: bool, ks: seq<Codec.Kind>): Outcome
    requires f.pos <= f.size <= |f.mem|
    decreases |ks|
  {
    if ks == [] then Done
    else if !ReadEnd(f, little, ks[0]).Done? then ReadEnd(f, little, ks[0])
    else ReadAllEnd(After(f, little, ks[0]), little, ks[1..])
  }

  function After(f: Flat, little: bool, k: Codec.Kind): (g: Flat)
    requires f.pos <= f.size <= |f.mem| && Codec.Parse(little, k, f.Unread()).Got?
    ensures f.pos <= g.pos <= f.size && g == f.(pos := g.pos)
  {
    f.(pos := f.pos + Codec.Parse(little, k, f.Unread()).used)
  }

  /** After `i` reads: `vs` was read, and the rest decides the outcome. */
  ghost predicate ReadSoFar(f: Flat, little: bool, ks: seq<Codec.Kind>, i: nat,
                            vs: seq<Codec.Value>, pos: nat)
    requires f.Ok() && i <= |ks|
  {
    && f.pos <= pos <= f.size
    && ReadAllEnd(f, little, ks) == ReadAllEnd(f.(pos := pos), little, ks[i..])
    && Codec.ParseAll(little, ks, f.Unread())
       == match Codec.ParseAll(little, ks[i..], f.(pos := pos).Unread())
          case Short => Short
          case Got(ws, u) => Got(vs + ws, pos - f.pos + u)
  }

  lemma ReadListStart(f: Flat, little: bool, ks: seq<Codec.Kind>)
    requires f.Ok()
    ensures ReadSoFar(f, little, ks, 0, [], f.pos)
  {
    hide ReadAllEnd, Codec.ParseAll;
    assert ks[0..] == ks && f.(pos := f.pos) == f;
    match Codec.ParseAll(little, ks, f.Unread())
    case Short =>
    case Got(ws, u) => assert [] + ws == ws;
  }

  lemma ReadListStep(f: Flat, little: bool, ks: seq<Codec.Kind>, i: nat,
                     vs: seq<Codec.Value>, g: Flat)
    requires f.Ok() && i < |ks| && ReadSoFar(f, little, ks, i, vs, g.pos) && g == f.(pos := g.pos)
    ensures !ReadEnd(g, little, ks[i]).Done? ==> ReadAllEnd(f, little, ks) == ReadEnd(g, little, ks[i])
    ensures ReadEnd(g, little, ks[i]).Done? ==>
              ReadSoFar(f, little, ks, i + 1, vs + [Codec.Parse(little, ks[i], g.Unread()).value],
                        After(g, little, ks[i]).pos)
  {
    var k, rest := ks[i], ks[i..];
    assert rest[0] == k && rest[1..] == ks[i + 1..];
    ReadAllEndStep(g, little, rest);
    if ReadEnd(g, little, k).Done? {
      ReadEndGot(g, little, k);
      ReadOneMore(f, little, ks, i, vs, g);
    }
  }

  lemma ReadAllEndStep(f: Flat, little: bool, ks: seq<Codec.Kind>)
    requires f.Ok() && ks != []
    ensures ReadAllEnd(f, little, ks) ==
      if !ReadEnd(f, little, ks[0]).Done? then ReadEnd(f, little, ks[0])
      else ReadAllEnd(After(f, little, ks[0]), little, ks[1..])
  {
    hide ReadEnd, After;
  }

  lemma ReadEndGot(f: Flat, little: bool, k: Codec.Kind)
    requires f.Ok() && ReadEnd(f, little, k).Done?
    ensures Codec.Parse(little, k, f.Unread()).Got?
  {
    hide Codec.Parse;
  }

  lemma ReadOneMore(f: Flat, little: bool, ks: seq<Codec.Kind>, i: nat,
                    vs: seq<Codec.Value>, g: Flat)
    requires f.Ok() && i < |ks| && ReadSoFar(f, little, ks, i, vs, g.pos) && g == f.(pos := g.pos)
    requires ReadEnd(g, little, ks[i]).Done? && Codec.Parse(little, ks[i], g.Unread()).Got?
    requires ReadAllEnd(g, little, ks[i..]) == ReadAllEnd(After(g, little, ks[i]), little, ks[i + 1..])
    ensures ReadSoFar(f, little, ks, i + 1, vs + [Codec.Parse(little, ks[i], g.Unread()).value],
                      After(g, little, ks[i]).pos)
  {
    hide Codec.ParseAll, Codec.Parse, ReadAllEnd, ReadEnd;
    var k, rest := ks[i], ks[i..];
    assert rest[0] == k && rest[1..] == ks[i + 1..];
    var h := After(g, little, k);
    var v, u := Codec.Parse(little, k, g.Unread()).value, h.pos - g.pos;
    UnreadAfter(g, u);
    ParseAllStep(little, rest, g.Unread());
    hide Flat.Unread;
    match Codec.ParseAll(little, rest[1..], h.Unread())
    case Short =>
    case Got(ws, _) => assert vs + ([v] + ws) == (vs + [v]) + ws;
  }

  lemma ParseAllStep(little: bool, ks: seq<Codec.Kind>, s: seq<byte>)
    requires ks != [] && Codec.Parse(little, ks[0], s).Got?
    ensures var p := Codec.Parse(little, ks[0], s);
            Codec.ParseAll(little, ks, s) == match Codec.ParseAll(little, ks[1..], s[p.used..])
                                             case Short => Short
                                             case Got(vs, u') => Got([p.value] + vs, p.used + u')
  {
    hide Codec.Parse;
  }

  lemma UnreadAfter(f: Flat, u: nat)
    requires f.Ok() && f.pos + u <= f.size
    ensures f.(pos := f.pos + u).Unread() == f.Unread()[u..]
  {
  }

  lemma ReadListEnd(f: Flat, little: bool, ks: seq<Codec.Kind>, vs: seq<Codec.Value>, pos: nat)
    requires f.Ok() && ReadSoFar(f, little, ks, |ks|, vs, pos)
    ensures ReadAllEnd(f, little, ks) == Done
    ensures Codec.ParseAll(little, ks, f.Unread()) == Got(vs, pos - f.pos)
  {
    assert ks[|ks|..] == [];
    assert vs + [] == vs;
  }

  method ReadAll(ba: ByteArray, machine: bool, ks: seq<Codec.Kind>)
    returns (o: Outcome, vs: seq<Codec.Value>)
    requires ba.Valid() && forall i :: 0 <= i < |ks| ==> Codec.KindOk(ks[i])
    modifies ba`position, ba`size, ba`cur, ba`at
    ensures ba.Valid() && ba.View() == old(ba.View()).(pos := ba.position)
    ensures o == ReadAllEnd(old(ba.View()), ba.littleEndian, ks)
    ensures o.Done? ==>
              var r := Codec.ParseAll(ba.littleEndian, ks, old(ba.View().Unread()));
              r.Got? && vs == r.value && ba.position == old(ba.position) + r.used
  {
    hide ByteArray.Valid, ReadAllEnd, Codec.Parse, Codec.ParseAll, ReadSoFar;
    ba.ValidView();
    ghost var f, little := ba.View(), ba.littleEndian;
    vs := [];
    var i := 0;
    ReadListStart(f, little, ks);
    while i < |ks|
      invariant i <= |ks| && ba.Valid() && ba.View() == f.(pos := ba.position)
      invariant ba.View().Ok() && ReadSoFar(f, little, ks, i, vs, ba.position)
    {
      ghost var g := ba.View();
      ReadListStep(f, little, ks, i, vs, g);
      var v;
      o, v := ReadValue(ba, machine, ks[i]);
      if !o.Done? {
        return;
      }
      ba.ValidView();
      vs, i := vs + [v], i + 1;
    }
    ReadListEnd(f, little, ks, vs, ba.position);
    o := Done;
  }

  // ----- the round trip ----------------------------------------------------

  /** The one way a round trip can fail: an empty string was written last and
      filled the buffer to the brim, so its bytes are read through a null cursor. */
  predicate EndsOnNull(vs: seq<Codec.Value>, f: Flat)
  {
    vs != [] && vs[|vs| - 1].Text? && vs[|vs| - 1].s == [] && f.size == |f.mem|
  }

  lemma {:induction false} ReadAllEndWire(f: Flat, little: bool, vs: seq<Codec.Value>)
    requires f.Ok() && Codec.AllInRange(vs) && Codec.AllFaithful(vs)
    requires f.Unread() == Codec.WireAll(little, vs)
    ensures ReadAllEnd(f, little, Codec.Kinds(vs)) == if EndsOnNull(vs, f) then Crash else Done
    decreases |vs|
  {
    hide Codec.Parse, Codec.Wire, Codec.InRange, Codec.Faithful;
    if vs != [] {
      var k, e, tail := Codec.Kinds(vs)[0], Codec.Wire(little, vs[0]), Codec.WireAll(little, vs[1..]);
      Codec.RoundTripIff(little, vs[0], tail);
      assert k == Codec.KindOf(vs[0]) && Codec.Kinds(vs)[1..] == Codec.Kinds(vs[1..]);
      var g := After(f, little, k);
      UnreadAfter(f, |e|);
      assert (e + tail)[|e|..] == tail;
      ReadAllEndWire(g, little, vs[1..]);
      if |vs| == 1 {
        assert tail == [] && f.pos + |e| == f.size;
      } else {
        WireNotEmpty(little, vs[1]);
        assert vs[1..][0] == vs[1] && |tail| > 0;
        assert vs[1..][|vs| - 2] == vs[|vs| - 1];
      }
    }
  }

  lemma WireNotEmpty(little: bool, v: Codec.Value)
    requires Codec.InRange(v)
    ensures |Codec.Wire(little, v)| > 0
  {
    if v.Text? { LengthSize(little, v.prefix, |v.s|); }
  }

  /** Write a list of values, move the cursor back, read them again: the same list
      comes back and nothing is left to read. */
  method RoundTrip(ba: ByteArray, machine: bool, vs: seq<Codec.Value>)
    returns (ok: bool, o: Outcome, ws: seq<Codec.Value>)
    requires ba.Valid() && ba.position == ba.size
    requires Codec.AllInRange(vs) && Codec.AllFaithful(vs)
    modifies ba, ba.cells, ba.store
    ensures fresh(ba.cells - old(ba.cells)) && fresh(ba.store - old(ba.store))
    ensures ok <==> FitsRun(ba.base, old(ba.capacity), old(ba.position), SizesAll(old(ba.littleEndian), vs))
    ensures ok ==> ba.Valid() && (o == if EndsOnNull(vs, ba.View()) then Crash else Done)
    ensures ok && o.Done? ==> ws == vs && ba.position == ba.size
  {
    hide ByteArray.Valid, Wrote, FitsRun, SizesAll, ReadAllEnd;
    hide Codec.WireAll, Codec.ParseAll, Codec.InRange, Codec.Faithful;
    ba.ValidView();
    ghost var f, little := ba.View(), ba.littleEndian;
    var p := ba.position;
    o, ws := Done, [];
    ok := WriteAll(ba, machine, vs);
    if !ok {
      return;
    }
    ba.ValidView();
    ghost var g, s := ba.View(), Codec.WireAll(little, vs);
    WrotePos(f, s, g);
    WroteUnread(f, s, g);
    o := ba.SetPosition(p);
    ba.ValidView();
    ReadAllEndWire(ba.View(), little, vs);
    Codec.ListRoundTrip(little, vs, []);
    assert s + [] == s;
    KindsOk(vs);
    o, ws := ReadAll(ba, machine, Codec.Kinds(vs));
  }

  lemma WroteUnread(f: Flat, s: seq<byte>, g: Flat)
    requires f.Ok() && f.pos == f.size && Wrote(f, s, g)
    ensures Moved(g, f.pos).Unread() == s
  {
  }

  lemma KindsOk(vs: seq<Codec.Value>)
    requires Codec.AllInRange(vs)
    ensures forall i :: 0 <= i < |vs| ==> Codec.KindOk(Codec.Kinds(vs)[i])
  {
    forall i | 0 <= i < |vs| ensures Codec.KindOk(Codec.Kinds(vs)[i]) {
      assert Codec.InRange(vs[i]);
    }
  }
}
