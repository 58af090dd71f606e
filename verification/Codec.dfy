/**
 The typed values a ByteArray stores and their wire format, as pure functions:
 fixed-width integers in either byte order, varints, and strings behind a
 length prefix.
 */
module Codec {
  import opened Bytes
  import opened Varints

  // ----- byte order --------------------------------------------------------

  function Pow256(n: nat): (p: nat)
    ensures p > 0
  {
    if n == 0 then 1 else 256 * Pow256(n - 1)
  }

  /** The low `n` bytes of `v`, lowest first, and the number they denote. */
  function Low(v: nat, n: nat): (s: seq<byte>)
    ensures |s| == n
  {
    if n == 0 then [] else [v % 256] + Low(v / 256, n - 1)
  }

  function Number(s: seq<byte>): nat
  {
    if s == [] then 0 else s[0] + 256 * Number(s[1..])
  }

  function Reversed(s: seq<byte>): (r: seq<byte>)
    ensures |r| == |s| && forall i :: 0 <= i < |s| ==> r[i] == s[|s| - 1 - i]
  {
    if s == [] then [] else Reversed(s[1..]) + [s[0]]
  }

  lemma ReversedTwice(s: seq<byte>)
    ensures Reversed(Reversed(s)) == s
  {
  }

  lemma {:induction false} NumberOfLow(v: nat, n: nat)
    requires v < Pow256(n)
    ensures Number(Low(v, n)) == v
  {
    if n > 0 {
      NumberOfLow(v / 256, n - 1);
      assert Low(v, n)[1..] == Low(v / 256, n - 1);
    }
  }

  lemma {:induction false} LowOfNumber(s: seq<byte>)
    ensures Number(s) < Pow256(|s|) && Low(Number(s), |s|) == s
  {
    if s != [] {
      LowOfNumber(s[1..]);
      assert Number(s) / 256 == Number(s[1..]) && Number(s) % 256 == s[0];
    }
  }

  /** How a machine keeps a word of `n` bytes in memory. */
  function Image(littleMachine: bool, v: nat, n: nat): (s: seq<byte>)
    ensures |s| == n
  {
    if littleMachine then Low(v, n) else Reversed(Low(v, n))
  }

  function Load(littleMachine: bool, s: seq<byte>): nat
  {
    Number(if littleMachine then s else Reversed(s))
  }

  /** byteswap on a word of `n` bytes. */
  function Byteswap(v: nat, n: nat): nat
  {
    Number(Reversed(Low(v, n)))
  }

  /** What the fixed-width writers hand to write, and what the readers return. */
  function Stored(little: bool, littleMachine: bool, v: nat, n: nat): seq<byte>
  {
    Image(littleMachine, if little != littleMachine then Byteswap(v, n) else v, n)
  }

  function Loaded(little: bool, littleMachine: bool, s: seq<byte>): nat
  {
    var v := Load(littleMachine, s);
    if little == littleMachine then v else Byteswap(v, |s|)
  }

  /** On the wire only the chosen byte order shows, never the machine's. */
  lemma WireOrder(little: bool, littleMachine: bool, v: nat, n: nat)
    requires v < Pow256(n)
    ensures Stored(little, littleMachine, v, n) == Image(little, v, n)
  {
    var s := Low(v, n);
    LowOfNumber(Reversed(s));
    ReversedTwice(s);
  }

  lemma LoadOrder(little: bool, littleMachine: bool, s: seq<byte>)
    ensures Loaded(little, littleMachine, s) == Load(little, s) < Pow256(|s|)
  {
    LowOfNumber(s);
    LowOfNumber(Reversed(s));
    ReversedTwice(s);
  }

  lemma LoadImage(little: bool, v: nat, n: nat)
    requires v < Pow256(n)
    ensures Load(little, Image(little, v, n)) == v && |Image(little, v, n)| == n
  {
    NumberOfLow(v, n);
    ReversedTwice(Low(v, n));
  }

  lemma {:induction false} LowBytes(v: nat, n: nat, k: nat)
    requires k < n
    ensures Low(v, n)[k] == (v / Pow256(k)) % 256
  {
    if k > 0 {
      LowBytes(v / 256, n - 1, k - 1);
      DivDiv(v, 256, Pow256(k - 1));
    }
  }

  /** Byte `k` of a word, counted from the lowest: first to last in memory on a
      little-endian machine, last to first on a big-endian one. */
  lemma ImageBytes(little: bool, v: nat, n: nat, k: nat)
    requires k < n
    ensures Image(little, v, n)[if little then k else n - 1 - k] == (v / Pow256(k)) % 256
    ensures n > 0 ==> Image(true, v, n)[0] == v % 256 && Image(false, v, n)[n - 1] == v % 256
  {
    LowBytes(v, n, k);
    LowBytes(v, n, 0);
    assert v / Pow256(0) == v;
    hide Low, Pow256, Reversed;
  }

  lemma Pow256Values()
    ensures Pow256(1) == 256 && Pow256(2) == 0x1_0000
    ensures Pow256(4) == TWO_32 && Pow256(8) == TWO_64
  {
    assert Pow256(3) == 0x100_0000;
    assert Pow256(6) == 0x1_0000_0000_0000;
  }

  // ----- values ------------------------------------------------------------

  datatype Prefix = Len16 | Len32 | Len64 | LenVarint

  datatype Value =
    | Fixed(width: nat, signed: bool, i: int)
    | VarU32(n: int)
    | VarU64(n: int)
    | VarI32(n: int)
    | VarI64(n: int)
    | Text(prefix: Prefix, s: seq<byte>)

  /** Which reader matches a value. */
  datatype Kind =
    | FixedKind(width: nat, signed: bool)
    | VarU32Kind | VarU64Kind | VarI32Kind | VarI64Kind
    | TextKind(prefix: Prefix)

  function KindOf(v: Value): Kind
  {
    match v
    case Fixed(w, sg, _) => FixedKind(w, sg)
    case VarU32(_) => VarU32Kind
    case VarU64(_) => VarU64Kind
    case VarI32(_) => VarI32Kind
    case VarI64(_) => VarI64Kind
    case Text(p, _) => TextKind(p)
  }

  predicate Width(w: nat) { w == 1 || w == 2 || w == 4 || w == 8 }

  predicate KindOk(k: Kind) { k.FixedKind? ==> Width(k.width) }

  /** The value is one its C++ type can hold. */
  predicate InRange(v: Value)
  {
    match v
    case Fixed(w, sg, i) =>
      Width(w) && (if sg then 0 <= 2 * i + Pow256(w) < 2 * Pow256(w) else 0 <= i < Pow256(w))
    case VarU32(n) => 0 <= n < TWO_32
    case VarU64(n) => 0 <= n < TWO_64
    case VarI32(n) => -TWO_31 <= n < TWO_31
    case VarI64(n) => -TWO_63 <= n < TWO_63
    case Text(_, s) => |s| < TWO_64
  }

  /** ... and one its reader gives back; see `RoundTripIff`. */
  predicate Faithful(v: Value)
  {
    match v
    case VarI64(n) => -TWO_31 <= n < TWO_31
    case Text(Len16, s) => |s| < 0x1_0000
    case Text(Len32, s) => |s| < TWO_32
    case _ => true
  }

  /** The length prefix of a string of `n` bytes, cut to its type. */
  function LengthBytes(little: bool, p: Prefix, n: nat): seq<byte>
  {
    match p
    case Len16 => Image(little, n % 0x1_0000, 2)
    case Len32 => Image(little, n % TWO_32, 4)
    case Len64 => Image(little, n % TWO_64, 8)
    case LenVarint => Varint(n % TWO_64)
  }

  function Wire(little: bool, v: Value): seq<byte>
    requires InRange(v)
  {
    match v
    case Fixed(w, _, i) => Image(little, i % Pow256(w), w)
    case VarU32(n) => Varint(n)
    case VarU64(n) => Varint(n)
    case VarI32(n) => Varint(EncodeZigzag(n, TWO_32))
    case VarI64(n) => Varint(EncodeZigzag(n, TWO_64))
    case Text(p, s) => LengthBytes(little, p, |s|) + s
  }

  function ParseLength(little: bool, p: Prefix, s: seq<byte>): (r: Parsed<nat>)
    ensures r.Got? ==> r.used <= |s|
  {
    match p
    case Len16 => if |s| < 2 then Short else Got(Load(little, s[..2]), 2)
    case Len32 => if |s| < 4 then Short else Got(Load(little, s[..4]), 4)
    case Len64 => if |s| < 8 then Short else Got(Load(little, s[..8]), 8)
    case LenVarint => Unvar64(s)
  }

  function Parse(little: bool, k: Kind, s: seq<byte>): (r: Parsed<Value>)
    ensures r.Got? ==> r.used <= |s|
  {
    match k
    case FixedKind(w, sg) =>
      if |s| < w then Short
      else
        var raw := Load(little, s[..w]);
        Got(Fixed(w, sg, if sg then Signed(raw, Pow256(w)) else raw), w)
    case VarU32Kind =>
      (match Unvar32(s) case Short => Short case Got(n, u) => Got(VarU32(n), u))
    case VarU64Kind =>
      (match Unvar64(s) case Short => Short case Got(n, u) => Got(VarU64(n), u))
    case VarI32Kind =>
      (match ReadInt32(s) case Short => Short case Got(n, u) => Got(VarI32(n), u))
    case VarI64Kind =>
      (match ReadInt64(s) case Short => Short case Got(n, u) => Got(VarI64(n), u))
    case TextKind(p) =>
      (match ParseLength(little, p, s)
       case Short => Short
       case Got(n, u) => if |s| - u < n then Short else Got(Text(p, s[u..u + n]), u + n))
  }

  /** The wire format, value by value. */
  lemma WireFormat(little: bool, v: Value)
    requires InRange(v)
    ensures v.Fixed? ==>
              && |Wire(little, v)| == v.width
              && forall k :: 0 <= k < v.width ==>
                   Wire(little, v)[if little then k else v.width - 1 - k]
                   == ((if v.i < 0 then v.i + Pow256(v.width) else v.i) / Pow256(k)) % 256
    ensures v.VarU32? || v.VarU64? ==> Wire(little, v) == Varint(v.n)
    ensures v.VarI32? || v.VarI64? ==> Wire(little, v) == Varint(if v.n < 0 then -2 * v.n - 1 else 2 * v.n)
    ensures v.Text? ==> Wire(little, v) == LengthBytes(little, v.prefix, |v.s|) + v.s
  {
    hide Image, Varint, EncodeZigzag, LengthBytes;
    match v
    case Fixed(w, _, i) =>
      var raw := if i < 0 then i + Pow256(w) else i;
      ModSmall(raw, Pow256(w));
      forall k | 0 <= k < w ensures Wire(little, v)[if little then k else w - 1 - k] == (raw / Pow256(k)) % 256 {
        ImageBytes(little, raw, w, k);
      }
    case VarI32(n) => ZigzagIsStandard(n, TWO_32);
    case VarI64(n) => ZigzagIsStandard(n, TWO_64);
    case _ =>
  }

  /** The four length prefixes: 2, 4 or 8 bytes in the buffer's order, or a varint. */
  lemma LengthFormat(little: bool, p: Prefix, n: nat)
    requires n < TWO_64
    ensures
      var e := LengthBytes(little, p, n);
      match p
      case Len16 => |e| == 2 && e[if little then 0 else 1] == n % 256 && e[if little then 1 else 0] == (n / 256) % 256
      case Len32 => |e| == 4 && (n < TWO_32 ==> e == Image(little, n, 4))
      case Len64 => |e| == 8 && e == Image(little, n, 8)
      case LenVarint => e == Varint(n)
  {
    Pow256Values();
    ModSmall(n, TWO_64);
    if n < TWO_32 { ModSmall(n, TWO_32); }
    ImageBytes(little, n % 0x1_0000, 2, 0);
    ImageBytes(little, n % 0x1_0000, 2, 1);
    assert Pow256(0) == 1 && Pow256(1) == 256;
    assert (n % 0x1_0000) % 256 == n % 256 && (n % 0x1_0000) / 256 == (n / 256) % 256;
    hide Image, Varint;
  }

  // ----- round trips -------------------------------------------------------

  lemma FixedRoundTrip(little: bool, v: Value, rest: seq<byte>)
    requires InRange(v) && v.Fixed?
    ensures Parse(little, KindOf(v), Wire(little, v) + rest) == Got(v, |Wire(little, v)|)
  {
    var p := Pow256(v.width);
    var raw := v.i % p;
    LoadImage(little, raw, v.width);
    assert (Wire(little, v) + rest)[..v.width] == Wire(little, v);
    if v.i >= 0 { ModSmall(v.i, p); } else { ModSmall(v.i + p, p); }
  }

  lemma LengthRoundTrip(little: bool, p: Prefix, n: nat, rest: seq<byte>)
    requires n < TWO_64
    ensures
      var e := LengthBytes(little, p, n);
      && ParseLength(little, p, e + rest)
         == Got(match p case Len16 => n % 0x1_0000 case Len32 => n % TWO_32 case _ => n, |e|)
  {
    hide Load, Image, Unvar, Varint;
    var e := LengthBytes(little, p, n);
    Pow256Values();
    match p
    case Len16 => LoadImage(little, n % 0x1_0000, 2); assert (e + rest)[..2] == e;
    case Len32 => LoadImage(little, n % TWO_32, 4); assert (e + rest)[..4] == e;
    case Len64 => LoadImage(little, n, 8); assert (e + rest)[..8] == e;
    case LenVarint => RoundTrip64(n, rest);
  }

  lemma TextRoundTripIff(little: bool, v: Value, rest: seq<byte>)
    requires InRange(v) && v.Text?
    ensures Parse(little, KindOf(v), Wire(little, v) + rest) == Got(v, |Wire(little, v)|) <==> Faithful(v)
  {
    hide Load, Image, Unvar, Varint, LengthBytes, ParseLength;
    var e := LengthBytes(little, v.prefix, |v.s|);
    var s := e + v.s + rest;
    assert s == e + (v.s + rest);
    LengthRoundTrip(little, v.prefix, |v.s|, v.s + rest);
    var n := ParseLength(little, v.prefix, s).value;
    assert n <= |v.s|;
    assert s[|e|..|e| + n] == v.s[..n];
  }

  /** What is written comes back, whatever follows it, exactly for the faithful
      values: 64-bit signed varints in the 32-bit range, and strings no longer
      than their prefix can tell. */
  lemma RoundTripIff(little: bool, v: Value, rest: seq<byte>)
    requires InRange(v)
    ensures Parse(little, KindOf(v), Wire(little, v) + rest) == Got(v, |Wire(little, v)|) <==> Faithful(v)
  {
    hide Load, Image, Unvar, Varint, LengthBytes, ParseLength, EncodeZigzag, DecodeZigzag;
    match v
    case Fixed(_, _, _) => FixedRoundTrip(little, v, rest);
    case VarU32(n) => RoundTrip32(n, rest);
    case VarU64(n) => RoundTrip64(n, rest);
    case VarI32(n) => Int32RoundTrip(n, rest);
    case VarI64(n) => Int64RoundTripIff(n, rest);
    case Text(_, _) => TextRoundTripIff(little, v, rest);
  }

  // ----- lists of values ---------------------------------------------------

  predicate AllInRange(vs: seq<Value>) { forall i :: 0 <= i < |vs| ==> InRange(vs[i]) }

  predicate AllFaithful(vs: seq<Value>) { forall i :: 0 <= i < |vs| ==> Faithful(vs[i]) }

  function Kinds(vs: seq<Value>): seq<Kind> { seq(|vs|, i requires 0 <= i < |vs| => KindOf(vs[i])) }

  function WireAll(little: bool, vs: seq<Value>): seq<byte>
    requires AllInRange(vs)
  {
    if vs == [] then [] else Wire(little, vs[0]) + WireAll(little, vs[1..])
  }

  /** Reading values of the given kinds one after the other. */
  function ParseAll(little: bool, ks: seq<Kind>, s: seq<byte>): (r: Parsed<seq<Value>>)
    ensures r.Got? ==> r.used <= |s| && |r.value| == |ks|
    decreases |ks|
  {
    if ks == [] then Got([], 0)
    else
      match Parse(little, ks[0], s)
      case Short => Short
      case Got(v, u) =>
        match ParseAll(little, ks[1..], s[u..])
        case Short => Short
        case Got(vs, u') => Got([v] + vs, u + u')
  }

  /** A mixed list of faithful values comes back in order, using up its bytes. */
  lemma {:induction false} ListRoundTrip(little: bool, vs: seq<Value>, rest: seq<byte>)
    requires AllInRange(vs) && AllFaithful(vs)
    ensures ParseAll(little, Kinds(vs), WireAll(little, vs) + rest)
            == Got(vs, |WireAll(little, vs)|)
  {
    hide Parse, Wire;
    if vs != [] {
      var e, tail := Wire(little, vs[0]), WireAll(little, vs[1..]) + rest;
      assert WireAll(little, vs) + rest == e + tail && (e + tail)[|e|..] == tail;
      assert Kinds(vs)[0] == KindOf(vs[0]) && Kinds(vs)[1..] == Kinds(vs[1..]);
      RoundTripIff(little, vs[0], tail);
      ListRoundTrip(little, vs[1..], rest);
      assert vs == [vs[0]] + vs[1..];
    }
  }
}
