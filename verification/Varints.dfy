/**
 Base-128 varints and zigzag integers, as the Protocol Buffers encoding guide
 defines them ("Base 128 Varints", "Signed Integers"). Masks and shifts of
 unsigned words are written as division and remainder by powers of two.
 */
module Varints {
  import opened Bytes

  const TWO_31: int := 0x8000_0000
  const TWO_32: int := 0x1_0000_0000
  const TWO_63: int := 0x8000_0000_0000_0000
  const TWO_64: int := 0x1_0000_0000_0000_0000

  /** The outcome of taking a value off the front of a byte sequence. */
  datatype Parsed<T> = Got(value: T, used: nat) | Short

  function Pow128(n: nat): (p: nat)
    ensures p > 0
  {
    if n == 0 then 1 else 128 * Pow128(n - 1)
  }

  /** Seven bits per byte, low ones first, the top bit set on all but the last. */
  function Varint(v: nat): (s: seq<byte>)
    ensures |s| > 0
  {
    if v < 128 then [v] else [v % 128 + 128] + Varint(v / 128)
  }

  /** What a reader that gives up after `n` bytes makes of `s`. */
  function Unvar(s: seq<byte>, n: nat): (r: Parsed<nat>)
    ensures r.Got? ==> r.used <= |s| && r.used <= n
    decreases n
  {
    if n == 0 then Got(0, 0)
    else if s == [] then Short
    else if s[0] < 128 then Got(s[0], 1)
    else
      match Unvar(s[1..], n - 1)
      case Short => Short
      case Got(v, u) => Got(s[0] % 128 + 128 * v, 1 + u)
  }

  /** The reader of a word of `word` values, five or ten bytes at most. */
  function Unvar32(s: seq<byte>): Parsed<nat>
  {
    match Unvar(s, 5)
    case Short => Short
    case Got(v, u) => Got(v % TWO_32, u)
  }

  function Unvar64(s: seq<byte>): Parsed<nat>
  {
    match Unvar(s, 10)
    case Short => Short
    case Got(v, u) => Got(v % TWO_64, u)
  }

  lemma Pow128Values()
    ensures Pow128(4) == 0x1000_0000 && Pow128(5) == 0x8_0000_0000
    ensures Pow128(9) == TWO_63 && Pow128(10) == 0x40_0000_0000_0000_0000
  {
    assert Pow128(3) == 0x20_0000;
    assert Pow128(6) == 0x400_0000_0000;
    assert Pow128(8) == 0x100_0000_0000_0000;
  }

  /** A value of `n` groups of seven bits takes at most `n` bytes. */
  lemma {:induction false} VarintFits(v: nat, n: nat)
    requires n > 0 && v < Pow128(n)
    ensures |Varint(v)| <= n
  {
    if v >= 128 {
      VarintFits(v / 128, n - 1);
    }
  }

  /** The bytes of an encoding: seven bits each, lowest first, the high bit on all but
      the last; and no group of leading zeros. */
  lemma {:induction false} VarintBytes(v: nat, i: nat)
    ensures v < Pow128(|Varint(v)|) && (|Varint(v)| > 1 ==> v >= Pow128(|Varint(v)| - 1))
    ensures i < |Varint(v)| ==>
              Varint(v)[i] == (v / Pow128(i)) % 128 + if i + 1 < |Varint(v)| then 128 else 0
    decreases v
  {
    hide Unvar;
    if v >= 128 {
      VarintBytes(v / 128, if i > 0 then i - 1 else 0);
      if i > 0 { DivDiv(v, 128, Pow128(i - 1)); }
    }
  }

  lemma Distribute(a: nat, p: nat, k: nat, x: nat)
    ensures a * (p * k + x) == (a * p) * k + a * x
  {
  }

  lemma ScaledLess(a: nat, p: nat, x: nat, y: nat)
    requires x < p && y < a
    ensures a * x + y < a * p
  {
    Distribute(a, 1, x, 1);
    assert a * (x + 1) <= a * p;
  }

  lemma DivDiv(v: nat, a: nat, p: nat)
    requires a > 0 && p > 0
    ensures v / (a * p) == (v / a) / p
  {
    var q := v / a;
    var k, x, y := q / p, q % p, v % a;
    assert q == p * k + x && v == a * q + y;
    DivUnique(v, a, p, q, k, x, y);
  }

  lemma DivUnique(v: nat, a: nat, p: nat, q: nat, k: nat, x: nat, y: nat)
    requires a > 0 && p > 0 && q == p * k + x && v == a * q + y && x < p && y < a
    ensures v / (a * p) == k
  {
    Distribute(a, p, k, x);
    ScaledLess(a, p, x, y);
    ModUnique(v, a * p, k, a * x + y);
  }

  lemma {:induction false} VarintMonotone(v: nat, w: nat)
    requires v <= w
    ensures |Varint(v)| <= |Varint(w)|
  {
    if v >= 128 {
      VarintMonotone(v / 128, w / 128);
    }
  }

  lemma ModGroup(v: nat, p: nat)
    requires p > 0
    ensures v % (128 * p) == v % 128 + 128 * ((v / 128) % p)
  {
    var q := v / 128;
    var k := q / p;
    assert q == p * k + q % p;
    assert v == 128 * q + v % 128;
    var r := v % 128 + 128 * (q % p);
    assert v == (128 * p) * k + r by {
      assert 128 * (p * k) == (128 * p) * k;
    }
    assert 0 <= r < 128 * p;
    ModUnique(v, 128 * p, k, r);
  }

  lemma ModUnique(v: nat, m: nat, k: nat, r: nat)
    requires m > 0 && r < m && v == m * k + r
    ensures v % m == r && v / m == k
  {
    StartIsProduct(k, m);
    LocateUnique(v, m, k, r);
  }

  /** Decoding an encoding, whatever follows it: the value cut to the reader's
      width, and the bytes a reader of that width takes. */
  lemma {:induction false} UnvarVarint(v: nat, rest: seq<byte>, n: nat)
    ensures Unvar(Varint(v) + rest, n) == Got(v % Pow128(n), Min(n, |Varint(v)|))
    decreases n
  {
    var s := Varint(v) + rest;
    if n > 0 {
      VarintParts(v, rest);
      assert Pow128(n) == 128 * Pow128(n - 1);
      if v < 128 {
        ModSmall(v, Pow128(n));
      } else {
        UnvarVarint(v / 128, rest, n - 1);
        ModGroup(v, Pow128(n - 1));
        hide Varint, Pow128;
        UnvarOnce(s, n);
      }
    }
  }

  lemma VarintParts(v: nat, rest: seq<byte>)
    ensures var s := Varint(v) + rest; s[0] == if v < 128 then v else v % 128 + 128
    ensures v >= 128 ==> (Varint(v) + rest)[1..] == Varint(v / 128) + rest
    ensures |Varint(v)| == if v < 128 then 1 else 1 + |Varint(v / 128)|
  {
  }

  lemma UnvarOnce(s: seq<byte>, n: nat)
    requires n > 0 && s != [] && s[0] >= 128 && Unvar(s[1..], n - 1).Got?
    ensures var r := Unvar(s[1..], n - 1); Unvar(s, n) == Got(s[0] % 128 + 128 * r.value, 1 + r.used)
  {
  }

  /** The low seven bits of each byte, lowest group first. */
  function SevenBits(s: seq<byte>): nat
  {
    if s == [] then 0 else s[0] % 128 + 128 * SevenBits(s[1..])
  }

  /** What the readers make of any bytes, encodings or not: the groups up to the first
      byte without the high bit, or of all bytes the reader takes at most; it throws if
      they run out before. `k` is the number of leading bytes with the high bit. */
  lemma {:induction false} UnvarAny(s: seq<byte>, n: nat, k: nat)
    requires k <= n && k <= |s| && (forall i :: 0 <= i < k ==> s[i] >= 128)
    requires k == n || k == |s| || s[k] < 128
    ensures Unvar(s, n) ==
      if k == n then Got(SevenBits(s[..n]), n)
      else if k == |s| then Short
      else Got(SevenBits(s[..k + 1]), k + 1)
    decreases n
  {
    if k == n {
      if n > 0 {
        UnvarAny(s[1..], n - 1, k - 1);
        assert s[..n][1..] == s[1..][..n - 1];
      }
    } else if k > 0 {
      UnvarAny(s[1..], n - 1, k - 1);
      if k < |s| { assert s[..k + 1][1..] == s[1..][..k]; }
    } else if s != [] {
      assert s[..1][1..] == [];
    }
  }

  /** Five bytes and ten bytes at most, cut to the word. */
  lemma ReadersAny(s: seq<byte>)
    ensures Unvar(s, 5).Short? <==> Unvar32(s).Short?
    ensures Unvar(s, 5).Got? ==> Unvar32(s) == Got(Unvar(s, 5).value % 0x1_0000_0000, Unvar(s, 5).used)
    ensures Unvar(s, 10).Short? <==> Unvar64(s).Short?
    ensures Unvar(s, 10).Got? ==> Unvar64(s) == Got(Unvar(s, 10).value % 0x1_0000_0000_0000_0000, Unvar(s, 10).used)
  {
    hide Unvar;
  }

  /** The 32- and 64-bit round trips, with the array bounds of the writers. */
  lemma RoundTrip32(v: nat, rest: seq<byte>)
    requires v < TWO_32
    ensures |Varint(v)| <= 5 && Unvar32(Varint(v) + rest) == Got(v, |Varint(v)|)
  {
    hide Varint, Unvar, Pow128;
    Pow128Values();
    VarintFits(v, 5);
    UnvarVarint(v, rest, 5);
  }

  lemma RoundTrip64(v: nat, rest: seq<byte>)
    requires v < TWO_64
    ensures |Varint(v)| <= 10 && Unvar64(Varint(v) + rest) == Got(v, |Varint(v)|)
  {
    hide Varint, Unvar, Pow128;
    Pow128Values();
    VarintFits(v, 10);
    UnvarVarint(v, rest, 10);
    ModSmall(v, Pow128(10));
    ModSmall(v, TWO_64);
  }

  lemma {:induction false} UnvarBound(s: seq<byte>, n: nat)
    requires n > 0 && Unvar(s, n).Got?
    ensures Unvar(s, n).used > 0 && Unvar(s, n).value < Pow128(Unvar(s, n).used)
    decreases n
  {
    if s[0] >= 128 {
      if n > 1 {
        UnvarBound(s[1..], n - 1);
      }
    }
  }

  /** No byte sequence a reader accepts for a value is shorter than the encoding
      the writers produce. */
  lemma EncodingIsMinimal(s: seq<byte>)
    ensures Unvar32(s).Got? ==> |Varint(Unvar32(s).value)| <= Unvar32(s).used
    ensures Unvar64(s).Got? ==> |Varint(Unvar64(s).value)| <= Unvar64(s).used
  {
    hide Varint, Unvar;
    if Unvar32(s).Got? {
      UnvarBound(s, 5);
      VarintFits(Unvar(s, 5).value, Unvar(s, 5).used);
      VarintMonotone(Unvar32(s).value, Unvar(s, 5).value);
    }
    if Unvar64(s).Got? {
      UnvarBound(s, 10);
      VarintFits(Unvar(s, 10).value, Unvar(s, 10).used);
      VarintMonotone(Unvar64(s).value, Unvar(s, 10).value);
    }
  }

  // ----- zigzag ------------------------------------------------------------

  /** Two's complement: an integer as an unsigned word of `m` values, and back. */
  function ToWord(v: int, m: nat): (w: nat) requires m > 0 { v % m }

  function Signed(w: nat, m: nat): int { if w >= m - w then w - m else w }

  /** EncodeZigzag32 and 64 for words of `m` values: negate, cast, double and
      subtract one, every step wrapping. */
  function EncodeZigzag(v: int, m: nat): nat
    requires m > 1 && m % 2 == 0
  {
    if v < 0 then (ToWord(Signed(ToWord(-v, m), m), m) * 2 - 1) % m else (v * 2) % m
  }

  /** DecodeZigzag: exclusive-or with all ones is the complement. */
  function DecodeZigzag(w: nat, m: nat): int
    requires m > 1 && w < m
  {
    if w % 2 == 0 then Signed(w / 2, m) else Signed(m - 1 - w / 2, m)
  }

  /** The mapping the encoding guide asks for: 0, -1, 1, -2, ... */
  function Zigzag(v: int): nat { if v < 0 then -2 * v - 1 else 2 * v }

  lemma ModSmall(x: nat, m: nat)
    requires x < m
    ensures x % m == x && (x - m) % m == x
  {
    ModUnique(x, m, 0, x);
    var q, r := (x - m) / m, (x - m) % m;
    assert x == m * (q + 1) + r;
    if q + 1 < 0 {
      TimesNegative(m, q + 1);
      assert false;
    }
    ModUnique(x, m, q + 1, r);
  }

  lemma TimesNegative(m: nat, k: int)
    requires k < 0
    ensures m * k + m <= 0
  {
  }

  /** The wrapping encoder computes the standard mapping, at the extremes too. */
  lemma ZigzagIsStandard(v: int, m: nat)
    requires m > 1 && m % 2 == 0 && -(m / 2) <= v < m / 2
    ensures EncodeZigzag(v, m) == Zigzag(v) < m
    ensures EncodeZigzag(v, m) == if v < 0 then -2 * v - 1 else 2 * v
  {
    if v < 0 {
      ModSmall(-v, m);
      assert ToWord(Signed(-v, m), m) == -v;
    }
    ModSmall(Zigzag(v), m);
  }

  lemma ZigzagRoundTrip(v: int, m: nat)
    requires m > 1 && m % 2 == 0 && -(m / 2) <= v < m / 2
    ensures EncodeZigzag(v, m) < m && DecodeZigzag(EncodeZigzag(v, m), m) == v
  {
    hide EncodeZigzag;
    ZigzagIsStandard(v, m);
  }

  lemma ZigzagInverse(w: nat, m: nat)
    requires m > 1 && m % 2 == 0 && w < m
    ensures -(m / 2) <= DecodeZigzag(w, m) < m / 2
    ensures EncodeZigzag(DecodeZigzag(w, m), m) == w
  {
    hide EncodeZigzag;
    ZigzagIsStandard(DecodeZigzag(w, m), m);
  }

  // ----- signed varints ----------------------------------------------------

  /** readInt32, and readInt64 as written: it decodes a 32-bit varint. */
  function ReadInt32(s: seq<byte>): Parsed<int>
  {
    match Unvar32(s)
    case Short => Short
    case Got(w, u) => Got(DecodeZigzag(w, TWO_32), u)
  }

  function ReadInt64(s: seq<byte>): Parsed<int>
  {
    match Unvar32(s)
    case Short => Short
    case Got(w, u) => Got(DecodeZigzag(w, TWO_64), u)
  }

  lemma Int32RoundTrip(v: int, rest: seq<byte>)
    requires -TWO_31 <= v < TWO_31
    ensures
      var e := Varint(EncodeZigzag(v, TWO_32));
      ReadInt32(e + rest) == Got(v, |e|)
  {
    ZigzagRoundTrip(v, TWO_32);
    RoundTrip32(EncodeZigzag(v, TWO_32), rest);
  }

  /** writeInt64 then readInt64 returns the value exactly for the int32 range. */
  lemma Int64RoundTripIff(v: int, rest: seq<byte>)
    requires -TWO_63 <= v < TWO_63
    ensures
      var e := Varint(EncodeZigzag(v, TWO_64));
      && ReadInt64(e + rest).Got?
      && (ReadInt64(e + rest).value == v <==> -TWO_31 <= v < TWO_31)
      && (-TWO_31 <= v < TWO_31 ==> ReadInt64(e + rest).used == |e|)
  {
    hide Varint, Unvar, Pow128, EncodeZigzag, DecodeZigzag;
    var z := EncodeZigzag(v, TWO_64);
    ZigzagIsStandard(v, TWO_64);
    ZigzagRoundTrip(v, TWO_64);
    UnvarVarint(z, rest, 5);
    Pow128Values();
    var w := (z % 0x8_0000_0000) % TWO_32;
    assert w == z % TWO_32;
    ZigzagInverse(w, TWO_64);
    if z < TWO_32 {
      RoundTrip32(z, rest);
    }
  }
}
