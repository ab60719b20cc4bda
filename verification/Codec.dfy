/** Byte-level encodings used by webhook signatures: hex and base64 of RFC 4648 (sections 8 and 4) as the
    Go decoders read them, and decimal 64-bit integers. */
module Codec {
  import opened Options

  type byte = x: int | 0 <= x < 256
  type Bytes = seq<byte>

  // Hex

  function HexDigit(n: int): (c: byte)
    requires 0 <= n < 16
    ensures HexValue(c) == Some(n)
    ensures '0' as int <= c <= '9' as int || 'a' as int <= c <= 'f' as int
  {
    if n < 10 then '0' as int + n else 'a' as int + n - 10
  }

  function HexValue(c: byte): Option<int> {
    if '0' as int <= c <= '9' as int then Some(c - '0' as int)
    else if 'a' as int <= c <= 'f' as int then Some(c - 'a' as int + 10)
    else if 'A' as int <= c <= 'F' as int then Some(c - 'A' as int + 10)
    else None
  }

  function HexEncode(b: Bytes): Bytes {
    if b == [] then [] else [HexDigit(b[0] / 16), HexDigit(b[0] % 16)] + HexEncode(b[1..])
  }

  function HexDecode(s: Bytes): Option<Bytes> {
    if s == [] then Some([])
    else if |s| == 1 then None
    else
      match (HexValue(s[0]), HexValue(s[1]), HexDecode(s[2..]))
      case (Some(hi), Some(lo), Some(rest)) => Some([AsByte(16 * hi + lo)] + rest)
      case _ => None
  }

  /** A byte from an integer; decoders only ever pass values in range. */
  function AsByte(n: int): byte { n % 256 }

  lemma {:induction false} HexRoundTrip(b: Bytes)
    ensures HexDecode(HexEncode(b)) == Some(b)
  {
    if b != [] {
      hide *;
      HexRoundTrip(b[1..]);
      HexEncodeFirst(b);
      var s := HexEncode(b);
      assert s[2..] == HexEncode(b[1..]);
      HexDecodeFirst(s, b);
    }
  }

  const HEX: string := "0123456789abcdef"

  /** Each byte is two digits, high half first, in lower case. */
  lemma {:induction false} HexAt(b: Bytes, i: nat)
    requires i < |b|
    ensures |HexEncode(b)| == 2 * |b|
    ensures HexEncode(b)[2 * i] == HEX[b[i] / 16] as int && HexEncode(b)[2 * i + 1] == HEX[b[i] % 16] as int
  {
    hide HexDigit, HexValue;
    HexLength(b);
    DigitIs(b[i] / 16);
    DigitIs(b[i] % 16);
    if i > 0 {
      HexAt(b[1..], i - 1);
      assert HexEncode(b)[2..] == HexEncode(b[1..]);
    }
  }

  lemma {:induction false} HexLength(b: Bytes)
    ensures |HexEncode(b)| == 2 * |b|
  {
    if b != [] { HexLength(b[1..]); }
  }

  lemma DigitIs(n: int)
    requires 0 <= n < 16
    ensures HexDigit(n) == HEX[n] as int
  {}

  /** A capital hexadecimal letter made small; every other byte stays. */
  function Lower(c: byte): byte { if 'A' as int <= c <= 'F' as int then c + 32 else c }

  function Lowered(s: Bytes): Bytes { seq(|s|, i requires 0 <= i < |s| => Lower(s[i])) }

  lemma DigitIff(c: byte, n: int)
    requires 0 <= n < 16
    ensures HexValue(c) == Some(n) <==> Lower(c) == HexDigit(n)
  {}

  /** Decoding accepts exactly the encodings, in either case, and nothing else. */
  lemma {:induction false} HexDecodeIff(s: Bytes, b: Bytes)
    ensures HexDecode(s) == Some(b) <==> Lowered(s) == HexEncode(b)
    decreases |s|
  {
    if |s| >= 2 && b != [] {
      hide HexDecode, HexValue, HexDigit, HexEncode;
      HexDecodeIff(s[2..], b[1..]);
      DigitIff(s[0], b[0] / 16);
      DigitIff(s[1], b[0] % 16);
      HexDecodeFirst(s, b);
      HexEncodeFirst(b);
      assert Lowered(s) == [Lower(s[0]), Lower(s[1])] + Lowered(s[2..]);
      HexTwo([Lower(s[0]), Lower(s[1])], Lowered(s[2..]),
             [HexDigit(b[0] / 16), HexDigit(b[0] % 16)], HexEncode(b[1..]));
    } else if |s| == 1 && b != [] {
      HexAt(b, 0);
    } else if |s| >= 2 {
      assert HexDecode(s) != Some([]);
    }
  }

  lemma HexEncodeFirst(b: Bytes)
    requires b != []
    ensures HexEncode(b) == [HexDigit(b[0] / 16), HexDigit(b[0] % 16)] + HexEncode(b[1..])
  {}

  lemma HexTwo(p: Bytes, s: Bytes, q: Bytes, t: Bytes)
    requires |p| == 2 && |q| == 2
    ensures p + s == q + t <==> p[0] == q[0] && p[1] == q[1] && s == t
  {
    if p + s == q + t {
      assert (p + s)[..2] == p && (q + t)[..2] == q && (p + s)[2..] == s && (q + t)[2..] == t;
    }
  }

  lemma HexDecodeFirst(s: Bytes, b: Bytes)
    requires |s| >= 2 && b != []
    ensures HexDecode(s) == Some(b) <==>
              && HexValue(s[0]) == Some(b[0] / 16) && HexValue(s[1]) == Some(b[0] % 16)
              && HexDecode(s[2..]) == Some(b[1..])
  {
    if HexDecode(s) == Some(b) {
      var hi, lo := HexValue(s[0]).value, HexValue(s[1]).value;
      assert 0 <= hi < 16 && 0 <= lo < 16;
      assert b == [AsByte(16 * hi + lo)] + HexDecode(s[2..]).value;
      assert b[1..] == HexDecode(s[2..]).value;
    }
    if HexValue(s[0]) == Some(b[0] / 16) && HexValue(s[1]) == Some(b[0] % 16) && HexDecode(s[2..]) == Some(b[1..]) {
      assert [b[0]] + b[1..] == b;
    }
  }

  // Base64

  const PAD: byte := '=' as int

  function Sextet(n: int): (c: byte)
    requires 0 <= n < 64
    ensures SextetValue(c) == Some(n) && c != PAD && c != 10 && c != 13
    ensures 33 <= c < 128 && c != ',' as int
    ensures n < 26 ==> c == 'A' as int + n
    ensures 26 <= n < 52 ==> c == 'a' as int + n - 26
    ensures 52 <= n < 62 ==> c == '0' as int + n - 52
    ensures (n == 62 ==> c == '+' as int) && (n == 63 ==> c == '/' as int)
  {
    if n < 26 then 'A' as int + n
    else if n < 52 then 'a' as int + n - 26
    else if n < 62 then '0' as int + n - 52
    else if n == 62 then '+' as int
    else '/' as int
  }

  function SextetValue(c: byte): Option<int> {
    if 'A' as int <= c <= 'Z' as int then Some(c - 'A' as int)
    else if 'a' as int <= c <= 'z' as int then Some(c - 'a' as int + 26)
    else if '0' as int <= c <= '9' as int then Some(c - '0' as int + 52)
    else if c == '+' as int then Some(62)
    else if c == '/' as int then Some(63)
    else None
  }

  function Group1(x: byte): Bytes { [Sextet(x / 4), Sextet(x % 4 * 16), PAD, PAD] }

  function Group2(x: byte, y: byte): Bytes {
    [Sextet(x / 4), Sextet(x % 4 * 16 + y / 16), Sextet(y % 16 * 4), PAD]
  }

  function Group3(x: byte, y: byte, z: byte): Bytes {
    [Sextet(x / 4), Sextet(x % 4 * 16 + y / 16), Sextet(y % 16 * 4 + z / 64), Sextet(z % 64)]
  }

  function Base64Encode(b: Bytes): Bytes {
    if b == [] then []
    else if |b| == 1 then Group1(b[0])
    else if |b| == 2 then Group2(b[0], b[1])
    else Group3(b[0], b[1], b[2]) + Base64Encode(b[3..])
  }

  function Quads(s: Bytes): Option<Bytes> {
    if s == [] then Some([])
    else if |s| < 4 then None
    else
      match (SextetValue(s[0]), SextetValue(s[1]))
      case (Some(v0), Some(v1)) =>
        if s[2] == PAD then
          if s[3] == PAD && |s| == 4 then Some([AsByte(v0 * 4 + v1 / 16)]) else None
        else (
          match SextetValue(s[2])
          case None => None
          case Some(v2) =>
            var head := [AsByte(v0 * 4 + v1 / 16), AsByte(v1 % 16 * 16 + v2 / 4)];
            if s[3] == PAD then if |s| == 4 then Some(head) else None
            else
              match (SextetValue(s[3]), Quads(s[4..]))
              case (Some(v3), Some(rest)) => Some(head + [AsByte(v2 % 4 * 64 + v3)] + rest)
              case _ => None
        )
      case _ => None
  }

  /** Line breaks are skipped wherever they stand. */
  function SkipLineBreaks(s: Bytes): Bytes {
    if s == [] then []
    else (if s[0] == 10 || s[0] == 13 then [] else [s[0]]) + SkipLineBreaks(s[1..])
  }

  function Base64Decode(s: Bytes): Option<Bytes> { Quads(SkipLineBreaks(s)) }

  /** One full group of four characters decodes to three bytes. */
  lemma FullQuad(v0: int, v1: int, v2: int, v3: int, rest: Bytes, tail: Bytes)
    requires 0 <= v0 < 64 && 0 <= v1 < 64 && 0 <= v2 < 64 && 0 <= v3 < 64 && Quads(rest) == Some(tail)
    ensures Quads([Sextet(v0), Sextet(v1), Sextet(v2), Sextet(v3)] + rest)
         == Some([AsByte(v0 * 4 + v1 / 16), AsByte(v1 % 16 * 16 + v2 / 4)] + [AsByte(v2 % 4 * 64 + v3)] + tail)
  {
    hide Sextet, SextetValue, AsByte;
    var s := [Sextet(v0), Sextet(v1), Sextet(v2), Sextet(v3)] + rest;
    assert s[4..] == rest;
  }

  lemma PaddedQuad(v0: int, v1: int, v2: int)
    requires 0 <= v0 < 64 && 0 <= v1 < 64 && 0 <= v2 < 64
    ensures Quads([Sextet(v0), Sextet(v1), PAD, PAD]) == Some([AsByte(v0 * 4 + v1 / 16)])
    ensures Quads([Sextet(v0), Sextet(v1), Sextet(v2), PAD])
         == Some([AsByte(v0 * 4 + v1 / 16), AsByte(v1 % 16 * 16 + v2 / 4)])
  {
    hide Sextet, SextetValue, AsByte;
  }

  /** Three bytes as four sextets and back. */
  lemma TripleRoundTrip(x: byte, y: byte, z: byte, v1: int, v2: int)
    requires v1 == x % 4 * 16 + y / 16 && v2 == y % 16 * 4 + z / 64
    ensures 0 <= x / 4 < 64 && 0 <= v1 < 64 && 0 <= v2 < 64 && 0 <= z % 64 < 64
    ensures AsByte(x / 4 * 4 + v1 / 16) == x
    ensures AsByte(v1 % 16 * 16 + v2 / 4) == y
    ensures AsByte(v2 % 4 * 64 + z % 64) == z
  {}

  lemma Group3RoundTrip(x: byte, y: byte, z: byte, rest: Bytes, tail: Bytes)
    requires Quads(rest) == Some(tail)
    ensures Quads(Group3(x, y, z) + rest) == Some([x, y, z] + tail)
  {
    hide Sextet, SextetValue, Quads, AsByte;
    var v1, v2 := x % 4 * 16 + y / 16, y % 16 * 4 + z / 64;
    TripleRoundTrip(x, y, z, v1, v2);
    FullQuad(x / 4, v1, v2, z % 64, rest, tail);
    assert [x, y] + [z] + tail == [x, y, z] + tail;
  }

  lemma PaddedRoundTrip(x: byte, y: byte)
    ensures Quads(Group1(x)) == Some([x])
    ensures Quads(Group2(x, y)) == Some([x, y])
  {
    hide Sextet, SextetValue, Quads, AsByte;
    TripleRoundTrip(x, 0, 0, x % 4 * 16, 0);
    PaddedQuad(x / 4, x % 4 * 16, 0);
    TripleRoundTrip(x, y, 0, x % 4 * 16 + y / 16, y % 16 * 4);
    PaddedQuad(x / 4, x % 4 * 16 + y / 16, y % 16 * 4);
  }

  lemma {:induction false} QuadsRoundTrip(b: Bytes)
    ensures Quads(Base64Encode(b)) == Some(b)
  {
    hide Group1, Group2, Group3;
    if |b| == 1 {
      PaddedRoundTrip(b[0], 0);
      assert [b[0]] == b;
    } else if |b| == 2 {
      PaddedRoundTrip(b[0], b[1]);
      assert [b[0], b[1]] == b;
    } else if |b| >= 3 {
      QuadsRoundTrip(b[3..]);
      Group3RoundTrip(b[0], b[1], b[2], Base64Encode(b[3..]), b[3..]);
      assert [b[0], b[1], b[2]] + b[3..] == b;
    }
  }

  lemma {:induction false} NoLineBreaks(s: Bytes)
    requires forall i :: 0 <= i < |s| ==> s[i] != 10 && s[i] != 13
    ensures SkipLineBreaks(s) == s
  {
    if s != [] { NoLineBreaks(s[1..]); }
  }

  /** Bytes that can stand inside a header field: printable ASCII, no comma. */
  ghost predicate Plain(s: Bytes) {
    forall i :: 0 <= i < |s| ==> 33 <= s[i] < 128 && s[i] != ',' as int
  }

  lemma {:induction false} Base64Plain(b: Bytes)
    ensures Plain(Base64Encode(b))
    ensures b != [] ==> Base64Encode(b) != []
  {
    if |b| >= 3 { Base64Plain(b[3..]); }
  }

  lemma {:induction false} HexPlain(b: Bytes)
    ensures Plain(HexEncode(b))
    ensures b != [] ==> HexEncode(b) != []
  {
    if b != [] { HexPlain(b[1..]); }
  }

  lemma Base64RoundTrip(b: Bytes)
    ensures Base64Decode(Base64Encode(b)) == Some(b)
  {
    Base64Plain(b);
    NoLineBreaks(Base64Encode(b));
    QuadsRoundTrip(b);
  }

  /** Three bytes are one number of 24 bits, written as four digits of six bits each, highest first; one or two bytes
      are filled up with zero bits and padded with '='. */
  lemma GroupsAreNumbers(x: byte, y: byte, z: byte) returns (v0: int, v1: int, v2: int, v3: int)
    ensures 0 <= v0 < 64 && 0 <= v1 < 64 && 0 <= v2 < 64 && 0 <= v3 < 64
    ensures Group3(x, y, z) == [Sextet(v0), Sextet(v1), Sextet(v2), Sextet(v3)]
    ensures v0 * 262144 + v1 * 4096 + v2 * 64 + v3 == (x as int) * 65536 + (y as int) * 256 + z
  {
    hide Sextet;
    v0, v1, v2, v3 := x / 4, x % 4 * 16 + y / 16, y % 16 * 4 + z / 64, z % 64;
  }

  lemma PaddedAreNumbers(x: byte, y: byte)
    ensures exists v0, v1 ::
      && 0 <= v0 < 64 && 0 <= v1 < 64 && v0 * 64 + v1 == (x as int) * 16
      && Group1(x) == [Sextet(v0), Sextet(v1), '=' as int, '=' as int]
    ensures exists v0, v1, v2 ::
      && 0 <= v0 < 64 && 0 <= v1 < 64 && 0 <= v2 < 64 && v0 * 4096 + v1 * 64 + v2 == (x as int) * 1024 + (y as int) * 4
      && Group2(x, y) == [Sextet(v0), Sextet(v1), Sextet(v2), '=' as int]
  {
    hide Sextet;
    assert Group1(x) == [Sextet(x / 4), Sextet(x % 4 * 16), '=' as int, '=' as int];
    assert Group2(x, y) == [Sextet(x / 4), Sextet(x % 4 * 16 + y / 16), Sextet(y % 16 * 4), '=' as int];
  }

  lemma Base64First(b: Bytes)
    requires |b| > 3
    ensures Base64Encode(b) == Group3(b[0], b[1], b[2]) + Base64Encode(b[3..]) && |Group3(b[0], b[1], b[2])| == 4
  {
    GroupLengths();
    hide Group3;
  }

  lemma Base64Short(b: Bytes)
    requires 0 < |b| <= 3
    ensures |Base64Encode(b)| == 4
    ensures Base64Encode(b) ==
              if |b| == 3 then Group3(b[0], b[1], b[2]) else if |b| == 2 then Group2(b[0], b[1]) else Group1(b[0])
  {
    GroupLengths();
    hide Group1, Group2, Group3;
    if |b| == 3 { assert b[3..] == []; }
  }

  /** Four characters for every three bytes begun. */
  lemma {:induction false} Base64Length(b: Bytes, n: nat)
    requires 3 * n - 2 <= |b| <= 3 * n
    ensures |Base64Encode(b)| == 4 * n
  {
    if b == [] {
      assert Base64Encode(b) == [];
    } else {
      hide *;
      if |b| > 3 {
        Base64First(b);
        Base64Length(b[3..], n - 1);
      } else {
        Base64Short(b);
      }
    }
  }

  /** The encoding is group after group. */
  lemma {:induction false} Base64At(b: Bytes, k: nat)
    requires 3 * k < |b|
    ensures 4 * k + 4 <= |Base64Encode(b)|
    ensures Base64Encode(b)[4 * k..4 * k + 4] ==
              if 3 * k + 2 < |b| then Group3(b[3 * k], b[3 * k + 1], b[3 * k + 2])
              else if 3 * k + 1 < |b| then Group2(b[3 * k], b[3 * k + 1])
              else Group1(b[3 * k])
    decreases |b|
  {
    hide Base64Encode, Group1, Group2, Group3;
    if |b| <= 3 {
      Base64Short(b);
      assert Base64Encode(b)[0..4] == Base64Encode(b);
    } else {
      Base64First(b);
      var head, rest := Group3(b[0], b[1], b[2]), Base64Encode(b[3..]);
      if k == 0 {
        assert (head + rest)[0..4] == head;
      } else {
        Base64At(b[3..], k - 1);
        assert (head + rest)[4 * k..4 * k + 4] == rest[4 * (k - 1)..4 * (k - 1) + 4];
      }
    }
  }

  lemma GroupLengths()
    ensures forall x: byte, y: byte, z: byte :: |Group3(x, y, z)| == 4
    ensures forall x: byte, y: byte :: |Group2(x, y)| == 4
    ensures forall x: byte :: |Group1(x)| == 4
  {
    hide Sextet;
  }

  /** What decodes is, but for the spare bits of its last group, the encoding of what it decodes to. */
  lemma {:induction false} QuadsOnly(s: Bytes, b: Bytes)
    requires Quads(s) == Some(b)
    ensures |s| == |Base64Encode(b)| && forall i :: 0 <= i < |s| - 4 ==> s[i] == Base64Encode(b)[i]
  {
    hide Sextet, SextetValue, AsByte, Group1, Group2, Group3;
    if s != [] {
      if s[2] == PAD || s[3] == PAD {
        PaddedLength(b);
      } else {
        var rest := Quads(s[4..]).value;
        QuadsOnly(s[4..], rest);
        QuadIs(s[0], s[1], s[2], s[3]);
        assert b == b[..3] + rest && b[3..] == rest;
        assert s == s[..4] + s[4..] && s[..4] == [s[0], s[1], s[2], s[3]];
        assert Base64Encode(b) == s[..4] + Base64Encode(rest);
      }
    }
  }

  lemma PaddedLength(b: Bytes)
    requires |b| == 1 || |b| == 2
    ensures |Base64Encode(b)| == 4
  {}

  lemma SextetBack(c: byte)
    requires SextetValue(c).Some?
    ensures 0 <= SextetValue(c).value < 64 && Sextet(SextetValue(c).value) == c
  {}

  lemma Parts(q: int, r: int, n: int)
    requires n > 0 && 0 <= r < n
    ensures (q * n + r) / n == q && (q * n + r) % n == r
  {
    var d := (q * n + r) / n - q;
    assert d * n == r - (q * n + r) % n;
    assert d >= 1 ==> d * n >= n;
    assert d <= -1 ==> d * n <= -n;
  }

  lemma Bits24(v0: int, v1: int, v2: int, v3: int)
    requires 0 <= v0 < 64 && 0 <= v1 < 64 && 0 <= v2 < 64 && 0 <= v3 < 64
    ensures var x, y, z := AsByte(v0 * 4 + v1 / 16), AsByte(v1 % 16 * 16 + v2 / 4), AsByte(v2 % 4 * 64 + v3);
            x / 4 == v0 && x % 4 * 16 + y / 16 == v1 && y % 16 * 4 + z / 64 == v2 && z % 64 == v3
  {
    var a, b, c, d := v1 / 16, v1 % 16, v2 / 4, v2 % 4;
    assert v1 == 16 * a + b && v2 == 4 * c + d && 0 <= a < 4 && 0 <= c < 16;
    assert AsByte(v0 * 4 + a) == v0 * 4 + a && AsByte(b * 16 + c) == b * 16 + c && AsByte(d * 64 + v3) == d * 64 + v3;
    Parts(v0, a, 4);
    Parts(b, c, 16);
    Parts(d, v3, 64);
    hide AsByte;
  }

  lemma QuadIs(c0: byte, c1: byte, c2: byte, c3: byte)
    requires SextetValue(c0).Some? && SextetValue(c1).Some? && SextetValue(c2).Some? && SextetValue(c3).Some?
    ensures var v0, v1, v2, v3 :=
              SextetValue(c0).value, SextetValue(c1).value, SextetValue(c2).value, SextetValue(c3).value;
            Group3(AsByte(v0 * 4 + v1 / 16), AsByte(v1 % 16 * 16 + v2 / 4), AsByte(v2 % 4 * 64 + v3))
            == [c0, c1, c2, c3]
  {
    hide Sextet, SextetValue, AsByte;
    SextetBack(c0);
    SextetBack(c1);
    SextetBack(c2);
    SextetBack(c3);
    Bits24(SextetValue(c0).value, SextetValue(c1).value, SextetValue(c2).value, SextetValue(c3).value);
  }

  // Decimal

  const MAX_INT64: int := 0x7FFF_FFFF_FFFF_FFFF

  function Decimal(n: nat): (s: Bytes)
    ensures s != [] && forall i :: 0 <= i < |s| ==> '0' as int <= s[i] <= '9' as int
  {
    if n < 10 then ['0' as int + n] else Decimal(n / 10) + ['0' as int + n % 10]
  }

  function Digits(s: Bytes): Option<nat> {
    if s == [] then Some(0)
    else
      var c := s[|s| - 1];
      match Digits(s[..|s| - 1])
      case None => None
      case Some(n) => if '0' as int <= c <= '9' as int then Some(10 * n + (c - '0' as int)) else None
  }

  /** An optional sign, at least one digit, and a value of 64 bits. */
  function ParseInt(s: Bytes): Option<int> {
    if s == [] then None
    else
      var signed := s[0] == '-' as int || s[0] == '+' as int;
      var digits := if signed then s[1..] else s;
      if digits == [] then None
      else
        match Digits(digits)
        case None => None
        case Some(n) =>
          var v: int := if s[0] == '-' as int then -(n as int) else n;
          if -MAX_INT64 - 1 <= v <= MAX_INT64 then Some(v) else None
  }

  lemma {:induction false} DigitsRoundTrip(n: nat)
    ensures Digits(Decimal(n)) == Some(n)
  {
    if n >= 10 {
      var s := Decimal(n);
      assert s[..|s| - 1] == Decimal(n / 10);
      DigitsRoundTrip(n / 10);
    } else {
      assert Decimal(n)[..0] == [];
    }
  }

  lemma ParseDecimal(n: nat)
    requires n <= MAX_INT64
    ensures ParseInt(Decimal(n)) == Some(n)
    ensures Plain(Decimal(n)) && Decimal(n) != []
  {
    DigitsRoundTrip(n);
  }

  lemma NotANumber(s: Bytes)
    requires s != [] && !('0' as int <= s[|s| - 1] <= '9' as int)
    ensures ParseInt(s).None?
  {}

  /** A sign may stand before the digits; a number that needs more than 64 bits is refused. */
  lemma ParseSigned(n: nat)
    ensures ParseInt(Decimal(n)) == if n <= MAX_INT64 then Some(n as int) else None
    ensures ParseInt(['+' as int] + Decimal(n)) == if n <= MAX_INT64 then Some(n as int) else None
    ensures ParseInt(['-' as int] + Decimal(n)) == if n <= MAX_INT64 + 1 then Some(0 - n as int) else None
  {
    DigitsRoundTrip(n);
    var d := Decimal(n);
    assert '0' as int <= d[0] <= '9' as int;
    hide Decimal, Digits;
    assert (['+' as int] + d)[1..] == d && (['-' as int] + d)[1..] == d;
  }
}
