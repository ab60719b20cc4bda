/** Webhook signatures: Sign is Verify's inverse, over any keyed hash. */
module Signature {
  import opened Options
  import opened Codec

  const COMMA: byte := ',' as int
  const EQUALS: byte := '=' as int
  const DOT: byte := '.' as int

  // White space as strings.TrimSpace sees it in UTF-8.

  /** Length of the white-space character that starts at the given bytes, 0 if none does. */
  function SpaceAt(s: Bytes): (n: nat)
    ensures n <= |s|
  {
    if |s| >= 1 && (9 <= s[0] <= 13 || s[0] == 32) then 1
    else if |s| >= 2 && s[0] == 0xC2 && (s[1] == 0x85 || s[1] == 0xA0) then 2
    else if |s| >= 3 && WideSpace(s[0], s[1], s[2]) then 3
    else 0
  }

  /** U+1680, U+2000..200A, U+2028, U+2029, U+202F, U+205F and U+3000. */
  predicate WideSpace(a: byte, b: byte, c: byte) {
    || (a == 0xE1 && b == 0x9A && c == 0x80)
    || (a == 0xE2 && b == 0x80 && (0x80 <= c <= 0x8A || c == 0xA8 || c == 0xA9 || c == 0xAF))
    || (a == 0xE2 && b == 0x81 && c == 0x9F)
    || (a == 0xE3 && b == 0x80 && c == 0x80)
  }

  /** Length of the white-space character that ends the given bytes, 0 if none does. */
  function SpaceBefore(s: Bytes): (n: nat)
    ensures n <= |s|
  {
    if |s| >= 1 && SpaceAt(s[|s| - 1..]) == 1 then 1
    else if |s| >= 2 && SpaceAt(s[|s| - 2..]) == 2 then 2
    else if |s| >= 3 && SpaceAt(s[|s| - 3..]) == 3 then 3
    else 0
  }

  function TrimLeft(s: Bytes): Bytes {
    if SpaceAt(s) == 0 then s else TrimLeft(s[SpaceAt(s)..])
  }

  function TrimRight(s: Bytes): Bytes {
    if SpaceBefore(s) == 0 then s else TrimRight(s[..|s| - SpaceBefore(s)])
  }

  function Trim(s: Bytes): Bytes { TrimRight(TrimLeft(s)) }

  ghost predicate NoOuterSpace(s: Bytes) { SpaceAt(s) == 0 && SpaceBefore(s) == 0 }

  /** The white-space characters of Unicode, in UTF-8: U+0009 to U+000D, U+0020, U+0085, U+00A0, U+1680, U+2000 to
      U+200A, U+2028, U+2029, U+202F, U+205F and U+3000. */
  ghost predicate White(w: Bytes) {
    || w == [0x09] || w == [0x0A] || w == [0x0B] || w == [0x0C] || w == [0x0D] || w == [0x20]
    || w == [0xC2, 0x85] || w == [0xC2, 0xA0] || w == [0xE1, 0x9A, 0x80]
    || (exists c: byte :: 0x80 <= c <= 0x8A && w == [0xE2, 0x80, c])
    || w == [0xE2, 0x80, 0xA8] || w == [0xE2, 0x80, 0xA9] || w == [0xE2, 0x80, 0xAF]
    || w == [0xE2, 0x81, 0x9F] || w == [0xE3, 0x80, 0x80]
  }

  lemma SpaceIsWhite(s: Bytes)
    requires SpaceAt(s) > 0
    ensures White(s[..SpaceAt(s)])
  {
    var w := s[..SpaceAt(s)];
    if |w| == 3 { assert w == [s[0], s[1], s[2]]; } else if |w| == 2 { assert w == [s[0], s[1]]; }
  }

  lemma WhiteIsSpace(w: Bytes, s: Bytes)
    requires White(w) && w <= s
    ensures SpaceAt(s) == |w|
  {}

  function Concat(words: seq<Bytes>): Bytes { if words == [] then [] else words[0] + Concat(words[1..]) }

  ghost predicate AllWhite(words: seq<Bytes>) { forall i :: 0 <= i < |words| ==> White(words[i]) }

  /** One character off the left, or nothing. */
  lemma TrimLeftStep(s: Bytes) returns (n: nat)
    ensures n <= |s| && (n == 0 ==> TrimLeft(s) == s)
    ensures n > 0 ==> White(s[..n]) && TrimLeft(s) == TrimLeft(s[n..])
  {
    hide White;
    n := SpaceAt(s);
    if n > 0 { SpaceIsWhite(s); }
    hide SpaceAt;
  }

  lemma ConcatFirst(w: Bytes, words: seq<Bytes>)
    ensures Concat([w] + words) == w + Concat(words)
  {
    assert ([w] + words)[1..] == words;
  }

  lemma {:induction false} TrimLeftSplits(s: Bytes) returns (words: seq<Bytes>)
    ensures AllWhite(words) && s == Concat(words) + TrimLeft(s)
    decreases |s|
  {
    hide *;
    NoWords();
    words := [];
    var n := TrimLeftStep(s);
    if n > 0 {
      var rest := TrimLeftSplits(s[n..]);
      OneWordBefore(s, n, rest);
      words := [s[..n]] + rest;
    }
  }

  lemma OneWordBefore(s: Bytes, n: nat, rest: seq<Bytes>)
    requires 0 < n <= |s| && White(s[..n]) && AllWhite(rest) && s[n..] == Concat(rest) + TrimLeft(s[n..])
    ensures var words := [s[..n]] + rest;
            AllWhite(words) && s == Concat(words) + TrimLeft(s[n..])
  {
    hide *;
    var first, tail := s[..n], s[n..];
    AllWhiteCons(first, rest);
    ConcatFirst(first, rest);
    Joined(first, Concat(rest), TrimLeft(tail));
    assert s == first + tail;
  }

  lemma AllWhiteCons(w: Bytes, words: seq<Bytes>)
    requires AllWhite(words) && White(w)
    ensures AllWhite([w] + words)
  {
    hide White;
  }

  lemma {:induction false} ConcatSnoc(words: seq<Bytes>, w: Bytes)
    ensures Concat(words + [w]) == Concat(words) + w
  {
    if words == [] {
      assert [w][1..] == [];
    } else {
      ConcatSnoc(words[1..], w);
      assert (words + [w])[1..] == words[1..] + [w];
    }
  }

  lemma TrimRightIs(s: Bytes)
    ensures TrimRight(s) == if SpaceBefore(s) == 0 then s else TrimRight(s[..|s| - SpaceBefore(s)])
  {
    hide SpaceBefore;
  }

  /** One character off the right, or nothing. */
  lemma TrimRightStep(s: Bytes) returns (n: nat)
    ensures n <= |s| && (n == 0 ==> TrimRight(s) == s)
    ensures n > 0 ==> White(s[|s| - n..]) && TrimRight(s) == TrimRight(s[..|s| - n])
  {
    hide *;
    TrimRightIs(s);
    n := SpaceBefore(s);
    if n > 0 { EndsWhite(s); }
  }

  lemma EndsWithSpace(s: Bytes)
    requires SpaceBefore(s) > 0
    ensures SpaceAt(s[|s| - SpaceBefore(s)..]) == SpaceBefore(s)
  {
    hide SpaceAt;
  }

  lemma EndsWhite(s: Bytes)
    requires SpaceBefore(s) > 0
    ensures White(s[|s| - SpaceBefore(s)..])
  {
    hide *;
    EndsWithSpace(s);
    var end := s[|s| - SpaceBefore(s)..];
    assert end[..|end|] == end;
    SpaceIsWhite(end);
  }

  lemma NoWords()
    ensures Concat([]) == [] && AllWhite([])
  {}

  lemma {:induction false} TrimRightSplits(s: Bytes) returns (words: seq<Bytes>)
    ensures AllWhite(words) && s == TrimRight(s) + Concat(words)
    decreases |s|
  {
    hide *;
    NoWords();
    words := [];
    var n := TrimRightStep(s);
    if n > 0 {
      var rest := TrimRightSplits(s[..|s| - n]);
      OneWordMore(s, n, rest);
      words := rest + [s[|s| - n..]];
    }
  }

  lemma OneWordMore(s: Bytes, n: nat, rest: seq<Bytes>)
    requires 0 < n <= |s| && White(s[|s| - n..]) && AllWhite(rest)
    requires s[..|s| - n] == TrimRight(s[..|s| - n]) + Concat(rest)
    ensures var words := rest + [s[|s| - n..]];
            AllWhite(words) && s == TrimRight(s[..|s| - n]) + Concat(words)
  {
    hide *;
    var init, last := s[..|s| - n], s[|s| - n..];
    AllWhiteSnoc(rest, last);
    ConcatSnoc(rest, last);
    Joined(TrimRight(init), Concat(rest), last);
    assert s == init + last;
  }

  lemma AllWhiteSnoc(words: seq<Bytes>, w: Bytes)
    requires AllWhite(words) && White(w)
    ensures AllWhite(words + [w])
  {
    hide White;
  }

  lemma Joined(a: Bytes, b: Bytes, c: Bytes)
    ensures a + b + c == a + (b + c)
  {}

  /** Trimming takes white-space characters off both ends, all of them, and nothing else. */
  lemma TrimSplits(s: Bytes) returns (before: seq<Bytes>, after: seq<Bytes>)
    ensures AllWhite(before) && AllWhite(after) && s == Concat(before) + Trim(s) + Concat(after)
    ensures forall w :: White(w) ==> !(w <= Trim(s))
  {
    hide TrimLeft, TrimRight;
    before := TrimLeftSplits(s);
    after := TrimRightSplits(TrimLeft(s));
    assert SpaceAt(Trim(s)) == 0 by { TrimSound(s); }
    forall w | White(w) ensures !(w <= Trim(s)) { if w <= Trim(s) { WhiteIsSpace(w, Trim(s)); } }
  }

  // Splitting

  function IndexOf(s: Bytes, c: byte): (i: nat)
    ensures i <= |s| && c !in s[..i] && (i < |s| ==> s[i] == c)
  {
    if s == [] || s[0] == c then 0 else 1 + IndexOf(s[1..], c)
  }

  function Split(s: Bytes, sep: byte): seq<Bytes> {
    var i := IndexOf(s, sep);
    if i == |s| then [s] else [s[..i]] + Split(s[i + 1..], sep)
  }

  type Fields = map<Bytes, Bytes>

  /** The name a part assigns, if it holds an '='. */
  function NameOf(part: Bytes): Option<Bytes> {
    var i := IndexOf(part, EQUALS);
    if i < |part| then Some(Trim(part[..i])) else None
  }

  function Assign(fields: Fields, part: Bytes): Fields {
    var i := IndexOf(part, EQUALS);
    if i < |part| then fields[Trim(part[..i]) := Trim(part[i + 1..])] else fields
  }

  function Collect(parts: seq<Bytes>): Fields {
    if parts == [] then map[] else Assign(Collect(parts[..|parts| - 1]), parts[|parts| - 1])
  }

  function Parse(s: Bytes): Fields { Collect(Split(s, COMMA)) }

  lemma CollectNone()
    ensures Collect([]) == map[]
  {}

  lemma CollectNext(parts: seq<Bytes>, k: nat)
    requires k < |parts|
    ensures Collect(parts[..k + 1]) == Assign(Collect(parts[..k]), parts[k])
  {
    assert parts[..k + 1][..k] == parts[..k];
  }

  method ParseSignatureFields(s: Bytes) returns (out: Fields)
    ensures out == Parse(s)
  {
    hide Collect, Split, Trim;
    assert Collect([]) == map[] by { CollectNone(); }
    out := map[];
    var parts := Split(s, COMMA);
    for k := 0 to |parts|
      invariant out == Collect(parts[..k])
    {
      var part := parts[k];
      var i := IndexOf(part, EQUALS);
      if i < |part| {
        out := out[Trim(part[..i]) := Trim(part[i + 1..])];
      }
      CollectNext(parts, k);
    }
    assert parts[..|parts|] == parts;
  }

  // Printing field lists

  datatype Field = Field(name: Bytes, value: Bytes)

  function PrintField(f: Field): Bytes { f.name + [EQUALS] + f.value }

  function Print(fs: seq<Field>): Bytes {
    if fs == [] then []
    else if |fs| == 1 then PrintField(fs[0])
    else Print(fs[..|fs| - 1]) + [COMMA] + PrintField(fs[|fs| - 1])
  }

  function LastWins(fs: seq<Field>): Fields {
    if fs == [] then map[] else LastWins(fs[..|fs| - 1])[fs[|fs| - 1].name := fs[|fs| - 1].value]
  }

  ghost predicate CleanName(name: Bytes) { COMMA !in name && EQUALS !in name && NoOuterSpace(name) }

  ghost predicate CleanValue(value: Bytes) { COMMA !in value && NoOuterSpace(value) }

  ghost predicate Clean(f: Field) { CleanName(f.name) && CleanValue(f.value) }

  lemma {:induction false} IndexOfFirst(a: Bytes, c: byte, b: Bytes)
    requires c !in a
    ensures IndexOf(a + [c] + b, c) == |a|
  {
    if a != [] {
      assert (a + [c] + b)[1..] == a[1..] + [c] + b;
      IndexOfFirst(a[1..], c, b);
    }
  }

  lemma {:induction false} IndexOfNone(s: Bytes, c: byte)
    requires c !in s
    ensures IndexOf(s, c) == |s|
  {
    if s != [] { IndexOfNone(s[1..], c); }
  }

  lemma SplitFirst(a: Bytes, b: Bytes, sep: byte)
    requires sep !in a
    ensures Split(a + [sep] + b, sep) == [a] + Split(b, sep)
  {
    var s := a + [sep] + b;
    IndexOfFirst(a, sep, b);
    assert s[..|a|] == a && s[|a| + 1..] == b;
  }

  /** A separator between two strings separates their parts. */
  lemma {:induction false} SplitAt(a: Bytes, b: Bytes, sep: byte)
    ensures Split(a + [sep] + b, sep) == Split(a, sep) + Split(b, sep)
    decreases |a|
  {
    hide Split;
    if sep !in a {
      SplitNone(a, sep);
      SplitFirst(a, b, sep);
    } else {
      var i := IndexOf(a, sep);
      assert a[..|a|] == a;
      var head, rest := a[..i], a[i + 1..];
      assert a == head + [sep] + rest;
      SplitFirst(head, rest, sep);
      SplitFirst(head, rest + [sep] + b, sep);
      SplitAt(rest, b, sep);
      assert head + [sep] + rest + [sep] + b == head + [sep] + (rest + [sep] + b);
    }
  }

  lemma SplitNone(s: Bytes, sep: byte)
    requires sep !in s
    ensures Split(s, sep) == [s]
  {
    IndexOfNone(s, sep);
  }

  lemma TrimClean(s: Bytes)
    requires NoOuterSpace(s)
    ensures Trim(s) == s
  {}

  lemma AssignPrinted(fields: Fields, f: Field)
    requires Clean(f)
    ensures Split(PrintField(f), COMMA) == [PrintField(f)]
    ensures Assign(fields, PrintField(f)) == fields[f.name := f.value]
  {
    hide Split, SpaceAt, SpaceBefore, IndexOf;
    var p := PrintField(f);
    assert COMMA !in p;
    SplitNone(p, COMMA);
    IndexOfFirst(f.name, EQUALS, f.value);
    TrimClean(f.name);
    TrimClean(f.value);
    hide Trim;
    assert p[..|f.name|] == f.name && p[|f.name| + 1..] == f.value;
  }

  lemma ParseNothing()
    ensures Parse([]) == map[]
  {
    SplitNone([], COMMA);
    var parts: seq<Bytes> := [[]];
    assert parts[..0] == [];
  }

  /** Parsing a printed field list gives back its last-wins map. */
  lemma {:induction false} ParsePrint(fs: seq<Field>)
    requires forall i :: 0 <= i < |fs| ==> Clean(fs[i])
    ensures Parse(Print(fs)) == LastWins(fs)
  {
    hide Split, Assign, PrintField, Clean;
    if fs == [] {
      ParseNothing();
    } else {
      var init, last := fs[..|fs| - 1], fs[|fs| - 1];
      ParsePrint(init);
      AssignPrinted(LastWins(init), last);
      if |fs| == 1 {
        CollectNone();
        CollectNext([PrintField(last)], 0);
        assert init == [] && [PrintField(last)][..0] == [] && [PrintField(last)][..1] == [PrintField(last)];
      } else {
        SplitAt(Print(init), PrintField(last), COMMA);
        var parts := Split(Print(init), COMMA);
        assert (parts + [PrintField(last)])[..|parts|] == parts;
      }
    }
  }

  /** What a part assigns: the text before its first '=' names the text after it, both trimmed; without '=', nothing. */
  lemma AssignTrims(fields: Fields, a: Bytes, b: Bytes)
    requires EQUALS !in a
    ensures Assign(fields, a + ['=' as int] + b) == fields[Trim(a) := Trim(b)]
    ensures Assign(fields, a) == fields
  {
    hide Trim;
    IndexOfFirst(a, EQUALS, b);
    IndexOfNone(a, EQUALS);
    var p := a + [EQUALS] + b;
    assert p[..|a|] == a && p[|a| + 1..] == b;
  }

  // Fields of other names

  ghost predicate SameAt(f1: Fields, f2: Fields, name: Bytes) {
    (name in f1 <==> name in f2) && (name in f1 ==> f1[name] == f2[name])
  }

  lemma {:induction false} DropPart(a: seq<Bytes>, x: Bytes, b: seq<Bytes>, name: Bytes)
    requires NameOf(x) != Some(name)
    ensures SameAt(Collect(a + [x] + b), Collect(a + b), name)
    decreases |b|
  {
    hide Trim;
    if b == [] {
      assert a + b == a && (a + [x] + b)[..|a|] == a;
    } else {
      var init, last := b[..|b| - 1], b[|b| - 1];
      DropPart(a, x, init, name);
      assert (a + [x] + b)[..|a| + |b|] == a + [x] + init && (a + b)[..|a + b| - 1] == a + init;
      assert (a + [x] + b)[|a| + |b|] == last;
    }
  }

  /** A part of another name, anywhere in any header, leaves a field as it was. */
  lemma ExtraField(a: Bytes, x: Bytes, b: Bytes, name: Bytes)
    requires COMMA !in x && NameOf(x) != Some(name)
    ensures SameAt(Parse(a + [COMMA] + x + [COMMA] + b), Parse(a + [COMMA] + b), name)
  {
    SplitAt(a, b, COMMA);
    SplitAt(a, x, COMMA);
    SplitAt(a + [COMMA] + x, b, COMMA);
    SplitNone(x, COMMA);
    assert a + [COMMA] + x + [COMMA] + b == (a + [COMMA] + x) + [COMMA] + b;
    DropPart(Split(a, COMMA), x, Split(b, COMMA), name);
  }

  // Verification schemes

  datatype Algorithm = Sha256 | Sha1
  datatype Encoding = Hex | Base64
  datatype Timestamp = Timestamp(timestampField: Bytes, signatureField: Bytes, tolerance: int)
  datatype Scheme =
    | Unchecked
    | Hmac(algorithm: Algorithm, encoding: Encoding, header: Bytes, prefix: Bytes, timestamp: Option<Timestamp>)
    | ApiKey(header: Bytes, prefix: Bytes)
    | BasicAuth
    | Unknown

  /** A keyed hash: algorithm, secret, payload. */
  type Mac = (Algorithm, Bytes, Bytes) -> Bytes
  type Headers = map<Bytes, seq<Bytes>>
  /** How header names are canonicalised. */
  type Canon = Bytes -> Bytes

  function Get(canon: Canon, h: Headers, name: Bytes): Bytes {
    if canon(name) in h && |h[canon(name)]| > 0 then h[canon(name)][0] else []
  }

  function Set(canon: Canon, h: Headers, name: Bytes, value: Bytes): Headers {
    h[canon(name) := [value]]
  }

  const AUTHORIZATION: Bytes :=
    ['A' as int, 'u' as int, 't' as int, 'h' as int, 'o' as int, 'r' as int, 'i' as int,
     'z' as int, 'a' as int, 't' as int, 'i' as int, 'o' as int, 'n' as int]
  const BASIC: Bytes := ['B' as int, 'a' as int, 's' as int, 'i' as int, 'c' as int, ' ' as int]

  function Encode(encoding: Encoding, sig: Bytes): Bytes {
    match encoding case Hex => HexEncode(sig) case Base64 => Base64Encode(sig)
  }

  function Decode(encoding: Encoding, s: Bytes): Option<Bytes> {
    match encoding case Hex => HexDecode(s) case Base64 => Base64Decode(s)
  }

  function TrimPrefix(s: Bytes, prefix: Bytes): Bytes {
    if prefix <= s then s[|prefix|..] else s
  }

  /** 64-bit two's complement. */
  function Wrap64(n: int): int {
    var m := n % 0x1_0000_0000_0000_0000;
    if m > MAX_INT64 then m - 0x1_0000_0000_0000_0000 else m
  }

  function Distance(now: int, ts: int): int {
    var delta := Wrap64(now - ts);
    if delta < 0 then Wrap64(-delta) else delta
  }

  function FieldOr(fields: Fields, name: Bytes): Bytes { if name in fields then fields[name] else [] }

  function VerifyStamped(mac: Mac, s: Scheme, ts: Timestamp, fields: Fields, body: Bytes, secret: Bytes, now: int): bool
    requires s.Hmac?
  {
    var stamp := FieldOr(fields, ts.timestampField);
    var provided := FieldOr(fields, ts.signatureField);
    if stamp == [] || provided == [] then false
    else
      match ParseInt(stamp)
      case None => false
      case Some(t) =>
        Distance(now, t) <= ts.tolerance
        && Decode(s.encoding, provided) == Some(mac(s.algorithm, secret, stamp + [DOT] + body))
  }

  function Verify(mac: Mac, canon: Canon, s: Scheme, body: Bytes, h: Headers, secret: Bytes, now: int): Result<bool> {
    match s
    case Unchecked => Ok(true)
    case Hmac(algorithm, encoding, header, prefix, timestamp) =>
      var raw := Get(canon, h, header);
      if raw == [] then Ok(false)
      else if timestamp.Some? then
        Ok(VerifyStamped(mac, s, timestamp.value, Parse(raw), body, secret, now))
      else
        Ok(Decode(encoding, TrimPrefix(raw, prefix)) == Some(mac(algorithm, secret, body)))
    case ApiKey(header, prefix) =>
      var provided := Get(canon, h, header);
      Ok(provided != [] && TrimPrefix(provided, prefix) == secret)
    case BasicAuth =>
      var auth := Get(canon, h, AUTHORIZATION);
      Ok(BASIC <= auth && Base64Decode(TrimPrefix(auth, BASIC)) == Some(secret))
    case Unknown => Err
  }

  /** The header a scheme signs into and the value it writes there. */
  function Signed(mac: Mac, s: Scheme, body: Bytes, secret: Bytes, now: nat): (Bytes, Bytes)
    requires s.Hmac? || s.ApiKey? || s.BasicAuth?
  {
    match s
    case Hmac(algorithm, encoding, header, prefix, timestamp) =>
      if timestamp.Some? then
        var ts := timestamp.value;
        var stamp := Decimal(now);
        var sig := Encode(encoding, mac(algorithm, secret, stamp + [DOT] + body));
        (header, ts.timestampField + [EQUALS] + stamp + [COMMA] + ts.signatureField + [EQUALS] + sig)
      else (header, prefix + Encode(encoding, mac(algorithm, secret, body)))
    case ApiKey(header, prefix) => (header, prefix + secret)
    case BasicAuth => (AUTHORIZATION, BASIC + Base64Encode(secret))
  }

  function Samples(canon: Canon, samples: seq<Field>): Headers {
    if samples == [] then map[]
    else Set(canon, Samples(canon, samples[..|samples| - 1]), samples[|samples| - 1].name, samples[|samples| - 1].value)
  }

  /** The headers a provider would send: the sample headers, then the signature over them. */
  function Sign(mac: Mac, canon: Canon, s: Scheme, samples: seq<Field>, body: Bytes, secret: Bytes, now: nat)
    : Result<Headers>
  {
    match s
    case Unchecked => Ok(Samples(canon, samples))
    case Unknown => Err
    case _ =>
      var (name, value) := Signed(mac, s, body, secret, now);
      Ok(Set(canon, Samples(canon, samples), name, value))
  }

  method SignHeaders(mac: Mac, canon: Canon, s: Scheme, samples: seq<Field>, body: Bytes, secret: Bytes, now: nat)
    returns (r: Result<Headers>)
    ensures r == Sign(mac, canon, s, samples, body, secret, now)
  {
    var h: Headers := map[];
    for i := 0 to |samples|
      invariant h == Samples(canon, samples[..i])
    {
      h := Set(canon, h, samples[i].name, samples[i].value);
      assert samples[..i + 1][..i] == samples[..i];
    }
    assert samples[..|samples|] == samples;
    if s.Unknown? { return Err; }
    if !s.Unchecked? {
      var (name, value) := Signed(mac, s, body, secret, now);
      h := Set(canon, h, name, value);
    }
    return Ok(h);
  }

  lemma PlainIsClean(s: Bytes)
    requires Plain(s)
    ensures CleanValue(s)
  {}

  lemma EncodedRoundTrip(encoding: Encoding, sig: Bytes)
    ensures Decode(encoding, Encode(encoding, sig)) == Some(sig)
    ensures Plain(Encode(encoding, sig)) && (sig == [] <==> Encode(encoding, sig) == [])
  {
    match encoding
    case Hex => HexRoundTrip(sig); HexPlain(sig);
    case Base64 => Base64RoundTrip(sig); Base64Plain(sig);
  }

  lemma TrimPrefixOf(prefix: Bytes, s: Bytes)
    ensures TrimPrefix(prefix + s, prefix) == s && prefix <= prefix + s
  {}

  lemma DistanceWithin(now: int, ts: int)
    requires 0 <= now <= MAX_INT64 && 0 <= ts <= MAX_INT64
    ensures Distance(now, ts) == if now >= ts then now - ts else ts - now
  {}

  /** The stamped header parses back to exactly its two fields. */
  lemma StampedParses(ts: Timestamp, stamp: Bytes, sig: Bytes)
    requires CleanName(ts.timestampField) && CleanName(ts.signatureField) && ts.timestampField != ts.signatureField
    requires Plain(stamp) && Plain(sig)
    ensures Parse(ts.timestampField + [EQUALS] + stamp + [COMMA] + ts.signatureField + [EQUALS] + sig)
         == map[ts.timestampField := stamp, ts.signatureField := sig]
  {
    hide Parse, Print, LastWins, CleanName, NoOuterSpace, Plain, CleanValue;
    var f1, f2 := Field(ts.timestampField, stamp), Field(ts.signatureField, sig);
    PlainIsClean(stamp);
    PlainIsClean(sig);
    ParsePrint([f1, f2]);
    PrintTwo(f1, f2);
    assert PrintField(f1) + [COMMA] + PrintField(f2)
        == ts.timestampField + [EQUALS] + stamp + [COMMA] + ts.signatureField + [EQUALS] + sig;
  }

  lemma PrintTwo(f1: Field, f2: Field)
    ensures Print([f1, f2]) == PrintField(f1) + [COMMA] + PrintField(f2)
    ensures LastWins([f1, f2]) == map[f1.name := f1.value, f2.name := f2.value]
  {
    assert [f1, f2][..1] == [f1] && [f1][..0] == [];
    assert LastWins([f1]) == map[f1.name := f1.value];
  }

  lemma StampedTwice(name: Bytes, stamp: Bytes, sig: Bytes)
    requires CleanName(name) && Plain(stamp) && Plain(sig)
    ensures Parse(name + [EQUALS] + stamp + [COMMA] + name + [EQUALS] + sig) == map[name := sig]
  {
    hide Parse, Print, LastWins, CleanName, NoOuterSpace, Plain, CleanValue;
    var f1, f2 := Field(name, stamp), Field(name, sig);
    PlainIsClean(stamp);
    PlainIsClean(sig);
    ParsePrint([f1, f2]);
    PrintTwo(f1, f2);
    assert PrintField(f1) + [COMMA] + PrintField(f2)
        == name + [EQUALS] + stamp + [COMMA] + name + [EQUALS] + sig;
  }

  // Only clean names can be looked up

  lemma {:induction false} TrimLeftSound(s: Bytes)
    ensures SpaceAt(TrimLeft(s)) == 0 && forall c :: c in TrimLeft(s) ==> c in s
  {
    if SpaceAt(s) != 0 { TrimLeftSound(s[SpaceAt(s)..]); }
  }

  lemma {:induction false} TrimRightSound(s: Bytes)
    ensures SpaceBefore(TrimRight(s)) == 0 && TrimRight(s) <= s
  {
    if SpaceBefore(s) != 0 {
      var rest := s[..|s| - SpaceBefore(s)];
      TrimRightSound(rest);
      assert rest <= s;
    }
  }

  lemma SpaceAtPrefix(p: Bytes, s: Bytes)
    requires p <= s && SpaceAt(s) == 0
    ensures SpaceAt(p) == 0
  {}

  lemma TrimSound(s: Bytes)
    ensures NoOuterSpace(Trim(s)) && forall c :: c in Trim(s) ==> c in s
  {
    hide SpaceAt, SpaceBefore, TrimLeft, TrimRight;
    TrimLeftSound(s);
    TrimRightSound(TrimLeft(s));
    SpaceAtPrefix(Trim(s), TrimLeft(s));
  }

  lemma {:induction false} PartsFree(s: Bytes, sep: byte)
    ensures forall p :: p in Split(s, sep) ==> sep !in p
    decreases |s|
  {
    var i := IndexOf(s, sep);
    if i == |s| {
      assert s[..i] == s;
    } else {
      PartsFree(s[i + 1..], sep);
    }
  }

  lemma AssignClean(fields: Fields, part: Bytes)
    requires COMMA !in part && forall name :: name in fields ==> CleanName(name)
    ensures forall name :: name in Assign(fields, part) ==> CleanName(name)
  {
    hide Trim, NoOuterSpace;
    var i := IndexOf(part, EQUALS);
    if i < |part| { TrimSound(part[..i]); }
  }

  lemma {:induction false} CollectClean(parts: seq<Bytes>)
    requires forall p :: p in parts ==> COMMA !in p
    ensures forall name :: name in Collect(parts) ==> CleanName(name)
  {
    hide Assign, CleanName;
    if parts != [] {
      CollectClean(parts[..|parts| - 1]);
      AssignClean(Collect(parts[..|parts| - 1]), parts[|parts| - 1]);
    }
  }

  /** Whatever a header holds, the names parsed from it hold no comma, no '=' and no outer space. */
  lemma ParsedNamesClean(raw: Bytes)
    ensures forall name :: name in Parse(raw) ==> CleanName(name)
  {
    hide Split, Collect, CleanName;
    PartsFree(raw, COMMA);
    CollectClean(Split(raw, COMMA));
  }

  // Sign, then Verify

  /** With one name for both fields the signature is read as the timestamp: it must be a number within tolerance, and
      the hash over it must be the hash over the true timestamp. */
  ghost predicate SelfStamped(mac: Mac, s: Scheme, sig: Bytes, m: Bytes, body: Bytes, secret: Bytes, now: nat)
    requires s.Hmac? && s.timestamp.Some?
  {
    match ParseInt(sig)
    case None => false
    case Some(t) => Distance(now, t) <= s.timestamp.value.tolerance && mac(s.algorithm, secret, sig + [DOT] + body) == m
  }

  /** When a stamped signature made at `signedAt` is accepted at `now`. */
  ghost predicate StampAccepted(mac: Mac, s: Scheme, body: Bytes, secret: Bytes, signedAt: nat, now: nat)
    requires s.Hmac? && s.timestamp.Some?
  {
    var ts := s.timestamp.value;
    var m := mac(s.algorithm, secret, Decimal(signedAt) + [DOT] + body);
    && CleanName(ts.timestampField) && CleanName(ts.signatureField) && m != []
    && (if ts.timestampField != ts.signatureField then -ts.tolerance <= now - signedAt <= ts.tolerance
        else SelfStamped(mac, s, Encode(s.encoding, m), m, body, secret, now))
  }

  lemma UncleanNames(mac: Mac, s: Scheme, raw: Bytes, body: Bytes, secret: Bytes, now: int)
    requires s.Hmac? && s.timestamp.Some?
    requires !CleanName(s.timestamp.value.timestampField) || !CleanName(s.timestamp.value.signatureField)
    ensures !VerifyStamped(mac, s, s.timestamp.value, Parse(raw), body, secret, now)
  {
    hide Parse, CleanName, Decode, ParseInt, Distance;
    ParsedNamesClean(raw);
  }

  lemma StampedVerifies(mac: Mac, s: Scheme, body: Bytes, secret: Bytes, signedAt: nat, now: nat)
    requires s.Hmac? && s.timestamp.Some? && signedAt <= MAX_INT64 && now <= MAX_INT64
    ensures var raw := Signed(mac, s, body, secret, signedAt).1;
            && raw != []
            && (VerifyStamped(mac, s, s.timestamp.value, Parse(raw), body, secret, now)
                <==> StampAccepted(mac, s, body, secret, signedAt, now))
  {
    hide Parse, Decode, Encode, Decimal, ParseInt, Distance, CleanName, Plain;
    var ts := s.timestamp.value;
    var stamp := Decimal(signedAt);
    var m := mac(s.algorithm, secret, stamp + [DOT] + body);
    var sig := Encode(s.encoding, m);
    var raw := Signed(mac, s, body, secret, signedAt).1;
    if !CleanName(ts.timestampField) || !CleanName(ts.signatureField) {
      UncleanNames(mac, s, raw, body, secret, now);
    } else {
      EncodedRoundTrip(s.encoding, m);
      ParseDecimal(signedAt);
      DistanceWithin(now, signedAt);
      if ts.timestampField != ts.signatureField {
        StampedParses(ts, stamp, sig);
      } else {
        StampedTwice(ts.timestampField, stamp, sig);
      }
    }
  }

  /** When a request signed at `signedAt` is accepted at `now`. */
  ghost predicate Accepted(mac: Mac, s: Scheme, body: Bytes, secret: Bytes, signedAt: nat, now: nat)
    requires !s.Unknown?
  {
    match s
    case Unchecked => true
    case Hmac(algorithm, _, _, prefix, timestamp) =>
      if timestamp.Some? then StampAccepted(mac, s, body, secret, signedAt, now)
      else prefix != [] || mac(algorithm, secret, body) != []
    case ApiKey(_, prefix) => prefix != [] || secret != []
    case BasicAuth => true
  }

  /** Sign then Verify, for every known scheme: true exactly when the condition holds. A keyed hash is never empty, so
      that leaves out a stamp outside tolerance, field names that are unclean or equal, and an API key with neither
      prefix nor secret. */
  lemma SignThenVerify(mac: Mac, canon: Canon, s: Scheme, samples: seq<Field>, body: Bytes, secret: Bytes,
                       signedAt: nat, now: nat)
    requires signedAt <= MAX_INT64 && now <= MAX_INT64
    ensures var signed := Sign(mac, canon, s, samples, body, secret, signedAt);
            if s.Unknown? then signed.Err?
            else signed.Ok? && Verify(mac, canon, s, body, signed.value, secret, now)
                               == Ok(Accepted(mac, s, body, secret, signedAt, now))
  {
    hide Parse, VerifyStamped, StampAccepted, Decode, Encode, Base64Decode, Base64Encode, Decimal;
    match s
    case Unchecked =>
    case Unknown =>
    case Hmac(algorithm, encoding, header, prefix, timestamp) =>
      if timestamp.Some? {
        StampedVerifies(mac, s, body, secret, signedAt, now);
      } else {
        var m := mac(algorithm, secret, body);
        EncodedRoundTrip(encoding, m);
        TrimPrefixOf(prefix, Encode(encoding, m));
      }
    case ApiKey(header, prefix) => TrimPrefixOf(prefix, secret);
    case BasicAuth =>
      Base64RoundTrip(secret);
      TrimPrefixOf(BASIC, Base64Encode(secret));
  }

  /** Equal field names: a signature that is not a decimal number is rejected, at any time and under any tolerance. */
  lemma EqualNamesFail(mac: Mac, canon: Canon, s: Scheme, samples: seq<Field>, body: Bytes, secret: Bytes,
                       signedAt: nat, now: nat)
    requires signedAt <= MAX_INT64 && now <= MAX_INT64
    requires s.Hmac? && s.timestamp.Some? && s.timestamp.value.timestampField == s.timestamp.value.signatureField
    requires ParseInt(Encode(s.encoding, mac(s.algorithm, secret, Decimal(signedAt) + [DOT] + body))).None?
    ensures var signed := Sign(mac, canon, s, samples, body, secret, signedAt);
            signed.Ok? && Verify(mac, canon, s, body, signed.value, secret, now) == Ok(false)
  {
    hide Sign, Verify, Encode, Decimal, ParseInt, CleanName;
    SignThenVerify(mac, canon, s, samples, body, secret, signedAt, now);
  }

  /** For instance fields "t" and "t" and a hash whose hexadecimal form is "ab": signed and verified at once,
      refused. */
  lemma EqualNamesExample(canon: Canon, header: Bytes, tolerance: int, body: Bytes, secret: Bytes)
    ensures var name: Bytes := ['t' as int];
            var s := Hmac(Sha256, Hex, header, [], Some(Timestamp(name, name, tolerance)));
            var mac: Mac := (_, _, _) => [0xAB];
            var signed := Sign(mac, canon, s, [], body, secret, 123);
            signed.Ok? && Verify(mac, canon, s, body, signed.value, secret, 123) == Ok(false)
  {
    hide Sign, Verify, Decimal;
    var name: Bytes := ['t' as int];
    var s := Hmac(Sha256, Hex, header, [], Some(Timestamp(name, name, tolerance)));
    var mac: Mac := (_, _, _) => [0xAB];
    var m: Bytes := [0xAB];
    assert m[1..] == [];
    var sig := HexEncode(m);
    assert sig == ['a' as int, 'b' as int];
    NotANumber(sig);
    EqualNamesFail(mac, canon, s, [], body, secret, 123, 123);
  }

  // What Verify refuses, for arbitrary headers

  /** The bytes a scheme's hash is taken over: the body, after the stamp found in the header and a dot if it has
      stamps. */
  function Payload(canon: Canon, s: Scheme, body: Bytes, h: Headers): Bytes
    requires s.Hmac?
  {
    if s.timestamp.None? then body
    else FieldOr(Parse(Get(canon, h, s.header)), s.timestamp.value.timestampField) + ['.' as int] + body
  }

  /** The encoded signature in the header. */
  function Provided(canon: Canon, s: Scheme, h: Headers): Bytes
    requires s.Hmac?
  {
    if s.timestamp.None? then TrimPrefix(Get(canon, h, s.header), s.prefix)
    else FieldOr(Parse(Get(canon, h, s.header)), s.timestamp.value.signatureField)
  }

  /** An accepted signature is the hash itself, whatever the header: under any other secret, body or hash function for
      which the hash is another, the same header is refused. */
  lemma OnlyItsMac(mac: Mac, mac': Mac, canon: Canon, s: Scheme, h: Headers, body: Bytes, body': Bytes,
                   secret: Bytes, secret': Bytes, now: int, now': int)
    requires s.Hmac? && Verify(mac, canon, s, body, h, secret, now) == Ok(true)
    requires mac'(s.algorithm, secret', Payload(canon, s, body', h))
          != mac(s.algorithm, secret, Payload(canon, s, body, h))
    ensures Verify(mac', canon, s, body', h, secret', now') == Ok(false)
  {
    hide Parse, Decode, ParseInt, Distance;
  }

  /** Two headers accepted for one hash carry the same bytes. */
  lemma SameSignature(mac: Mac, canon: Canon, s: Scheme, h1: Headers, h2: Headers, body: Bytes, secret: Bytes, now: int)
    requires s.Hmac? && Payload(canon, s, body, h1) == Payload(canon, s, body, h2)
    requires Verify(mac, canon, s, body, h1, secret, now) == Ok(true)
    requires Verify(mac, canon, s, body, h2, secret, now) == Ok(true)
    ensures Decode(s.encoding, Provided(canon, s, h1)) == Decode(s.encoding, Provided(canon, s, h2))
         == Some(mac(s.algorithm, secret, Payload(canon, s, body, h1)))
  {
    hide Parse, Decode, ParseInt, Distance;
  }

  /** Replay protection: a stamp that is not a number, or lies outside the tolerance, is refused whatever the
      signature. */
  lemma StaleIsRefused(mac: Mac, canon: Canon, s: Scheme, h: Headers, body: Bytes, secret: Bytes, now: nat, t: nat)
    requires s.Hmac? && s.timestamp.Some? && now <= MAX_INT64 && t <= MAX_INT64
    requires var ts := s.timestamp.value;
             var stamp := FieldOr(Parse(Get(canon, h, s.header)), ts.timestampField);
             ParseInt(stamp).None? || (ParseInt(stamp) == Some(t) && (now - t > ts.tolerance || t - now > ts.tolerance))
    ensures Verify(mac, canon, s, body, h, secret, now) == Ok(false)
  {
    hide Parse, Decode, ParseInt, Get, Distance, Wrap64;
    DistanceWithin(now, t);
  }

  /** A header accepted as an API key or as basic credentials fits one secret only. */
  lemma OnlyItsSecret(mac: Mac, canon: Canon, s: Scheme, h: Headers, body: Bytes, body': Bytes,
                      secret: Bytes, secret': Bytes, now: int, now': int)
    requires (s.ApiKey? || s.BasicAuth?) && Verify(mac, canon, s, body, h, secret, now) == Ok(true) && secret' != secret
    ensures Verify(mac, canon, s, body', h, secret', now') == Ok(false)
  {
    hide Base64Decode;
  }

  /** What an accepted API key or basic header holds: the prefix and the secret, or "Basic " and its base64 form. A key
      without its prefix is accepted as well. */
  lemma AcceptedSecret(mac: Mac, canon: Canon, s: Scheme, h: Headers, body: Bytes, secret: Bytes, now: int)
    requires (s.ApiKey? || s.BasicAuth?) && Verify(mac, canon, s, body, h, secret, now) == Ok(true)
    ensures s.ApiKey? ==>
      var provided := Get(canon, h, s.header);
      provided != [] && (provided == s.prefix + secret || provided == secret)
    ensures s.BasicAuth? ==>
      exists x :: Get(canon, h, Ascii("Authorization")) == Ascii("Basic ") + x && Base64Decode(x) == Some(secret)
  {
    hide Base64Decode;
    if s.ApiKey? {
      var provided := Get(canon, h, s.header);
      if s.prefix <= provided { assert provided == s.prefix + provided[|s.prefix|..]; }
    } else {
      BasicNames();
      var auth := Get(canon, h, AUTHORIZATION);
      assert auth == BASIC + auth[|BASIC|..];
    }
  }

  function Ascii(s: string): Bytes
  {
    seq(|s|, i requires 0 <= i < |s| => if s[i] as int < 128 then s[i] as int else 0)
  }

  lemma BasicNames()
    ensures AUTHORIZATION == Ascii("Authorization") && BASIC == Ascii("Basic ")
  {}

  /** Without its header a request is refused, unless the scheme checks nothing; an unknown scheme is an error. */
  lemma NoHeaderIsRefused(mac: Mac, canon: Canon, s: Scheme, h: Headers, body: Bytes, secret: Bytes, now: int)
    requires s.Hmac? || s.ApiKey? ==> canon(s.header) !in h
    requires s.BasicAuth? ==> canon(Ascii("Authorization")) !in h
    ensures Verify(mac, canon, s, body, h, secret, now)
         == if s.Unknown? then Err else Ok(s.Unchecked?)
  {
    BasicNames();
  }

  /** Of several values of one header the first counts, whatever the spelling of its name. */
  lemma GetsFirst(canon: Canon, h: Headers, name: Bytes, name': Bytes, value: Bytes, more: seq<Bytes>)
    requires canon(name') == canon(name)
    ensures Get(canon, h[canon(name) := [value] + more], name') == value
    ensures Get(canon, Set(canon, h, name, value), name') == value
    ensures Get(canon, h - {canon(name)}, name') == []
  {}

  /** The subtraction of two stamps is that of 64-bit integers. */
  lemma Wrap64Is(n: int)
    ensures -0x8000_0000_0000_0000 <= Wrap64(n) < 0x8000_0000_0000_0000
    ensures (n - Wrap64(n)) % 0x1_0000_0000_0000_0000 == 0
  {}

  // What Sign writes

  /** Of sample headers with one canonical name the last one stands. */
  lemma {:induction false} SamplesLast(canon: Canon, samples: seq<Field>, i: nat)
    requires i < |samples| && forall j :: i < j < |samples| ==> canon(samples[j].name) != canon(samples[i].name)
    ensures canon(samples[i].name) in Samples(canon, samples)
    ensures Samples(canon, samples)[canon(samples[i].name)] == [samples[i].value]
  {
    if i < |samples| - 1 {
      SamplesLast(canon, samples[..|samples| - 1], i);
    }
  }

  lemma {:induction false} SamplesOnly(canon: Canon, samples: seq<Field>, name: Bytes)
    requires name in Samples(canon, samples)
    ensures exists i :: 0 <= i < |samples| && canon(samples[i].name) == name
  {
    var n := |samples| - 1;
    if canon(samples[n].name) != name { SamplesOnly(canon, samples[..n], name); }
  }

  /** The signature header, character by character, over the sample headers. */
  lemma SignWrites(mac: Mac, canon: Canon, s: Scheme, samples: seq<Field>, body: Bytes, secret: Bytes, now: nat)
    requires !s.Unknown?
    ensures var base := Samples(canon, samples);
            var signed := Sign(mac, canon, s, samples, body, secret, now);
            && signed.Ok?
            && (s.Unchecked? ==> signed.value == base)
            && (s.ApiKey? ==> signed.value == base[canon(s.header) := [s.prefix + secret]])
            && (s.BasicAuth? ==>
                  signed.value == base[canon(Ascii("Authorization")) := [Ascii("Basic ") + Base64Encode(secret)]])
            && (s.Hmac? && s.timestamp.None? ==>
                  signed.value
                  == base[canon(s.header) := [s.prefix + Encode(s.encoding, mac(s.algorithm, secret, body))]])
            && (s.Hmac? && s.timestamp.Some? ==>
                  var ts := s.timestamp.value;
                  var sig := Encode(s.encoding, mac(s.algorithm, secret, Decimal(now) + ['.' as int] + body));
                  signed.value == base[canon(s.header) :=
                    [ts.timestampField + ['=' as int] + Decimal(now) + [',' as int]
                     + ts.signatureField + ['=' as int] + sig]])
  {
    BasicNames();
  }

  /** Extra parts of other names, in any header whatever, never change a verdict. */
  lemma ExtraFieldsIgnored(mac: Mac, canon: Canon, s: Scheme, body: Bytes, h: Headers, secret: Bytes, now: int,
                           a: Bytes, x: Bytes, b: Bytes)
    requires s.Hmac? && s.timestamp.Some? && COMMA !in x
    requires NameOf(x) != Some(s.timestamp.value.timestampField) && NameOf(x) != Some(s.timestamp.value.signatureField)
    ensures Verify(mac, canon, s, body, Set(canon, h, s.header, a + [COMMA] + x + [COMMA] + b), secret, now)
         == Verify(mac, canon, s, body, Set(canon, h, s.header, a + [COMMA] + b), secret, now)
  {
    hide Parse, Decode, ParseInt, Distance;
    ExtraField(a, x, b, s.timestamp.value.timestampField);
    ExtraField(a, x, b, s.timestamp.value.signatureField);
  }
}
