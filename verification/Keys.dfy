/** Derivation of an event's dedupe key. A parsed body is a JSON tree with numbers kept as text; the hash is
    arbitrary. */
module Keys {
  import opened Options
  import opened Codec
  import opened Signature

  datatype Json =
    | Null
    | Bool(value: bool)
    | Number(text: Bytes)
    | Text(text: Bytes)
    | Object(members: map<Bytes, Json>)
    | Array(items: seq<Json>)

  datatype Strategy = Exact | Field(path: Option<Bytes>) | Other

  type Hash = Bytes -> Bytes

  const DOLLAR: byte := '$' as int
  const MAX_KEY_LEN := 256

  /** The names along a dotted path; a leading "$" and a leading "." do not count. */
  function Segments(path: Bytes): seq<Bytes> {
    Split(TrimPrefix(TrimPrefix(path, [DOLLAR]), [DOT]), DOT)
  }

  /** The value reached by following names through objects. */
  function Descend(doc: Json, names: seq<Bytes>): Option<Json> {
    if names == [] then Some(doc)
    else if doc.Object? && names[0] in doc.members then Descend(doc.members[names[0]], names[1..])
    else None
  }

  /** The text of a value that can identify an event. */
  function Identity(v: Json): Option<Bytes> {
    match v
    case Text(text) => if text == [] then None else Some(text)
    case Number(text) => Some(text)
    case _ => None
  }

  function FieldAt(doc: Json, names: seq<Bytes>): Option<Bytes> {
    match Descend(doc, names)
    case None => None
    case Some(v) => Identity(v)
  }

  /** The walk, one segment a turn. */
  method JsonFieldValue(doc: Option<Json>, path: Bytes) returns (r: Option<Bytes>)
    ensures r == if doc.None? || Segments(path)[..1] == [[]] then None else FieldAt(doc.value, Segments(path))
    ensures r.Some? <==>
      && doc.Some? && Segments(path)[..1] != [[]]
      && (exists text :: Descend(doc.value, Segments(path)) == Some(Number(text))
                         || (text != [] && Descend(doc.value, Segments(path)) == Some(Text(text))))
  {
    var segments := Segments(path);
    if |segments| == 0 || segments[0] == [] { return None; }
    if doc.None? { return None; }
    var current := doc.value;
    for i := 0 to |segments|
      invariant Descend(doc.value, segments) == Descend(current, segments[i..])
    {
      if !current.Object? { return None; }
      if segments[i] !in current.members { return None; }
      current := current.members[segments[i]];
      assert segments[i..][1..] == segments[i + 1..];
    }
    match current
    case Text(text) => return if text == [] then None else Some(text);
    case Number(text) => return Some(text);
    case _ => return None;
  }

  // Every field can be named

  function Join(names: seq<Bytes>): Bytes {
    if names == [] then [] else if |names| == 1 then names[0] else names[0] + [DOT] + Join(names[1..])
  }

  /** The path that names a field. */
  function PathTo(names: seq<Bytes>): Bytes { [DOLLAR, DOT] + Join(names) }

  lemma {:induction false} SplitJoin(names: seq<Bytes>)
    requires names != [] && forall i :: 0 <= i < |names| ==> DOT !in names[i]
    ensures Split(Join(names), DOT) == names
  {
    if |names| == 1 {
      SplitNone(names[0], DOT);
    } else {
      SplitJoin(names[1..]);
      SplitFirst(names[0], Join(names[1..]), DOT);
    }
  }

  /** A path written from dot-free names, any of them, reads back as those names. */
  lemma SegmentsOfPath(names: seq<Bytes>)
    requires names != [] && forall i :: 0 <= i < |names| ==> DOT !in names[i]
    ensures Segments(PathTo(names)) == names
  {
    SplitJoin(names);
    var rest := [DOT] + Join(names);
    assert PathTo(names) == [DOLLAR] + rest;
    TrimPrefixOf([DOLLAR], rest);
    TrimPrefixOf([DOT], Join(names));
  }

  /** The leading "$." may be left out, and so may either of its characters. */
  lemma SegmentsOfPlainPath(names: seq<Bytes>)
    requires names != [] && forall i :: 0 <= i < |names| ==> DOT !in names[i]
    requires names[0] != [] && names[0][0] != DOLLAR
    ensures Segments(Join(names)) == names
    ensures Segments([DOT] + Join(names)) == names && Segments([DOLLAR] + Join(names)) == names
  {
    SplitJoin(names);
    var p := Join(names);
    assert p[0] == names[0][0] && names[0][0] in names[0];
    hide Join, Split;
    TrimPrefixOf([DOLLAR], p);
    TrimPrefixOf([DOT], p);
    assert !([DOLLAR] <= p) && !([DOT] <= p);
  }

  // Long values are hashed

  function Shorten(hash: Hash, value: Bytes): Bytes {
    if |value| <= MAX_KEY_LEN then value else HexEncode(hash(value))
  }

  function DedupeKey(hash: Hash, enabled: bool, strategy: Strategy, body: Bytes, parsed: Option<Json>): Option<Bytes> {
    if !enabled then None
    else
      match strategy
      case Exact => Some(HexEncode(hash(body)))
      case Other => None
      case Field(path) =>
        if parsed.None? || path.None? || Segments(path.value)[..1] == [[]] then None
        else
          match FieldAt(parsed.value, Segments(path.value))
          case None => None
          case Some(text) => Some(Shorten(hash, text))
  }

  lemma HexInjective(a: Bytes, b: Bytes)
    requires HexEncode(a) == HexEncode(b)
    ensures a == b
  {
    HexRoundTrip(a);
    HexRoundTrip(b);
  }

  /** Two values that become one key: equal, both too long with one hash, or one too long and the other its digest in
      hexadecimal. */
  ghost predicate Merged(hash: Hash, a: Bytes, b: Bytes) {
    || a == b
    || (|a| > 256 && |b| > 256 && hash(a) == hash(b))
    || IsDigestOf(hash, a, b)
    || IsDigestOf(hash, b, a)
  }

  ghost predicate IsDigestOf(hash: Hash, short: Bytes, long: Bytes) {
    |short| <= 256 < |long| && short == HexEncode(hash(long))
  }

  lemma ShortenMerges(hash: Hash, a: Bytes, b: Bytes)
    ensures Shorten(hash, a) == Shorten(hash, b) <==> Merged(hash, a, b)
  {
    if |a| > MAX_KEY_LEN && |b| > MAX_KEY_LEN && Shorten(hash, a) == Shorten(hash, b) {
      HexInjective(hash(a), hash(b));
    }
  }

  /** Under the exact strategy two events share a key if and only if their bodies have one hash. */
  lemma ExactMeansSameHash(hash: Hash, body1: Bytes, body2: Bytes, parsed1: Option<Json>, parsed2: Option<Json>)
    ensures DedupeKey(hash, true, Exact, body1, parsed1) == DedupeKey(hash, true, Exact, body2, parsed2)
       <==> hash(body1) == hash(body2)
  {
    if HexEncode(hash(body1)) == HexEncode(hash(body2)) { HexInjective(hash(body1), hash(body2)); }
  }

  /** What a field holds that can identify an event: the text of a number or of a non-empty string. Nothing else counts,
      in particular no missing field, empty string, boolean, null, object or array. */
  ghost predicate Holds(doc: Json, names: seq<Bytes>, text: Bytes) {
    var v := Descend(doc, names);
    v == Some(Number(text)) || (v == Some(Text(text)) && text != [])
  }

  lemma HoldsIs(doc: Json, names: seq<Bytes>, text: Bytes)
    ensures Holds(doc, names, text) <==> FieldAt(doc, names) == Some(text)
  {}

  /** A field is reached through objects only, name by name. */
  lemma DescendInto(doc: Json, name: Bytes, names: seq<Bytes>, v: Json)
    ensures Descend(doc, []) == Some(doc)
    ensures Descend(doc, [name] + names) == Some(v) <==>
              doc.Object? && name in doc.members && Descend(doc.members[name], names) == Some(v)
  {
    assert ([name] + names)[1..] == names;
  }

  /** An event has a key exactly when deduplication is on and either the strategy is exact, or it names a field of a
      parsed body that holds an identity; the key is the hash of the body or the field's text, hashed beyond 256
      bytes. */
  lemma KeyIff(hash: Hash, enabled: bool, strategy: Strategy, body: Bytes, parsed: Option<Json>, key: Bytes)
    ensures DedupeKey(hash, enabled, strategy, body, parsed) == Some(key) <==>
      && enabled
      && ((strategy.Exact? && key == HexEncode(hash(body)))
          || (&& strategy.Field? && strategy.path.Some? && parsed.Some? && Segments(strategy.path.value)[..1] != [[]]
              && exists text :: Holds(parsed.value, Segments(strategy.path.value), text)
                                && key == if |text| <= 256 then text else HexEncode(hash(text))))
  {
    hide Segments, Holds, Descend, Identity, FieldAt;
    if strategy.Field? && strategy.path.Some? && parsed.Some? {
      var names := Segments(strategy.path.value);
      forall text ensures Holds(parsed.value, names, text) <==> FieldAt(parsed.value, names) == Some(text) {
        HoldsIs(parsed.value, names, text);
      }
    }
  }

  /** Under the field strategy, for every field that a path can name: an event has a key if and only if the field holds
      a non-empty string or a number, and two events share a key if and only if the two texts merge. */
  lemma FieldMeansSameText(hash: Hash, names: seq<Bytes>, body1: Bytes, body2: Bytes, doc1: Json, doc2: Json,
                           a: Bytes, b: Bytes)
    requires names != [] && names[0] != [] && forall i :: 0 <= i < |names| ==> DOT !in names[i]
    ensures var strategy := Strategy.Field(Some(PathTo(names)));
            var key1 := DedupeKey(hash, true, strategy, body1, Some(doc1));
            var key2 := DedupeKey(hash, true, strategy, body2, Some(doc2));
            && (key1.Some? <==> exists text :: Holds(doc1, names, text))
            && (Holds(doc1, names, a) && Holds(doc2, names, b) ==> (key1 == key2 <==> Merged(hash, a, b)))
  {
    hide Segments, PathTo, FieldAt, Shorten, Merged, Holds;
    SegmentsOfPath(names);
    HoldsIs(doc1, names, a);
    HoldsIs(doc2, names, b);
    var text := FieldAt(doc1, names);
    if text.Some? { HoldsIs(doc1, names, text.value); }
    if x :| Holds(doc1, names, x) { HoldsIs(doc1, names, x); }
    ShortenMerges(hash, a, b);
  }

  /** A string and a number with the same digits are one identity. */
  lemma TextMeetsNumber(name: Bytes, text: Bytes)
    requires text != []
    ensures FieldAt(Object(map[name := Text(text)]), [name]) == FieldAt(Object(map[name := Number(text)]), [name])
         == Some(text)
  {
    assert [name][1..] == [] && [name][0] == name;
    var text', number := Object(map[name := Text(text)]), Object(map[name := Number(text)]);
    assert Descend(text', [name]) == Descend(text'.members[name], []);
    assert Descend(number, [name]) == Descend(number.members[name], []);
  }
}
