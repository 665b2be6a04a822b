/**
 The text of entity keys: a kind, a colon, and the parts in unpadded base64url (RFC 4648, section 5)
 joined by dots.
 */
module IdentityEncoding {
  import opened Common
  import opened IdentityState
  import opened IdentityMerge
  import opened IdentityKeys

  // ---------------------------------------------------------------------------------------
  // base64url
  // ---------------------------------------------------------------------------------------

  function Digit(v: nat): char
    requires v < 64
  {
    if v < 26 then 'A' + v as char
    else if v < 52 then 'a' + (v - 26) as char
    else if v < 62 then '0' + (v - 52) as char
    else if v == 62 then '-'
    else '_'
  }

  function Value(c: char): nat {
    if 'A' <= c <= 'Z' then (c - 'A') as int
    else if 'a' <= c <= 'z' then (c - 'a') as int + 26
    else if '0' <= c <= '9' then (c - '0') as int + 52
    else if c == '-' then 62
    else 63
  }

  lemma DigitValue(v: nat)
    requires v < 64
    ensures Value(Digit(v)) == v && Digit(v) != '.' && Digit(v) != ':'
  {
  }

  function Encode(b: seq<Byte>): string {
    if |b| == 0 then ""
    else if |b| == 1 then [Digit(b[0] / 4), Digit(b[0] % 4 * 16)]
    else if |b| == 2 then [Digit(b[0] / 4), Digit(b[0] % 4 * 16 + b[1] / 16), Digit(b[1] % 16 * 4)]
    else
      Group(b[0], b[1], b[2]) + Encode(b[3..])
  }

  function Group(a: Byte, b: Byte, c: Byte): string {
    [Digit(a / 4), Digit(a % 4 * 16 + b / 16), Digit(b % 16 * 4 + c / 64), Digit(c % 64)]
  }

  /** Reads what Encode writes. */
  function Decode(s: string): seq<int> {
    if |s| < 2 then []
    else if |s| == 2 then [Value(s[0]) * 4 + Value(s[1]) / 16]
    else if |s| == 3 then [Value(s[0]) * 4 + Value(s[1]) / 16, Value(s[1]) % 16 * 16 + Value(s[2]) / 4]
    else
      [Value(s[0]) * 4 + Value(s[1]) / 16, Value(s[1]) % 16 * 16 + Value(s[2]) / 4, Value(s[2]) % 4 * 64 + Value(s[3])]
      + Decode(s[4..])
  }

  lemma Sextets(a: Byte, b: Byte, c: Byte)
    ensures a / 4 < 64 && a % 4 * 16 + b / 16 < 64 && b % 16 * 4 + c / 64 < 64 && c % 64 < 64
    ensures a / 4 * 4 + (a % 4 * 16 + b / 16) / 16 == a
    ensures (a % 4 * 16 + b / 16) % 16 * 16 + (b % 16 * 4 + c / 64) / 4 == b
    ensures (b % 16 * 4 + c / 64) % 4 * 64 + c % 64 == c
  {
  }

  lemma SextetsOfOne(a: Byte)
    ensures a / 4 < 64 && a % 4 * 16 < 64 && a / 4 * 4 + a % 4 * 16 / 16 == a
  {
  }

  lemma SextetsOfTwo(a: Byte, b: Byte)
    ensures a / 4 < 64 && a % 4 * 16 + b / 16 < 64 && b % 16 * 4 < 64
    ensures a / 4 * 4 + (a % 4 * 16 + b / 16) / 16 == a
    ensures (a % 4 * 16 + b / 16) % 16 * 16 + b % 16 * 4 / 4 == b
  {
    Sextets(a, b, 0);
  }

  lemma GroupDecodes(a: Byte, b: Byte, c: Byte, rest: string)
    ensures Decode(Group(a, b, c) + rest) == [a, b, c] + Decode(rest)
  {
    Sextets(a, b, c);
    DigitValue(a / 4);
    DigitValue(a % 4 * 16 + b / 16);
    DigitValue(b % 16 * 4 + c / 64);
    DigitValue(c % 64);
    DecodeFour(Group(a, b, c)[0], Group(a, b, c)[1], Group(a, b, c)[2], Group(a, b, c)[3], rest);
  }

  lemma DecodeFour(a: char, b: char, c: char, d: char, rest: string)
    ensures Decode([a, b, c, d] + rest)
            == [Value(a) * 4 + Value(b) / 16, Value(b) % 16 * 16 + Value(c) / 4,
                Value(c) % 4 * 64 + Value(d)] + Decode(rest)
  {
    assert ([a, b, c, d] + rest)[4..] == rest;
  }

  lemma OneDecodes(a: Byte)
    ensures Decode(Encode([a])) == [a]
  {
    SextetsOfOne(a);
    DigitValue(a / 4);
    DigitValue(a % 4 * 16);
    assert Encode([a]) == [Digit(a / 4), Digit(a % 4 * 16)];
  }

  lemma TwoDecode(a: Byte, b: Byte)
    ensures Decode(Encode([a, b])) == [a, b]
  {
    SextetsOfTwo(a, b);
    DigitValue(a / 4);
    DigitValue(a % 4 * 16 + b / 16);
    DigitValue(b % 16 * 4);
    EncodeTwo(a, b);
    DecodeThree(Digit(a / 4), Digit(a % 4 * 16 + b / 16), Digit(b % 16 * 4));
  }

  lemma EncodeTwo(a: Byte, b: Byte)
    ensures Encode([a, b]) == [Digit(a / 4), Digit(a % 4 * 16 + b / 16), Digit(b % 16 * 4)]
  {
  }

  lemma DecodeThree(a: char, b: char, c: char)
    ensures Decode([a, b, c]) == [Value(a) * 4 + Value(b) / 16, Value(b) % 16 * 16 + Value(c) / 4]
  {
  }

  lemma {:induction false} DecodeEncode(b: seq<Byte>)
    ensures Decode(Encode(b)) == b
  {
    if |b| == 0 {
    } else if |b| == 1 {
      OneDecodes(b[0]);
      assert b == [b[0]];
    } else if |b| == 2 {
      TwoDecode(b[0], b[1]);
      assert b == [b[0], b[1]];
    } else {
      DecodeEncode(b[3..]);
      GroupDecodes(b[0], b[1], b[2], Encode(b[3..]));
      assert b == [b[0], b[1], b[2]] + b[3..];
    }
  }

  lemma {:induction false} EncodeAlphabet(b: seq<Byte>)
    ensures '.' !in Encode(b) && ':' !in Encode(b)
  {
    if |b| > 2 {
      EncodeAlphabet(b[3..]);
    }
  }

  lemma EncodeInjective(a: seq<Byte>, b: seq<Byte>)
    requires Encode(a) == Encode(b)
    ensures a == b
  {
    DecodeEncode(a);
    DecodeEncode(b);
  }

  // ---------------------------------------------------------------------------------------
  // Joining parts
  // ---------------------------------------------------------------------------------------

  lemma {:induction false} SplitPart(part: string, rest: string)
    requires '.' !in part
    ensures SplitDots(part) == [part]
    ensures SplitDots(part + "." + rest) == [part] + SplitDots(rest)
  {
    var text := part + "." + rest;
    if part == "" {
      assert text[0] == '.' && text[1..] == rest;
      assert SplitDots("") == [""];
    } else {
      SplitPart(part[1..], rest);
      assert part == [part[0]] + part[1..];
      assert text[0] == part[0] && text[1..] == part[1..] + "." + rest;
    }
  }

  lemma {:induction false} SplitJoin(parts: seq<string>)
    requires parts != [] && forall p :: p in parts ==> '.' !in p
    ensures SplitDots(JoinDots(parts)) == parts
  {
    if |parts| == 1 {
      SplitPart(parts[0], "");
    } else {
      SplitPart(parts[0], JoinDots(parts[1..]));
      SplitJoin(parts[1..]);
    }
  }

  // ---------------------------------------------------------------------------------------
  // Keys
  // ---------------------------------------------------------------------------------------

  function EncodeAll(parts: seq<seq<Byte>>): seq<string> {
    seq(|parts|, i requires 0 <= i < |parts| => Encode(parts[i]))
  }

  function EncodedKey(kind: string, parts: seq<seq<Byte>>): string {
    kind + ":" + JoinDots(EncodeAll(parts))
  }

  lemma EncodeAllAlphabet(parts: seq<seq<Byte>>)
    ensures forall p :: p in EncodeAll(parts) ==> '.' !in p
  {
    forall p | p in EncodeAll(parts)
      ensures '.' !in p
    {
      var i :| 0 <= i < |parts| && p == EncodeAll(parts)[i];
      EncodeAlphabet(parts[i]);
    }
  }

  lemma EncodeAllInjective(a: seq<seq<Byte>>, b: seq<seq<Byte>>)
    requires EncodeAll(a) == EncodeAll(b)
    ensures a == b
  {
    assert |a| == |EncodeAll(a)| == |EncodeAll(b)| == |b|;
    forall i | 0 <= i < |a|
      ensures a[i] == b[i]
    {
      assert Encode(a[i]) == EncodeAll(a)[i] == EncodeAll(b)[i] == Encode(b[i]);
      EncodeInjective(a[i], b[i]);
    }
  }

  /** A colon-free kind ends at the first colon. */
  lemma {:induction false} KindEnds(a: string, b: string, x: string, y: string)
    requires ':' !in a && ':' !in b && a + ":" + x == b + ":" + y
    ensures a == b && x == y
  {
    var (s, t) := (a + ":" + x, b + ":" + y);
    if a == "" || b == "" {
      assert s[0] == t[0] && a == "" && b == "";
      assert s[1..] == x && t[1..] == y;
    } else {
      assert s[1..] == a[1..] + ":" + x && t[1..] == b[1..] + ":" + y;
      KindEnds(a[1..], b[1..], x, y);
      assert a[0] == s[0] == t[0] == b[0];
      assert a == [a[0]] + a[1..] && b == [b[0]] + b[1..];
    }
  }

  /** Keys of the same text have the same kind and the same parts. */
  lemma EncodedKeyInjective(kind: string, parts: seq<seq<Byte>>, kind': string, parts': seq<seq<Byte>>)
    requires ':' !in kind && ':' !in kind' && parts != [] && parts' != []
    requires EncodedKey(kind, parts) == EncodedKey(kind', parts')
    ensures kind == kind' && parts == parts'
  {
    KindEnds(kind, kind', JoinDots(EncodeAll(parts)), JoinDots(EncodeAll(parts')));
    EncodeAllAlphabet(parts);
    EncodeAllAlphabet(parts');
    SplitJoin(EncodeAll(parts));
    SplitJoin(EncodeAll(parts'));
    EncodeAllInjective(parts, parts');
  }

  // ---------------------------------------------------------------------------------------
  // The keys of the model
  // ---------------------------------------------------------------------------------------

  /** UTF-8 and the JSON printer, of which only injectivity matters. */
  datatype Texts = Texts(utf8: string -> seq<Byte>, json: Json -> string)

  ghost predicate Faithful(t: Texts) {
    && (forall a, b :: t.utf8(a) == t.utf8(b) ==> a == b)
    && (forall a, b :: t.json(a) == t.json(b) ==> a == b)
  }

  function Kind(k: Key): string {
    match k
    case Cookie(_) => "cookie"
    case LegacyCookie(_) => "cookie-legacy"
    case Local(_, _) => "local"
    case IdbDb(_, _) => "idb-db"
    case IdbStore(_, _, _) => "idb-store"
    case IdbRecord(_, _, _, _) => "idb-record"
    case OriginDelete(_) => "origin-delete"
    case Other(_) => ""
  }

  function Parts(t: Texts, k: Key): seq<string> {
    match k
    case Cookie(segments) => segments
    case LegacyCookie(segments) => segments
    case Local(origin, name) => [origin, name]
    case IdbDb(origin, db) => [origin, db]
    case IdbStore(origin, db, store) => [origin, db, store]
    case IdbRecord(origin, db, store, identity) => [origin, db, store, t.json(identity)]
    case OriginDelete(origin) => [origin]
    case Other(text) => [text]
  }

  function Bytes(t: Texts, parts: seq<string>): seq<seq<Byte>> {
    seq(|parts|, i requires 0 <= i < |parts| => t.utf8(parts[i]))
  }

  function KeyText(t: Texts, k: Key): string {
    if k.Other? then k.text else EncodedKey(Kind(k), Bytes(t, Parts(t, k)))
  }

  /** A key with at least one part and of a known kind. */
  predicate IsProper(k: Key) {
    !k.Other? && ((k.Cookie? || k.LegacyCookie?) ==> k.segments != [])
  }

  lemma BytesInjective(t: Texts, a: seq<string>, b: seq<string>)
    requires Faithful(t) && Bytes(t, a) == Bytes(t, b)
    ensures a == b
  {
    assert |a| == |Bytes(t, a)| == |Bytes(t, b)| == |b|;
    forall i | 0 <= i < |a|
      ensures a[i] == b[i]
    {
      assert t.utf8(a[i]) == Bytes(t, a)[i] == Bytes(t, b)[i] == t.utf8(b[i]);
    }
  }

  lemma SameParts(t: Texts, a: Key, b: Key)
    requires Faithful(t) && IsProper(a) && IsProper(b) && Kind(a) == Kind(b) && Parts(t, a) == Parts(t, b)
    ensures a == b
  {
    KindsDiffer(a, b);
    var (p, q) := (Parts(t, a), Parts(t, b));
    if a.IdbRecord? {
      assert p[0] == q[0] && p[1] == q[1] && p[2] == q[2] && p[3] == q[3];
    } else if a.IdbStore? {
      assert p[0] == q[0] && p[1] == q[1] && p[2] == q[2];
    } else if a.Local? || a.IdbDb? {
      assert p[0] == q[0] && p[1] == q[1];
    } else if a.OriginDelete? {
      assert p[0] == q[0];
    }
  }

  lemma KindsDiffer(a: Key, b: Key)
    requires Kind(a) == Kind(b)
    ensures a.Cookie? == b.Cookie? && a.LegacyCookie? == b.LegacyCookie? && a.Local? == b.Local? && a.IdbDb? == b.IdbDb?
    ensures a.IdbStore? == b.IdbStore? && a.IdbRecord? == b.IdbRecord? && a.OriginDelete? == b.OriginDelete?
  {
    assert |"cookie"| == |"idb-db"| == 6 && |"local"| == 5 && |"idb-store"| == 9 && |"idb-record"| == 10;
    assert |"cookie-legacy"| == |"origin-delete"| == 13 && |""| == 0;
    assert "cookie"[0] != "idb-db"[0] && "cookie-legacy"[0] != "origin-delete"[0];
  }

  lemma KindHasNoColon(k: Key)
    ensures ':' !in Kind(k)
  {
  }

  /** Two keys of the model with the same text are the same key. */
  lemma KeyTextInjective(t: Texts, a: Key, b: Key)
    requires Faithful(t) && IsProper(a) && IsProper(b) && KeyText(t, a) == KeyText(t, b)
    ensures a == b
  {
    KindHasNoColon(a);
    KindHasNoColon(b);
    EncodedKeyInjective(Kind(a), Bytes(t, Parts(t, a)), Kind(b), Bytes(t, Parts(t, b)));
    BytesInjective(t, Parts(t, a), Parts(t, b));
    SameParts(t, a, b);
  }

  // ---------------------------------------------------------------------------------------
  // The fence computed on text
  // ---------------------------------------------------------------------------------------

  const COOKIE_PREFIX := "cookie:"

  /** Strips the prefix, keeps the first three dot-separated parts. */
  function LegacyFenceText(text: string): Option<string> {
    if COOKIE_PREFIX <= text
    then Some("cookie-legacy:" + JoinDots(FirstThree(SplitDots(text[|COOKIE_PREFIX|..]))))
    else None
  }

  lemma PrefixEndsKind(kind: string, rest: string)
    requires ':' !in kind
    ensures COOKIE_PREFIX <= kind + ":" + rest <==> kind == "cookie"
  {
    var text := kind + ":" + rest;
    if COOKIE_PREFIX <= text {
      var tail := text[|COOKIE_PREFIX|..];
      assert text == COOKIE_PREFIX + tail == "cookie" + ":" + tail;
      KindEnds(kind, "cookie", rest, tail);
    }
  }

  lemma FirstThreeEncoded(parts: seq<string>, t: Texts)
    ensures FirstThree(EncodeAll(Bytes(t, parts))) == EncodeAll(Bytes(t, FirstThree(parts)))
  {
  }

  /** Computing the fence on the text of a key gives the text of the fence of the key. */
  lemma LegacyFenceOfText(t: Texts, k: Key)
    requires IsProper(k)
    ensures LegacyFenceText(KeyText(t, k)) == match LegacyFence(k)
                                              case Some(fence) => Some(KeyText(t, fence))
                                              case None => None
  {
    var encoded := EncodeAll(Bytes(t, Parts(t, k)));
    KindHasNoColon(k);
    PrefixEndsKind(Kind(k), JoinDots(encoded));
    if Kind(k) == "cookie" {
      KindsDiffer(k, Cookie([""]));
      var text := KeyText(t, k);
      assert text == COOKIE_PREFIX + JoinDots(encoded);
      assert text[|COOKIE_PREFIX|..] == JoinDots(encoded);
      EncodeAllAlphabet(Bytes(t, k.segments));
      SplitJoin(encoded);
      FirstThreeEncoded(k.segments, t);
      assert "cookie-legacy:" == "cookie-legacy" + ":";
    }
  }

  // ---------------------------------------------------------------------------------------
  // The texts themselves
  // ---------------------------------------------------------------------------------------

  /** The alphabet of RFC 4648, section 5. */
  lemma DigitExactly(v: nat)
    requires v < 64
    ensures v < 26 ==> Digit(v) == LETTERS[v]
    ensures 26 <= v < 52 ==> Digit(v) == SMALL_LETTERS[v - 26]
    ensures 52 <= v < 62 ==> Digit(v) == DIGITS[v - 52]
    ensures v >= 62 ==> Digit(v) == "-_"[v - 62]
  {
  }

  lemma JoinTwo(a: string, b: string)
    ensures JoinDots([a, b]) == a + "." + b
  {
    assert [a, b][1..] == [b];
  }

  lemma JoinThree(a: string, b: string, c: string)
    ensures JoinDots([a, b, c]) == a + "." + (b + "." + c)
  {
    assert [a, b, c][1..] == [b, c];
    JoinTwo(b, c);
  }

  lemma JoinFour(a: string, b: string, c: string, d: string)
    ensures JoinDots([a, b, c, d]) == a + "." + (b + "." + (c + "." + d))
  {
    assert [a, b, c, d][1..] == [b, c, d];
    JoinThree(b, c, d);
  }

  function Text64(t: Texts, part: string): string {
    Encode(t.utf8(part))
  }

  lemma OneText(t: Texts, kind: string, o: string)
    ensures EncodedKey(kind, Bytes(t, [o])) == kind + ":" + Text64(t, o)
  {
    assert EncodeAll(Bytes(t, [o])) == [Text64(t, o)];
  }

  lemma TwoTexts(t: Texts, kind: string, o: string, d: string)
    ensures EncodedKey(kind, Bytes(t, [o, d])) == kind + ":" + (Text64(t, o) + "." + Text64(t, d))
  {
    assert EncodeAll(Bytes(t, [o, d])) == [Text64(t, o), Text64(t, d)];
    JoinTwo(Text64(t, o), Text64(t, d));
  }

  lemma ThreeTexts(t: Texts, kind: string, o: string, d: string, s: string)
    ensures EncodedKey(kind, Bytes(t, [o, d, s]))
            == kind + ":" + (Text64(t, o) + "." + (Text64(t, d) + "." + Text64(t, s)))
  {
    assert EncodeAll(Bytes(t, [o, d, s])) == [Text64(t, o), Text64(t, d), Text64(t, s)];
    JoinThree(Text64(t, o), Text64(t, d), Text64(t, s));
  }

  lemma FourTexts(t: Texts, kind: string, o: string, d: string, s: string, i: string)
    ensures EncodedKey(kind, Bytes(t, [o, d, s, i]))
            == kind + ":" + (Text64(t, o) + "." + (Text64(t, d) + "." + (Text64(t, s) + "." + Text64(t, i))))
  {
    assert EncodeAll(Bytes(t, [o, d, s, i])) == [Text64(t, o), Text64(t, d), Text64(t, s), Text64(t, i)];
    JoinFour(Text64(t, o), Text64(t, d), Text64(t, s), Text64(t, i));
  }

  /** A key's text is its kind and its parts from the outermost in. */
  lemma KeyTextExactly(t: Texts, o: string, d: string, s: string, identity: Json)
    ensures KeyText(t, OriginDelete(o)) == "origin-delete" + ":" + Text64(t, o)
    ensures KeyText(t, Local(o, d)) == "local" + ":" + (Text64(t, o) + "." + Text64(t, d))
    ensures KeyText(t, IdbDb(o, d)) == "idb-db" + ":" + (Text64(t, o) + "." + Text64(t, d))
    ensures KeyText(t, IdbStore(o, d, s))
            == "idb-store" + ":" + (Text64(t, o) + "." + (Text64(t, d) + "." + Text64(t, s)))
    ensures KeyText(t, Cookie([o, d, s])) == "cookie" + ":" + (Text64(t, o) + "." + (Text64(t, d) + "." + Text64(t, s)))
    ensures KeyText(t, IdbRecord(o, d, s, identity))
            == "idb-record" + ":" + (Text64(t, o) + "." + (Text64(t, d) + "." + (Text64(t, s) + "."
               + Text64(t, t.json(identity)))))
  {
    OneText(t, "origin-delete", o);
    TwoTexts(t, "local", o, d);
    TwoTexts(t, "idb-db", o, d);
    ThreeTexts(t, "idb-store", o, d, s);
    ThreeTexts(t, "cookie", o, d, s);
    FourTexts(t, "idb-record", o, d, s, t.json(identity));
  }
}
