/**
 The percent codec of attachment_protocol.rs (RFC 3986, sections 2.1 and 2.3). A string is its UTF-8
 bytes.
 */
module PercentCodec {
  import opened Common

  const PERCENT: Byte := 37

  // ---------------------------------------------------------------------------------------
  // UTF-8 (RFC 3629, section 4)
  // ---------------------------------------------------------------------------------------

  predicate IsTail(b: Byte) {
    0x80 <= b <= 0xBF
  }

  /** The length of the valid sequence that starts the bytes; 0 if there is none. */
  function SequenceLength(s: seq<Byte>): (n: nat)
    ensures n <= |s|
  {
    if s == [] then 0
    else if s[0] < 0x80 then 1
    else if 0xC2 <= s[0] <= 0xDF then if |s| >= 2 && IsTail(s[1]) then 2 else 0
    else if 0xE0 <= s[0] <= 0xEF then
      if |s| >= 3 && IsTail(s[1]) && IsTail(s[2]) && (s[0] == 0xE0 ==> s[1] >= 0xA0) && (s[0] == 0xED ==> s[1] <= 0x9F)
      then 3 else 0
    else if 0xF0 <= s[0] <= 0xF4 then
      if |s| >= 4 && IsTail(s[1]) && IsTail(s[2]) && IsTail(s[3])
         && (s[0] == 0xF0 ==> s[1] >= 0x90) && (s[0] == 0xF4 ==> s[1] <= 0x8F)
      then 4 else 0
    else 0
  }

  predicate IsUtf8(s: seq<Byte>) {
    s == [] || (SequenceLength(s) > 0 && IsUtf8(s[SequenceLength(s)..]))
  }

  // ---------------------------------------------------------------------------------------
  // Decoding
  // ---------------------------------------------------------------------------------------

  function Hex(b: Byte): (r: Option<nat>)
    ensures r.Some? ==> r.value < 16
  {
    if '0' as int <= b <= '9' as int then Some(b - '0' as int)
    else if 'a' as int <= b <= 'f' as int then Some(b - 'a' as int + 10)
    else if 'A' as int <= b <= 'F' as int then Some(b - 'A' as int + 10)
    else None
  }

  /** The byte that the triple at the start stands for, if there is one. */
  function Triple(s: seq<Byte>): (r: Option<Byte>)
    ensures r.Some? ==> |s| > 2
  {
    if |s| > 2 && s[0] == PERCENT && Hex(s[1]).Some? && Hex(s[2]).Some?
    then Some(Hex(s[1]).value * 16 + Hex(s[2]).value)
    else None
  }

  /** Triples become bytes, everything else stays. */
  function Unescape(s: seq<Byte>): seq<Byte> {
    if s == [] then []
    else
      match Triple(s)
      case Some(b) => [b] + Unescape(s[3..])
      case None => [s[0]] + Unescape(s[1..])
  }

  /** What is not UTF-8 afterwards was not meant to be unescaped. */
  function Decoded(s: seq<Byte>): seq<Byte> {
    if IsUtf8(Unescape(s)) then Unescape(s) else s
  }

  lemma TakesTriple(s: seq<Byte>, i: nat, b: Byte)
    requires i < |s| && Triple(s[i..]) == Some(b)
    ensures i + 3 <= |s| && Unescape(s[i..]) == [b] + Unescape(s[i + 3..])
  {
    assert s[i..][3..] == s[i + 3..];
  }

  lemma TakesByte(s: seq<Byte>, i: nat)
    requires i < |s| && Triple(s[i..]) == None
    ensures Unescape(s[i..]) == [s[i]] + Unescape(s[i + 1..])
  {
    assert s[i..][1..] == s[i + 1..];
  }

  lemma Extends(out: seq<Byte>, more: seq<Byte>, rest: seq<Byte>)
    ensures (out + more) + rest == out + (more + rest)
  {
  }

  method PercentDecode(input: seq<Byte>) returns (r: seq<Byte>)
    ensures r == Decoded(input)
  {
    var out: seq<Byte> := [];
    var i := 0;
    while i < |input|
      invariant i <= |input| && out + Unescape(input[i..]) == Unescape(input)
    {
      if input[i] == PERCENT && i + 2 < |input| {
        var (h, l) := (Hex(input[i + 1]), Hex(input[i + 2]));
        if h.Some? && l.Some? {
          var b: Byte := h.value * 16 + l.value;
          TakesTriple(input, i, b);
          Extends(out, [b], Unescape(input[i + 3..]));
          out := out + [b];
          i := i + 3;
          continue;
        }
      }
      TakesByte(input, i);
      Extends(out, [input[i]], Unescape(input[i + 1..]));
      out := out + [input[i]];
      i := i + 1;
    }
    assert input[i..] == [] && out + [] == out;
    r := if IsUtf8(out) then out else input;
  }

  /** Decoding is total: a string always decodes to a string. */
  lemma DecodedIsString(s: seq<Byte>)
    requires IsUtf8(s)
    ensures IsUtf8(Decoded(s))
  {
  }

  /** Without a percent sign there is nothing to decode. */
  lemma PlainDecodes(s: seq<Byte>)
    requires PERCENT !in s
    ensures Decoded(s) == s
  {
    PlainUnescapes(s);
  }

  lemma {:induction false} PlainUnescapes(s: seq<Byte>)
    requires PERCENT !in s
    ensures Unescape(s) == s
  {
    if s != [] {
      PlainUnescapes(s[1..]);
    }
  }

  // ---------------------------------------------------------------------------------------
  // Encoding
  // ---------------------------------------------------------------------------------------

  predicate IsUnreserved(b: Byte) {
    || 'A' as int <= b <= 'Z' as int
    || 'a' as int <= b <= 'z' as int
    || '0' as int <= b <= '9' as int
    || b == '-' as int || b == '_' as int || b == '.' as int || b == '~' as int
  }

  /** An upper-case hexadecimal digit. */
  function HexDigit(v: nat): Byte
    requires v < 16
  {
    if v < 10 then '0' as int + v else 'A' as int + v - 10
  }

  function EncodeByte(b: Byte): seq<Byte> {
    if IsUnreserved(b) then [b] else [PERCENT, HexDigit(b / 16), HexDigit(b % 16)]
  }

  function Encoded(s: seq<Byte>): seq<Byte> {
    if s == [] then [] else EncodeByte(s[0]) + Encoded(s[1..])
  }

  method PercentEncodePathSegment(input: seq<Byte>) returns (out: seq<Byte>)
    ensures out == Encoded(input)
  {
    out := [];
    for i := 0 to |input|
      invariant out + Encoded(input[i..]) == Encoded(input)
    {
      EncodesNext(input, i);
      var byte := input[i];
      var escaped := if IsUnreserved(byte) then [byte] else [PERCENT, HexDigit(byte / 16), HexDigit(byte % 16)];
      Extends(out, escaped, Encoded(input[i + 1..]));
      out := out + escaped;
    }
    assert input[|input|..] == [] && out + [] == out;
  }

  lemma EncodesNext(s: seq<Byte>, i: nat)
    requires i < |s|
    ensures Encoded(s[i..]) == EncodeByte(s[i]) + Encoded(s[i + 1..])
  {
    assert s[i..][1..] == s[i + 1..];
  }

  // ---------------------------------------------------------------------------------------
  // The round trip
  // ---------------------------------------------------------------------------------------

  lemma EncodeByteUnescapes(b: Byte, rest: seq<Byte>)
    ensures Unescape(EncodeByte(b) + rest) == [b] + Unescape(rest)
  {
    var s := EncodeByte(b) + rest;
    if IsUnreserved(b) {
      assert s[1..] == rest;
    } else {
      assert Hex(HexDigit(b / 16)) == Some(b / 16) && Hex(HexDigit(b % 16)) == Some(b % 16);
      assert s[3..] == rest;
    }
  }

  lemma {:induction false} EncodedUnescapes(s: seq<Byte>)
    ensures Unescape(Encoded(s)) == s
  {
    if s != [] {
      EncodeByteUnescapes(s[0], Encoded(s[1..]));
      EncodedUnescapes(s[1..]);
    }
  }

  /** Decoding an encoded string gives it back. */
  lemma RoundTrip(s: seq<Byte>)
    requires IsUtf8(s)
    ensures Decoded(Encoded(s)) == s
  {
    EncodedUnescapes(s);
  }

  /** Only strings come back: any other bytes stay encoded. */
  lemma RoundTripExactly(s: seq<Byte>)
    ensures Decoded(Encoded(s)) == s <==> IsUtf8(s)
  {
    EncodedUnescapes(s);
    EncodedIsPathSegment(s);
  }

  /** No two strings are encoded alike. */
  lemma EncodedInjective(a: seq<Byte>, b: seq<Byte>)
    requires Encoded(a) == Encoded(b)
    ensures a == b
  {
    EncodedUnescapes(a);
    EncodedUnescapes(b);
  }

  predicate IsUpperHex(b: Byte) {
    '0' as int <= b <= '9' as int || 'A' as int <= b <= 'F' as int
  }

  /** Unreserved bytes and upper-case triples, nothing else. */
  predicate IsPathSegment(s: seq<Byte>) {
    || s == []
    || (IsUnreserved(s[0]) && IsPathSegment(s[1..]))
    || (|s| > 2 && s[0] == PERCENT && IsUpperHex(s[1]) && IsUpperHex(s[2]) && IsPathSegment(s[3..]))
  }

  lemma {:induction false} EncodedIsPathSegment(s: seq<Byte>)
    ensures IsPathSegment(Encoded(s)) && IsUtf8(Encoded(s))
  {
    if s != [] {
      EncodedIsPathSegment(s[1..]);
      var (out, rest) := (Encoded(s), Encoded(s[1..]));
      if IsUnreserved(s[0]) {
        assert out[1..] == rest;
      } else {
        assert out[3..] == rest;
        assert IsUtf8(out[2..]) by {
          assert out[2..][1..] == rest;
        }
        assert IsUtf8(out[1..]) by {
          assert out[1..][1..] == out[2..];
        }
      }
    }
  }

  /** Encoding leaves a string alone exactly when all of it is unreserved. */
  lemma {:induction false} UnreservedIsFixed(s: seq<Byte>)
    ensures Encoded(s) == s <==> forall b :: b in s ==> IsUnreserved(b)
  {
    if s != [] {
      UnreservedIsFixed(s[1..]);
      assert s == [s[0]] + s[1..];
      if !IsUnreserved(s[0]) {
        EncodedGrows(s[1..]);
      }
    }
  }

  lemma {:induction false} EncodedGrows(s: seq<Byte>)
    ensures |Encoded(s)| >= |s|
  {
    if s != [] {
      EncodedGrows(s[1..]);
    }
  }

  // ---------------------------------------------------------------------------------------
  // Digits
  // ---------------------------------------------------------------------------------------

  const UPPER := "0123456789ABCDEF"
  const LOWER := "0123456789abcdef"

  /** A hexadecimal digit has its place in the list of digits, in either case; nothing else is one. */
  lemma HexExactly(b: Byte, v: nat)
    requires v < 16
    ensures Hex(b) == Some(v) <==> b == UPPER[v] as int || b == LOWER[v] as int
  {
  }

  /** The encoder writes upper-case digits. */
  lemma HexDigitExactly(v: nat)
    requires v < 16
    ensures HexDigit(v) == UPPER[v] as int
  {
  }

  /** A triple stands for the byte of its two digits, the high one first. */
  lemma TripleDecodes(s: seq<Byte>, h: nat, l: nat)
    requires |s| > 2 && s[0] == PERCENT && h < 16 && l < 16
    requires s[1] == UPPER[h] as int || s[1] == LOWER[h] as int
    requires s[2] == UPPER[l] as int || s[2] == LOWER[l] as int
    ensures Unescape(s) == [16 * h + l] + Unescape(s[3..])
  {
    HexExactly(s[1], h);
    HexExactly(s[2], l);
    UnescapesTriple(s, h, l);
  }

  lemma UnescapesTriple(s: seq<Byte>, h: nat, l: nat)
    requires |s| > 2 && s[0] == PERCENT && h < 16 && l < 16 && Hex(s[1]) == Some(h) && Hex(s[2]) == Some(l)
    ensures Unescape(s) == [16 * h + l] + Unescape(s[3..])
  {
    assert Triple(s) == Some(h * 16 + l);
  }

  predicate IsDigit(b: Byte) {
    exists v :: 0 <= v < 16 && (b == UPPER[v] as int || b == LOWER[v] as int)
  }

  predicate IsTripleAt(s: seq<Byte>, i: nat) {
    i + 2 < |s| && s[i] == PERCENT && IsDigit(s[i + 1]) && IsDigit(s[i + 2])
  }

  lemma DigitIsHex(b: Byte)
    ensures Hex(b).Some? <==> IsDigit(b)
  {
    if Hex(b).Some? {
      HexExactly(b, Hex(b).value);
    }
    if v :| 0 <= v < 16 && (b == UPPER[v] as int || b == LOWER[v] as int) {
      HexExactly(b, v);
    }
  }

  lemma TripleExactly(s: seq<Byte>)
    ensures Triple(s).Some? <==> IsTripleAt(s, 0)
  {
    if |s| > 2 {
      DigitIsHex(s[1]);
      DigitIsHex(s[2]);
    }
  }

  lemma {:induction false} UnescapeShrinks(s: seq<Byte>)
    ensures |Unescape(s)| <= |s|
  {
    if s != [] {
      if Triple(s).Some? {
        UnescapeShrinks(s[3..]);
      } else {
        UnescapeShrinks(s[1..]);
      }
    }
  }

  /** What is no triple stays as it is: decoding changes nothing exactly when there is no triple. */
  lemma {:induction false} UnchangedExactly(s: seq<Byte>)
    ensures Unescape(s) == s <==> forall i: nat :: i < |s| ==> !IsTripleAt(s, i)
  {
    if s != [] {
      TripleExactly(s);
      if Triple(s).Some? {
        UnescapeShrinks(s[3..]);
        assert IsTripleAt(s, 0);
      } else {
        UnchangedExactly(s[1..]);
        assert s == [s[0]] + s[1..];
        assert forall i: nat :: i < |s[1..]| ==> (IsTripleAt(s[1..], i) <==> IsTripleAt(s, i + 1));
        assert forall i: nat :: 0 < i < |s| ==> (IsTripleAt(s, i) <==> IsTripleAt(s[1..], i - 1));
      }
    }
  }

  const MARKS := "-_.~"

  ghost predicate IsIn(chars: string, b: Byte) {
    exists i :: 0 <= i < |chars| && chars[i] as int == b
  }

  lemma LettersAre(b: Byte)
    ensures IsIn(LETTERS, b) <==> 65 <= b <= 90
  {
    if 65 <= b <= 90 {
      assert LETTERS[b as int - 65] as int == b;
    }
  }

  lemma SmallLettersAre(b: Byte)
    ensures IsIn(SMALL_LETTERS, b) <==> 97 <= b <= 122
  {
    if 97 <= b <= 122 {
      assert SMALL_LETTERS[b as int - 97] as int == b;
    }
  }

  lemma DigitsAre(b: Byte)
    ensures IsIn(DIGITS, b) <==> 48 <= b <= 57
  {
    if 48 <= b <= 57 {
      assert DIGITS[b as int - 48] as int == b;
    }
  }

  lemma MarksAre(b: Byte)
    ensures IsIn(MARKS, b) <==> b == 45 || b == 95 || b == 46 || b == 126
  {
    assert MARKS[0] as int == 45 && MARKS[1] as int == 95 && MARKS[2] as int == 46 && MARKS[3] as int == 126;
  }

  /** The unreserved bytes are those of RFC 3986, section 2.3. */
  lemma UnreservedExactly(b: Byte)
    ensures IsUnreserved(b) <==> IsIn(LETTERS, b) || IsIn(SMALL_LETTERS, b) || IsIn(DIGITS, b) || IsIn(MARKS, b)
  {
    LettersAre(b);
    SmallLettersAre(b);
    DigitsAre(b);
    MarksAre(b);
  }

  // ---------------------------------------------------------------------------------------
  // UTF-8, from the side of the encoder
  // ---------------------------------------------------------------------------------------

  /** A code point that is no surrogate. */
  predicate IsScalar(cp: nat) {
    cp <= 0x10FFFF && !(0xD800 <= cp <= 0xDFFF)
  }

  /** Its bytes, six bits to each but the first (RFC 3629, section 3). */
  function BytesOfScalar(cp: nat): seq<Byte>
    requires IsScalar(cp)
  {
    if cp < 0x80 then [cp]
    else if cp < 0x800 then [0xC0 + cp / 64, 0x80 + cp % 64]
    else if cp < 0x10000 then [0xE0 + cp / 4096, 0x80 + cp / 64 % 64, 0x80 + cp % 64]
    else [0xF0 + cp / 262144, 0x80 + cp / 4096 % 64, 0x80 + cp / 64 % 64, 0x80 + cp % 64]
  }

  /** Some sequence of scalars has these bytes. */
  ghost predicate IsText(s: seq<Byte>)
    decreases |s|
  {
    s == [] || exists cp, rest :: IsScalar(cp) && s == BytesOfScalar(cp) + rest && |rest| < |s| && IsText(rest)
  }

  lemma ScalarTaken(cp: nat, rest: seq<Byte>)
    requires IsScalar(cp)
    ensures SequenceLength(BytesOfScalar(cp) + rest) == |BytesOfScalar(cp)| > 0
  {
    if cp >= 0x10000 {
      FourParts(cp);
      FourTaken(BytesOfScalar(cp), rest);
    } else if cp >= 0x800 {
      ThreeParts(cp);
      ThreeTaken(BytesOfScalar(cp), rest);
    } else if cp >= 0x80 {
      assert 2 <= cp / 64 < 32 && cp % 64 < 64;
    }
  }

  lemma ThreeParts(cp: nat)
    requires 0x800 <= cp < 0x10000 && IsScalar(cp)
    ensures cp / 4096 < 16 && cp / 64 % 64 < 64 && cp % 64 < 64
    ensures (cp / 4096 == 0 ==> cp / 64 % 64 >= 0x20) && (cp / 4096 == 13 ==> cp / 64 % 64 < 0x20)
  {
  }

  lemma FourParts(cp: nat)
    requires 0x10000 <= cp && IsScalar(cp)
    ensures cp / 262144 < 5 && cp / 4096 % 64 < 64 && cp / 64 % 64 < 64 && cp % 64 < 64
    ensures (cp / 262144 == 0 ==> cp / 4096 % 64 >= 0x10) && (cp / 262144 == 4 ==> cp / 4096 % 64 < 0x10)
  {
  }

  lemma ThreeTaken(s: seq<Byte>, rest: seq<Byte>)
    requires |s| == 3 && 0xE0 <= s[0] <= 0xEF && IsTail(s[1]) && IsTail(s[2])
    requires (s[0] == 0xE0 ==> s[1] >= 0xA0) && (s[0] == 0xED ==> s[1] <= 0x9F)
    ensures SequenceLength(s + rest) == 3
  {
  }

  lemma FourTaken(s: seq<Byte>, rest: seq<Byte>)
    requires |s| == 4 && 0xF0 <= s[0] <= 0xF4 && IsTail(s[1]) && IsTail(s[2]) && IsTail(s[3])
    requires (s[0] == 0xF0 ==> s[1] >= 0x90) && (s[0] == 0xF4 ==> s[1] <= 0x8F)
    ensures SequenceLength(s + rest) == 4
  {
  }

  /** The bits of a byte above a base. */
  function Bits(b: Byte, base: nat): nat {
    if b < base then 0 else b as int - base
  }

  function ScalarAt(s: seq<Byte>): nat {
    var n := SequenceLength(s);
    if n == 0 then 0
    else if n == 1 then s[0]
    else if n == 2 then Bits(s[0], 0xC0) * 64 + Bits(s[1], 0x80)
    else if n == 3 then Bits(s[0], 0xE0) * 4096 + Bits(s[1], 0x80) * 64 + Bits(s[2], 0x80)
    else if n == 4 then
      Bits(s[0], 0xF0) * 262144 + Bits(s[1], 0x80) * 4096 + Bits(s[2], 0x80) * 64 + Bits(s[3], 0x80)
    else 0
  }

  lemma TwoRead(a: nat, b: nat)
    requires 0xC2 <= a <= 0xDF && 0x80 <= b <= 0xBF
    ensures var cp := (a - 0xC0) * 64 + (b - 0x80);
            0x80 <= cp < 0x800 && cp / 64 == a - 0xC0 && cp % 64 == b - 0x80
  {
  }

  lemma ThreeRead(a: nat, b: nat, c: nat)
    requires 0xE0 <= a <= 0xEF && 0x80 <= b <= 0xBF && 0x80 <= c <= 0xBF
    requires (a == 0xE0 ==> b >= 0xA0) && (a == 0xED ==> b <= 0x9F)
    ensures var cp := (a - 0xE0) * 4096 + (b - 0x80) * 64 + (c - 0x80);
            && 0x800 <= cp < 0x10000 && !(0xD800 <= cp <= 0xDFFF)
            && cp / 4096 == a - 0xE0 && cp / 64 % 64 == b - 0x80 && cp % 64 == c - 0x80
  {
    var high := (a - 0xE0) * 64 + (b - 0x80);
    assert (high * 64 + (c - 0x80)) / 64 == high;
  }

  lemma FourRead(a: nat, b: nat, c: nat, d: nat)
    requires 0xF0 <= a <= 0xF4 && 0x80 <= b <= 0xBF && 0x80 <= c <= 0xBF && 0x80 <= d <= 0xBF
    requires (a == 0xF0 ==> b >= 0x90) && (a == 0xF4 ==> b <= 0x8F)
    ensures var cp := (a - 0xF0) * 262144 + (b - 0x80) * 4096 + (c - 0x80) * 64 + (d - 0x80);
            && 0x10000 <= cp <= 0x10FFFF
            && cp / 262144 == a - 0xF0 && cp / 4096 % 64 == b - 0x80 && cp / 64 % 64 == c - 0x80
            && cp % 64 == d - 0x80
  {
    var high := (a - 0xF0) * 64 + (b - 0x80);
    var middle := high * 64 + (c - 0x80);
    assert (middle * 64 + (d - 0x80)) / 64 == middle;
    assert (high * 4096 + ((c - 0x80) * 64 + (d - 0x80))) / 4096 == high;
  }

  lemma ScalarRead(s: seq<Byte>)
    requires SequenceLength(s) > 0
    ensures IsScalar(ScalarAt(s)) && s[..SequenceLength(s)] == BytesOfScalar(ScalarAt(s))
  {
    if SequenceLength(s) == 2 {
      TwoRead(s[0], s[1]);
    } else if SequenceLength(s) == 3 {
      ThreeRead(s[0], s[1], s[2]);
    } else if SequenceLength(s) == 4 {
      FourRead(s[0], s[1], s[2], s[3]);
    }
  }

  /** Bytes are taken for UTF-8 exactly when they are those of a sequence of scalars. */
  lemma {:induction false} Utf8Exactly(s: seq<Byte>)
    ensures IsUtf8(s) <==> IsText(s)
    decreases |s|
  {
    if s != [] && IsUtf8(s) {
      var n := SequenceLength(s);
      Utf8Exactly(s[n..]);
      TextFrom(s, n);
    }
    if s != [] && IsText(s) {
      var cp, rest := FirstScalar(s);
      Utf8Exactly(rest);
      Utf8From(s, cp, rest);
    }
  }

  lemma FirstScalar(s: seq<Byte>) returns (cp: nat, rest: seq<Byte>)
    requires s != [] && IsText(s)
    ensures IsScalar(cp) && s == BytesOfScalar(cp) + rest && |rest| < |s| && IsText(rest)
  {
    cp, rest :| IsScalar(cp) && s == BytesOfScalar(cp) + rest && |rest| < |s| && IsText(rest);
  }

  lemma Utf8From(s: seq<Byte>, cp: nat, rest: seq<Byte>)
    requires IsScalar(cp) && s == BytesOfScalar(cp) + rest && IsUtf8(rest)
    ensures IsUtf8(s)
  {
    ScalarTaken(cp, rest);
    assert s[|BytesOfScalar(cp)|..] == rest;
  }

  lemma TextFrom(s: seq<Byte>, n: nat)
    requires 0 < n == SequenceLength(s) && IsText(s[n..])
    ensures IsText(s)
  {
    ScalarRead(s);
    assert s == s[..n] + s[n..];
    assert s == BytesOfScalar(ScalarAt(s)) + s[n..] && |s[n..]| < |s|;
  }
}
