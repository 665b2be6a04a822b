/**
 A small concrete codec for journal lines: numbers in unary, strings as lengths and code points. It
 shows that what DurableJournal asks of a codec can be had; serde_json is not part of this model.
 */
module JournalCodec {
  import opened Common
  import opened DurableJournal

  // ---------------------------------------------------------------------------------------
  // Numbers
  // ---------------------------------------------------------------------------------------

  const ONE: Byte := 1
  const STOP: Byte := 0

  function Unary(n: nat): Bytes {
    if n == 0 then [STOP] else [ONE] + Unary(n - 1)
  }

  function Write(ns: seq<nat>): Bytes {
    if ns == [] then [] else Unary(ns[0]) + Write(ns[1..])
  }

  /** The numbers of a byte string, the first of which already counts `running`. */
  function Read(b: Bytes, running: nat): seq<nat> {
    if b == [] then []
    else if b[0] == STOP then [running] + Read(b[1..], 0)
    else Read(b[1..], running + 1)
  }

  lemma {:induction false} ReadUnary(n: nat, rest: Bytes, running: nat)
    ensures Read(Unary(n) + rest, running) == [running + n] + Read(rest, 0)
  {
    var b := Unary(n) + rest;
    if n == 0 {
      assert b[1..] == rest;
    } else {
      assert b[1..] == Unary(n - 1) + rest;
      ReadUnary(n - 1, rest, running + 1);
    }
  }

  lemma {:induction false} ReadWrite(ns: seq<nat>)
    ensures Read(Write(ns), 0) == ns && NEWLINE !in Write(ns)
  {
    if ns != [] {
      ReadUnary(ns[0], Write(ns[1..]), 0);
      ReadWrite(ns[1..]);
      UnaryHasNoNewline(ns[0]);
    }
  }

  lemma {:induction false} UnaryHasNoNewline(n: nat)
    ensures NEWLINE !in Unary(n)
  {
    if n > 0 {
      UnaryHasNoNewline(n - 1);
    }
  }

  // ---------------------------------------------------------------------------------------
  // Lines
  // ---------------------------------------------------------------------------------------

  function Codes(s: string): seq<nat> {
    seq(|s|, i requires 0 <= i < |s| => s[i] as int)
  }

  predicate IsCode(n: nat) {
    n < 0xD800 || 0xE000 <= n < 0x11_0000
  }

  function Text(codes: seq<nat>): string {
    seq(|codes|, i requires 0 <= i < |codes| => if IsCode(codes[i]) then codes[i] as char else '?')
  }

  lemma TextOfCodes(s: string)
    ensures Text(Codes(s)) == s
  {
    forall i | 0 <= i < |s|
      ensures Text(Codes(s))[i] == s[i]
    {
      assert IsCode(Codes(s)[i]);
    }
  }

  function Fold(i: int): nat {
    if i >= 0 then 2 * i else -2 * i - 1
  }

  function Unfold(n: nat): int {
    if n % 2 == 0 then n / 2 else -((n + 1) / 2)
  }

  function Head(l: Line<nat>): seq<nat> {
    [l.body.schemaVersion, l.body.seqNo, Fold(l.body.wallTimeMs), l.body.mediaMs, l.body.event,
     |l.body.recordId|, |l.body.eventId|]
  }

  function Numbers(l: Line<nat>): seq<nat> {
    Head(l) + (Codes(l.body.recordId) + (Codes(l.body.eventId) + Codes(l.checksum)))
  }

  function LineOf(ns: seq<nat>): Option<Line<nat>> {
    if |ns| < 7 || |ns| < 7 + ns[5] + ns[6] then None
    else
      var rest := ns[7..];
      var record := Text(rest[..ns[5]]);
      var event := Text(rest[ns[5]..][..ns[6]]);
      var checksum := Text(rest[ns[5]..][ns[6]..]);
      Some(Line(Body(ns[0], record, ns[1], event, Unfold(ns[2]), ns[3], ns[4]), checksum))
  }

  lemma Halves<T>(a: seq<T>, b: seq<T>)
    ensures (a + b)[..|a|] == a && (a + b)[|a|..] == b
  {
  }

  lemma LineOfNumbers(l: Line<nat>)
    ensures LineOf(Numbers(l)) == Some(l)
  {
    var (record, event, checksum) := (Codes(l.body.recordId), Codes(l.body.eventId), Codes(l.checksum));
    Halves(Head(l), record + (event + checksum));
    Halves(record, event + checksum);
    Halves(event, checksum);
    TextOfCodes(l.body.recordId);
    TextOfCodes(l.body.eventId);
    TextOfCodes(l.checksum);
    assert Unfold(Fold(l.body.wallTimeMs)) == l.body.wallTimeMs;
  }

  function EncodeLine(l: Line<nat>): Option<Bytes> {
    Some(Write(Numbers(l)))
  }

  function DecodeLine(b: Bytes): Option<Line<nat>> {
    LineOf(Read(b, 0))
  }

  /** The codec, with any checksum. */
  function UnaryCodec(checksum: Body<nat> -> Option<string>): Codec<nat> {
    Codec(EncodeLine, DecodeLine, checksum)
  }

  /** Its lines hold no newline and decode to what was encoded. */
  lemma UnaryCodecIsFaithful(checksum: Body<nat> -> Option<string>)
    ensures Faithful(UnaryCodec(checksum))
  {
    forall l: Line<nat>
      ensures NEWLINE !in EncodeLine(l).value && DecodeLine(EncodeLine(l).value) == Some(l)
    {
      ReadWrite(Numbers(l));
      LineOfNumbers(l);
    }
  }
}
