/**
 The append-only record journal of durable_journal.rs: recovery with torn-tail repair, the
 read-only cursor and `append`. A file is its bytes. The JSON codec and the checksum are
 parameters: any codec whose lines hold no newline byte and decode to what was encoded.
 */
module DurableJournal {
  import opened Common

  type Bytes = seq<Byte>

  const NEWLINE: Byte := 10

  datatype Body<E> = Body(schemaVersion: nat, recordId: string, seqNo: nat, eventId: string,
                          wallTimeMs: int, mediaMs: nat, event: E)
  datatype Line<E> = Line(body: Body<E>, checksum: string)
  datatype Entry<E> = Entry(seqNo: nat, wallTimeMs: int, mediaMs: nat, event: E)

  datatype Codec<!E> = Codec(
    encode: Line<E> -> Option<Bytes>,
    decode: Bytes -> Option<Line<E>>,
    checksum: Body<E> -> Option<string>)

  ghost predicate Faithful<E(!new)>(c: Codec<E>) {
    forall l: Line<E> :: c.encode(l).Some? ==>
      NEWLINE !in c.encode(l).value && c.decode(c.encode(l).value) == Some(l)
  }

  datatype Config = Config(recordId: string, schemaVersion: nat, maxLineBytes: nat)

  predicate ValidConfig(cfg: Config) {
    cfg.recordId != "" && cfg.schemaVersion != 0 && cfg.maxLineBytes != 0
  }

  function EntryOf<E>(b: Body<E>): Entry<E> {
    Entry(b.seqNo, b.wallTimeMs, b.mediaMs, b.event)
  }

  // ---------------------------------------------------------------------------------------
  // Reading
  // ---------------------------------------------------------------------------------------

  /** How many bytes `read_until` a newline takes: up to the first newline, or everything. */
  function LineLength(s: Bytes): (n: nat)
    ensures n <= |s| && (n == 0 <==> s == [])
    ensures n > 0 ==> NEWLINE !in s[..n - 1]
    ensures n < |s| ==> n > 0 && s[n - 1] == NEWLINE
  {
    if s == [] then 0
    else if s[0] == NEWLINE then 1
    else
      var n := LineLength(s[1..]);
      assert n > 0 ==> s[..n] == [s[0]] + s[1..][..n - 1];
      1 + n
  }

  datatype Verdict<E> = Torn | Invalid | Foreign | OutOfOrder | Good(entry: Entry<E>)

  /** What the readers make of one line, newline included. */
  function Check<E>(c: Codec<E>, cfg: Config, line: Bytes, expected: nat): Verdict<E> {
    if |line| > cfg.maxLineBytes + 1 || line == [] || line[|line| - 1] != NEWLINE then Torn
    else
      match c.decode(line[..|line| - 1])
      case None => Invalid
      case Some(parsed) =>
        match c.checksum(parsed.body)
        case None => Invalid
        case Some(checksum) =>
          if parsed.body.schemaVersion != cfg.schemaVersion || parsed.body.recordId != cfg.recordId then Foreign
          else if parsed.body.seqNo != expected || parsed.checksum != checksum then OutOfOrder
          else Good(EntryOf(parsed.body))
  }

  /** The entries before the first line that is not good, their bytes, and why the scan stopped. */
  datatype Scanned<E> = Scanned(entries: seq<Entry<E>>, len: nat, stop: Option<Verdict<E>>)

  function Scan<E>(c: Codec<E>, cfg: Config, s: Bytes, expected: nat): (r: Scanned<E>)
    ensures r.len <= |s| && (r.stop.None? ==> r.len == |s|) && |r.entries| <= r.len
    decreases |s|
  {
    if s == [] then Scanned([], 0, None)
    else
      var n := LineLength(s);
      match Check(c, cfg, s[..n], expected)
      case Good(entry) =>
        var rest := Scan(c, cfg, s[n..], SaturatingAdd(expected, 1));
        Scanned([entry] + rest.entries, n + rest.len, rest.stop)
      case verdict => Scanned([], 0, Some(verdict))
  }

  /** A scan that first reads `es` from n bytes and then goes on as `rest`. */
  function Prepend<E>(es: seq<Entry<E>>, n: nat, rest: Scanned<E>): Scanned<E> {
    Scanned(es + rest.entries, n + rest.len, rest.stop)
  }

  /** Recovery: the entries and the length to which it cuts the file; None for another record's file. */
  function Recovered<E>(c: Codec<E>, cfg: Config, s: Bytes): Option<(seq<Entry<E>>, nat)> {
    var r := Scan(c, cfg, s, 1);
    if r.stop == Some(Foreign) then None else Some((r.entries, r.len))
  }

  /** The read-only readers forgive only a line that is still being written. */
  function Accepted<E>(r: Scanned<E>, offset: nat): Option<(seq<Entry<E>>, nat)> {
    if r.stop.None? || r.stop.value.Torn? then Some((r.entries, offset + r.len)) else None
  }

  /** Reading on from a byte cursor. */
  function ReadSuffix<E>(c: Codec<E>, cfg: Config, s: Bytes, offset: nat, expected: nat): Option<(seq<Entry<E>>, nat)> {
    if offset > |s| || expected == 0 then None
    else Accepted(Scan(c, cfg, s[offset..], expected), offset)
  }

  function ReadPrefix<E>(c: Codec<E>, cfg: Config, s: Bytes): Option<(seq<Entry<E>>, nat)> {
    ReadSuffix(c, cfg, s, 0, 1)
  }

  // ---------------------------------------------------------------------------------------
  // Appending
  // ---------------------------------------------------------------------------------------

  /** The line an append writes, newline included, or None when it is refused before any write. */
  function Prepare<E>(c: Codec<E>, cfg: Config, body: Body<E>): Option<Bytes> {
    if body.seqNo >= U64_MAX then None
    else
      var checksum :- c.checksum(body);
      var bytes :- c.encode(Line(body, checksum));
      if |bytes| > cfg.maxLineBytes then None else Some(bytes + [NEWLINE])
  }

  /** What the file system does with a write: all of it durably, a part of it, or all but no sync. */
  datatype Write = Complete | Short(written: nat) | Unsynced

  function Landed(line: Bytes, io: Write): Bytes {
    match io
    case Complete => line
    case Unsynced => line
    case Short(written) => if written <= |line| then line[..written] else line
  }

  // ---------------------------------------------------------------------------------------
  // The imperative readers and the writer
  // ---------------------------------------------------------------------------------------

  class JournalFile {
    var contents: Option<Bytes>

    constructor (initial: Option<Bytes>)
      ensures contents == initial
    {
      contents := initial;
    }
  }

  lemma PrependSnoc<E>(es: seq<Entry<E>>, e: Entry<E>, m: nat, n: nat, rest: Scanned<E>)
    ensures Prepend(es, m, Prepend([e], n, rest)) == Prepend(es + [e], m + n, rest)
  {
    assert es + ([e] + rest.entries) == es + [e] + rest.entries;
  }

  lemma PrependStop<E>(es: seq<Entry<E>>, m: nat, stop: Option<Verdict<E>>)
    ensures Prepend(es, m, Scanned([], 0, stop)) == Scanned(es, m, stop)
  {
  }

  lemma DropTwice(s: Bytes, m: nat, n: nat)
    requires m + n <= |s|
    ensures s[m..][n..] == s[m + n..]
  {
  }

  lemma ScanTakes<E>(c: Codec<E>, cfg: Config, entries: seq<Entry<E>>, at: nat, s: Bytes, n: nat, expected: nat,
                     entry: Entry<E>)
    requires s != [] && n == LineLength(s) && Check(c, cfg, s[..n], expected) == Good(entry)
    ensures Prepend(entries, at, Scan(c, cfg, s, expected))
            == Prepend(entries + [entry], at + n, Scan(c, cfg, s[n..], SaturatingAdd(expected, 1)))
  {
    var rest := Scan(c, cfg, s[n..], SaturatingAdd(expected, 1));
    assert Scan(c, cfg, s, expected) == Prepend([entry], n, rest);
    PrependSnoc(entries, entry, at, n, rest);
  }

  lemma ScanStops<E>(c: Codec<E>, cfg: Config, entries: seq<Entry<E>>, at: nat, s: Bytes, n: nat, expected: nat)
    requires s != [] && n == LineLength(s) && !Check(c, cfg, s[..n], expected).Good?
    ensures Prepend(entries, at, Scan(c, cfg, s, expected))
            == Scanned(entries, at, Some(Check(c, cfg, s[..n], expected)))
  {
    PrependStop(entries, at, Some(Check(c, cfg, s[..n], expected)));
  }

  /** The loop shared by the readers: it stops at the first line that is not good. */
  method ScanLoop<E>(c: Codec<E>, cfg: Config, s: Bytes, first: nat)
    returns (entries: seq<Entry<E>>, validLen: nat, stop: Option<Verdict<E>>)
    requires |s| <= U64_MAX
    ensures Scanned(entries, validLen, stop) == Scan(c, cfg, s, first)
  {
    entries, validLen, stop := [], 0, None;
    var expected := first;
    assert s[0..] == s;
    while validLen < |s|
      invariant validLen <= |s| && stop == None
      invariant Scan(c, cfg, s, first) == Prepend(entries, validLen, Scan(c, cfg, s[validLen..], expected))
      decreases |s| - validLen
    {
      var rest := s[validLen..];
      var count := LineLength(rest);
      match Check(c, cfg, rest[..count], expected) {
        case Good(entry) =>
          ScanTakes(c, cfg, entries, validLen, rest, count, expected, entry);
          DropTwice(s, validLen, count);
          validLen := SaturatingAdd(validLen, count);
          expected := SaturatingAdd(expected, 1);
          entries := entries + [entry];
        case verdict =>
          ScanStops(c, cfg, entries, validLen, rest, count, expected);
          stop := Some(verdict);
          return;
      }
    }
    PrependStop(entries, validLen, stop);
  }

  method RecoverAndRead<E>(file: JournalFile, c: Codec<E>, cfg: Config) returns (r: Option<seq<Entry<E>>>)
    requires file.contents.Some? ==> |file.contents.value| <= U64_MAX
    modifies file
    ensures cfg.recordId == "" || cfg.schemaVersion == 0 || cfg.maxLineBytes == 0
            ==> r == None && file.contents == old(file.contents)
    ensures ValidConfig(cfg) && old(file.contents) == None ==> r == Some([]) && file.contents == Some([])
    ensures ValidConfig(cfg) && old(file.contents).Some? ==>
              match Recovered(c, cfg, old(file.contents).value)
              case None => r == None && file.contents == old(file.contents)
              case Some((es, len)) => r == Some(es) && file.contents == Some(old(file.contents).value[..len])
  {
    if !ValidConfig(cfg) {
      return None;
    }
    if file.contents == None {
      file.contents := Some([]);
      return Some([]);
    }
    var bytes := file.contents.value;
    var entries, validLen, stop := ScanLoop(c, cfg, bytes, 1);
    if stop == Some(Foreign) {
      return None;
    }
    if |bytes| != validLen {
      file.contents := Some(bytes[..validLen]);
    } else {
      assert bytes[..validLen] == bytes;
    }
    r := Some(entries);
  }

  method Accepts<E>(scanned: Scanned<E>, offset: nat) returns (r: Option<(seq<Entry<E>>, nat)>)
    ensures r == Accepted(scanned, offset)
  {
    if scanned.stop.Some? && !scanned.stop.value.Torn? {
      return None;
    }
    r := Some((scanned.entries, offset + scanned.len));
  }

  method ReadValidSuffix<E>(file: JournalFile, c: Codec<E>, cfg: Config, offset: nat, expected: nat)
    returns (r: Option<(seq<Entry<E>>, nat)>)
    requires file.contents.Some? ==> |file.contents.value| <= U64_MAX
    ensures r == if !ValidConfig(cfg) || file.contents == None then None
                 else ReadSuffix(c, cfg, file.contents.value, offset, expected)
  {
    if !ValidConfig(cfg) || file.contents == None {
      return None;
    }
    var bytes := file.contents.value;
    if offset > |bytes| || expected == 0 {
      return None;
    }
    var entries, validLen, stop := ScanLoop(c, cfg, bytes[offset..], expected);
    r := Accepts(Scanned(entries, validLen, stop), offset);
  }

  class DurableRecordJournal<E> {
    const file: JournalFile
    const codec: Codec<E>
    const cfg: Config
    var nextSeq: nat

    constructor (file: JournalFile, codec: Codec<E>, cfg: Config, entries: seq<Entry<E>>)
      ensures this.file == file && this.codec == codec && this.cfg == cfg && nextSeq == NextSeq(entries)
    {
      this.file, this.codec, this.cfg := file, codec, cfg;
      nextSeq := if entries == [] then 1 else SaturatingAdd(entries[|entries| - 1].seqNo, 1);
    }

    /** The sequence number advances only when the whole line has landed and been synced. */
    method Append(eventId: string, wallTimeMs: int, mediaMs: nat, event: E, io: Write) returns (r: Option<Entry<E>>)
      modifies this`nextSeq, file
      ensures var body := Body(cfg.schemaVersion, cfg.recordId, old(nextSeq), eventId, wallTimeMs, mediaMs, event);
              var before := if old(file.contents).Some? then old(file.contents).value else [];
              match Prepare(codec, cfg, body)
              case None => r == None && nextSeq == old(nextSeq) && file.contents == Some(before)
              case Some(line) =>
                && file.contents == Some(before + Landed(line, io))
                && r == (if io.Complete? then Some(EntryOf(body)) else None)
                && nextSeq == (if io.Complete? then old(nextSeq) + 1 else old(nextSeq))
    {
      if file.contents == None {
        file.contents := Some([]);
      }
      if nextSeq >= U64_MAX {
        return None;
      }
      var body := Body(cfg.schemaVersion, cfg.recordId, nextSeq, eventId, wallTimeMs, mediaMs, event);
      var checksum := codec.checksum(body);
      if checksum == None {
        return None;
      }
      var bytes := codec.encode(Line(body, checksum.value));
      if bytes == None || |bytes.value| > cfg.maxLineBytes {
        return None;
      }
      file.contents := Some(file.contents.value + Landed(bytes.value + [NEWLINE], io));
      if !io.Complete? {
        return None;
      }
      nextSeq := nextSeq + 1;
      r := Some(EntryOf(body));
    }
  }

  /** `open`: recovers the file and goes on after its last entry, or refuses. */
  method OpenJournal<E>(file: JournalFile, c: Codec<E>, cfg: Config)
    returns (journal: Option<DurableRecordJournal<E>>, entries: seq<Entry<E>>)
    requires file.contents.Some? ==> |file.contents.value| <= U64_MAX
    modifies file
    ensures cfg.recordId == "" || cfg.schemaVersion == 0 || cfg.maxLineBytes == 0
            ==> journal == None && file.contents == old(file.contents)
    ensures ValidConfig(cfg) && old(file.contents) == None
            ==> journal.Some? && entries == [] && file.contents == Some([])
    ensures ValidConfig(cfg) && old(file.contents).Some? ==>
              match Recovered(c, cfg, old(file.contents).value)
              case None => journal == None && file.contents == old(file.contents)
              case Some((es, len)) =>
                journal.Some? && entries == es && file.contents == Some(old(file.contents).value[..len])
    ensures journal.Some? ==>
              && fresh(journal.value) && journal.value.file == file && journal.value.codec == c
                 && journal.value.cfg == cfg
              && journal.value.nextSeq == NextSeq(entries)
  {
    var recovered := RecoverAndRead(file, c, cfg);
    if recovered == None {
      return None, [];
    }
    entries := recovered.value;
    var writer := new DurableRecordJournal<E>(file, c, cfg, entries);
    journal := Some(writer);
  }

  function NextSeq<E>(entries: seq<Entry<E>>): nat {
    if entries == [] then 1 else SaturatingAdd(entries[|entries| - 1].seqNo, 1)
  }
}
