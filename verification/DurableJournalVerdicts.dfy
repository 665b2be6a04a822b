/** What makes a line good, foreign or bad, told by the codec and the checksum alone, and what readers make of it. */
module DurableJournalVerdicts {
  import opened Common
  import opened DurableJournal
  import opened DurableJournalTheorems

  /** A complete line, with its newline and none before, within the bound. */
  predicate IsComplete(cfg: Config, line: Bytes) {
    && 0 < |line| <= cfg.maxLineBytes + 1
    && line[|line| - 1] == NEWLINE && NEWLINE !in line[..|line| - 1]
  }

  /** It decodes to these contents, and their checksum can be computed. */
  ghost predicate Parses<E>(c: Codec<E>, cfg: Config, line: Bytes, l: Line<E>) {
    && IsComplete(cfg, line)
    && c.decode(line[..|line| - 1]) == Some(l) && c.checksum(l.body).Some?
  }

  predicate IsOurs<E>(cfg: Config, b: Body<E>) {
    b.schemaVersion == cfg.schemaVersion && b.recordId == cfg.recordId
  }

  /** It is of another record, or of another version of the schema. */
  ghost predicate IsForeign<E(!new)>(c: Codec<E>, cfg: Config, line: Bytes) {
    exists l :: Parses(c, cfg, line, l) && !IsOurs(cfg, l.body)
  }

  /** It is ours, has this number and its own checksum, and holds this entry. */
  ghost predicate Carries<E>(c: Codec<E>, cfg: Config, line: Bytes, l: Line<E>, n: nat, e: Entry<E>) {
    && Parses(c, cfg, line, l) && IsOurs(cfg, l.body)
    && l.body.seqNo == n && c.checksum(l.body) == Some(l.checksum)
    && e.seqNo == l.body.seqNo && e.wallTimeMs == l.body.wallTimeMs && e.mediaMs == l.body.mediaMs
    && e.event == l.body.event
  }

  /** A good line is one that is complete, decodes, is ours, and has its number and its checksum. */
  lemma GoodExactly<E(!new)>(c: Codec<E>, cfg: Config, line: Bytes, n: nat, e: Entry<E>)
    ensures IsGoodLine(c, cfg, line, n, e) <==> exists l :: Carries(c, cfg, line, l, n, e)
  {
    if IsGoodLine(c, cfg, line, n, e) {
      var l := c.decode(line[..|line| - 1]).value;
      assert Carries(c, cfg, line, l, n, e);
    }
    if l :| Carries(c, cfg, line, l, n, e) {
      assert e == EntryOf(l.body);
    }
  }

  lemma ForeignExactly<E(!new)>(c: Codec<E>, cfg: Config, line: Bytes, n: nat)
    requires line != [] && NEWLINE !in line[..|line| - 1]
    ensures Check(c, cfg, line, n) == Foreign <==> IsForeign(c, cfg, line)
  {
    if Check(c, cfg, line, n) == Foreign {
      var l := c.decode(line[..|line| - 1]).value;
      assert Parses(c, cfg, line, l);
    }
  }

  /** The line that append writes, or its refusal. */
  lemma PreparedExactly<E>(c: Codec<E>, cfg: Config, b: Body<E>, line: Bytes)
    ensures Prepare(c, cfg, b) == Some(line) <==>
            && b.seqNo < U64_MAX && line != [] && line[|line| - 1] == NEWLINE && |line| - 1 <= cfg.maxLineBytes
            && c.checksum(b).Some? && c.encode(Line(b, c.checksum(b).value)) == Some(line[..|line| - 1])
  {
    if Prepare(c, cfg, b) == Some(line) {
      assert line[..|line| - 1] == c.encode(Line(b, c.checksum(b).value)).value;
    } else if line != [] {
      assert line == line[..|line| - 1] + [line[|line| - 1]];
    }
  }

  // ---------------------------------------------------------------------------------------
  // Where a scan stops
  // ---------------------------------------------------------------------------------------

  /** The file begins with a log and goes on with a line that is no further entry of it. */
  ghost predicate StopsAt<E(!new)>(c: Codec<E>, cfg: Config, s: Bytes, first: nat, a: Bytes, es: seq<Entry<E>>,
                                   line: Bytes, rest: Bytes) {
    && s == a + (line + rest) && IsLog(c, cfg, a, first, es)
    && IsLineOf(line, rest) && !Check(c, cfg, line, SaturatingAdd(first, |es|)).Good?
  }

  /** What `read_until` takes: up to a newline, or all that is left. */
  predicate IsLineOf(line: Bytes, rest: Bytes) {
    && line != [] && NEWLINE !in line[..|line| - 1]
    && (line[|line| - 1] == NEWLINE || rest == [])
  }

  lemma {:induction false} LineLengthOfLast(s: Bytes)
    requires s != [] && NEWLINE !in s[..|s| - 1]
    ensures LineLength(s) == |s|
  {
    if |s| > 1 {
      assert s[0] == s[..|s| - 1][0];
      assert s[1..][..|s| - 2] == s[..|s| - 1][1..];
      LineLengthOfLast(s[1..]);
    }
  }

  lemma LineIsTaken(line: Bytes, rest: Bytes)
    requires IsLineOf(line, rest)
    ensures LineLength(line + rest) == |line| && (line + rest)[..|line|] == line && (line + rest)[|line|..] == rest
  {
    if line[|line| - 1] == NEWLINE {
      assert (line + rest)[..|line| - 1] == line[..|line| - 1];
      LineLengthIs(line + rest, |line|);
    } else {
      assert line + rest == line;
      LineLengthOfLast(line);
    }
  }

  /** A scan reads the log and stops at that line, for what the line is. */
  lemma ScanStops<E(!new)>(c: Codec<E>, cfg: Config, s: Bytes, first: nat, a: Bytes, es: seq<Entry<E>>, line: Bytes,
                           rest: Bytes)
    requires StopsAt(c, cfg, s, first, a, es, line, rest) && first <= U64_MAX
    ensures Scan(c, cfg, s, first) == Scanned(es, |a|, Some(Check(c, cfg, line, SaturatingAdd(first, |es|))))
  {
    LineIsTaken(line, rest);
    ScanLog(c, cfg, a, first, es, line + rest);
    assert es + [] == es;
  }

  /** Every scan that does not read all of the file stops at such a line. */
  lemma StoppedWhere<E(!new)>(c: Codec<E>, cfg: Config, s: Bytes, first: nat)
      returns (a: Bytes, es: seq<Entry<E>>, line: Bytes, rest: Bytes)
    requires Scan(c, cfg, s, first).stop.Some? && first <= U64_MAX
    ensures StopsAt(c, cfg, s, first, a, es, line, rest) && es == Scan(c, cfg, s, first).entries
  {
    var r := Scan(c, cfg, s, first);
    ScanFindsLog(c, cfg, s, first);
    a, es := s[..r.len], r.entries;
    var tail := s[r.len..];
    SplitAt(s, r.len);
    ScanLog(c, cfg, a, first, es, tail);
    TailStops(c, cfg, s, first, tail);
    var n := LineLength(tail);
    line, rest := tail[..n], tail[n..];
    SplitAt(tail, n);
    assert line[..n - 1] == tail[..n - 1];
  }

  lemma TailStops<E(!new)>(c: Codec<E>, cfg: Config, s: Bytes, first: nat, tail: Bytes)
    requires var r := Scan(c, cfg, s, first);
             r.stop.Some? && r == Prepend(r.entries, r.len, Scan(c, cfg, tail, SaturatingAdd(first, |r.entries|)))
    ensures tail != []
    ensures !Check(c, cfg, tail[..LineLength(tail)], SaturatingAdd(first, |Scan(c, cfg, s, first).entries|)).Good?
  {
    var r := Scan(c, cfg, s, first);
    var rest := Scan(c, cfg, tail, SaturatingAdd(first, |r.entries|));
    assert r.entries == r.entries + rest.entries;
    assert rest.entries == [];
  }

  // ---------------------------------------------------------------------------------------
  // When readers refuse
  // ---------------------------------------------------------------------------------------

  /** Behind a log stands a complete line of another record or schema version. */
  ghost predicate TurnsForeign<E(!new)>(c: Codec<E>, cfg: Config, s: Bytes) {
    exists a, es, line, rest :: s == a + (line + rest) && IsLog(c, cfg, a, 1, es) && IsForeign(c, cfg, line)
  }

  /** Recovery refuses a file, and so leaves it alone, exactly when it turns foreign behind a log. */
  lemma RecoveryRefusesExactly<E(!new)>(c: Codec<E>, cfg: Config, s: Bytes)
    ensures Recovered(c, cfg, s) == None <==> TurnsForeign(c, cfg, s)
  {
    if Recovered(c, cfg, s) == None {
      var a, es, line, rest := StoppedWhere(c, cfg, s, 1);
      ScanStops(c, cfg, s, 1, a, es, line, rest);
      ForeignExactly(c, cfg, line, SaturatingAdd(1, |es|));
    }
    if TurnsForeign(c, cfg, s) {
      var a, es, line, rest :| s == a + (line + rest) && IsLog(c, cfg, a, 1, es) && IsForeign(c, cfg, line);
      ForeignStops(c, cfg, s, a, es, line, rest);
    }
  }

  lemma ForeignStops<E(!new)>(c: Codec<E>, cfg: Config, s: Bytes, a: Bytes, es: seq<Entry<E>>, line: Bytes, rest: Bytes)
    requires s == a + (line + rest) && IsLog(c, cfg, a, 1, es) && IsForeign(c, cfg, line)
    ensures Recovered(c, cfg, s) == None && ReadPrefix(c, cfg, s) == None
  {
    ForeignExactly(c, cfg, line, SaturatingAdd(1, |es|));
    ScanStops(c, cfg, s, 1, a, es, line, rest);
    assert s[0..] == s;
  }

  /** A complete line that is no entry of this number: it does not decode, is not ours, or is out of order. */
  ghost predicate IsBad<E(!new)>(c: Codec<E>, cfg: Config, line: Bytes, n: nat) {
    IsComplete(cfg, line) && forall l :: Parses(c, cfg, line, l) ==>
      !IsOurs(cfg, l.body) || l.body.seqNo != n || c.checksum(l.body) != Some(l.checksum)
  }

  /** Behind a log that is numbered from `first` stands such a line. */
  ghost predicate TurnsBad<E(!new)>(c: Codec<E>, cfg: Config, s: Bytes, first: nat) {
    exists a, es, line, rest ::
      s == a + (line + rest) && IsLog(c, cfg, a, first, es) && IsBad(c, cfg, line, SaturatingAdd(first, |es|))
  }

  lemma BadExactly<E(!new)>(c: Codec<E>, cfg: Config, line: Bytes, n: nat)
    requires line != [] && NEWLINE !in line[..|line| - 1]
    ensures !Check(c, cfg, line, n).Good? && !Check(c, cfg, line, n).Torn? <==> IsBad(c, cfg, line, n)
  {
    if IsComplete(cfg, line) && c.decode(line[..|line| - 1]).Some? {
      var l := c.decode(line[..|line| - 1]).value;
      assert c.checksum(l.body).Some? ==> Parses(c, cfg, line, l);
    }
  }

  lemma ScanRefusesExactly<E(!new)>(c: Codec<E>, cfg: Config, s: Bytes, first: nat, offset: nat)
    requires first <= U64_MAX
    ensures Accepted(Scan(c, cfg, s, first), offset) == None <==> TurnsBad(c, cfg, s, first)
  {
    if Accepted(Scan(c, cfg, s, first), offset) == None {
      var a, es, line, rest := StoppedWhere(c, cfg, s, first);
      ScanStops(c, cfg, s, first, a, es, line, rest);
      BadExactly(c, cfg, line, SaturatingAdd(first, |es|));
    }
    if TurnsBad(c, cfg, s, first) {
      var a, es, line, rest :|
        s == a + (line + rest) && IsLog(c, cfg, a, first, es) && IsBad(c, cfg, line, SaturatingAdd(first, |es|));
      BadExactly(c, cfg, line, SaturatingAdd(first, |es|));
      ScanStops(c, cfg, s, first, a, es, line, rest);
    }
  }

  /** The read-only readers refuse a cursor that is none, and a file that turns bad behind the log at the cursor. */
  lemma ReadingRefusesExactly<E(!new)>(c: Codec<E>, cfg: Config, s: Bytes, offset: nat, expected: nat)
    requires expected <= U64_MAX
    ensures ReadSuffix(c, cfg, s, offset, expected) == None
            <==> offset > |s| || expected == 0 || TurnsBad(c, cfg, s[offset..], expected)
  {
    if offset <= |s| {
      ScanRefusesExactly(c, cfg, s[offset..], expected, offset);
    }
  }

  /** A journal opened for another record, or another version, is refused as soon as it holds one entry. */
  lemma WrongOwnerIsRefused<E(!new)>(c: Codec<E>, cfg: Config, other: Config, b: Body<E>, rest: Bytes)
    requires Faithful(c) && IsBodyOf(cfg, b) && Prepare(c, cfg, b).Some?
    requires other.recordId != cfg.recordId || other.schemaVersion != cfg.schemaVersion
    requires cfg.maxLineBytes <= other.maxLineBytes
    ensures var s := Prepare(c, cfg, b).value + rest;
            Recovered(c, other, s) == None && ReadPrefix(c, other, s) == None
  {
    var line := Prepare(c, cfg, b).value;
    var l := Line(b, c.checksum(b).value);
    assert line[..|line| - 1] == c.encode(l).value;
    assert Parses(c, other, line, l);
    var none: seq<Entry<E>> := [];
    assert IsLog(c, other, [], 1, none);
    assert [] + (line + rest) == line + rest;
    ForeignStops(c, other, line + rest, [], none, line, rest);
  }
}
