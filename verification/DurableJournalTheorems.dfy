/** What the journal keeps: recovery, cursors, and whole runs of appends, crashes and reopens. */
module DurableJournalTheorems {
  import opened Common
  import opened DurableJournal

  // ---------------------------------------------------------------------------------------
  // Recovery keeps the longest valid log
  // ---------------------------------------------------------------------------------------

  /** One complete line that holds `entry` and carries the sequence number `expected`. */
  ghost predicate IsGoodLine<E(!new)>(c: Codec<E>, cfg: Config, line: Bytes, expected: nat, entry: Entry<E>) {
    && line != [] && NEWLINE !in line[..|line| - 1]
    && Check(c, cfg, line, expected) == Good(entry)
  }

  /** `s` is a log: nothing but complete lines that hold these entries under consecutive numbers. */
  ghost predicate IsLog<E(!new)>(c: Codec<E>, cfg: Config, s: Bytes, first: nat, es: seq<Entry<E>>)
    decreases |es|
  {
    if es == [] then s == []
    else
      exists n :: 0 < n <= |s| && IsGoodLine(c, cfg, s[..n], first, es[0])
                  && IsLog(c, cfg, s[n..], SaturatingAdd(first, 1), es[1..])
  }

  lemma SplitConcat<T>(a: seq<T>, b: seq<T>, n: nat)
    requires n <= |a|
    ensures a + b == a[..n] + (a[n..] + b)
  {
  }

  lemma {:induction false} LineLengthIs(s: Bytes, n: nat)
    requires 0 < n <= |s| && NEWLINE !in s[..n - 1] && s[n - 1] == NEWLINE
    ensures LineLength(s) == n
  {
    if n > 1 {
      assert s[0] == s[..n - 1][0];
      assert s[1..][..n - 2] == s[..n - 1][1..];
      LineLengthIs(s[1..], n - 1);
    }
  }

  lemma ScanGoodLine<E(!new)>(c: Codec<E>, cfg: Config, line: Bytes, s: Bytes, first: nat, e: Entry<E>)
    requires IsGoodLine(c, cfg, line, first, e)
    ensures Scan(c, cfg, line + s, first) == Prepend([e], |line|, Scan(c, cfg, s, SaturatingAdd(first, 1)))
  {
    var n := |line|;
    assert (line + s)[..n] == line && (line + s)[n..] == s;
    assert (line + s)[..n - 1] == line[..n - 1];
    LineLengthIs(line + s, n);
  }

  lemma AdvanceBy(first: nat, n: nat)
    requires first <= U64_MAX && n > 0
    ensures SaturatingAdd(SaturatingAdd(first, 1), n - 1) == SaturatingAdd(first, n)
  {
  }

  lemma PrependNothing<E>(rest: Scanned<E>)
    ensures Prepend([], 0, rest) == rest
  {
  }

  lemma PrependTwice<E>(whole: Scanned<E>, mid: Scanned<E>, rest: Scanned<E>, es: seq<Entry<E>>, m: nat, n: nat)
    requires es != [] && whole == Prepend([es[0]], m, mid) && mid == Prepend(es[1..], n, rest)
    ensures whole == Prepend(es, m + n, rest)
  {
    assert [es[0]] + (es[1..] + rest.entries) == es + rest.entries;
  }

  /** Scanning a log in front of other bytes reads the log and goes on with the rest. */
  lemma {:induction false} ScanLog<E(!new)>(c: Codec<E>, cfg: Config, a: Bytes, first: nat, es: seq<Entry<E>>, b: Bytes)
    requires IsLog(c, cfg, a, first, es) && first <= U64_MAX
    ensures Scan(c, cfg, a + b, first) == Prepend(es, |a|, Scan(c, cfg, b, SaturatingAdd(first, |es|)))
    decreases |es|
  {
    if es == [] {
      assert a + b == b && SaturatingAdd(first, |es|) == first;
      PrependNothing(Scan(c, cfg, b, first));
      assert Scan(c, cfg, a + b, first) == Prepend(es, |a|, Scan(c, cfg, b, SaturatingAdd(first, |es|)));
    } else {
      var n :| 0 < n <= |a| && IsGoodLine(c, cfg, a[..n], first, es[0])
               && IsLog(c, cfg, a[n..], SaturatingAdd(first, 1), es[1..]);
      var next := SaturatingAdd(first, 1);
      var (whole, mid) := (Scan(c, cfg, a + b, first), Scan(c, cfg, a[n..] + b, next));
      var rest := Scan(c, cfg, b, SaturatingAdd(first, |es|));
      AdvanceBy(first, |es|);
      ScanLog(c, cfg, a[n..], next, es[1..], b);
      assert mid == Prepend(es[1..], |a| - n, rest);
      SplitConcat(a, b, n);
      ScanGoodLine(c, cfg, a[..n], a[n..] + b, first, es[0]);
      assert whole == Prepend([es[0]], n, mid);
      PrependTwice(whole, mid, rest, es, n, |a| - n);
    }
  }

  /** The same for a log that ends the file. */
  lemma ScanWholeLog<E(!new)>(c: Codec<E>, cfg: Config, a: Bytes, es: seq<Entry<E>>)
    requires IsLog(c, cfg, a, 1, es)
    ensures Scan(c, cfg, a, 1) == Scanned(es, |a|, None)
  {
    ScanLog(c, cfg, a, 1, es, []);
    assert a + [] == a && es + [] == es;
  }

  lemma PrefixOfSplit(s: Bytes, n: nat, m: nat)
    requires n + m <= |s|
    ensures s[..n + m] == s[..n] + s[n..][..m]
  {
  }

  lemma LineOf<E(!new)>(c: Codec<E>, cfg: Config, s: Bytes, first: nat)
    requires s != [] && Check(c, cfg, s[..LineLength(s)], first).Good?
    ensures var n := LineLength(s);
            var entry := Check(c, cfg, s[..n], first).entry;
            && IsGoodLine(c, cfg, s[..n], first, entry)
            && Scan(c, cfg, s, first) == Prepend([entry], n, Scan(c, cfg, s[n..], SaturatingAdd(first, 1)))
  {
    var n := LineLength(s);
    assert s[..n][..n - 1] == s[..n - 1];
  }

  /** The bytes that a scan accepts. */
  function Kept<E>(c: Codec<E>, cfg: Config, s: Bytes, first: nat): Bytes {
    s[..Scan(c, cfg, s, first).len]
  }

  lemma KeptStep<E(!new)>(c: Codec<E>, cfg: Config, s: Bytes, first: nat)
    requires s != [] && Check(c, cfg, s[..LineLength(s)], first).Good?
    ensures var n := LineLength(s);
            Kept(c, cfg, s, first) == s[..n] + Kept(c, cfg, s[n..], SaturatingAdd(first, 1))
  {
    LineOf(c, cfg, s, first);
    PrefixOfSplit(s, LineLength(s), Scan(c, cfg, s[LineLength(s)..], SaturatingAdd(first, 1)).len);
  }

  lemma KeptNothing<E>(c: Codec<E>, cfg: Config, s: Bytes, first: nat)
    requires s == [] || !Check(c, cfg, s[..LineLength(s)], first).Good?
    ensures Kept(c, cfg, s, first) == [] && Scan(c, cfg, s, first).entries == []
  {
  }

  /** What a scan accepts is a log. */
  lemma {:induction false} ScanFindsLog<E(!new)>(c: Codec<E>, cfg: Config, s: Bytes, first: nat)
    ensures IsLog(c, cfg, Kept(c, cfg, s, first), first, Scan(c, cfg, s, first).entries)
    decreases |s|
  {
    if s == [] || !Check(c, cfg, s[..LineLength(s)], first).Good? {
      KeptNothing(c, cfg, s, first);
    } else {
      var (line, rest, next) := (s[..LineLength(s)], s[LineLength(s)..], SaturatingAdd(first, 1));
      ScanFindsLog(c, cfg, rest, next);
      LineOf(c, cfg, s, first);
      KeptStep(c, cfg, s, first);
      LogCons(c, cfg, line, Kept(c, cfg, rest, next), first, Check(c, cfg, line, first).entry,
              Scan(c, cfg, rest, next).entries);
    }
  }

  /**
   Recovery refuses only a file whose first bad line belongs to another record; otherwise it returns
   the longest log with which the file begins, and cuts the file to exactly that log.
   */
  lemma RecoveryIsLongest<E(!new)>(c: Codec<E>, cfg: Config, s: Bytes, n: nat, es: seq<Entry<E>>)
    requires n <= |s| && IsLog(c, cfg, s[..n], 1, es)
    ensures var r := Recovered(c, cfg, s);
            r.Some? ==>
              && IsLog(c, cfg, s[..r.value.1], 1, r.value.0)
              && n <= r.value.1 && es <= r.value.0
  {
    ScanFindsLog(c, cfg, s, 1);
    ScanLog(c, cfg, s[..n], 1, es, s[n..]);
    SplitAt(s, n);
  }

  /** A repaired file is a fixed point: recovering or reading it again gives the same and changes nothing. */
  lemma RecoveryIsIdempotent<E(!new)>(c: Codec<E>, cfg: Config, s: Bytes)
    requires Recovered(c, cfg, s).Some?
    ensures var (es, len) := Recovered(c, cfg, s).value;
            && Recovered(c, cfg, s[..len]) == Some((es, |s[..len]|))
            && ReadPrefix(c, cfg, s[..len]) == Some((es, |s[..len]|))
  {
    var r := Scan(c, cfg, s, 1);
    ScanFindsLog(c, cfg, s, 1);
    ScanWholeLog(c, cfg, s[..r.len], r.entries);
    assert s[..r.len][0..] == s[..r.len];
  }

  lemma {:induction false} LogNumbers<E(!new)>(c: Codec<E>, cfg: Config, s: Bytes, first: nat, es: seq<Entry<E>>,
                                        i: nat)
    requires IsLog(c, cfg, s, first, es) && i < |es|
    ensures es[i].seqNo == SaturatingAdd(first, i) || (i == 0 && es[i].seqNo == first)
    decreases |es|
  {
    var n :| 0 < n <= |s| && IsGoodLine(c, cfg, s[..n], first, es[0])
             && IsLog(c, cfg, s[n..], SaturatingAdd(first, 1), es[1..]);
    if i > 0 {
      LogNumbers(c, cfg, s[n..], SaturatingAdd(first, 1), es[1..], i - 1);
    }
  }

  /** Recovered entries are numbered consecutively from 1. */
  lemma RecoveredNumbers<E(!new)>(c: Codec<E>, cfg: Config, s: Bytes, i: nat)
    requires Recovered(c, cfg, s).Some? && i < |Recovered(c, cfg, s).value.0| && |s| <= U64_MAX
    ensures Recovered(c, cfg, s).value.0[i].seqNo == i + 1
  {
    ScanFindsLog(c, cfg, s, 1);
    var (es, len) := Recovered(c, cfg, s).value;
    LogNumbers(c, cfg, s[..len], 1, es, i);
  }

  // ---------------------------------------------------------------------------------------
  // Cursors compose
  // ---------------------------------------------------------------------------------------

  /** The outcome of reading on, put behind what was read before. */
  function Continue<E>(es: seq<Entry<E>>, more: Option<(seq<Entry<E>>, nat)>): Option<(seq<Entry<E>>, nat)> {
    if more.None? then None else Some((es + more.value.0, more.value.1))
  }

  lemma AcceptedAfter<E>(es: seq<Entry<E>>, n: nat, rest: Scanned<E>)
    ensures Accepted(Prepend(es, n, rest), 0) == Continue(es, Accepted(rest, n))
  {
  }

  /**
   A reader that has read a file up to a cursor and later reads on from there sees exactly what a
   fresh read of the grown file sees: the same success or failure, entries and final cursor.
   */
  lemma CursorsCompose<E(!new)>(c: Codec<E>, cfg: Config, f: Bytes, grown: Bytes)
    requires f <= grown && ReadPrefix(c, cfg, f).Some?
    ensures var (es, cursor) := ReadPrefix(c, cfg, f).value;
            ReadPrefix(c, cfg, grown) == Continue(es, ReadSuffix(c, cfg, grown, cursor, SaturatingAdd(1, |es|)))
  {
    var r := Scan(c, cfg, f, 1);
    assert f[0..] == f && grown[0..] == grown;
    ScanFindsLog(c, cfg, f, 1);
    assert f[..r.len] == grown[..r.len];
    ScanLog(c, cfg, grown[..r.len], 1, r.entries, grown[r.len..]);
    SplitAt(grown, r.len);
    AcceptedAfter(r.entries, r.len, Scan(c, cfg, grown[r.len..], SaturatingAdd(1, |r.entries|)));
  }

  // ---------------------------------------------------------------------------------------
  // Appends
  // ---------------------------------------------------------------------------------------

  ghost predicate IsBodyOf<E>(cfg: Config, b: Body<E>) {
    b.schemaVersion == cfg.schemaVersion && b.recordId == cfg.recordId
  }

  /** A line that append accepts is one complete good line, within the bound of the readers. */
  lemma PreparedLineIsGood<E(!new)>(c: Codec<E>, cfg: Config, b: Body<E>)
    requires Faithful(c) && IsBodyOf(cfg, b) && Prepare(c, cfg, b).Some?
    ensures IsGoodLine(c, cfg, Prepare(c, cfg, b).value, b.seqNo, EntryOf(b))
  {
    var line := Prepare(c, cfg, b).value;
    var l := Line(b, c.checksum(b).value);
    assert c.encode(l).Some? && line == c.encode(l).value + [NEWLINE];
    assert line[..|line| - 1] == c.encode(l).value;
  }

  lemma LogCons<E(!new)>(c: Codec<E>, cfg: Config, line: Bytes, rest: Bytes, first: nat, e: Entry<E>, es: seq<Entry<E>>)
    requires IsGoodLine(c, cfg, line, first, e) && IsLog(c, cfg, rest, SaturatingAdd(first, 1), es)
    ensures IsLog(c, cfg, line + rest, first, [e] + es)
  {
    var (s, n) := (line + rest, |line|);
    assert s[..n] == line && s[n..] == rest && ([e] + es)[1..] == es;
  }

  lemma LogUncons<E(!new)>(c: Codec<E>, cfg: Config, s: Bytes, first: nat, es: seq<Entry<E>>)
    returns (line: Bytes, rest: Bytes)
    requires es != [] && IsLog(c, cfg, s, first, es)
    ensures s == line + rest && IsGoodLine(c, cfg, line, first, es[0])
    ensures IsLog(c, cfg, rest, SaturatingAdd(first, 1), es[1..])
  {
    var n :| 0 < n <= |s| && IsGoodLine(c, cfg, s[..n], first, es[0])
             && IsLog(c, cfg, s[n..], SaturatingAdd(first, 1), es[1..]);
    line, rest := s[..n], s[n..];
    SplitAt(s, n);
  }

  lemma HeadTail<T>(s: seq<T>)
    requires s != []
    ensures s == [s[0]] + s[1..]
  {
  }

  lemma {:induction false} LogSnoc<E(!new)>(c: Codec<E>, cfg: Config, s: Bytes, first: nat, es: seq<Entry<E>>,
                                            line: Bytes, e: Entry<E>)
    requires IsLog(c, cfg, s, first, es) && first <= U64_MAX
    requires IsGoodLine(c, cfg, line, SaturatingAdd(first, |es|), e)
    ensures IsLog(c, cfg, s + line, first, es + [e])
    decreases |es|
  {
    if es == [] {
      LogCons(c, cfg, line, [], first, e, []);
      assert s + line == line + [] && es + [e] == [e] + [];
    } else {
      var head, rest := LogUncons(c, cfg, s, first, es);
      AdvanceBy(first, |es|);
      LogSnoc(c, cfg, rest, SaturatingAdd(first, 1), es[1..], line, e);
      LogCons(c, cfg, head, rest + line, first, es[0], es[1..] + [e]);
      Regroup(head, rest, line);
      HeadTail(es);
      Regroup([es[0]], es[1..], [e]);
    }
  }

  lemma ScanTail<E>(c: Codec<E>, cfg: Config, tail: Bytes, expected: nat)
    requires NEWLINE !in tail
    ensures Scan(c, cfg, tail, expected) == Scanned([], 0, if tail == [] then None else Some(Torn))
  {
    if tail != [] {
      assert forall i :: 0 <= i < |tail| ==> tail[i] in tail;
      assert tail[..|tail|] == tail;
    }
  }

  /** A part of a line that stops short of its newline is a torn tail: recovery drops just that. */
  lemma TornTail<E(!new)>(c: Codec<E>, cfg: Config, s: Bytes, es: seq<Entry<E>>, tail: Bytes)
    requires IsLog(c, cfg, s, 1, es) && NEWLINE !in tail
    ensures Recovered(c, cfg, s + tail) == Some((es, |s|))
  {
    ScanLog(c, cfg, s, 1, es, tail);
    ScanTail(c, cfg, tail, SaturatingAdd(1, |es|));
    assert es + [] == es;
  }
}
