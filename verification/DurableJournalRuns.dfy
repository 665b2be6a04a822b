/**
 Whole runs of the journal: appends, writes that fail or are cut short by a crash, and reopens. A failed
 write that leaves bytes in the file is followed by a reopen, as a crash is; WithoutReopen shows what happens
 otherwise.
 */
module DurableJournalRuns {
  import opened Common
  import opened DurableJournal
  import opened DurableJournalTheorems

  /** An entry whose line reached the file whole, and whether its append reported success. */
  datatype Logged<E> = Logged(entry: Entry<E>, acked: bool)

  /** `writer` is the open journal's next sequence number; the log is the history of whole lines. */
  datatype World<E> = World(bytes: Bytes, writer: Option<nat>, log: seq<Logged<E>>, acked: seq<Entry<E>>, failures: nat)

  datatype Action<E> =
    | Append(eventId: string, wallTimeMs: int, mediaMs: nat, event: E, io: Write)
    | Crash
    | Reopen

  function Entries<E>(log: seq<Logged<E>>): seq<Entry<E>> {
    seq(|log|, i requires 0 <= i < |log| => log[i].entry)
  }

  /** The acknowledged entries, in order. */
  function Acked<E>(log: seq<Logged<E>>): seq<Entry<E>> {
    if log == [] then []
    else
      var (rest, last) := (Acked(log[..|log| - 1]), log[|log| - 1]);
      if last.acked then rest + [last.entry] else rest
  }

  function Next<E>(c: Codec<E>, cfg: Config, w: World<E>, a: Action<E>): Option<World<E>> {
    match a
    case Append(eventId, wallTimeMs, mediaMs, event, io) =>
      if w.writer.None? then None
      else
        var body := Body(cfg.schemaVersion, cfg.recordId, w.writer.value, eventId, wallTimeMs, mediaMs, event);
        (match Prepare(c, cfg, body)
         case None => Some(w)
         case Some(line) =>
           var (landed, entry) := (Landed(line, io), EntryOf(body));
           var log := if landed == line then w.log + [Logged(entry, io.Complete?)] else w.log;
           Some(if io.Complete?
                then World(w.bytes + landed, Some(w.writer.value + 1), log, w.acked + [entry], w.failures)
                else World(w.bytes + landed, if landed == [] then w.writer else None, log, w.acked, w.failures + 1)))
    case Crash => Some(w.(writer := None, failures := w.failures + 1))
    case Reopen =>
      match Recovered(c, cfg, w.bytes)
      case None => None
      case Some((es, len)) => Some(w.(bytes := w.bytes[..len], writer := Some(NextSeq(es))))
  }

  function Run<E>(c: Codec<E>, cfg: Config, actions: seq<Action<E>>): Option<World<E>> {
    if actions == [] then Some(World([], None, [], [], 0))
    else
      var before :- Run(c, cfg, actions[..|actions| - 1]);
      Next(c, cfg, before, actions[|actions| - 1])
  }

  /** The file is n bytes of log and a torn tail; an open journal, or one that never failed, has no tail. */
  ghost predicate Layout<E(!new)>(c: Codec<E>, cfg: Config, w: World<E>, n: nat) {
    && n <= |w.bytes|
    && IsLog(c, cfg, w.bytes[..n], 1, Entries(w.log))
    && NEWLINE !in w.bytes[n..]
    && (w.writer.Some? || w.failures == 0 ==> n == |w.bytes|)
  }

  ghost predicate Inv<E(!new)>(c: Codec<E>, cfg: Config, w: World<E>) {
    && (exists n: nat :: Layout(c, cfg, w, n))
    && (w.writer.Some? ==> w.writer.value == |w.log| + 1)
    && |w.log| < U64_MAX
    && w.acked == Acked(w.log)
    && |w.log| <= |w.acked| + w.failures
  }

  lemma InvRecovers<E(!new)>(c: Codec<E>, cfg: Config, w: World<E>) returns (n: nat)
    requires Inv(c, cfg, w)
    ensures Layout(c, cfg, w, n) && Recovered(c, cfg, w.bytes) == Some((Entries(w.log), n))
  {
    n :| Layout(c, cfg, w, n);
    TornTail(c, cfg, w.bytes[..n], Entries(w.log), w.bytes[n..]);
    SplitAt(w.bytes, n);
  }

  lemma ReopenKeeps<E(!new)>(c: Codec<E>, cfg: Config, w: World<E>, w': World<E>)
    requires Inv(c, cfg, w) && Next(c, cfg, w, Reopen) == Some(w')
    ensures Inv(c, cfg, w')
  {
    var n := InvRecovers(c, cfg, w);
    CutLayout(c, cfg, w, w', n);
    NextNumber(c, cfg, w.bytes[..n], w.log);
  }

  lemma CutLayout<E(!new)>(c: Codec<E>, cfg: Config, w: World<E>, w': World<E>, n: nat)
    requires Layout(c, cfg, w, n) && w'.bytes == w.bytes[..n] && w'.log == w.log
    ensures Layout(c, cfg, w', n)
  {
    assert w'.bytes[..n] == w.bytes[..n] && w'.bytes[n..] == [];
  }

  lemma NextNumber<E(!new)>(c: Codec<E>, cfg: Config, s: Bytes, log: seq<Logged<E>>)
    requires IsLog(c, cfg, s, 1, Entries(log)) && |log| < U64_MAX
    ensures NextSeq(Entries(log)) == |log| + 1
  {
    var es := Entries(log);
    if es != [] {
      LogNumbers(c, cfg, s, 1, es, |es| - 1);
    }
  }

  lemma EntriesSnoc<E>(log: seq<Logged<E>>, l: Logged<E>)
    ensures Entries(log + [l]) == Entries(log) + [l.entry]
    ensures Acked(log + [l]) == if l.acked then Acked(log) + [l.entry] else Acked(log)
  {
    assert (log + [l])[..|log + [l]| - 1] == log;
  }

  lemma AppendLayout<E(!new)>(c: Codec<E>, cfg: Config, w: World<E>, w': World<E>, line: Bytes, e: Entry<E>,
                       acked: bool)
    requires Layout(c, cfg, w, |w.bytes|) && IsGoodLine(c, cfg, line, |w.log| + 1, e) && |w.log| < U64_MAX
    requires w'.bytes == w.bytes + line && w'.log == w.log + [Logged(e, acked)]
    ensures Layout(c, cfg, w', |w'.bytes|)
  {
    assert w.bytes[..|w.bytes|] == w.bytes;
    LogSnoc(c, cfg, w.bytes, 1, Entries(w.log), line, e);
    EntriesSnoc(w.log, Logged(e, acked));
    assert w'.bytes[..|w'.bytes|] == w.bytes + line && w'.bytes[|w'.bytes|..] == [];
  }

  lemma TornLayout<E(!new)>(c: Codec<E>, cfg: Config, w: World<E>, w': World<E>, torn: Bytes)
    requires Layout(c, cfg, w, |w.bytes|) && NEWLINE !in torn
    requires w'.bytes == w.bytes + torn && w'.log == w.log && w'.failures > 0
    requires w'.writer == None || torn == []
    ensures Layout(c, cfg, w', |w.bytes|)
  {
    assert w.bytes[..|w.bytes|] == w.bytes;
    assert w'.bytes[..|w.bytes|] == w.bytes && w'.bytes[|w.bytes|..] == torn;
  }

  lemma TornIsNoLine(line: Bytes, io: Write)
    requires IsLine(line) && Landed(line, io) != line
    ensures NEWLINE !in Landed(line, io) && !io.Complete?
  {
    var torn := Landed(line, io);
    assert torn == line[..|line| - 1][..|torn|];
  }

  lemma AppendKeeps<E(!new)>(c: Codec<E>, cfg: Config, w: World<E>, w': World<E>, a: Action<E>)
    requires Faithful(c) && Inv(c, cfg, w) && a.Append? && Next(c, cfg, w, a) == Some(w')
    ensures Inv(c, cfg, w')
  {
    var body := Body(cfg.schemaVersion, cfg.recordId, w.writer.value, a.eventId, a.wallTimeMs, a.mediaMs, a.event);
    var prepared := Prepare(c, cfg, body);
    if prepared.Some? {
      var (line, entry) := (prepared.value, EntryOf(body));
      PreparedLineIsGood(c, cfg, body);
      if Landed(line, a.io) == line {
        AppendLayout(c, cfg, w, w', line, entry, a.io.Complete?);
        EntriesSnoc(w.log, Logged(entry, a.io.Complete?));
      } else {
        TornIsNoLine(line, a.io);
        TornLayout(c, cfg, w, w', Landed(line, a.io));
      }
    }
  }

  lemma {:induction false} RunInv<E(!new)>(c: Codec<E>, cfg: Config, actions: seq<Action<E>>)
    requires Faithful(c) && Run(c, cfg, actions).Some?
    ensures Inv(c, cfg, Run(c, cfg, actions).value)
  {
    var w := Run(c, cfg, actions).value;
    if actions == [] {
      assert w.bytes[..0] == [] && Entries(w.log) == [];
      assert Layout(c, cfg, w, 0);
    } else {
      var k := |actions| - 1;
      RunInv(c, cfg, actions[..k]);
      var before := Run(c, cfg, actions[..k]).value;
      match actions[k]
      case Append(_, _, _, _, _) => AppendKeeps(c, cfg, before, w, actions[k]);
      case Crash =>
        var n: nat :| Layout(c, cfg, before, n);
        assert Layout(c, cfg, w, n);
      case Reopen => ReopenKeeps(c, cfg, before, w);
    }
  }

  /**
   After any run recovery succeeds. It returns entries numbered consecutively from 1, among them
   every acknowledged entry in order, and at most one unacknowledged entry for each failed write.
   */
  lemma AcknowledgedEntriesSurvive<E(!new)>(c: Codec<E>, cfg: Config, actions: seq<Action<E>>)
    requires Faithful(c) && Run(c, cfg, actions).Some?
    ensures var w := Run(c, cfg, actions).value;
            && Recovered(c, cfg, w.bytes).Some?
            && var es := Recovered(c, cfg, w.bytes).value.0;
            && es == Entries(w.log) && Acked(w.log) == w.acked
            && |w.acked| <= |es| <= |w.acked| + w.failures
            && (forall i :: 0 <= i < |es| ==> es[i].seqNo == i + 1)
  {
    RunInv(c, cfg, actions);
    var w := Run(c, cfg, actions).value;
    var n := InvRecovers(c, cfg, w);
    var es := Entries(w.log);
    AckedIsShorter(w.log);
    forall i | 0 <= i < |es|
      ensures es[i].seqNo == i + 1
    {
      LogNumbers(c, cfg, w.bytes[..n], 1, es, i);
    }
  }

  lemma {:induction false} AckedIsShorter<E>(log: seq<Logged<E>>)
    ensures |Acked(log)| <= |log|
    ensures |Acked(log)| == |log| ==> Acked(log) == Entries(log)
  {
    if log != [] {
      var n := |log| - 1;
      AckedIsShorter(log[..n]);
      assert Entries(log) == Entries(log[..n]) + [log[n].entry];
    }
  }

  /** Without failures the file holds exactly the acknowledged entries. */
  lemma NoFailureNothingElse<E(!new)>(c: Codec<E>, cfg: Config, actions: seq<Action<E>>)
    requires Faithful(c) && Run(c, cfg, actions).Some? && Run(c, cfg, actions).value.failures == 0
    ensures var w := Run(c, cfg, actions).value;
            Recovered(c, cfg, w.bytes) == Some((w.acked, |w.bytes|))
  {
    RunInv(c, cfg, actions);
    var w := Run(c, cfg, actions).value;
    var _ := InvRecovers(c, cfg, w);
    AckedIsShorter(w.log);
  }

  // ---------------------------------------------------------------------------------------
  // Without the reopen
  // ---------------------------------------------------------------------------------------

  /** What a scan makes of one complete line and whatever follows it. */
  lemma ScanLineThen<E(!new)>(c: Codec<E>, cfg: Config, line: Bytes, rest: Bytes, expected: nat)
    requires IsLine(line)
    ensures Scan(c, cfg, line + rest, expected).entries
            == match Check(c, cfg, line, expected)
               case Good(e) => [e] + Scan(c, cfg, rest, SaturatingAdd(expected, 1)).entries
               case _ => []
  {
    var n := |line|;
    assert (line + rest)[..n] == line && (line + rest)[n..] == rest;
    assert (line + rest)[..n - 1] == line[..n - 1];
    LineLengthIs(line + rest, n);
  }

  /** A failed append, and how many bytes of its line have landed. */
  datatype Attempt<E> = Attempt(body: Body<E>, landed: nat)

  /** Its line was prepared under this number, and part or all of it has landed. */
  ghost predicate IsAttempt<E>(c: Codec<E>, cfg: Config, a: Attempt<E>, n: nat) {
    && IsBodyOf(cfg, a.body) && a.body.seqNo == n && Prepare(c, cfg, a.body).Some?
    && a.landed <= |Prepare(c, cfg, a.body).value|
  }

  ghost predicate AreAttempts<E>(c: Codec<E>, cfg: Config, attempts: seq<Attempt<E>>, n: nat) {
    forall a :: a in attempts ==> IsAttempt(c, cfg, a, n)
  }

  function LandedOf<E>(c: Codec<E>, cfg: Config, a: Attempt<E>): Bytes {
    match Prepare(c, cfg, a.body)
    case Some(line) => if a.landed <= |line| then line[..a.landed] else line
    case None => []
  }

  /** What failed appends leave in the file. */
  function Remains<E>(c: Codec<E>, cfg: Config, attempts: seq<Attempt<E>>): Bytes {
    if attempts == [] then [] else LandedOf(c, cfg, attempts[0]) + Remains(c, cfg, attempts[1..])
  }

  /** The line has landed whole, although the append failed. */
  predicate IsWhole<E>(c: Codec<E>, cfg: Config, a: Attempt<E>) {
    Prepare(c, cfg, a.body).Some? && a.landed == |Prepare(c, cfg, a.body).value|
  }

  /** What recovery finds in a line, read under this number, and in whatever follows it. */
  function FoundIn<E>(c: Codec<E>, cfg: Config, line: Bytes, rest: Bytes, n: nat): seq<Entry<E>> {
    match Check(c, cfg, line, n)
    case Good(e) => [e] + Scan(c, cfg, rest, SaturatingAdd(n, 1)).entries
    case _ => []
  }

  /** The remains of failed appends run into the first line that lands whole, and make one line with it. */
  function FoundAfter<E>(c: Codec<E>, cfg: Config, remains: Bytes, attempts: seq<Attempt<E>>, line: Bytes, rest: Bytes,
                         n: nat): seq<Entry<E>>
    decreases |attempts|
  {
    if attempts == [] then FoundIn(c, cfg, remains + line, rest, n)
    else
      var landed := remains + LandedOf(c, cfg, attempts[0]);
      if IsWhole(c, cfg, attempts[0]) then
        FoundIn(c, cfg, landed, Remains(c, cfg, attempts[1..]) + (line + rest), n)
      else FoundAfter(c, cfg, landed, attempts[1..], line, rest, n)
  }

  predicate IsLine(line: Bytes) {
    line != [] && NEWLINE !in line[..|line| - 1] && line[|line| - 1] == NEWLINE
  }

  lemma BehindRemains(remains: Bytes, line: Bytes)
    requires NEWLINE !in remains && IsLine(line)
    ensures IsLine(remains + line)
  {
    assert (remains + line)[..|remains + line| - 1] == remains + line[..|line| - 1];
  }

  lemma AttemptLands<E(!new)>(c: Codec<E>, cfg: Config, a: Attempt<E>, n: nat)
    requires Faithful(c) && IsAttempt(c, cfg, a, n)
    ensures IsWhole(c, cfg, a) ==> IsLine(LandedOf(c, cfg, a))
    ensures !IsWhole(c, cfg, a) ==> NEWLINE !in LandedOf(c, cfg, a)
  {
    var line := Prepare(c, cfg, a.body).value;
    PreparedLineIsGood(c, cfg, a.body);
    if a.landed < |line| {
      assert line[..a.landed] == line[..|line| - 1][..a.landed];
    } else {
      assert line[..a.landed] == line;
    }
  }

  lemma {:induction false} ScanAfter<E(!new)>(c: Codec<E>, cfg: Config, remains: Bytes, attempts: seq<Attempt<E>>,
                                              line: Bytes, rest: Bytes, n: nat)
    requires Faithful(c) && AreAttempts(c, cfg, attempts, n) && NEWLINE !in remains && IsLine(line)
    ensures Scan(c, cfg, remains + (Remains(c, cfg, attempts) + (line + rest)), n).entries
            == FoundAfter(c, cfg, remains, attempts, line, rest, n)
    decreases |attempts|
  {
    if attempts == [] {
      BehindRemains(remains, line);
      ScanLineThen(c, cfg, remains + line, rest, n);
      Regroup(remains, line, rest);
      assert Remains(c, cfg, attempts) + (line + rest) == line + rest;
    } else {
      ScanAfterOne(c, cfg, remains, attempts, line, rest, n);
    }
  }

  lemma ScanAfterOne<E(!new)>(c: Codec<E>, cfg: Config, remains: Bytes, attempts: seq<Attempt<E>>,
                              line: Bytes, rest: Bytes, n: nat)
    requires Faithful(c) && AreAttempts(c, cfg, attempts, n) && NEWLINE !in remains && IsLine(line)
    requires attempts != []
    ensures Scan(c, cfg, remains + (Remains(c, cfg, attempts) + (line + rest)), n).entries
            == FoundAfter(c, cfg, remains, attempts, line, rest, n)
    decreases |attempts|, 0
  {
    var (first, behind) := (LandedOf(c, cfg, attempts[0]), Remains(c, cfg, attempts[1..]) + (line + rest));
    AttemptLands(c, cfg, attempts[0], n);
    Regroup(first, Remains(c, cfg, attempts[1..]), line + rest);
    Regroup(remains, first, behind);
    if IsWhole(c, cfg, attempts[0]) {
      BehindRemains(remains, first);
      ScanLineThen(c, cfg, remains + first, behind, n);
    } else {
      ScanAfter(c, cfg, remains + first, attempts[1..], line, rest, n);
    }
  }

  lemma ScanBehindLog<E(!new)>(c: Codec<E>, cfg: Config, s: Bytes, es: seq<Entry<E>>, tail: Bytes)
    requires IsLog(c, cfg, s, 1, es) && |es| < U64_MAX
    ensures Scan(c, cfg, s + tail, 1).entries == es + Scan(c, cfg, tail, |es| + 1).entries
  {
    ScanLog(c, cfg, s, 1, es, tail);
  }

  /**
   Any number of appends fail after part or all of their lines, and the journal is used on without a reopen:
   the next append writes its line under the same number behind those bytes, and any number of further appends,
   whatever becomes of them, write the rest. Recovery finds the log, and behind it what the first line that has
   landed whole holds, read together with the remains before it.
   */
  lemma WithoutReopen<E(!new)>(c: Codec<E>, cfg: Config, s: Bytes, es: seq<Entry<E>>, attempts: seq<Attempt<E>>,
                               b: Body<E>, rest: Bytes)
    requires Faithful(c) && IsLog(c, cfg, s, 1, es) && AreAttempts(c, cfg, attempts, |es| + 1)
    requires IsBodyOf(cfg, b) && b.seqNo == |es| + 1 && Prepare(c, cfg, b).Some?
    ensures var line := Prepare(c, cfg, b).value;
            Scan(c, cfg, s + (Remains(c, cfg, attempts) + (line + rest)), 1).entries
            == es + FoundAfter(c, cfg, [], attempts, line, rest, |es| + 1)
  {
    var line := Prepare(c, cfg, b).value;
    var tail := Remains(c, cfg, attempts) + (line + rest);
    PreparedLineIsGood(c, cfg, b);
    ScanBehindLog(c, cfg, s, es, tail);
    ScanAfter(c, cfg, [], attempts, line, rest, |es| + 1);
    assert [] + tail == tail;
  }

  lemma {:induction false} FoundAfterParts<E(!new)>(c: Codec<E>, cfg: Config, remains: Bytes,
                                                    attempts: seq<Attempt<E>>, line: Bytes, rest: Bytes, n: nat)
    requires forall a :: a in attempts ==> !IsWhole(c, cfg, a)
    ensures FoundAfter(c, cfg, remains, attempts, line, rest, n)
            == FoundIn(c, cfg, remains + (Remains(c, cfg, attempts) + line), rest, n)
    decreases |attempts|
  {
    if attempts == [] {
      assert Remains(c, cfg, attempts) + line == line;
    } else {
      var first := LandedOf(c, cfg, attempts[0]);
      FoundAfterParts(c, cfg, remains + first, attempts[1..], line, rest, n);
      Regroup(first, Remains(c, cfg, attempts[1..]), line);
      Regroup(remains, first, Remains(c, cfg, attempts[1..]) + line);
    }
  }

  /**
   When no failed line has landed whole, and the further appends are complete lines under the next numbers, all
   entries acknowledged since survive exactly when the first of their lines, read together with the remains
   before it, still checks as its own entry; if that checks as no entry at all, none of them does.
   */
  lemma AcknowledgedAfterFailures<E(!new)>(c: Codec<E>, cfg: Config, s: Bytes, es: seq<Entry<E>>,
                                           attempts: seq<Attempt<E>>, b: Body<E>, rest: Bytes, later: seq<Entry<E>>)
    requires Faithful(c) && IsLog(c, cfg, s, 1, es) && AreAttempts(c, cfg, attempts, |es| + 1)
    requires IsBodyOf(cfg, b) && b.seqNo == |es| + 1 && Prepare(c, cfg, b).Some?
    requires (forall a :: a in attempts ==> !IsWhole(c, cfg, a)) && IsLog(c, cfg, rest, |es| + 2, later)
    ensures var (remains, line) := (Remains(c, cfg, attempts), Prepare(c, cfg, b).value);
            var found := Scan(c, cfg, s + (remains + (line + rest)), 1).entries;
            && (found == es + ([EntryOf(b)] + later) <==> Check(c, cfg, remains + line, |es| + 1) == Good(EntryOf(b)))
            && (!Check(c, cfg, remains + line, |es| + 1).Good? ==> found == es)
  {
    var (remains, line) := (Remains(c, cfg, attempts), Prepare(c, cfg, b).value);
    FoundTogether(c, cfg, s, es, attempts, b, rest);
    FoundLater(c, cfg, remains + line, rest, |es| + 1, EntryOf(b), later);
    SameFront(es, FoundIn(c, cfg, remains + line, rest, |es| + 1), [EntryOf(b)] + later);
    assert es + [] == es;
  }

  lemma FoundTogether<E(!new)>(c: Codec<E>, cfg: Config, s: Bytes, es: seq<Entry<E>>, attempts: seq<Attempt<E>>,
                               b: Body<E>, rest: Bytes)
    requires Faithful(c) && IsLog(c, cfg, s, 1, es) && AreAttempts(c, cfg, attempts, |es| + 1)
    requires IsBodyOf(cfg, b) && b.seqNo == |es| + 1 && Prepare(c, cfg, b).Some?
    requires forall a :: a in attempts ==> !IsWhole(c, cfg, a)
    ensures var (remains, line) := (Remains(c, cfg, attempts), Prepare(c, cfg, b).value);
            Scan(c, cfg, s + (remains + (line + rest)), 1).entries
            == es + FoundIn(c, cfg, remains + line, rest, |es| + 1)
  {
    var (remains, line) := (Remains(c, cfg, attempts), Prepare(c, cfg, b).value);
    WithoutReopen(c, cfg, s, es, attempts, b, rest);
    FoundAfterParts(c, cfg, [], attempts, line, rest, |es| + 1);
    assert [] + (remains + line) == remains + line;
  }

  lemma FoundLater<E(!new)>(c: Codec<E>, cfg: Config, line: Bytes, rest: Bytes, n: nat, e: Entry<E>,
                            later: seq<Entry<E>>)
    requires n < U64_MAX && IsLog(c, cfg, rest, n + 1, later)
    ensures FoundIn(c, cfg, line, rest, n) == [e] + later <==> Check(c, cfg, line, n) == Good(e)
    ensures !Check(c, cfg, line, n).Good? ==> FoundIn(c, cfg, line, rest, n) == []
  {
    ScanWholeRest(c, cfg, rest, n + 1, later);
    var found := FoundIn(c, cfg, line, rest, n);
    assert found != [] && found == [e] + later ==> found[0] == e;
  }

  /** If nothing of the failed lines has landed, the next append is as good as the first. */
  lemma NothingLanded<E(!new)>(c: Codec<E>, cfg: Config, attempts: seq<Attempt<E>>, b: Body<E>)
    requires Faithful(c) && IsBodyOf(cfg, b) && Prepare(c, cfg, b).Some? && Remains(c, cfg, attempts) == []
    ensures Check(c, cfg, Remains(c, cfg, attempts) + Prepare(c, cfg, b).value, b.seqNo) == Good(EntryOf(b))
  {
    PreparedLineIsGood(c, cfg, b);
    assert [] + Prepare(c, cfg, b).value == Prepare(c, cfg, b).value;
  }

  /**
   When a failed line has landed whole, the next append repeats its number: recovery finds the failed entry and
   none that was acknowledged since.
   */
  lemma WholeLineHidesLater<E(!new)>(c: Codec<E>, cfg: Config, s: Bytes, es: seq<Entry<E>>, a: Attempt<E>, b: Body<E>,
                                     rest: Bytes)
    requires Faithful(c) && IsLog(c, cfg, s, 1, es) && IsAttempt(c, cfg, a, |es| + 1) && IsWhole(c, cfg, a)
    requires IsBodyOf(cfg, b) && b.seqNo == |es| + 1 && Prepare(c, cfg, b).Some?
    ensures var tail := LandedOf(c, cfg, a) + (Prepare(c, cfg, b).value + rest);
            Scan(c, cfg, s + tail, 1).entries == es + [EntryOf(a.body)]
  {
    var (line1, line2) := (Prepare(c, cfg, a.body).value, Prepare(c, cfg, b).value);
    PreparedLineIsGood(c, cfg, a.body);
    PreparedLineIsGood(c, cfg, b);
    assert LandedOf(c, cfg, a) == line1;
    ScanBehindLog(c, cfg, s, es, line1 + (line2 + rest));
    ScanRepeatedNumber(c, cfg, line1, line2, rest, |es| + 1, EntryOf(a.body), EntryOf(b));
  }

  /** A second line under the number of the line before it ends the scan. */
  lemma ScanRepeatedNumber<E(!new)>(c: Codec<E>, cfg: Config, line1: Bytes, line2: Bytes, rest: Bytes, n: nat,
                                    e1: Entry<E>, e2: Entry<E>)
    requires n < U64_MAX && IsGoodLine(c, cfg, line1, n, e1) && IsGoodLine(c, cfg, line2, n, e2)
    ensures Scan(c, cfg, line1 + (line2 + rest), n).entries == [e1]
  {
    ScanLineThen(c, cfg, line1, line2 + rest, n);
    WrongNumber(c, cfg, line2, n, e2);
    ScanLineThen(c, cfg, line2, rest, n + 1);
  }

  lemma WrongNumber<E(!new)>(c: Codec<E>, cfg: Config, line: Bytes, n: nat, e: Entry<E>)
    requires IsGoodLine(c, cfg, line, n, e)
    ensures IsLine(line) && !Check(c, cfg, line, n + 1).Good?
  {
  }

  lemma SameFront<T>(front: seq<T>, a: seq<T>, b: seq<T>)
    ensures front + a == front + b <==> a == b
  {
    assert (front + a)[|front|..] == a && (front + b)[|front|..] == b;
  }

  lemma ScanWholeRest<E(!new)>(c: Codec<E>, cfg: Config, s: Bytes, first: nat, es: seq<Entry<E>>)
    requires IsLog(c, cfg, s, first, es) && first <= U64_MAX
    ensures Scan(c, cfg, s, first).entries == es
  {
    ScanLog(c, cfg, s, first, es, []);
    assert s + [] == s && es + [] == es;
  }
}
