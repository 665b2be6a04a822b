/**
 The sweep of crash_artifact_retention.rs. Directory entries are values; whether removing a file works
 is an arbitrary function, one for each of the two passes, since each pass tries a file at most once.
 */
module CrashRetention {
  import opened Common
  import opened Sorting

  datatype Policy = Policy(maxAge: nat, maxFiles: nat, maxFileBytes: nat, maxDirBytes: nat)

  datatype Metadata = Metadata(isFile: bool, modified: Option<nat>, size: nat)

  /** Metadata is missing when it could not be read. */
  datatype DirEntry = DirEntry(filename: string, isLog: bool, metadata: Option<Metadata>)

  datatype Artifact = Artifact(filename: string, modified: nat, size: nat)

  datatype Report = Report(scanned: nat, ageDeleted: nat, oversizedDeleted: nat, budgetDeleted: nat,
                           filesAfter: nat, bytesAfter: nat)

  // ---------------------------------------------------------------------------------------
  // Lists
  // ---------------------------------------------------------------------------------------

  function Filter<T>(keep: T -> bool, xs: seq<T>): (r: seq<T>)
    ensures |r| <= |xs|
  {
    if xs == [] then []
    else
      var last := xs[|xs| - 1];
      Filter(keep, xs[..|xs| - 1]) + (if keep(last) then [last] else [])
  }

  lemma FilterSnoc<T>(keep: T -> bool, xs: seq<T>, n: nat)
    requires n < |xs|
    ensures Filter(keep, xs[..n + 1]) == Filter(keep, xs[..n]) + (if keep(xs[n]) then [xs[n]] else [])
  {
    assert xs[..n + 1][..n] == xs[..n];
  }

  lemma {:induction false} FilterMembers<T>(keep: T -> bool, xs: seq<T>, x: T)
    ensures x in Filter(keep, xs) <==> x in xs && keep(x)
  {
    if xs != [] {
      var n := |xs| - 1;
      FilterMembers(keep, xs[..n], x);
      assert xs == xs[..n] + [xs[n]];
    }
  }

  function Bytes(s: seq<Artifact>): nat {
    if s == [] then 0 else Bytes(s[..|s| - 1]) + s[|s| - 1].size
  }

  lemma {:induction false} BytesConcat(a: seq<Artifact>, b: seq<Artifact>)
    ensures Bytes(a + b) == Bytes(a) + Bytes(b)
  {
    if b == [] {
      assert a + b == a;
    } else {
      assert (a + b)[..|a + b| - 1] == a + b[..|b| - 1];
      BytesConcat(a, b[..|b| - 1]);
    }
  }

  // ---------------------------------------------------------------------------------------
  // The first pass: age and size
  // ---------------------------------------------------------------------------------------

  predicate IsArtifact(e: DirEntry) {
    e.isLog && e.metadata.Some? && e.metadata.value.isFile
  }

  /** An unknown modification time counts as the epoch. */
  function ArtifactOf(e: DirEntry): Artifact {
    match e.metadata
    case Some(m) => Artifact(e.filename, if m.modified.Some? then m.modified.value else 0, m.size)
    case None => Artifact(e.filename, 0, 0)
  }

  function Artifacts(entries: seq<DirEntry>): seq<Artifact> {
    if entries == [] then []
    else
      var last := entries[|entries| - 1];
      Artifacts(entries[..|entries| - 1]) + (if IsArtifact(last) then [ArtifactOf(last)] else [])
  }

  lemma ArtifactsSnoc(entries: seq<DirEntry>, n: nat)
    requires n < |entries|
    ensures Artifacts(entries[..n + 1])
            == Artifacts(entries[..n]) + (if IsArtifact(entries[n]) then [ArtifactOf(entries[n])] else [])
  {
    assert entries[..n + 1][..n] == entries[..n];
  }

  predicate IsOversized(policy: Policy, a: Artifact) {
    a.size > policy.maxFileBytes
  }

  /** A file from the future has no age. */
  predicate IsExpired(policy: Policy, now: nat, a: Artifact) {
    now >= a.modified && now - a.modified > policy.maxAge
  }

  function DeletedAsOversized(policy: Policy, remove: string -> bool): Artifact -> bool {
    (a: Artifact) => IsOversized(policy, a) && remove(a.filename)
  }

  function DeletedForAge(policy: Policy, now: nat, remove: string -> bool): Artifact -> bool {
    (a: Artifact) => !IsOversized(policy, a) && IsExpired(policy, now, a) && remove(a.filename)
  }

  /** What the first pass leaves: files within limits, and those it could not remove. */
  function Survives(policy: Policy, now: nat, remove: string -> bool): Artifact -> bool {
    (a: Artifact) => !((IsOversized(policy, a) || IsExpired(policy, now, a)) && remove(a.filename))
  }

  /** The first pass deletes each file for one reason or leaves it. */
  lemma {:induction false} FirstPassAccounts(policy: Policy, now: nat, remove: string -> bool, all: seq<Artifact>)
    ensures |Filter(DeletedForAge(policy, now, remove), all)| + |Filter(DeletedAsOversized(policy, remove), all)|
            + |Filter(Survives(policy, now, remove), all)| == |all|
  {
    if all != [] {
      FirstPassAccounts(policy, now, remove, all[..|all| - 1]);
    }
  }

  method FirstPass(entries: seq<DirEntry>, policy: Policy, now: nat, remove: string -> bool)
    returns (survivors: seq<Artifact>, scanned: nat, age: nat, oversized: nat)
    ensures var all := Artifacts(entries);
            && scanned == |all|
            && survivors == Filter(Survives(policy, now, remove), all)
            && age == |Filter(DeletedForAge(policy, now, remove), all)|
            && oversized == |Filter(DeletedAsOversized(policy, remove), all)|
  {
    survivors, scanned, age, oversized := [], 0, 0, 0;
    ghost var all := Artifacts(entries);
    for i := 0 to |entries|
      invariant scanned == |Artifacts(entries[..i])| <= |all| && Artifacts(entries[..i]) == all[..scanned]
      invariant survivors == Filter(Survives(policy, now, remove), all[..scanned])
      invariant age == |Filter(DeletedForAge(policy, now, remove), all[..scanned])|
      invariant oversized == |Filter(DeletedAsOversized(policy, remove), all[..scanned])|
    {
      ArtifactsSnoc(entries, i);
      ArtifactsPrefix(entries, i + 1);
      if !IsArtifact(entries[i]) {
        continue;
      }
      var artifact := ArtifactOf(entries[i]);
      assert all[scanned] == artifact;
      FilterSnoc(Survives(policy, now, remove), all, scanned);
      FilterSnoc(DeletedForAge(policy, now, remove), all, scanned);
      FilterSnoc(DeletedAsOversized(policy, remove), all, scanned);
      scanned := scanned + 1;
      var isOversized := IsOversized(policy, artifact);
      if isOversized || IsExpired(policy, now, artifact) {
        if remove(artifact.filename) {
          if isOversized {
            oversized := oversized + 1;
          } else {
            age := age + 1;
          }
          continue;
        }
      }
      survivors := survivors + [artifact];
    }
    assert entries[..|entries|] == entries && all[..scanned] == all;
  }

  lemma {:induction false} ArtifactsPrefix(entries: seq<DirEntry>, n: nat)
    requires n <= |entries|
    ensures Artifacts(entries[..n]) <= Artifacts(entries)
    decreases |entries| - n
  {
    if n == |entries| {
      assert entries[..n] == entries;
    } else {
      ArtifactsSnoc(entries, n);
      ArtifactsPrefix(entries, n + 1);
    }
  }

  // ---------------------------------------------------------------------------------------
  // The order
  // ---------------------------------------------------------------------------------------

  /** The dictionary order of file names. */
  predicate StringLe(a: string, b: string) {
    a == "" || (b != "" && (a[0] < b[0] || (a[0] == b[0] && StringLe(a[1..], b[1..]))))
  }

  lemma {:induction false} StringLeIsTotal(a: string, b: string)
    ensures StringLe(a, b) || StringLe(b, a)
    ensures StringLe(a, b) && StringLe(b, a) ==> a == b
  {
    if a != "" && b != "" && a[0] == b[0] {
      StringLeIsTotal(a[1..], b[1..]);
      assert a == [a[0]] + a[1..] && b == [b[0]] + b[1..];
    }
  }

  lemma {:induction false} StringLeIsTransitive(a: string, b: string, c: string)
    requires StringLe(a, b) && StringLe(b, c)
    ensures StringLe(a, c)
  {
    if a != "" && a[0] == b[0] == c[0] {
      StringLeIsTransitive(a[1..], b[1..], c[1..]);
    }
  }

  /** Oldest first; the file name decides between equal times. */
  predicate OlderOrSame(a: Artifact, b: Artifact) {
    a.modified < b.modified || (a.modified == b.modified && StringLe(a.filename, b.filename))
  }

  function OldestFirst(): (Artifact, Artifact) -> bool {
    (a: Artifact, b: Artifact) => OlderOrSame(a, b)
  }

  lemma OldestFirstIsOrder()
    ensures IsTotalOrder(OldestFirst())
  {
    forall a: Artifact, b: Artifact
      ensures OldestFirst()(a, b) || OldestFirst()(b, a)
    {
      StringLeIsTotal(a.filename, b.filename);
    }
    forall a: Artifact, b: Artifact, c: Artifact | OldestFirst()(a, b) && OldestFirst()(b, c)
      ensures OldestFirst()(a, c)
    {
      if a.modified == b.modified == c.modified {
        StringLeIsTransitive(a.filename, b.filename, c.filename);
      }
    }
  }

  // ---------------------------------------------------------------------------------------
  // The second pass: budgets
  // ---------------------------------------------------------------------------------------

  function Refused(remove: string -> bool): Artifact -> bool {
    (a: Artifact) => !remove(a.filename)
  }

  /** What is left after trying to remove the first n files. */
  function After(remove: string -> bool, s: seq<Artifact>, n: nat): seq<Artifact>
    requires n <= |s|
  {
    Filter(Refused(remove), s[..n]) + s[n..]
  }

  predicate Fits(policy: Policy, s: seq<Artifact>) {
    |s| <= policy.maxFiles && Bytes(s) <= policy.maxDirBytes
  }

  /** The first point at which both budgets hold, or the end. */
  ghost predicate IsStop(policy: Policy, remove: string -> bool, s: seq<Artifact>, n: nat) {
    && n <= |s| && (n == |s| || Fits(policy, After(remove, s, n)))
    && forall m :: 0 <= m < n ==> !Fits(policy, After(remove, s, m))
  }

  ghost predicate NotBefore(policy: Policy, remove: string -> bool, s: seq<Artifact>, n: nat) {
    n <= |s| && forall m :: 0 <= m < n ==> !Fits(policy, After(remove, s, m))
  }

  lemma SplitAround(a: seq<Artifact>, x: Artifact, b: seq<Artifact>)
    ensures (a + ([x] + b))[|a|] == x
    ensures (a + ([x] + b))[..|a|] + (a + ([x] + b))[|a| + 1..] == a + b
  {
  }

  /** The next candidate stands right behind the refused files. */
  lemma NextCandidate(remove: string -> bool, s: seq<Artifact>, n: nat)
    requires n < |s|
    ensures var kept := |Filter(Refused(remove), s[..n])|;
            kept < |After(remove, s, n)| && After(remove, s, n)[kept] == s[n]
  {
  }

  lemma AfterRemoval(remove: string -> bool, s: seq<Artifact>, n: nat)
    requires n < |s| && remove(s[n].filename)
    ensures var kept := |Filter(Refused(remove), s[..n])|;
            && After(remove, s, n + 1) == After(remove, s, n)[..kept] + After(remove, s, n)[kept + 1..]
            && |Filter(Refused(remove), s[..n + 1])| == kept
  {
    FilterSnoc(Refused(remove), s, n);
    assert s[n..] == [s[n]] + s[n + 1..];
    SplitAround(Filter(Refused(remove), s[..n]), s[n], s[n + 1..]);
  }

  lemma AfterRefusal(remove: string -> bool, s: seq<Artifact>, n: nat)
    requires n < |s| && !remove(s[n].filename)
    ensures After(remove, s, n + 1) == After(remove, s, n)
    ensures |Filter(Refused(remove), s[..n + 1])| == |Filter(Refused(remove), s[..n])| + 1
  {
    FilterSnoc(Refused(remove), s, n);
    assert s[n..] == [s[n]] + s[n + 1..];
  }

  lemma BytesWithout(s: seq<Artifact>, i: nat)
    requires i < |s|
    ensures Bytes(s) == Bytes(s[..i] + s[i + 1..]) + s[i].size
  {
    var (a, b) := (s[..i], s[i + 1..]);
    assert s == (a + [s[i]]) + b;
    BytesConcat(a + [s[i]], b);
    BytesConcat(a, b);
    assert (a + [s[i]])[..|a|] == a;
  }

  /** `saturating_sub`. */
  function SaturatingSub(x: nat, y: nat): nat {
    if y <= x then x - y else 0
  }

  lemma Overfull(policy: Policy, remove: string -> bool, s: seq<Artifact>, n: nat)
    requires NotBefore(policy, remove, s, n) && n < |s| && !Fits(policy, After(remove, s, n))
    ensures NotBefore(policy, remove, s, n + 1)
  {
  }

  /** One turn: the candidate goes, or is passed over. */
  method TryCandidate(sorted: seq<Artifact>, remove: string -> bool, survivors: seq<Artifact>, totalBytes: nat,
                      candidate: nat, ghost n: nat)
    returns (survivors': seq<Artifact>, totalBytes': nat, candidate': nat, removed: bool)
    requires n < |sorted| && survivors == After(remove, sorted, n) && totalBytes == Bytes(survivors)
    requires candidate == |Filter(Refused(remove), sorted[..n])|
    ensures survivors' == After(remove, sorted, n + 1) && totalBytes' == Bytes(survivors')
    ensures candidate' == |Filter(Refused(remove), sorted[..n + 1])|
    ensures |survivors'| + (if removed then 1 else 0) == |survivors|
  {
    NextCandidate(remove, sorted, n);
    removed := remove(survivors[candidate].filename);
    if removed {
      AfterRemoval(remove, sorted, n);
      BytesWithout(survivors, candidate);
      survivors' := survivors[..candidate] + survivors[candidate + 1..];
      totalBytes' := SaturatingSub(totalBytes, survivors[candidate].size);
      candidate' := candidate;
    } else {
      AfterRefusal(remove, sorted, n);
      survivors', totalBytes', candidate' := survivors, totalBytes, candidate + 1;
    }
  }

  method EnforceBudgets(policy: Policy, sorted: seq<Artifact>, remove: string -> bool)
    returns (survivors: seq<Artifact>, totalBytes: nat, deleted: nat, ghost stop: nat)
    ensures IsStop(policy, remove, sorted, stop) && survivors == After(remove, sorted, stop)
    ensures totalBytes == Bytes(survivors) && deleted + |survivors| == |sorted|
  {
    survivors, deleted, stop := sorted, 0, 0;
    totalBytes := TotalBytes(sorted);
    var candidate := 0;
    while (|survivors| > policy.maxFiles || totalBytes > policy.maxDirBytes) && candidate < |survivors|
      invariant NotBefore(policy, remove, sorted, stop) && survivors == After(remove, sorted, stop)
      invariant candidate == |Filter(Refused(remove), sorted[..stop])|
      invariant totalBytes == Bytes(survivors) && deleted + |survivors| == |sorted|
      decreases |sorted| - stop
    {
      Overfull(policy, remove, sorted, stop);
      var removed;
      survivors, totalBytes, candidate, removed := TryCandidate(sorted, remove, survivors, totalBytes, candidate, stop);
      deleted := if removed then deleted + 1 else deleted;
      stop := stop + 1;
    }
  }

  /** The sum of an iterator. */
  method TotalBytes(s: seq<Artifact>) returns (total: nat)
    ensures total == Bytes(s)
  {
    total := 0;
    for i := 0 to |s|
      invariant total == Bytes(s[..i])
    {
      assert s[..i + 1][..i] == s[..i];
      total := total + s[i].size;
    }
    assert s[..|s|] == s;
  }

  // ---------------------------------------------------------------------------------------
  // The sweep
  // ---------------------------------------------------------------------------------------

  /** The survivors of the first pass, oldest first. */
  function Remaining(entries: seq<DirEntry>, policy: Policy, now: nat, first: string -> bool): seq<Artifact> {
    SortBy(OldestFirst(), Filter(Survives(policy, now, first), Artifacts(entries)))
  }

  /** The second pass went through the files, oldest first, and stopped as soon as it could. */
  ghost predicate Swept(policy: Policy, remove: string -> bool, s: seq<Artifact>, left: seq<Artifact>) {
    exists n: nat :: IsStop(policy, remove, s, n) && left == After(remove, s, n)
  }

  /**
   Sweeps a directory, if it can be read; `first` and `second` say which removals work in each pass.
   Returns the report and the artifacts that are left.
   */
  method SweepCrashArtifacts(directory: Option<seq<DirEntry>>, policy: Policy, now: nat,
                             first: string -> bool, second: string -> bool)
    returns (report: Report, left: seq<Artifact>)
    ensures directory.None? ==> report == Report(0, 0, 0, 0, 0, 0) && left == []
    ensures directory.Some? ==>
              && report.scanned == |Artifacts(directory.value)|
              && report.scanned
                 == report.ageDeleted + report.oversizedDeleted + report.budgetDeleted + report.filesAfter
              && report.ageDeleted == |Filter(DeletedForAge(policy, now, first), Artifacts(directory.value))|
              && report.oversizedDeleted == |Filter(DeletedAsOversized(policy, first), Artifacts(directory.value))|
              && report.filesAfter == |left| && report.bytesAfter == Bytes(left)
              && Swept(policy, second, Remaining(directory.value, policy, now, first), left)
  {
    if directory.None? {
      return Report(0, 0, 0, 0, 0, 0), [];
    }
    var survivors, scanned, age, oversized := FirstPass(directory.value, policy, now, first);
    FirstPassAccounts(policy, now, first, Artifacts(directory.value));
    var sorted := SortBy(OldestFirst(), survivors);
    SortMembers(OldestFirst(), survivors);
    var totalBytes, deleted;
    ghost var stop;
    left, totalBytes, deleted, stop := EnforceBudgets(policy, sorted, second);
    assert Swept(policy, second, sorted, left);
    report := Report(scanned, age, oversized, deleted, |left|, totalBytes);
  }

  // ---------------------------------------------------------------------------------------
  // What the stopping point means
  // ---------------------------------------------------------------------------------------

  /** Both budgets hold, or every file that is left refused to go. */
  lemma BudgetsHoldOrAllRefused(policy: Policy, remove: string -> bool, s: seq<Artifact>, n: nat, a: Artifact)
    requires IsStop(policy, remove, s, n) && a in After(remove, s, n)
    ensures var left := After(remove, s, n);
            (|left| <= policy.maxFiles && Bytes(left) <= policy.maxDirBytes) || !remove(a.filename)
  {
    if n == |s| {
      FilterMembers(Refused(remove), s[..n], a);
    }
  }

  /** A file is deleted for the budget exactly when it stands before the stopping point and does not refuse. */
  lemma DeletedForBudget(remove: string -> bool, s: seq<Artifact>, n: nat, a: Artifact)
    requires n <= |s| && a in s && Distinct(s)
    ensures a !in After(remove, s, n) <==> a in s[..n] && remove(a.filename)
  {
    FilterMembers(Refused(remove), s[..n], a);
    var i :| 0 <= i < |s| && s[i] == a;
    if i < n {
      assert s[..n][i] == a;
      forall j | 0 <= j < |s| - n
        ensures s[n..][j] != a
      {
        assert s[n..][j] == s[n + j];
      }
    } else {
      assert s[n..][i - n] == a;
      forall j | 0 <= j < n
        ensures s[..n][j] != a
      {
      }
    }
  }

  /** No budget deletion skips an older file: what is left and older than a deleted one refused to go. */
  lemma OlderFilesRefused(policy: Policy, remove: string -> bool, s: seq<Artifact>, n: nat, deleted: Artifact,
                          left: Artifact)
    requires IsStop(policy, remove, s, n) && Sorted(OldestFirst(), s) && Distinct(s)
    requires deleted in s && deleted !in After(remove, s, n) && left in After(remove, s, n)
    ensures OlderOrSame(deleted, left) || !remove(left.filename)
  {
    DeletedForBudget(remove, s, n, deleted);
    var i :| 0 <= i < n && s[..n][i] == deleted;
    FilterMembers(Refused(remove), s[..n], left);
    if left !in Filter(Refused(remove), s[..n]) {
      var j :| 0 <= j < |s| - n && s[n..][j] == left;
      assert OldestFirst()(s[i], s[n + j]);
    }
  }

  /** Nothing is deleted for budgets that already hold. */
  lemma NothingDeletedWithinBudgets(policy: Policy, remove: string -> bool, s: seq<Artifact>, n: nat)
    requires IsStop(policy, remove, s, n) && |s| <= policy.maxFiles && Bytes(s) <= policy.maxDirBytes
    ensures n == 0 && After(remove, s, n) == s
  {
    assert After(remove, s, 0) == s;
  }

  /** If no removal fails, the newest files stay: as many as both budgets allow, in one run. */
  lemma NewestStay(policy: Policy, remove: string -> bool, s: seq<Artifact>, n: nat)
    requires IsStop(policy, remove, s, n) && forall a :: a in s ==> remove(a.filename)
    ensures After(remove, s, n) == s[n..]
    ensures |s[n..]| <= policy.maxFiles && Bytes(s[n..]) <= policy.maxDirBytes
    ensures n > 0 ==> |s[n - 1..]| > policy.maxFiles || Bytes(s[n - 1..]) > policy.maxDirBytes
  {
    NoneRefuse(remove, s, n);
    if n > 0 {
      NoneRefuse(remove, s, n - 1);
    }
    if n == |s| {
      assert s[n..] == [];
    }
  }

  lemma NoneRefuse(remove: string -> bool, s: seq<Artifact>, n: nat)
    requires n <= |s| && forall a :: a in s ==> remove(a.filename)
    ensures After(remove, s, n) == s[n..]
  {
    FilterNone(Refused(remove), s[..n]);
  }

  lemma {:induction false} FilterNone<T>(keep: T -> bool, xs: seq<T>)
    requires forall x :: x in xs ==> !keep(x)
    ensures Filter(keep, xs) == []
  {
    if xs != [] {
      FilterNone(keep, xs[..|xs| - 1]);
      assert xs[|xs| - 1] in xs;
    }
  }

  /** The list that the second pass works on is sorted and holds just the survivors of the first. */
  lemma RemainingIsSorted(entries: seq<DirEntry>, policy: Policy, now: nat, first: string -> bool, a: Artifact)
    ensures Sorted(OldestFirst(), Remaining(entries, policy, now, first))
    ensures a in Remaining(entries, policy, now, first) <==>
            a in Artifacts(entries) && Survives(policy, now, first)(a)
    ensures Distinct(Artifacts(entries)) ==> Distinct(Remaining(entries, policy, now, first))
  {
    var survivors := Filter(Survives(policy, now, first), Artifacts(entries));
    OldestFirstIsOrder();
    SortSorts(OldestFirst(), survivors);
    SortMembers(OldestFirst(), survivors);
    FilterMembers(Survives(policy, now, first), Artifacts(entries), a);
    if Distinct(Artifacts(entries)) {
      FilterDistinct(Survives(policy, now, first), Artifacts(entries));
      SortKeepsDistinct(OldestFirst(), survivors);
    }
  }

  lemma {:induction false} FilterDistinct<T>(keep: T -> bool, xs: seq<T>)
    requires Distinct(xs)
    ensures Distinct(Filter(keep, xs))
  {
    if xs != [] {
      var n := |xs| - 1;
      FilterDistinct(keep, xs[..n]);
      FilterMembers(keep, xs[..n], xs[n]);
    }
  }

  // ---------------------------------------------------------------------------------------
  // In plain terms
  // ---------------------------------------------------------------------------------------

  /** The artifacts are the log files whose metadata can be read; an unknown time counts as the epoch. */
  lemma {:induction false} ArtifactsExactly(entries: seq<DirEntry>, a: Artifact)
    ensures a in Artifacts(entries) <==>
            exists e :: e in entries && IsLogFile(e) && a.filename == e.filename
                        && a.size == e.metadata.value.size && a.modified == TimeOf(e.metadata.value)
  {
    if entries != [] {
      var n := |entries| - 1;
      ArtifactsExactly(entries[..n], a);
      assert entries == entries[..n] + [entries[n]];
    }
  }

  predicate IsLogFile(e: DirEntry) {
    e.isLog && e.metadata.Some? && e.metadata.value.isFile
  }

  function TimeOf(m: Metadata): nat {
    match m.modified
    case Some(t) => t
    case None => 0
  }

  lemma {:induction false} EveryLogFileCounts(entries: seq<DirEntry>)
    ensures |Artifacts(entries)| == |Filter(IsLogFile, entries)|
  {
    if entries != [] {
      EveryLogFileCounts(entries[..|entries| - 1]);
    }
  }

  /** A file goes for its size, or for an age beyond the limit; the size comes first in the count. */
  lemma FirstPassExactly(policy: Policy, now: nat, remove: string -> bool, entries: seq<DirEntry>, a: Artifact)
    requires a in Artifacts(entries)
    ensures var all := Artifacts(entries);
            var isOld := a.modified + policy.maxAge < now;
            && (a in Filter(DeletedAsOversized(policy, remove), all)
                <==> a.size > policy.maxFileBytes && remove(a.filename))
            && (a in Filter(DeletedForAge(policy, now, remove), all)
                <==> a.size <= policy.maxFileBytes && isOld && remove(a.filename))
            && (a in Filter(Survives(policy, now, remove), all)
                <==> (a.size <= policy.maxFileBytes && !isOld) || !remove(a.filename))
  {
    FilterMembers(DeletedAsOversized(policy, remove), Artifacts(entries), a);
    FilterMembers(DeletedForAge(policy, now, remove), Artifacts(entries), a);
    FilterMembers(Survives(policy, now, remove), Artifacts(entries), a);
    assert IsOversized(policy, a) <==> a.size > policy.maxFileBytes;
    assert IsExpired(policy, now, a) <==> a.modified + policy.maxAge < now;
    assert DeletedAsOversized(policy, remove)(a) <==> IsOversized(policy, a) && remove(a.filename);
  }

  /** The names agree up to k, where the first is smaller. */
  predicate DiffersAt(a: string, b: string, k: nat) {
    k < |a| && k < |b| && a[..k] == b[..k] && a[k] < b[k]
  }

  lemma FirstDecides(a: string, b: string, k: nat)
    requires DiffersAt(a, b, k)
    ensures a[0] <= b[0]
  {
    if k > 0 {
      assert a[..k][0] == b[..k][0];
    }
  }

  lemma TailsDiffer(a: string, b: string)
    requires a != "" && b != "" && a[0] == b[0]
    ensures (exists k: nat :: DiffersAt(a, b, k)) <==> exists k: nat :: DiffersAt(a[1..], b[1..], k)
  {
    if k: nat :| DiffersAt(a, b, k) {
      assert a[1..][..k - 1] == a[..k][1..] && b[1..][..k - 1] == b[..k][1..];
      assert DiffersAt(a[1..], b[1..], k - 1);
    }
    if k: nat :| DiffersAt(a[1..], b[1..], k) {
      assert a[..k + 1] == [a[0]] + a[1..][..k] && b[..k + 1] == [b[0]] + b[1..][..k];
      assert DiffersAt(a, b, k + 1);
    }
  }

  /** Two names compare as in a dictionary: the first is a prefix, or smaller where they first differ. */
  lemma {:induction false} StringLeExactly(a: string, b: string)
    ensures StringLe(a, b) <==> a <= b || exists k: nat :: DiffersAt(a, b, k)
  {
    if a != "" && b != "" {
      forall k: nat | DiffersAt(a, b, k)
        ensures a[0] <= b[0]
      {
        FirstDecides(a, b, k);
      }
      if a[0] == b[0] {
        StringLeExactly(a[1..], b[1..]);
        TailsDiffer(a, b);
        assert a == [a[0]] + a[1..] && b == [b[0]] + b[1..];
      } else if a[0] < b[0] {
        assert DiffersAt(a, b, 0);
      }
    }
  }

  /** The second pass takes files by time, and files of one time by name. */
  lemma OldestComeFirst(entries: seq<DirEntry>, policy: Policy, now: nat, first: string -> bool, i: nat, j: nat)
    requires i < j < |Remaining(entries, policy, now, first)|
    ensures var s := Remaining(entries, policy, now, first);
            s[i].modified < s[j].modified || (s[i].modified == s[j].modified && StringLe(s[i].filename, s[j].filename))
  {
    RemainingIsSorted(entries, policy, now, first, Remaining(entries, policy, now, first)[i]);
    assert OldestFirst()(Remaining(entries, policy, now, first)[i], Remaining(entries, policy, now, first)[j]);
  }

  /** Of the files that do not refuse, none that is deleted for the budget is newer than one that is left. */
  lemma NewerFilesStay(entries: seq<DirEntry>, policy: Policy, now: nat, first: string -> bool, second: string -> bool,
                       n: nat, deleted: Artifact, left: Artifact)
    requires Distinct(Artifacts(entries))
    requires IsStop(policy, second, Remaining(entries, policy, now, first), n)
    requires var s := Remaining(entries, policy, now, first);
             deleted in s && deleted !in After(second, s, n) && left in After(second, s, n) && second(left.filename)
    ensures deleted.modified <= left.modified
  {
    var s := Remaining(entries, policy, now, first);
    RemainingIsSorted(entries, policy, now, first, deleted);
    OlderFilesRefused(policy, second, s, n, deleted, left);
  }

  /** The sum of sizes does not depend on how the files are listed. */
  lemma {:induction false} BytesOf(s: seq<Artifact>)
    ensures s == [] ==> Bytes(s) == 0
    ensures s != [] ==> Bytes(s) == s[0].size + Bytes(s[1..])
  {
    if s != [] {
      BytesConcat([s[0]], s[1..]);
      assert s == [s[0]] + s[1..];
      assert [s[0]][..0] == [] && Bytes([s[0]]) == s[0].size;
    }
  }
}
