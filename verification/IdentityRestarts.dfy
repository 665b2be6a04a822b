/**
 When a merged store can still be read, and what is lost when it cannot: the next load then starts it anew,
 at revision 0 and without fences.
 */
module IdentityRestarts {
  import opened Common
  import opened IdentityState
  import opened IdentityEntities
  import opened IdentityLaws
  import opened IdentityMerge
  import opened IdentityMergeLaws

  // ---------------------------------------------------------------------------------------
  // When a merge leaves the store readable
  // ---------------------------------------------------------------------------------------

  /** The entities that a merge is about to rebuild. */
  function MergedEntities(stored: Stored, req: Request): map<Key, Json> {
    Apply(Seen(stored.state), Seen(req.proposed), Granted(stored, req))
  }

  /** If the request changes anything, each record among the merged entities has an identity in its merged store. */
  ghost predicate KeepsIdentity(ord: Order, stored: Stored, req: Request) {
    Merge(ord, stored, req).Some? && Granted(stored, req) != {} ==> AllIdentified(MergedEntities(stored, req))
  }

  lemma AppliedIsGranted(ord: Order, stored: Stored, req: Request)
    requires Merge(ord, stored, req).Some?
    ensures Merge(ord, stored, req).value.applied <==> Granted(stored, req) != {}
    ensures !Merge(ord, stored, req).value.applied ==> Merge(ord, stored, req).value.stored == stored
  {
    Merging(ord, stored, req);
  }

  /** A merge leaves a readable store readable exactly when every retained record keeps an identity. */
  lemma StaysReadableExactly(ord: Order, stored: Stored, req: Request)
    requires Enumerates(ord) && Flatten(stored.state).Some? && Merge(ord, stored, req).Some?
    ensures Flatten(Merge(ord, stored, req).value.stored.state).Some? <==> KeepsIdentity(ord, stored, req)
  {
    AppliedIsGranted(ord, stored, req);
    if Merge(ord, stored, req).value.applied {
      MergedState(ord, stored, req);
      AppliedEntitiesAreWellFormed(stored, req);
      RebuiltIsReadable(ord, MergedEntities(stored, req));
    }
  }

  lemma StepStaysReadable(ord: Order, w: World, req: Request)
    requires Enumerates(ord) && IsReadable(w)
    ensures IsReadable(Step(ord, w, req)) <==> KeepsIdentity(ord, w.stored, req)
  {
    StepKeepsSchema(ord, w, req);
    if Merge(ord, w.stored, req).Some? {
      AppliedIsGranted(ord, w.stored, req);
      StaysReadableExactly(ord, w.stored, req);
    }
  }

  // ---------------------------------------------------------------------------------------
  // Runs without a restart
  // ---------------------------------------------------------------------------------------

  /** Every request of the run keeps the records' identities where it is merged. */
  ghost predicate KeepsIdentities(ord: Order, w: World, reqs: seq<Request>) {
    reqs != [] ==>
      && KeepsIdentities(ord, w, reqs[..|reqs| - 1])
      && KeepsIdentity(ord, RunFrom(ord, w, reqs[..|reqs| - 1]).stored, reqs[|reqs| - 1])
  }

  /** The store could be read at every point of the run, so it was never started anew. */
  ghost predicate AlwaysReadable(ord: Order, w: World, reqs: seq<Request>) {
    && IsReadable(RunFrom(ord, w, reqs))
    && (reqs != [] ==> AlwaysReadable(ord, w, reqs[..|reqs| - 1]))
  }

  /** A run goes without a restart exactly when each of its requests keeps the records' identities. */
  lemma {:induction false} NoRestartExactly(ord: Order, w: World, reqs: seq<Request>)
    requires Enumerates(ord) && IsReadable(w)
    ensures AlwaysReadable(ord, w, reqs) <==> KeepsIdentities(ord, w, reqs)
  {
    if reqs != [] {
      var init := reqs[..|reqs| - 1];
      NoRestartExactly(ord, w, init);
      if AlwaysReadable(ord, w, init) {
        ReadableAtEnd(ord, w, init);
        StepStaysReadable(ord, RunFrom(ord, w, init), reqs[|reqs| - 1]);
      }
    }
  }

  lemma ReadableAtEnd(ord: Order, w: World, reqs: seq<Request>)
    requires AlwaysReadable(ord, w, reqs)
    ensures IsReadable(RunFrom(ord, w, reqs)) && After(ord, w, reqs) == RunFrom(ord, w, reqs)
  {
  }

  /** Where a run that does not stay readable first fails to. */
  lemma {:induction false} FirstUnreadable(ord: Order, w: World, reqs: seq<Request>) returns (n: nat)
    requires !AlwaysReadable(ord, w, reqs)
    ensures n <= |reqs| && !IsReadable(RunFrom(ord, w, reqs[..n]))
  {
    if !IsReadable(RunFrom(ord, w, reqs)) {
      n := |reqs|;
      assert reqs[..n] == reqs;
    } else {
      n := FirstUnreadable(ord, w, reqs[..|reqs| - 1]);
      assert reqs[..|reqs| - 1][..n] == reqs[..n];
    }
  }

  lemma {:induction false} ReadablePrefix(ord: Order, w: World, reqs: seq<Request>, n: nat)
    requires n <= |reqs| && AlwaysReadable(ord, w, reqs)
    ensures AlwaysReadable(ord, w, reqs[..n])
    decreases |reqs|
  {
    if n == |reqs| {
      assert reqs[..n] == reqs;
    } else {
      ReadablePrefix(ord, w, reqs[..|reqs| - 1], n);
      assert reqs[..|reqs| - 1][..n] == reqs[..n];
    }
  }

  lemma {:induction false} RunsCompose(ord: Order, w: World, a: seq<Request>, b: seq<Request>)
    ensures RunFrom(ord, w, a + b) == RunFrom(ord, RunFrom(ord, w, a), b)
  {
    if b == [] {
      assert a + b == a;
    } else {
      assert (a + b)[..|a + b| - 1] == a + b[..|b| - 1];
      RunsCompose(ord, w, a, b[..|b| - 1]);
    }
  }

  lemma {:induction false} ReadableComposes(ord: Order, w: World, a: seq<Request>, b: seq<Request>)
    requires AlwaysReadable(ord, w, a) && AlwaysReadable(ord, RunFrom(ord, w, a), b)
    ensures AlwaysReadable(ord, w, a + b)
  {
    RunsCompose(ord, w, a, b);
    if b == [] {
      assert a + b == a;
    } else {
      assert (a + b)[..|a + b| - 1] == a + b[..|b| - 1];
      ReadableComposes(ord, w, a, b[..|b| - 1]);
    }
  }

  /** Without a restart the history only grows. */
  lemma {:induction false} HistoryGrows(ord: Order, w: World, reqs: seq<Request>)
    requires AlwaysReadable(ord, w, reqs)
    ensures w.past <= RunFrom(ord, w, reqs).past
  {
    if reqs != [] {
      HistoryGrows(ord, w, reqs[..|reqs| - 1]);
      ReadableAtEnd(ord, w, reqs[..|reqs| - 1]);
    }
  }

  /** A run that goes on after a restart is a run from the empty store. */
  lemma {:induction false} StartedAnew(ord: Order, w: World, reqs: seq<Request>, more: seq<Request>)
    requires !IsReadable(RunFrom(ord, w, reqs)) && RunFrom(ord, w, reqs).stored.schema == SCHEMA_VERSION
    ensures After(ord, w, reqs + more) == After(ord, Fresh(Some("corrupt-current")), more)
    ensures more != [] ==> RunFrom(ord, w, reqs + more) == RunFrom(ord, Fresh(Some("corrupt-current")), more)
  {
    if more == [] {
      FreshInv(Some("corrupt-current"));
      Loading(ord, RunFrom(ord, w, reqs));
      assert reqs + more == reqs;
    } else {
      assert (reqs + more)[..|reqs + more| - 1] == reqs + more[..|more| - 1];
      StartedAnew(ord, w, reqs, more[..|more| - 1]);
      LoadedAlike(ord, RunFrom(ord, w, reqs + more[..|more| - 1]),
                  RunFrom(ord, Fresh(Some("corrupt-current")), more[..|more| - 1]), more[|more| - 1]);
    }
  }

  /** What a request does depends on the loaded store alone. */
  lemma LoadedAlike(ord: Order, a: World, b: World, req: Request)
    requires Load(ord, a) == Load(ord, b)
    ensures Step(ord, a, req) == Step(ord, b, req)
  {
  }

  /** What the store says about its recovery is whether it has been started anew, exactly. */
  lemma {:induction false} RecoveryReportsRestart(ord: Order, w: World, reqs: seq<Request>)
    requires IsReadable(w)
    ensures After(ord, w, reqs).stored.recovery
            == if AlwaysReadable(ord, w, reqs) then w.stored.recovery else Some("corrupt-current")
  {
    RunKeepsSchema(ord, w, reqs);
    Loading(ord, RunFrom(ord, w, reqs));
    if reqs != [] {
      var (init, last) := (reqs[..|reqs| - 1], reqs[|reqs| - 1]);
      RecoveryReportsRestart(ord, w, init);
      RunKeepsSchema(ord, w, init);
      StepKeepsSchema(ord, RunFrom(ord, w, init), last);
    }
  }

  // ---------------------------------------------------------------------------------------
  // Lost updates, seen from the writer
  // ---------------------------------------------------------------------------------------

  /** The writer read the store there, and bases its request on what it read. */
  predicate BasedOn(req: Request, read: World) {
    req.base == read.stored.revision && req.baseState == read.stored.state && req.observed == read.stored.state
  }

  /** The request writes a root that no longer has the value which the writer read. */
  ghost predicate Overwrites(ord: Order, read: World, now: World, req: Request, k: Key) {
    && IsRoot(k) && Merge(ord, now.stored, req).Some? && Wrote(Merge(ord, now.stored, req).value, k)
    && Get(Seen(read.stored.state), k) != Get(Seen(now.stored.state), k)
  }

  lemma KeptRevision(ord: Order, read: World, reqs: seq<Request>)
    requires Inv(read) && AlwaysReadable(ord, read, reqs)
    ensures var now := RunFrom(ord, read, reqs);
            read.stored.revision < |now.past| && now.past[read.stored.revision] == Seen(read.stored.state)
  {
    HistoryGrows(ord, read, reqs);
  }

  /** A writer never overwrites what it has not read, as long as the store has not been started anew since. */
  lemma NoOverwriteSinceRead(ord: Order, read: World, reqs: seq<Request>, req: Request, k: Key)
    requires Enumerates(ord) && Inv(read) && read.stored.revision + |reqs| < U64_MAX
    requires AlwaysReadable(ord, read, reqs) && req.base == read.stored.revision
    ensures !Overwrites(ord, read, After(ord, read, reqs), req, k)
  {
    var now := After(ord, read, reqs);
    AfterInv(ord, read, reqs);
    ReadableAtEnd(ord, read, reqs);
    KeptRevision(ord, read, reqs);
    if IsRoot(k) && Merge(ord, now.stored, req).Some? {
      StepLosesNothing(ord, now, req, k);
    }
  }

  // ---------------------------------------------------------------------------------------
  // Writers on the current revision
  // ---------------------------------------------------------------------------------------

  /** A map that some state has. */
  ghost predicate IsStateful(m: map<Key, Json>) {
    WellFormedMap(m) && ParentClosed(m) && SelfIdentified(m)
  }

  function StateOf(ord: Order, m: map<Key, Json>): Json {
    match Rebuild(ord, m)
    case Some(state) => state
    case None => EmptyState()
  }

  lemma StateOfIs(ord: Order, m: map<Key, Json>)
    requires Enumerates(ord) && IsStateful(m)
    ensures Flatten(StateOf(ord, m)) == Some(m) && Rebuild(ord, m) == Some(StateOf(ord, m))
  {
    SelfIdentifiedRoundTrip(ord, m);
    ClosureIsLargest(m, m);
  }

  lemma ApplyAll(current: map<Key, Json>, proposed: map<Key, Json>)
    ensures Apply(current, proposed, Changed(current, proposed)) == proposed
  {
    var r := Apply(current, proposed, Changed(current, proposed));
    forall k
      ensures Get(r, k) == Get(proposed, k)
    {
      assert k !in Changed(current, proposed) ==> Get(current, k) == Get(proposed, k);
    }
    SameLookups(r, proposed);
  }

  lemma SameLookups(a: map<Key, Json>, b: map<Key, Json>)
    requires forall k :: Get(a, k) == Get(b, k)
    ensures a == b
  {
    assert forall k :: k in a <==> Get(a, k).Some?;
    assert forall k :: k in b <==> Get(b, k).Some?;
    assert forall k :: k in a ==> a[k] == Get(a, k).value;
  }

  /** A writer that has read the current revision and wants exactly m. */
  function Current(ord: Order, w: World, m: map<Key, Json>): Request {
    Request(w.stored.revision, w.stored.state, w.stored.state, StateOf(ord, m))
  }

  /** The store after such a writer. */
  ghost predicate MovedTo(w: World, w': World, m: map<Key, Json>) {
    && Bounded(w'.stored) && w'.stored.schema == SCHEMA_VERSION && Flatten(w'.stored.state) == Some(m)
    && w'.stored.revision == w.stored.revision + 1
    && w'.stored.revisions == Stamp(w.stored.revisions, Changed(Seen(w.stored.state), m), w.stored.revision + 1)
  }

  lemma CurrentIsGranted(ord: Order, w: World, m: map<Key, Json>)
    requires Enumerates(ord) && Bounded(w.stored) && IsReadable(w) && IsStateful(m)
    ensures Merge(ord, w.stored, Current(ord, w, m)).Some?
    ensures Granted(w.stored, Current(ord, w, m)) == Changed(Seen(w.stored.state), m)
  {
    StateOfIs(ord, m);
    MergeFailsOnlyOverInputs(ord, w.stored, Current(ord, w, m));
    NothingAbove(w.stored, Seen(w.stored.state), m);
  }

  lemma CurrentMerges(ord: Order, w: World, m: map<Key, Json>)
    requires Enumerates(ord) && Bounded(w.stored) && IsReadable(w) && w.stored.revision < U64_MAX
    requires IsStateful(m) && m != Seen(w.stored.state)
    ensures var r := Merge(ord, w.stored, Current(ord, w, m));
            && r.Some? && r.value.applied && Step(ord, w, Current(ord, w, m)).stored == r.value.stored
            && Rebuild(ord, m) == Some(r.value.stored.state)
  {
    var req := Current(ord, w, m);
    CurrentIsGranted(ord, w, m);
    StateOfIs(ord, m);
    ApplyAll(Seen(w.stored.state), m);
    NothingChanged(Seen(w.stored.state), m);
    AppliedIsGranted(ord, w.stored, req);
    MergedState(ord, w.stored, req);
  }

  /** The store after a merge that applied these keys. */
  ghost predicate Applied(before: Stored, granted: set<Key>, after: Stored) {
    && Bounded(after) && after.revision == before.revision + 1
    && after.revisions == Stamp(before.revisions, granted, before.revision + 1)
  }

  lemma StepAccounts(ord: Order, w: World, req: Request)
    requires Bounded(w.stored) && w.stored.revision < U64_MAX && IsReadable(w)
    requires Merge(ord, w.stored, req).Some? && Merge(ord, w.stored, req).value.applied
    ensures Applied(w.stored, Granted(w.stored, req), Step(ord, w, req).stored)
  {
    AppliedAccounts(ord, w.stored, req);
    StepIsMerge(ord, w, req);
  }

  lemma AppliedAccounts(ord: Order, stored: Stored, req: Request)
    requires Bounded(stored) && stored.revision < U64_MAX
    requires Merge(ord, stored, req).Some? && Merge(ord, stored, req).value.applied
    ensures Applied(stored, Granted(stored, req), Merge(ord, stored, req).value.stored)
  {
    MergeAccounts(ord, stored, req);
    MergeKeepsBounded(ord, stored, req);
  }

  lemma StepIsMerge(ord: Order, w: World, req: Request)
    requires IsReadable(w) && Merge(ord, w.stored, req).Some? && Merge(ord, w.stored, req).value.applied
    ensures Step(ord, w, req).stored == Merge(ord, w.stored, req).value.stored
  {
    Loading(ord, w);
  }

  lemma RebuiltState(ord: Order, m: map<Key, Json>, state: Json)
    requires Enumerates(ord) && IsStateful(m) && Rebuild(ord, m) == Some(state)
    ensures Flatten(state) == Some(m)
  {
    StateOfIs(ord, m);
  }

  lemma CurrentMovesState(ord: Order, w: World, m: map<Key, Json>)
    requires Enumerates(ord) && Bounded(w.stored) && IsReadable(w) && w.stored.revision < U64_MAX
    requires IsStateful(m) && m != Seen(w.stored.state)
    ensures Flatten(Step(ord, w, Current(ord, w, m)).stored.state) == Some(m)
  {
    CurrentMerges(ord, w, m);
    RebuiltState(ord, m, Step(ord, w, Current(ord, w, m)).stored.state);
  }

  lemma CurrentMoves(ord: Order, w: World, m: map<Key, Json>)
    requires Enumerates(ord) && Bounded(w.stored) && IsReadable(w) && w.stored.revision < U64_MAX
    requires IsStateful(m) && m != Seen(w.stored.state)
    ensures MovedTo(w, Step(ord, w, Current(ord, w, m)), m)
  {
    CurrentMerges(ord, w, m);
    CurrentMovesState(ord, w, m);
    StepAccounts(ord, w, Current(ord, w, m));
    CurrentIsGranted(ord, w, m);
  }

  lemma RunSnoc(ord: Order, w: World, reqs: seq<Request>, req: Request)
    ensures RunFrom(ord, w, reqs + [req]) == Step(ord, RunFrom(ord, w, reqs), req)
    ensures AlwaysReadable(ord, w, reqs + [req]) <==>
            AlwaysReadable(ord, w, reqs) && IsReadable(RunFrom(ord, w, reqs + [req]))
  {
    assert (reqs + [req])[..|reqs + [req]| - 1] == reqs;
  }

  // ---------------------------------------------------------------------------------------
  // Every store is three requests away from a restart
  // ---------------------------------------------------------------------------------------

  /** A database and a store whose records are keyed by a path. */
  function StoreMap(version: string, path: string): map<Key, Json> {
    map[IdbDb("o", "d") := DbValue("o", DbMeta(version)),
        IdbStore("o", "d", "s") := StoreValue("o", "d", Meta(path))]
  }

  lemma StoreMapIsStateful(version: string, path: string)
    ensures IsStateful(StoreMap(version, path))
  {
    var m := StoreMap(version, path);
    assert NamedMeta(DbMeta(version), "d", "stores") && NamedMeta(Meta(path), "s", "records");
    assert m.Keys == {IdbDb("o", "d"), IdbStore("o", "d", "s")};
    assert WellFormed(Entity(IdbDb("o", "d"), DbValue("o", DbMeta(version))));
    assert WellFormed(Entity(IdbStore("o", "d", "s"), StoreValue("o", "d", Meta(path))));
  }

  lemma OnlyRecord(dbMeta: Object, meta: Object, record: Json, k: Key)
    requires k in OneRecordMap(dbMeta, meta, record) && k.IdbRecord?
    ensures k == IdbRecord("o", "d", "s", JNull)
  {
  }

  lemma RecordMapIsStateful(version: string)
    ensures IsStateful(OneRecordMap(DbMeta(version), Meta("i"), RECORD))
  {
    OneRecordIsWellFormed(DbMeta(version), Meta("i"), RECORD);
    forall k | k in OneRecordMap(DbMeta(version), Meta("i"), RECORD)
      ensures ReKey(OneRecordMap(DbMeta(version), Meta("i"), RECORD), k) == Some(k)
    {
      if k.IdbRecord? {
        OnlyRecord(DbMeta(version), Meta("i"), RECORD, k);
        RecordKeepsKey(version);
      }
    }
  }

  lemma RecordKeepsKey(version: string)
    ensures ReKey(OneRecordMap(DbMeta(version), Meta("i"), RECORD), IdbRecord("o", "d", "s", JNull))
            == Some(IdbRecord("o", "d", "s", JNull))
  {
    var m := OneRecordMap(DbMeta(version), Meta("i"), RECORD);
    RecordUnder("i");
    StoreValueMeta(m, "o", "d", "s", Meta("i"));
    assert WrappedValue(m[IdbRecord("o", "d", "s", JNull)], "record") == Some(RECORD);
  }

  /** The second writer has read the store before the record came, and changes nothing but the key path. */
  function Rekeying(ord: Order, base: nat, version: string): Request {
    Request(base, StateOf(ord, StoreMap(version, "i")), StateOf(ord, StoreMap(version, "i")),
            StateOf(ord, StoreMap(version, "k")))
  }

  lemma OnlyStoreChanges(version: string)
    ensures Changed(StoreMap(version, "i"), StoreMap(version, "k")) == {IdbStore("o", "d", "s")}
    ensures Apply(OneRecordMap(DbMeta(version), Meta("i"), RECORD), StoreMap(version, "k"), {IdbStore("o", "d", "s")})
            == OneRecordMap(DbMeta(version), Meta("k"), RECORD)
  {
    assert "i"[0] != "k"[0];
    assert Meta("i")["keyPath"] != Meta("k")["keyPath"];
    assert StoreValue("o", "d", Meta("i")).fields["store"] != StoreValue("o", "d", Meta("k")).fields["store"];
  }

  lemma OnlyRecordChanges(version: string)
    ensures IdbStore("o", "d", "s")
            !in Changed(StoreMap(version, "i"), OneRecordMap(DbMeta(version), Meta("i"), RECORD))
    ensures StoreMap(version, "i") != OneRecordMap(DbMeta(version), Meta("i"), RECORD)
  {
    assert IdbRecord("o", "d", "s", JNull) !in StoreMap(version, "i");
  }

  lemma RekeyingReads(ord: Order, stored: Stored, base: nat, version: string)
    requires Enumerates(ord) && base < stored.revision && Flatten(stored.state).Some?
    ensures Merge(ord, stored, Rekeying(ord, base, version)).Some?
    ensures Seen(Rekeying(ord, base, version).observed) == StoreMap(version, "i")
    ensures Seen(Rekeying(ord, base, version).proposed) == StoreMap(version, "k")
  {
    StoreMapIsStateful(version, "i");
    StoreMapIsStateful(version, "k");
    StateOfIs(ord, StoreMap(version, "i"));
    StateOfIs(ord, StoreMap(version, "k"));
    MergeFailsOnlyOverInputs(ord, stored, Rekeying(ord, base, version));
  }

  lemma StoreValueOrigin(meta: Object)
    ensures EntityOrigin(StoreValue("o", "d", meta)) == Some("o")
  {
  }

  /** Nobody has written the store since the base revision, so its writer does not conflict. */
  lemma StoreIsAccepted(revisions: Revisions, base: nat, version: string)
    requires !Above(revisions, IdbStore("o", "d", "s"), base) && !Above(revisions, OriginDelete("o"), base)
    ensures Accepted(revisions, base, StoreMap(version, "i"), StoreMap(version, "k")) == {IdbStore("o", "d", "s")}
  {
    OnlyStoreChanges(version);
    StoreValueOrigin(Meta("k"));
    assert Latest(StoreMap(version, "i"), StoreMap(version, "k"), IdbStore("o", "d", "s"))
        == Some(StoreValue("o", "d", Meta("k")));
  }

  lemma RekeyingOrphans(ord: Order, w: World, base: nat, version: string)
    requires Enumerates(ord) && base < w.stored.revision && IsReadable(w)
    requires Flatten(w.stored.state) == Some(OneRecordMap(DbMeta(version), Meta("i"), RECORD))
    requires !Above(w.stored.revisions, IdbStore("o", "d", "s"), base)
    requires !Above(w.stored.revisions, OriginDelete("o"), base)
    ensures !IsReadable(Step(ord, w, Rekeying(ord, base, version)))
  {
    var req := Rekeying(ord, base, version);
    RekeyingReads(ord, w.stored, base, version);
    StoreIsAccepted(w.stored.revisions, base, version);
    OnlyStoreChanges(version);
    Orphaned(version);
    assert MergedEntities(w.stored, req) == OneRecordMap(DbMeta(version), Meta("k"), RECORD);
    StepStaysReadable(ord, w, req);
  }

  lemma VersionsDiffer()
    ensures StoreMap("1", "i") != StoreMap("2", "i")
  {
    assert StoreMap("1", "i")[IdbDb("o", "d")].fields["database"].fields["version"]
        != StoreMap("2", "i")[IdbDb("o", "d")].fields["database"].fields["version"];
  }

  lemma RunTwo(ord: Order, w: World, a: Request, b: Request)
    requires IsReadable(w) && IsReadable(Step(ord, w, a)) && IsReadable(Step(ord, Step(ord, w, a), b))
    ensures RunFrom(ord, w, [a, b]) == Step(ord, Step(ord, w, a), b) && AlwaysReadable(ord, w, [a, b])
  {
    RunSnoc(ord, w, [], a);
    RunSnoc(ord, w, [] + [a], b);
    assert [a, b] == [] + [a] + [b];
  }

  /** The writer who creates the store and then its record. */
  lemma StoreThenRecord(ord: Order, w: World, version: string) returns (reqs: seq<Request>, w1: World, w2: World)
    requires Enumerates(ord) && Bounded(w.stored) && IsReadable(w) && w.stored.revision + 2 <= U64_MAX
    requires StoreMap(version, "i") != Seen(w.stored.state)
    ensures |reqs| == 2 && AlwaysReadable(ord, w, reqs) && RunFrom(ord, w, reqs) == w2
    ensures MovedTo(w, w1, StoreMap(version, "i")) && MovedTo(w1, w2, OneRecordMap(DbMeta(version), Meta("i"), RECORD))
  {
    var (m1, m2) := (StoreMap(version, "i"), OneRecordMap(DbMeta(version), Meta("i"), RECORD));
    StoreMapIsStateful(version, "i");
    RecordMapIsStateful(version);
    OnlyRecordChanges(version);
    CurrentMoves(ord, w, m1);
    w1 := Step(ord, w, Current(ord, w, m1));
    CurrentMoves(ord, w1, m2);
    w2 := Step(ord, w1, Current(ord, w1, m2));
    reqs := [Current(ord, w, m1), Current(ord, w1, m2)];
    RunTwo(ord, w, Current(ord, w, m1), Current(ord, w1, m2));
  }

  /**
   One writer creates a database and a store keyed by "i" and then adds the record {i: null}; another, which
   has read the store before the record, only changes the key path to "k". Nothing conflicts, and the store
   cannot be read any more.
   */
  lemma RestartIsNear(ord: Order, w: World) returns (before: seq<Request>, last: Request)
    requires Enumerates(ord) && Bounded(w.stored) && IsReadable(w) && w.stored.revision + 3 <= U64_MAX
    ensures |before| == 2 && AlwaysReadable(ord, w, before)
    ensures RunFrom(ord, w, before).stored.revision == w.stored.revision + 2
    ensures last.base < RunFrom(ord, w, before).stored.revision
    ensures Merge(ord, RunFrom(ord, w, before).stored, last).Some?
    ensures Merge(ord, RunFrom(ord, w, before).stored, last).value.conflicts == 0
    ensures !IsReadable(RunFrom(ord, w, before + [last]))
  {
    VersionsDiffer();
    var version := if StoreMap("1", "i") != Seen(w.stored.state) then "1" else "2";
    var w1, w2;
    before, w1, w2 := StoreThenRecord(ord, w, version);
    StampsAllow(w, w1, w2, version);
    last := Rekeying(ord, w1.stored.revision, version);
    RekeyingOrphans(ord, w2, w1.stored.revision, version);
    RekeyingHasNoConflict(ord, w2.stored, w1.stored.revision, version);
    RunSnoc(ord, w, before, last);
  }

  lemma RekeyingHasNoConflict(ord: Order, stored: Stored, base: nat, version: string)
    requires Enumerates(ord) && base < stored.revision < U64_MAX && Flatten(stored.state).Some?
    requires !Above(stored.revisions, IdbStore("o", "d", "s"), base)
             && !Above(stored.revisions, OriginDelete("o"), base)
    ensures Merge(ord, stored, Rekeying(ord, base, version)).Some?
    ensures Merge(ord, stored, Rekeying(ord, base, version)).value.conflicts == 0
  {
    RekeyingReads(ord, stored, base, version);
    StoreIsAccepted(stored.revisions, base, version);
    OnlyStoreChanges(version);
    MergeAccounts(ord, stored, Rekeying(ord, base, version));
  }

  lemma StampsAllow(w: World, w1: World, w2: World, version: string)
    requires Bounded(w.stored) && MovedTo(w, w1, StoreMap(version, "i"))
    requires MovedTo(w1, w2, OneRecordMap(DbMeta(version), Meta("i"), RECORD))
    ensures !Above(w2.stored.revisions, IdbStore("o", "d", "s"), w1.stored.revision)
    ensures !Above(w2.stored.revisions, OriginDelete("o"), w1.stored.revision)
  {
    OnlyRecordChanges(version);
    assert OriginDelete("o") !in OneRecordMap(DbMeta(version), Meta("i"), RECORD);
  }
}
