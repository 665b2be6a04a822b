/** How stores and records are lost without a conflict, a restart, or a write to them. */
module IdentityLostChildren {
  import opened Common
  import opened IdentityState
  import opened IdentityEntities
  import opened IdentityRoundTrip
  import opened IdentityLaws
  import opened IdentityMerge
  import opened IdentityMergeLaws
  import opened IdentityRestarts

  const DB := IdbDb("o", "d")
  const STORE := IdbStore("o", "d", "s")

  // ---------------------------------------------------------------------------------------
  // Two requests from the empty store, and a writer who has read between them
  // ---------------------------------------------------------------------------------------

  /** Two writers, each on the current revision, bring the empty store to two maps. */
  function Twice(ord: Order, m1: map<Key, Json>, m2: map<Key, Json>): seq<Request> {
    var first := Current(ord, Fresh(None), m1);
    [first, Current(ord, Step(ord, Fresh(None), first), m2)]
  }

  /** A third has read the first map and wants another. */
  function Stale(ord: Order, m1: map<Key, Json>, m3: map<Key, Json>): Request {
    Request(1, StateOf(ord, m1), StateOf(ord, m1), StateOf(ord, m3))
  }

  /** The store after the first two, with its history. */
  ghost predicate TwiceMoved(w: World, m1: map<Key, Json>, m2: map<Key, Json>) {
    && w.past == [map[], m1, m2] && Moved(w.stored, m1, m2)
  }

  ghost predicate Moved(stored: Stored, m1: map<Key, Json>, m2: map<Key, Json>) {
    && Bounded(stored) && stored.revision == 2 && stored.schema == SCHEMA_VERSION && Flatten(stored.state) == Some(m2)
    && stored.revisions == Stamp(Stamp(map[], Changed(map[], m1), 1), Changed(m1, m2), 2)
  }

  lemma StepPast(ord: Order, w: World, req: Request, m: map<Key, Json>)
    requires IsReadable(w) && MovedTo(w, Step(ord, w, req), m) && w.stored.revision < U64_MAX
    ensures Step(ord, w, req).past == w.past + [m]
  {
    if Merge(ord, w.stored, req).Some? {
      AppliedIsGranted(ord, w.stored, req);
    }
  }

  lemma FirstMoves(ord: Order, m: map<Key, Json>)
    requires Enumerates(ord) && IsStateful(m) && m != map[]
    ensures var w := Step(ord, Fresh(None), Current(ord, Fresh(None), m));
            MovedTo(Fresh(None), w, m) && w.past == [map[], m] && w.stored.revision == 1
            && w.stored.revisions == Stamp(map[], Changed(map[], m), 1)
  {
    FreshInv(None);
    CurrentMoves(ord, Fresh(None), m);
    StepPast(ord, Fresh(None), Current(ord, Fresh(None), m), m);
  }

  lemma SecondMoves(ord: Order, w: World, m1: map<Key, Json>, m2: map<Key, Json>)
    requires Enumerates(ord) && IsStateful(m2) && m2 != m1 && Bounded(w.stored) && w.stored.revision == 1
    requires w.past == [map[], m1] && w.stored.schema == SCHEMA_VERSION && Flatten(w.stored.state) == Some(m1)
    requires w.stored.revisions == Stamp(map[], Changed(map[], m1), 1)
    ensures TwiceMoved(Step(ord, w, Current(ord, w, m2)), m1, m2)
  {
    CurrentMoves(ord, w, m2);
    StepPast(ord, w, Current(ord, w, m2), m2);
    assert [map[], m1] + [m2] == [map[], m1, m2];
  }

  lemma TwiceMoves(ord: Order, m1: map<Key, Json>, m2: map<Key, Json>)
    requires Enumerates(ord) && IsStateful(m1) && IsStateful(m2) && m1 != map[] && m2 != m1
    ensures TwiceMoved(Load(ord, Run(ord, Twice(ord, m1, m2))), m1, m2)
  {
    FreshInv(None);
    FirstMoves(ord, m1);
    var w1 := Step(ord, Fresh(None), Current(ord, Fresh(None), m1));
    SecondMoves(ord, w1, m1, m2);
    RunTwo(ord, Fresh(None), Current(ord, Fresh(None), m1), Current(ord, w1, m2));
  }

  lemma StaleIsRead(ord: Order, m1: map<Key, Json>, m3: map<Key, Json>)
    requires Enumerates(ord) && IsStateful(m1) && IsStateful(m3)
    ensures Flatten(Stale(ord, m1, m3).observed) == Flatten(Stale(ord, m1, m3).baseState) == Some(m1)
    ensures Flatten(Stale(ord, m1, m3).proposed) == Some(m3)
  {
    StateOfIs(ord, m1);
    StateOfIs(ord, m3);
  }

  /** Its request goes through without a conflict. */
  ghost predicate GoesThrough(ord: Order, stored: Stored, req: Request) {
    && Merge(ord, stored, req).Some? && Merge(ord, stored, req).value.applied
    && Merge(ord, stored, req).value.conflicts == 0
  }

  lemma StaleGoesThrough(ord: Order, stored: Stored, m1: map<Key, Json>, m3: map<Key, Json>, accepted: set<Key>)
    requires Enumerates(ord) && IsStateful(m1) && IsStateful(m3) && Flatten(stored.state).Some?
    requires Bounded(stored) && stored.revision == 2
    requires accepted == Changed(m1, m3) == Accepted(stored.revisions, 1, m1, m3) && accepted != {}
    ensures GoesThrough(ord, stored, Stale(ord, m1, m3))
    ensures Granted(stored, Stale(ord, m1, m3)) == accepted
    ensures MergedEntities(stored, Stale(ord, m1, m3)) == Apply(Seen(stored.state), m3, accepted)
  {
    StaleIsRead(ord, m1, m3);
    StaleIsGranted(ord, stored, m1, m3, accepted);
    MergeFailsOnlyOverInputs(ord, stored, Stale(ord, m1, m3));
    MergeAccounts(ord, stored, Stale(ord, m1, m3));
  }

  lemma StaleIsGranted(ord: Order, stored: Stored, m1: map<Key, Json>, m3: map<Key, Json>, accepted: set<Key>)
    requires Enumerates(ord) && IsStateful(m1) && IsStateful(m3)
    requires accepted == Changed(m1, m3) == Accepted(stored.revisions, 1, m1, m3)
    ensures var req := Stale(ord, m1, m3);
            Granted(stored, req) == Wanted(req) == accepted
            && MergedEntities(stored, req) == Apply(Seen(stored.state), m3, accepted)
  {
    StaleIsRead(ord, m1, m3);
  }

  // ---------------------------------------------------------------------------------------
  // Stores without their database
  // ---------------------------------------------------------------------------------------

  function DbMap(): map<Key, Json> {
    map[DB := DbValue("o", DbMeta("1"))]
  }

  lemma MapsAreStateful()
    ensures IsStateful(DbMap()) && IsStateful(StoreMap("1", "i")) && IsStateful(map[])
  {
    StoreMapIsStateful("1", "i");
    assert NamedMeta(DbMeta("1"), "d", "stores");
    assert WellFormed(Entity(DB, DbValue("o", DbMeta("1"))));
  }

  lemma MapsHold()
    ensures DbMap() != map[] && StoreMap("1", "i") != DbMap() && STORE in StoreMap("1", "i")
  {
    assert DB in DbMap() && STORE !in DbMap();
  }

  lemma ValuesHaveOrigin()
    ensures EntityOrigin(DbValue("o", DbMeta("1"))) == Some("o")
    ensures EntityOrigin(StoreValue("o", "d", Meta("i"))) == Some("o")
  {
  }

  lemma ChangesOfMaps()
    ensures Changed(map[], DbMap()) == {DB} && Changed(DbMap(), map[]) == {DB}
    ensures Changed(DbMap(), StoreMap("1", "i")) == {STORE}
  {
    assert DB != STORE;
  }

  lemma DbCanGo(revisions: Revisions)
    requires revisions == Stamp(Stamp(map[], Changed(map[], DbMap()), 1), Changed(DbMap(), StoreMap("1", "i")), 2)
    ensures Accepted(revisions, 1, DbMap(), map[]) == {DB}
  {
    ChangesOfMaps();
    ValuesHaveOrigin();
    assert Latest(DbMap(), map[], DB) == Some(DbValue("o", DbMeta("1")));
  }

  lemma StoreCanCome(revisions: Revisions)
    requires revisions == Stamp(Stamp(map[], Changed(map[], DbMap()), 1), Changed(DbMap(), map[]), 2)
    ensures Accepted(revisions, 1, DbMap(), StoreMap("1", "i")) == {STORE}
  {
    ChangesOfMaps();
    ValuesHaveOrigin();
    assert Latest(DbMap(), StoreMap("1", "i"), STORE) == Some(StoreValue("o", "d", Meta("i")));
  }

  /** Where only the store is left, without its database, it is dropped. */
  lemma OrphanIsDropped(ord: Order, stored: Stored, req: Request)
    requires Enumerates(ord) && Flatten(stored.state).Some? && GoesThrough(ord, stored, req)
    requires MergedEntities(stored, req) == map[STORE := StoreValue("o", "d", Meta("i"))]
    ensures Flatten(Merge(ord, stored, req).value.stored.state) == Some(map[])
  {
    MergedState(ord, stored, req);
    AppliedEntitiesAreWellFormed(stored, req);
    OrphanMap(ord, MergedEntities(stored, req));
  }

  lemma OrphanMap(ord: Order, m: map<Key, Json>)
    requires Enumerates(ord) && WellFormedMap(m) && m.Keys == {STORE}
    ensures Rebuilt(ord, m) == Some(map[])
  {
    assert forall k :: k in m ==> !Retained(m, k);
    assert Closure(m) == map[];
    SelfIdentifiedRoundTrip(ord, m);
  }

  lemma OrphanIsLeft()
    ensures Apply(StoreMap("1", "i"), map[], {DB}) == map[STORE := StoreValue("o", "d", Meta("i"))]
    ensures Apply(map[], StoreMap("1", "i"), {STORE}) == map[STORE := StoreValue("o", "d", Meta("i"))]
  {
  }

  lemma DeletingTheDb(ord: Order, stored: Stored)
    requires Enumerates(ord) && Moved(stored, DbMap(), StoreMap("1", "i"))
    ensures var req := Stale(ord, DbMap(), map[]);
            && GoesThrough(ord, stored, req) && !Wrote(Merge(ord, stored, req).value, STORE)
            && Flatten(Merge(ord, stored, req).value.stored.state) == Some(map[])
  {
    MapsAreStateful();
    ChangesOfMaps();
    DbCanGo(stored.revisions);
    OrphanIsLeft();
    StaleGoesThrough(ord, stored, DbMap(), map[], {DB});
    OrphanIsDropped(ord, stored, Stale(ord, DbMap(), map[]));
    WroteIsAccepted(ord, stored, Stale(ord, DbMap(), map[]), STORE);
  }

  lemma AddingTheStore(ord: Order, stored: Stored)
    requires Enumerates(ord) && Moved(stored, DbMap(), map[])
    ensures var req := Stale(ord, DbMap(), StoreMap("1", "i"));
            && GoesThrough(ord, stored, req) && Wrote(Merge(ord, stored, req).value, STORE)
            && Flatten(Merge(ord, stored, req).value.stored.state) == Some(map[])
  {
    MapsAreStateful();
    ChangesOfMaps();
    StoreCanCome(stored.revisions);
    OrphanIsLeft();
    StaleGoesThrough(ord, stored, DbMap(), StoreMap("1", "i"), {STORE});
    OrphanIsDropped(ord, stored, Stale(ord, DbMap(), StoreMap("1", "i")));
    WroteIsAccepted(ord, stored, Stale(ord, DbMap(), StoreMap("1", "i")), STORE);
  }

  /** The request is of a writer who has read revision 1, and sends what it has read. */
  ghost predicate HasReadFirst(w: World, req: Request) {
    |w.past| == 3 && req.base == 1 && Flatten(req.observed) == Flatten(req.baseState) == Some(w.past[1])
  }

  lemma StaleHasReadFirst(ord: Order, m1: map<Key, Json>, m2: map<Key, Json>, m3: map<Key, Json>)
    requires Enumerates(ord) && IsStateful(m1) && IsStateful(m2) && IsStateful(m3) && m1 != map[] && m2 != m1
    ensures var (w, req) := (Load(ord, Run(ord, Twice(ord, m1, m2))), Stale(ord, m1, m3));
            && HasReadFirst(w, req) && Moved(w.stored, m1, m2)
            && Seen(w.stored.state) == m2 && Seen(req.proposed) == m3
  {
    TwiceMoves(ord, m1, m2);
    StaleIsRead(ord, m1, m3);
    ReadIsSecond(Load(ord, Run(ord, Twice(ord, m1, m2))), m1, m2);
  }

  lemma ReadIsSecond(w: World, m1: map<Key, Json>, m2: map<Key, Json>)
    requires TwiceMoved(w, m1, m2)
    ensures Moved(w.stored, m1, m2) && |w.past| == 3 && w.past[1] == m1 && Seen(w.stored.state) == m2
  {
  }

  /**
   A writer who has seen a database without stores deletes it; meanwhile another has added a store. Nothing
   conflicts, nobody writes the store, and it is gone.
   */
  lemma StoreIsLostUnwritten(ord: Order) returns (reqs: seq<Request>, req: Request)
    requires Enumerates(ord)
    ensures var w := Load(ord, Run(ord, reqs));
            && HasReadFirst(w, req) && GoesThrough(ord, w.stored, req)
            && var o := Merge(ord, w.stored, req).value;
            && Flatten(o.stored.state).Some? && !Wrote(o, STORE)
            && STORE in Seen(w.stored.state) && STORE !in Seen(o.stored.state)
  {
    MapsAreStateful();
    reqs, req := Twice(ord, DbMap(), StoreMap("1", "i")), Stale(ord, DbMap(), map[]);
    MapsHold();
    StaleHasReadFirst(ord, DbMap(), StoreMap("1", "i"), map[]);
    DeletingTheDb(ord, Load(ord, Run(ord, reqs)).stored);
  }

  /**
   A writer who has seen a database adds a store to it; meanwhile another has deleted the database. Nothing
   conflicts, the store is stamped as written, and it is not there.
   */
  lemma StoreIsLostWritten(ord: Order) returns (reqs: seq<Request>, req: Request)
    requires Enumerates(ord)
    ensures var w := Load(ord, Run(ord, reqs));
            && HasReadFirst(w, req) && GoesThrough(ord, w.stored, req)
            && var o := Merge(ord, w.stored, req).value;
            && Flatten(o.stored.state).Some? && Wrote(o, STORE)
            && STORE in Seen(req.proposed) && STORE !in Seen(o.stored.state)
  {
    MapsAreStateful();
    reqs, req := Twice(ord, DbMap(), map[]), Stale(ord, DbMap(), StoreMap("1", "i"));
    MapsHold();
    StaleHasReadFirst(ord, DbMap(), map[], StoreMap("1", "i"));
    AddingTheStore(ord, Load(ord, Run(ord, reqs)).stored);
  }

  // ---------------------------------------------------------------------------------------
  // Records that get one identity
  // ---------------------------------------------------------------------------------------

  /** The record {i: b, k: null}. */
  function Both(b: bool): Json {
    JObject(map["value" := JObject(map["i" := JBool(b), "k" := JNull])])
  }

  function RecordAt(identity: Json): Key {
    IdbRecord("o", "d", "s", identity)
  }

  /** Two such records, filed under their i, in a store that is keyed by a path. */
  function TwoRecords(path: string): map<Key, Json> {
    map[DB := DbValue("o", DbMeta("1")), STORE := StoreValue("o", "d", Meta(path)),
        RecordAt(JBool(true)) := RecordValue("o", "d", "s", Both(true)),
        RecordAt(JBool(false)) := RecordValue("o", "d", "s", Both(false))]
  }

  function IdentityUnder(path: string, b: bool): Json {
    if path == "i" then JBool(b) else JNull
  }

  lemma BothUnder(path: string, b: bool)
    requires path == "i" || path == "k"
    ensures RecordIdentity(Meta(path), Both(b)) == Some(IdentityUnder(path, b))
  {
    PathOfOneLetter(path);
    var value := Both(b).fields["value"];
    var lookup := (p: seq<string>) => PlainAt(value, p);
    var id := IdentityUnder(path, b);
    assert KeyPaths(Meta(path)) == Some([path]);
    assert "i"[0] != "k"[0];
    assert PlainAt(value, [path]) == Some(id);
    assert lookup(SplitDots(path)) == Some(id);
    assert [path][1..] == [] && InlineKeys([path][1..], lookup) == Some([]) && [id] + [] == [id];
    assert InlineKeys([path], lookup) == Some([id]);
  }

  lemma TwoRecordsListed(path: string, k: Key)
    requires k in TwoRecords(path)
    ensures k == DB || k == STORE || k == RecordAt(JBool(true)) || k == RecordAt(JBool(false))
    ensures TwoRecords(path)[k] == match k
                                   case IdbDb(_, _) => DbValue("o", DbMeta("1"))
                                   case IdbStore(_, _, _) => StoreValue("o", "d", Meta(path))
                                   case _ => RecordValue("o", "d", "s", Both(k == RecordAt(JBool(true))))
  {
  }

  lemma TwoRecordsWellFormed(path: string)
    ensures WellFormedMap(TwoRecords(path)) && ParentClosed(TwoRecords(path))
  {
    assert NamedMeta(DbMeta("1"), "d", "stores") && NamedMeta(Meta(path), "s", "records");
    forall k | k in TwoRecords(path)
      ensures WellFormed(Entity(k, TwoRecords(path)[k])) && Retained(TwoRecords(path), k)
    {
      TwoRecordsListed(path, k);
    }
  }

  lemma TwoRecordsReKey(path: string, b: bool)
    requires path == "i" || path == "k"
    ensures ReKey(TwoRecords(path), RecordAt(JBool(b))) == Some(RecordAt(IdentityUnder(path, b)))
  {
    var m := TwoRecords(path);
    assert NamedMeta(Meta(path), "s", "records");
    StoreValueMeta(m, "o", "d", "s", Meta(path));
    assert WrappedValue(m[RecordAt(JBool(b))], "record") == Some(Both(b));
    BothUnder(path, b);
  }

  lemma TwoRecordsReKeyAll(path: string, k: Key)
    requires (path == "i" || path == "k") && k in TwoRecords(path)
    ensures ReKey(TwoRecords(path), k) == Some(if k.IdbRecord? && path == "k" then RecordAt(JNull) else k)
  {
    if k.IdbRecord? {
      TwoRecordsListed(path, k);
      TwoRecordsReKey(path, k == RecordAt(JBool(true)));
    }
  }

  lemma TwoRecordsAreStateful()
    ensures IsStateful(TwoRecords("i"))
  {
    TwoRecordsWellFormed("i");
    forall k | k in TwoRecords("i")
      ensures ReKey(TwoRecords("i"), k) == Some(k)
    {
      TwoRecordsReKeyAll("i", k);
    }
  }

  /** Keyed anew, both records become one. */
  lemma TwoRecordsCollapse(ord: Order)
    requires Enumerates(ord)
    ensures var r := Rebuilt(ord, TwoRecords("k"));
            r.Some? && forall k :: k in r.value && k.IdbRecord? ==> k == RecordAt(JNull)
  {
    var m := TwoRecords("k");
    TwoRecordsWellFormed("k");
    forall k | k in m
      ensures ReKey(m, k) == Some(if k.IdbRecord? then RecordAt(JNull) else k)
    {
      TwoRecordsReKeyAll("k", k);
    }
    RebuiltIsReadable(ord, m);
    RebuiltContents(ord, m);
    CollapsedOnly(m, Rebuilt(ord, m).value);
  }

  lemma CollapsedOnly(m: map<Key, Json>, r: map<Key, Json>)
    requires Refiled(m, r)
    requires forall k :: k in m ==> ReKey(m, k) == Some(if k.IdbRecord? then RecordAt(JNull) else k)
    ensures forall k :: k in r && k.IdbRecord? ==> k == RecordAt(JNull)
  {
    forall k | k in r && k.IdbRecord?
      ensures k == RecordAt(JNull)
    {
      var k0 :| Retained(m, k0) && Becomes(m, k0, Entity(k, r[k]));
    }
  }

  lemma RekeyedMap()
    ensures Apply(TwoRecords("i"), StoreMap("1", "k"), {STORE}) == TwoRecords("k")
  {
  }

  lemma RecordsAreAdded()
    ensures STORE !in Changed(StoreMap("1", "i"), TwoRecords("i"))
    ensures TwoRecords("i") != StoreMap("1", "i") && StoreMap("1", "i") != map[]
  {
    assert RecordAt(JBool(true)) in TwoRecords("i") && RecordAt(JBool(true)) !in StoreMap("1", "i");
    assert STORE in StoreMap("1", "i");
  }

  lemma KeyingAnew(ord: Order, stored: Stored)
    requires Enumerates(ord) && Moved(stored, StoreMap("1", "i"), TwoRecords("i"))
    ensures var req := Stale(ord, StoreMap("1", "i"), StoreMap("1", "k"));
            && GoesThrough(ord, stored, req) && Granted(stored, req) == {STORE}
            && Flatten(Merge(ord, stored, req).value.stored.state) == Rebuilt(ord, TwoRecords("k"))
  {
    var req := Stale(ord, StoreMap("1", "i"), StoreMap("1", "k"));
    StoreMapIsStateful("1", "i");
    StoreMapIsStateful("1", "k");
    RekeyedMap();
    StoreCanBeRekeyed(stored);
    StaleGoesThrough(ord, stored, StoreMap("1", "i"), StoreMap("1", "k"), {STORE});
    MergedState(ord, stored, req);
  }

  lemma StoreCanBeRekeyed(stored: Stored)
    requires Moved(stored, StoreMap("1", "i"), TwoRecords("i"))
    ensures Accepted(stored.revisions, 1, StoreMap("1", "i"), StoreMap("1", "k")) == {STORE}
    ensures Changed(StoreMap("1", "i"), StoreMap("1", "k")) == {STORE}
  {
    RecordsAreAdded();
    OnlyStoreChanges("1");
    RekeyedIsUnstamped(stored);
    StoreIsAccepted(stored.revisions, 1, "1");
  }

  lemma RekeyedIsUnstamped(stored: Stored)
    requires Moved(stored, StoreMap("1", "i"), TwoRecords("i"))
    requires STORE !in Changed(StoreMap("1", "i"), TwoRecords("i"))
    ensures !Above(stored.revisions, STORE, 1) && !Above(stored.revisions, OriginDelete("o"), 1)
  {
    assert OriginDelete("o") !in StoreMap("1", "i") && OriginDelete("o") !in TwoRecords("i");
  }

  /**
   A writer who has seen an empty store keys it by another path; meanwhile another has added two records that
   have the same value under that path. Nothing conflicts, the store can be read, nobody writes the records,
   and both are gone from their keys, one of them altogether.
   */
  lemma RecordIsLostUnwritten(ord: Order) returns (reqs: seq<Request>, req: Request)
    requires Enumerates(ord)
    ensures var w := Load(ord, Run(ord, reqs));
            && HasReadFirst(w, req) && GoesThrough(ord, w.stored, req)
            && Flatten(w.stored.state) == Some(TwoRecords("i"))
            && var o := Merge(ord, w.stored, req).value;
            && Flatten(o.stored.state).Some? && (forall b :: !Wrote(o, RecordAt(JBool(b))))
            && forall k :: k in Seen(o.stored.state) && k.IdbRecord? ==> k == RecordAt(JNull)
  {
    var (m1, m2) := (StoreMap("1", "i"), TwoRecords("i"));
    StoreMapIsStateful("1", "i");
    StoreMapIsStateful("1", "k");
    TwoRecordsAreStateful();
    RecordsAreAdded();
    reqs, req := Twice(ord, m1, m2), Stale(ord, m1, StoreMap("1", "k"));
    StaleHasReadFirst(ord, m1, m2, StoreMap("1", "k"));
    var stored := Load(ord, Run(ord, reqs)).stored;
    KeyingAnew(ord, stored);
    TwoRecordsCollapse(ord);
    WroteIsAccepted(ord, stored, req, RecordAt(JBool(true)));
    WroteIsAccepted(ord, stored, req, RecordAt(JBool(false)));
  }
}
