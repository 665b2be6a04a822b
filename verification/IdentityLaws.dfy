/** What survives rebuilding a state from entities and flattening it again. */
module IdentityLaws {
  import opened Common
  import opened IdentityState
  import opened IdentityEntities
  import opened IdentityRoundTrip

  // ---------------------------------------------------------------------------------------
  // The entities whose parents are there
  // ---------------------------------------------------------------------------------------

  ghost predicate ParentClosed(m: map<Key, Json>) {
    forall k :: k in m ==> Retained(m, k)
  }

  function Closure(m: map<Key, Json>): map<Key, Json> {
    map k | k in m && Retained(m, k) :: m[k]
  }

  ghost predicate SubMap(a: map<Key, Json>, b: map<Key, Json>) {
    forall k :: k in a ==> Get(b, k) == Some(a[k])
  }

  /** Keeping the entities whose parents are there loses no more than it must. */
  lemma ClosureIsLargest(m: map<Key, Json>, a: map<Key, Json>)
    ensures ParentClosed(Closure(m)) && SubMap(Closure(m), m)
    ensures ParentClosed(a) && SubMap(a, m) ==> SubMap(a, Closure(m))
    ensures Closure(m) == m <==> ParentClosed(m)
  {
    if ParentClosed(a) && SubMap(a, m) {
      forall k | k in a
        ensures Retained(m, k) && k in m
      {
        assert Retained(a, k) && Get(m, k) == Some(a[k]);
      }
    }
  }

  // ---------------------------------------------------------------------------------------
  // Rebuild, then flatten
  // ---------------------------------------------------------------------------------------

  function Rebuilt(ord: Order, m: map<Key, Json>): Option<map<Key, Json>> {
    var state :- Rebuild(ord, m);
    Flatten(state)
  }

  ghost predicate AllIdentified(m: map<Key, Json>) {
    forall k :: k in m && Retained(m, k) ==> ReKey(m, k).Some?
  }

  lemma ReadableWhole(m: map<Key, Json>, emitted: Option<seq<Entity>>)
    requires EmitsExactly(emitted, m, Whole)
    ensures emitted.Some? <==> AllIdentified(m)
  {
    assert forall k :: Holds(m, Whole, k) <==> k in m && Retained(m, k);
  }

  /** A rebuilt state can be read again exactly when every retained record still has an identity. */
  lemma RebuiltIsReadable(ord: Order, m: map<Key, Json>)
    requires Enumerates(ord) && WellFormedMap(m)
    ensures Rebuilt(ord, m).Some? <==> AllIdentified(m)
  {
    RebuiltEmissions(ord, m);
    ReadableWhole(m, EmitState(Rebuild(ord, m).value));
  }

  /** r holds exactly the retained entities of m, each under the key it has after a rebuild. */
  ghost predicate Refiled(m: map<Key, Json>, r: map<Key, Json>) {
    && (forall k :: k in r ==> exists k0 :: Retained(m, k0) && Becomes(m, k0, Entity(k, r[k])))
    && (forall k0 :: k0 in m && Retained(m, k0) ==> ReKey(m, k0).Some? && ReKey(m, k0).value in r)
  }

  lemma RefiledWhole(m: map<Key, Json>, es: seq<Entity>)
    requires EmitsExactly(Some(es), m, Whole)
    ensures Refiled(m, InsertAll(map[], es))
  {
    var r := InsertAll(map[], es);
    InsertAllLookup(es);
    forall k | k in r
      ensures exists k0 :: Retained(m, k0) && Becomes(m, k0, Entity(k, r[k]))
    {
      assert Entity(k, r[k]) in es;
      var k0 :| Holds(m, Whole, k0) && Becomes(m, k0, Entity(k, r[k]));
    }
    forall k0 | k0 in m && Retained(m, k0)
      ensures ReKey(m, k0).Some? && ReKey(m, k0).value in r
    {
      assert Holds(m, Whole, k0);
      assert Becomes(m, k0, Entity(ReKey(m, k0).value, m[k0]));
    }
  }

  lemma RebuiltContents(ord: Order, m: map<Key, Json>)
    requires Enumerates(ord) && WellFormedMap(m) && Rebuilt(ord, m).Some?
    ensures Refiled(m, Rebuilt(ord, m).value)
  {
    RebuiltEmissions(ord, m);
    RefiledWhole(m, EmitState(Rebuild(ord, m).value).value);
  }

  lemma RefiledKeeps(m: map<Key, Json>, r: map<Key, Json>, k: Key)
    requires Refiled(m, r) && !k.IdbRecord?
    ensures Get(r, k) == if Retained(m, k) then Get(m, k) else None
  {
    if k in r {
      var k0 :| Retained(m, k0) && Becomes(m, k0, Entity(k, r[k]));
      assert k0 == k;
    }
    if k in m && Retained(m, k) {
      assert ReKey(m, k) == Some(k) && k in r;
    }
  }

  /** Only records can change their keys, so everything else is kept or dropped as it stands. */
  lemma RebuiltKeepsAllButRecords(ord: Order, m: map<Key, Json>, k: Key)
    requires Enumerates(ord) && WellFormedMap(m) && Rebuilt(ord, m).Some? && !k.IdbRecord?
    ensures Get(Rebuilt(ord, m).value, k) == if Retained(m, k) then Get(m, k) else None
  {
    RebuiltContents(ord, m);
    RefiledKeeps(m, Rebuilt(ord, m).value, k);
  }

  /** Cookies and localStorage items come back exactly. */
  lemma RebuiltKeepsPlain(ord: Order, m: map<Key, Json>, k: Key)
    requires Enumerates(ord) && WellFormedMap(m) && Rebuilt(ord, m).Some? && k.IsPlain()
    ensures Get(Rebuilt(ord, m).value, k) == Get(m, k)
  {
    RebuiltKeepsAllButRecords(ord, m, k);
  }

  /** Each retained record is filed under the identity it has under its store's metadata. */
  ghost predicate SelfIdentified(m: map<Key, Json>) {
    forall k :: k in m && Retained(m, k) ==> ReKey(m, k) == Some(k)
  }

  lemma ReKeyIsInjectiveOnValues(m: map<Key, Json>, a: Key, b: Key)
    requires a in m && b in m && a.IdbRecord? && ReKey(m, b) == Some(a) && m[a] == m[b]
    ensures ReKey(m, a) == Some(a)
  {
    assert b.IdbRecord? && b.origin == a.origin && b.db == a.db && b.store == a.store;
  }

  /** The round trip returns the largest parent-closed part of the map, exactly when it is self-identified. */
  lemma RoundTrip(ord: Order, m: map<Key, Json>)
    requires Enumerates(ord) && WellFormedMap(m)
    ensures Rebuilt(ord, m) == Some(Closure(m)) <==> SelfIdentified(m)
  {
    if SelfIdentified(m) {
      SelfIdentifiedRoundTrip(ord, m);
    }
    if Rebuilt(ord, m) == Some(Closure(m)) {
      RebuiltContents(ord, m);
      RefiledClosure(m);
    }
  }

  lemma RefiledClosure(m: map<Key, Json>)
    requires Refiled(m, Closure(m))
    ensures SelfIdentified(m)
  {
    forall k | k in m && Retained(m, k)
      ensures ReKey(m, k) == Some(k)
    {
      assert k in Closure(m);
      var k0 :| Retained(m, k0) && Becomes(m, k0, Entity(k, Closure(m)[k]));
      if k.IdbRecord? {
        ReKeyIsInjectiveOnValues(m, k, k0);
      }
    }
  }

  lemma SelfIdentifiedRefiled(m: map<Key, Json>, r: map<Key, Json>)
    requires Refiled(m, r) && SelfIdentified(m)
    ensures r == Closure(m)
  {
    forall k
      ensures k in r <==> k in Closure(m)
      ensures k in r ==> r[k] == m[k]
    {
      if k in r {
        var k0 :| Retained(m, k0) && Becomes(m, k0, Entity(k, r[k]));
      }
      if k in Closure(m) {
        assert ReKey(m, k) == Some(k);
      }
    }
  }

  lemma SelfIdentifiedRoundTrip(ord: Order, m: map<Key, Json>)
    requires Enumerates(ord) && WellFormedMap(m) && SelfIdentified(m)
    ensures Rebuilt(ord, m) == Some(Closure(m))
  {
    assert AllIdentified(m);
    RebuiltIsReadable(ord, m);
    RebuiltContents(ord, m);
    SelfIdentifiedRefiled(m, Rebuilt(ord, m).value);
  }

  // ---------------------------------------------------------------------------------------
  // Flatten, rebuild, then flatten
  // ---------------------------------------------------------------------------------------

  /** What surrounds an entity in the state that emits it. */
  ghost predicate AtHome(e: Entity, es: seq<Entity>) {
    match e.key
    case IdbStore(o, d, _) => HasKey(es, IdbDb(o, d))
    case IdbRecord(o, d, s, identity) =>
      && HasKey(es, IdbDb(o, d))
      && exists meta, r :: InStore(es, e, o, d, s, identity, meta, r)
    case _ => true
  }

  ghost predicate HasKey(es: seq<Entity>, k: Key) {
    exists e :: e in es && e.key == k
  }

  ghost predicate InStore(es: seq<Entity>, e: Entity, o: string, d: string, s: string, identity: Json, meta: Object,
                          r: Json) {
    && Entity(IdbStore(o, d, s), StoreValue(o, d, meta)) in es
    && NamedMeta(meta, s, "records")
    && e.value == RecordValue(o, d, s, r)
    && RecordIdentity(meta, r) == Some(identity)
  }

  lemma IdentityIgnoresDropped(store: Object, r: Json)
    ensures RecordIdentity(store - {"records"}, r) == RecordIdentity(store, r)
  {
  }

  lemma StoreHome(o: string, d: string, v: Json, e: Entity, es: seq<Entity>)
    requires EmitStore(o, d, v).Some? && e in EmitStore(o, d, v).value
    requires forall x :: x in EmitStore(o, d, v).value ==> x in es
    requires HasKey(es, IdbDb(o, d))
    ensures AtHome(e, es)
  {
    var s := RequiredString(v.fields, "name").value;
    var f := RecordEmitter(o, d, s, v.fields);
    var records := ArrayAt(v.fields, "records").value;
    EmitAllIn(f, records, e);
    var meta := v.fields - {"records"};
    if e in EmitAll(f, records).value {
      var r :| r in records && f(r).Some? && e in f(r).value;
      IdentityIgnoresDropped(v.fields, r);
      StoreIsListed(o, d, v);
      assert InStore(es, e, o, d, s, e.key.identity, meta, r);
    }
  }

  lemma StoreIsListed(o: string, d: string, v: Json)
    requires EmitStore(o, d, v).Some?
    ensures var s := RequiredString(v.fields, "name").value;
            Entity(IdbStore(o, d, s), StoreValue(o, d, v.fields - {"records"})) in EmitStore(o, d, v).value
  {
  }

  lemma DbHome(o: string, v: Json, e: Entity, es: seq<Entity>)
    requires EmitDb(o, v).Some? && e in EmitDb(o, v).value
    requires forall x :: x in EmitDb(o, v).value ==> x in es
    ensures AtHome(e, es)
  {
    var d := RequiredString(v.fields, "name").value;
    var f := StoreEmitter(o, d);
    var stores := ArrayAt(v.fields, "stores").value;
    EmitAllIn(f, stores, e);
    var head := Entity(IdbDb(o, d), DbValue(o, v.fields - {"stores"}));
    assert head in EmitDb(o, v).value;
    if e in EmitAll(f, stores).value {
      var s :| s in stores && f(s).Some? && e in f(s).value;
      forall x | x in EmitStore(o, d, s).value
        ensures x in es
      {
        EmitAllIn(f, stores, x);
        assert s in stores && f(s).Some? && x in f(s).value;
      }
      StoreHome(o, d, s, e, es);
    }
  }

  lemma OriginHome(v: Json, e: Entity, es: seq<Entity>)
    requires EmitOrigin(v).Some? && e in EmitOrigin(v).value
    requires forall x :: x in EmitOrigin(v).value ==> x in es
    ensures AtHome(e, es)
  {
    var o := RequiredString(v.fields, "origin").value;
    var (f, g) := (LocalEmitter(o), DbEmitter(o));
    var (items, databases) := (ArrayAt(v.fields, "localStorage").value, Databases(v.fields).value);
    EmitAllIn(f, items, e);
    EmitAllIn(g, databases, e);
    if e in EmitAll(f, items).value {
      var item :| item in items && f(item).Some? && e in f(item).value;
    } else {
      var d :| d in databases && g(d).Some? && e in g(d).value;
      forall x | x in EmitDb(o, d).value
        ensures x in es
      {
        EmitAllIn(g, databases, x);
        assert d in databases && g(d).Some? && x in g(d).value;
      }
      DbHome(o, d, e, es);
    }
  }

  lemma StateHome(state: Json, e: Entity)
    requires EmitState(state).Some? && e in EmitState(state).value
    ensures AtHome(e, EmitState(state).value)
  {
    var es := EmitState(state).value;
    var (cookies, origins) := (ArrayAt(state.fields, "cookies").value, ArrayAt(state.fields, "origins").value);
    EmitAllIn(EmitCookie, cookies, e);
    EmitAllIn(EmitOrigin, origins, e);
    if e in EmitAll(EmitCookie, cookies).value {
      var c :| c in cookies && EmitCookie(c).Some? && e in EmitCookie(c).value;
    } else {
      var o :| o in origins && EmitOrigin(o).Some? && e in EmitOrigin(o).value;
      forall x | x in EmitOrigin(o).value
        ensures x in es
      {
        EmitAllIn(EmitOrigin, origins, x);
        assert o in origins && EmitOrigin(o).Some? && x in EmitOrigin(o).value;
      }
      OriginHome(o, e, es);
    }
  }

  /** A flattened state holds the database of every store and the store of every record. */
  lemma FlattenIsParentClosed(state: Json)
    requires Flatten(state).Some?
    ensures ParentClosed(Flatten(state).value)
  {
    var es := EmitState(state).value;
    var m := Flatten(state).value;
    InsertAllLookup(es);
    FlattenWellFormed(state);
    forall k | k in m
      ensures Retained(m, k)
    {
      assert WellFormed(Entity(k, m[k]));
      StateHome(state, Entity(k, m[k]));
    }
  }

  /** Stores listed under one origin, database and name carry the same metadata. */
  ghost predicate ConsistentStores(state: Json) {
    EmitState(state).Some? ==>
      forall a, b :: a in EmitState(state).value && b in EmitState(state).value && a.key == b.key && a.key.IdbStore?
                     ==> a.value == b.value
  }

  lemma StoreValueMeta(m: map<Key, Json>, o: string, d: string, s: string, meta: Object)
    requires IdbStore(o, d, s) in m && m[IdbStore(o, d, s)] == StoreValue(o, d, meta)
    requires NamedMeta(meta, s, "records")
    ensures MetaOf(m, IdbStore(o, d, s)) == meta
  {
    assert Parse(Entity(IdbStore(o, d, s), m[IdbStore(o, d, s)])) == Some(StorePart(o, d, s, meta));
  }

  lemma ConsistentRecord(state: Json, k: Key)
    requires Flatten(state).Some? && ConsistentStores(state) && k in Flatten(state).value && k.IdbRecord?
    ensures ReKey(Flatten(state).value, k) == Some(k)
  {
    var es := EmitState(state).value;
    var m := Flatten(state).value;
    InsertAllLookup(es);
    StateHome(state, Entity(k, m[k]));
    var (o, d, s) := (k.origin, k.db, k.store);
    var meta, r :| InStore(es, Entity(k, m[k]), o, d, s, k.identity, meta, r);
    var key := IdbStore(o, d, s);
    assert Entity(key, StoreValue(o, d, meta)).key in m && Entity(key, m[key]) in es;
    StoreValueMeta(m, o, d, s, meta);
    assert WrappedValue(m[k], "record") == Some(r);
  }

  /** Flattening what was rebuilt from a flattened state changes nothing, if no store contradicts another. */
  lemma FlattenRebuildFlatten(ord: Order, state: Json)
    requires Enumerates(ord) && Flatten(state).Some? && ConsistentStores(state)
    ensures Rebuilt(ord, Flatten(state).value) == Flatten(state)
  {
    var m := Flatten(state).value;
    FlattenWellFormed(state);
    FlattenIsParentClosed(state);
    forall k | k in m && Retained(m, k)
      ensures ReKey(m, k) == Some(k)
    {
      if k.IdbRecord? {
        ConsistentRecord(state, k);
      }
    }
    SelfIdentifiedRoundTrip(ord, m);
    ClosureIsLargest(m, m);
  }

  /** In general the law holds exactly when the flattened records re-identify to their own keys. */
  lemma FlattenRebuildFlattenExactly(ord: Order, state: Json)
    requires Enumerates(ord) && Flatten(state).Some?
    ensures Rebuilt(ord, Flatten(state).value) == Flatten(state) <==> SelfIdentified(Flatten(state).value)
  {
    FlattenWellFormed(state);
    FlattenIsParentClosed(state);
    ClosureIsLargest(Flatten(state).value, Flatten(state).value);
    RoundTrip(ord, Flatten(state).value);
  }

  // ---- a state for which it fails ----

  function Meta(path: string): Object {
    map["name" := JString("s"), "keyPath" := JString(path)]
  }

  function DbMeta(version: string): Object {
    map["name" := JString("d"), "version" := JString(version)]
  }

  const RECORD := JObject(map["value" := JObject(map["i" := JNull])])

  function OneRecordMap(dbMeta: Object, meta: Object, record: Json): map<Key, Json> {
    map[IdbDb("o", "d") := DbValue("o", dbMeta),
        IdbStore("o", "d", "s") := StoreValue("o", "d", meta),
        IdbRecord("o", "d", "s", JNull) := RecordValue("o", "d", "s", record)]
  }

  lemma OneRecordIsWellFormed(dbMeta: Object, meta: Object, record: Json)
    requires NamedMeta(dbMeta, "d", "stores") && NamedMeta(meta, "s", "records")
    ensures WellFormedMap(OneRecordMap(dbMeta, meta, record)) && ParentClosed(OneRecordMap(dbMeta, meta, record))
  {
    var m := OneRecordMap(dbMeta, meta, record);
    assert m.Keys == {IdbDb("o", "d"), IdbStore("o", "d", "s"), IdbRecord("o", "d", "s", JNull)};
    assert WellFormed(Entity(IdbDb("o", "d"), DbValue("o", dbMeta)));
    assert WellFormed(Entity(IdbStore("o", "d", "s"), StoreValue("o", "d", meta)));
    assert WellFormed(Entity(IdbRecord("o", "d", "s", JNull), RecordValue("o", "d", "s", record)));
  }

  lemma OneRecordReKeys(dbMeta: Object, meta: Object, record: Json)
    requires NamedMeta(meta, "s", "records") && RecordIdentity(meta, record) == None
    ensures !AllIdentified(OneRecordMap(dbMeta, meta, record))
  {
    var m := OneRecordMap(dbMeta, meta, record);
    var key := IdbRecord("o", "d", "s", JNull);
    StoreValueMeta(m, "o", "d", "s", meta);
    assert WrappedValue(m[key], "record") == Some(record);
    assert key in m && Retained(m, key) && ReKey(m, key) == None;
  }

  lemma PathOfOneLetter(path: string)
    requires |path| == 1 && path[0] != '.'
    ensures SplitDots(path) == [path]
  {
    assert path[1..] == "" && SplitDots(path[1..]) == [""];
    assert [path[0]] + "" == path;
  }

  lemma RecordUnder(path: string)
    requires path == "i" || path == "k"
    ensures RecordIdentity(Meta(path), RECORD) == if path == "i" then Some(JNull) else None
  {
    PathOfOneLetter(path);
    var value := RECORD.fields["value"];
    var lookup := (p: seq<string>) => PlainAt(value, p);
    assert KeyPaths(Meta(path)) == Some([path]);
    assert PlainAt(value, [path]) == if path == "i" then Some(JNull) else None;
    assert lookup(SplitDots(path)) == PlainAt(value, [path]);
    assert [path][1..] == [] && InlineKeys([path][1..], lookup) == Some([]) && [JNull] + [] == [JNull];
    assert InlineKeys([path], lookup) == if path == "i" then Some([JNull]) else None;
  }

  lemma Orphaned(version: string)
    ensures !AllIdentified(OneRecordMap(DbMeta(version), Meta("k"), RECORD))
  {
    RecordUnder("k");
    assert NamedMeta(Meta("k"), "s", "records");
    OneRecordReKeys(DbMeta(version), Meta("k"), RECORD);
  }

  function StoreListed(path: string, records: seq<Json>): Json {
    JObject(Meta(path)["records" := JArray(records)])
  }

  function DbListed(): Json {
    JObject(DbMeta("1")["stores" := JArray([StoreListed("i", [RECORD]), StoreListed("k", [])])])
  }

  function OriginListed(): Json {
    JObject(map["origin" := JString("o"), "localStorage" := JArray([]), "indexedDB" := JArray([DbListed()])])
  }

  /** One store listed twice: keyed by "i" with the record {i: null}, then keyed by "k" and empty. */
  function TwiceListed(): Json {
    JObject(map["cookies" := JArray([]), "origins" := JArray([OriginListed()])])
  }

  lemma EmitOne<A>(f: A -> Option<seq<Entity>>, x: A)
    ensures EmitAll(f, [x]) == f(x)
  {
    assert [x][..0] == [];
    if f(x).Some? {
      assert [] + f(x).value == f(x).value;
    }
  }

  lemma EmitTwo<A>(f: A -> Option<seq<Entity>>, x: A, y: A)
    requires f(x).Some? && f(y).Some?
    ensures EmitAll(f, [x, y]) == Some(f(x).value + f(y).value)
  {
    EmitOne(f, x);
    assert [x, y][..1] == [x];
  }

  lemma StoreListedEmits(path: string, records: seq<Json>)
    requires path == "i" || path == "k"
    requires records == [] || (path == "i" && records == [RECORD])
    ensures EmitStore("o", "d", StoreListed(path, records))
            == Some([Entity(IdbStore("o", "d", "s"), StoreValue("o", "d", Meta(path)))]
                    + if records == [] then []
                      else [Entity(IdbRecord("o", "d", "s", JNull), RecordValue("o", "d", "s", RECORD))])
  {
    var store := Meta(path)["records" := JArray(records)];
    assert store - {"records"} == Meta(path);
    if records != [] {
      RecordUnder("i");
      IdentityIgnoresRecords(Meta(path), JArray(records), RECORD);
      EmitOne(RecordEmitter("o", "d", "s", store), RECORD);
    }
  }

  function ListedDb(): Entity {
    Entity(IdbDb("o", "d"), DbValue("o", DbMeta("1")))
  }

  function ListedStore(path: string): Entity {
    Entity(IdbStore("o", "d", "s"), StoreValue("o", "d", Meta(path)))
  }

  function ListedRecord(): Entity {
    Entity(IdbRecord("o", "d", "s", JNull), RecordValue("o", "d", "s", RECORD))
  }

  function ListedEntities(): seq<Entity> {
    [] + [ListedDb()] + [ListedStore("i")] + [ListedRecord()] + [ListedStore("k")]
  }

  lemma StoresListedEmit()
    ensures EmitAll(StoreEmitter("o", "d"), [StoreListed("i", [RECORD]), StoreListed("k", [])])
            == Some([ListedStore("i")] + [ListedRecord()] + [ListedStore("k")])
  {
    StoreListedEmits("i", [RECORD]);
    StoreListedEmits("k", []);
    EmitTwo(StoreEmitter("o", "d"), StoreListed("i", [RECORD]), StoreListed("k", []));
    assert [ListedStore("k")] + [] == [ListedStore("k")];
  }

  lemma DbEmitsAround(o: string, d: string, meta: Object, stores: seq<Json>)
    requires NamedMeta(meta, d, "stores") && EmitAll(StoreEmitter(o, d), stores).Some?
    ensures EmitDb(o, JObject(meta["stores" := JArray(stores)]))
            == Some([Entity(IdbDb(o, d), DbValue(o, meta))] + EmitAll(StoreEmitter(o, d), stores).value)
  {
    assert meta["stores" := JArray(stores)] - {"stores"} == meta;
  }

  lemma DbListedEmits()
    ensures EmitDb("o", DbListed()) == Some(ListedEntities())
  {
    StoresListedEmit();
    assert NamedMeta(DbMeta("1"), "d", "stores");
    DbEmitsAround("o", "d", DbMeta("1"), [StoreListed("i", [RECORD]), StoreListed("k", [])]);
    assert [ListedDb()] + ([ListedStore("i")] + [ListedRecord()] + [ListedStore("k")]) == ListedEntities();
  }

  lemma OriginOfDbs(dbs: seq<Json>)
    ensures EmitOrigin(JObject(map["origin" := JString("o"), "localStorage" := JArray([]), "indexedDB" := JArray(dbs)]))
            == EmitAll(DbEmitter("o"), dbs)
  {
    var inside := EmitAll(DbEmitter("o"), dbs);
    if inside.Some? {
      assert [] + inside.value == inside.value;
    }
  }

  lemma OriginListedEmits()
    ensures EmitOrigin(OriginListed()) == Some(ListedEntities())
  {
    DbListedEmits();
    OriginOfDbs([DbListed()]);
    EmitOne(DbEmitter("o"), DbListed());
  }

  lemma TwiceListedEmits()
    ensures EmitState(TwiceListed()) == Some(ListedEntities())
  {
    OriginListedEmits();
    EmitOne(EmitOrigin, OriginListed());
    assert [] + ListedEntities() == ListedEntities();
  }

  lemma InsertSnoc(m: map<Key, Json>, es: seq<Entity>, e: Entity)
    ensures InsertAll(m, es + [e]) == InsertAll(m, es)[e.key := e.value]
  {
    assert (es + [e])[..|es + [e]| - 1] == es;
  }

  lemma InsertFour(a: Entity, b: Entity, c: Entity, d: Entity)
    ensures InsertAll(map[], [] + [a] + [b] + [c] + [d])
            == map[a.key := a.value][b.key := b.value][c.key := c.value][d.key := d.value]
  {
    InsertSnoc(map[], [], a);
    InsertSnoc(map[], [] + [a], b);
    InsertSnoc(map[], [] + [a] + [b], c);
    InsertSnoc(map[], [] + [a] + [b] + [c], d);
  }

  lemma TwiceListedFlattens()
    ensures Flatten(TwiceListed()) == Some(OneRecordMap(DbMeta("1"), Meta("k"), RECORD))
  {
    TwiceListedEmits();
    var (db, i, record, k) := (ListedDb(), ListedStore("i"), ListedRecord(), ListedStore("k"));
    InsertFour(db, i, record, k);
    assert map[db.key := db.value][i.key := i.value][record.key := record.value][k.key := k.value]
        == OneRecordMap(DbMeta("1"), Meta("k"), RECORD);
  }

  /** Stores that contradict each other: rebuilding the flattened state makes it unreadable. */
  lemma TwiceListedFails(ord: Order)
    requires Enumerates(ord)
    ensures Flatten(TwiceListed()).Some? && Rebuilt(ord, Flatten(TwiceListed()).value) == None
  {
    TwiceListedFlattens();
    FlattenWellFormed(TwiceListed());
    Orphaned("1");
    RebuiltIsReadable(ord, Flatten(TwiceListed()).value);
  }

  // ---------------------------------------------------------------------------------------
  // A second rebuild changes nothing
  // ---------------------------------------------------------------------------------------

  lemma MetaOfValue(a: map<Key, Json>, b: map<Key, Json>, k: Key)
    requires Get(a, k) == Get(b, k)
    ensures MetaOf(a, k) == MetaOf(b, k)
  {
    if k in a {
      assert Get(a, k) == Some(a[k]) && Get(b, k) == Some(b[k]);
    }
  }

  lemma RefiledRecord(m: map<Key, Json>, r: map<Key, Json>, k: Key)
    requires Refiled(m, r) && k in r && k.IdbRecord?
    ensures ReKey(r, k) == Some(k)
  {
    var k0 :| Retained(m, k0) && Becomes(m, k0, Entity(k, r[k]));
    var store := IdbStore(k.origin, k.db, k.store);
    assert k0.IdbRecord? && k0.origin == k.origin && k0.db == k.db && k0.store == k.store;
    assert Retained(m, store);
    RefiledKeeps(m, r, store);
    MetaOfValue(m, r, store);
  }

  /** Whatever a rebuild does to the records' keys, the next one keeps: the stored state is stable. */
  lemma RebuildingIsStable(ord: Order, m: map<Key, Json>)
    requires Enumerates(ord) && WellFormedMap(m) && Rebuilt(ord, m).Some?
    ensures Rebuilt(ord, Rebuilt(ord, m).value) == Rebuilt(ord, m)
  {
    var r := Rebuilt(ord, m).value;
    RebuiltContents(ord, m);
    FlattenWellFormed(Rebuild(ord, m).value);
    FlattenIsParentClosed(Rebuild(ord, m).value);
    forall k | k in r && Retained(r, k)
      ensures ReKey(r, k) == Some(k)
    {
      if k.IdbRecord? {
        RefiledRecord(m, r, k);
      }
    }
    SelfIdentifiedRoundTrip(ord, r);
    ClosureIsLargest(r, r);
  }
}
