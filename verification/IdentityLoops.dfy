/** flatten_state and rebuild_state as loops that insert into maps. */
module IdentityLoops {
  import opened Common
  import opened IdentityState
  import opened IdentityEntities

  // ---------------------------------------------------------------------------------------
  // flatten_state
  // ---------------------------------------------------------------------------------------

  /** The map after inserting what was emitted; nothing if emitting failed. */
  function Insert(m: map<Key, Json>, emitted: Option<seq<Entity>>): Option<map<Key, Json>> {
    var es :- emitted;
    Some(InsertAll(m, es))
  }

  lemma {:induction false} InsertAllConcat(m: map<Key, Json>, a: seq<Entity>, b: seq<Entity>)
    ensures InsertAll(InsertAll(m, a), b) == InsertAll(m, a + b)
  {
    if b == [] {
      assert a + b == a;
    } else {
      var n := |b| - 1;
      InsertAllConcat(m, a, b[..n]);
      assert (a + b)[..|a + b| - 1] == a + b[..n];
    }
  }

  lemma EmitAllStep<A>(f: A -> Option<seq<Entity>>, xs: seq<A>, i: nat)
    requires i < |xs| && EmitAll(f, xs[..i]).Some?
    ensures f(xs[i]).Some? ==> EmitAll(f, xs[..i + 1]) == Some(EmitAll(f, xs[..i]).value + f(xs[i]).value)
    ensures f(xs[i]).None? ==> EmitAll(f, xs).None?
  {
    assert xs[..i + 1][..i] == xs[..i];
    EmitAllSome(f, xs);
  }

  method InsertRecords(m: map<Key, Json>, origin: string, db: string, store: string, storeObject: Object,
                       records: seq<Json>)
    returns (r: Option<map<Key, Json>>)
    ensures r == Insert(m, EmitAll(RecordEmitter(origin, db, store, storeObject), records))
  {
    var entities := m;
    ghost var f := RecordEmitter(origin, db, store, storeObject);
    for i := 0 to |records|
      invariant EmitAll(f, records[..i]).Some? && Insert(m, EmitAll(f, records[..i])) == Some(entities)
    {
      EmitAllStep(f, records, i);
      var identity := RecordIdentity(storeObject, records[i]);
      if identity.None? {
        return None;
      }
      entities := entities[IdbRecord(origin, db, store, identity.value) := RecordValue(origin, db, store, records[i])];
      InsertAllConcat(m, EmitAll(f, records[..i]).value, f(records[i]).value);
    }
    assert records[..|records|] == records;
    return Some(entities);
  }

  method InsertStores(m: map<Key, Json>, origin: string, db: string, stores: seq<Json>)
    returns (r: Option<map<Key, Json>>)
    ensures r == Insert(m, EmitAll(StoreEmitter(origin, db), stores))
  {
    var entities := m;
    ghost var f := StoreEmitter(origin, db);
    for i := 0 to |stores|
      invariant EmitAll(f, stores[..i]).Some? && Insert(m, EmitAll(f, stores[..i])) == Some(entities)
    {
      EmitAllStep(f, stores, i);
      var inserted := InsertStore(entities, origin, db, stores[i]);
      if inserted.None? {
        return None;
      }
      entities := inserted.value;
      InsertAllConcat(m, EmitAll(f, stores[..i]).value, f(stores[i]).value);
    }
    assert stores[..|stores|] == stores;
    return Some(entities);
  }

  method InsertStore(m: map<Key, Json>, origin: string, db: string, store: Json) returns (r: Option<map<Key, Json>>)
    ensures r == Insert(m, EmitStore(origin, db, store))
  {
    if !store.JObject? {
      return None;
    }
    var name := RequiredString(store.fields, "name");
    var records := ArrayAt(store.fields, "records");
    if name.None? || records.None? {
      return None;
    }
    var head := Entity(IdbStore(origin, db, name.value), StoreValue(origin, db, store.fields - {"records"}));
    r := InsertRecords(m[head.key := head.value], origin, db, name.value, store.fields, records.value);
    InsertAround(m, head, EmitAll(RecordEmitter(origin, db, name.value, store.fields), records.value));
  }

  lemma InsertAround(m: map<Key, Json>, head: Entity, inside: Option<seq<Entity>>)
    ensures Insert(m[head.key := head.value], inside)
            == Insert(m, if inside.Some? then Some([head] + inside.value) else None)
  {
    if inside.Some? {
      InsertAllConcat(m, [head], inside.value);
      assert [head][..0] == [];
    }
  }

  method InsertDb(m: map<Key, Json>, origin: string, db: Json) returns (r: Option<map<Key, Json>>)
    ensures r == Insert(m, EmitDb(origin, db))
  {
    if !db.JObject? {
      return None;
    }
    var name := RequiredString(db.fields, "name");
    var stores := ArrayAt(db.fields, "stores");
    if name.None? || stores.None? {
      return None;
    }
    var head := Entity(IdbDb(origin, name.value), DbValue(origin, db.fields - {"stores"}));
    r := InsertStores(m[head.key := head.value], origin, name.value, stores.value);
    InsertAround(m, head, EmitAll(StoreEmitter(origin, name.value), stores.value));
  }

  method InsertDbs(m: map<Key, Json>, origin: string, dbs: seq<Json>) returns (r: Option<map<Key, Json>>)
    ensures r == Insert(m, EmitAll(DbEmitter(origin), dbs))
  {
    var entities := m;
    ghost var f := DbEmitter(origin);
    for i := 0 to |dbs|
      invariant EmitAll(f, dbs[..i]).Some? && Insert(m, EmitAll(f, dbs[..i])) == Some(entities)
    {
      EmitAllStep(f, dbs, i);
      var inserted := InsertDb(entities, origin, dbs[i]);
      if inserted.None? {
        return None;
      }
      entities := inserted.value;
      InsertAllConcat(m, EmitAll(f, dbs[..i]).value, f(dbs[i]).value);
    }
    assert dbs[..|dbs|] == dbs;
    return Some(entities);
  }

  method InsertItems(m: map<Key, Json>, origin: string, items: seq<Json>) returns (r: Option<map<Key, Json>>)
    ensures r == Insert(m, EmitAll(LocalEmitter(origin), items))
  {
    var entities := m;
    ghost var f := LocalEmitter(origin);
    for i := 0 to |items|
      invariant EmitAll(f, items[..i]).Some? && Insert(m, EmitAll(f, items[..i])) == Some(entities)
    {
      EmitAllStep(f, items, i);
      if !items[i].JObject? {
        return None;
      }
      var name := RequiredString(items[i].fields, "name");
      if name.None? || StringAt(items[i].fields, "value").None? {
        return None;
      }
      entities := entities[Local(origin, name.value) := LocalValue(origin, items[i])];
      InsertAllConcat(m, EmitAll(f, items[..i]).value, f(items[i]).value);
    }
    assert items[..|items|] == items;
    return Some(entities);
  }

  method InsertOrigin(m: map<Key, Json>, v: Json) returns (r: Option<map<Key, Json>>)
    ensures r == Insert(m, EmitOrigin(v))
  {
    if !v.JObject? {
      return None;
    }
    var origin := RequiredString(v.fields, "origin");
    var items := ArrayAt(v.fields, "localStorage");
    if origin.None? || items.None? {
      return None;
    }
    var locals := InsertItems(m, origin.value, items.value);
    if locals.None? {
      return None;
    }
    var databases := Databases(v.fields);
    if databases.None? {
      return None;
    }
    r := InsertDbs(locals.value, origin.value, databases.value);
    InsertBoth(m, EmitAll(LocalEmitter(origin.value), items.value), EmitAll(DbEmitter(origin.value), databases.value));
  }

  lemma InsertBoth(m: map<Key, Json>, a: Option<seq<Entity>>, b: Option<seq<Entity>>)
    requires a.Some?
    ensures Insert(Insert(m, a).value, b) == Insert(m, if b.Some? then Some(a.value + b.value) else None)
  {
    if b.Some? {
      InsertAllConcat(m, a.value, b.value);
    }
  }

  method InsertOrigins(m: map<Key, Json>, origins: seq<Json>) returns (r: Option<map<Key, Json>>)
    ensures r == Insert(m, EmitAll(EmitOrigin, origins))
  {
    var entities := m;
    for i := 0 to |origins|
      invariant EmitAll(EmitOrigin, origins[..i]).Some?
                && Insert(m, EmitAll(EmitOrigin, origins[..i])) == Some(entities)
    {
      EmitAllStep(EmitOrigin, origins, i);
      var inserted := InsertOrigin(entities, origins[i]);
      if inserted.None? {
        return None;
      }
      entities := inserted.value;
      InsertAllConcat(m, EmitAll(EmitOrigin, origins[..i]).value, EmitOrigin(origins[i]).value);
    }
    assert origins[..|origins|] == origins;
    return Some(entities);
  }

  method InsertCookies(m: map<Key, Json>, cookies: seq<Json>) returns (r: Option<map<Key, Json>>)
    ensures r == Insert(m, EmitAll(EmitCookie, cookies))
  {
    var entities := m;
    for i := 0 to |cookies|
      invariant EmitAll(EmitCookie, cookies[..i]).Some?
                && Insert(m, EmitAll(EmitCookie, cookies[..i])) == Some(entities)
    {
      EmitAllStep(EmitCookie, cookies, i);
      if !cookies[i].JObject? {
        return None;
      }
      var key := CookieKey(cookies[i].fields);
      if key.None? {
        return None;
      }
      entities := entities[key.value := cookies[i]];
      InsertAllConcat(m, EmitAll(EmitCookie, cookies[..i]).value, EmitCookie(cookies[i]).value);
    }
    assert cookies[..|cookies|] == cookies;
    return Some(entities);
  }

  method FlattenState(state: Json) returns (r: Option<map<Key, Json>>)
    ensures r == Flatten(state)
  {
    if !state.JObject? {
      return None;
    }
    var cookies := ArrayAt(state.fields, "cookies");
    var origins := ArrayAt(state.fields, "origins");
    if cookies.None? || origins.None? {
      return None;
    }
    var first := InsertCookies(map[], cookies.value);
    if first.None? {
      return None;
    }
    r := InsertOrigins(first.value, origins.value);
    InsertBoth(map[], EmitAll(EmitCookie, cookies.value), EmitAll(EmitOrigin, origins.value));
  }

  // ---------------------------------------------------------------------------------------
  // rebuild_state
  // ---------------------------------------------------------------------------------------

  datatype DbId = DbId(origin: string, db: string)
  datatype StoreId = StoreId(origin: string, db: string, store: string)

  /** What the first loop of rebuild_state puts the entities into. */
  datatype Buckets = Buckets(
    cookies: seq<Json>,
    items: map<string, seq<Json>>,
    dbs: map<DbId, Object>,
    stores: map<StoreId, Object>,
    records: map<StoreId, seq<Json>>)

  function At<K, V>(m: map<K, seq<V>>, k: K): seq<V> {
    if k in m then m[k] else []
  }

  function Collect(b: Buckets, p: Part): Buckets {
    match p
    case CookiePart(cookie) => b.(cookies := b.cookies + [cookie])
    case LocalPart(o, item) => b.(items := b.items[o := At(b.items, o) + [item]])
    case DbPart(o, d, meta) => b.(dbs := b.dbs[DbId(o, d) := meta])
    case StorePart(o, d, s, meta) => b.(stores := b.stores[StoreId(o, d, s) := meta])
    case RecordPart(o, d, s, record) =>
      b.(records := b.records[StoreId(o, d, s) := At(b.records, StoreId(o, d, s)) + [record]])
    case NoPart => b
  }

  ghost predicate CookiesCollected(b: Buckets, parts: seq<Part>) {
    b.cookies == Select(CookieOf, parts)
  }

  ghost predicate ItemsCollected(b: Buckets, parts: seq<Part>) {
    forall o :: At(b.items, o) == Select(ItemOf(o), parts) && (o in b.items <==> Select(ItemOf(o), parts) != [])
  }

  ghost predicate DbsCollected(b: Buckets, parts: seq<Part>) {
    forall id: DbId :: (id in b.dbs <==> Select(DbMetaOf(id.origin, id.db), parts) != [])
                       && (id in b.dbs ==> b.dbs[id] == LastOf(Select(DbMetaOf(id.origin, id.db), parts)))
  }

  ghost predicate StoresCollected(b: Buckets, parts: seq<Part>) {
    forall id: StoreId :: (id in b.stores <==> Select(StoreMetaOf(id.origin, id.db, id.store), parts) != [])
                          && (id in b.stores
                              ==> b.stores[id] == LastOf(Select(StoreMetaOf(id.origin, id.db, id.store), parts)))
  }

  ghost predicate RecordsCollected(b: Buckets, parts: seq<Part>) {
    forall id: StoreId :: At(b.records, id) == Select(RecordOf(id.origin, id.db, id.store), parts)
  }

  ghost predicate Collected(b: Buckets, parts: seq<Part>) {
    && CookiesCollected(b, parts) && ItemsCollected(b, parts) && DbsCollected(b, parts)
    && StoresCollected(b, parts) && RecordsCollected(b, parts)
  }

  lemma SelectSnoc<T>(f: Part -> Option<T>, parts: seq<Part>, p: Part)
    ensures Select(f, parts + [p]) == if f(p).Some? then Select(f, parts) + [f(p).value] else Select(f, parts)
  {
    assert (parts + [p])[..|parts + [p]| - 1] == parts;
  }

  lemma CollectItems(b: Buckets, parts: seq<Part>, p: Part)
    requires ItemsCollected(b, parts)
    ensures ItemsCollected(Collect(b, p), parts + [p])
  {
    forall o
      ensures At(Collect(b, p).items, o) == Select(ItemOf(o), parts + [p])
      ensures o in Collect(b, p).items <==> Select(ItemOf(o), parts + [p]) != []
    {
      SelectSnoc(ItemOf(o), parts, p);
    }
  }

  lemma CollectDbs(b: Buckets, parts: seq<Part>, p: Part)
    requires DbsCollected(b, parts)
    ensures DbsCollected(Collect(b, p), parts + [p])
  {
    var c := Collect(b, p);
    forall id: DbId
      ensures id in c.dbs <==> Select(DbMetaOf(id.origin, id.db), parts + [p]) != []
      ensures id in c.dbs ==> c.dbs[id] == LastOf(Select(DbMetaOf(id.origin, id.db), parts + [p]))
    {
      SelectSnoc(DbMetaOf(id.origin, id.db), parts, p);
    }
  }

  lemma CollectStores(b: Buckets, parts: seq<Part>, p: Part)
    requires StoresCollected(b, parts)
    ensures StoresCollected(Collect(b, p), parts + [p])
  {
    var c := Collect(b, p);
    forall id: StoreId
      ensures id in c.stores <==> Select(StoreMetaOf(id.origin, id.db, id.store), parts + [p]) != []
      ensures id in c.stores ==> c.stores[id] == LastOf(Select(StoreMetaOf(id.origin, id.db, id.store), parts + [p]))
    {
      SelectSnoc(StoreMetaOf(id.origin, id.db, id.store), parts, p);
    }
  }

  lemma CollectRecords(b: Buckets, parts: seq<Part>, p: Part)
    requires RecordsCollected(b, parts)
    ensures RecordsCollected(Collect(b, p), parts + [p])
  {
    forall id: StoreId
      ensures At(Collect(b, p).records, id) == Select(RecordOf(id.origin, id.db, id.store), parts + [p])
    {
      SelectSnoc(RecordOf(id.origin, id.db, id.store), parts, p);
    }
  }

  lemma CollectStep(b: Buckets, parts: seq<Part>, p: Part)
    requires Collected(b, parts)
    ensures Collected(Collect(b, p), parts + [p])
  {
    SelectSnoc(CookieOf, parts, p);
    CollectItems(b, parts, p);
    CollectDbs(b, parts, p);
    CollectStores(b, parts, p);
    CollectRecords(b, parts, p);
  }

  lemma ParseAllStep(es: seq<Entity>, i: nat)
    requires i < |es| && ParseAll(es[..i]).Some?
    ensures Parse(es[i]).Some? ==> ParseAll(es[..i + 1]) == Some(ParseAll(es[..i]).value + [Parse(es[i]).value])
    ensures Parse(es[i]).None? ==> ParseAll(es).None?
  {
    assert es[..i + 1][..i] == es[..i];
    ParseAllIs(es);
  }

  method CollectEntities(es: seq<Entity>) returns (r: Option<Buckets>)
    ensures r.Some? <==> ParseAll(es).Some?
    ensures r.Some? ==> Collected(r.value, ParseAll(es).value)
  {
    var b := Buckets([], map[], map[], map[], map[]);
    for i := 0 to |es|
      invariant ParseAll(es[..i]).Some? && Collected(b, ParseAll(es[..i]).value)
    {
      ParseAllStep(es, i);
      var part := Parse(es[i]);
      if part.None? {
        return None;
      }
      CollectStep(b, ParseAll(es[..i]).value, part.value);
      b := Collect(b, part.value);
    }
    assert es[..|es|] == es;
    return Some(b);
  }

  // ---- the nested loops ----

  lemma SelectNonEmpty<T>(f: Part -> Option<T>, parts: seq<Part>)
    ensures Select(f, parts) != [] <==> exists p :: p in parts && f(p).Some?
  {
    if Select(f, parts) != [] {
      SelectIn(f, parts, Select(f, parts)[0]);
    }
    if p :| p in parts && f(p).Some? {
      SelectIn(f, parts, f(p).value);
    }
  }

  lemma StoreNamesCollected(b: Buckets, parts: seq<Part>, o: string, d: string)
    requires StoresCollected(b, parts)
    ensures (set id | id in b.stores && id.origin == o && id.db == d :: id.store) == StoreNames(parts, o, d)
  {
    forall s
      ensures s in StoreNames(parts, o, d) <==> StoreId(o, d, s) in b.stores
    {
      SelectNonEmpty(StoreMetaOf(o, d, s), parts);
    }
    forall s
      ensures s in (set id | id in b.stores && id.origin == o && id.db == d :: id.store)
              <==> StoreId(o, d, s) in b.stores
    {
      if StoreId(o, d, s) in b.stores {
        assert StoreId(o, d, s).store == s;
      }
    }
  }

  lemma DbNamesCollected(b: Buckets, parts: seq<Part>, o: string)
    requires DbsCollected(b, parts)
    ensures (set id | id in b.dbs && id.origin == o :: id.db) == DbNames(parts, o)
  {
    forall d
      ensures d in DbNames(parts, o) <==> DbId(o, d) in b.dbs
    {
      SelectNonEmpty(DbMetaOf(o, d), parts);
    }
    forall d
      ensures d in (set id | id in b.dbs && id.origin == o :: id.db) <==> DbId(o, d) in b.dbs
    {
      if DbId(o, d) in b.dbs {
        assert DbId(o, d).db == d;
      }
    }
  }

  lemma OriginNamesCollected(b: Buckets, parts: seq<Part>)
    requires DbsCollected(b, parts) && ItemsCollected(b, parts)
    ensures b.items.Keys + (set id | id in b.dbs :: id.origin) == OriginNames(parts)
  {
    forall o | o in OriginNames(parts)
      ensures o in b.items.Keys + (set id | id in b.dbs :: id.origin)
    {
      var p :| p in parts && (p.LocalPart? || p.DbPart?) && p.origin == o;
      if p.LocalPart? {
        assert ItemOf(o)(p).Some?;
        SelectNonEmpty(ItemOf(o), parts);
      } else {
        assert DbMetaOf(o, p.db)(p).Some?;
        SelectNonEmpty(DbMetaOf(o, p.db), parts);
        assert DbId(o, p.db) in b.dbs && DbId(o, p.db).origin == o;
      }
    }
    forall o | o in b.items
      ensures o in OriginNames(parts)
    {
      SelectNonEmpty(ItemOf(o), parts);
    }
    forall id | id in b.dbs
      ensures id.origin in OriginNames(parts)
    {
      SelectNonEmpty(DbMetaOf(id.origin, id.db), parts);
    }
  }

  lemma MapSeqSnoc<A, B>(f: A -> B, xs: seq<A>, i: nat)
    requires i < |xs|
    ensures MapSeq(f, xs[..i + 1]) == MapSeq(f, xs[..i]) + [f(xs[i])]
  {
  }

  method RebuildStores(ord: Order, b: Buckets, o: string, d: string, ghost parts: seq<Part>) returns (stores: seq<Json>)
    requires Enumerates(ord) && StoresCollected(b, parts) && RecordsCollected(b, parts)
    ensures stores == MapSeq(StoreBuilder(parts, o, d), ord.names(StoreNames(parts, o, d)))
  {
    var names := ord.names(set id | id in b.stores && id.origin == o && id.db == d :: id.store);
    StoreNamesCollected(b, parts, o, d);
    stores := [];
    for i := 0 to |names|
      invariant stores == MapSeq(StoreBuilder(parts, o, d), names[..i])
    {
      assert names[i] in StoreNames(parts, o, d);
      var id := StoreId(o, d, names[i]);
      StoreIsCollected(b, parts, id);
      MapSeqSnoc(StoreBuilder(parts, o, d), names, i);
      stores := stores + [JObject(b.stores[id]["records" := JArray(At(b.records, id))])];
    }
    assert names[..|names|] == names;
  }

  lemma StoreIsCollected(b: Buckets, parts: seq<Part>, id: StoreId)
    requires StoresCollected(b, parts) && RecordsCollected(b, parts) && id.store in StoreNames(parts, id.origin, id.db)
    ensures id in b.stores
    ensures JObject(b.stores[id]["records" := JArray(At(b.records, id))])
            == BuildStore(parts, id.origin, id.db, id.store)
  {
    SelectNonEmpty(StoreMetaOf(id.origin, id.db, id.store), parts);
  }

  lemma DbIsCollected(b: Buckets, parts: seq<Part>, id: DbId)
    requires DbsCollected(b, parts) && id.db in DbNames(parts, id.origin)
    ensures id in b.dbs && b.dbs[id] == LastOf(Select(DbMetaOf(id.origin, id.db), parts))
  {
    SelectNonEmpty(DbMetaOf(id.origin, id.db), parts);
  }

  method RebuildDbs(ord: Order, b: Buckets, o: string, ghost parts: seq<Part>) returns (databases: seq<Json>)
    requires Enumerates(ord) && Collected(b, parts)
    ensures databases == MapSeq(DbBuilder(ord, parts, o), ord.names(DbNames(parts, o)))
  {
    var names := ord.names(set id | id in b.dbs && id.origin == o :: id.db);
    DbNamesCollected(b, parts, o);
    databases := [];
    for i := 0 to |names|
      invariant databases == MapSeq(DbBuilder(ord, parts, o), names[..i])
    {
      assert names[i] in DbNames(parts, o);
      DbIsCollected(b, parts, DbId(o, names[i]));
      var stores := RebuildStores(ord, b, o, names[i], parts);
      MapSeqSnoc(DbBuilder(ord, parts, o), names, i);
      databases := databases + [JObject(b.dbs[DbId(o, names[i])]["stores" := JArray(stores)])];
    }
    assert names[..|names|] == names;
  }

  method RebuildOrigins(ord: Order, b: Buckets, ghost parts: seq<Part>) returns (origins: seq<Json>)
    requires Enumerates(ord) && Collected(b, parts)
    ensures origins == MapSeq(OriginBuilder(ord, parts), ord.names(OriginNames(parts)))
  {
    var names := ord.names(b.items.Keys + (set id | id in b.dbs :: id.origin));
    OriginNamesCollected(b, parts);
    origins := [];
    for i := 0 to |names|
      invariant origins == MapSeq(OriginBuilder(ord, parts), names[..i])
    {
      var databases := RebuildDbs(ord, b, names[i], parts);
      MapSeqSnoc(OriginBuilder(ord, parts), names, i);
      origins := origins + [JObject(map["origin" := JString(names[i]),
                                        "localStorage" := JArray(At(b.items, names[i])),
                                        "indexedDB" := JArray(databases)])];
    }
    assert names[..|names|] == names;
  }

  method RebuildState(ord: Order, entities: map<Key, Json>) returns (r: Option<Json>)
    requires Enumerates(ord)
    ensures r == Rebuild(ord, entities)
  {
    var collected := CollectEntities(ord.entries(entities));
    if collected.None? {
      return None;
    }
    ghost var parts := ParseAll(ord.entries(entities)).value;
    var origins := RebuildOrigins(ord, collected.value, parts);
    return Some(JObject(map["cookies" := JArray(collected.value.cookies), "origins" := JArray(origins)]));
  }
}
