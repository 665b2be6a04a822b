/** Well-formed entities: what flattening produces and what rebuilding reads off them. */
module IdentityEntities {
  import opened Common
  import opened IdentityState

  // ---------------------------------------------------------------------------------------
  // Lists of entities
  // ---------------------------------------------------------------------------------------

  lemma {:induction false} EmitAllSome<A>(f: A -> Option<seq<Entity>>, xs: seq<A>)
    ensures EmitAll(f, xs).Some? <==> forall x :: x in xs ==> f(x).Some?
  {
    if xs != [] {
      var n := |xs| - 1;
      EmitAllSome(f, xs[..n]);
      assert xs == xs[..n] + [xs[n]];
    }
  }

  lemma {:induction false} EmitAllIn<A>(f: A -> Option<seq<Entity>>, xs: seq<A>, e: Entity)
    requires EmitAll(f, xs).Some?
    ensures e in EmitAll(f, xs).value <==> exists x :: x in xs && f(x).Some? && e in f(x).value
  {
    if xs != [] {
      var n := |xs| - 1;
      EmitAllIn(f, xs[..n], e);
      assert xs == xs[..n] + [xs[n]];
    }
  }

  lemma {:induction false} InsertAllLookup(es: seq<Entity>)
    ensures forall k :: k in InsertAll(map[], es) ==> Entity(k, InsertAll(map[], es)[k]) in es
    ensures forall e :: e in es ==> e.key in InsertAll(map[], es)
  {
    if es != [] {
      var n := |es| - 1;
      InsertAllLookup(es[..n]);
      assert es == es[..n] + [es[n]];
    }
  }

  lemma {:induction false} SelectIn<T>(f: Part -> Option<T>, parts: seq<Part>, t: T)
    ensures t in Select(f, parts) <==> exists p :: p in parts && f(p) == Some(t)
  {
    if parts != [] {
      var n := |parts| - 1;
      SelectIn(f, parts[..n], t);
      assert parts == parts[..n] + [parts[n]];
    }
  }

  lemma {:induction false} ParseAllIs(es: seq<Entity>)
    ensures ParseAll(es).Some? <==> forall e :: e in es ==> Parse(e).Some?
    ensures ParseAll(es).Some? ==> forall p :: p in ParseAll(es).value <==> exists e :: e in es && Parse(e) == Some(p)
  {
    if es != [] {
      var n := |es| - 1;
      ParseAllIs(es[..n]);
      assert es == es[..n] + [es[n]];
    }
  }

  // ---------------------------------------------------------------------------------------
  // Entities as flattening produces them
  // ---------------------------------------------------------------------------------------

  ghost predicate NamedMeta(meta: Object, name: string, inside: string) {
    RequiredString(meta, "name") == Some(name) && inside !in meta
  }

  /** The value belongs under the key: it names the same things, and has been through a flattening. */
  ghost predicate WellFormed(e: Entity) {
    match e.key
    case Cookie(_) => e.value.JObject? && CookieKey(e.value.fields) == Some(e.key)
    case Local(origin, _) =>
      origin != "" && exists item :: EmitLocal(origin, item) == Some([e])
    case IdbDb(origin, db) =>
      origin != "" && exists meta :: e.value == DbValue(origin, meta) && NamedMeta(meta, db, "stores")
    case IdbStore(origin, db, store) =>
      origin != "" && exists meta :: e.value == StoreValue(origin, db, meta) && NamedMeta(meta, store, "records")
    case IdbRecord(origin, db, store, _) =>
      origin != "" && exists record :: e.value == RecordValue(origin, db, store, record)
    case _ => false
  }

  ghost predicate WellFormedMap(m: map<Key, Json>) {
    forall k :: k in m ==> WellFormed(Entity(k, m[k]))
  }

  lemma StoreWellFormed(origin: string, db: string, store: Json, e: Entity)
    requires origin != "" && EmitStore(origin, db, store).Some? && e in EmitStore(origin, db, store).value
    ensures WellFormed(e) && (e.key.IdbStore? || e.key.IdbRecord?)
  {
    var name := RequiredString(store.fields, "name").value;
    var f := RecordEmitter(origin, db, name, store.fields);
    var records := ArrayAt(store.fields, "records").value;
    EmitAllIn(f, records, e);
    if e in EmitAll(f, records).value {
      var r :| r in records && f(r).Some? && e in f(r).value;
      assert e.value == RecordValue(origin, db, name, r);
    } else {
      var meta := store.fields - {"records"};
      assert e.value == StoreValue(origin, db, meta) && NamedMeta(meta, name, "records");
    }
  }

  lemma DbWellFormed(origin: string, v: Json, e: Entity)
    requires origin != "" && EmitDb(origin, v).Some? && e in EmitDb(origin, v).value
    ensures WellFormed(e) && (e.key.IdbDb? || e.key.IdbStore? || e.key.IdbRecord?)
  {
    var name := RequiredString(v.fields, "name").value;
    var f := StoreEmitter(origin, name);
    var stores := ArrayAt(v.fields, "stores").value;
    EmitAllIn(f, stores, e);
    if e in EmitAll(f, stores).value {
      var s :| s in stores && f(s).Some? && e in f(s).value;
      StoreWellFormed(origin, name, s, e);
    } else {
      var meta := v.fields - {"stores"};
      assert e.value == DbValue(origin, meta) && NamedMeta(meta, name, "stores");
    }
  }

  lemma OriginWellFormed(v: Json, e: Entity)
    requires EmitOrigin(v).Some? && e in EmitOrigin(v).value
    ensures WellFormed(e)
  {
    var origin := RequiredString(v.fields, "origin").value;
    var (f, g) := (LocalEmitter(origin), DbEmitter(origin));
    var (items, databases) := (ArrayAt(v.fields, "localStorage").value, Databases(v.fields).value);
    EmitAllIn(f, items, e);
    EmitAllIn(g, databases, e);
    if e in EmitAll(f, items).value {
      var item :| item in items && f(item).Some? && e in f(item).value;
      assert EmitLocal(origin, item) == Some([e]);
    } else {
      var d :| d in databases && g(d).Some? && e in g(d).value;
      DbWellFormed(origin, d, e);
    }
  }

  lemma StateWellFormed(state: Json, e: Entity)
    requires EmitState(state).Some? && e in EmitState(state).value
    ensures WellFormed(e)
  {
    var (cookies, origins) := (ArrayAt(state.fields, "cookies").value, ArrayAt(state.fields, "origins").value);
    EmitAllIn(EmitCookie, cookies, e);
    EmitAllIn(EmitOrigin, origins, e);
    if e in EmitAll(EmitCookie, cookies).value {
      var c :| c in cookies && EmitCookie(c).Some? && e in EmitCookie(c).value;
    } else {
      var o :| o in origins && EmitOrigin(o).Some? && e in EmitOrigin(o).value;
      OriginWellFormed(o, e);
    }
  }

  lemma FlattenWellFormed(state: Json)
    requires Flatten(state).Some?
    ensures WellFormedMap(Flatten(state).value)
  {
    var es := EmitState(state).value;
    InsertAllLookup(es);
    forall k | k in Flatten(state).value
      ensures WellFormed(Entity(k, Flatten(state).value[k]))
    {
      StateWellFormed(state, Entity(k, Flatten(state).value[k]));
    }
  }

  // ---------------------------------------------------------------------------------------
  // What rebuilding reads off well-formed entities
  // ---------------------------------------------------------------------------------------

  ghost predicate PartsMatch(m: map<Key, Json>, parts: seq<Part>) {
    forall p :: p in parts <==> exists k :: k in m && Parse(Entity(k, m[k])) == Some(p)
  }

  lemma ParseWellFormed(e: Entity)
    requires WellFormed(e)
    ensures Parse(e).Some?
    ensures match e.key
            case Cookie(_) => Parse(e).value == CookiePart(e.value)
            case Local(o, _) => Parse(e).value.LocalPart? && e.value == LocalValue(o, Parse(e).value.item)
                                && Parse(e).value.origin == o
            case IdbDb(o, d) => Parse(e).value.DbPart? && e.value == DbValue(o, Parse(e).value.meta)
                                && Parse(e).value == DbPart(o, d, Parse(e).value.meta)
            case IdbStore(o, d, s) => Parse(e).value.StorePart? && e.value == StoreValue(o, d, Parse(e).value.meta)
                                      && Parse(e).value == StorePart(o, d, s, Parse(e).value.meta)
            case IdbRecord(o, d, s, _) =>
              Parse(e).value.RecordPart? && e.value == RecordValue(o, d, s, Parse(e).value.record)
                                          && Parse(e).value == RecordPart(o, d, s, Parse(e).value.record)
            case _ => false
  {
  }

  lemma PartsOf(ord: Order, m: map<Key, Json>) returns (parts: seq<Part>)
    requires Enumerates(ord) && WellFormedMap(m)
    ensures PartsMatch(m, parts) && ParseAll(ord.entries(m)) == Some(parts)
    ensures Rebuild(ord, m) == Some(BuildState(ord, parts))
  {
    var es := ord.entries(m);
    ParseAllIs(es);
    forall e | e in es
      ensures Parse(e).Some?
    {
      assert Get(m, e.key) == Some(e.value);
      ParseWellFormed(e);
    }
    parts := ParseAll(es).value;
    forall p
      ensures p in parts <==> exists k :: k in m && Parse(Entity(k, m[k])) == Some(p)
    {
      if p in parts {
        var e :| e in es && Parse(e) == Some(p);
        assert Get(m, e.key) == Some(e.value);
        assert e.key in m && Parse(Entity(e.key, m[e.key])) == Some(p);
      }
      if k :| k in m && Parse(Entity(k, m[k])) == Some(p) {
        assert Get(m, k) == Some(m[k]);
        assert Entity(k, m[k]) in es;
      }
    }
  }

  /** The metadata a well-formed map holds for a database or a store; empty when it holds none. */
  function MetaOf(m: map<Key, Json>, k: Key): Object {
    if k !in m then map[]
    else
      match Parse(Entity(k, m[k]))
      case Some(DbPart(_, _, meta)) => meta
      case Some(StorePart(_, _, _, meta)) => meta
      case _ => map[]
  }

  /** The key under which an entity is filed again after a rebuild: a record's may depend on its store. */
  function ReKey(m: map<Key, Json>, k: Key): Option<Key> {
    match k
    case IdbRecord(o, d, s, _) =>
      if k !in m then None
      else
        var record :- WrappedValue(m[k], "record");
        var identity :- RecordIdentity(MetaOf(m, IdbStore(o, d, s)), record);
        Some(IdbRecord(o, d, s, identity))
    case _ => Some(k)
  }

  /** The entity that the entity of key k becomes. */
  predicate Becomes(m: map<Key, Json>, k: Key, e: Entity) {
    k in m && ReKey(m, k) == Some(e.key) && m[k] == e.value
  }

  lemma {:induction false} LastOfUniform(f: Part -> Option<Object>, parts: seq<Part>, x: Object)
    requires forall p :: p in parts && f(p).Some? ==> f(p).value == x
    requires exists p :: p in parts && f(p).Some?
    ensures LastOf(Select(f, parts)) == x
  {
    var n := |parts| - 1;
    assert parts == parts[..n] + [parts[n]];
    if f(parts[n]).None? {
      LastOfUniform(f, parts[..n], x);
    }
  }

  lemma StoreMetaIs(m: map<Key, Json>, parts: seq<Part>, o: string, d: string, s: string)
    requires WellFormedMap(m) && PartsMatch(m, parts) && IdbStore(o, d, s) in m
    ensures var meta := MetaOf(m, IdbStore(o, d, s));
            && LastOf(Select(StoreMetaOf(o, d, s), parts)) == meta
            && m[IdbStore(o, d, s)] == StoreValue(o, d, meta) && NamedMeta(meta, s, "records")
  {
    var key := IdbStore(o, d, s);
    ParseWellFormed(Entity(key, m[key]));
    var f := StoreMetaOf(o, d, s);
    forall p | p in parts && f(p).Some?
      ensures f(p).value == MetaOf(m, key)
    {
      var k :| k in m && Parse(Entity(k, m[k])) == Some(p);
      ParseWellFormed(Entity(k, m[k]));
    }
    var p := Parse(Entity(key, m[key])).value;
    assert p in parts && f(p).Some?;
    LastOfUniform(f, parts, MetaOf(m, key));
  }

  lemma DbMetaIs(m: map<Key, Json>, parts: seq<Part>, o: string, d: string)
    requires WellFormedMap(m) && PartsMatch(m, parts) && IdbDb(o, d) in m
    ensures var meta := MetaOf(m, IdbDb(o, d));
            && LastOf(Select(DbMetaOf(o, d), parts)) == meta
            && m[IdbDb(o, d)] == DbValue(o, meta) && NamedMeta(meta, d, "stores")
  {
    var key := IdbDb(o, d);
    ParseWellFormed(Entity(key, m[key]));
    var f := DbMetaOf(o, d);
    forall p | p in parts && f(p).Some?
      ensures f(p).value == MetaOf(m, key)
    {
      var k :| k in m && Parse(Entity(k, m[k])) == Some(p);
      ParseWellFormed(Entity(k, m[k]));
    }
    var p := Parse(Entity(key, m[key])).value;
    assert p in parts && f(p).Some?;
    LastOfUniform(f, parts, MetaOf(m, key));
  }

  lemma PartOfKey(m: map<Key, Json>, parts: seq<Part>, p: Part) returns (k: Key)
    requires WellFormedMap(m) && PartsMatch(m, parts) && p in parts
    ensures k in m && Parse(Entity(k, m[k])) == Some(p) && WellFormed(Entity(k, m[k]))
  {
    k :| k in m && Parse(Entity(k, m[k])) == Some(p);
  }

  lemma KeyHasPart(m: map<Key, Json>, parts: seq<Part>, k: Key) returns (p: Part)
    requires WellFormedMap(m) && PartsMatch(m, parts) && k in m
    ensures p in parts && Parse(Entity(k, m[k])) == Some(p)
  {
    ParseWellFormed(Entity(k, m[k]));
    p := Parse(Entity(k, m[k])).value;
  }

  lemma RecordPartHeld(m: map<Key, Json>, parts: seq<Part>, o: string, d: string, s: string, r: Json) returns (id: Json)
    requires WellFormedMap(m) && PartsMatch(m, parts) && RecordPart(o, d, s, r) in parts
    ensures IdbRecord(o, d, s, id) in m && m[IdbRecord(o, d, s, id)] == RecordValue(o, d, s, r)
  {
    var k := PartOfKey(m, parts, RecordPart(o, d, s, r));
    ParseWellFormed(Entity(k, m[k]));
    id := k.identity;
  }

  lemma ParseRecord(o: string, d: string, s: string, id: Json, r: Json)
    ensures Parse(Entity(IdbRecord(o, d, s, id), RecordValue(o, d, s, r))) == Some(RecordPart(o, d, s, r))
  {
  }

  lemma HeldRecordPart(m: map<Key, Json>, parts: seq<Part>, o: string, d: string, s: string, id: Json, r: Json)
    requires PartsMatch(m, parts)
    requires IdbRecord(o, d, s, id) in m && m[IdbRecord(o, d, s, id)] == RecordValue(o, d, s, r)
    ensures RecordPart(o, d, s, r) in parts
  {
    ParseRecord(o, d, s, id, r);
  }

  /** The selected records of a store are those that the map holds under it. */
  lemma RecordsIs(m: map<Key, Json>, parts: seq<Part>, o: string, d: string, s: string, r: Json)
    requires WellFormedMap(m) && PartsMatch(m, parts)
    ensures r in Select(RecordOf(o, d, s), parts) <==>
            exists id :: IdbRecord(o, d, s, id) in m && m[IdbRecord(o, d, s, id)] == RecordValue(o, d, s, r)
  {
    SelectIn(RecordOf(o, d, s), parts, r);
    assert forall p :: RecordOf(o, d, s)(p) == Some(r) <==> p == RecordPart(o, d, s, r);
    if RecordPart(o, d, s, r) in parts {
      var id := RecordPartHeld(m, parts, o, d, s, r);
    }
    if id :| IdbRecord(o, d, s, id) in m && m[IdbRecord(o, d, s, id)] == RecordValue(o, d, s, r) {
      HeldRecordPart(m, parts, o, d, s, id, r);
    }
  }

  lemma IdentityIgnoresRecords(meta: Object, records: Json, r: Json)
    ensures RecordIdentity(meta["records" := records], r) == RecordIdentity(meta, r)
  {
  }
}
