/** Rebuilding a state from entities and flattening it again. */
module IdentityRoundTrip {
  import opened Common
  import opened IdentityState
  import opened IdentityEntities

  // ---------------------------------------------------------------------------------------
  // Flattening what was rebuilt, level by level
  // ---------------------------------------------------------------------------------------

  /** An entity survives a rebuild when its parents are in the map too. */
  predicate Retained(m: map<Key, Json>, k: Key) {
    match k
    case Cookie(_) => true
    case Local(_, _) => true
    case IdbDb(_, _) => true
    case IdbStore(o, d, _) => IdbDb(o, d) in m
    case IdbRecord(o, d, s, _) => IdbDb(o, d) in m && IdbStore(o, d, s) in m
    case _ => false
  }

  /** The keys that one level of a rebuilt state answers for. */
  datatype Scope =
    | Single(key: Key)
    | OneRecord(origin: string, db: string, store: string, record: Json)
    | Records(origin: string, db: string, store: string)
    | OneStore(origin: string, db: string, store: string)
    | Stores(origin: string, db: string)
    | OneDb(origin: string, db: string)
    | Dbs(origin: string)
    | OneItem(origin: string, item: Json)
    | Items(origin: string)
    | OneOrigin(origin: string)
    | Origins
    | OneCookie(cookie: Json)
    | Cookies
    | Whole

  predicate IsRecordOf(o: string, d: string, s: string, k: Key) {
    k.IdbRecord? && k.origin == o && k.db == d && k.store == s
  }

  predicate IsInsideDb(m: map<Key, Json>, o: string, d: string, k: Key) {
    match k
    case IdbStore(o', d', _) => o' == o && d' == d
    case IdbRecord(o', d', s, _) => o' == o && d' == d && IdbStore(o, d, s) in m
    case _ => false
  }

  predicate IsDatabaseOf(m: map<Key, Json>, o: string, k: Key) {
    (k.IdbDb? || k.IdbStore? || k.IdbRecord?) && k.origin == o && Retained(m, k)
  }

  predicate IsLocalOf(o: string, k: Key) {
    k.Local? && k.origin == o
  }

  predicate Holds(m: map<Key, Json>, scope: Scope, k: Key) {
    && k in m
    && match scope
       case Single(key) => k == key
       case OneRecord(o, d, s, r) => IsRecordOf(o, d, s, k) && m[k] == RecordValue(o, d, s, r)
       case Records(o, d, s) => IsRecordOf(o, d, s, k)
       case OneStore(o, d, s) => k == IdbStore(o, d, s) || IsRecordOf(o, d, s, k)
       case Stores(o, d) => IsInsideDb(m, o, d, k)
       case OneDb(o, d) => k == IdbDb(o, d) || IsInsideDb(m, o, d, k)
       case Dbs(o) => IsDatabaseOf(m, o, k)
       case OneItem(o, item) => IsLocalOf(o, k) && m[k] == LocalValue(o, item)
       case Items(o) => IsLocalOf(o, k)
       case OneOrigin(o) => IsLocalOf(o, k) || IsDatabaseOf(m, o, k)
       case Origins => Retained(m, k) && !k.Cookie?
       case OneCookie(c) => k.Cookie? && m[k] == c
       case Cookies => k.Cookie?
       case Whole => Retained(m, k)
  }

  /** A level fails when one of its entities has no identity any more; else it emits what they become. */
  ghost predicate EmitsExactly(emitted: Option<seq<Entity>>, m: map<Key, Json>, scope: Scope) {
    && (emitted.Some? <==> forall k :: Holds(m, scope, k) ==> ReKey(m, k).Some?)
    && (emitted.Some? ==> forall e :: e in emitted.value <==> exists k :: Holds(m, scope, k) && Becomes(m, k, e))
  }

  /** Keys that become one and the same entity. */
  lemma EmitsShared(m: map<Key, Json>, scope: Scope, held: Key, key: Option<Key>, v: Json)
    requires Holds(m, scope, held)
    requires forall k :: Holds(m, scope, k) ==> ReKey(m, k) == key && m[k] == v
    ensures EmitsExactly(if key.Some? then Some([Entity(key.value, v)]) else None, m, scope)
  {
    if key.Some? {
      assert Becomes(m, held, Entity(key.value, v));
    }
  }

  /** One scope is made of two others. */
  ghost predicate Joins(m: map<Key, Json>, left: Scope, right: Scope, both: Scope) {
    forall k :: Holds(m, both, k) <==> Holds(m, left, k) || Holds(m, right, k)
  }

  lemma EmitsBoth(a: Option<seq<Entity>>, b: Option<seq<Entity>>, m: map<Key, Json>, left: Scope, right: Scope,
                  both: Scope)
    requires EmitsExactly(a, m, left) && EmitsExactly(b, m, right)
    requires Joins(m, left, right, both)
    ensures EmitsExactly(if a.Some? && b.Some? then Some(a.value + b.value) else None, m, both)
  {
    if a.Some? && b.Some? {
      forall e
        ensures e in a.value + b.value <==> exists k :: Holds(m, both, k) && Becomes(m, k, e)
      {
        if e in a.value {
          var k :| Holds(m, left, k) && Becomes(m, k, e);
          assert Holds(m, both, k);
        } else if e in b.value {
          var k :| Holds(m, right, k) && Becomes(m, k, e);
          assert Holds(m, both, k);
        }
      }
    }
  }

  ghost predicate EmitsAllExactly<A(!new)>(f: A -> Option<seq<Entity>>, xs: seq<A>, m: map<Key, Json>,
                                    scopeOf: A -> Scope) {
    forall x :: x in xs ==> EmitsExactly(f(x), m, scopeOf(x))
  }

  ghost predicate Cover<A(!new)>(xs: seq<A>, m: map<Key, Json>, scopeOf: A -> Scope, all: Scope) {
    forall k :: Holds(m, all, k) <==> exists x :: x in xs && Holds(m, scopeOf(x), k)
  }

  lemma EmitsEach<A(!new)>(f: A -> Option<seq<Entity>>, xs: seq<A>, m: map<Key, Json>, scopeOf: A -> Scope, all: Scope)
    requires EmitsAllExactly(f, xs, m, scopeOf) && Cover(xs, m, scopeOf, all)
    ensures EmitsExactly(EmitAll(f, xs), m, all)
  {
    EmitAllSome(f, xs);
    if EmitAll(f, xs).Some? {
      forall e
        ensures e in EmitAll(f, xs).value <==> exists k :: Holds(m, all, k) && Becomes(m, k, e)
      {
        EmitAllIn(f, xs, e);
        if e in EmitAll(f, xs).value {
          var x :| x in xs && f(x).Some? && e in f(x).value;
          assert EmitsExactly(f(x), m, scopeOf(x));
          var k :| Holds(m, scopeOf(x), k) && Becomes(m, k, e);
          assert Holds(m, all, k);
        }
        if k :| Holds(m, all, k) && Becomes(m, k, e) {
          var x :| x in xs && Holds(m, scopeOf(x), k);
          assert EmitsExactly(f(x), m, scopeOf(x));
        }
      }
      forall k | Holds(m, all, k)
        ensures ReKey(m, k).Some?
      {
        var x :| x in xs && Holds(m, scopeOf(x), k);
        assert EmitsExactly(f(x), m, scopeOf(x));
      }
    } else {
      var x :| x in xs && f(x).None?;
      assert EmitsExactly(f(x), m, scopeOf(x));
      var k :| Holds(m, scopeOf(x), k) && ReKey(m, k).None?;
      assert Holds(m, all, k);
    }
  }

  // ---- records ----

  function RecordScope(o: string, d: string, s: string): Json -> Scope {
    (r: Json) => OneRecord(o, d, s, r)
  }

  function RecordKey(o: string, d: string, s: string, meta: Object, r: Json): Option<Key> {
    var identity :- RecordIdentity(meta, r);
    Some(IdbRecord(o, d, s, identity))
  }

  lemma HeldRecordReKeys(m: map<Key, Json>, o: string, d: string, s: string, r: Json, k: Key)
    requires Holds(m, OneRecord(o, d, s, r), k)
    ensures ReKey(m, k) == RecordKey(o, d, s, MetaOf(m, IdbStore(o, d, s)), r)
  {
    assert WrappedValue(m[k], "record") == Some(r);
  }

  lemma RecordEmits(m: map<Key, Json>, parts: seq<Part>, o: string, d: string, s: string, r: Json, records: Json)
    requires WellFormedMap(m) && PartsMatch(m, parts) && r in Select(RecordOf(o, d, s), parts)
    ensures EmitsExactly(EmitRecord(o, d, s, MetaOf(m, IdbStore(o, d, s))["records" := records], r), m,
                         OneRecord(o, d, s, r))
  {
    var (meta, scope) := (MetaOf(m, IdbStore(o, d, s)), OneRecord(o, d, s, r));
    RecordsIs(m, parts, o, d, s, r);
    var id :| IdbRecord(o, d, s, id) in m && m[IdbRecord(o, d, s, id)] == RecordValue(o, d, s, r);
    IdentityIgnoresRecords(meta, records, r);
    var key := RecordKey(o, d, s, meta, r);
    forall k | Holds(m, scope, k)
      ensures ReKey(m, k) == key && m[k] == RecordValue(o, d, s, r)
    {
      HeldRecordReKeys(m, o, d, s, r, k);
    }
    EmitsShared(m, scope, IdbRecord(o, d, s, id), key, RecordValue(o, d, s, r));
  }

  lemma RecordsCover(m: map<Key, Json>, parts: seq<Part>, o: string, d: string, s: string)
    requires WellFormedMap(m) && PartsMatch(m, parts)
    ensures Cover(Select(RecordOf(o, d, s), parts), m, RecordScope(o, d, s), Records(o, d, s))
  {
    forall k | Holds(m, Records(o, d, s), k)
      ensures exists r :: r in Select(RecordOf(o, d, s), parts) && Holds(m, RecordScope(o, d, s)(r), k)
    {
      assert WellFormed(Entity(k, m[k])) && k == IdbRecord(o, d, s, k.identity);
      var r :| m[k] == RecordValue(o, d, s, r);
      RecordsIs(m, parts, o, d, s, r);
      assert Holds(m, RecordScope(o, d, s)(r), k);
    }
  }

  lemma RecordsEmit(m: map<Key, Json>, parts: seq<Part>, o: string, d: string, s: string, store: Object)
    requires WellFormedMap(m) && PartsMatch(m, parts)
    requires store == MetaOf(m, IdbStore(o, d, s))["records" := JArray(Select(RecordOf(o, d, s), parts))]
    ensures EmitsExactly(EmitAll(RecordEmitter(o, d, s, store), Select(RecordOf(o, d, s), parts)), m, Records(o, d, s))
  {
    var records := Select(RecordOf(o, d, s), parts);
    forall r | r in records
      ensures EmitsExactly(RecordEmitter(o, d, s, store)(r), m, RecordScope(o, d, s)(r))
    {
      RecordEmits(m, parts, o, d, s, r, JArray(records));
    }
    RecordsCover(m, parts, o, d, s);
    EmitsEach(RecordEmitter(o, d, s, store), records, m, RecordScope(o, d, s), Records(o, d, s));
  }

  // ---- stores ----

  function StoreScope(o: string, d: string): string -> Scope {
    (s: string) => OneStore(o, d, s)
  }

  /** An entity with something inside, as databases and stores are emitted. */
  function Around(e: Entity, inside: Option<seq<Entity>>): Option<seq<Entity>> {
    if inside.Some? then Some([e] + inside.value) else None
  }

  lemma EmitsAround(m: map<Key, Json>, k: Key, inside: Option<seq<Entity>>, within: Scope, all: Scope)
    requires k in m && ReKey(m, k) == Some(k) && EmitsExactly(inside, m, within)
    requires Joins(m, Single(k), within, all)
    ensures EmitsExactly(Around(Entity(k, m[k]), inside), m, all)
  {
    EmitsShared(m, Single(k), k, Some(k), m[k]);
    EmitsBoth(Some([Entity(k, m[k])]), inside, m, Single(k), within, all);
  }

  lemma StoreJoins(m: map<Key, Json>, o: string, d: string, s: string)
    requires IdbStore(o, d, s) in m
    ensures Joins(m, Single(IdbStore(o, d, s)), Records(o, d, s), OneStore(o, d, s))
  {
  }

  lemma BuiltStore(m: map<Key, Json>, parts: seq<Part>, o: string, d: string, s: string)
    requires WellFormedMap(m) && PartsMatch(m, parts) && IdbStore(o, d, s) in m
    ensures var key, records := IdbStore(o, d, s), Select(RecordOf(o, d, s), parts);
            var store := MetaOf(m, key)["records" := JArray(records)];
            EmitStore(o, d, BuildStore(parts, o, d, s))
            == Around(Entity(key, m[key]), EmitAll(RecordEmitter(o, d, s, store), records))
  {
    var meta := MetaOf(m, IdbStore(o, d, s));
    StoreMetaIs(m, parts, o, d, s);
    var store := meta["records" := JArray(Select(RecordOf(o, d, s), parts))];
    assert BuildStore(parts, o, d, s) == JObject(store) && store - {"records"} == meta;
  }

  lemma StoreEmits(m: map<Key, Json>, parts: seq<Part>, o: string, d: string, s: string)
    requires WellFormedMap(m) && PartsMatch(m, parts) && IdbStore(o, d, s) in m
    ensures EmitsExactly(EmitStore(o, d, BuildStore(parts, o, d, s)), m, OneStore(o, d, s))
  {
    var key, records := IdbStore(o, d, s), Select(RecordOf(o, d, s), parts);
    var store := MetaOf(m, key)["records" := JArray(records)];
    BuiltStore(m, parts, o, d, s);
    RecordsEmit(m, parts, o, d, s, store);
    StoreJoins(m, o, d, s);
    EmitsAround(m, key, EmitAll(RecordEmitter(o, d, s, store), records), Records(o, d, s), OneStore(o, d, s));
  }

  // ---- databases ----

  function Compose<A, B, C>(f: B -> C, g: A -> B): A -> C {
    (a: A) => f(g(a))
  }

  lemma {:induction false} EmitAllMapped<A, B>(f: B -> Option<seq<Entity>>, g: A -> B, xs: seq<A>)
    ensures EmitAll(f, MapSeq(g, xs)) == EmitAll(Compose(f, g), xs)
  {
    if xs != [] {
      var n := |xs| - 1;
      EmitAllMapped(f, g, xs[..n]);
      assert MapSeq(g, xs)[..n] == MapSeq(g, xs[..n]);
    }
  }

  lemma StoreNameIn(m: map<Key, Json>, parts: seq<Part>, o: string, d: string, s: string)
    requires WellFormedMap(m) && PartsMatch(m, parts)
    ensures s in StoreNames(parts, o, d) <==> IdbStore(o, d, s) in m
  {
    if s in StoreNames(parts, o, d) {
      var p :| p in parts && p.StorePart? && p.origin == o && p.db == d && p.store == s;
      var k := PartOfKey(m, parts, p);
      ParseWellFormed(Entity(k, m[k]));
    }
    if IdbStore(o, d, s) in m {
      var p := KeyHasPart(m, parts, IdbStore(o, d, s));
      ParseWellFormed(Entity(IdbStore(o, d, s), m[IdbStore(o, d, s)]));
    }
  }

  lemma DbNameIn(m: map<Key, Json>, parts: seq<Part>, o: string, d: string)
    requires WellFormedMap(m) && PartsMatch(m, parts)
    ensures d in DbNames(parts, o) <==> IdbDb(o, d) in m
  {
    if d in DbNames(parts, o) {
      var p :| p in parts && p.DbPart? && p.origin == o && p.db == d;
      var k := PartOfKey(m, parts, p);
      ParseWellFormed(Entity(k, m[k]));
    }
    if IdbDb(o, d) in m {
      var p := KeyHasPart(m, parts, IdbDb(o, d));
      ParseWellFormed(Entity(IdbDb(o, d), m[IdbDb(o, d)]));
    }
  }

  lemma StoreNamesIn(ord: Order, m: map<Key, Json>, parts: seq<Part>, o: string, d: string)
    requires Enumerates(ord) && WellFormedMap(m) && PartsMatch(m, parts)
    ensures forall s :: s in ord.names(StoreNames(parts, o, d)) <==> IdbStore(o, d, s) in m
  {
    forall s
      ensures s in ord.names(StoreNames(parts, o, d)) <==> IdbStore(o, d, s) in m
    {
      StoreNameIn(m, parts, o, d, s);
    }
  }

  lemma DbNamesIn(ord: Order, m: map<Key, Json>, parts: seq<Part>, o: string)
    requires Enumerates(ord) && WellFormedMap(m) && PartsMatch(m, parts)
    ensures forall d :: d in ord.names(DbNames(parts, o)) <==> IdbDb(o, d) in m
  {
    forall d
      ensures d in ord.names(DbNames(parts, o)) <==> IdbDb(o, d) in m
    {
      DbNameIn(m, parts, o, d);
    }
  }

  lemma StoresCover(m: map<Key, Json>, names: seq<string>, o: string, d: string)
    requires forall s :: s in names <==> IdbStore(o, d, s) in m
    ensures Cover(names, m, StoreScope(o, d), Stores(o, d))
  {
    forall k
      ensures Holds(m, Stores(o, d), k) <==> exists s :: s in names && Holds(m, StoreScope(o, d)(s), k)
    {
      if Holds(m, Stores(o, d), k) {
        assert k.store in names && Holds(m, StoreScope(o, d)(k.store), k);
      }
    }
  }

  lemma StoresEmit(ord: Order, m: map<Key, Json>, parts: seq<Part>, o: string, d: string)
    requires Enumerates(ord) && WellFormedMap(m) && PartsMatch(m, parts)
    ensures EmitsExactly(EmitAll(StoreEmitter(o, d),
                                 MapSeq(StoreBuilder(parts, o, d), ord.names(StoreNames(parts, o, d)))),
                         m, Stores(o, d))
  {
    var names := ord.names(StoreNames(parts, o, d));
    var f := Compose(StoreEmitter(o, d), StoreBuilder(parts, o, d));
    EmitAllMapped(StoreEmitter(o, d), StoreBuilder(parts, o, d), names);
    StoreNamesIn(ord, m, parts, o, d);
    forall s | s in names
      ensures EmitsExactly(f(s), m, StoreScope(o, d)(s))
    {
      StoreEmits(m, parts, o, d, s);
    }
    StoresCover(m, names, o, d);
    EmitsEach(f, names, m, StoreScope(o, d), Stores(o, d));
  }

  lemma DbJoins(m: map<Key, Json>, o: string, d: string)
    requires IdbDb(o, d) in m
    ensures Joins(m, Single(IdbDb(o, d)), Stores(o, d), OneDb(o, d))
  {
  }

  lemma BuiltDb(ord: Order, m: map<Key, Json>, parts: seq<Part>, o: string, d: string)
    requires WellFormedMap(m) && PartsMatch(m, parts) && IdbDb(o, d) in m
    ensures var key := IdbDb(o, d);
            var stores := MapSeq(StoreBuilder(parts, o, d), ord.names(StoreNames(parts, o, d)));
            EmitDb(o, BuildDb(ord, parts, o, d)) == Around(Entity(key, m[key]), EmitAll(StoreEmitter(o, d), stores))
  {
    var meta := MetaOf(m, IdbDb(o, d));
    DbMetaIs(m, parts, o, d);
    var db := meta["stores" := JArray(MapSeq(StoreBuilder(parts, o, d), ord.names(StoreNames(parts, o, d))))];
    assert BuildDb(ord, parts, o, d) == JObject(db) && db - {"stores"} == meta;
  }

  lemma DbEmits(ord: Order, m: map<Key, Json>, parts: seq<Part>, o: string, d: string)
    requires Enumerates(ord) && WellFormedMap(m) && PartsMatch(m, parts) && IdbDb(o, d) in m
    ensures EmitsExactly(EmitDb(o, BuildDb(ord, parts, o, d)), m, OneDb(o, d))
  {
    var stores := MapSeq(StoreBuilder(parts, o, d), ord.names(StoreNames(parts, o, d)));
    BuiltDb(ord, m, parts, o, d);
    StoresEmit(ord, m, parts, o, d);
    DbJoins(m, o, d);
    EmitsAround(m, IdbDb(o, d), EmitAll(StoreEmitter(o, d), stores), Stores(o, d), OneDb(o, d));
  }

  // ---- origins ----

  function DbScope(o: string): string -> Scope {
    (d: string) => OneDb(o, d)
  }

  lemma DatabasesCover(m: map<Key, Json>, names: seq<string>, o: string)
    requires forall d :: d in names <==> IdbDb(o, d) in m
    ensures Cover(names, m, DbScope(o), Dbs(o))
  {
    forall k
      ensures Holds(m, Dbs(o), k) <==> exists d :: d in names && Holds(m, DbScope(o)(d), k)
    {
      if Holds(m, Dbs(o), k) {
        assert k.db in names && Holds(m, DbScope(o)(k.db), k);
      }
    }
  }

  lemma DatabasesEmit(ord: Order, m: map<Key, Json>, parts: seq<Part>, o: string)
    requires Enumerates(ord) && WellFormedMap(m) && PartsMatch(m, parts)
    ensures EmitsExactly(EmitAll(DbEmitter(o), MapSeq(DbBuilder(ord, parts, o), ord.names(DbNames(parts, o)))), m,
                         Dbs(o))
  {
    var names := ord.names(DbNames(parts, o));
    var f := Compose(DbEmitter(o), DbBuilder(ord, parts, o));
    EmitAllMapped(DbEmitter(o), DbBuilder(ord, parts, o), names);
    DbNamesIn(ord, m, parts, o);
    forall d | d in names
      ensures EmitsExactly(f(d), m, DbScope(o)(d))
    {
      DbEmits(ord, m, parts, o, d);
    }
    DatabasesCover(m, names, o);
    EmitsEach(f, names, m, DbScope(o), Dbs(o));
  }

  function ItemScope(o: string): Json -> Scope {
    (item: Json) => OneItem(o, item)
  }

  lemma ParseLocal(o: string, name: string, item: Json)
    ensures Parse(Entity(Local(o, name), LocalValue(o, item))) == Some(LocalPart(o, item))
  {
  }

  lemma ItemsIs(m: map<Key, Json>, parts: seq<Part>, o: string, item: Json)
    requires WellFormedMap(m) && PartsMatch(m, parts)
    ensures item in Select(ItemOf(o), parts) <==> exists k :: Holds(m, OneItem(o, item), k)
  {
    SelectIn(ItemOf(o), parts, item);
    assert forall p :: ItemOf(o)(p) == Some(item) <==> p == LocalPart(o, item);
    if LocalPart(o, item) in parts {
      var k := PartOfKey(m, parts, LocalPart(o, item));
      ParseWellFormed(Entity(k, m[k]));
      assert Holds(m, OneItem(o, item), k);
    }
    if k :| Holds(m, OneItem(o, item), k) {
      ParseLocal(o, k.name, item);
      assert k == Local(o, k.name);
    }
  }

  lemma LocalValueInjective(o: string, a: Json, b: Json)
    requires LocalValue(o, a) == LocalValue(o, b)
    ensures a == b
  {
    assert LocalValue(o, a).fields["item"] == a && LocalValue(o, b).fields["item"] == b;
  }

  lemma HeldItemEmits(m: map<Key, Json>, o: string, item: Json, k: Key)
    requires WellFormedMap(m) && Holds(m, OneItem(o, item), k)
    ensures EmitLocal(o, item) == Some([Entity(k, LocalValue(o, item))])
  {
    assert WellFormed(Entity(k, m[k])) && k == Local(o, k.name);
    var item' :| EmitLocal(o, item') == Some([Entity(k, m[k])]);
    assert [Entity(k, m[k])][0].value == LocalValue(o, item');
    LocalValueInjective(o, item, item');
  }

  lemma ItemEmits(m: map<Key, Json>, parts: seq<Part>, o: string, item: Json)
    requires WellFormedMap(m) && PartsMatch(m, parts) && item in Select(ItemOf(o), parts)
    ensures EmitsExactly(EmitLocal(o, item), m, OneItem(o, item))
  {
    ItemsIs(m, parts, o, item);
    var held :| Holds(m, OneItem(o, item), held);
    HeldItemEmits(m, o, item, held);
    forall k | Holds(m, OneItem(o, item), k)
      ensures ReKey(m, k) == Some(held) && m[k] == LocalValue(o, item)
    {
      HeldItemEmits(m, o, item, k);
      assert [Entity(k, LocalValue(o, item))][0] == [Entity(held, LocalValue(o, item))][0];
    }
    EmitsShared(m, OneItem(o, item), held, Some(held), LocalValue(o, item));
  }

  function HeldItem(m: map<Key, Json>, k: Key): Json {
    if k !in m then JNull
    else
      match WrappedValue(m[k], "item")
      case Some(item) => item
      case None => JNull
  }

  lemma HeldItemIs(e: Entity)
    requires WellFormed(e) && e.key.Local?
    ensures e.value == LocalValue(e.key.origin, HeldItem(map[e.key := e.value], e.key))
  {
    ParseWellFormed(e);
  }

  predicate ItemSelected(m: map<Key, Json>, items: seq<Json>, o: string, k: Key) {
    k in m && HeldItem(m, k) in items && m[k] == LocalValue(o, HeldItem(m, k))
  }

  lemma ItemIsSelected(m: map<Key, Json>, parts: seq<Part>, o: string, k: Key)
    requires WellFormedMap(m) && PartsMatch(m, parts) && Holds(m, Items(o), k)
    ensures ItemSelected(m, Select(ItemOf(o), parts), o, k)
  {
    HeldItemIs(Entity(k, m[k]));
    ItemsIs(m, parts, o, HeldItem(m, k));
    assert Holds(m, OneItem(o, HeldItem(m, k)), k);
  }

  lemma ItemsCover(m: map<Key, Json>, items: seq<Json>, o: string)
    requires forall k :: Holds(m, Items(o), k) ==> ItemSelected(m, items, o, k)
    ensures Cover(items, m, ItemScope(o), Items(o))
  {
    forall k | Holds(m, Items(o), k)
      ensures exists i :: i in items && Holds(m, ItemScope(o)(i), k)
    {
      assert Holds(m, ItemScope(o)(HeldItem(m, k)), k);
    }
  }

  lemma ItemsSelected(m: map<Key, Json>, parts: seq<Part>, o: string)
    requires WellFormedMap(m) && PartsMatch(m, parts)
    ensures forall k :: Holds(m, Items(o), k) ==> ItemSelected(m, Select(ItemOf(o), parts), o, k)
  {
    forall k | Holds(m, Items(o), k) {
      ItemIsSelected(m, parts, o, k);
    }
  }

  lemma ItemsEmit(m: map<Key, Json>, parts: seq<Part>, o: string)
    requires WellFormedMap(m) && PartsMatch(m, parts)
    ensures EmitsExactly(EmitAll(LocalEmitter(o), Select(ItemOf(o), parts)), m, Items(o))
  {
    var items := Select(ItemOf(o), parts);
    forall i | i in items
      ensures EmitsExactly(LocalEmitter(o)(i), m, ItemScope(o)(i))
    {
      ItemEmits(m, parts, o, i);
    }
    ItemsSelected(m, parts, o);
    ItemsCover(m, items, o);
    EmitsEach(LocalEmitter(o), items, m, ItemScope(o), Items(o));
  }

  lemma BuiltOrigin(ord: Order, parts: seq<Part>, o: string)
    requires o != ""
    ensures var locals := EmitAll(LocalEmitter(o), Select(ItemOf(o), parts));
            var inside := EmitAll(DbEmitter(o), MapSeq(DbBuilder(ord, parts, o), ord.names(DbNames(parts, o))));
            EmitOrigin(BuildOrigin(ord, parts, o))
            == if locals.Some? && inside.Some? then Some(locals.value + inside.value) else None
  {
  }

  lemma OriginJoins(m: map<Key, Json>, o: string)
    ensures Joins(m, Items(o), Dbs(o), OneOrigin(o))
  {
  }

  lemma OriginEmits(ord: Order, m: map<Key, Json>, parts: seq<Part>, o: string)
    requires Enumerates(ord) && WellFormedMap(m) && PartsMatch(m, parts) && o != ""
    ensures EmitsExactly(EmitOrigin(BuildOrigin(ord, parts, o)), m, OneOrigin(o))
  {
    BuiltOrigin(ord, parts, o);
    ItemsEmit(m, parts, o);
    DatabasesEmit(ord, m, parts, o);
    OriginJoins(m, o);
    EmitsBoth(EmitAll(LocalEmitter(o), Select(ItemOf(o), parts)),
              EmitAll(DbEmitter(o), MapSeq(DbBuilder(ord, parts, o), ord.names(DbNames(parts, o)))),
              m, Items(o), Dbs(o), OneOrigin(o));
  }

  // ---- the state ----

  function OriginScope(): string -> Scope {
    (o: string) => OneOrigin(o)
  }

  lemma OriginNameIn(m: map<Key, Json>, parts: seq<Part>, o: string)
    requires WellFormedMap(m) && PartsMatch(m, parts)
    ensures o in OriginNames(parts) <==> exists k :: k in m && (k.Local? || k.IdbDb?) && k.origin == o
    ensures o in OriginNames(parts) ==> o != ""
  {
    if o in OriginNames(parts) {
      var p :| p in parts && (p.LocalPart? || p.DbPart?) && p.origin == o;
      var k := PartOfKey(m, parts, p);
      ParseWellFormed(Entity(k, m[k]));
    }
    if k :| k in m && (k.Local? || k.IdbDb?) && k.origin == o {
      var p := KeyHasPart(m, parts, k);
      ParseWellFormed(Entity(k, m[k]));
    }
  }

  lemma OriginNamesIn(ord: Order, m: map<Key, Json>, parts: seq<Part>)
    requires Enumerates(ord) && WellFormedMap(m) && PartsMatch(m, parts)
    ensures forall k :: k in m && (k.Local? || k.IdbDb?) ==> k.origin in ord.names(OriginNames(parts))
  {
    forall k | k in m && (k.Local? || k.IdbDb?)
      ensures k.origin in ord.names(OriginNames(parts))
    {
      OriginNameIn(m, parts, k.origin);
    }
  }

  lemma OriginsCover(m: map<Key, Json>, names: seq<string>)
    requires forall k :: k in m && (k.Local? || k.IdbDb?) ==> k.origin in names
    ensures Cover(names, m, OriginScope(), Origins)
  {
    forall k
      ensures Holds(m, Origins, k) <==> exists o :: o in names && Holds(m, OriginScope()(o), k)
    {
      if Holds(m, Origins, k) {
        var root := if k.Local? then k else IdbDb(k.origin, k.db);
        assert root in m && k.origin in names && Holds(m, OriginScope()(k.origin), k);
      }
    }
  }

  lemma OriginsEmit(ord: Order, m: map<Key, Json>, parts: seq<Part>)
    requires Enumerates(ord) && WellFormedMap(m) && PartsMatch(m, parts)
    ensures EmitsExactly(EmitAll(EmitOrigin, MapSeq(OriginBuilder(ord, parts), ord.names(OriginNames(parts)))), m,
                         Origins)
  {
    var names := ord.names(OriginNames(parts));
    var f := Compose(EmitOrigin, OriginBuilder(ord, parts));
    EmitAllMapped(EmitOrigin, OriginBuilder(ord, parts), names);
    OriginNamesIn(ord, m, parts);
    forall o | o in names
      ensures EmitsExactly(f(o), m, OriginScope()(o))
    {
      assert o in OriginNames(parts);
      OriginNameIn(m, parts, o);
      OriginEmits(ord, m, parts, o);
    }
    OriginsCover(m, names);
    EmitsEach(f, names, m, OriginScope(), Origins);
  }

  function CookieScope(): Json -> Scope {
    (c: Json) => OneCookie(c)
  }

  lemma CookiesIs(m: map<Key, Json>, parts: seq<Part>, c: Json)
    requires WellFormedMap(m) && PartsMatch(m, parts)
    ensures c in Select(CookieOf, parts) <==> exists k :: Holds(m, OneCookie(c), k)
  {
    SelectIn(CookieOf, parts, c);
    assert forall p :: CookieOf(p) == Some(c) <==> p == CookiePart(c);
    if CookiePart(c) in parts {
      var k := PartOfKey(m, parts, CookiePart(c));
      ParseWellFormed(Entity(k, m[k]));
      assert Holds(m, OneCookie(c), k);
    }
    if k :| Holds(m, OneCookie(c), k) {
      assert Parse(Entity(k, m[k])) == Some(CookiePart(c));
    }
  }

  lemma HeldCookie(m: map<Key, Json>, c: Json, k: Key)
    requires WellFormedMap(m) && Holds(m, OneCookie(c), k)
    ensures EmitCookie(c) == Some([Entity(k, c)])
  {
    assert WellFormed(Entity(k, m[k]));
  }

  lemma CookieEmits(m: map<Key, Json>, c: Json, held: Key)
    requires WellFormedMap(m) && Holds(m, OneCookie(c), held)
    ensures EmitsExactly(EmitCookie(c), m, OneCookie(c))
  {
    HeldCookie(m, c, held);
    forall k | Holds(m, OneCookie(c), k)
      ensures ReKey(m, k) == Some(held) && m[k] == c
    {
      HeldCookie(m, c, k);
      assert [Entity(k, c)][0] == [Entity(held, c)][0];
    }
    EmitsShared(m, OneCookie(c), held, Some(held), c);
  }

  lemma CookiesCover(m: map<Key, Json>, cookies: seq<Json>)
    requires forall k :: k in m && k.Cookie? ==> m[k] in cookies
    ensures Cover(cookies, m, CookieScope(), Cookies)
  {
    forall k | Holds(m, Cookies, k)
      ensures exists c :: c in cookies && Holds(m, CookieScope()(c), k)
    {
      assert Holds(m, CookieScope()(m[k]), k);
    }
  }

  lemma CookiesEmit(m: map<Key, Json>, parts: seq<Part>)
    requires WellFormedMap(m) && PartsMatch(m, parts)
    ensures EmitsExactly(EmitAll(EmitCookie, Select(CookieOf, parts)), m, Cookies)
  {
    var cookies := Select(CookieOf, parts);
    forall c | c in cookies
      ensures EmitsExactly(EmitCookie(c), m, CookieScope()(c))
    {
      CookiesIs(m, parts, c);
      var held :| Holds(m, OneCookie(c), held);
      CookieEmits(m, c, held);
    }
    forall k | k in m && k.Cookie?
      ensures m[k] in cookies
    {
      CookiesIs(m, parts, m[k]);
      assert Holds(m, OneCookie(m[k]), k);
    }
    CookiesCover(m, cookies);
    EmitsEach(EmitCookie, cookies, m, CookieScope(), Cookies);
  }

  lemma StateJoins(m: map<Key, Json>)
    ensures Joins(m, Cookies, Origins, Whole)
  {
  }

  lemma BuiltState(ord: Order, parts: seq<Part>)
    ensures var cookies := EmitAll(EmitCookie, Select(CookieOf, parts));
            var origins := EmitAll(EmitOrigin, MapSeq(OriginBuilder(ord, parts), ord.names(OriginNames(parts))));
            EmitState(BuildState(ord, parts))
            == if cookies.Some? && origins.Some? then Some(cookies.value + origins.value) else None
  {
  }

  /** What flattening a rebuilt state emits: each retained entity, under the key it has after the rebuild. */
  lemma RebuiltEmissions(ord: Order, m: map<Key, Json>)
    requires Enumerates(ord) && WellFormedMap(m)
    ensures Rebuild(ord, m).Some? && EmitsExactly(EmitState(Rebuild(ord, m).value), m, Whole)
  {
    var parts := PartsOf(ord, m);
    var cookies := EmitAll(EmitCookie, Select(CookieOf, parts));
    var origins := EmitAll(EmitOrigin, MapSeq(OriginBuilder(ord, parts), ord.names(OriginNames(parts))));
    BuiltState(ord, parts);
    CookiesEmit(m, parts);
    OriginsEmit(ord, m, parts);
    StateJoins(m);
    EmitsBoth(cookies, origins, m, Cookies, Origins, Whole);
  }
}
