/**
 The two forms of a browser identity in browser_identity_store.rs: nested Playwright storage state,
 and a map of entities that can conflict one by one. Errors carry no text here.
 */
module IdentityState {
  import opened Common

  datatype Json =
    | JNull
    | JBool(b: bool)
    | JNumber(text: string)
    | JString(s: string)
    | JArray(items: seq<Json>)
    | JObject(fields: map<string, Json>)

  type Object = map<string, Json>

  function StringAt(o: Object, field: string): Option<string> {
    if field in o && o[field].JString? then Some(o[field].s) else None
  }

  function ArrayAt(o: Object, field: string): Option<seq<Json>> {
    if field in o && o[field].JArray? then Some(o[field].items) else None
  }

  function RequiredString(o: Object, field: string): Option<string> {
    if StringAt(o, field) == Some("") then None else StringAt(o, field)
  }

  // ---------------------------------------------------------------------------------------
  // Keys
  // ---------------------------------------------------------------------------------------

  /**
   An entity key, or a fence key that only migration writes. A segment stands for its base64url
   text; `Other` is any text of no known kind. IdentityEncoding relates keys to their text.
   */
  datatype Key =
    | Cookie(segments: seq<string>)
    | LegacyCookie(segments: seq<string>)
    | Local(origin: string, name: string)
    | IdbDb(origin: string, db: string)
    | IdbStore(origin: string, db: string, store: string)
    | IdbRecord(origin: string, db: string, store: string, identity: Json)
    | OriginDelete(origin: string)
    | Other(text: string)
  {
    /** The kinds that flattening produces. */
    predicate IsEntity() { Cookie? || Local? || IdbDb? || IdbStore? || IdbRecord? }

    /** The kinds whose entities never depend on another entity. */
    predicate IsPlain() { Cookie? || Local? }
  }

  datatype Entity = Entity(key: Key, value: Json)

  function CookieKey(c: Object): Option<Key> {
    var name :- RequiredString(c, "name");
    var domain :- RequiredString(c, "domain");
    var path :- RequiredString(c, "path");
    match RequiredString(c, "partitionKey")
    case None => Some(Cookie([name, domain, path]))
    case Some(partition) =>
      var crossSite := if Get(c, "_crHasCrossSiteAncestor") == Some(JBool(false)) then "false" else "true";
      Some(Cookie([name, domain, path, partition, crossSite]))
  }

  // ---- identity of an IndexedDB record ----

  /** `str::split('.')`: always at least one part. */
  function SplitDots(s: string): (parts: seq<string>)
    ensures parts != []
  {
    if s == "" then [""]
    else
      var rest := SplitDots(s[1..]);
      if s[0] == '.' then [""] + rest else [[s[0]] + rest[0]] + rest[1..]
  }

  function PlainAt(v: Json, path: seq<string>): Option<Json>
    decreases |path|
  {
    if path == [] then Some(v)
    else if !v.JObject? || path[0] !in v.fields then None
    else PlainAt(v.fields[path[0]], path[1..])
  }

  function EncodedProperty(properties: seq<Json>, part: string): Option<Json> {
    if properties == [] then None
    else
      var p := properties[0];
      if p.JObject? && StringAt(p.fields, "k") == Some(part) && "v" in p.fields then Some(p.fields["v"])
      else EncodedProperty(properties[1..], part)
  }

  function EncodedAt(v: Json, path: seq<string>): Option<Json>
    decreases |path|
  {
    if path == [] then Some(v)
    else if !v.JObject? then None
    else
      var properties :- ArrayAt(v.fields, "o");
      var next :- EncodedProperty(properties, path[0]);
      EncodedAt(next, path[1..])
  }

  function NonEmptyStrings(items: seq<Json>): Option<seq<string>> {
    if items == [] then Some([])
    else if !items[0].JString? || items[0].s == "" then None
    else
      var rest :- NonEmptyStrings(items[1..]);
      Some([items[0].s] + rest)
  }

  function KeyPaths(store: Object): Option<seq<string>> {
    match ArrayAt(store, "keyPathArray")
    case Some(paths) => NonEmptyStrings(paths)
    case None =>
      var path :- RequiredString(store, "keyPath");
      Some([path])
  }

  function InlineKeys(paths: seq<string>, lookup: seq<string> -> Option<Json>): Option<seq<Json>> {
    if paths == [] then Some([])
    else
      var key :- lookup(SplitDots(paths[0]));
      var rest :- InlineKeys(paths[1..], lookup);
      Some([key] + rest)
  }

  function RecordIdentity(store: Object, record: Json): Option<Json> {
    if !record.JObject? then None
    else if "key" in record.fields then Some(record.fields["key"])
    else if "keyEncoded" in record.fields then Some(record.fields["keyEncoded"])
    else
      var paths :- KeyPaths(store);
      var keys :-
        if "value" in record.fields then InlineKeys(paths, path => PlainAt(record.fields["value"], path))
        else if "valueEncoded" in record.fields then
          InlineKeys(paths, path => EncodedAt(record.fields["valueEncoded"], path))
        else None;
      Some(if |keys| == 1 then keys[0] else JArray(keys))
  }

  // ---------------------------------------------------------------------------------------
  // Flattening: the entities of a state in the order in which they are inserted
  // ---------------------------------------------------------------------------------------

  function LocalValue(origin: string, item: Json): Json {
    JObject(map["origin" := JString(origin), "item" := item])
  }

  function DbValue(origin: string, meta: Object): Json {
    JObject(map["origin" := JString(origin), "database" := JObject(meta)])
  }

  function StoreValue(origin: string, db: string, meta: Object): Json {
    JObject(map["origin" := JString(origin), "databaseName" := JString(db), "store" := JObject(meta)])
  }

  function RecordValue(origin: string, db: string, store: string, record: Json): Json {
    JObject(map["origin" := JString(origin), "databaseName" := JString(db),
                "storeName" := JString(store), "record" := record])
  }

  function EmitAll<A>(f: A -> Option<seq<Entity>>, xs: seq<A>): Option<seq<Entity>> {
    if xs == [] then Some([])
    else
      var before :- EmitAll(f, xs[..|xs| - 1]);
      var last :- f(xs[|xs| - 1]);
      Some(before + last)
  }

  function EmitCookie(c: Json): Option<seq<Entity>> {
    if !c.JObject? then None
    else
      var key :- CookieKey(c.fields);
      Some([Entity(key, c)])
  }

  function EmitLocal(origin: string, item: Json): Option<seq<Entity>> {
    if !item.JObject? then None
    else
      var name :- RequiredString(item.fields, "name");
      var _ :- StringAt(item.fields, "value");
      Some([Entity(Local(origin, name), LocalValue(origin, item))])
  }

  function EmitRecord(origin: string, db: string, store: string, storeObject: Object, record: Json)
    : Option<seq<Entity>>
  {
    var identity :- RecordIdentity(storeObject, record);
    Some([Entity(IdbRecord(origin, db, store, identity), RecordValue(origin, db, store, record))])
  }

  function RecordEmitter(origin: string, db: string, store: string, storeObject: Object): Json -> Option<seq<Entity>> {
    (r: Json) => EmitRecord(origin, db, store, storeObject, r)
  }

  function EmitStore(origin: string, db: string, store: Json): Option<seq<Entity>> {
    if !store.JObject? then None
    else
      var name :- RequiredString(store.fields, "name");
      var records :- ArrayAt(store.fields, "records");
      var inside :- EmitAll(RecordEmitter(origin, db, name, store.fields), records);
      Some([Entity(IdbStore(origin, db, name), StoreValue(origin, db, store.fields - {"records"}))] + inside)
  }

  function StoreEmitter(origin: string, db: string): Json -> Option<seq<Entity>> {
    (s: Json) => EmitStore(origin, db, s)
  }

  function EmitDb(origin: string, db: Json): Option<seq<Entity>> {
    if !db.JObject? then None
    else
      var name :- RequiredString(db.fields, "name");
      var stores :- ArrayAt(db.fields, "stores");
      var inside :- EmitAll(StoreEmitter(origin, name), stores);
      Some([Entity(IdbDb(origin, name), DbValue(origin, db.fields - {"stores"}))] + inside)
  }

  function Databases(origin: Object): Option<seq<Json>> {
    if "indexedDB" in origin then ArrayAt(origin, "indexedDB") else Some([])
  }

  function LocalEmitter(origin: string): Json -> Option<seq<Entity>> {
    (i: Json) => EmitLocal(origin, i)
  }

  function DbEmitter(origin: string): Json -> Option<seq<Entity>> {
    (d: Json) => EmitDb(origin, d)
  }

  function EmitOrigin(v: Json): Option<seq<Entity>> {
    if !v.JObject? then None
    else
      var origin :- RequiredString(v.fields, "origin");
      var items :- ArrayAt(v.fields, "localStorage");
      var locals :- EmitAll(LocalEmitter(origin), items);
      var databases :- Databases(v.fields);
      var inside :- EmitAll(DbEmitter(origin), databases);
      Some(locals + inside)
  }

  function EmitState(state: Json): Option<seq<Entity>> {
    if !state.JObject? then None
    else
      var cookies :- ArrayAt(state.fields, "cookies");
      var origins :- ArrayAt(state.fields, "origins");
      var first :- EmitAll(EmitCookie, cookies);
      var rest :- EmitAll(EmitOrigin, origins);
      Some(first + rest)
  }

  function InsertAll(m: map<Key, Json>, es: seq<Entity>): map<Key, Json> {
    if es == [] then m
    else InsertAll(m, es[..|es| - 1])[es[|es| - 1].key := es[|es| - 1].value]
  }

  function Flatten(state: Json): Option<map<Key, Json>> {
    var es :- EmitState(state);
    Some(InsertAll(map[], es))
  }

  // ---------------------------------------------------------------------------------------
  // Rebuilding
  // ---------------------------------------------------------------------------------------

  /** A key with the revision that last wrote it. */
  datatype Stamped = Stamped(key: Key, revision: nat)

  type Revisions = map<Key, nat>

  /** The order in which ordered maps and sets list their contents; any order will do. */
  datatype Order = Order(entries: map<Key, Json> -> seq<Entity>, names: set<string> -> seq<string>,
                         stamps: Revisions -> seq<Stamped>)

  ghost predicate ListsStamps(list: Revisions -> seq<Stamped>) {
    forall m: Revisions, e: Stamped :: e in list(m) <==> Get(m, e.key) == Some(e.revision)
  }

  ghost predicate Enumerates(ord: Order) {
    && (forall m, e :: e in ord.entries(m) <==> Get(m, e.key) == Some(e.value))
    && (forall s, x :: x in ord.names(s) <==> x in s)
    && ListsStamps(ord.stamps)
  }

  /** What rebuilding takes from one entity. */
  datatype Part =
    | CookiePart(cookie: Json)
    | LocalPart(origin: string, item: Json)
    | DbPart(origin: string, db: string, meta: Object)
    | StorePart(origin: string, db: string, store: string, meta: Object)
    | RecordPart(origin: string, db: string, store: string, record: Json)
    | NoPart

  function WrappedString(v: Json, field: string): Option<string> {
    if v.JObject? then StringAt(v.fields, field) else None
  }

  function WrappedValue(v: Json, field: string): Option<Json> {
    if v.JObject? then Get(v.fields, field) else None
  }

  /** Wrapped metadata with its required name. */
  function WrappedMeta(v: Json, field: string): Option<(string, Object)> {
    var meta :- WrappedValue(v, field);
    if !meta.JObject? then None
    else
      var name :- RequiredString(meta.fields, "name");
      Some((name, meta.fields))
  }

  function Parse(e: Entity): Option<Part> {
    match e.key
    case Cookie(_) => Some(CookiePart(e.value))
    case Local(_, _) =>
      var origin :- WrappedString(e.value, "origin");
      var item :- WrappedValue(e.value, "item");
      Some(LocalPart(origin, item))
    case IdbDb(_, _) =>
      var origin :- WrappedString(e.value, "origin");
      var meta :- WrappedMeta(e.value, "database");
      Some(DbPart(origin, meta.0, meta.1))
    case IdbStore(_, _, _) =>
      var origin :- WrappedString(e.value, "origin");
      var db :- WrappedString(e.value, "databaseName");
      var meta :- WrappedMeta(e.value, "store");
      Some(StorePart(origin, db, meta.0, meta.1))
    case IdbRecord(_, _, _, _) =>
      var origin :- WrappedString(e.value, "origin");
      var db :- WrappedString(e.value, "databaseName");
      var store :- WrappedString(e.value, "storeName");
      var record :- WrappedValue(e.value, "record");
      Some(RecordPart(origin, db, store, record))
    case _ => Some(NoPart)
  }

  function ParseAll(es: seq<Entity>): Option<seq<Part>> {
    if es == [] then Some([])
    else
      var before :- ParseAll(es[..|es| - 1]);
      var last :- Parse(es[|es| - 1]);
      Some(before + [last])
  }

  function Select<T>(f: Part -> Option<T>, parts: seq<Part>): seq<T> {
    if parts == [] then []
    else
      var before := Select(f, parts[..|parts| - 1]);
      var last := f(parts[|parts| - 1]);
      if last.Some? then before + [last.value] else before
  }

  function CookieOf(p: Part): Option<Json> {
    if p.CookiePart? then Some(p.cookie) else None
  }

  function ItemOf(origin: string): Part -> Option<Json> {
    (p: Part) => if p.LocalPart? && p.origin == origin then Some(p.item) else None
  }

  function DbMetaOf(origin: string, db: string): Part -> Option<Object> {
    (p: Part) => if p.DbPart? && p.origin == origin && p.db == db then Some(p.meta) else None
  }

  function StoreMetaOf(origin: string, db: string, store: string): Part -> Option<Object> {
    (p: Part) => if p.StorePart? && p.origin == origin && p.db == db && p.store == store then Some(p.meta) else None
  }

  function RecordOf(origin: string, db: string, store: string): Part -> Option<Json> {
    (p: Part) => if p.RecordPart? && p.origin == origin && p.db == db && p.store == store then Some(p.record) else None
  }

  function OriginNames(parts: seq<Part>): set<string> {
    set p | p in parts && (p.LocalPart? || p.DbPart?) :: p.origin
  }

  function DbNames(parts: seq<Part>, origin: string): set<string> {
    set p | p in parts && p.DbPart? && p.origin == origin :: p.db
  }

  function StoreNames(parts: seq<Part>, origin: string, db: string): set<string> {
    set p | p in parts && p.StorePart? && p.origin == origin && p.db == db :: p.store
  }

  /** A map keeps the last value inserted under a name. */
  function LastOf(metas: seq<Object>): Object {
    if metas == [] then map[] else metas[|metas| - 1]
  }

  function MapSeq<A, B>(f: A -> B, xs: seq<A>): seq<B> {
    seq(|xs|, i requires 0 <= i < |xs| => f(xs[i]))
  }

  function BuildStore(parts: seq<Part>, origin: string, db: string, store: string): Json {
    JObject(LastOf(Select(StoreMetaOf(origin, db, store), parts))
            ["records" := JArray(Select(RecordOf(origin, db, store), parts))])
  }

  function StoreBuilder(parts: seq<Part>, origin: string, db: string): string -> Json {
    (s: string) => BuildStore(parts, origin, db, s)
  }

  function BuildDb(ord: Order, parts: seq<Part>, origin: string, db: string): Json {
    JObject(LastOf(Select(DbMetaOf(origin, db), parts))
            ["stores" := JArray(MapSeq(StoreBuilder(parts, origin, db), ord.names(StoreNames(parts, origin, db))))])
  }

  function DbBuilder(ord: Order, parts: seq<Part>, origin: string): string -> Json {
    (d: string) => BuildDb(ord, parts, origin, d)
  }

  function BuildOrigin(ord: Order, parts: seq<Part>, origin: string): Json {
    JObject(map["origin" := JString(origin),
                "localStorage" := JArray(Select(ItemOf(origin), parts)),
                "indexedDB" := JArray(MapSeq(DbBuilder(ord, parts, origin), ord.names(DbNames(parts, origin))))])
  }

  function OriginBuilder(ord: Order, parts: seq<Part>): string -> Json {
    (o: string) => BuildOrigin(ord, parts, o)
  }

  function BuildState(ord: Order, parts: seq<Part>): Json {
    JObject(map["cookies" := JArray(Select(CookieOf, parts)),
                "origins" := JArray(MapSeq(OriginBuilder(ord, parts), ord.names(OriginNames(parts))))])
  }

  function Rebuild(ord: Order, entities: map<Key, Json>): Option<Json> {
    var parts :- ParseAll(ord.entries(entities));
    Some(BuildState(ord, parts))
  }
}
