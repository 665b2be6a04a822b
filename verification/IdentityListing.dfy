/**
 What a state lists, told without the flattening: which states can be read, what each listed thing is filed
 under, and that the last one filed under a key stays.
 */
module IdentityListing {
  import opened Common
  import opened IdentityState
  import opened IdentityEntities
  import opened IdentityMerge
  import opened IdentityKeys

  // ---------------------------------------------------------------------------------------
  // What a state lists, from first to last
  // ---------------------------------------------------------------------------------------

  datatype Item =
    | CookieItem(cookie: Json)
    | LocalItem(origin: string, item: Json)
    | DbItem(origin: string, database: Object)
    | StoreItem(origin: string, db: string, store: Object)
    | RecordItem(origin: string, db: string, store: Object, record: Json)

  function TextAt(o: Object, field: string): string {
    if field in o && o[field].JString? then o[field].s else ""
  }

  function ItemsAt(o: Object, field: string): seq<Json> {
    if field in o && o[field].JArray? then o[field].items else []
  }

  function FieldsOf(v: Json): Object {
    if v.JObject? then v.fields else map[]
  }

  function FlatMap<A, B>(f: A -> seq<B>, xs: seq<A>): seq<B> {
    if xs == [] then [] else FlatMap(f, xs[..|xs| - 1]) + f(xs[|xs| - 1])
  }

  function ItemsOfCookie(): Json -> seq<Item> {
    (c: Json) => [CookieItem(c)]
  }

  function ItemsOfLocal(origin: string): Json -> seq<Item> {
    (i: Json) => [LocalItem(origin, i)]
  }

  function ItemsOfRecord(origin: string, db: string, store: Object): Json -> seq<Item> {
    (r: Json) => [RecordItem(origin, db, store, r)]
  }

  function ItemsOfStore(origin: string, db: string): Json -> seq<Item> {
    (v: Json) =>
      var s := FieldsOf(v);
      [StoreItem(origin, db, s)] + FlatMap(ItemsOfRecord(origin, db, s), ItemsAt(s, "records"))
  }

  function ItemsOfDb(origin: string): Json -> seq<Item> {
    (v: Json) =>
      var d := FieldsOf(v);
      [DbItem(origin, d)] + FlatMap(ItemsOfStore(origin, TextAt(d, "name")), ItemsAt(d, "stores"))
  }

  function ItemsOfOrigin(): Json -> seq<Item> {
    (v: Json) =>
      var o := FieldsOf(v);
      FlatMap(ItemsOfLocal(TextAt(o, "origin")), ItemsAt(o, "localStorage"))
      + FlatMap(ItemsOfDb(TextAt(o, "origin")), ItemsAt(o, "indexedDB"))
  }

  function Listing(state: Json): seq<Item> {
    FlatMap(ItemsOfCookie(), ItemsAt(FieldsOf(state), "cookies"))
    + FlatMap(ItemsOfOrigin(), ItemsAt(FieldsOf(state), "origins"))
  }

  // ---------------------------------------------------------------------------------------
  // Which states can be read
  // ---------------------------------------------------------------------------------------

  predicate HasText(o: Object, field: string) {
    TextAt(o, field) != ""
  }

  predicate HasArray(o: Object, field: string) {
    field in o && o[field].JArray?
  }

  predicate CookieReads(c: Json) {
    c.JObject? && HasText(c.fields, "name") && HasText(c.fields, "domain") && HasText(c.fields, "path")
  }

  predicate ItemReads(i: Json) {
    i.JObject? && HasText(i.fields, "name") && "value" in i.fields && i.fields["value"].JString?
  }

  ghost predicate StoreReads(s: Json) {
    && s.JObject? && HasText(s.fields, "name") && HasArray(s.fields, "records")
    && forall r :: r in ItemsAt(s.fields, "records") ==> exists j :: Identifies(s.fields, r, j)
  }

  ghost predicate DbReads(d: Json) {
    && d.JObject? && HasText(d.fields, "name") && HasArray(d.fields, "stores")
    && forall s :: s in ItemsAt(d.fields, "stores") ==> StoreReads(s)
  }

  ghost predicate OriginReads(o: Json) {
    && o.JObject? && HasText(o.fields, "origin") && HasArray(o.fields, "localStorage")
    && (forall i :: i in ItemsAt(o.fields, "localStorage") ==> ItemReads(i))
    && ("indexedDB" in o.fields ==> HasArray(o.fields, "indexedDB"))
    && forall d :: d in ItemsAt(o.fields, "indexedDB") ==> DbReads(d)
  }

  ghost predicate StateReads(state: Json) {
    && state.JObject? && HasArray(state.fields, "cookies") && HasArray(state.fields, "origins")
    && (forall c :: c in ItemsAt(state.fields, "cookies") ==> CookieReads(c))
    && forall o :: o in ItemsAt(state.fields, "origins") ==> OriginReads(o)
  }

  lemma TextIs(o: Object, field: string)
    ensures RequiredString(o, field) == if HasText(o, field) then Some(TextAt(o, field)) else None
  {
  }

  lemma ArrayIs(o: Object, field: string)
    ensures ArrayAt(o, field) == if HasArray(o, field) then Some(ItemsAt(o, field)) else None
  {
  }

  lemma CookieIsRead(c: Json)
    ensures EmitCookie(c).Some? <==> CookieReads(c)
  {
    if c.JObject? {
      CookieKeyIs(c.fields);
    }
  }

  lemma RecordIsRead(o: string, d: string, name: string, store: Object, r: Json)
    ensures EmitRecord(o, d, name, store, r).Some? <==> exists j :: Identifies(store, r, j)
  {
    if RecordIdentity(store, r).Some? {
      IdentityExactly(store, r, RecordIdentity(store, r).value);
    }
    if j :| Identifies(store, r, j) {
      IdentityExactly(store, r, j);
    }
  }

  lemma StoreIsRead(o: string, d: string, s: Json)
    ensures EmitStore(o, d, s).Some? <==> StoreReads(s)
  {
    if s.JObject? && HasText(s.fields, "name") && HasArray(s.fields, "records") {
      var f := RecordEmitter(o, d, TextAt(s.fields, "name"), s.fields);
      EmitAllSome(f, ItemsAt(s.fields, "records"));
      forall r
        ensures f(r).Some? <==> exists j :: Identifies(s.fields, r, j)
      {
        RecordIsRead(o, d, TextAt(s.fields, "name"), s.fields, r);
      }
    }
  }

  lemma DbIsRead(o: string, d: Json)
    ensures EmitDb(o, d).Some? <==> DbReads(d)
  {
    if d.JObject? && HasText(d.fields, "name") && HasArray(d.fields, "stores") {
      var f := StoreEmitter(o, TextAt(d.fields, "name"));
      EmitAllSome(f, ItemsAt(d.fields, "stores"));
      forall s
        ensures f(s).Some? <==> StoreReads(s)
      {
        StoreIsRead(o, TextAt(d.fields, "name"), s);
      }
    }
  }

  lemma ItemsAreRead(o: string, items: seq<Json>)
    ensures EmitAll(LocalEmitter(o), items).Some? <==> forall i :: i in items ==> ItemReads(i)
  {
    EmitAllSome(LocalEmitter(o), items);
    assert forall i :: LocalEmitter(o)(i).Some? <==> ItemReads(i);
  }

  lemma DatabasesAreRead(o: string, databases: seq<Json>)
    ensures EmitAll(DbEmitter(o), databases).Some? <==> forall d :: d in databases ==> DbReads(d)
  {
    EmitAllSome(DbEmitter(o), databases);
    forall d
      ensures DbEmitter(o)(d).Some? <==> DbReads(d)
    {
      DbIsRead(o, d);
    }
  }

  lemma OriginIsRead(v: Json)
    ensures EmitOrigin(v).Some? <==> OriginReads(v)
  {
    if v.JObject? {
      TextIs(v.fields, "origin");
      ArrayIs(v.fields, "localStorage");
      ArrayIs(v.fields, "indexedDB");
      ItemsAreRead(TextAt(v.fields, "origin"), ItemsAt(v.fields, "localStorage"));
      DatabasesAreRead(TextAt(v.fields, "origin"), ItemsAt(v.fields, "indexedDB"));
    }
  }

  /** A state can be read exactly when everything it lists has what names it. */
  lemma ReadsExactly(state: Json)
    ensures Flatten(state).Some? <==> StateReads(state)
  {
    if state.JObject? && HasArray(state.fields, "cookies") && HasArray(state.fields, "origins") {
      EmitAllSome(EmitCookie, ItemsAt(state.fields, "cookies"));
      EmitAllSome(EmitOrigin, ItemsAt(state.fields, "origins"));
      forall c
        ensures EmitCookie(c).Some? <==> CookieReads(c)
      {
        CookieIsRead(c);
      }
      forall o
        ensures EmitOrigin(o).Some? <==> OriginReads(o)
      {
        OriginIsRead(o);
      }
    }
  }

  // ---------------------------------------------------------------------------------------
  // What each listed thing is filed under
  // ---------------------------------------------------------------------------------------

  /** The key names the listed thing. */
  ghost predicate Names(item: Item, k: Key) {
    match item
    case CookieItem(c) =>
      c.JObject? && Family(c.fields).Some? && k == Cookie(Family(c.fields).value + Tail(PartitionOf(c.fields)))
    case LocalItem(o, i) => k == Local(o, TextAt(FieldsOf(i), "name"))
    case DbItem(o, d) => k == IdbDb(o, TextAt(d, "name"))
    case StoreItem(o, d, s) => k == IdbStore(o, d, TextAt(s, "name"))
    case RecordItem(o, d, s, r) =>
      k.IdbRecord? && k == IdbRecord(o, d, TextAt(s, "name"), k.identity) && Identifies(s, r, k.identity)
  }

  /** What is kept of it: databases without their stores, stores without their records. */
  function ValueOf(item: Item): Json {
    match item
    case CookieItem(c) => c
    case LocalItem(o, i) => LocalValue(o, i)
    case DbItem(o, d) => DbValue(o, d - {"stores"})
    case StoreItem(o, d, s) => StoreValue(o, d, s - {"records"})
    case RecordItem(o, d, s, r) => RecordValue(o, d, TextAt(s, "name"), r)
  }

  ghost predicate Describes(item: Item, e: Entity) {
    Names(item, e.key) && e.value == ValueOf(item)
  }

  lemma NamesOne(item: Item, a: Key, b: Key)
    requires Names(item, a) && Names(item, b)
    ensures a == b
  {
    if item.RecordItem? {
      IdentityExactly(item.store, item.record, a.identity);
      IdentityExactly(item.store, item.record, b.identity);
    }
  }

  /** The entities are those of the items, one for one. */
  ghost predicate Told(emitted: Option<seq<Entity>>, items: seq<Item>) {
    emitted.Some? ==>
      && |emitted.value| == |items|
      && forall i :: 0 <= i < |items| ==> Describes(items[i], emitted.value[i])
  }

  lemma ToldOne(item: Item, e: Entity)
    requires Describes(item, e)
    ensures Told(Some([e]), [item])
  {
  }

  lemma ToldBoth(a: seq<Entity>, b: seq<Entity>, x: seq<Item>, y: seq<Item>)
    requires Told(Some(a), x) && Told(Some(b), y)
    ensures Told(Some(a + b), x + y)
  {
  }

  function Both(a: Option<seq<Entity>>, b: Option<seq<Entity>>): Option<seq<Entity>> {
    if a.Some? && b.Some? then Some(a.value + b.value) else None
  }

  lemma ToldTogether(a: Option<seq<Entity>>, b: Option<seq<Entity>>, x: seq<Item>, y: seq<Item>)
    requires Told(a, x) && Told(b, y)
    ensures Told(Both(a, b), x + y)
  {
    if a.Some? && b.Some? {
      ToldBoth(a.value, b.value, x, y);
    }
  }

  lemma {:induction false} ToldAll<A>(f: A -> Option<seq<Entity>>, g: A -> seq<Item>, xs: seq<A>)
    requires forall x :: x in xs ==> Told(f(x), g(x))
    ensures Told(EmitAll(f, xs), FlatMap(g, xs))
  {
    if xs != [] && EmitAll(f, xs).Some? {
      var n := |xs| - 1;
      ToldAll(f, g, xs[..n]);
      ToldBoth(EmitAll(f, xs[..n]).value, f(xs[n]).value, FlatMap(g, xs[..n]), g(xs[n]));
    }
  }

  lemma CookieTold(c: Json)
    ensures Told(EmitCookie(c), ItemsOfCookie()(c))
  {
    if EmitCookie(c).Some? {
      CookieKeyIs(c.fields);
      ToldOne(CookieItem(c), EmitCookie(c).value[0]);
    }
  }

  lemma RecordTold(o: string, d: string, store: Object, r: Json)
    ensures Told(EmitRecord(o, d, TextAt(store, "name"), store, r), ItemsOfRecord(o, d, store)(r))
  {
    if RecordIdentity(store, r).Some? {
      IdentityExactly(store, r, RecordIdentity(store, r).value);
      ToldOne(RecordItem(o, d, store, r), EmitRecord(o, d, TextAt(store, "name"), store, r).value[0]);
    }
  }

  lemma StoreTold(o: string, d: string, s: Json)
    ensures Told(EmitStore(o, d, s), ItemsOfStore(o, d)(s))
  {
    if EmitStore(o, d, s).Some? {
      var (store, name) := (s.fields, TextAt(s.fields, "name"));
      var (f, g, records) := (RecordEmitter(o, d, name, store), ItemsOfRecord(o, d, store), ItemsAt(store, "records"));
      forall r | r in records
        ensures Told(f(r), g(r))
      {
        RecordTold(o, d, store, r);
      }
      ToldAll(f, g, records);
      var e := Entity(IdbStore(o, d, name), StoreValue(o, d, store - {"records"}));
      ToldOne(StoreItem(o, d, store), e);
      ToldBoth([e], EmitAll(f, records).value, [StoreItem(o, d, store)], FlatMap(g, records));
    }
  }

  lemma DbTold(o: string, d: Json)
    ensures Told(EmitDb(o, d), ItemsOfDb(o)(d))
  {
    if EmitDb(o, d).Some? {
      var (db, name) := (d.fields, TextAt(d.fields, "name"));
      var (f, g, stores) := (StoreEmitter(o, name), ItemsOfStore(o, name), ItemsAt(db, "stores"));
      forall s | s in stores
        ensures Told(f(s), g(s))
      {
        StoreTold(o, name, s);
      }
      ToldAll(f, g, stores);
      var e := Entity(IdbDb(o, name), DbValue(o, db - {"stores"}));
      ToldOne(DbItem(o, db), e);
      ToldBoth([e], EmitAll(f, stores).value, [DbItem(o, db)], FlatMap(g, stores));
    }
  }

  lemma LocalsTold(o: string, items: seq<Json>)
    ensures Told(EmitAll(LocalEmitter(o), items), FlatMap(ItemsOfLocal(o), items))
  {
    forall i | i in items
      ensures Told(LocalEmitter(o)(i), ItemsOfLocal(o)(i))
    {
      if EmitLocal(o, i).Some? {
        ToldOne(LocalItem(o, i), EmitLocal(o, i).value[0]);
      }
    }
    ToldAll(LocalEmitter(o), ItemsOfLocal(o), items);
  }

  lemma DatabasesTold(o: string, databases: seq<Json>)
    ensures Told(EmitAll(DbEmitter(o), databases), FlatMap(ItemsOfDb(o), databases))
  {
    forall d | d in databases
      ensures Told(DbEmitter(o)(d), ItemsOfDb(o)(d))
    {
      DbTold(o, d);
    }
    ToldAll(DbEmitter(o), ItemsOfDb(o), databases);
  }

  lemma OriginIs(v: Json)
    requires EmitOrigin(v).Some?
    ensures v.JObject?
    ensures var o := TextAt(v.fields, "origin");
            EmitOrigin(v) == Both(EmitAll(LocalEmitter(o), ItemsAt(v.fields, "localStorage")),
                                  EmitAll(DbEmitter(o), ItemsAt(v.fields, "indexedDB")))
  {
    ArrayIs(v.fields, "localStorage");
    ArrayIs(v.fields, "indexedDB");
  }

  lemma StateIs(state: Json)
    requires EmitState(state).Some?
    ensures state.JObject?
    ensures EmitState(state) == Both(EmitAll(EmitCookie, ItemsAt(state.fields, "cookies")),
                                     EmitAll(EmitOrigin, ItemsAt(state.fields, "origins")))
  {
    ArrayIs(state.fields, "cookies");
    ArrayIs(state.fields, "origins");
  }

  lemma CookiesTold(cookies: seq<Json>)
    ensures Told(EmitAll(EmitCookie, cookies), FlatMap(ItemsOfCookie(), cookies))
  {
    forall c | c in cookies
      ensures Told(EmitCookie(c), ItemsOfCookie()(c))
    {
      CookieTold(c);
    }
    ToldAll(EmitCookie, ItemsOfCookie(), cookies);
  }

  lemma OriginsTold(origins: seq<Json>)
    ensures Told(EmitAll(EmitOrigin, origins), FlatMap(ItemsOfOrigin(), origins))
  {
    forall o | o in origins
      ensures Told(EmitOrigin(o), ItemsOfOrigin()(o))
    {
      OriginTold(o);
    }
    ToldAll(EmitOrigin, ItemsOfOrigin(), origins);
  }

  lemma OriginTold(v: Json)
    ensures Told(EmitOrigin(v), ItemsOfOrigin()(v))
  {
    if EmitOrigin(v).Some? {
      var (fields, o) := (v.fields, TextAt(v.fields, "origin"));
      OriginIs(v);
      LocalsTold(o, ItemsAt(fields, "localStorage"));
      DatabasesTold(o, ItemsAt(fields, "indexedDB"));
      ToldTogether(EmitAll(LocalEmitter(o), ItemsAt(fields, "localStorage")),
                   EmitAll(DbEmitter(o), ItemsAt(fields, "indexedDB")),
                   FlatMap(ItemsOfLocal(o), ItemsAt(fields, "localStorage")),
                   FlatMap(ItemsOfDb(o), ItemsAt(fields, "indexedDB")));
    }
  }

  lemma StateTold(state: Json)
    ensures Told(EmitState(state), Listing(state))
  {
    if EmitState(state).Some? {
      var (cookies, origins) := (ItemsAt(state.fields, "cookies"), ItemsAt(state.fields, "origins"));
      StateIs(state);
      CookiesTold(cookies);
      OriginsTold(origins);
      ToldTogether(EmitAll(EmitCookie, cookies), EmitAll(EmitOrigin, origins),
                   FlatMap(ItemsOfCookie(), cookies), FlatMap(ItemsOfOrigin(), origins));
    }
  }

  // ---------------------------------------------------------------------------------------
  // What a flattened state holds
  // ---------------------------------------------------------------------------------------

  lemma {:induction false} InsertedLast(es: seq<Entity>, i: nat)
    requires i < |es| && forall j :: i < j < |es| ==> es[j].key != es[i].key
    ensures Get(InsertAll(map[], es), es[i].key) == Some(es[i].value)
  {
    var n := |es| - 1;
    if i < n {
      InsertedLast(es[..n], i);
    }
  }

  /** The item is the last one that the key names. */
  ghost predicate IsLastNamed(items: seq<Item>, i: nat, k: Key) {
    && i < |items| && Names(items[i], k)
    && forall j :: i < j < |items| ==> !Names(items[j], k)
  }

  lemma ToldKeys(es: seq<Entity>, items: seq<Item>, k: Key, i: nat)
    requires Told(Some(es), items) && i < |items|
    ensures Names(items[i], k) <==> es[i].key == k
  {
    assert Describes(items[i], es[i]);
    if Names(items[i], k) {
      NamesOne(items[i], k, es[i].key);
    }
  }

  /** A flattened state holds exactly what is listed, each thing under its key, the last of equal keys. */
  lemma FlattenExactly(state: Json, k: Key)
    requires Flatten(state).Some?
    ensures k in Flatten(state).value <==> exists i :: 0 <= i < |Listing(state)| && Names(Listing(state)[i], k)
    ensures forall i: nat :: IsLastNamed(Listing(state), i, k)
              ==> Get(Flatten(state).value, k) == Some(ValueOf(Listing(state)[i]))
  {
    StateTold(state);
    ToldHolds(EmitState(state).value, Listing(state), k);
    forall i: nat | IsLastNamed(Listing(state), i, k)
      ensures Get(Flatten(state).value, k) == Some(ValueOf(Listing(state)[i]))
    {
      ToldLast(EmitState(state).value, Listing(state), k, i);
    }
  }

  lemma ToldHolds(es: seq<Entity>, items: seq<Item>, k: Key)
    requires Told(Some(es), items)
    ensures k in InsertAll(map[], es) <==> exists i :: 0 <= i < |items| && Names(items[i], k)
  {
    InsertAllLookup(es);
    forall i | 0 <= i < |items|
      ensures Names(items[i], k) <==> es[i].key == k
    {
      ToldKeys(es, items, k, i);
    }
    if k in InsertAll(map[], es) {
      var i :| 0 <= i < |es| && es[i].key == k;
      assert Names(items[i], k);
    }
  }

  lemma ToldLast(es: seq<Entity>, items: seq<Item>, k: Key, i: nat)
    requires Told(Some(es), items) && IsLastNamed(items, i, k)
    ensures Get(InsertAll(map[], es), k) == Some(ValueOf(items[i]))
  {
    forall j | i <= j < |items|
      ensures Names(items[j], k) <==> es[j].key == k
    {
      ToldKeys(es, items, k, j);
    }
    assert Describes(items[i], es[i]);
    InsertedLast(es, i);
  }

  // ---------------------------------------------------------------------------------------
  // Records with a key of their own
  // ---------------------------------------------------------------------------------------

  /** The record's own key; a plain one comes before an encoded one. */
  function OwnKey(r: Json): Option<Json> {
    if !r.JObject? then None
    else if "key" in r.fields then Some(r.fields["key"])
    else Get(r.fields, "keyEncoded")
  }

  /**
   Every listed record that has a key of its own is filed under it; and of the records with that key the last
   one stays, if none after it gets the key from its value.
   */
  lemma OwnKeysAreKept(state: Json, i: nat, j: Json)
    requires Flatten(state).Some? && i < |Listing(state)| && Listing(state)[i].RecordItem?
    requires OwnKey(Listing(state)[i].record) == Some(j)
    ensures var it := Listing(state)[i];
            var k := IdbRecord(it.origin, it.db, TextAt(it.store, "name"), j);
            && k in Flatten(state).value
            && ((forall n :: i < n < |Listing(state)| ==> !Names(Listing(state)[n], k))
                ==> Flatten(state).value[k] == RecordValue(it.origin, it.db, TextAt(it.store, "name"), it.record))
  {
    var it := Listing(state)[i];
    var k := IdbRecord(it.origin, it.db, TextAt(it.store, "name"), j);
    OwnKeyNames(it, j);
    FlattenExactly(state, k);
    if forall n :: i < n < |Listing(state)| ==> !Names(Listing(state)[n], k) {
      assert IsLastNamed(Listing(state), i, k);
    }
  }

  lemma OwnKeyNames(it: Item, j: Json)
    requires it.RecordItem? && OwnKey(it.record) == Some(j)
    ensures Names(it, IdbRecord(it.origin, it.db, TextAt(it.store, "name"), j))
  {
  }

  /** Records with different keys of their own are never filed under one key. */
  lemma OwnKeysTellApart(a: Item, b: Item, k: Key)
    requires a.RecordItem? && b.RecordItem? && OwnKey(a.record).Some? && OwnKey(b.record).Some?
    requires Names(a, k) && Names(b, k)
    ensures OwnKey(a.record) == OwnKey(b.record)
  {
  }
}
