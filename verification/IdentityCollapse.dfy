/** What is read back under each single key: of several records that get one identity, the last listed. */
module IdentityCollapse {
  import opened Common
  import opened IdentityState
  import opened IdentityEntities
  import opened IdentityRoundTrip
  import opened IdentityLaws

  // ---------------------------------------------------------------------------------------
  // The last entity of a key in a list
  // ---------------------------------------------------------------------------------------

  /** What inserting a list into a map leaves under a key. */
  function Last(es: seq<Entity>, k: Key): Option<Json> {
    Get(InsertAll(map[], es), k)
  }

  lemma {:induction false} LastOfBoth(a: seq<Entity>, b: seq<Entity>, k: Key)
    ensures Last(a + b, k) == if Last(b, k).Some? then Last(b, k) else Last(a, k)
  {
    if b == [] {
      assert a + b == a;
    } else {
      assert (a + b)[..|a + b| - 1] == a + b[..|b| - 1];
      LastOfBoth(a, b[..|b| - 1], k);
    }
  }

  lemma LastOfOne(e: Entity, k: Key)
    ensures Last([e], k) == if e.key == k then Some(e.value) else None
  {
    assert [e][..0] == [];
    assert InsertAll(map[], [e]) == map[e.key := e.value];
  }

  /** No entity of the key follows the last one that has this value. */
  predicate Final(emitted: Option<seq<Entity>>, k: Key, v: Json) {
    emitted.Some? ==> Last(emitted.value, k) == None || Last(emitted.value, k) == Some(v)
  }

  lemma {:induction false} FinalInEach<A>(f: A -> Option<seq<Entity>>, xs: seq<A>, k: Key, v: Json)
    requires forall x :: x in xs ==> Final(f(x), k, v)
    ensures Final(EmitAll(f, xs), k, v)
  {
    if xs != [] && EmitAll(f, xs).Some? {
      var n := |xs| - 1;
      FinalInEach(f, xs[..n], k, v);
      LastOfBoth(EmitAll(f, xs[..n]).value, f(xs[n]).value, k);
    }
  }

  lemma FinalAround(e: Entity, inside: Option<seq<Entity>>, k: Key, v: Json)
    requires e.key != k && Final(inside, k, v)
    ensures Final(Around(e, inside), k, v)
  {
    if inside.Some? {
      LastOfBoth([e], inside.value, k);
      LastOfOne(e, k);
    }
  }

  /** Nothing in this part of the state becomes the key. */
  ghost predicate Elsewhere(m: map<Key, Json>, scope: Scope, k: Key) {
    forall k0 :: Holds(m, scope, k0) ==> ReKey(m, k0) != Some(k)
  }

  /** A record stays in its store. */
  lemma ReKeyStays(m: map<Key, Json>, k0: Key, k: Key)
    requires ReKey(m, k0) == Some(k) && k.IdbRecord?
    ensures IsRecordOf(k.origin, k.db, k.store, k0)
  {
  }

  lemma OtherStore(m: map<Key, Json>, s: string, k: Key)
    requires k.IdbRecord? && s != k.store
    ensures Elsewhere(m, OneStore(k.origin, k.db, s), k)
  {
    forall k0 | Holds(m, OneStore(k.origin, k.db, s), k0)
      ensures ReKey(m, k0) != Some(k)
    {
      if ReKey(m, k0) == Some(k) {
        ReKeyStays(m, k0, k);
      }
    }
  }

  lemma OtherDb(m: map<Key, Json>, d: string, k: Key)
    requires k.IdbRecord? && d != k.db
    ensures Elsewhere(m, OneDb(k.origin, d), k)
  {
    forall k0 | Holds(m, OneDb(k.origin, d), k0)
      ensures ReKey(m, k0) != Some(k)
    {
      if ReKey(m, k0) == Some(k) {
        ReKeyStays(m, k0, k);
      }
    }
  }

  lemma OtherOrigin(m: map<Key, Json>, o: string, k: Key)
    requires k.IdbRecord? && o != k.origin
    ensures Elsewhere(m, OneOrigin(o), k)
  {
    forall k0 | Holds(m, OneOrigin(o), k0)
      ensures ReKey(m, k0) != Some(k)
    {
      if ReKey(m, k0) == Some(k) {
        ReKeyStays(m, k0, k);
      }
    }
  }

  lemma NotARecord(m: map<Key, Json>, o: string, k: Key)
    requires k.IdbRecord?
    ensures Elsewhere(m, Items(o), k) && Elsewhere(m, Cookies, k)
  {
  }

  /** Such a part says nothing about the key. */
  lemma NoneElsewhere(es: seq<Entity>, m: map<Key, Json>, scope: Scope, k: Key)
    requires EmitsExactly(Some(es), m, scope) && Elsewhere(m, scope, k)
    ensures Last(es, k) == None
  {
    InsertAllLookup(es);
    assert forall v :: Entity(k, v) in es ==> exists k0 :: Holds(m, scope, k0) && Becomes(m, k0, Entity(k, v));
  }

  lemma FinalElsewhere(emitted: Option<seq<Entity>>, m: map<Key, Json>, scope: Scope, k: Key, v: Json)
    requires EmitsExactly(emitted, m, scope) && Elsewhere(m, scope, k)
    ensures Final(emitted, k, v)
  {
    if emitted.Some? {
      NoneElsewhere(emitted.value, m, scope, k);
    }
  }

  // ---------------------------------------------------------------------------------------
  // The records of one store
  // ---------------------------------------------------------------------------------------

  /** The last listed entity that has this key after a rebuild. */
  function LastListed(es: seq<Entity>, m: map<Key, Json>, k: Key): Option<Json> {
    if es == [] then None
    else
      var last := es[|es| - 1];
      if ReKey(m, last.key) == Some(k) then Some(last.value) else LastListed(es[..|es| - 1], m, k)
  }

  ghost predicate Lists(m: map<Key, Json>, es: seq<Entity>) {
    forall e :: e in es ==> Get(m, e.key) == Some(e.value)
  }

  lemma ListedRecord(m: map<Key, Json>, e: Entity, o: string, d: string, s: string, store: Object, records: Json,
                     k: Key)
    requires WellFormedMap(m) && Get(m, e.key) == Some(e.value) && IsRecordOf(o, d, s, k)
    requires store == MetaOf(m, IdbStore(o, d, s))["records" := records] && Parse(e).Some?
    ensures var r := RecordOf(o, d, s)(Parse(e).value);
            && (r.None? ==> ReKey(m, e.key) != Some(k))
            && (r.Some? ==> EmitRecord(o, d, s, store, r.value)
                            == if ReKey(m, e.key).Some? then Some([Entity(ReKey(m, e.key).value, e.value)]) else None)
  {
    ParseWellFormed(e);
    if e.key.IdbRecord? && IsRecordOf(o, d, s, e.key) {
      ParseRecordOf(e);
      var r := Parse(e).value.record;
      HeldRecordReKeys(m, o, d, s, r, e.key);
      IdentityIgnoresRecords(MetaOf(m, IdbStore(o, d, s)), records, r);
    } else if e.key.IdbRecord? {
      ParseRecordOf(e);
    }
  }

  lemma ParseRecordOf(e: Entity)
    requires WellFormed(e) && e.key.IdbRecord?
    ensures Parse(e) == Some(RecordPart(e.key.origin, e.key.db, e.key.store, Parse(e).value.record))
  {
    var k := e.key;
    var r :| e.value == RecordValue(k.origin, k.db, k.store, r);
    ParseRecord(k.origin, k.db, k.store, k.identity, r);
  }

  lemma {:induction false} RecordsLeave(m: map<Key, Json>, es: seq<Entity>, o: string, d: string, s: string,
                                        store: Object, records: Json, k: Key)
    requires WellFormedMap(m) && Lists(m, es) && ParseAll(es).Some? && IsRecordOf(o, d, s, k)
    requires store == MetaOf(m, IdbStore(o, d, s))["records" := records]
    ensures var emitted := EmitAll(RecordEmitter(o, d, s, store), Select(RecordOf(o, d, s), ParseAll(es).value));
            emitted.Some? ==> Last(emitted.value, k) == LastListed(es, m, k)
  {
    if es != [] {
      var n := |es| - 1;
      RecordsLeave(m, es[..n], o, d, s, store, records, k);
      ListedRecord(m, es[n], o, d, s, store, records, k);
      OneMoreRecord(m, es, o, d, s, store, k);
    }
  }

  lemma OneMoreRecord(m: map<Key, Json>, es: seq<Entity>, o: string, d: string, s: string, store: Object, k: Key)
    requires es != [] && ParseAll(es).Some?
    requires var e := es[|es| - 1];
             var r := RecordOf(o, d, s)(Parse(e).value);
             && (r.None? ==> ReKey(m, e.key) != Some(k))
             && (r.Some? ==> EmitRecord(o, d, s, store, r.value)
                             == if ReKey(m, e.key).Some? then Some([Entity(ReKey(m, e.key).value, e.value)]) else None)
    requires var f := RecordEmitter(o, d, s, store);
             var before := EmitAll(f, Select(RecordOf(o, d, s), ParseAll(es[..|es| - 1]).value));
             before.Some? ==> Last(before.value, k) == LastListed(es[..|es| - 1], m, k)
    ensures var emitted := EmitAll(RecordEmitter(o, d, s, store), Select(RecordOf(o, d, s), ParseAll(es).value));
            emitted.Some? ==> Last(emitted.value, k) == LastListed(es, m, k)
  {
    var f := RecordEmitter(o, d, s, store);
    var e := es[|es| - 1];
    var r := RecordOf(o, d, s)(Parse(e).value);
    var before := Select(RecordOf(o, d, s), ParseAll(es[..|es| - 1]).value);
    assert ParseAll(es).value[..|es| - 1] == ParseAll(es[..|es| - 1]).value by {
      ParseAllLength(es[..|es| - 1]);
    }
    ParseAllLength(es);
    if r.Some? {
      assert (before + [r.value])[..|before|] == before;
      if EmitAll(f, before + [r.value]).Some? {
        LastOfBoth(EmitAll(f, before).value, f(r.value).value, k);
        LastOfOne(Entity(ReKey(m, e.key).value, e.value), k);
      }
    }
  }

  lemma {:induction false} ParseAllLength(es: seq<Entity>)
    requires ParseAll(es).Some?
    ensures |ParseAll(es).value| == |es|
  {
    if es != [] {
      ParseAllLength(es[..|es| - 1]);
    }
  }

  lemma {:induction false} LastListedIs(es: seq<Entity>, m: map<Key, Json>, k: Key)
    ensures LastListed(es, m, k) == None <==> forall e :: e in es ==> ReKey(m, e.key) != Some(k)
    ensures LastListed(es, m, k).Some? ==>
              exists e :: e in es && ReKey(m, e.key) == Some(k) && e.value == LastListed(es, m, k).value
  {
    if es != [] {
      var n := |es| - 1;
      LastListedIs(es[..n], m, k);
      assert es == es[..n] + [es[n]];
    }
  }

  // ---------------------------------------------------------------------------------------
  // The levels above
  // ---------------------------------------------------------------------------------------

  /** The parts are those of the entities, in the order in which they are listed. */
  ghost predicate Parsed(ord: Order, m: map<Key, Json>, parts: seq<Part>) {
    && Enumerates(ord) && WellFormedMap(m) && PartsMatch(m, parts)
    && ParseAll(ord.entries(m)) == Some(parts)
  }

  lemma StoreLeaves(ord: Order, m: map<Key, Json>, parts: seq<Part>, k: Key, v: Json)
    requires Parsed(ord, m, parts) && k.IdbRecord? && IdbStore(k.origin, k.db, k.store) in m
    requires LastListed(ord.entries(m), m, k) == Some(v)
    ensures Final(EmitStore(k.origin, k.db, BuildStore(parts, k.origin, k.db, k.store)), k, v)
  {
    var (o, d, s) := (k.origin, k.db, k.store);
    var key, records := IdbStore(o, d, s), Select(RecordOf(o, d, s), parts);
    var store := MetaOf(m, key)["records" := JArray(records)];
    BuiltStore(m, parts, o, d, s);
    RecordsLeave(m, ord.entries(m), o, d, s, store, JArray(records), k);
    FinalAround(Entity(key, m[key]), EmitAll(RecordEmitter(o, d, s, store), records), k, v);
  }

  lemma OtherStoreLeaves(ord: Order, m: map<Key, Json>, parts: seq<Part>, s: string, k: Key, v: Json)
    requires Parsed(ord, m, parts) && k.IdbRecord? && s != k.store && IdbStore(k.origin, k.db, s) in m
    ensures Final(EmitStore(k.origin, k.db, BuildStore(parts, k.origin, k.db, s)), k, v)
  {
    StoreEmits(m, parts, k.origin, k.db, s);
    OtherStore(m, s, k);
    FinalElsewhere(EmitStore(k.origin, k.db, BuildStore(parts, k.origin, k.db, s)), m, OneStore(k.origin, k.db, s),
                   k, v);
  }

  lemma StoresLeave(ord: Order, m: map<Key, Json>, parts: seq<Part>, k: Key, v: Json)
    requires Parsed(ord, m, parts) && k.IdbRecord? && LastListed(ord.entries(m), m, k) == Some(v)
    ensures var names := ord.names(StoreNames(parts, k.origin, k.db));
            Final(EmitAll(StoreEmitter(k.origin, k.db), MapSeq(StoreBuilder(parts, k.origin, k.db), names)), k, v)
  {
    var (o, d) := (k.origin, k.db);
    var names := ord.names(StoreNames(parts, o, d));
    var f := Compose(StoreEmitter(o, d), StoreBuilder(parts, o, d));
    StoreNamesIn(ord, m, parts, o, d);
    forall s | s in names
      ensures Final(f(s), k, v)
    {
      if s == k.store {
        StoreLeaves(ord, m, parts, k, v);
      } else {
        OtherStoreLeaves(ord, m, parts, s, k, v);
      }
    }
    FinalInEach(f, names, k, v);
    EmitAllMapped(StoreEmitter(o, d), StoreBuilder(parts, o, d), names);
  }

  lemma DbLeaves(ord: Order, m: map<Key, Json>, parts: seq<Part>, k: Key, v: Json)
    requires Parsed(ord, m, parts) && k.IdbRecord? && LastListed(ord.entries(m), m, k) == Some(v)
    requires IdbDb(k.origin, k.db) in m
    ensures Final(EmitDb(k.origin, BuildDb(ord, parts, k.origin, k.db)), k, v)
  {
    var (o, d) := (k.origin, k.db);
    var stores := MapSeq(StoreBuilder(parts, o, d), ord.names(StoreNames(parts, o, d)));
    BuiltDb(ord, m, parts, o, d);
    StoresLeave(ord, m, parts, k, v);
    FinalAround(Entity(IdbDb(o, d), m[IdbDb(o, d)]), EmitAll(StoreEmitter(o, d), stores), k, v);
  }

  lemma OtherDbLeaves(ord: Order, m: map<Key, Json>, parts: seq<Part>, d: string, k: Key, v: Json)
    requires Parsed(ord, m, parts) && k.IdbRecord? && d != k.db && IdbDb(k.origin, d) in m
    ensures Final(EmitDb(k.origin, BuildDb(ord, parts, k.origin, d)), k, v)
  {
    DbEmits(ord, m, parts, k.origin, d);
    OtherDb(m, d, k);
    FinalElsewhere(EmitDb(k.origin, BuildDb(ord, parts, k.origin, d)), m, OneDb(k.origin, d), k, v);
  }

  lemma DatabasesLeave(ord: Order, m: map<Key, Json>, parts: seq<Part>, k: Key, v: Json)
    requires Parsed(ord, m, parts) && k.IdbRecord? && LastListed(ord.entries(m), m, k) == Some(v)
    ensures var names := ord.names(DbNames(parts, k.origin));
            Final(EmitAll(DbEmitter(k.origin), MapSeq(DbBuilder(ord, parts, k.origin), names)), k, v)
  {
    var o := k.origin;
    var names := ord.names(DbNames(parts, o));
    var f := Compose(DbEmitter(o), DbBuilder(ord, parts, o));
    DbNamesIn(ord, m, parts, o);
    forall d | d in names
      ensures Final(f(d), k, v)
    {
      if d == k.db {
        DbLeaves(ord, m, parts, k, v);
      } else {
        OtherDbLeaves(ord, m, parts, d, k, v);
      }
    }
    FinalInEach(f, names, k, v);
    EmitAllMapped(DbEmitter(o), DbBuilder(ord, parts, o), names);
  }

  lemma OriginLeaves(ord: Order, m: map<Key, Json>, parts: seq<Part>, k: Key, v: Json)
    requires Parsed(ord, m, parts) && k.IdbRecord? && LastListed(ord.entries(m), m, k) == Some(v)
    requires k.origin != ""
    ensures Final(EmitOrigin(BuildOrigin(ord, parts, k.origin)), k, v)
  {
    var o := k.origin;
    var locals := EmitAll(LocalEmitter(o), Select(ItemOf(o), parts));
    var inside := EmitAll(DbEmitter(o), MapSeq(DbBuilder(ord, parts, o), ord.names(DbNames(parts, o))));
    BuiltOrigin(ord, parts, o);
    ItemsEmit(m, parts, o);
    DatabasesLeave(ord, m, parts, k, v);
    NotARecord(m, o, k);
    NoneThenFinal(locals, inside, m, Items(o), k, v);
  }

  lemma OtherOriginLeaves(ord: Order, m: map<Key, Json>, parts: seq<Part>, o: string, k: Key, v: Json)
    requires Parsed(ord, m, parts) && k.IdbRecord? && o != k.origin && o != ""
    ensures Final(EmitOrigin(BuildOrigin(ord, parts, o)), k, v)
  {
    OriginEmits(ord, m, parts, o);
    OtherOrigin(m, o, k);
    FinalElsewhere(EmitOrigin(BuildOrigin(ord, parts, o)), m, OneOrigin(o), k, v);
  }

  lemma OriginsLeave(ord: Order, m: map<Key, Json>, parts: seq<Part>, k: Key, v: Json)
    requires Parsed(ord, m, parts) && k.IdbRecord? && LastListed(ord.entries(m), m, k) == Some(v)
    ensures Final(EmitAll(EmitOrigin, MapSeq(OriginBuilder(ord, parts), ord.names(OriginNames(parts)))), k, v)
  {
    var names := ord.names(OriginNames(parts));
    var f := Compose(EmitOrigin, OriginBuilder(ord, parts));
    forall o | o in names
      ensures Final(f(o), k, v)
    {
      assert o in OriginNames(parts);
      OriginNameIn(m, parts, o);
      if o == k.origin {
        OriginLeaves(ord, m, parts, k, v);
      } else {
        OtherOriginLeaves(ord, m, parts, o, k, v);
      }
    }
    FinalInEach(f, names, k, v);
    EmitAllMapped(EmitOrigin, OriginBuilder(ord, parts), names);
  }

  lemma NoneThenFinal(a: Option<seq<Entity>>, b: Option<seq<Entity>>, m: map<Key, Json>, left: Scope, k: Key, v: Json)
    requires EmitsExactly(a, m, left) && Elsewhere(m, left, k) && Final(b, k, v)
    ensures Final(if a.Some? && b.Some? then Some(a.value + b.value) else None, k, v)
  {
    if a.Some? && b.Some? {
      NoneElsewhere(a.value, m, left, k);
      LastOfBoth(a.value, b.value, k);
    }
  }

  lemma StateLeaves(ord: Order, m: map<Key, Json>, k: Key, v: Json)
    requires Enumerates(ord) && WellFormedMap(m)
    requires k.IdbRecord? && LastListed(ord.entries(m), m, k) == Some(v)
    ensures Rebuild(ord, m).Some? && Final(EmitState(Rebuild(ord, m).value), k, v)
  {
    var parts := PartsOf(ord, m);
    var cookies := EmitAll(EmitCookie, Select(CookieOf, parts));
    var origins := EmitAll(EmitOrigin, MapSeq(OriginBuilder(ord, parts), ord.names(OriginNames(parts))));
    BuiltState(ord, parts);
    CookiesEmit(m, parts);
    assert Parsed(ord, m, parts);
    OriginsLeave(ord, m, parts, k, v);
    NotARecord(m, "", k);
    NoneThenFinal(cookies, origins, m, Cookies, k, v);
  }

  // ---------------------------------------------------------------------------------------
  // Exactly what is read back
  // ---------------------------------------------------------------------------------------

  /** What a map says under a key once it is rebuilt: nothing without the parents, else the last listed. */
  function Survivor(ord: Order, m: map<Key, Json>, k: Key): Option<Json> {
    if !Retained(m, k) then None
    else if k.IdbRecord? then LastListed(ord.entries(m), m, k)
    else Get(m, k)
  }

  /** A rebuilt state that can be read says under each key what survives there, and nothing else. */
  lemma RebuiltExactly(ord: Order, m: map<Key, Json>, k: Key)
    requires Enumerates(ord) && WellFormedMap(m) && Rebuilt(ord, m).Some?
    ensures Get(Rebuilt(ord, m).value, k) == Survivor(ord, m, k)
  {
    if !k.IdbRecord? {
      RebuiltKeepsAllButRecords(ord, m, k);
    } else {
      RebuiltContents(ord, m);
      RecordIsThere(ord, m, Rebuilt(ord, m).value, k);
      if Survivor(ord, m, k).Some? {
        StateLeaves(ord, m, k, Survivor(ord, m, k).value);
      }
    }
  }

  lemma RecordIsThere(ord: Order, m: map<Key, Json>, r: map<Key, Json>, k: Key)
    requires Enumerates(ord) && Refiled(m, r) && k.IdbRecord?
    ensures k in r <==> Survivor(ord, m, k).Some?
  {
    if k in r {
      RecordCameFrom(ord, m, r, k);
    }
    if Survivor(ord, m, k).Some? {
      LastListedIs(ord.entries(m), m, k);
      var e :| e in ord.entries(m) && ReKey(m, e.key) == Some(k);
      ReKeyStays(m, e.key, k);
      assert Get(m, e.key) == Some(e.value);
    }
  }

  lemma RecordCameFrom(ord: Order, m: map<Key, Json>, r: map<Key, Json>, k: Key)
    requires Enumerates(ord) && Refiled(m, r) && k.IdbRecord? && k in r
    ensures Survivor(ord, m, k).Some?
  {
    LastListedIs(ord.entries(m), m, k);
    var k0 :| Retained(m, k0) && Becomes(m, k0, Entity(k, r[k]));
    ReKeyStays(m, k0, k);
    assert Entity(k0, m[k0]) in ord.entries(m);
  }

  /**
   The parents are there; and of the records with the identity of this one, the last listed is this one or
   equal to it.
   */
  predicate Settles(ord: Order, m: map<Key, Json>, k: Key) {
    && (k in m ==> Retained(m, k))
    && (k.IdbRecord? && Retained(m, k) ==> LastListed(ord.entries(m), m, k) == Get(m, k))
  }

  /** A rebuild keeps what is under a key exactly when it settles there. */
  lemma KeptExactly(ord: Order, m: map<Key, Json>, k: Key)
    requires Enumerates(ord) && WellFormedMap(m) && Rebuilt(ord, m).Some?
    ensures Get(Rebuilt(ord, m).value, k) == Get(m, k) <==> Settles(ord, m, k)
  {
    RebuiltExactly(ord, m, k);
  }

  /** The parents are there, the record re-identifies to its own key, and no other content does. */
  ghost predicate Alone(m: map<Key, Json>, k: Key) {
    && (k in m ==> Retained(m, k) && ReKey(m, k) == Some(k))
    && (Retained(m, k) ==> forall k0 :: k0 in m && ReKey(m, k0) == Some(k) ==> Get(m, k) == Some(m[k0]))
  }

  /** That is when an entity settles whatever the order in which entities are listed. */
  lemma SettlesInEveryOrder(ord: Order, m: map<Key, Json>, k: Key)
    requires Enumerates(ord)
    ensures (forall o :: Enumerates(o) ==> Settles(o, m, k)) <==> Alone(m, k)
  {
    if Alone(m, k) {
      forall o | Enumerates(o)
        ensures Settles(o, m, k)
      {
        AloneSettles(o, m, k);
      }
    } else if Settles(ord, m, k) {
      SettledIsFirst(ord, m, k);
      var k0 :| k0 in m && ReKey(m, k0) == Some(k) && Get(m, k) != Some(m[k0]);
      ListedLastWins(ord, m, k0, k);
      assert !Settles(ListingLast(ord, Entity(k0, m[k0])), m, k);
    }
  }

  lemma AloneSettles(ord: Order, m: map<Key, Json>, k: Key)
    requires Enumerates(ord) && Alone(m, k)
    ensures Settles(ord, m, k)
  {
    LastListedIs(ord.entries(m), m, k);
    if k in m {
      assert Entity(k, m[k]) in ord.entries(m);
    }
  }

  lemma SettledIsFirst(ord: Order, m: map<Key, Json>, k: Key)
    requires Enumerates(ord) && Settles(ord, m, k)
    ensures k in m ==> Retained(m, k) && ReKey(m, k) == Some(k)
  {
    LastListedIs(ord.entries(m), m, k);
    if k in m && k.IdbRecord? {
      var e :| e in ord.entries(m) && ReKey(m, e.key) == Some(k) && e.value == m[k];
      ReKeyIsInjectiveOnValues(m, k, e.key);
    }
  }

  /** An order that lists one entity once more, at the end. */
  function ListingLast(ord: Order, e: Entity): Order {
    Order(m => if Get(m, e.key) == Some(e.value) then ord.entries(m) + [e] else ord.entries(m), ord.names, ord.stamps)
  }

  lemma ListedLastWins(ord: Order, m: map<Key, Json>, k0: Key, k: Key)
    requires Enumerates(ord) && k0 in m && ReKey(m, k0) == Some(k)
    ensures Enumerates(ListingLast(ord, Entity(k0, m[k0])))
    ensures LastListed(ListingLast(ord, Entity(k0, m[k0])).entries(m), m, k) == Some(m[k0])
  {
  }
}
