/** A rebuilt state lists each retained entity once, in the fields that a storage state has. */
module IdentityOnce {
  import opened Common
  import opened Sorting
  import opened IdentityState
  import opened IdentityEntities
  import opened IdentityRoundTrip
  import opened IdentityLaws
  import opened IdentityListing

  /** Ordered maps and sets list everything once. */
  ghost predicate ListsOnce(ord: Order) {
    && Enumerates(ord)
    && (forall m :: Distinct(ord.entries(m)))
    && (forall s :: Distinct(ord.names(s)))
  }

  function Held(m: map<Key, Json>, scope: Scope): set<Key> {
    set k | k in m && Holds(m, scope, k)
  }

  // ---------------------------------------------------------------------------------------
  // Counting lists
  // ---------------------------------------------------------------------------------------

  lemma {:induction false} LengthOfEach<A, B>(f: A -> seq<B>, xs: seq<A>)
    requires forall x :: x in xs ==> |f(x)| == 1
    ensures |FlatMap(f, xs)| == |xs|
  {
    if xs != [] {
      LengthOfEach(f, xs[..|xs| - 1]);
    }
  }

  lemma {:induction false} FlatMapMapped<A, B, C>(f: B -> seq<C>, g: A -> B, xs: seq<A>)
    ensures FlatMap(f, MapSeq(g, xs)) == FlatMap(Compose(f, g), xs)
  {
    if xs != [] {
      var n := |xs| - 1;
      FlatMapMapped(f, g, xs[..n]);
      assert MapSeq(g, xs)[..n] == MapSeq(g, xs[..n]);
    }
  }

  /** The keys of the listed entities whose parts are selected. */
  function KeysWith<T>(f: Part -> Option<T>, es: seq<Entity>): set<Key> {
    set e | e in es && Parse(e).Some? && f(Parse(e).value).Some? :: e.key
  }

  lemma {:induction false} SelectCounts<T>(m: map<Key, Json>, es: seq<Entity>, parts: seq<Part>, f: Part -> Option<T>)
    requires Distinct(es) && (forall e :: e in es ==> Get(m, e.key) == Some(e.value)) && ParseAll(es) == Some(parts)
    ensures |Select(f, parts)| == |KeysWith(f, es)|
  {
    if es != [] {
      var (n, last) := (|es| - 1, es[|es| - 1]);
      var before := ParseAll(es[..n]).value;
      assert parts == before + [Parse(last).value] && parts[..|parts| - 1] == before;
      SelectCounts(m, es[..n], before, f);
      OneMoreKey(m, es, f);
    }
  }

  lemma OneMoreKey<T>(m: map<Key, Json>, es: seq<Entity>, f: Part -> Option<T>)
    requires es != [] && Distinct(es) && (forall e :: e in es ==> Get(m, e.key) == Some(e.value))
    ensures var last := es[|es| - 1];
            var before := KeysWith(f, es[..|es| - 1]);
            if Parse(last).Some? && f(Parse(last).value).Some?
            then last.key !in before && KeysWith(f, es) == before + {last.key}
            else KeysWith(f, es) == before
  {
    var (n, last) := (|es| - 1, es[|es| - 1]);
    assert es == es[..n] + [last];
    forall e | e in es[..n]
      ensures e.key != last.key
    {
      assert Get(m, e.key) == Some(e.value) && Get(m, last.key) == Some(last.value);
    }
  }

  lemma CountBoth(m: map<Key, Json>, left: Scope, right: Scope, both: Scope)
    requires Joins(m, left, right, both) && Held(m, left) !! Held(m, right)
    ensures |Held(m, both)| == |Held(m, left)| + |Held(m, right)|
  {
    HeldBoth(m, left, right, both);
  }

  lemma HeldBoth(m: map<Key, Json>, left: Scope, right: Scope, both: Scope)
    requires Joins(m, left, right, both)
    ensures Held(m, both) == Held(m, left) + Held(m, right)
  {
  }

  ghost function HeldInEach<A(!new)>(m: map<Key, Json>, scopeOf: A -> Scope, xs: seq<A>): set<Key> {
    set k | k in m && exists x :: x in xs && Holds(m, scopeOf(x), k)
  }

  ghost predicate Apart<A(!new)>(m: map<Key, Json>, scopeOf: A -> Scope, xs: seq<A>) {
    forall x, y, k :: x in xs && y in xs && Holds(m, scopeOf(x), k) && Holds(m, scopeOf(y), k) ==> x == y
  }

  lemma {:induction false} CountEach<A(!new)>(m: map<Key, Json>, f: A -> seq<Item>, scopeOf: A -> Scope, xs: seq<A>)
    requires Distinct(xs) && Apart(m, scopeOf, xs)
    requires forall x :: x in xs ==> |f(x)| == |Held(m, scopeOf(x))|
    ensures |FlatMap(f, xs)| == |HeldInEach(m, scopeOf, xs)|
  {
    if xs == [] {
      assert HeldInEach(m, scopeOf, xs) == {};
    } else {
      var (n, last) := (|xs| - 1, xs[|xs| - 1]);
      assert xs == xs[..n] + [last];
      CountEach(m, f, scopeOf, xs[..n]);
      OneMoreScope(m, scopeOf, xs);
    }
  }

  lemma OneMoreScope<A(!new)>(m: map<Key, Json>, scopeOf: A -> Scope, xs: seq<A>)
    requires xs != [] && Distinct(xs) && Apart(m, scopeOf, xs)
    ensures var last := xs[|xs| - 1];
            && HeldInEach(m, scopeOf, xs[..|xs| - 1]) !! Held(m, scopeOf(last))
            && HeldInEach(m, scopeOf, xs) == HeldInEach(m, scopeOf, xs[..|xs| - 1]) + Held(m, scopeOf(last))
  {
    var (n, last) := (|xs| - 1, xs[|xs| - 1]);
    assert xs == xs[..n] + [last];
    forall x | x in xs[..n]
      ensures x != last
    {
    }
  }

  lemma CountCovered<A(!new)>(m: map<Key, Json>, f: A -> seq<Item>, scopeOf: A -> Scope, xs: seq<A>, all: Scope)
    requires Distinct(xs) && Apart(m, scopeOf, xs) && Cover(xs, m, scopeOf, all)
    requires forall x :: x in xs ==> |f(x)| == |Held(m, scopeOf(x))|
    ensures |FlatMap(f, xs)| == |Held(m, all)|
  {
    CountEach(m, f, scopeOf, xs);
    assert HeldInEach(m, scopeOf, xs) == Held(m, all);
  }

  // ---------------------------------------------------------------------------------------
  // Level by level
  // ---------------------------------------------------------------------------------------

  ghost predicate Listed(ord: Order, m: map<Key, Json>, parts: seq<Part>) {
    ListsOnce(ord) && WellFormedMap(m) && PartsMatch(m, parts) && ParseAll(ord.entries(m)) == Some(parts)
  }

  lemma ListedCounts<T>(ord: Order, m: map<Key, Json>, parts: seq<Part>, f: Part -> Option<T>, scope: Scope)
    requires Listed(ord, m, parts)
    requires forall k :: k in m ==>
               (Holds(m, scope, k) <==> Parse(Entity(k, m[k])).Some? && f(Parse(Entity(k, m[k])).value).Some?)
    ensures |Select(f, parts)| == |Held(m, scope)|
  {
    var es := ord.entries(m);
    SelectCounts(m, es, parts, f);
    forall k
      ensures k in KeysWith(f, es) <==> k in Held(m, scope)
    {
      if k in m {
        assert Entity(k, m[k]) in es;
      }
    }
    assert KeysWith(f, es) == Held(m, scope);
  }

  lemma RecordsCount(ord: Order, m: map<Key, Json>, parts: seq<Part>, o: string, d: string, s: string)
    requires Listed(ord, m, parts)
    ensures |Select(RecordOf(o, d, s), parts)| == |Held(m, Records(o, d, s))|
  {
    forall k | k in m
      ensures Holds(m, Records(o, d, s), k)
              <==> Parse(Entity(k, m[k])).Some? && RecordOf(o, d, s)(Parse(Entity(k, m[k])).value).Some?
    {
      RecordIsSelected(m, o, d, s, k);
    }
    ListedCounts(ord, m, parts, RecordOf(o, d, s), Records(o, d, s));
  }

  lemma RecordIsSelected(m: map<Key, Json>, o: string, d: string, s: string, k: Key)
    requires WellFormedMap(m) && k in m
    ensures Holds(m, Records(o, d, s), k)
            <==> Parse(Entity(k, m[k])).Some? && RecordOf(o, d, s)(Parse(Entity(k, m[k])).value).Some?
  {
    ParseWellFormed(Entity(k, m[k]));
    if k.IdbRecord? {
      var r :| m[k] == RecordValue(k.origin, k.db, k.store, r);
      ParseRecord(k.origin, k.db, k.store, k.identity, r);
    }
  }

  lemma HeldAlone(m: map<Key, Json>, k: Key)
    requires k in m
    ensures |Held(m, Single(k))| == 1
  {
    assert Held(m, Single(k)) == {k};
  }

  lemma StoreIsApart(m: map<Key, Json>, o: string, d: string, s: string)
    ensures Held(m, Single(IdbStore(o, d, s))) !! Held(m, Records(o, d, s))
  {
  }

  lemma DbIsApart(m: map<Key, Json>, o: string, d: string)
    ensures Held(m, Single(IdbDb(o, d))) !! Held(m, Stores(o, d))
  {
  }

  lemma LocalsAreApart(m: map<Key, Json>, o: string)
    ensures Held(m, Items(o)) !! Held(m, Dbs(o))
  {
  }

  lemma CookiesAreApart(m: map<Key, Json>)
    ensures Held(m, Cookies) !! Held(m, Origins)
  {
  }

  lemma ItemsInStore(parts: seq<Part>, o: string, d: string, s: string)
    ensures |ItemsOfStore(o, d)(BuildStore(parts, o, d, s))| == 1 + |Select(RecordOf(o, d, s), parts)|
  {
    var (fields, records) := (FieldsOf(BuildStore(parts, o, d, s)), Select(RecordOf(o, d, s), parts));
    assert ItemsAt(fields, "records") == records;
    LengthOfEach(ItemsOfRecord(o, d, fields), records);
  }

  lemma StoreCounts(ord: Order, m: map<Key, Json>, parts: seq<Part>, o: string, d: string, s: string)
    requires Listed(ord, m, parts) && IdbStore(o, d, s) in m
    ensures |ItemsOfStore(o, d)(BuildStore(parts, o, d, s))| == |Held(m, OneStore(o, d, s))|
  {
    ItemsInStore(parts, o, d, s);
    RecordsCount(ord, m, parts, o, d, s);
    StoreJoins(m, o, d, s);
    HeldAlone(m, IdbStore(o, d, s));
    StoreIsApart(m, o, d, s);
    CountBoth(m, Single(IdbStore(o, d, s)), Records(o, d, s), OneStore(o, d, s));
  }

  lemma StoresApart(m: map<Key, Json>, o: string, d: string, names: seq<string>)
    ensures Apart(m, StoreScope(o, d), names)
  {
  }

  lemma StoresCount(ord: Order, m: map<Key, Json>, parts: seq<Part>, o: string, d: string)
    requires Listed(ord, m, parts)
    ensures var stores := MapSeq(StoreBuilder(parts, o, d), ord.names(StoreNames(parts, o, d)));
            |FlatMap(ItemsOfStore(o, d), stores)| == |Held(m, Stores(o, d))|
  {
    var names := ord.names(StoreNames(parts, o, d));
    var f := Compose(ItemsOfStore(o, d), StoreBuilder(parts, o, d));
    StoreNamesIn(ord, m, parts, o, d);
    forall s | s in names
      ensures |f(s)| == |Held(m, StoreScope(o, d)(s))|
    {
      StoreCounts(ord, m, parts, o, d, s);
    }
    StoresCover(m, names, o, d);
    StoresApart(m, o, d, names);
    CountCovered(m, f, StoreScope(o, d), names, Stores(o, d));
    FlatMapMapped(ItemsOfStore(o, d), StoreBuilder(parts, o, d), names);
  }

  lemma ItemsInDb(ord: Order, m: map<Key, Json>, parts: seq<Part>, o: string, d: string)
    requires WellFormedMap(m) && PartsMatch(m, parts) && IdbDb(o, d) in m
    ensures var stores := MapSeq(StoreBuilder(parts, o, d), ord.names(StoreNames(parts, o, d)));
            |ItemsOfDb(o)(BuildDb(ord, parts, o, d))| == 1 + |FlatMap(ItemsOfStore(o, d), stores)|
  {
    DbArrays(ord, m, parts, o, d);
  }

  lemma DbArrays(ord: Order, m: map<Key, Json>, parts: seq<Part>, o: string, d: string)
    requires WellFormedMap(m) && PartsMatch(m, parts) && IdbDb(o, d) in m
    ensures var fields := FieldsOf(BuildDb(ord, parts, o, d));
            && TextAt(fields, "name") == d
            && ItemsAt(fields, "stores") == MapSeq(StoreBuilder(parts, o, d), ord.names(StoreNames(parts, o, d)))
  {
    DbMetaIs(m, parts, o, d);
    TextIs(MetaOf(m, IdbDb(o, d)), "name");
  }

  lemma DbCounts(ord: Order, m: map<Key, Json>, parts: seq<Part>, o: string, d: string)
    requires Listed(ord, m, parts) && IdbDb(o, d) in m
    ensures |ItemsOfDb(o)(BuildDb(ord, parts, o, d))| == |Held(m, OneDb(o, d))|
  {
    ItemsInDb(ord, m, parts, o, d);
    StoresCount(ord, m, parts, o, d);
    DbJoins(m, o, d);
    HeldAlone(m, IdbDb(o, d));
    DbIsApart(m, o, d);
    CountBoth(m, Single(IdbDb(o, d)), Stores(o, d), OneDb(o, d));
  }

  lemma DbsApart(m: map<Key, Json>, o: string, names: seq<string>)
    ensures Apart(m, DbScope(o), names)
  {
  }

  lemma DatabasesCount(ord: Order, m: map<Key, Json>, parts: seq<Part>, o: string)
    requires Listed(ord, m, parts)
    ensures var databases := MapSeq(DbBuilder(ord, parts, o), ord.names(DbNames(parts, o)));
            |FlatMap(ItemsOfDb(o), databases)| == |Held(m, Dbs(o))|
  {
    var names := ord.names(DbNames(parts, o));
    var f := Compose(ItemsOfDb(o), DbBuilder(ord, parts, o));
    DbNamesIn(ord, m, parts, o);
    forall d | d in names
      ensures |f(d)| == |Held(m, DbScope(o)(d))|
    {
      DbCounts(ord, m, parts, o, d);
    }
    DatabasesCover(m, names, o);
    DbsApart(m, o, names);
    CountCovered(m, f, DbScope(o), names, Dbs(o));
    FlatMapMapped(ItemsOfDb(o), DbBuilder(ord, parts, o), names);
  }

  lemma ItemIsSelected(m: map<Key, Json>, o: string, k: Key)
    requires WellFormedMap(m) && k in m
    ensures Holds(m, Items(o), k)
            <==> Parse(Entity(k, m[k])).Some? && ItemOf(o)(Parse(Entity(k, m[k])).value).Some?
  {
    ParseWellFormed(Entity(k, m[k]));
  }

  lemma ItemsInOrigin(ord: Order, parts: seq<Part>, o: string)
    ensures var databases := MapSeq(DbBuilder(ord, parts, o), ord.names(DbNames(parts, o)));
            |ItemsOfOrigin()(BuildOrigin(ord, parts, o))|
            == |Select(ItemOf(o), parts)| + |FlatMap(ItemsOfDb(o), databases)|
  {
    OriginArrays(ord, parts, o);
    LengthOfEach(ItemsOfLocal(o), Select(ItemOf(o), parts));
  }

  lemma OriginArrays(ord: Order, parts: seq<Part>, o: string)
    ensures var fields := FieldsOf(BuildOrigin(ord, parts, o));
            && TextAt(fields, "origin") == o && ItemsAt(fields, "localStorage") == Select(ItemOf(o), parts)
            && ItemsAt(fields, "indexedDB") == MapSeq(DbBuilder(ord, parts, o), ord.names(DbNames(parts, o)))
  {
  }

  lemma OriginCounts(ord: Order, m: map<Key, Json>, parts: seq<Part>, o: string)
    requires Listed(ord, m, parts)
    ensures |ItemsOfOrigin()(BuildOrigin(ord, parts, o))| == |Held(m, OneOrigin(o))|
  {
    ItemsInOrigin(ord, parts, o);
    ItemsCount(ord, m, parts, o);
    DatabasesCount(ord, m, parts, o);
    OriginJoins(m, o);
    LocalsAreApart(m, o);
    CountBoth(m, Items(o), Dbs(o), OneOrigin(o));
  }

  lemma ItemsCount(ord: Order, m: map<Key, Json>, parts: seq<Part>, o: string)
    requires Listed(ord, m, parts)
    ensures |Select(ItemOf(o), parts)| == |Held(m, Items(o))|
  {
    forall k | k in m
      ensures Holds(m, Items(o), k)
              <==> Parse(Entity(k, m[k])).Some? && ItemOf(o)(Parse(Entity(k, m[k])).value).Some?
    {
      ItemIsSelected(m, o, k);
    }
    ListedCounts(ord, m, parts, ItemOf(o), Items(o));
  }

  lemma OriginsApart(m: map<Key, Json>, names: seq<string>)
    ensures Apart(m, OriginScope(), names)
  {
  }

  lemma OriginsCount(ord: Order, m: map<Key, Json>, parts: seq<Part>)
    requires Listed(ord, m, parts)
    ensures var origins := MapSeq(OriginBuilder(ord, parts), ord.names(OriginNames(parts)));
            |FlatMap(ItemsOfOrigin(), origins)| == |Held(m, Origins)|
  {
    var names := ord.names(OriginNames(parts));
    var f := Compose(ItemsOfOrigin(), OriginBuilder(ord, parts));
    OriginNamesIn(ord, m, parts);
    forall o | o in names
      ensures |f(o)| == |Held(m, OriginScope()(o))|
    {
      OriginCounts(ord, m, parts, o);
    }
    OriginsCover(m, names);
    OriginsApart(m, names);
    CountCovered(m, f, OriginScope(), names, Origins);
    FlatMapMapped(ItemsOfOrigin(), OriginBuilder(ord, parts), names);
  }

  lemma CookieIsSelected(m: map<Key, Json>, k: Key)
    requires WellFormedMap(m) && k in m
    ensures Holds(m, Cookies, k) <==> Parse(Entity(k, m[k])).Some? && CookieOf(Parse(Entity(k, m[k])).value).Some?
  {
    ParseWellFormed(Entity(k, m[k]));
  }

  lemma CookiesCount(ord: Order, m: map<Key, Json>, parts: seq<Part>)
    requires Listed(ord, m, parts)
    ensures |Select(CookieOf, parts)| == |Held(m, Cookies)|
  {
    forall k | k in m
      ensures Holds(m, Cookies, k) <==> Parse(Entity(k, m[k])).Some? && CookieOf(Parse(Entity(k, m[k])).value).Some?
    {
      CookieIsSelected(m, k);
    }
    ListedCounts(ord, m, parts, CookieOf, Cookies);
  }

  lemma ItemsInState(ord: Order, parts: seq<Part>)
    ensures var origins := MapSeq(OriginBuilder(ord, parts), ord.names(OriginNames(parts)));
            |Listing(BuildState(ord, parts))| == |Select(CookieOf, parts)| + |FlatMap(ItemsOfOrigin(), origins)|
  {
    StateArrays(ord, parts);
    LengthOfEach(ItemsOfCookie(), Select(CookieOf, parts));
  }

  lemma StateArrays(ord: Order, parts: seq<Part>)
    ensures var fields := FieldsOf(BuildState(ord, parts));
            && ItemsAt(fields, "cookies") == Select(CookieOf, parts)
            && ItemsAt(fields, "origins") == MapSeq(OriginBuilder(ord, parts), ord.names(OriginNames(parts)))
  {
  }

  /** A rebuilt state lists as many things as there are entities whose parents are there: none twice, none else. */
  lemma RebuiltListsOnce(ord: Order, m: map<Key, Json>)
    requires ListsOnce(ord) && WellFormedMap(m)
    ensures Rebuild(ord, m).Some? && |Listing(Rebuild(ord, m).value)| == |Closure(m)|
  {
    var parts := PartsOf(ord, m);
    ItemsInState(ord, parts);
    CookiesCount(ord, m, parts);
    OriginsCount(ord, m, parts);
    StateJoins(m);
    CookiesAreApart(m);
    CountBoth(m, Cookies, Origins, Whole);
    ClosureIsHeld(m);
  }

  lemma ClosureIsHeld(m: map<Key, Json>)
    ensures |Closure(m)| == |Held(m, Whole)|
  {
    assert Closure(m).Keys == Held(m, Whole);
  }

  // ---------------------------------------------------------------------------------------
  // The fields
  // ---------------------------------------------------------------------------------------

  predicate HasJust(v: Json, fields: set<string>) {
    v.JObject? && v.fields.Keys == fields
  }

  /** A rebuilt state and its origins have the fields of a storage state and no others. */
  lemma RebuiltHasJust(ord: Order, m: map<Key, Json>, i: nat)
    requires Enumerates(ord) && WellFormedMap(m)
    ensures Rebuild(ord, m).Some? && HasJust(Rebuild(ord, m).value, {"cookies", "origins"})
    ensures var origins := ItemsAt(FieldsOf(Rebuild(ord, m).value), "origins");
            i < |origins| ==> HasJust(origins[i], {"origin", "localStorage", "indexedDB"})
  {
    var parts := PartsOf(ord, m);
  }
}
