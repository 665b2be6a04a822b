/** Which entities share a key: cookies, their partitions, and the records of a store. */
module IdentityKeys {
  import opened Common
  import opened IdentityState
  import opened IdentityMerge

  // ---------------------------------------------------------------------------------------
  // Cookies
  // ---------------------------------------------------------------------------------------

  datatype Partition = Unpartitioned | Partitioned(key: string, crossSite: bool)

  /** Without an explicit `false`, a partitioned cookie has a cross-site ancestor. */
  function PartitionOf(c: Object): Partition {
    match RequiredString(c, "partitionKey")
    case None => Unpartitioned
    case Some(key) => Partitioned(key, Get(c, "_crHasCrossSiteAncestor") != Some(JBool(false)))
  }

  /** The same cookie but for its partition. */
  predicate SameFamily(a: Object, b: Object) {
    && RequiredString(a, "name") == RequiredString(b, "name")
    && RequiredString(a, "domain") == RequiredString(b, "domain")
    && RequiredString(a, "path") == RequiredString(b, "path")
  }

  function Family(c: Object): Option<seq<string>> {
    var name :- RequiredString(c, "name");
    var domain :- RequiredString(c, "domain");
    var path :- RequiredString(c, "path");
    Some([name, domain, path])
  }

  lemma FamilyIs(a: Object, b: Object)
    requires Family(a).Some? && Family(b).Some?
    ensures Family(a) == Family(b) <==> SameFamily(a, b)
  {
    var (x, y) := (Family(a).value, Family(b).value);
    assert x == y <==> x[0] == y[0] && x[1] == y[1] && x[2] == y[2];
  }

  function Tail(p: Partition): seq<string> {
    match p
    case Unpartitioned => []
    case Partitioned(key, crossSite) => [key, if crossSite then "true" else "false"]
  }

  lemma TailInjective(p: Partition, q: Partition)
    ensures Tail(p) == Tail(q) <==> p == q
  {
    assert |"true"| != |"false"|;
    if p.Partitioned? && q.Partitioned? && Tail(p) == Tail(q) {
      assert Tail(p)[0] == Tail(q)[0] && Tail(p)[1] == Tail(q)[1];
    }
  }

  lemma CookieKeyIs(c: Object)
    ensures CookieKey(c) == if Family(c).Some? then Some(Cookie(Family(c).value + Tail(PartitionOf(c)))) else None
  {
    if Family(c).Some? {
      var (f, tail) := (Family(c).value, Tail(PartitionOf(c)));
      assert tail == [] ==> f + tail == f;
      assert |tail| == 2 ==> f + tail == [f[0], f[1], f[2], tail[0], tail[1]];
    }
  }

  /** Cookies share a key exactly when they are the same cookie in the same partition with the same ancestor bit. */
  lemma CookieKeyExactly(a: Object, b: Object)
    requires CookieKey(a).Some? && CookieKey(b).Some?
    ensures CookieKey(a) == CookieKey(b) <==> SameFamily(a, b) && PartitionOf(a) == PartitionOf(b)
  {
    CookieKeyIs(a);
    CookieKeyIs(b);
    FamilyIs(a, b);
    TailInjective(PartitionOf(a), PartitionOf(b));
    var (x, y) := (CookieKey(a).value.segments, CookieKey(b).value.segments);
    assert x[..3] == Family(a).value && x[3..] == Tail(PartitionOf(a));
    assert y[..3] == Family(b).value && y[3..] == Tail(PartitionOf(b));
  }

  /** They share a legacy fence exactly when they are the same cookie in any partitions. */
  lemma LegacyFenceExactly(a: Object, b: Object)
    requires CookieKey(a).Some? && CookieKey(b).Some?
    ensures LegacyFence(CookieKey(a).value) == LegacyFence(CookieKey(b).value) <==> SameFamily(a, b)
  {
    CookieKeyIs(a);
    CookieKeyIs(b);
    FamilyIs(a, b);
    FenceIsFamily(a);
    FenceIsFamily(b);
  }

  lemma FenceIsFamily(c: Object)
    requires CookieKey(c).Some?
    ensures Family(c).Some? && LegacyFence(CookieKey(c).value) == Some(LegacyCookie(Family(c).value))
  {
    CookieKeyIs(c);
    var segments := CookieKey(c).value.segments;
    assert segments[..3] == Family(c).value;
    if |segments| == 3 {
      assert segments == Family(c).value;
    }
  }

  // ---------------------------------------------------------------------------------------
  // Records
  // ---------------------------------------------------------------------------------------

  function PlainLookup(v: Json): seq<string> -> Option<Json> {
    (path: seq<string>) => PlainAt(v, path)
  }

  function EncodedLookup(v: Json): seq<string> -> Option<Json> {
    (path: seq<string>) => EncodedAt(v, path)
  }

  lemma {:induction false} SameInlineKeys(paths: seq<string>, f: seq<string> -> Option<Json>,
                                          g: seq<string> -> Option<Json>)
    requires forall p :: p in paths ==> f(SplitDots(p)) == g(SplitDots(p))
    ensures InlineKeys(paths, f) == InlineKeys(paths, g)
  {
    if paths != [] {
      SameInlineKeys(paths[1..], f, g);
      assert paths[0] in paths;
    }
  }

  /** The records agree on everything that their store's key paths read. */
  ghost predicate SameAtKeyPaths(store: Object, a: Object, b: Object) {
    && Get(a, "key") == Get(b, "key") && Get(a, "keyEncoded") == Get(b, "keyEncoded")
    && ("value" in a <==> "value" in b) && ("valueEncoded" in a <==> "valueEncoded" in b)
    && (KeyPaths(store).Some? ==> forall p :: p in KeyPaths(store).value ==>
          && ("value" in a ==> PlainAt(a["value"], SplitDots(p)) == PlainAt(b["value"], SplitDots(p)))
          && ("valueEncoded" in a
             ==> EncodedAt(a["valueEncoded"], SplitDots(p)) == EncodedAt(b["valueEncoded"], SplitDots(p))))
  }

  lemma IdentityOf(store: Object, r: Object)
    requires "key" !in r && "keyEncoded" !in r && KeyPaths(store).Some?
    ensures RecordIdentity(store, JObject(r)) == IdentityFrom(
              if "value" in r then InlineKeys(KeyPaths(store).value, PlainLookup(r["value"]))
              else if "valueEncoded" in r then InlineKeys(KeyPaths(store).value, EncodedLookup(r["valueEncoded"]))
              else None)
  {
    var paths := KeyPaths(store).value;
    if "value" in r {
      SameInlineKeys(paths, PlainLookup(r["value"]), path => PlainAt(JObject(r).fields["value"], path));
    } else if "valueEncoded" in r {
      SameInlineKeys(paths, EncodedLookup(r["valueEncoded"]),
                     path => EncodedAt(JObject(r).fields["valueEncoded"], path));
    }
  }

  function IdentityFrom(keys: Option<seq<Json>>): Option<Json> {
    var ks :- keys;
    Some(if |ks| == 1 then ks[0] else JArray(ks))
  }

  /** An update that touches nothing under the key paths keeps the record's identity, and so its key. */
  lemma IdentityIgnoresNonKeyUpdates(store: Object, a: Object, b: Object)
    requires SameAtKeyPaths(store, a, b)
    ensures RecordIdentity(store, JObject(a)) == RecordIdentity(store, JObject(b))
  {
    if "key" !in a && "keyEncoded" !in a && KeyPaths(store).Some? {
      IdentityOf(store, a);
      IdentityOf(store, b);
      if "value" in a {
        SameInlineKeys(KeyPaths(store).value, PlainLookup(a["value"]), PlainLookup(b["value"]));
      } else if "valueEncoded" in a {
        SameInlineKeys(KeyPaths(store).value, EncodedLookup(a["valueEncoded"]), EncodedLookup(b["valueEncoded"]));
      }
    }
  }

  /** A single inline key is the identity itself; several make an array in the order of the paths. */
  lemma InlineIdentity(store: Object, r: Object, i: nat)
    requires "key" !in r && "keyEncoded" !in r && KeyPaths(store).Some? && "value" in r
    requires RecordIdentity(store, JObject(r)).Some? && i < |KeyPaths(store).value|
    ensures var (paths, id) := (KeyPaths(store).value, RecordIdentity(store, JObject(r)).value);
            if |paths| == 1 then PlainAt(r["value"], SplitDots(paths[0])) == Some(id)
            else id.JArray? && |id.items| == |paths| && PlainAt(r["value"], SplitDots(paths[i])) == Some(id.items[i])
  {
    IdentityOf(store, r);
    InlineKeysAt(KeyPaths(store).value, PlainLookup(r["value"]), i);
    InlineKeysAt(KeyPaths(store).value, PlainLookup(r["value"]), 0);
  }

  lemma {:induction false} InlineKeysAt(paths: seq<string>, f: seq<string> -> Option<Json>, i: nat)
    requires InlineKeys(paths, f).Some? && i < |paths|
    ensures |InlineKeys(paths, f).value| == |paths| && f(SplitDots(paths[i])) == Some(InlineKeys(paths, f).value[i])
  {
    if i > 0 {
      InlineKeysAt(paths[1..], f, i - 1);
    } else {
      InlineKeysLength(paths, f);
    }
  }

  lemma {:induction false} InlineKeysLength(paths: seq<string>, f: seq<string> -> Option<Json>)
    requires InlineKeys(paths, f).Some?
    ensures |InlineKeys(paths, f).value| == |paths|
  {
    if paths != [] {
      InlineKeysLength(paths[1..], f);
    }
  }

  // ---------------------------------------------------------------------------------------
  // What identifies a record
  // ---------------------------------------------------------------------------------------

  /** The store's key paths: its array of paths if it has one, else its single path; none is empty. */
  ghost predicate HasKeyPaths(store: Object, paths: seq<string>) {
    if "keyPathArray" in store && store["keyPathArray"].JArray? then
      var items := store["keyPathArray"].items;
      |items| == |paths| && forall i :: 0 <= i < |paths| ==> paths[i] != "" && items[i] == JString(paths[i])
    else
      |paths| == 1 && paths[0] != "" && Get(store, "keyPath") == Some(JString(paths[0]))
  }

  /** What a record has under a path of its value. */
  function ValueAt(r: Object, path: string): Option<Json> {
    if "value" in r then PlainAt(r["value"], SplitDots(path))
    else if "valueEncoded" in r then EncodedAt(r["valueEncoded"], SplitDots(path))
    else None
  }

  /** Its own key identifies a record, else its own encoded key, else what it has under the key paths. */
  ghost predicate Identifies(store: Object, record: Json, j: Json) {
    && record.JObject?
    && var r := record.fields;
       && ("key" in r ==> j == r["key"])
       && ("key" !in r && "keyEncoded" in r ==> j == r["keyEncoded"])
       && ("key" !in r && "keyEncoded" !in r ==> ("value" in r || "valueEncoded" in r) && InlineKeyed(store, r, j))
  }

  ghost predicate InlineKeyed(store: Object, r: Object, j: Json) {
    exists paths :: HasKeyPaths(store, paths) && IsInlineKey(r, paths, j)
  }

  ghost predicate IsInlineKey(r: Object, paths: seq<string>, j: Json) {
    if |paths| == 1 then ValueAt(r, paths[0]) == Some(j)
    else
      j.JArray? && |j.items| == |paths|
      && forall i :: 0 <= i < |paths| ==> ValueAt(r, paths[i]) == Some(j.items[i])
  }

  lemma {:induction false} NonEmptyStringsExactly(items: seq<Json>, paths: seq<string>)
    ensures NonEmptyStrings(items) == Some(paths)
            <==> |items| == |paths| && forall i :: 0 <= i < |paths| ==> paths[i] != "" && items[i] == JString(paths[i])
  {
    if items != [] && paths != [] {
      NonEmptyStringsExactly(items[1..], paths[1..]);
      assert items == [items[0]] + items[1..] && paths == [paths[0]] + paths[1..];
      assert NonEmptyStrings(items) == Some(paths) <==>
             items[0] == JString(paths[0]) && paths[0] != "" && NonEmptyStrings(items[1..]) == Some(paths[1..]);
    }
  }

  lemma KeyPathsExactly(store: Object, paths: seq<string>)
    ensures KeyPaths(store) == Some(paths) <==> HasKeyPaths(store, paths)
  {
    if "keyPathArray" in store && store["keyPathArray"].JArray? {
      NonEmptyStringsExactly(store["keyPathArray"].items, paths);
    } else {
      assert |paths| == 1 ==> paths == [paths[0]];
    }
  }

  lemma {:induction false} InlineKeysExactly(paths: seq<string>, f: seq<string> -> Option<Json>, keys: seq<Json>)
    ensures InlineKeys(paths, f) == Some(keys)
            <==> |keys| == |paths| && forall i :: 0 <= i < |paths| ==> f(SplitDots(paths[i])) == Some(keys[i])
  {
    if paths != [] && keys != [] {
      InlineKeysExactly(paths[1..], f, keys[1..]);
      assert keys == [keys[0]] + keys[1..];
      assert InlineKeys(paths, f) == Some(keys) <==>
             f(SplitDots(paths[0])) == Some(keys[0]) && InlineKeys(paths[1..], f) == Some(keys[1..]);
    }
  }

  function Lookup(r: Object): seq<string> -> Option<Json> {
    (path: seq<string>) =>
      if "value" in r then PlainAt(r["value"], path)
      else if "valueEncoded" in r then EncodedAt(r["valueEncoded"], path)
      else None
  }

  lemma InlineIs(r: Object, paths: seq<string>, j: Json)
    ensures IdentityFrom(InlineKeys(paths, Lookup(r))) == Some(j) <==> IsInlineKey(r, paths, j)
  {
    if |paths| == 1 {
      InlineKeysExactly(paths, Lookup(r), [j]);
    } else if j.JArray? {
      InlineKeysExactly(paths, Lookup(r), j.items);
    }
    if InlineKeys(paths, Lookup(r)).Some? {
      InlineKeysExactly(paths, Lookup(r), InlineKeys(paths, Lookup(r)).value);
    }
  }

  lemma InlineKeyedExactly(store: Object, r: Object, j: Json)
    ensures InlineKeyed(store, r, j)
            <==> KeyPaths(store).Some? && IdentityFrom(InlineKeys(KeyPaths(store).value, Lookup(r))) == Some(j)
  {
    if KeyPaths(store).Some? {
      KeyPathsExactly(store, KeyPaths(store).value);
      InlineIs(r, KeyPaths(store).value, j);
    }
    if paths :| HasKeyPaths(store, paths) && IsInlineKey(r, paths, j) {
      KeyPathsExactly(store, paths);
      InlineIs(r, paths, j);
    }
  }

  lemma LookupIs(store: Object, r: Object, paths: seq<string>)
    ensures "value" in r ==> InlineKeys(paths, Lookup(r)) == InlineKeys(paths, PlainLookup(r["value"]))
    ensures "value" !in r && "valueEncoded" in r
            ==> InlineKeys(paths, Lookup(r)) == InlineKeys(paths, EncodedLookup(r["valueEncoded"]))
  {
    if "value" in r {
      SameInlineKeys(paths, Lookup(r), PlainLookup(r["value"]));
    } else if "valueEncoded" in r {
      SameInlineKeys(paths, Lookup(r), EncodedLookup(r["valueEncoded"]));
    }
  }

  /** A record's identity is what identifies it, and it has none exactly when nothing does. */
  lemma IdentityExactly(store: Object, record: Json, j: Json)
    ensures RecordIdentity(store, record) == Some(j) <==> Identifies(store, record, j)
  {
    if record.JObject? && "key" !in record.fields && "keyEncoded" !in record.fields {
      var r := record.fields;
      InlineKeyedExactly(store, r, j);
      if KeyPaths(store).Some? {
        assert record == JObject(r);
        IdentityOf(store, r);
        LookupIs(store, r, KeyPaths(store).value);
      }
    }
  }

  // ---------------------------------------------------------------------------------------
  // Key paths
  // ---------------------------------------------------------------------------------------

  function JoinDots(parts: seq<string>): string {
    if parts == [] then "" else if |parts| == 1 then parts[0] else parts[0] + "." + JoinDots(parts[1..])
  }

  /** Splitting a path undoes joining its parts, and leaves no dot in any. */
  lemma {:induction false} SplitDotsExactly(s: string)
    ensures JoinDots(SplitDots(s)) == s
    ensures forall p :: p in SplitDots(s) ==> '.' !in p
  {
    if s != "" {
      SplitDotsExactly(s[1..]);
      var rest := SplitDots(s[1..]);
      assert s == [s[0]] + s[1..];
      if s[0] == '.' {
        assert ([""] + rest)[1..] == rest;
        assert "" + "." + JoinDots(rest) == "." + JoinDots(rest);
      } else {
        assert ([[s[0]] + rest[0]] + rest[1..])[1..] == rest[1..];
      }
    }
  }

  /** Putting a value under a path of an object replaces what stood there and creates what was missing. */
  function Put(v: Json, path: seq<string>, x: Json): Json
    decreases |path|
  {
    if path == [] then x
    else
      var fields := if v.JObject? then v.fields else map[];
      var inner := if path[0] in fields then fields[path[0]] else JNull;
      JObject(fields[path[0] := Put(inner, path[1..], x)])
  }

  /** A plain path finds what was put there. */
  lemma {:induction false} PlainAtPut(v: Json, path: seq<string>, x: Json)
    ensures PlainAt(Put(v, path, x), path) == Some(x)
    decreases |path|
  {
    if path != [] {
      var fields := if v.JObject? then v.fields else map[];
      PlainAtPut(if path[0] in fields then fields[path[0]] else JNull, path[1..], x);
    }
  }

  /** Where the paths part, another path finds what it found before. */
  lemma {:induction false} PlainAtElsewhere(v: Json, path: seq<string>, x: Json, other: seq<string>)
    requires Part(path, other)
    ensures PlainAt(Put(v, path, x), other) == PlainAt(v, other)
    decreases |path|
  {
    var fields := if v.JObject? then v.fields else map[];
    var inner := if path[0] in fields then fields[path[0]] else JNull;
    if path[0] == other[0] {
      PlainAtElsewhere(inner, path[1..], x, other[1..]);
    }
  }

  /** Neither path begins with the other. */
  predicate Part(a: seq<string>, b: seq<string>) {
    a != [] && b != [] && (a[0] != b[0] || Part(a[1..], b[1..]))
  }

  /** An encoded property: an object with a name and a value. */
  predicate IsProperty(p: Json) {
    p.JObject? && "k" in p.fields && p.fields["k"].JString? && "v" in p.fields
  }

  /** The encoded form of a value: an object becomes the list of its properties; nothing else has such a list. */
  ghost predicate Encodes(v: Json, e: Json)
    decreases v
  {
    var properties := if e.JObject? then ArrayAt(e.fields, "o") else None;
    if v.JObject? then
      && properties.Some?
      && (forall p :: p in properties.value ==>
            IsProperty(p) && p.fields["k"].s in v.fields && Encodes(v.fields[p.fields["k"].s], p.fields["v"]))
      && forall f :: f in v.fields ==> exists p :: p in properties.value && IsProperty(p) && p.fields["k"].s == f
    else properties == None
  }

  lemma {:induction false} PropertyIn(properties: seq<Json>, part: string)
    requires forall p :: p in properties ==> IsProperty(p)
    ensures EncodedProperty(properties, part).Some?
            <==> exists p :: p in properties && IsProperty(p) && p.fields["k"].s == part
    ensures EncodedProperty(properties, part).Some? ==>
              exists p :: p in properties && IsProperty(p) && p.fields["k"].s == part
                          && EncodedProperty(properties, part) == Some(p.fields["v"])
  {
    if properties != [] {
      PropertyIn(properties[1..], part);
      assert properties == [properties[0]] + properties[1..];
    }
  }

  /** A path leads to the same place in a value and in its encoded form. */
  lemma {:induction false} EncodedPathsAgree(v: Json, e: Json, path: seq<string>)
    requires Encodes(v, e)
    ensures PlainAt(v, path).Some? <==> EncodedAt(e, path).Some?
    ensures PlainAt(v, path).Some? ==> Encodes(PlainAt(v, path).value, EncodedAt(e, path).value)
    decreases |path|
  {
    if path != [] && v.JObject? {
      var properties := ArrayAt(e.fields, "o").value;
      PropertyIn(properties, path[0]);
      if EncodedProperty(properties, path[0]).Some? {
        var p :| p in properties && IsProperty(p) && p.fields["k"].s == path[0]
                 && EncodedProperty(properties, path[0]) == Some(p.fields["v"]);
        EncodedPathsAgree(v.fields[path[0]], p.fields["v"], path[1..]);
      }
    }
  }
}
