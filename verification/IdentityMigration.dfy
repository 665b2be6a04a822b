/** Reading a stored identity back: schema 1 filed all partitions of a cookie under one key revision. */
module IdentityMigration {
  import opened Common
  import opened IdentityState
  import opened IdentityEntities
  import opened IdentityMerge
  import opened IdentityDecode
  import opened IdentityMergeLaws
  import opened IdentityRestarts

  // ---------------------------------------------------------------------------------------
  // Which revisions survive
  // ---------------------------------------------------------------------------------------

  /** No later entry ends up under the same key. */
  ghost predicate IsLast(es: seq<Stamped>, j: nat)
    requires j < |es|
  {
    forall n :: j < n < |es| ==> Migrate(es[n].key) != Migrate(es[j].key)
  }

  lemma {:induction false} LastEntryWins(es: seq<Stamped>, j: nat)
    requires j < |es| && IsLast(es, j)
    ensures Get(Collect(es), Migrate(es[j].key)) == Some(es[j].revision)
  {
    var n := |es| - 1;
    if j < n {
      assert IsLast(es[..n], j);
      LastEntryWins(es[..n], j);
      assert Migrate(es[n].key) != Migrate(es[j].key);
    }
  }

  lemma {:induction false} LastFor(es: seq<Stamped>, i: nat) returns (j: nat)
    requires i < |es|
    ensures i <= j < |es| && IsLast(es, j) && Migrate(es[j].key) == Migrate(es[i].key)
    decreases |es| - i
  {
    if IsLast(es, i) {
      j := i;
    } else {
      var n :| i < n < |es| && Migrate(es[n].key) == Migrate(es[i].key);
      j := LastFor(es, n);
    }
  }

  lemma {:induction false} CollectedFrom(es: seq<Stamped>, k: Key)
    requires k in Collect(es)
    ensures exists e :: e in es && Migrate(e.key) == k && e.revision == Collect(es)[k]
  {
    var n := |es| - 1;
    assert es == es[..n] + [es[n]];
    if k != Migrate(es[n].key) {
      CollectedFrom(es[..n], k);
    } else {
      assert es[n] in es;
    }
  }

  /** Under its new key, each old revision is still guarded by one at least as high. */
  ghost predicate Conservative(es: seq<Stamped>) {
    forall i :: 0 <= i < |es| ==>
      Migrate(es[i].key) in Collect(es) && es[i].revision <= Collect(es)[Migrate(es[i].key)]
  }

  /** Migration is conservative exactly when, of entries that share a fence, the last listed is the highest. */
  lemma ConservativeExactly(es: seq<Stamped>)
    ensures Conservative(es) <==>
            forall i, j :: 0 <= i < |es| && 0 <= j < |es| && IsLast(es, j) && Migrate(es[i].key) == Migrate(es[j].key)
                           ==> es[i].revision <= es[j].revision
  {
    forall j | 0 <= j < |es| && IsLast(es, j)
      ensures Get(Collect(es), Migrate(es[j].key)) == Some(es[j].revision)
    {
      LastEntryWins(es, j);
    }
    forall i | 0 <= i < |es|
      ensures exists j :: 0 <= j < |es| && IsLast(es, j) && Migrate(es[i].key) == Migrate(es[j].key)
    {
      var j := LastFor(es, i);
    }
  }

  /** Two partitions stored exactly, the older one listed last: the higher revision is forgotten. */
  lemma SharedFenceForgets()
    ensures exists es :: !Conservative(es)
  {
    var es := [Stamped(Cookie(["n", "d", "/"]), 5), Stamped(Cookie(["n", "d", "/", "p", "true"]), 3)];
    assert Migrate(es[0].key) == Migrate(es[1].key);
    assert IsLast(es, 1) && es[0].revision > es[1].revision;
    ConservativeExactly(es);
    assert !Conservative(es);
  }

  /** What schema 1 wrote: a cookie key is its name, domain and path; there are no fences yet. */
  ghost predicate SchemaOneKeys(revisions: Revisions) {
    forall k :: k in revisions ==> !k.LegacyCookie? && (k.Cookie? ==> |k.segments| <= 3)
  }

  /** On what schema 1 wrote, migration renames cookie keys into fences and changes no revision. */
  lemma MigrationOfSchemaOne(list: Revisions -> seq<Stamped>, revisions: Revisions, k: Key)
    requires ListsStamps(list) && SchemaOneKeys(revisions)
    ensures !k.Cookie? ==> Get(Collect(list(revisions)), k)
                           == if k.LegacyCookie? then Get(revisions, Cookie(k.segments)) else Get(revisions, k)
    ensures k.Cookie? ==> k !in Collect(list(revisions)) && (k in revisions ==>
              Get(Collect(list(revisions)), Migrate(k)) == Some(revisions[k]))
  {
    var es := list(revisions);
    var source := if k.LegacyCookie? then Cookie(k.segments) else k;
    if k in Collect(es) {
      CollectedFrom(es, k);
      var e :| e in es && Migrate(e.key) == k && e.revision == Collect(es)[k];
      assert Get(revisions, e.key) == Some(e.revision);
    }
    if source in revisions {
      RenamedOnly(list, revisions, source);
    }
  }

  lemma RenamedOnly(list: Revisions -> seq<Stamped>, revisions: Revisions, k: Key)
    requires ListsStamps(list) && SchemaOneKeys(revisions) && k in revisions
    ensures Get(Collect(list(revisions)), Migrate(k)) == Some(revisions[k])
  {
    var es := list(revisions);
    assert Get(revisions, k) == Some(revisions[k]);
    assert Stamped(k, revisions[k]) in es;
    var i :| 0 <= i < |es| && es[i] == Stamped(k, revisions[k]);
    var j := LastFor(es, i);
    LastEntryWins(es, j);
    assert es[j] in es && Get(revisions, es[j].key) == Some(es[j].revision);
    assert es[j].key == k;
  }

  /** Reading a migrated store again changes nothing. */
  lemma DecodingTwice(list: Revisions -> seq<Stamped>, stored: Stored)
    requires DecodeStore(list, stored).Some?
    ensures DecodeStore(list, DecodeStore(list, stored).value.stored)
            == Some(Decoded(DecodeStore(list, stored).value.stored, false))
  {
  }

  // ---------------------------------------------------------------------------------------
  // How long fences hold
  // ---------------------------------------------------------------------------------------

  lemma {:induction false} FencesAreNeverRewritten(ord: Order, w: World, reqs: seq<Request>, fence: Key)
    requires Bounded(w.stored) && w.stored.revision + |reqs| <= U64_MAX && AlwaysReadable(ord, w, reqs)
             && IsFence(fence)
    ensures Get(RunFrom(ord, w, reqs).stored.revisions, fence) == Get(w.stored.revisions, fence)
    ensures Bounded(RunFrom(ord, w, reqs).stored)
    ensures RunFrom(ord, w, reqs).stored.revision <= w.stored.revision + |reqs|
  {
    if reqs != [] {
      var (init, req) := (reqs[..|reqs| - 1], reqs[|reqs| - 1]);
      FencesAreNeverRewritten(ord, w, init, fence);
      ReadableAtEnd(ord, w, init);
      MergeKeepsFence(ord, RunFrom(ord, w, init).stored, req, fence);
    }
  }

  lemma MergeKeepsFence(ord: Order, stored: Stored, req: Request, fence: Key)
    requires Bounded(stored) && stored.revision < U64_MAX && IsFence(fence)
    ensures Merge(ord, stored, req).Some? ==>
              var after := Merge(ord, stored, req).value.stored;
              && Get(after.revisions, fence) == Get(stored.revisions, fence)
              && Bounded(after) && after.revision <= stored.revision + 1
  {
    if Merge(ord, stored, req).Some? {
      MergeAccounts(ord, stored, req);
      MergeKeepsBounded(ord, stored, req);
      GrantedAreNotFences(stored, req);
    }
  }

  lemma NewHistoryHasNoFences(ord: Order, recovery: Option<string>, reqs: seq<Request>)
    requires Enumerates(ord) && |reqs| <= U64_MAX
    ensures NoFences(After(ord, Fresh(recovery), reqs).stored.revisions)
  {
    FreshInv(recovery);
    RunHasNoFences(ord, Fresh(recovery), reqs);
    RunKeepsSchema(ord, Fresh(recovery), reqs);
    Loading(ord, RunFrom(ord, Fresh(recovery), reqs));
  }

  lemma RestartHasNoFences(ord: Order, w: World, reqs: seq<Request>)
    requires Enumerates(ord) && |reqs| <= U64_MAX && !AlwaysReadable(ord, w, reqs)
    requires w.stored.schema == SCHEMA_VERSION
    ensures NoFences(After(ord, w, reqs).stored.revisions)
  {
    var n := FirstUnreadable(ord, w, reqs);
    RunKeepsSchema(ord, w, reqs[..n]);
    SplitAt(reqs, n);
    StartedAnew(ord, w, reqs[..n], reqs[n..]);
    NewHistoryHasNoFences(ord, Some("corrupt-current"), reqs[n..]);
  }

  /** A fence stays as it is exactly as long as each request keeps the records' identities. */
  lemma FencesStayExactly(ord: Order, w: World, reqs: seq<Request>, fence: Key)
    requires Enumerates(ord) && Bounded(w.stored) && IsReadable(w) && w.stored.revision + |reqs| <= U64_MAX
    requires IsFence(fence) && fence in w.stored.revisions
    ensures Get(After(ord, w, reqs).stored.revisions, fence) == Get(w.stored.revisions, fence)
            <==> KeepsIdentities(ord, w, reqs)
  {
    NoRestartExactly(ord, w, reqs);
    if AlwaysReadable(ord, w, reqs) {
      FencesAreNeverRewritten(ord, w, reqs, fence);
      ReadableAtEnd(ord, w, reqs);
    } else {
      RestartHasNoFences(ord, w, reqs);
    }
  }

  /** No fence is beyond reach: in any store, three requests and the next load are enough to lose it. */
  lemma EveryFenceCanFall(ord: Order, w: World, fence: Key) returns (reqs: seq<Request>)
    requires Enumerates(ord) && Bounded(w.stored) && IsReadable(w) && w.stored.revision + 3 <= U64_MAX && IsFence(fence)
    ensures |reqs| == 3 && fence !in After(ord, w, reqs).stored.revisions
  {
    var before, last := RestartIsNear(ord, w);
    reqs := before + [last];
    FreshInv(Some("corrupt-current"));
  }

  // ---------------------------------------------------------------------------------------
  // Who is fenced out, and how long
  // ---------------------------------------------------------------------------------------

  /** The origin that a key belongs to, for the kinds that live under one. */
  function OriginOf(k: Key): Option<string> {
    match k
    case Local(origin, _) => Some(origin)
    case IdbDb(origin, _) => Some(origin)
    case IdbStore(origin, _, _) => Some(origin)
    case IdbRecord(origin, _, _, _) => Some(origin)
    case _ => None
  }

  /** The fence stands before the key: its cookie's, or its origin's. */
  predicate Guards(fence: Key, k: Key) {
    || LegacyFence(k) == Some(fence)
    || (OriginOf(k).Some? && fence == OriginDelete(OriginOf(k).value))
  }

  lemma ValueNamesOrigin(state: Json, k: Key)
    requires k in Seen(state) && OriginOf(k).Some?
    ensures EntityOrigin(Seen(state)[k]) == OriginOf(k)
  {
    FlattenWellFormed(state);
    ParseWellFormed(Entity(k, Seen(state)[k]));
  }

  lemma GuardRejects(stored: Stored, req: Request, fence: Key, k: Key)
    requires Guards(fence, k) && Above(stored.revisions, fence, req.base)
    ensures k !in Granted(stored, req)
  {
    if LegacyFence(k) != Some(fence) {
      if k in Seen(req.proposed) {
        ValueNamesOrigin(req.proposed, k);
      } else if k in Seen(req.observed) {
        ValueNamesOrigin(req.observed, k);
      }
    }
  }

  /** A value whose origin the fence forbids; cookies have no origin of their own. */
  predicate ForbidsOrigin(fence: Key, v: Option<Json>) {
    v.Some? && v.value.JObject? && "origin" in v.value.fields && v.value.fields["origin"].JString?
    && fence == OriginDelete(v.value.fields["origin"].s)
  }

  /** A change conflicts exactly when its key, a fence that guards it, or a deletion of its origin is above the base. */
  lemma ConflictsExactly(revisions: Revisions, base: nat, observed: map<Key, Json>, proposed: map<Key, Json>, k: Key)
    ensures Conflicts(revisions, base, observed, proposed, k) <==>
            exists f :: f in revisions && revisions[f] > base
                        && (f == k || LegacyFence(k) == Some(f)
                            || ForbidsOrigin(f, if k in proposed then Get(proposed, k) else Get(observed, k)))
  {
    var v := if k in proposed then Get(proposed, k) else Get(observed, k);
    assert forall f :: ForbidsOrigin(f, v) <==>
                       v.Some? && EntityOrigin(v.value).Some? && f == OriginDelete(EntityOrigin(v.value).value);
  }

  /** For what flattening produces, that is the fence of its origin, or for cookies of an origin they happen to name. */
  lemma GuardsExactly(state: Json, k: Key, f: Key)
    requires k in Seen(state) && !k.Cookie?
    ensures ForbidsOrigin(f, Get(Seen(state), k)) <==> Guards(f, k)
  {
    if OriginOf(k).Some? {
      ValueNamesOrigin(state, k);
    }
    SeenAreEntities(state);
  }

  /** No request based before the revision writes the key, at any point of the run. */
  ghost predicate FencedOut(ord: Order, w: World, reqs: seq<Request>, revision: nat, k: Key) {
    forall n: nat, req: Request ::
      n <= |reqs| && req.base < revision && Merge(ord, After(ord, w, reqs[..n]).stored, req).Some?
      ==> !Wrote(Merge(ord, After(ord, w, reqs[..n]).stored, req).value, k)
  }

  lemma StandingFenceRejects(ord: Order, w: World, reqs: seq<Request>, fence: Key, k: Key, req: Request)
    requires Bounded(w.stored) && w.stored.revision + |reqs| < U64_MAX && AlwaysReadable(ord, w, reqs)
    requires IsFence(fence) && Guards(fence, k) && Above(w.stored.revisions, fence, req.base)
    requires Merge(ord, After(ord, w, reqs).stored, req).Some?
    ensures !Wrote(Merge(ord, After(ord, w, reqs).stored, req).value, k)
  {
    FencesAreNeverRewritten(ord, w, reqs, fence);
    ReadableAtEnd(ord, w, reqs);
    var now := RunFrom(ord, w, reqs).stored;
    assert Get(now.revisions, fence) == Get(w.stored.revisions, fence);
    WroteIsAccepted(ord, now, req, k);
    GuardRejects(now, req, fence, k);
  }

  /** A store that was started anew takes whatever a writer on revision 0 proposes. */
  lemma FreshTakesAll(ord: Order, recovery: Option<string>, state: Json, k: Key)
    requires Enumerates(ord) && k in Seen(state)
    ensures var r := Merge(ord, Fresh(recovery).stored, Request(0, EmptyState(), EmptyState(), state));
            r.Some? && Wrote(r.value, k)
  {
    var req := Request(0, EmptyState(), EmptyState(), state);
    FreshInv(recovery);
    FreshInv(None);
    MergeFailsOnlyOverInputs(ord, Fresh(recovery).stored, req);
    NothingAbove(Fresh(recovery).stored, map[], Seen(state));
    WroteIsAccepted(ord, Fresh(recovery).stored, req, k);
  }

  /**
   A fence keeps writers from before it out, at every point of a run, exactly when each request of the run
   keeps the records' identities; the key is one that some state has.
   */
  lemma FencedOutExactly(ord: Order, w: World, reqs: seq<Request>, fence: Key, k: Key, state: Json)
    requires Enumerates(ord) && Bounded(w.stored) && IsReadable(w) && w.stored.revision + |reqs| < U64_MAX
    requires IsFence(fence) && Guards(fence, k) && Above(w.stored.revisions, fence, 0) && k in Seen(state)
    ensures FencedOut(ord, w, reqs, w.stored.revisions[fence], k) <==> KeepsIdentities(ord, w, reqs)
  {
    NoRestartExactly(ord, w, reqs);
    if AlwaysReadable(ord, w, reqs) {
      forall n: nat, req: Request | n <= |reqs| && req.base < w.stored.revisions[fence]
                                    && Merge(ord, After(ord, w, reqs[..n]).stored, req).Some?
        ensures !Wrote(Merge(ord, After(ord, w, reqs[..n]).stored, req).value, k)
      {
        ReadablePrefix(ord, w, reqs, n);
        StandingFenceRejects(ord, w, reqs[..n], fence, k, req);
      }
    } else {
      var n := FirstUnreadable(ord, w, reqs);
      var req := Request(0, EmptyState(), EmptyState(), state);
      FreshTakesAll(ord, Some("corrupt-current"), state, k);
      RunKeepsSchema(ord, w, reqs[..n]);
      Loading(ord, RunFrom(ord, w, reqs[..n]));
    }
  }

  /** While a deleted origin's fence stands, nothing based before the deletion comes back under that origin. */
  lemma DeletedOriginStaysFenced(ord: Order, w: World, reqs: seq<Request>, k: Key, state: Json)
    requires Enumerates(ord) && Bounded(w.stored) && IsReadable(w) && w.stored.revision + |reqs| < U64_MAX
    requires OriginOf(k).Some? && Above(w.stored.revisions, OriginDelete(OriginOf(k).value), 0) && k in Seen(state)
    ensures FencedOut(ord, w, reqs, w.stored.revisions[OriginDelete(OriginOf(k).value)], k)
            <==> KeepsIdentities(ord, w, reqs)
  {
    FencedOutExactly(ord, w, reqs, OriginDelete(OriginOf(k).value), k, state);
  }

  /**
   After migration no checkpoint based before the old revision of a cookie writes any partition of it,
   exactly as long as each checkpoint keeps the records' identities.
   */
  lemma OldWritersStayFencedOut(ord: Order, list: Revisions -> seq<Stamped>, origin: Stored, past: seq<map<Key, Json>>,
                                reqs: seq<Request>, cookie: Key, k: Key, state: Json)
    requires Enumerates(ord) && ListsStamps(list) && Bounded(origin) && SchemaOneKeys(origin.revisions)
    requires origin.schema == 1 && DecodeStore(list, origin).Some? && origin.revision + |reqs| < U64_MAX
    requires cookie in origin.revisions && cookie.Cookie? && origin.revisions[cookie] > 0
    requires LegacyFence(k) == LegacyFence(cookie) && k in Seen(state)
    ensures var w := World(DecodeStore(list, origin).value.stored, past);
            FencedOut(ord, w, reqs, origin.revisions[cookie], k) <==> KeepsIdentities(ord, w, reqs)
  {
    RenamedOnly(list, origin.revisions, cookie);
    MigrationIsBounded(list, origin);
    var w := World(DecodeStore(list, origin).value.stored, past);
    assert Get(w.stored.revisions, LegacyFence(cookie).value) == Some(origin.revisions[cookie]);
    FencedOutExactly(ord, w, reqs, LegacyFence(cookie).value, k, state);
  }

  lemma MigrationIsBounded(list: Revisions -> seq<Stamped>, origin: Stored)
    requires ListsStamps(list) && Bounded(origin) && DecodeStore(list, origin).Some?
    ensures Bounded(DecodeStore(list, origin).value.stored)
  {
    if origin.schema == 1 {
      var es := list(origin.revisions);
      forall k | k in Collect(es)
        ensures Collect(es)[k] <= origin.revision
      {
        CollectedFrom(es, k);
        var e :| e in es && Migrate(e.key) == k && e.revision == Collect(es)[k];
        assert Get(origin.revisions, e.key) == Some(e.revision);
      }
    }
  }
}
