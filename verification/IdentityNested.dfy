/**
 Updates of nested entities. A store needs its database and a record its store, and neither is stamped when
 it disappears with its parent; a record also moves when its store is keyed anew.
 */
module IdentityNested {
  import opened Common
  import opened IdentityState
  import opened IdentityRoundTrip
  import opened IdentityLaws
  import opened IdentityCollapse
  import opened IdentityMerge
  import opened IdentityMergeLaws
  import opened IdentityRestarts

  // ---------------------------------------------------------------------------------------
  // Any entity, one merge
  // ---------------------------------------------------------------------------------------

  /** What a key should hold after a merge: what the writer proposed if it wrote the key, else what was there. */
  function Intended(stored: Stored, req: Request, o: Outcome, k: Key): Option<Json> {
    if Wrote(o, k) then Get(Seen(req.proposed), k) else Get(Seen(stored.state), k)
  }

  lemma MergedLookup(ord: Order, stored: Stored, req: Request, k: Key)
    requires Bounded(stored) && stored.revision < U64_MAX && Merge(ord, stored, req).Some?
    ensures Get(MergedEntities(stored, req), k) == Intended(stored, req, Merge(ord, stored, req).value, k)
  {
    WroteIsAccepted(ord, stored, req, k);
  }

  /** An applied merge leaves the intended value under a key exactly when the merged entities settle there. */
  lemma MergeKeepsExactly(ord: Order, stored: Stored, req: Request, k: Key)
    requires Enumerates(ord) && Bounded(stored) && stored.revision < U64_MAX
    requires Merge(ord, stored, req).Some? && Merge(ord, stored, req).value.applied
    requires Flatten(Merge(ord, stored, req).value.stored.state).Some?
    ensures var o := Merge(ord, stored, req).value;
            Get(Seen(o.stored.state), k) == Intended(stored, req, o, k)
            <==> Settles(ord, MergedEntities(stored, req), k)
  {
    MergedState(ord, stored, req);
    AppliedEntitiesAreWellFormed(stored, req);
    KeptExactly(ord, MergedEntities(stored, req), k);
    MergedLookup(ord, stored, req, k);
  }

  // ---------------------------------------------------------------------------------------
  // Any entity, whole runs
  // ---------------------------------------------------------------------------------------

  /** If the request changes anything, the key settles among the merged entities. */
  ghost predicate SettlesIn(ord: Order, stored: Stored, req: Request, k: Key) {
    Merge(ord, stored, req).Some? && Merge(ord, stored, req).value.applied
    ==> Settles(ord, MergedEntities(stored, req), k)
  }

  /** The key settles in each merge of a run. */
  ghost predicate SettlesAlong(ord: Order, w: World, reqs: seq<Request>, k: Key) {
    reqs != [] ==>
      && SettlesAlong(ord, w, reqs[..|reqs| - 1], k)
      && SettlesIn(ord, RunFrom(ord, w, reqs[..|reqs| - 1]).stored, reqs[|reqs| - 1], k)
  }

  /** The key holds the same all along a run. */
  ghost predicate Unmoved(ord: Order, w: World, reqs: seq<Request>, k: Key) {
    && Get(Seen(RunFrom(ord, w, reqs).stored.state), k) == Get(Seen(w.stored.state), k)
    && (reqs != [] ==> Unmoved(ord, w, reqs[..|reqs| - 1], k))
  }

  /** What one request does to a key that it does not write. */
  lemma UnwrittenInStep(ord: Order, w: World, req: Request, b: nat, k: Key)
    requires Enumerates(ord) && Bounded(w.stored) && b <= w.stored.revision < U64_MAX && IsReadable(w)
    requires IsReadable(Step(ord, w, req)) && !Above(Step(ord, w, req).stored.revisions, k, b)
    ensures !Above(w.stored.revisions, k, b)
    ensures Get(Seen(Step(ord, w, req).stored.state), k) == Get(Seen(w.stored.state), k)
            <==> SettlesIn(ord, w.stored, req, k)
  {
    if Merge(ord, w.stored, req).Some? {
      MergeAccounts(ord, w.stored, req);
      if Merge(ord, w.stored, req).value.applied {
        MergeKeepsExactly(ord, w.stored, req, k);
      }
    }
  }

  lemma StepKeepsBounded(ord: Order, w: World, req: Request)
    requires Bounded(w.stored) && w.stored.revision < U64_MAX && IsReadable(w)
    ensures var after := Step(ord, w, req).stored;
            Bounded(after) && w.stored.revision <= after.revision <= w.stored.revision + 1
  {
    if Merge(ord, w.stored, req).Some? {
      MergeAccounts(ord, w.stored, req);
      MergeKeepsBounded(ord, w.stored, req);
    }
  }

  lemma {:induction false} RunKeepsBounded(ord: Order, w: World, reqs: seq<Request>)
    requires Bounded(w.stored) && w.stored.revision + |reqs| <= U64_MAX && AlwaysReadable(ord, w, reqs)
    ensures var now := RunFrom(ord, w, reqs).stored;
            Bounded(now) && w.stored.revision <= now.revision <= w.stored.revision + |reqs|
  {
    if reqs != [] {
      RunKeepsBounded(ord, w, reqs[..|reqs| - 1]);
      ReadableAtEnd(ord, w, reqs[..|reqs| - 1]);
      StepKeepsBounded(ord, RunFrom(ord, w, reqs[..|reqs| - 1]), reqs[|reqs| - 1]);
    }
  }

  /** What nobody has written since then is what it was, all along, exactly when it settles in each merge. */
  lemma {:induction false} UnmovedExactly(ord: Order, w: World, reqs: seq<Request>, k: Key)
    requires Enumerates(ord) && Bounded(w.stored) && w.stored.revision + |reqs| <= U64_MAX
    requires AlwaysReadable(ord, w, reqs)
    requires !Above(RunFrom(ord, w, reqs).stored.revisions, k, w.stored.revision)
    ensures Unmoved(ord, w, reqs, k) <==> SettlesAlong(ord, w, reqs, k)
  {
    if reqs != [] {
      var (init, last) := (reqs[..|reqs| - 1], reqs[|reqs| - 1]);
      ReadableAtEnd(ord, w, init);
      RunKeepsBounded(ord, w, init);
      UnwrittenInStep(ord, RunFrom(ord, w, init), last, w.stored.revision, k);
      UnmovedExactly(ord, w, init, k);
    }
  }

  /**
   No lost update, for entities of every kind: what a checkpoint writes over has been what the writer read,
   all along, exactly when it has settled in each merge since; and the checkpoint leaves what it should
   exactly when the key settles in its own.
   */
  lemma NoLostUpdateOfAnyKind(ord: Order, before: seq<Request>, reqs: seq<Request>, req: Request, k: Key)
    requires Enumerates(ord) && |before| + |reqs| < U64_MAX
    requires var read := Load(ord, Run(ord, before));
             && KeepsIdentities(ord, read, reqs) && req.base == read.stored.revision
             && Merge(ord, RunFrom(ord, read, reqs).stored, req).Some?
    ensures var read := Load(ord, Run(ord, before));
            var now := RunFrom(ord, read, reqs);
            var o := Merge(ord, now.stored, req).value;
            && (Wrote(o, k) ==> (Unmoved(ord, read, reqs, k) <==> SettlesAlong(ord, read, reqs, k)))
            && (Flatten(o.stored.state).Some? ==>
                  (Get(Seen(o.stored.state), k) == Intended(now.stored, req, o, k)
                   <==> SettlesIn(ord, now.stored, req, k)))
  {
    var read := Load(ord, Run(ord, before));
    RunInv(ord, before);
    LoadInv(ord, Run(ord, before));
    NoRestartExactly(ord, read, reqs);
    RunKeepsBounded(ord, read, reqs);
    var now := RunFrom(ord, read, reqs);
    var o := Merge(ord, now.stored, req).value;
    WroteIsAccepted(ord, now.stored, req, k);
    if Wrote(o, k) {
      UnmovedExactly(ord, read, reqs, k);
    }
    if o.applied && Flatten(o.stored.state).Some? {
      MergeKeepsExactly(ord, now.stored, req, k);
    } else {
      AppliedIsGranted(ord, now.stored, req);
    }
  }

  // ---------------------------------------------------------------------------------------
  // Stores, over the whole history
  // ---------------------------------------------------------------------------------------

  /** The store's database has been there at each revision since b. */
  predicate Stood(past: seq<map<Key, Json>>, k: Key, b: nat)
    requires k.IdbStore?
  {
    forall r :: b <= r < |past| ==> IdbDb(k.origin, k.db) in past[r]
  }

  /** The last entry of a history has a store as revision b had it, or not at all. */
  predicate SameOrGone(past: seq<map<Key, Json>>, k: Key, b: nat)
    requires k.IdbStore? && b < |past|
  {
    Get(past[|past| - 1], k) == if Stood(past, k, b) then Get(past[b], k) else None
  }

  /** A store not stamped since revision b has the value of then, unless its database has been away since. */
  ghost predicate StoreTimeline(w: World)
    requires |w.past| > 0
  {
    forall k: Key, b :: k.IdbStore? && 0 <= b < |w.past| && !Above(w.stored.revisions, k, b)
                   ==> SameOrGone(w.past, k, b)
  }

  ghost predicate StoreInv(w: World) {
    Inv(w) && (IsReadable(w) ==> StoreTimeline(w))
  }

  lemma StoreNeedsDb(state: Json, k: Key)
    requires k.IdbStore? && k in Seen(state)
    ensures IdbDb(k.origin, k.db) in Seen(state)
  {
    FlattenIsParentClosed(state);
    assert Retained(Seen(state), k);
  }

  lemma FreshStoreInv(recovery: Option<string>)
    ensures StoreInv(Fresh(recovery))
  {
    FreshInv(recovery);
  }

  /** What a merge does to a store: it stays, or goes, with its database. */
  lemma MergedStore(ord: Order, stored: Stored, req: Request, k: Key)
    requires Enumerates(ord) && Bounded(stored) && stored.revision < U64_MAX && k.IdbStore?
    requires Merge(ord, stored, req).Some? && Flatten(stored.state).Some?
    requires Flatten(Merge(ord, stored, req).value.stored.state).Some?
    ensures var o := Merge(ord, stored, req).value;
            Get(Seen(o.stored.state), k)
            == if IdbDb(k.origin, k.db) in Seen(o.stored.state) then Intended(stored, req, o, k) else None
  {
    var o := Merge(ord, stored, req).value;
    var db := IdbDb(k.origin, k.db);
    if o.applied {
      MergedState(ord, stored, req);
      AppliedEntitiesAreWellFormed(stored, req);
      RebuiltKeepsAllButRecords(ord, MergedEntities(stored, req), k);
      RebuiltKeepsAllButRecords(ord, MergedEntities(stored, req), db);
      MergedLookup(ord, stored, req, k);
    } else {
      AppliedIsGranted(ord, stored, req);
      if k in Seen(stored.state) {
        StoreNeedsDb(stored.state, k);
      }
    }
  }

  lemma StoodLonger(past: seq<map<Key, Json>>, m: map<Key, Json>, k: Key, b: nat)
    requires k.IdbStore? && b <= |past|
    ensures Stood(past + [m], k, b) <==> Stood(past, k, b) && IdbDb(k.origin, k.db) in m
  {
    assert (past + [m])[|past|] == m;
    assert forall r :: b <= r < |past| ==> (past + [m])[r] == past[r];
  }

  lemma SameOrGoneLonger(past: seq<map<Key, Json>>, m: map<Key, Json>, k: Key, b: nat)
    requires k.IdbStore? && b < |past| && SameOrGone(past, k, b)
    requires Get(m, k) == if IdbDb(k.origin, k.db) in m then Get(past[|past| - 1], k) else None
    ensures SameOrGone(past + [m], k, b)
  {
    StoodLonger(past, m, k, b);
  }

  lemma UnstampedBefore(ord: Order, w: World, req: Request, k: Key, b: nat)
    requires Bounded(w.stored) && b <= w.stored.revision < U64_MAX && IsReadable(w)
    requires Merge(ord, w.stored, req).Some? && !Above(Merge(ord, w.stored, req).value.stored.revisions, k, b)
    requires Merge(ord, w.stored, req).value.applied
    ensures !Above(w.stored.revisions, k, b) && !Wrote(Merge(ord, w.stored, req).value, k)
  {
    MergeAccounts(ord, w.stored, req);
  }

  lemma StoreAfterStep(ord: Order, w: World, req: Request, k: Key, b: nat)
    requires Enumerates(ord) && StoreInv(w) && IsReadable(w) && w.stored.revision < U64_MAX && k.IdbStore?
    requires Merge(ord, w.stored, req).Some? && Merge(ord, w.stored, req).value.applied
    requires IsReadable(Step(ord, w, req)) && b < |w.past| && !Above(Step(ord, w, req).stored.revisions, k, b)
    ensures SameOrGone(Step(ord, w, req).past, k, b)
  {
    UnstampedBefore(ord, w, req, k, b);
    MergedStore(ord, w.stored, req, k);
    assert SameOrGone(w.past, k, b);
    SameOrGoneLonger(w.past, Seen(Merge(ord, w.stored, req).value.stored.state), k, b);
  }

  lemma StoreTimelineStep(ord: Order, w: World, req: Request)
    requires Enumerates(ord) && StoreInv(w) && IsReadable(w) && w.stored.revision < U64_MAX
    requires Merge(ord, w.stored, req).Some? && Merge(ord, w.stored, req).value.applied
    requires IsReadable(Step(ord, w, req))
    ensures StoreTimeline(Step(ord, w, req))
  {
    var w' := Step(ord, w, req);
    forall k: Key, b | k.IdbStore? && 0 <= b < |w'.past| && !Above(w'.stored.revisions, k, b)
      ensures SameOrGone(w'.past, k, b)
    {
      if b < |w.past| {
        StoreAfterStep(ord, w, req, k, b);
      } else if k in Seen(w'.stored.state) {
        StoreNeedsDb(w'.stored.state, k);
      }
    }
  }

  lemma StoreInvStep(ord: Order, w: World, req: Request)
    requires Enumerates(ord) && StoreInv(w) && w.stored.revision < U64_MAX
    ensures StoreInv(Step(ord, w, req))
  {
    StepInv(ord, w, req);
    LoadInv(ord, w);
    FreshStoreInv(Some("corrupt-current"));
    var loaded := Load(ord, w);
    var r := Merge(ord, loaded.stored, req);
    if r.Some? && r.value.applied && Flatten(r.value.stored.state).Some? {
      assert Step(ord, w, req) == Step(ord, loaded, req);
      StoreTimelineStep(ord, loaded, req);
    }
  }

  lemma {:induction false} RunStoreInv(ord: Order, reqs: seq<Request>)
    requires Enumerates(ord) && |reqs| <= U64_MAX
    ensures StoreInv(Run(ord, reqs)) && StoreInv(Load(ord, Run(ord, reqs)))
  {
    FreshStoreInv(None);
    FreshStoreInv(Some("corrupt-current"));
    if reqs != [] {
      RunStoreInv(ord, reqs[..|reqs| - 1]);
      RunInv(ord, reqs[..|reqs| - 1]);
      StoreInvStep(ord, Run(ord, reqs[..|reqs| - 1]), reqs[|reqs| - 1]);
    }
  }

  /**
   No lost update of a store: after any run, a checkpoint that writes a store finds it as it was at the base
   exactly when its database has been there ever since, or the store was not there; and what it writes, or
   leaves alone, is there afterwards exactly when the database is, or there is nothing to keep.
   */
  lemma NoLostStoreExactly(ord: Order, reqs: seq<Request>, req: Request, k: Key)
    requires Enumerates(ord) && |reqs| < U64_MAX && k.IdbStore?
    requires Merge(ord, Load(ord, Run(ord, reqs)).stored, req).Some?
    ensures var w := Load(ord, Run(ord, reqs));
            var o := Merge(ord, w.stored, req).value;
            && req.base < |w.past|
            && (Wrote(o, k) ==>
                  (Get(w.past[req.base], k) == Get(Seen(w.stored.state), k)
                   <==> Stood(w.past, k, req.base) || k !in w.past[req.base]))
            && (Flatten(o.stored.state).Some? ==>
                  (Get(Seen(o.stored.state), k) == Intended(w.stored, req, o, k)
                   <==> IdbDb(k.origin, k.db) in Seen(o.stored.state) || Intended(w.stored, req, o, k) == None))
  {
    var w := Load(ord, Run(ord, reqs));
    RunInv(ord, reqs);
    LoadInv(ord, Run(ord, reqs));
    RunStoreInv(ord, reqs);
    Merging(ord, w.stored, req);
    if Wrote(Merge(ord, w.stored, req).value, k) {
      WroteIsAccepted(ord, w.stored, req, k);
      StoreAtBase(w, req, k);
    }
    if Flatten(Merge(ord, w.stored, req).value.stored.state).Some? {
      MergedStore(ord, w.stored, req, k);
    }
  }

  lemma StoreAtBase(w: World, req: Request, k: Key)
    requires Shape(w) && StoreTimeline(w) && k.IdbStore? && k in Granted(w.stored, req) && req.base < |w.past|
    ensures Get(w.past[req.base], k) == Get(Seen(w.stored.state), k)
            <==> Stood(w.past, k, req.base) || k !in w.past[req.base]
  {
    GrantedIsNotAbove(w.stored, req, k);
    FromTimeline(w, k, req.base);
  }

  lemma GrantedIsNotAbove(stored: Stored, req: Request, k: Key)
    requires k in Granted(stored, req)
    ensures !Above(stored.revisions, k, req.base)
  {
  }

  lemma FromTimeline(w: World, k: Key, b: nat)
    requires b < |w.past| && StoreTimeline(w) && k.IdbStore? && !Above(w.stored.revisions, k, b)
    ensures Get(w.past[b], k) == Get(w.past[|w.past| - 1], k) <==> Stood(w.past, k, b) || k !in w.past[b]
  {
    assert SameOrGone(w.past, k, b);
  }
}
