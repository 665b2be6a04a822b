/** What checkpoints promise, for one merge and over whole runs. */
module IdentityMergeLaws {
  import opened Common
  import opened IdentityState
  import opened IdentityEntities
  import opened IdentityRoundTrip
  import opened IdentityLaws
  import opened IdentityMerge
  import opened IdentityDecode

  // ---------------------------------------------------------------------------------------
  // One merge
  // ---------------------------------------------------------------------------------------

  /** The entities of a state; none if it cannot be read. */
  function Seen(state: Json): map<Key, Json> {
    match Flatten(state)
    case Some(m) => m
    case None => map[]
  }

  /** The keys that a request would change. */
  function Wanted(req: Request): set<Key> {
    Changed(Seen(req.observed), Seen(req.proposed))
  }

  /** Those of them that a store lets it change. */
  function Granted(stored: Stored, req: Request): set<Key> {
    Accepted(stored.revisions, req.base, Seen(req.observed), Seen(req.proposed))
  }

  lemma MergedEntitiesAreWellFormed(current: map<Key, Json>, proposed: map<Key, Json>, accepted: set<Key>)
    requires WellFormedMap(current) && WellFormedMap(proposed)
    ensures WellFormedMap(Apply(current, proposed, accepted))
  {
  }

  /** Rebuilding the merged entities cannot fail, so a merge fails only over its inputs. */
  lemma MergeFailsOnlyOverInputs(ord: Order, stored: Stored, req: Request)
    requires Enumerates(ord)
    ensures Merge(ord, stored, req) == None <==>
            || req.base > stored.revision
            || Flatten(req.baseState).None? || Flatten(req.observed).None? || Flatten(req.proposed).None?
            || Flatten(stored.state).None?
            || (req.base == stored.revision && Flatten(req.baseState) != Flatten(stored.state))
  {
    var (observed, proposed, current) := (Flatten(req.observed), Flatten(req.proposed), Flatten(stored.state));
    if observed.Some? && proposed.Some? && current.Some? {
      var accepted := Accepted(stored.revisions, req.base, observed.value, proposed.value);
      FlattenWellFormed(req.proposed);
      FlattenWellFormed(stored.state);
      MergedEntitiesAreWellFormed(current.value, proposed.value, accepted);
      RebuiltEmissions(ord, Apply(current.value, proposed.value, accepted));
    }
  }

  lemma Merging(ord: Order, stored: Stored, req: Request)
    requires Merge(ord, stored, req).Some?
    ensures Merge(ord, stored, req)
            == Merged(ord, stored, req.base, Seen(req.observed), Seen(req.proposed), Seen(stored.state))
    ensures req.base <= stored.revision
  {
  }

  lemma Counted(all: set<Key>, some: set<Key>)
    requires some <= all
    ensures |some| + |all - some| == |all|
  {
    assert all == some + (all - some);
  }

  lemma MergedAccounts(ord: Order, stored: Stored, base: nat, observed: map<Key, Json>, proposed: map<Key, Json>,
                       current: map<Key, Json>)
    requires Merged(ord, stored, base, observed, proposed, current).Some? && stored.revision < U64_MAX
    ensures Accounts(stored, Changed(observed, proposed), Accepted(stored.revisions, base, observed, proposed),
                     Merged(ord, stored, base, observed, proposed, current).value)
  {
    var (changed, accepted) := (Changed(observed, proposed), Accepted(stored.revisions, base, observed, proposed));
    Counted(changed, accepted);
    if accepted == {} {
      NothingApplied(map[], map[], stored.revisions, stored.revision + 1);
      NothingMerged(ord, stored, base, observed, proposed, current);
    } else {
      SomethingMerged(ord, stored, base, observed, proposed, current);
    }
  }

  lemma NothingMerged(ord: Order, stored: Stored, base: nat, observed: map<Key, Json>, proposed: map<Key, Json>,
                      current: map<Key, Json>)
    requires Accepted(stored.revisions, base, observed, proposed) == {}
    ensures Merged(ord, stored, base, observed, proposed, current)
            == Some(Outcome(stored, |Changed(observed, proposed)|, false))
  {
    assert Changed(observed, proposed) - {} == Changed(observed, proposed);
  }

  lemma SomethingMerged(ord: Order, stored: Stored, base: nat, observed: map<Key, Json>, proposed: map<Key, Json>,
                        current: map<Key, Json>)
    requires Merged(ord, stored, base, observed, proposed, current).Some?
    requires Accepted(stored.revisions, base, observed, proposed) != {}
    ensures var o := Merged(ord, stored, base, observed, proposed, current).value;
            var accepted := Accepted(stored.revisions, base, observed, proposed);
            && o.applied && o.conflicts == |Changed(observed, proposed) - accepted|
            && o.stored.revision == SaturatingAdd(stored.revision, 1)
            && o.stored.revisions == Stamp(stored.revisions, accepted, SaturatingAdd(stored.revision, 1))
  {
  }

  /** An outcome that applied these of the changed keys to a store, and stamped them. */
  predicate Accounts(stored: Stored, changed: set<Key>, accepted: set<Key>, o: Outcome) {
    && |accepted| + o.conflicts == |changed|
    && o.applied == (accepted != {})
    && o.stored.revision == stored.revision + (if o.applied then 1 else 0)
    && (!o.applied ==> o.stored == stored)
    && o.stored.revisions == Stamp(stored.revisions, accepted, stored.revision + 1)
  }

  /** Every changed key is either applied or counted as a conflict, and the revision grows iff one is applied. */
  lemma MergeAccounts(ord: Order, stored: Stored, req: Request)
    requires Merge(ord, stored, req).Some? && stored.revision < U64_MAX
    ensures var o := Merge(ord, stored, req).value;
            && |Granted(stored, req)| + o.conflicts == |Wanted(req)|
            && o.applied == (Granted(stored, req) != {})
            && o.stored.revision == stored.revision + (if o.applied then 1 else 0)
            && (!o.applied ==> o.stored == stored)
            && o.stored.revisions == Stamp(stored.revisions, Granted(stored, req), stored.revision + 1)
  {
    Merging(ord, stored, req);
    MergedAccounts(ord, stored, req.base, Seen(req.observed), Seen(req.proposed), Seen(stored.state));
  }

  /** The last revision is never passed: there the counter stays, and keys are stamped with it. */
  lemma MergeSaturates(ord: Order, stored: Stored, req: Request)
    requires Merge(ord, stored, req).Some? && stored.revision == U64_MAX
    ensures var o := Merge(ord, stored, req).value;
            o.stored.revision == U64_MAX && o.stored.revisions == Stamp(stored.revisions, Granted(stored, req), U64_MAX)
  {
    Merging(ord, stored, req);
    NothingApplied(map[], map[], stored.revisions, U64_MAX);
  }

  /** A merge touches nothing but the revision, the state and the stamps. */
  lemma MergeKeepsTheRest(ord: Order, stored: Stored, req: Request)
    requires Merge(ord, stored, req).Some?
    ensures var after := Merge(ord, stored, req).value.stored;
            after.schema == stored.schema && after.recovery == stored.recovery
  {
    Merging(ord, stored, req);
  }

  /** What it leaves of an up-to-date store can be loaded again, as it is, exactly when the state can be read. */
  lemma MergedStoreDecodes(ord: Order, stored: Stored, req: Request)
    requires stored.schema == SCHEMA_VERSION && Merge(ord, stored, req).Some?
    ensures var after := Merge(ord, stored, req).value.stored;
            DecodeStore(ord.stamps, after) == Some(Decoded(after, false)) <==> Flatten(after.state).Some?
    ensures var after := Merge(ord, stored, req).value.stored;
            DecodeStore(ord.stamps, after) == None <==> Flatten(after.state).None?
  {
    MergeKeepsTheRest(ord, stored, req);
    DecodesExactly(ord.stamps, Merge(ord, stored, req).value.stored);
  }

  ghost predicate Bounded(stored: Stored) {
    forall k :: k in stored.revisions ==> stored.revisions[k] <= stored.revision
  }

  lemma MergeKeepsBounded(ord: Order, stored: Stored, req: Request)
    requires Bounded(stored) && stored.revision < U64_MAX && Merge(ord, stored, req).Some?
    ensures Bounded(Merge(ord, stored, req).value.stored)
  {
    MergeAccounts(ord, stored, req);
  }

  lemma NothingAbove(stored: Stored, observed: map<Key, Json>, proposed: map<Key, Json>)
    requires Bounded(stored)
    ensures Accepted(stored.revisions, stored.revision, observed, proposed) == Changed(observed, proposed)
  {
  }

  /** A writer that starts from the current revision never conflicts. */
  lemma CurrentWriterNeverConflicts(ord: Order, stored: Stored, req: Request)
    requires Bounded(stored) && req.base == stored.revision && stored.revision < U64_MAX
    requires Merge(ord, stored, req).Some?
    ensures Merge(ord, stored, req).value.conflicts == 0
    ensures Merge(ord, stored, req).value.applied <==> Flatten(req.observed) != Flatten(req.proposed)
  {
    NothingAbove(stored, Seen(req.observed), Seen(req.proposed));
    MergeAccounts(ord, stored, req);
    NothingChanged(Seen(req.observed), Seen(req.proposed));
  }

  /** A first checkpoint goes through, whatever it proposes. */
  lemma FirstCheckpoint(ord: Order, proposed: Json)
    requires Enumerates(ord) && Flatten(proposed).Some?
    ensures var r := Merge(ord, EmptyStore(), Request(0, EmptyState(), EmptyState(), proposed));
            r.Some? && r.value.conflicts == 0 && (r.value.applied <==> Flatten(proposed).value != map[])
  {
    var req := Request(0, EmptyState(), EmptyState(), proposed);
    FreshInv(None);
    MergeFailsOnlyOverInputs(ord, EmptyStore(), req);
    CurrentWriterNeverConflicts(ord, EmptyStore(), req);
  }

  lemma NothingChanged(observed: map<Key, Json>, proposed: map<Key, Json>)
    ensures Changed(observed, proposed) == {} <==> observed == proposed
  {
    if Changed(observed, proposed) == {} {
      forall k
        ensures Get(observed, k) == Get(proposed, k)
      {
        assert k !in Changed(observed, proposed);
      }
      assert forall k :: k in observed <==> Get(observed, k).Some?;
      assert forall k :: k in proposed <==> Get(proposed, k).Some?;
      assert forall k :: k in observed ==> observed[k] == Get(observed, k).value;
    }
  }

  /** Repeating an applied checkpoint word for word applies nothing: every changed key now conflicts. */
  lemma ReplayAppliesNothing(ord: Order, stored: Stored, req: Request)
    requires Enumerates(ord) && Bounded(stored) && stored.revision < U64_MAX
    requires Merge(ord, stored, req).Some? && Merge(ord, stored, req).value.applied
    ensures var after := Merge(ord, stored, req).value.stored;
            Merge(ord, after, req)
            == if Flatten(after.state).Some? then Some(Outcome(after, |Wanted(req)|, false)) else None
  {
    var after := Merge(ord, stored, req).value.stored;
    Merging(ord, stored, req);
    MergeAccounts(ord, stored, req);
    NothingGranted(stored, after, req);
    assert Wanted(req) - {} == Wanted(req);
    if Flatten(after.state).Some? {
      MergeFailsOnlyOverInputs(ord, after, req);
      Merging(ord, after, req);
    }
  }

  lemma NothingGranted(stored: Stored, after: Stored, req: Request)
    requires Bounded(stored) && req.base <= stored.revision
    requires after.revisions == Stamp(stored.revisions, Granted(stored, req), stored.revision + 1)
    ensures Granted(after, req) == {}
  {
    var (observed, proposed) := (Seen(req.observed), Seen(req.proposed));
    forall k | k in Wanted(req)
      ensures Conflicts(after.revisions, req.base, observed, proposed, k)
    {
      if k !in Granted(stored, req) {
        StampingKeepsConflicts(stored, Granted(stored, req), req.base, observed, proposed, k);
      }
    }
  }

  lemma StampingKeepsConflicts(stored: Stored, accepted: set<Key>, base: nat,
                               observed: map<Key, Json>, proposed: map<Key, Json>, k: Key)
    requires Bounded(stored) && Conflicts(stored.revisions, base, observed, proposed, k)
    ensures Conflicts(Stamp(stored.revisions, accepted, stored.revision + 1), base, observed, proposed, k)
  {
    forall x | Above(stored.revisions, x, base)
      ensures Above(Stamp(stored.revisions, accepted, stored.revision + 1), x, base)
    {
    }
  }

  // ---------------------------------------------------------------------------------------
  // Whole runs
  // ---------------------------------------------------------------------------------------

  /** A store with its history: past[r] is what revision r held, since the store was last started anew. */
  datatype World = World(stored: Stored, past: seq<map<Key, Json>>)

  function Fresh(recovery: Option<string>): World {
    World(EmptyStore().(recovery := recovery), [map[]])
  }

  /** A store that cannot be read is put aside and replaced by an empty one. */
  function Load(ord: Order, w: World): World {
    match DecodeStore(ord.stamps, w.stored)
    case Some(d) => w.(stored := d.stored)
    case None => Fresh(Some("corrupt-current"))
  }

  /** The store is up to date and can be read. */
  predicate IsReadable(w: World) {
    w.stored.schema == SCHEMA_VERSION && Flatten(w.stored.state).Some?
  }

  /** A store that is up to date is loaded as it is, or put aside. */
  lemma Loading(ord: Order, w: World)
    requires w.stored.schema == SCHEMA_VERSION
    ensures Load(ord, w) == if IsReadable(w) then w else Fresh(Some("corrupt-current"))
  {
  }

  function Step(ord: Order, w: World, req: Request): World {
    var loaded := Load(ord, w);
    match Merge(ord, loaded.stored, req)
    case Some(o) => if o.applied then World(o.stored, loaded.past + [Seen(o.stored.state)]) else loaded
    case None => loaded
  }

  function RunFrom(ord: Order, w: World, reqs: seq<Request>): World {
    if reqs == [] then w else Step(ord, RunFrom(ord, w, reqs[..|reqs| - 1]), reqs[|reqs| - 1])
  }

  lemma StepKeepsSchema(ord: Order, w: World, req: Request)
    requires w.stored.schema == SCHEMA_VERSION
    ensures Step(ord, w, req).stored.schema == SCHEMA_VERSION
    ensures Step(ord, w, req).stored.recovery == Load(ord, w).stored.recovery
  {
    Loading(ord, w);
    if Merge(ord, Load(ord, w).stored, req).Some? {
      MergeKeepsTheRest(ord, Load(ord, w).stored, req);
    }
  }

  lemma {:induction false} RunKeepsSchema(ord: Order, w: World, reqs: seq<Request>)
    requires w.stored.schema == SCHEMA_VERSION
    ensures RunFrom(ord, w, reqs).stored.schema == SCHEMA_VERSION
  {
    if reqs != [] {
      RunKeepsSchema(ord, w, reqs[..|reqs| - 1]);
      StepKeepsSchema(ord, RunFrom(ord, w, reqs[..|reqs| - 1]), reqs[|reqs| - 1]);
    }
  }

  /** A run from the empty store. */
  function Run(ord: Order, reqs: seq<Request>): World {
    RunFrom(ord, Fresh(None), reqs)
  }

  /** What the store holds after a run, once it is loaded again. */
  function After(ord: Order, w: World, reqs: seq<Request>): World {
    Load(ord, RunFrom(ord, w, reqs))
  }

  /** Keys whose entities depend on no other: cookies, localStorage items and databases. */
  predicate IsRoot(k: Key) {
    k.Cookie? || k.Local? || k.IdbDb?
  }

  ghost predicate Shape(w: World) {
    && w.stored.schema == SCHEMA_VERSION
    && |w.past| == w.stored.revision + 1
    && Bounded(w.stored)
    && w.past[w.stored.revision] == Seen(w.stored.state)
  }

  /** A root not stamped since revision b has the value it had at revision b. */
  ghost predicate Timeline(w: World)
    requires |w.past| > 0
  {
    forall k, b :: IsRoot(k) && 0 <= b < |w.past| && !Above(w.stored.revisions, k, b)
                   ==> Get(w.past[b], k) == Get(w.past[|w.past| - 1], k)
  }

  ghost predicate Inv(w: World) {
    Shape(w) && (Flatten(w.stored.state).Some? ==> Timeline(w))
  }

  lemma FreshInv(recovery: Option<string>)
    ensures Inv(Fresh(recovery)) && Flatten(Fresh(recovery).stored.state) == Some(map[])
  {
    var root := EmptyState().fields;
    assert ArrayAt(root, "cookies") == Some([]) && ArrayAt(root, "origins") == Some([]);
    var none: seq<Entity> := [];
    assert none + none == none;
    assert EmitState(EmptyState()) == Some(none);
  }

  lemma LoadInv(ord: Order, w: World)
    requires Inv(w)
    ensures Inv(Load(ord, w)) && Flatten(Load(ord, w).stored.state).Some?
    ensures Load(ord, w).stored.revision <= w.stored.revision
  {
    FreshInv(Some("corrupt-current"));
  }

  lemma MergedState(ord: Order, stored: Stored, req: Request)
    requires Merge(ord, stored, req).Some? && Merge(ord, stored, req).value.applied
    ensures Rebuild(ord, Apply(Seen(stored.state), Seen(req.proposed), Granted(stored, req)))
            == Some(Merge(ord, stored, req).value.stored.state)
    ensures Flatten(stored.state).Some? && Flatten(req.proposed).Some?
  {
    Merging(ord, stored, req);
    MergedIsRebuilt(ord, stored, req.base, Seen(req.observed), Seen(req.proposed), Seen(stored.state));
  }

  lemma MergedIsRebuilt(ord: Order, stored: Stored, base: nat, observed: map<Key, Json>, proposed: map<Key, Json>,
                        current: map<Key, Json>)
    requires Merged(ord, stored, base, observed, proposed, current).Some?
    requires Merged(ord, stored, base, observed, proposed, current).value.applied
    ensures Rebuild(ord, Apply(current, proposed, Accepted(stored.revisions, base, observed, proposed)))
            == Some(Merged(ord, stored, base, observed, proposed, current).value.stored.state)
  {
  }

  lemma AppliedEntitiesAreWellFormed(stored: Stored, req: Request)
    requires Flatten(stored.state).Some? && Flatten(req.proposed).Some?
    ensures WellFormedMap(Apply(Seen(stored.state), Seen(req.proposed), Granted(stored, req)))
  {
    FlattenWellFormed(req.proposed);
    FlattenWellFormed(stored.state);
    MergedEntitiesAreWellFormed(Seen(stored.state), Seen(req.proposed), Granted(stored, req));
  }

  lemma RebuiltRoot(ord: Order, m: map<Key, Json>, k: Key)
    requires Enumerates(ord) && WellFormedMap(m) && IsRoot(k) && Rebuilt(ord, m).Some?
    ensures Get(Rebuilt(ord, m).value, k) == Get(m, k)
  {
    RebuiltKeepsAllButRecords(ord, m, k);
  }

  /** What a merge does to a root, if the merged state can be read. */
  lemma MergedRoot(ord: Order, stored: Stored, req: Request, k: Key)
    requires Enumerates(ord) && Merge(ord, stored, req).Some? && Merge(ord, stored, req).value.applied && IsRoot(k)
    requires Flatten(Merge(ord, stored, req).value.stored.state).Some?
    ensures Get(Seen(Merge(ord, stored, req).value.stored.state), k)
            == if k in Granted(stored, req) then Get(Seen(req.proposed), k) else Get(Seen(stored.state), k)
  {
    var entities := Apply(Seen(stored.state), Seen(req.proposed), Granted(stored, req));
    MergedState(ord, stored, req);
    AppliedEntitiesAreWellFormed(stored, req);
    RebuiltRoot(ord, entities, k);
  }

  lemma AppliedTimeline(ord: Order, w: World, req: Request)
    requires Enumerates(ord) && Shape(w) && Timeline(w) && w.stored.revision < U64_MAX
    requires Merge(ord, w.stored, req).Some? && Merge(ord, w.stored, req).value.applied
    requires Flatten(Merge(ord, w.stored, req).value.stored.state).Some?
    ensures Timeline(Step(ord, w, req))
  {
    var o := Merge(ord, w.stored, req).value;
    var w' := Step(ord, w, req);
    MergeAccounts(ord, w.stored, req);
    forall k, b | IsRoot(k) && 0 <= b < |w'.past| && !Above(w'.stored.revisions, k, b)
      ensures Get(w'.past[b], k) == Get(w'.past[|w'.past| - 1], k)
    {
      if b < |w.past| {
        assert k !in Granted(w.stored, req);
        assert !Above(w.stored.revisions, k, b);
        MergedRoot(ord, w.stored, req, k);
        assert Get(w.past[b], k) == Get(w.past[|w.past| - 1], k);
      }
    }
  }

  lemma AppliedShape(ord: Order, w: World, req: Request)
    requires Shape(w) && w.stored.revision < U64_MAX
    requires Flatten(w.stored.state).Some? && Merge(ord, w.stored, req).Some? && Merge(ord, w.stored, req).value.applied
    ensures Shape(Step(ord, w, req)) && Step(ord, w, req).stored.revision == w.stored.revision + 1
  {
    MergeAccounts(ord, w.stored, req);
    MergeKeepsBounded(ord, w.stored, req);
  }

  lemma StepInv(ord: Order, w: World, req: Request)
    requires Enumerates(ord) && Inv(w) && w.stored.revision < U64_MAX
    ensures Inv(Step(ord, w, req)) && Step(ord, w, req).stored.revision <= w.stored.revision + 1
  {
    LoadInv(ord, w);
    var loaded := Load(ord, w);
    var r := Merge(ord, loaded.stored, req);
    if r.Some? && r.value.applied {
      assert Step(ord, w, req) == Step(ord, loaded, req);
      AppliedShape(ord, loaded, req);
      if Flatten(r.value.stored.state).Some? {
        AppliedTimeline(ord, loaded, req);
      }
    }
  }

  lemma {:induction false} RunFromInv(ord: Order, w: World, reqs: seq<Request>)
    requires Enumerates(ord) && Inv(w) && w.stored.revision + |reqs| <= U64_MAX
    ensures Inv(RunFrom(ord, w, reqs)) && RunFrom(ord, w, reqs).stored.revision <= w.stored.revision + |reqs|
  {
    if reqs != [] {
      RunFromInv(ord, w, reqs[..|reqs| - 1]);
      StepInv(ord, RunFrom(ord, w, reqs[..|reqs| - 1]), reqs[|reqs| - 1]);
    }
  }

  lemma AfterInv(ord: Order, w: World, reqs: seq<Request>)
    requires Enumerates(ord) && Inv(w) && w.stored.revision + |reqs| <= U64_MAX
    ensures Inv(After(ord, w, reqs)) && Flatten(After(ord, w, reqs).stored.state).Some?
    ensures After(ord, w, reqs).stored.revision <= w.stored.revision + |reqs|
  {
    RunFromInv(ord, w, reqs);
    LoadInv(ord, RunFrom(ord, w, reqs));
  }

  /** Key revisions never pass the store's, and the history is right, in every run that a u64 can count. */
  lemma RunInv(ord: Order, reqs: seq<Request>)
    requires Enumerates(ord) && |reqs| <= U64_MAX
    ensures Inv(Run(ord, reqs)) && Run(ord, reqs).stored.revision <= |reqs|
  {
    FreshInv(None);
    RunFromInv(ord, Fresh(None), reqs);
  }

  /** The checkpoint wrote this key: only a written key gets the new revision. */
  predicate Wrote(o: Outcome, k: Key) {
    o.applied && Get(o.stored.revisions, k) == Some(o.stored.revision)
  }

  lemma WroteIsAccepted(ord: Order, stored: Stored, req: Request, k: Key)
    requires Bounded(stored) && stored.revision < U64_MAX && Merge(ord, stored, req).Some?
    ensures Wrote(Merge(ord, stored, req).value, k) <==>
            k in Granted(stored, req)
  {
    MergeAccounts(ord, stored, req);
  }

  /** A checkpoint writes a root only as it was at the base revision; what it does not write stays. */
  lemma StepLosesNothing(ord: Order, w: World, req: Request, k: Key)
    requires Enumerates(ord) && Inv(w) && w.stored.revision < U64_MAX && IsRoot(k)
    requires Flatten(w.stored.state).Some? && Merge(ord, w.stored, req).Some?
    ensures var o := Merge(ord, w.stored, req).value;
            && req.base < |w.past|
            && (Wrote(o, k) ==> Get(w.past[req.base], k) == Get(Seen(w.stored.state), k))
            && (Flatten(o.stored.state).Some? ==>
                  Get(Seen(o.stored.state), k)
                  == if Wrote(o, k) then Get(Seen(req.proposed), k) else Get(Seen(w.stored.state), k))
  {
    var o := Merge(ord, w.stored, req).value;
    MergeAccounts(ord, w.stored, req);
    WroteIsAccepted(ord, w.stored, req, k);
    if Wrote(o, k) {
      assert !Above(w.stored.revisions, k, req.base);
    }
    if o.applied && Flatten(o.stored.state).Some? {
      MergedRoot(ord, w.stored, req, k);
    }
  }

  /**
   No lost update within one history: after any run, a checkpoint that writes a cookie, a localStorage item
   or a database finds it as the store's present history has it at the base revision, and leaves it as the
   writer proposed; what it does not write stays.
   */
  lemma NoLostUpdate(ord: Order, reqs: seq<Request>, req: Request, k: Key)
    requires Enumerates(ord) && |reqs| < U64_MAX && IsRoot(k)
    requires Merge(ord, Load(ord, Run(ord, reqs)).stored, req).Some?
    ensures var w := Load(ord, Run(ord, reqs));
            var o := Merge(ord, w.stored, req).value;
            && req.base < |w.past|
            && (Wrote(o, k) ==> Get(w.past[req.base], k) == Get(Seen(w.stored.state), k))
            && (Flatten(o.stored.state).Some? ==>
                  Get(Seen(o.stored.state), k)
                  == if Wrote(o, k) then Get(Seen(req.proposed), k) else Get(Seen(w.stored.state), k))
  {
    RunInv(ord, reqs);
    LoadInv(ord, Run(ord, reqs));
    StepLosesNothing(ord, Load(ord, Run(ord, reqs)), req, k);
  }

  /** Writing some keys does not make any other key conflict, or stop conflicting. */
  lemma WritersOfOtherKeysDoNotInterfere(ord: Order, stored: Stored, first: Request, base: nat,
                                         observed: map<Key, Json>, proposed: map<Key, Json>, k: Key)
    requires Bounded(stored) && stored.revision < U64_MAX && Merge(ord, stored, first).Some?
    requires !Wrote(Merge(ord, stored, first).value, k)
    ensures Conflicts(Merge(ord, stored, first).value.stored.revisions, base, observed, proposed, k)
            <==> Conflicts(stored.revisions, base, observed, proposed, k)
  {
    MergeAccounts(ord, stored, first);
    WroteIsAccepted(ord, stored, first, k);
    GrantedAreNotFences(stored, first);
    StampingOthers(stored.revisions, Granted(stored, first), stored.revision + 1, base, observed, proposed, k);
  }

  lemma GrantedAreNotFences(stored: Stored, req: Request)
    ensures forall k :: k in Granted(stored, req) ==> !IsFence(k)
  {
    SeenAreEntities(req.observed);
    SeenAreEntities(req.proposed);
  }

  lemma SeenAreEntities(state: Json)
    ensures forall k :: k in Seen(state) ==> k.IsEntity()
  {
    if Flatten(state).Some? {
      FlattenedAreEntities(state);
    }
  }

  ghost predicate NoFences(revisions: Revisions) {
    forall k :: k in revisions ==> !IsFence(k)
  }

  lemma {:induction false} RunHasNoFences(ord: Order, w: World, reqs: seq<Request>)
    requires Enumerates(ord) && Inv(w) && w.stored.revision + |reqs| <= U64_MAX && NoFences(w.stored.revisions)
    ensures NoFences(RunFrom(ord, w, reqs).stored.revisions)
  {
    if reqs != [] {
      var before := RunFrom(ord, w, reqs[..|reqs| - 1]);
      RunHasNoFences(ord, w, reqs[..|reqs| - 1]);
      RunFromInv(ord, w, reqs[..|reqs| - 1]);
      LoadInv(ord, before);
      StepHasNoFences(ord, before, reqs[|reqs| - 1]);
    }
  }

  lemma StepHasNoFences(ord: Order, w: World, req: Request)
    requires NoFences(w.stored.revisions) && Load(ord, w).stored.revision < U64_MAX
    requires w.stored.schema == SCHEMA_VERSION
    ensures NoFences(Step(ord, w, req).stored.revisions)
  {
    if Merge(ord, Load(ord, w).stored, req).Some? {
      MergeAccounts(ord, Load(ord, w).stored, req);
      GrantedAreNotFences(Load(ord, w).stored, req);
    }
  }

  /** Unless a store was migrated, a key conflicts only because that very key was written since the base. */
  lemma ConflictsAreOverTheKeyItself(ord: Order, reqs: seq<Request>, base: nat,
                                     observed: map<Key, Json>, proposed: map<Key, Json>, k: Key)
    requires Enumerates(ord) && |reqs| <= U64_MAX
    ensures Conflicts(Load(ord, Run(ord, reqs)).stored.revisions, base, observed, proposed, k)
            <==> Above(Load(ord, Run(ord, reqs)).stored.revisions, k, base)
  {
    FreshInv(None);
    RunHasNoFences(ord, Fresh(None), reqs);
    RunKeepsSchema(ord, Fresh(None), reqs);
    Loading(ord, Run(ord, reqs));
  }
}
