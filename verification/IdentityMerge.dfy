/** Checkpoints: compare-and-swap of single entities against the revision a writer started from. */
module IdentityMerge {
  import opened Common
  import opened IdentityState
  import opened IdentityEntities
  import opened IdentityLoops

  const SCHEMA_VERSION: nat := 2

  datatype Stored = Stored(schema: nat, revision: nat, state: Json, revisions: Revisions, recovery: Option<string>)

  /** The writer's base revision and state, the state it saw and the state it wants. */
  datatype Request = Request(base: nat, baseState: Json, observed: Json, proposed: Json)

  /** What a merge returns when it does not fail. */
  datatype Outcome = Outcome(stored: Stored, conflicts: nat, applied: bool)

  function EmptyState(): Json {
    JObject(map["cookies" := JArray([]), "origins" := JArray([])])
  }

  function EmptyStore(): Stored {
    Stored(SCHEMA_VERSION, 0, EmptyState(), map[], None)
  }

  // ---------------------------------------------------------------------------------------
  // Conflicts
  // ---------------------------------------------------------------------------------------

  function FirstThree(segments: seq<string>): seq<string> {
    if |segments| <= 3 then segments else segments[..3]
  }

  /** The fence that schema 1 left for all partitions of a cookie. */
  function LegacyFence(k: Key): Option<Key> {
    if k.Cookie? then Some(LegacyCookie(FirstThree(k.segments))) else None
  }

  function EntityOrigin(v: Json): Option<string> {
    if v.JObject? then StringAt(v.fields, "origin") else None
  }

  predicate Above(revisions: Revisions, k: Key, base: nat) {
    k in revisions && revisions[k] > base
  }

  predicate LegacyConflict(revisions: Revisions, base: nat, k: Key) {
    LegacyFence(k).Some? && Above(revisions, LegacyFence(k).value, base)
  }

  predicate OriginConflict(revisions: Revisions, base: nat, v: Option<Json>) {
    && v.Some? && EntityOrigin(v.value).Some?
    && Above(revisions, OriginDelete(EntityOrigin(v.value).value), base)
  }

  /** The value that decides which origin a change belongs to: the proposed one, else the observed one. */
  function Latest(observed: map<Key, Json>, proposed: map<Key, Json>, k: Key): Option<Json> {
    if k in proposed then Some(proposed[k]) else Get(observed, k)
  }

  predicate Conflicts(revisions: Revisions, base: nat, observed: map<Key, Json>, proposed: map<Key, Json>, k: Key) {
    || Above(revisions, k, base)
    || LegacyConflict(revisions, base, k)
    || OriginConflict(revisions, base, Latest(observed, proposed, k))
  }

  function Changed(observed: map<Key, Json>, proposed: map<Key, Json>): set<Key> {
    set k | k in observed.Keys + proposed.Keys && Get(observed, k) != Get(proposed, k)
  }

  /** The part of a set of keys that conflicts with nothing. */
  function Free(revisions: Revisions, base: nat, observed: map<Key, Json>, proposed: map<Key, Json>, keys: set<Key>)
    : set<Key>
  {
    set k | k in keys && !Conflicts(revisions, base, observed, proposed, k)
  }

  function Accepted(revisions: Revisions, base: nat, observed: map<Key, Json>, proposed: map<Key, Json>): set<Key> {
    Free(revisions, base, observed, proposed, Changed(observed, proposed))
  }

  // ---------------------------------------------------------------------------------------
  // The merge, all keys at once
  // ---------------------------------------------------------------------------------------

  /** The accepted keys take their proposed values, or disappear; the others stay. */
  function Apply(current: map<Key, Json>, proposed: map<Key, Json>, accepted: set<Key>): map<Key, Json> {
    map k | k in current.Keys + proposed.Keys && (if k in accepted then k in proposed else k in current)
      :: if k in accepted then proposed[k] else current[k]
  }

  function Stamp(revisions: Revisions, accepted: set<Key>, revision: nat): Revisions {
    map k | k in revisions.Keys + accepted :: if k in accepted then revision else revisions[k]
  }

  function Merged(ord: Order, stored: Stored, base: nat, observed: map<Key, Json>, proposed: map<Key, Json>,
                  current: map<Key, Json>): Option<Outcome>
  {
    var changed := Changed(observed, proposed);
    var accepted := Accepted(stored.revisions, base, observed, proposed);
    if accepted == {} then Some(Outcome(stored, |changed - accepted|, false))
    else
      var next := SaturatingAdd(stored.revision, 1);
      var state :- Rebuild(ord, Apply(current, proposed, accepted));
      Some(Outcome(stored.(revision := next, state := state, revisions := Stamp(stored.revisions, accepted, next)),
                   |changed - accepted|, true))
  }

  function Merge(ord: Order, stored: Stored, req: Request): Option<Outcome> {
    if req.base > stored.revision then None
    else
      var base :- Flatten(req.baseState);
      var observed :- Flatten(req.observed);
      var proposed :- Flatten(req.proposed);
      var current :- Flatten(stored.state);
      if req.base == stored.revision && base != current then None
      else Merged(ord, stored, req.base, observed, proposed, current)
  }

  // ---------------------------------------------------------------------------------------
  // The merge as the loop that does one key after another
  // ---------------------------------------------------------------------------------------

  /** Keys that only migration or deletion of an origin could have written. */
  predicate IsFence(k: Key) {
    k.LegacyCookie? || k.OriginDelete?
  }

  lemma FlattenedAreEntities(state: Json)
    requires Flatten(state).Some?
    ensures forall k :: k in Flatten(state).value ==> k.IsEntity()
  {
    FlattenWellFormed(state);
    var m := Flatten(state).value;
    forall k | k in m
      ensures k.IsEntity()
    {
      assert WellFormed(Entity(k, m[k]));
    }
  }

  /** Stamping other entities does not change what conflicts: fences are not entities. */
  lemma StampingOthers(revisions: Revisions, stamped: set<Key>, next: nat, base: nat,
                       observed: map<Key, Json>, proposed: map<Key, Json>, k: Key)
    requires k !in stamped && forall x :: x in stamped ==> !IsFence(x)
    ensures Conflicts(Stamp(revisions, stamped, next), base, observed, proposed, k)
            <==> Conflicts(revisions, base, observed, proposed, k)
  {
  }

  lemma ApplyOne(current: map<Key, Json>, proposed: map<Key, Json>, done: set<Key>, k: Key)
    ensures k in proposed ==> Apply(current, proposed, done)[k := proposed[k]] == Apply(current, proposed, done + {k})
    ensures k !in proposed ==> Apply(current, proposed, done) - {k} == Apply(current, proposed, done + {k})
  {
  }

  lemma StampOne(revisions: Revisions, done: set<Key>, next: nat, k: Key)
    ensures Stamp(revisions, done, next)[k := next] == Stamp(revisions, done + {k}, next)
  {
  }

  lemma NothingApplied(current: map<Key, Json>, proposed: map<Key, Json>, revisions: Revisions, next: nat)
    ensures Apply(current, proposed, {}) == current && Stamp(revisions, {}, next) == revisions
  {
  }

  /** What the loop over the changed keys reads and never writes. */
  datatype Context = Context(before: Revisions, current: map<Key, Json>, base: nat, next: nat,
                             observed: map<Key, Json>, proposed: map<Key, Json>)

  datatype Progress = Progress(entities: map<Key, Json>, revisions: Revisions, conflicts: nat, applied: bool)

  /** One turn of the loop. */
  function Turn(c: Context, p: Progress, k: Key): Progress {
    if Conflicts(p.revisions, c.base, c.observed, c.proposed, k) then p.(conflicts := p.conflicts + 1)
    else
      Progress(if k in c.proposed then p.entities[k := c.proposed[k]] else p.entities - {k},
               p.revisions[k := c.next], p.conflicts, true)
  }

  /** Where the loop is when some keys are done, all at once. */
  function Reached(c: Context, done: set<Key>): Progress {
    var free := Free(c.before, c.base, c.observed, c.proposed, done);
    Progress(Apply(c.current, c.proposed, free), Stamp(c.before, free, c.next), |done - free|, free != {})
  }

  lemma FreeOne(c: Context, done: set<Key>, k: Key)
    requires k !in done
    ensures var before := Free(c.before, c.base, c.observed, c.proposed, done);
            var after := Free(c.before, c.base, c.observed, c.proposed, done + {k});
            if Conflicts(c.before, c.base, c.observed, c.proposed, k)
            then after == before && |done + {k} - after| == |done - before| + 1
            else after == before + {k} && |done + {k} - after| == |done - before|
  {
    var before := Free(c.before, c.base, c.observed, c.proposed, done);
    if Conflicts(c.before, c.base, c.observed, c.proposed, k) {
      assert done + {k} - before == done - before + {k};
    } else {
      assert done + {k} - (before + {k}) == done - before;
    }
  }

  lemma TurnReaches(c: Context, done: set<Key>, k: Key)
    requires k !in done && forall x :: x in done ==> !IsFence(x)
    ensures Turn(c, Reached(c, done), k) == Reached(c, done + {k})
  {
    var free := Free(c.before, c.base, c.observed, c.proposed, done);
    FreeOne(c, done, k);
    StampingOthers(c.before, free, c.next, c.base, c.observed, c.proposed, k);
    ApplyOne(c.current, c.proposed, free, k);
    StampOne(c.before, free, c.next, k);
  }

  lemma NothingReached(c: Context)
    ensures Progress(c.current, c.before, 0, false) == Reached(c, {})
  {
    NothingApplied(c.current, c.proposed, c.before, c.next);
  }

  method MergeKey(c: Context, p: Progress, k: Key, ghost done: set<Key>) returns (p': Progress)
    requires p == Reached(c, done) && k !in done && forall x :: x in done ==> !IsFence(x)
    ensures p' == Reached(c, done + {k})
  {
    TurnReaches(c, done, k);
    if Conflicts(p.revisions, c.base, c.observed, c.proposed, k) {
      return p.(conflicts := p.conflicts + 1);
    }
    var entities := if k in c.proposed then p.entities[k := c.proposed[k]] else p.entities - {k};
    return Progress(entities, p.revisions[k := c.next], p.conflicts, true);
  }

  method MergeKeys(c: Context, keys: set<Key>) returns (p: Progress)
    requires forall k :: k in keys ==> !IsFence(k)
    ensures p == Reached(c, keys)
  {
    NothingReached(c);
    p := Progress(c.current, c.before, 0, false);
    var pending := keys;
    ghost var done: set<Key> := {};
    while pending != {}
      invariant done + pending == keys && done !! pending
      invariant p == Reached(c, done)
      decreases pending
    {
      var k :| k in pending;
      p := MergeKey(c, p, k, done);
      done, pending := done + {k}, pending - {k};
    }
    assert done == keys;
  }

  method MergeCheckpoint(ord: Order, stored: Stored, req: Request) returns (r: Option<Outcome>)
    requires Enumerates(ord)
    ensures r == Merge(ord, stored, req)
  {
    if req.base > stored.revision {
      return None;
    }
    var base := FlattenState(req.baseState);
    var observed := FlattenState(req.observed);
    var proposed := FlattenState(req.proposed);
    var current := FlattenState(stored.state);
    if base.None? || observed.None? || proposed.None? || current.None? {
      return None;
    }
    if req.base == stored.revision && base != current {
      return None;
    }
    FlattenedAreEntities(req.observed);
    FlattenedAreEntities(req.proposed);
    r := MergeEntities(ord, stored, req.base, observed.value, proposed.value, current.value);
  }

  method MergeEntities(ord: Order, stored: Stored, base: nat, observed: map<Key, Json>, proposed: map<Key, Json>,
                       current: map<Key, Json>)
    returns (r: Option<Outcome>)
    requires Enumerates(ord) && forall k :: k in observed.Keys + proposed.Keys ==> !IsFence(k)
    ensures r == Merged(ord, stored, base, observed, proposed, current)
  {
    var changed := Changed(observed, proposed);
    if changed == {} {
      return Some(Outcome(stored, 0, false));
    }
    var next := SaturatingAdd(stored.revision, 1);
    var p := MergeKeys(Context(stored.revisions, current, base, next, observed, proposed), changed);
    if !p.applied {
      return Some(Outcome(stored, p.conflicts, false));
    }
    var state := RebuildState(ord, p.entities);
    if state.None? {
      return None;
    }
    return Some(Outcome(stored.(revision := next, state := state.value, revisions := p.revisions), p.conflicts, true));
  }
}
