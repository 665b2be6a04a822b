/** After a restart a writer can overwrite what it has never read, unless it had read revision 0. */
module IdentityLostUpdates {
  import opened Common
  import opened IdentityState
  import opened IdentityEntities
  import opened IdentityMerge
  import opened IdentityMergeLaws
  import opened IdentityRestarts

  // ---------------------------------------------------------------------------------------
  // A new history that reaches any revision
  // ---------------------------------------------------------------------------------------

  const SID := Cookie(["n", "d", "/"])
  const TICK := Cookie(["t", "d", "/"])

  function CookieOf(name: string, value: string): Json {
    JObject(map["name" := JString(name), "domain" := JString("d"), "path" := JString("/"), "value" := JString(value)])
  }

  lemma CookieIsWellFormed(name: string, value: string)
    requires name != ""
    ensures WellFormed(Entity(Cookie([name, "d", "/"]), CookieOf(name, value)))
  {
    var c := CookieOf(name, value).fields;
    assert RequiredString(c, "name") == Some(name) && RequiredString(c, "domain") == Some("d");
    assert RequiredString(c, "path") == Some("/") && RequiredString(c, "partitionKey") == None;
  }

  function JustOneCookie(value: string): map<Key, Json> {
    map[SID := CookieOf("n", value)]
  }

  function TwoCookies(value: string, tick: string): map<Key, Json> {
    map[SID := CookieOf("n", value), TICK := CookieOf("t", tick)]
  }

  lemma CookiesAreStateful(value: string, tick: string)
    ensures IsStateful(JustOneCookie(value)) && IsStateful(TwoCookies(value, tick))
  {
    CookieIsWellFormed("n", value);
    CookieIsWellFormed("t", tick);
  }

  lemma CookiesDiffer(name: string, a: string, b: string)
    ensures CookieOf(name, a) == CookieOf(name, b) <==> a == b
  {
    assert CookieOf(name, a).fields["value"] == JString(a) && CookieOf(name, b).fields["value"] == JString(b);
  }

  lemma KeysDiffer()
    ensures SID != TICK
  {
    assert SID.segments[0][0] != TICK.segments[0][0];
  }

  function Flip(tick: string): string {
    if tick == "0" then "1" else "0"
  }

  lemma FlipDiffers(tick: string)
    ensures Flip(tick) != tick
  {
    assert "0"[0] != "1"[0];
  }

  lemma OnlyTickChanges(value: string, tick: string)
    ensures TwoCookies(value, tick) != TwoCookies(value, Flip(tick))
    ensures SID !in Changed(TwoCookies(value, tick), TwoCookies(value, Flip(tick)))
  {
    KeysDiffer();
    FlipDiffers(tick);
    CookiesDiffer("t", tick, Flip(tick));
    assert TwoCookies(value, tick)[TICK] != TwoCookies(value, Flip(tick))[TICK];
  }

  /** The store holds the two cookies, and the first was last written at revision 1. */
  ghost predicate Ticking(w: World, value: string, tick: string) {
    Inv(w) && Flatten(w.stored.state) == Some(TwoCookies(value, tick)) && Get(w.stored.revisions, SID) == Some(1)
  }

  lemma TickOnce(ord: Order, w: World, value: string, tick: string)
    requires Enumerates(ord) && Ticking(w, value, tick) && w.stored.revision < U64_MAX
    ensures var w' := Step(ord, w, Current(ord, w, TwoCookies(value, Flip(tick))));
            Ticking(w', value, Flip(tick)) && w'.stored.revision == w.stored.revision + 1
  {
    CookiesAreStateful(value, Flip(tick));
    OnlyTickChanges(value, tick);
    CurrentMoves(ord, w, TwoCookies(value, Flip(tick)));
    StepInv(ord, w, Current(ord, w, TwoCookies(value, Flip(tick))));
  }

  /** The run needs no restart, and ends with the cookies still ticking n revisions later. */
  ghost predicate TickingRun(ord: Order, w: World, reqs: seq<Request>, value: string, tick: string, n: nat) {
    && |reqs| == n && AlwaysReadable(ord, w, reqs)
    && Ticking(RunFrom(ord, w, reqs), value, tick) && RunFrom(ord, w, reqs).stored.revision == w.stored.revision + n
  }

  lemma TickAgain(ord: Order, w: World, before: seq<Request>, value: string, tick: string, n: nat)
    requires Enumerates(ord) && TickingRun(ord, w, before, value, tick, n) && w.stored.revision + n < U64_MAX
    ensures TickingRun(ord, w, before + [Current(ord, RunFrom(ord, w, before), TwoCookies(value, Flip(tick)))],
                       value, Flip(tick), n + 1)
  {
    TickOnce(ord, RunFrom(ord, w, before), value, tick);
    RunSnoc(ord, w, before, Current(ord, RunFrom(ord, w, before), TwoCookies(value, Flip(tick))));
  }

  /** Writers of the other cookie bring the store to any later revision. */
  lemma {:induction false} Ticks(ord: Order, w: World, value: string, tick: string, n: nat)
      returns (reqs: seq<Request>, last: string)
    requires Enumerates(ord) && Ticking(w, value, tick) && w.stored.revision + n <= U64_MAX
    ensures TickingRun(ord, w, reqs, value, last, n)
  {
    if n == 0 {
      reqs, last := [], tick;
    } else {
      var before, at := Ticks(ord, w, value, tick, n - 1);
      TickAgain(ord, w, before, value, at, n - 1);
      reqs, last := before + [Current(ord, RunFrom(ord, w, before), TwoCookies(value, Flip(at)))], Flip(at);
    }
  }

  lemma FirstCookies(ord: Order, recovery: Option<string>, value: string)
    requires Enumerates(ord)
    ensures var w := Fresh(recovery);
            var w' := Step(ord, w, Current(ord, w, TwoCookies(value, "0")));
            Ticking(w', value, "0") && w'.stored.revision == 1
  {
    FreshInv(recovery);
    CookiesAreStateful(value, "0");
    var w := Fresh(recovery);
    assert SID in TwoCookies(value, "0") && SID !in Seen(w.stored.state);
    CurrentMoves(ord, w, TwoCookies(value, "0"));
    StepInv(ord, w, Current(ord, w, TwoCookies(value, "0")));
  }

  /** A new history whose first cookie was written at revision 1 and never since. */
  lemma NewHistory(ord: Order, recovery: Option<string>, value: string, n: nat)
    returns (reqs: seq<Request>, tick: string)
    requires Enumerates(ord) && n + 1 <= U64_MAX
    ensures |reqs| == n + 1 && AlwaysReadable(ord, Fresh(recovery), reqs)
    ensures var w := RunFrom(ord, Fresh(recovery), reqs); Ticking(w, value, tick) && w.stored.revision == n + 1
  {
    var w := Fresh(recovery);
    var first := Current(ord, w, TwoCookies(value, "0"));
    FreshInv(recovery);
    FirstCookies(ord, recovery, value);
    RunSnoc(ord, w, [], first);
    var rest;
    rest, tick := Ticks(ord, RunFrom(ord, w, [] + [first]), value, "0", n);
    reqs := [] + [first] + rest;
    RunsCompose(ord, w, [] + [first], rest);
    ReadableComposes(ord, w, [] + [first], rest);
  }

  // ---------------------------------------------------------------------------------------
  // The stale writer
  // ---------------------------------------------------------------------------------------

  /** It replaces all that it has read by one cookie. */
  function Stale(ord: Order, read: World, value: string): Request {
    Request(read.stored.revision, read.stored.state, read.stored.state, StateOf(ord, JustOneCookie(value)))
  }

  lemma CookieHasNoOrigin(value: string)
    ensures EntityOrigin(CookieOf("n", value)) == None
  {
  }

  lemma CookieIsAccepted(revisions: Revisions, base: nat, observed: map<Key, Json>, value: string)
    requires NoFences(revisions) && !Above(revisions, SID, base) && Get(observed, SID) != Some(CookieOf("n", value))
    ensures SID in Accepted(revisions, base, observed, JustOneCookie(value))
  {
    CookieHasNoOrigin(value);
    assert SID in JustOneCookie(value) && JustOneCookie(value)[SID] == CookieOf("n", value);
  }

  lemma StaleWrites(ord: Order, read: World, now: World, value: string)
    requires Enumerates(ord) && IsReadable(read) && IsReadable(now) && Bounded(now.stored)
             && NoFences(now.stored.revisions)
    requires read.stored.revision < now.stored.revision < U64_MAX
    requires !Above(now.stored.revisions, SID, read.stored.revision)
    requires Get(Seen(read.stored.state), SID) != Some(CookieOf("n", value))
    ensures BasedOn(Stale(ord, read, value), read)
    ensures Merge(ord, now.stored, Stale(ord, read, value)).Some?
    ensures Wrote(Merge(ord, now.stored, Stale(ord, read, value)).value, SID)
  {
    var req := Stale(ord, read, value);
    CookiesAreStateful(value, "0");
    StateOfIs(ord, JustOneCookie(value));
    MergeFailsOnlyOverInputs(ord, now.stored, req);
    CookieIsAccepted(now.stored.revisions, req.base, Seen(read.stored.state), value);
    WroteIsAccepted(ord, now.stored, req, SID);
  }

  /** A value of the cookie other than the one that was read. */
  function Other(read: World): string {
    if Get(Seen(read.stored.state), SID) == Some(CookieOf("n", "a")) then "b" else "a"
  }

  lemma OtherDiffers(read: World)
    ensures Get(Seen(read.stored.state), SID) != Some(CookieOf("n", Other(read)))
  {
    assert "a"[0] != "b"[0];
    CookiesDiffer("n", "a", "b");
  }

  /** In the history after a restart, a writer from before it overwrites a cookie that it has never read. */
  lemma RestartLosesUpdate(ord: Order, read: World) returns (reqs: seq<Request>, req: Request)
    requires Enumerates(ord) && IsReadable(read) && 0 < read.stored.revision && read.stored.revision + 1 < U64_MAX
    ensures var w := Fresh(Some("corrupt-current"));
            && |reqs| == read.stored.revision + 1 && AlwaysReadable(ord, w, reqs) && BasedOn(req, read)
            && Overwrites(ord, read, After(ord, w, reqs), req, SID)
  {
    var w := Fresh(Some("corrupt-current"));
    var value := Other(read);
    OtherDiffers(read);
    var tick;
    reqs, tick := NewHistory(ord, Some("corrupt-current"), value, read.stored.revision);
    var now := RunFrom(ord, w, reqs);
    FreshInv(Some("corrupt-current"));
    RunHasNoFences(ord, w, reqs);
    req := Stale(ord, read, value);
    StaleWrites(ord, read, now, value);
    assert Get(Seen(now.stored.state), SID) == Some(CookieOf("n", value));
  }

  // ---------------------------------------------------------------------------------------
  // Exactly when no update is lost
  // ---------------------------------------------------------------------------------------

  /**
   Whatever part of the run has happened, and whatever comes after it without a further restart, no request
   based on what was read overwrites anything else.
   */
  ghost predicate NeverOverwrites(ord: Order, read: World, reqs: seq<Request>) {
    forall n: nat, more: seq<Request>, req: Request, k: Key ::
      n <= |reqs| && read.stored.revision + |reqs| + |more| < U64_MAX && BasedOn(req, read)
      && AlwaysReadable(ord, After(ord, read, reqs[..n]), more)
      ==> !Overwrites(ord, read, RunFrom(ord, After(ord, read, reqs[..n]), more), req, k)
  }

  lemma NoRestartNeverOverwrites(ord: Order, read: World, reqs: seq<Request>)
    requires Enumerates(ord) && Inv(read) && IsReadable(read) && AlwaysReadable(ord, read, reqs)
    ensures NeverOverwrites(ord, read, reqs)
  {
    forall n: nat, more: seq<Request>, req: Request, k: Key
      | n <= |reqs| && read.stored.revision + |reqs| + |more| < U64_MAX && BasedOn(req, read)
        && AlwaysReadable(ord, After(ord, read, reqs[..n]), more)
      ensures !Overwrites(ord, read, RunFrom(ord, After(ord, read, reqs[..n]), more), req, k)
    {
      NoRestartNeverOverwritesAt(ord, read, reqs, n, more, req, k);
    }
  }

  lemma NoRestartNeverOverwritesAt(ord: Order, read: World, reqs: seq<Request>, n: nat, more: seq<Request>,
                                   req: Request, k: Key)
    requires Enumerates(ord) && Inv(read) && IsReadable(read) && AlwaysReadable(ord, read, reqs)
    requires n <= |reqs| && read.stored.revision + |reqs| + |more| < U64_MAX && BasedOn(req, read)
    requires AlwaysReadable(ord, After(ord, read, reqs[..n]), more)
    ensures !Overwrites(ord, read, RunFrom(ord, After(ord, read, reqs[..n]), more), req, k)
  {
    ReadablePrefix(ord, read, reqs, n);
    ReadableAtEnd(ord, read, reqs[..n]);
    ReadableComposes(ord, read, reqs[..n], more);
    RunsCompose(ord, read, reqs[..n], more);
    ReadableAtEnd(ord, read, reqs[..n] + more);
    NoOverwriteSinceRead(ord, read, reqs[..n] + more, req, k);
  }

  /** Every history starts with the empty map. */
  ghost predicate StartsEmpty(w: World) {
    |w.past| > 0 && w.past[0] == map[]
  }

  lemma {:induction false} StillStartsEmpty(ord: Order, w: World, reqs: seq<Request>)
    requires StartsEmpty(w)
    ensures StartsEmpty(RunFrom(ord, w, reqs)) && StartsEmpty(After(ord, w, reqs))
  {
    if reqs != [] {
      StillStartsEmpty(ord, w, reqs[..|reqs| - 1]);
    }
  }

  /** Revision 0 is the same in every history, so its readers cannot be misled. */
  lemma RevisionZeroNeverOverwrites(ord: Order, read: World, reqs: seq<Request>)
    requires Enumerates(ord) && Inv(read) && IsReadable(read) && StartsEmpty(read) && read.stored.revision == 0
    ensures NeverOverwrites(ord, read, reqs)
  {
    forall n: nat, more: seq<Request>, req: Request, k: Key
      | n <= |reqs| && read.stored.revision + |reqs| + |more| < U64_MAX && BasedOn(req, read)
        && AlwaysReadable(ord, After(ord, read, reqs[..n]), more)
      ensures !Overwrites(ord, read, RunFrom(ord, After(ord, read, reqs[..n]), more), req, k)
    {
      RevisionZeroNeverOverwritesAt(ord, read, reqs[..n], more, req, k);
    }
  }

  lemma RevisionZeroNeverOverwritesAt(ord: Order, read: World, reqs: seq<Request>, more: seq<Request>, req: Request,
                                      k: Key)
    requires Enumerates(ord) && Inv(read) && IsReadable(read) && StartsEmpty(read) && read.stored.revision == 0
    requires |reqs| + |more| < U64_MAX && BasedOn(req, read) && AlwaysReadable(ord, After(ord, read, reqs), more)
    ensures !Overwrites(ord, read, RunFrom(ord, After(ord, read, reqs), more), req, k)
  {
    var w := After(ord, read, reqs);
    var now := RunFrom(ord, w, more);
    AfterInv(ord, read, reqs);
    RunFromInv(ord, w, more);
    ReadableAtEnd(ord, w, more);
    StillStartsEmpty(ord, read, reqs);
    StillStartsEmpty(ord, w, more);
    if IsRoot(k) && Merge(ord, now.stored, req).Some? {
      StepLosesNothing(ord, now, req, k);
    }
  }

  lemma RestartOverwrites(ord: Order, read: World, reqs: seq<Request>)
    requires Enumerates(ord) && IsReadable(read) && 0 < read.stored.revision
    requires 2 * read.stored.revision + |reqs| + 1 < U64_MAX && !AlwaysReadable(ord, read, reqs)
    ensures !NeverOverwrites(ord, read, reqs)
  {
    var n := FirstUnreadable(ord, read, reqs);
    RunKeepsSchema(ord, read, reqs[..n]);
    Loading(ord, RunFrom(ord, read, reqs[..n]));
    var more, req := NewHistoryOverwrites(ord, read);
    assert Overwrites(ord, read, RunFrom(ord, After(ord, read, reqs[..n]), more), req, SID);
  }

  lemma NewHistoryOverwrites(ord: Order, read: World) returns (more: seq<Request>, req: Request)
    requires Enumerates(ord) && IsReadable(read) && 0 < read.stored.revision && read.stored.revision + 1 < U64_MAX
    ensures var w := Fresh(Some("corrupt-current"));
            && |more| == read.stored.revision + 1 && AlwaysReadable(ord, w, more) && BasedOn(req, read)
            && Overwrites(ord, read, RunFrom(ord, w, more), req, SID)
  {
    more, req := RestartLosesUpdate(ord, read);
    ReadableAtEnd(ord, Fresh(Some("corrupt-current")), more);
  }

  /**
   No lost update, for a writer who bases its request on what it has read: it overwrites nothing else exactly
   when each request since then keeps the records' identities, so that the store is not started anew, or when
   it has read revision 0.
   */
  lemma NoLostUpdateExactly(ord: Order, before: seq<Request>, reqs: seq<Request>)
    requires Enumerates(ord) && 2 * |before| + |reqs| + 1 < U64_MAX
    ensures var read := Load(ord, Run(ord, before));
            NeverOverwrites(ord, read, reqs) <==> KeepsIdentities(ord, read, reqs) || read.stored.revision == 0
  {
    var read := Load(ord, Run(ord, before));
    RunInv(ord, before);
    LoadInv(ord, Run(ord, before));
    StillStartsEmpty(ord, Fresh(None), before);
    NoRestartExactly(ord, read, reqs);
    if AlwaysReadable(ord, read, reqs) {
      NoRestartNeverOverwrites(ord, read, reqs);
    } else if read.stored.revision == 0 {
      RevisionZeroNeverOverwrites(ord, read, reqs);
    } else {
      RestartOverwrites(ord, read, reqs);
    }
  }

  /**
   It happens: from the empty store, two requests of one writer, one request of a second that leaves the store
   unreadable, and a new history later, the first writer overwrites a cookie that it has never read.
   */
  lemma LostUpdateIsReachable(ord: Order)
      returns (before: seq<Request>, last: Request, more: seq<Request>, req: Request)
    requires Enumerates(ord)
    ensures var read := Load(ord, Run(ord, before));
            BasedOn(req, read) && Overwrites(ord, read, After(ord, read, [last] + more), req, SID)
  {
    FreshInv(None);
    before, last := RestartIsNear(ord, Fresh(None));
    ReadableAtEnd(ord, Fresh(None), before);
    var read := Load(ord, Run(ord, before));
    more, req := RestartLosesUpdate(ord, read);
    RunSnoc(ord, Fresh(None), before, last);
    OneRequest(ord, read, last);
    RunKeepsSchema(ord, read, [last]);
    StartedAnew(ord, read, [last], more);
  }

  lemma OneRequest(ord: Order, w: World, req: Request)
    ensures RunFrom(ord, w, [req]) == Step(ord, w, req)
  {
    assert [req][..0] == [];
  }
}
