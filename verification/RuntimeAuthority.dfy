/**
 The capability table of browser_runtime_authority.rs. Times are milliseconds on a monotone clock.
 Which token a search finds, and which of several equal expiries goes first, depend on hash order, so
 pruning and issuing are relations; what follows on a pruned table is a function.
 */
module RuntimeAuthority {
  import opened Common
  import opened Sorting

  const CAPABILITY_TTL: nat := 5 * 60 * 1000
  const MAX_CAPABILITIES: nat := 4096
  const PENDING := "pending-"

  datatype Binding = Binding(session: string, workspace: string, sidecar: string, sourceGeneration: nat,
                             hostGeneration: nat)

  datatype Capability = Capability(binding: Binding, expiresAt: nat)

  /** One life of a sidecar. */
  datatype Source = Source(sidecar: string, generation: nat)

  datatype Projection = Projection(session: string, expiresAt: nat)

  /** What a sidecar's owner says about it now. */
  datatype Resolution = Resolution(session: string, workspace: string)

  datatype Tables = Tables(capabilities: map<string, Capability>, projections: map<Source, Projection>)

  function SourceOf(b: Binding): Source {
    Source(b.sidecar, b.sourceGeneration)
  }

  predicate IsPending(session: string) {
    PENDING <= session
  }

  // ---------------------------------------------------------------------------------------
  // Pruning
  // ---------------------------------------------------------------------------------------

  function LiveCapabilities(caps: map<string, Capability>, now: nat): map<string, Capability> {
    map t | t in caps && caps[t].expiresAt > now :: caps[t]
  }

  function LiveProjections(ps: map<Source, Projection>, now: nat): map<Source, Projection> {
    map s | s in ps && ps[s].expiresAt > now :: ps[s]
  }

  ghost predicate SubTable(a: map<string, Capability>, b: map<string, Capability>) {
    forall t :: t in a ==> t in b && a[t] == b[t]
  }

  /** Only as many entries go as there are too many, and none that would outlive one that stays. */
  ghost predicate Evicted(live: map<string, Capability>, kept: map<string, Capability>) {
    && SubTable(kept, live)
    && |kept| == (if |live| <= MAX_CAPABILITIES then |live| else MAX_CAPABILITIES)
    && forall gone, stays ::
         gone in live && gone !in kept && stays in kept ==> live[gone].expiresAt <= kept[stays].expiresAt
  }

  ghost predicate Pruned(before: Tables, after: Tables, now: nat) {
    && after.projections == LiveProjections(before.projections, now)
    && Evicted(LiveCapabilities(before.capabilities, now), after.capabilities)
  }

  /** A table within bounds loses only what has expired. */
  lemma NothingEvicted(live: map<string, Capability>, kept: map<string, Capability>)
    requires Evicted(live, kept) && |live| <= MAX_CAPABILITIES
    ensures kept == live
  {
    assert kept.Keys <= live.Keys && |kept.Keys| == |kept| == |live| == |live.Keys|;
    SameSize(kept.Keys, live.Keys);
  }

  lemma SameSize<T>(a: set<T>, b: set<T>)
    requires a <= b && |a| == |b|
    ensures a == b
  {
    assert b == a + (b - a);
    assert |b| == |a| + |b - a|;
  }

  // ---------------------------------------------------------------------------------------
  // Issuing
  // ---------------------------------------------------------------------------------------

  datatype Admission = Admission(tables: Tables, binding: Binding)

  /** A pending session takes the projected one; a session that contradicts the projection ends it. */
  function Admit(t: Tables, b: Binding): Admission {
    var source := SourceOf(b);
    if source !in t.projections then Admission(t, b)
    else if IsPending(b.session) || b.session == t.projections[source].session
    then Admission(t, b.(session := t.projections[source].session))
    else Admission(t.(projections := t.projections - {source}), b)
  }

  predicate Holds(t: Tables, token: string, b: Binding, now: nat) {
    token in t.capabilities && t.capabilities[token].binding == b && t.capabilities[token].expiresAt > now
  }

  /** A binding that is already held is renewed under its token; otherwise it gets the minted one. */
  ghost predicate IssuedFrom(a: Admission, now: nat, minted: string, after: Tables, token: string) {
    && (if exists t :: Holds(a.tables, t, a.binding, now)
        then Holds(a.tables, token, a.binding, now)
        else token == minted)
    && after == a.tables.(capabilities := a.tables.capabilities[token := Capability(a.binding, now + CAPABILITY_TTL)])
  }

  ghost predicate Issued(before: Tables, b: Binding, now: nat, minted: string, after: Tables, token: string) {
    exists mid :: Pruned(before, mid, now) && IssuedFrom(Admit(mid, b), now, minted, after, token)
  }

  // ---------------------------------------------------------------------------------------
  // Projecting a product session
  // ---------------------------------------------------------------------------------------

  datatype Projecting = Projecting(tables: Tables, accepted: bool, rebound: set<string>)

  function TokensOf(t: Tables, source: Source): set<string> {
    set token | token in t.capabilities && SourceOf(t.capabilities[token].binding) == source
  }

  function Rebind(caps: map<string, Capability>, tokens: set<string>, session: string, now: nat)
    : map<string, Capability>
  {
    map t | t in caps ::
      if t in tokens then Capability(caps[t].binding.(session := session), now + CAPABILITY_TTL) else caps[t]
  }

  function Project(t: Tables, source: Source, current: string, product: string, now: nat): Projecting {
    if current == product then Projecting(t, true, {})
    else if !IsPending(current) then Projecting(t, false, {})
    else if source in t.projections then Projecting(t, t.projections[source].session == product, {})
    else
      var rebound := TokensOf(t, source);
      Projecting(Tables(Rebind(t.capabilities, rebound, product, now),
                        t.projections[source := Projection(product, now + CAPABILITY_TTL)]),
                 true, rebound)
  }

  // ---------------------------------------------------------------------------------------
  // Verifying
  // ---------------------------------------------------------------------------------------

  datatype Verification = Verification(tables: Tables, binding: Option<Binding>)

  /** The session to report for a source, and the projections after a look at it. */
  datatype Identity = Identity(session: string, projections: map<Source, Projection>)

  function Identify(ps: map<Source, Projection>, source: Source, current: string, now: nat): Identity {
    if source !in ps then Identity(current, ps)
    else if IsPending(current) || current == ps[source].session
    then Identity(ps[source].session, ps[source := Projection(ps[source].session, now + CAPABILITY_TTL)])
    else Identity(current, ps - {source})
  }

  function Verify(t: Tables, token: string, hostGeneration: nat, now: nat, resolve: Source -> Option<Resolution>)
    : Verification
  {
    if token !in t.capabilities then Verification(t, None)
    else
      var held := t.capabilities[token].binding;
      if held.hostGeneration != hostGeneration then Verification(t.(capabilities := t.capabilities - {token}), None)
      else
        match resolve(SourceOf(held))
        case None => Verification(t, None)
        case Some(current) =>
          var identity := Identify(t.projections, SourceOf(held), current.session, now);
          var b := held.(session := identity.session, workspace := current.workspace);
          Verification(Tables(t.capabilities[token := Capability(b, now + CAPABILITY_TTL)], identity.projections),
                       Some(b))
  }

  // ---------------------------------------------------------------------------------------
  // The class
  // ---------------------------------------------------------------------------------------

  datatype Expiry = Expiry(token: string, at: nat)

  function Earlier(): (Expiry, Expiry) -> bool {
    (a: Expiry, b: Expiry) => a.at <= b.at
  }

  ghost predicate ListsExpiries(list: seq<Expiry>, caps: map<string, Capability>) {
    && (forall e :: e in list <==> e.token in caps && caps[e.token].expiresAt == e.at)
    && Distinct(list)
  }

  function ExpiryOf(caps: map<string, Capability>, t: string): nat {
    if t in caps then caps[t].expiresAt else 0
  }

  lemma ListLength(list: seq<Expiry>, caps: map<string, Capability>)
    requires ListsExpiries(list, caps)
    ensures |list| == |caps|
    decreases |list|
  {
    if list == [] {
      forall t
        ensures t !in caps
      {
        assert Expiry(t, ExpiryOf(caps, t)) !in list;
      }
      assert caps.Keys == {};
    } else {
      var (e, rest) := (list[0], caps - {list[0].token});
      assert list == [e] + list[1..];
      forall x
        ensures x in list[1..] <==> x.token in rest && rest[x.token].expiresAt == x.at
      {
        assert x in list <==> x == e || x in list[1..];
      }
      ListLength(list[1..], rest);
      assert e in list && rest.Keys == caps.Keys - {e.token};
    }
  }

  /** The first entries of the sorted list are the ones that Evicted allows to go. */
  lemma SortedListEvicts(caps: map<string, Capability>, list: seq<Expiry>, n: nat, kept: map<string, Capability>)
    requires ListsExpiries(list, caps) && Sorted(Earlier(), list)
    requires n <= |list| && n == |caps| - MAX_CAPABILITIES
    requires kept == caps - TokensIn(list[..n])
    ensures Evicted(caps, kept)
  {
    ListLength(list, caps);
    KeptIsRest(caps, list, n, kept);
    ListLength(list[n..], kept);
    forall gone, stays | gone in caps && gone !in kept && stays in kept
      ensures caps[gone].expiresAt <= kept[stays].expiresAt
    {
      var i :| 0 <= i < n && list[..n][i].token == gone;
      assert list[i] in list;
      assert Expiry(stays, kept[stays].expiresAt) in list[n..];
      var j :| n <= j < |list| && list[j] == Expiry(stays, kept[stays].expiresAt);
      assert Earlier()(list[i], list[j]);
    }
  }

  function TokensIn(list: seq<Expiry>): set<string> {
    set i | 0 <= i < |list| :: list[i].token
  }

  lemma TokenListedOnce(list: seq<Expiry>, caps: map<string, Capability>, i: nat, j: nat)
    requires ListsExpiries(list, caps) && i < j < |list|
    ensures list[i].token != list[j].token
  {
    assert list[i] in list && list[j] in list;
  }

  lemma KeptIsRest(caps: map<string, Capability>, list: seq<Expiry>, n: nat, kept: map<string, Capability>)
    requires ListsExpiries(list, caps) && n <= |list|
    requires kept == caps - TokensIn(list[..n])
    ensures ListsExpiries(list[n..], kept)
  {
    forall i, j | 0 <= i < n <= j < |list|
      ensures list[..n][i].token != list[j].token
    {
      TokenListedOnce(list, caps, i, j);
    }
    forall i | 0 <= i < n
      ensures list[i].token in TokensIn(list[..n])
    {
      assert list[..n][i] == list[i];
    }
    forall e
      ensures e in list[n..] <==> e.token in kept && kept[e.token].expiresAt == e.at
    {
      if e in list[n..] {
        var j :| n <= j < |list| && list[j] == e;
        assert list[j] in list;
      }
      if e.token in kept && kept[e.token].expiresAt == e.at {
        assert e in list;
        var i :| n <= i < |list| && list[i] == e;
        assert list[n..][i - n] == e;
      }
    }
  }

  class BrowserRuntimeAuthority {
    var capabilities: map<string, Capability>
    var projectedProductSessions: map<Source, Projection>

    constructor ()
      ensures View() == Tables(map[], map[])
    {
      capabilities, projectedProductSessions := map[], map[];
    }

    function View(): Tables
      reads this
    {
      Tables(capabilities, projectedProductSessions)
    }

    /** Every entry with its expiry, in no particular order. */
    method ListExpiries() returns (list: seq<Expiry>)
      ensures ListsExpiries(list, capabilities)
    {
      list := [];
      var pending := capabilities.Keys;
      while pending != {}
        invariant pending <= capabilities.Keys
        invariant forall e :: e in list <==>
          e.token in capabilities && e.token !in pending && capabilities[e.token].expiresAt == e.at
        invariant Distinct(list)
        decreases pending
      {
        var t :| t in pending;
        list := list + [Expiry(t, capabilities[t].expiresAt)];
        pending := pending - {t};
      }
    }

    method PruneExpired(now: nat)
      modifies this
      ensures Pruned(old(View()), View(), now)
    {
      capabilities := LiveCapabilities(capabilities, now);
      projectedProductSessions := LiveProjections(projectedProductSessions, now);
      if |capabilities| <= MAX_CAPABILITIES {
        return;
      }
      var list := ListExpiries();
      EvictFirst(list);
    }

    method EvictFirst(list: seq<Expiry>)
      requires |capabilities| > MAX_CAPABILITIES && ListsExpiries(list, capabilities)
      modifies this`capabilities
      ensures Evicted(old(capabilities), capabilities)
    {
      var byExpiry := SortBy(Earlier(), list);
      ghost var live := capabilities;
      SortSorts(Earlier(), list);
      SortMembers(Earlier(), list);
      SortKeepsDistinct(Earlier(), list);
      ListLength(byExpiry, live);
      var n := |capabilities| - MAX_CAPABILITIES;
      RemoveFirst(byExpiry, n);
      SortedListEvicts(live, byExpiry, n, capabilities);
    }

    method RemoveFirst(list: seq<Expiry>, n: nat)
      requires n <= |list|
      modifies this`capabilities
      ensures capabilities == old(capabilities) - TokensIn(list[..n])
    {
      ghost var before := capabilities;
      for i := 0 to n
        invariant capabilities == before - TokensIn(list[..i])
      {
        TokensInNext(list, i);
        capabilities := capabilities - {list[i].token};
      }
    }

    /** A token under which the binding is held, if there is one. */
    method Find(b: Binding, now: nat) returns (found: Option<string>)
      ensures found.Some? ==> Holds(View(), found.value, b, now)
      ensures found.None? ==> forall t :: !Holds(View(), t, b, now)
    {
      var pending := capabilities.Keys;
      while pending != {}
        invariant pending <= capabilities.Keys
        invariant forall t :: Holds(View(), t, b, now) ==> t in pending
        decreases pending
      {
        var t :| t in pending;
        if capabilities[t].binding == b && capabilities[t].expiresAt > now {
          return Some(t);
        }
        pending := pending - {t};
      }
      return None;
    }

    /** Lets the projection of the binding's source decide its session, or ends the projection. */
    method AdmitBinding(requested: Binding) returns (binding: Binding)
      modifies this`projectedProductSessions
      ensures Admission(View(), binding) == Admit(old(View()), requested)
    {
      binding := requested;
      var source := SourceOf(binding);
      if source in projectedProductSessions {
        var session := projectedProductSessions[source].session;
        if IsPending(binding.session) || binding.session == session {
          binding := binding.(session := session);
        } else {
          projectedProductSessions := projectedProductSessions - {source};
        }
      }
    }

    method RenewOrMint(binding: Binding, now: nat, minted: string) returns (token: string)
      modifies this`capabilities
      ensures IssuedFrom(Admission(old(View()), binding), now, minted, View(), token)
    {
      ghost var before := View();
      var found := Find(binding, now);
      assert found.None? ==> !exists t :: Holds(before, t, binding, now);
      token := if found.Some? then found.value else minted;
      capabilities := capabilities[token := Capability(binding, now + CAPABILITY_TTL)];
    }

    method Issue(requested: Binding, now: nat, minted: string) returns (token: string)
      modifies this
      ensures Issued(old(View()), requested, now, minted, View(), token)
    {
      PruneExpired(now);
      ghost var mid := View();
      var binding := AdmitBinding(requested);
      token := RenewOrMint(binding, now, minted);
      assert IssuedFrom(Admit(mid, requested), now, minted, View(), token);
    }

    method ProjectProductSession(source: Source, current: string, product: string, now: nat) returns (accepted: bool)
      modifies this
      ensures exists mid :: Pruned(old(View()), mid, now)
                            && View() == Project(mid, source, current, product, now).tables
                            && accepted == Project(mid, source, current, product, now).accepted
    {
      PruneExpired(now);
      ghost var mid := View();
      if current == product {
        return true;
      }
      if !IsPending(current) {
        return false;
      }
      if source in projectedProductSessions {
        return projectedProductSessions[source].session == product;
      }
      projectedProductSessions := projectedProductSessions[source := Projection(product, now + CAPABILITY_TTL)];
      RebindSource(source, product, now);
      assert View() == Project(mid, source, current, product, now).tables;
      return true;
    }

    method RebindSource(source: Source, product: string, now: nat)
      modifies this`capabilities
      ensures capabilities == Rebind(old(capabilities), TokensOf(old(View()), source), product, now)
    {
      ghost var before := capabilities;
      ghost var mine := TokensOf(View(), source);
      var pending := capabilities.Keys;
      while pending != {}
        invariant pending <= before.Keys
        invariant capabilities == Rebind(before, mine - pending, product, now)
        decreases pending
      {
        var t :| t in pending;
        if SourceOf(capabilities[t].binding) == source {
          var rebound := capabilities[t].binding.(session := product);
          capabilities := capabilities[t := Capability(rebound, now + CAPABILITY_TTL)];
        }
        pending := pending - {t};
      }
      assert mine - {} == mine;
    }

    method VerifyToken(token: string, hostGeneration: nat, now: nat, resolve: Source -> Option<Resolution>)
      returns (r: Option<Binding>)
      modifies this
      ensures exists mid :: Pruned(old(View()), mid, now)
                            && Verification(View(), r) == Verify(mid, token, hostGeneration, now, resolve)
    {
      PruneExpired(now);
      ghost var mid := View();
      assert Pruned(old(View()), mid, now);
      if token !in capabilities {
        return None;
      }
      var binding := capabilities[token].binding;
      if binding.hostGeneration != hostGeneration {
        capabilities := capabilities - {token};
        return None;
      }
      var source := SourceOf(binding);
      var resolution := resolve(source);
      if resolution.None? {
        return None;
      }
      var session := resolution.value.session;
      if source in projectedProductSessions {
        var projected := projectedProductSessions[source].session;
        if IsPending(session) || session == projected {
          projectedProductSessions := projectedProductSessions[source := Projection(projected, now + CAPABILITY_TTL)];
          session := projected;
        } else {
          projectedProductSessions := projectedProductSessions - {source};
        }
      }
      binding := binding.(session := session, workspace := resolution.value.workspace);
      capabilities := capabilities[token := Capability(binding, now + CAPABILITY_TTL)];
      assert Verification(View(), Some(binding)) == Verify(mid, token, hostGeneration, now, resolve);
      return Some(binding);
    }
  }

  lemma TokensInNext(list: seq<Expiry>, n: nat)
    requires n < |list|
    ensures TokensIn(list[..n + 1]) == TokensIn(list[..n]) + {list[n].token}
  {
    forall t
      ensures t in TokensIn(list[..n + 1]) <==> t in TokensIn(list[..n]) || t == list[n].token
    {
      if t in TokensIn(list[..n]) {
        var i :| 0 <= i < n && list[..n][i].token == t;
        assert list[..n + 1][i].token == t;
      }
      if t == list[n].token {
        assert list[..n + 1][n].token == t;
      }
    }
  }
}
