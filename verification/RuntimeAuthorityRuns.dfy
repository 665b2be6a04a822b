/** What capabilities promise over whole runs, with tokens that are never minted twice. */
module RuntimeAuthorityRuns {
  import opened Common
  import opened RuntimeAuthority

  /** The two process lives a token is scoped to. */
  datatype Scope = Scope(source: Source, hostGeneration: nat)

  function ScopeOf(b: Binding): Scope {
    Scope(SourceOf(b), b.hostGeneration)
  }

  /** The table, the clock, the scope each token was minted for, and when each was last used. */
  datatype World = World(tables: Tables, now: nat, minted: map<string, Scope>, used: map<string, nat>)

  datatype Event =
    | IssueCall(binding: Binding, unused: string, token: string)
    | ProjectCall(source: Source, current: string, product: string, accepted: bool)
    | VerifyCall(token: string, hostGeneration: nat, resolve: Source -> Option<Resolution>, result: Option<Binding>)

  function Start(): World {
    World(Tables(map[], map[]), 0, map[], map[])
  }

  function Touch(used: map<string, nat>, tokens: set<string>, now: nat): map<string, nat> {
    map t | t in used.Keys + tokens :: if t in tokens then now else used[t]
  }

  ghost predicate IssueEffect(w: World, mid: Tables, b: Binding, unused: string, token: string, w': World) {
    && unused !in w.minted
    && IssuedFrom(Admit(mid, b), w'.now, unused, w'.tables, token)
    && w'.minted == (if token in w.minted then w.minted else w.minted[token := ScopeOf(b)])
    && w'.used == Touch(w.used, {token}, w'.now)
  }

  ghost predicate ProjectEffect(w: World, mid: Tables, source: Source, current: string, product: string, accepted: bool,
                                w': World) {
    && Projecting(w'.tables, accepted, Project(mid, source, current, product, w'.now).rebound)
       == Project(mid, source, current, product, w'.now)
    && w'.minted == w.minted
    && w'.used == Touch(w.used, Project(mid, source, current, product, w'.now).rebound, w'.now)
  }

  ghost predicate VerifyEffect(w: World, mid: Tables, token: string, hostGeneration: nat,
                               resolve: Source -> Option<Resolution>, result: Option<Binding>, w': World) {
    && Verification(w'.tables, result) == Verify(mid, token, hostGeneration, w'.now, resolve)
    && w'.minted == w.minted
    && w'.used == Touch(w.used, if result.Some? then {token} else {}, w'.now)
  }

  /** An event on the pruned table. */
  ghost predicate Effect(w: World, mid: Tables, e: Event, w': World) {
    match e
    case IssueCall(b, unused, token) => IssueEffect(w, mid, b, unused, token, w')
    case ProjectCall(source, current, product, accepted) =>
      ProjectEffect(w, mid, source, current, product, accepted, w')
    case VerifyCall(token, hostGeneration, resolve, result) =>
      VerifyEffect(w, mid, token, hostGeneration, resolve, result, w')
  }

  /** One call: the clock does not go back, the table is pruned, the call takes effect. */
  ghost predicate Next(w: World, e: Event, w': World) {
    w.now <= w'.now && exists mid :: Pruned(w.tables, mid, w'.now) && Effect(w, mid, e, w')
  }

  ghost predicate StepAt(ws: seq<World>, es: seq<Event>, i: nat) {
    i < |es| && i + 1 < |ws| && Next(ws[i], es[i], ws[i + 1])
  }

  ghost predicate IsRun(ws: seq<World>, es: seq<Event>) {
    && |ws| == |es| + 1 && ws[0] == Start()
    && forall i :: 0 <= i < |es| ==> StepAt(ws, es, i)
  }

  // ---------------------------------------------------------------------------------------
  // The invariant
  // ---------------------------------------------------------------------------------------

  /** Every capability keeps the scope it was minted for. */
  ghost predicate Scoped(caps: map<string, Capability>, minted: map<string, Scope>) {
    forall t :: t in caps ==> t in minted && ScopeOf(caps[t].binding) == minted[t]
  }

  /** Every capability expires one TTL after its last use. */
  ghost predicate Timed(caps: map<string, Capability>, used: map<string, nat>) {
    forall t :: t in caps ==> t in used && caps[t].expiresAt == used[t] + CAPABILITY_TTL
  }

  ghost predicate Inv(w: World) {
    && Scoped(w.tables.capabilities, w.minted)
    && Timed(w.tables.capabilities, w.used)
    && |w.tables.capabilities| <= MAX_CAPABILITIES + 1
  }

  lemma PruningKeeps(before: Tables, mid: Tables, now: nat)
    requires Pruned(before, mid, now)
    ensures SubTable(mid.capabilities, before.capabilities)
    ensures forall t :: t in mid.capabilities ==> mid.capabilities[t].expiresAt > now
    ensures |mid.capabilities| <= MAX_CAPABILITIES
  {
  }

  lemma PrunedInv(w: World, mid: Tables, now: nat)
    requires Inv(w) && Pruned(w.tables, mid, now)
    ensures Scoped(mid.capabilities, w.minted) && Timed(mid.capabilities, w.used)
  {
    PruningKeeps(w.tables, mid, now);
  }

  lemma AdmittedScope(t: Tables, b: Binding)
    ensures ScopeOf(Admit(t, b).binding) == ScopeOf(b) && Admit(t, b).tables.capabilities == t.capabilities
  {
  }

  // ---- what all events have in common ----

  /** A capability is renewed when touched, and is a pruned one under the same scope or newly minted. */
  ghost predicate Carried(mid: map<string, Capability>, touched: set<string>, t: string, minted: map<string, Scope>,
                          w': World)
    requires t in w'.tables.capabilities
  {
    var c := w'.tables.capabilities[t];
    && (if t in touched then c.expiresAt == w'.now + CAPABILITY_TTL else t in mid && c.expiresAt == mid[t].expiresAt)
    && (if t in mid then ScopeOf(c.binding) == ScopeOf(mid[t].binding)
        else t !in minted && t in w'.minted && ScopeOf(c.binding) == w'.minted[t])
  }

  ghost predicate Summary(w: World, mid: map<string, Capability>, touched: set<string>, w': World) {
    && (forall t :: t in w'.tables.capabilities ==> Carried(mid, touched, t, w.minted, w'))
    && (forall t :: t in w.minted ==> t in w'.minted && w'.minted[t] == w.minted[t])
    && w'.used == Touch(w.used, touched, w'.now)
    && |w'.tables.capabilities| <= |mid| + 1
  }

  lemma Smaller(a: set<string>, b: set<string>)
    requires a <= b
    ensures |a| <= |b|
  {
    assert b == a + (b - a);
  }

  lemma AtMostOneMore(a: map<string, Capability>, b: map<string, Capability>, t: string)
    requires a.Keys <= b.Keys + {t}
    ensures |a| <= |b| + 1
  {
    Smaller(a.Keys, b.Keys + {t});
  }

  /** One capability is renewed or added; an added one is of a token not minted before. */
  ghost predicate Renews(mid: map<string, Capability>, token: string, c: Capability, minted: map<string, Scope>,
                         w': World) {
    && w'.tables.capabilities == mid[token := c] && c.expiresAt == w'.now + CAPABILITY_TTL
    && (if token in mid then ScopeOf(c.binding) == ScopeOf(mid[token].binding)
        else token !in minted && token in w'.minted && ScopeOf(c.binding) == w'.minted[token])
  }

  lemma RenewCarries(mid: map<string, Capability>, token: string, c: Capability, minted: map<string, Scope>, w': World)
    requires Renews(mid, token, c, minted, w')
    ensures forall t :: t in w'.tables.capabilities ==> Carried(mid, {token}, t, minted, w')
    ensures |w'.tables.capabilities| <= |mid| + 1
  {
    AtMostOneMore(w'.tables.capabilities, mid, token);
  }

  lemma SubTableCarries(mid: map<string, Capability>, minted: map<string, Scope>, w': World)
    requires SubTable(w'.tables.capabilities, mid)
    ensures forall t :: t in w'.tables.capabilities ==> Carried(mid, {}, t, minted, w')
    ensures |w'.tables.capabilities| <= |mid| + 1
  {
    AtMostOneMore(w'.tables.capabilities, mid, "");
  }

  lemma IssueRenews(w: World, mid: Tables, b: Binding, unused: string, token: string, w': World)
    requires Scoped(mid.capabilities, w.minted) && IssueEffect(w, mid, b, unused, token, w')
    ensures Renews(mid.capabilities, token, Capability(Admit(mid, b).binding, w'.now + CAPABILITY_TTL), w.minted, w')
  {
    AdmittedScope(mid, b);
  }

  lemma IssueSummary(w: World, mid: Tables, b: Binding, unused: string, token: string, w': World)
    requires Scoped(mid.capabilities, w.minted) && IssueEffect(w, mid, b, unused, token, w')
    ensures Summary(w, mid.capabilities, {token}, w')
  {
    IssueRenews(w, mid, b, unused, token, w');
    RenewCarries(mid.capabilities, token, Capability(Admit(mid, b).binding, w'.now + CAPABILITY_TTL), w.minted, w');
  }

  lemma RebindCarries(w: World, mid: map<string, Capability>, tokens: set<string>, session: string, w': World)
    requires tokens <= mid.Keys && w'.tables.capabilities == Rebind(mid, tokens, session, w'.now)
    ensures forall t :: t in w'.tables.capabilities ==> Carried(mid, tokens, t, w.minted, w')
  {
  }

  /** Without anything to rebind, the capabilities stay as they are. */
  lemma ProjectRebinds(t: Tables, source: Source, current: string, product: string, now: nat)
    ensures var p := Project(t, source, current, product, now);
            p.rebound <= t.capabilities.Keys && p.tables.capabilities == Rebind(t.capabilities, p.rebound, product, now)
  {
    assert t.capabilities == Rebind(t.capabilities, {}, product, now);
  }

  lemma ProjectSummary(w: World, mid: Tables, source: Source, current: string, product: string, accepted: bool,
                       w': World)
    requires Scoped(mid.capabilities, w.minted) && ProjectEffect(w, mid, source, current, product, accepted, w')
    ensures Summary(w, mid.capabilities, Project(mid, source, current, product, w'.now).rebound, w')
  {
    ProjectRebinds(mid, source, current, product, w'.now);
    RebindCarries(w, mid.capabilities, Project(mid, source, current, product, w'.now).rebound, product, w');
    AtMostOneMore(w'.tables.capabilities, mid.capabilities, "");
  }

  lemma VerifyRenews(w: World, mid: Tables, token: string, hostGeneration: nat,
                     resolve: Source -> Option<Resolution>, result: Option<Binding>, w': World)
    requires VerifyEffect(w, mid, token, hostGeneration, resolve, result, w')
    ensures result.Some? ==>
              Renews(mid.capabilities, token, Capability(result.value, w'.now + CAPABILITY_TTL), w.minted, w')
    ensures result.None? ==> SubTable(w'.tables.capabilities, mid.capabilities)
  {
  }

  lemma VerifySummary(w: World, mid: Tables, token: string, hostGeneration: nat,
                      resolve: Source -> Option<Resolution>, result: Option<Binding>, w': World)
    requires VerifyEffect(w, mid, token, hostGeneration, resolve, result, w')
    ensures Summary(w, mid.capabilities, if result.Some? then {token} else {}, w')
  {
    VerifyRenews(w, mid, token, hostGeneration, resolve, result, w');
    if result.Some? {
      RenewCarries(mid.capabilities, token, Capability(result.value, w'.now + CAPABILITY_TTL), w.minted, w');
    } else {
      SubTableCarries(mid.capabilities, w.minted, w');
    }
  }

  lemma NextSummary(w: World, e: Event, w': World) returns (mid: Tables, touched: set<string>)
    requires Inv(w) && Next(w, e, w')
    ensures Pruned(w.tables, mid, w'.now) && Effect(w, mid, e, w')
    ensures Scoped(mid.capabilities, w.minted) && Timed(mid.capabilities, w.used)
    ensures Summary(w, mid.capabilities, touched, w')
  {
    mid :| Pruned(w.tables, mid, w'.now) && Effect(w, mid, e, w');
    PrunedInv(w, mid, w'.now);
    match e
    case IssueCall(b, unused, token) =>
      IssueSummary(w, mid, b, unused, token, w');
      touched := {token};
    case ProjectCall(source, current, product, accepted) =>
      ProjectSummary(w, mid, source, current, product, accepted, w');
      touched := Project(mid, source, current, product, w'.now).rebound;
    case VerifyCall(token, hostGeneration, resolve, result) =>
      VerifySummary(w, mid, token, hostGeneration, resolve, result, w');
      touched := if result.Some? then {token} else {};
  }

  lemma SummaryInv(w: World, mid: map<string, Capability>, touched: set<string>, w': World)
    requires Scoped(mid, w.minted) && Timed(mid, w.used) && |mid| <= MAX_CAPABILITIES && Summary(w, mid, touched, w')
    ensures Inv(w')
  {
    forall t | t in w'.tables.capabilities
      ensures t in w'.minted && ScopeOf(w'.tables.capabilities[t].binding) == w'.minted[t]
      ensures t in w'.used && w'.tables.capabilities[t].expiresAt == w'.used[t] + CAPABILITY_TTL
    {
      assert Carried(mid, touched, t, w.minted, w');
    }
  }

  lemma NextInv(w: World, e: Event, w': World)
    requires Inv(w) && Next(w, e, w')
    ensures Inv(w')
  {
    var mid, touched := NextSummary(w, e, w');
    PruningKeeps(w.tables, mid, w'.now);
    SummaryInv(w, mid.capabilities, touched, w');
  }

  lemma RunStep(ws: seq<World>, es: seq<Event>, i: nat)
    requires IsRun(ws, es) && i < |es| && Inv(ws[i])
    ensures Inv(ws[i + 1])
  {
    assert StepAt(ws, es, i);
    NextInv(ws[i], es[i], ws[i + 1]);
  }

  /** In every reachable state the table is scoped, timed and holds at most 4097 capabilities. */
  lemma {:induction false} ReachableInv(ws: seq<World>, es: seq<Event>, i: nat)
    requires IsRun(ws, es) && i < |ws|
    ensures Inv(ws[i])
  {
    if i > 0 {
      ReachableInv(ws, es, i - 1);
      RunStep(ws, es, i - 1);
    }
  }

  // ---------------------------------------------------------------------------------------
  // What a verification says
  // ---------------------------------------------------------------------------------------

  /** The binding that a verification reports is of the held scope and says what the owner says. */
  ghost predicate Reported(t: Tables, token: string, hostGeneration: nat, resolve: Source -> Option<Resolution>,
                           b: Binding) {
    && token in t.capabilities && ScopeOf(b) == ScopeOf(t.capabilities[token].binding)
       && b.hostGeneration == hostGeneration
    && var owner := resolve(SourceOf(b));
       && owner.Some? && b.workspace == owner.value.workspace
       && (b.session == owner.value.session
           || (IsPending(owner.value.session) && SourceOf(b) in t.projections
              && b.session == t.projections[SourceOf(b)].session))
  }

  lemma VerifyReports(t: Tables, token: string, hostGeneration: nat, now: nat, resolve: Source -> Option<Resolution>,
                      b: Binding)
    requires Verify(t, token, hostGeneration, now, resolve).binding == Some(b)
    ensures Reported(t, token, hostGeneration, resolve, b)
  {
  }

  lemma ReportedEarlier(before: Tables, mid: Tables, now: nat, token: string, hostGeneration: nat,
                        resolve: Source -> Option<Resolution>, b: Binding)
    requires Pruned(before, mid, now) && Reported(mid, token, hostGeneration, resolve, b)
    ensures Reported(before, token, hostGeneration, resolve, b) && now < before.capabilities[token].expiresAt
  {
  }

  /**
   A successful verification reports the lives fixed when the token was minted, on the host it was minted
   for, of a token used less than one TTL ago, with what the source's owner says now.
   */
  lemma VerifiedAsMinted(ws: seq<World>, es: seq<Event>, i: nat)
    requires IsRun(ws, es) && i < |es| && es[i].VerifyCall? && es[i].result.Some?
    ensures var (w, e, b) := (ws[i], es[i], es[i].result.value);
            && e.token in w.minted && ScopeOf(b) == w.minted[e.token]
            && e.token in w.used && ws[i + 1].now < w.used[e.token] + CAPABILITY_TTL
            && Reported(w.tables, e.token, e.hostGeneration, e.resolve, b)
  {
    assert StepAt(ws, es, i);
    ReachableInv(ws, es, i);
    VerifiedInStep(ws[i], es[i].token, es[i].hostGeneration, es[i].resolve, es[i].result.value, ws[i + 1]);
  }

  lemma VerifiedInStep(w: World, token: string, hostGeneration: nat, resolve: Source -> Option<Resolution>, b: Binding,
                       w': World)
    requires Inv(w) && Next(w, VerifyCall(token, hostGeneration, resolve, Some(b)), w')
    ensures token in w.minted && ScopeOf(b) == w.minted[token]
    ensures token in w.used && w'.now < w.used[token] + CAPABILITY_TTL
    ensures Reported(w.tables, token, hostGeneration, resolve, b)
  {
    var mid :| Pruned(w.tables, mid, w'.now) && Effect(w, mid, VerifyCall(token, hostGeneration, resolve, Some(b)), w');
    VerifyReports(mid, token, hostGeneration, w'.now, resolve, b);
    ReportedEarlier(w.tables, mid, w'.now, token, hostGeneration, resolve, b);
  }

  /** The one token of a table that expires before all others. */
  predicate IsFirst(live: map<string, Capability>, token: string) {
    token in live && forall t :: t in live && t != token ==> live[token].expiresAt < live[t].expiresAt
  }

  /** Of a table with one entry too many, the token that expires before all others goes, and no other. */
  lemma FirstIsEvicted(live: map<string, Capability>, kept: map<string, Capability>, first: string)
    requires Evicted(live, kept) && |live| == MAX_CAPABILITIES + 1 && IsFirst(live, first)
    ensures kept.Keys == live.Keys - {first}
  {
    if live.Keys <= kept.Keys {
      Smaller(live.Keys, kept.Keys);
    }
    var gone :| gone in live && gone !in kept;
    EvictedAlone(live, kept, gone);
    assert kept.Keys <= live.Keys - {first};
    SameSize(kept.Keys, live.Keys - {first});
  }

  /** The token is lost to the bound: there is one too many, and this one expires before all others. */
  ghost predicate Crowded(live: map<string, Capability>, token: string) {
    |live| == MAX_CAPABILITIES + 1 && IsFirst(live, token)
  }

  /**
   Nothing else can make a verification fail, and whatever is crowded out does; only when one token is too many
   and several expire first does it depend on which of them goes.
   */
  lemma VerifiesExactly(ws: seq<World>, es: seq<Event>, i: nat)
    requires IsRun(ws, es) && i < |es| && es[i].VerifyCall?
    requires var live := LiveCapabilities(ws[i].tables.capabilities, ws[i + 1].now);
             |live| == MAX_CAPABILITIES + 1 ==> exists first :: IsFirst(live, first)
    ensures var (caps, e, now) := (ws[i].tables.capabilities, es[i], ws[i + 1].now);
            e.result.Some? <==> && Verifiable(caps, now, e.token, e.hostGeneration, e.resolve)
                                && !Crowded(LiveCapabilities(caps, now), e.token)
  {
    assert StepAt(ws, es, i);
    ReachableInv(ws, es, i);
    VerifiesInStep(ws[i], es[i].token, es[i].hostGeneration, es[i].resolve, es[i].result, ws[i + 1]);
  }

  lemma KeptUnlessCrowded(live: map<string, Capability>, kept: map<string, Capability>, token: string)
    requires Evicted(live, kept) && |live| <= MAX_CAPABILITIES + 1
    requires |live| == MAX_CAPABILITIES + 1 ==> exists first :: IsFirst(live, first)
    ensures token in kept <==> token in live && !Crowded(live, token)
  {
    if |live| <= MAX_CAPABILITIES {
      NothingEvicted(live, kept);
    } else {
      var first :| IsFirst(live, first);
      FirstIsEvicted(live, kept, first);
    }
  }

  lemma VerifiesInStep(w: World, token: string, hostGeneration: nat, resolve: Source -> Option<Resolution>,
                       result: Option<Binding>, w': World)
    requires |w.tables.capabilities| <= MAX_CAPABILITIES + 1
    requires Next(w, VerifyCall(token, hostGeneration, resolve, result), w')
    requires var live := LiveCapabilities(w.tables.capabilities, w'.now);
             |live| == MAX_CAPABILITIES + 1 ==> exists first :: IsFirst(live, first)
    ensures result.Some? <==> && Verifiable(w.tables.capabilities, w'.now, token, hostGeneration, resolve)
                              && !Crowded(LiveCapabilities(w.tables.capabilities, w'.now), token)
  {
    var mid :| Pruned(w.tables, mid, w'.now) && Effect(w, mid, VerifyCall(token, hostGeneration, resolve, result), w');
    LiveIsSmaller(w.tables.capabilities, w'.now);
    KeptUnlessCrowded(LiveCapabilities(w.tables.capabilities, w'.now), mid.capabilities, token);
    VerifiesPruned(w, mid, token, hostGeneration, resolve, result, w');
  }

  lemma VerifiesPruned(w: World, mid: Tables, token: string, hostGeneration: nat,
                       resolve: Source -> Option<Resolution>, result: Option<Binding>, w': World)
    requires VerifyEffect(w, mid, token, hostGeneration, resolve, result, w')
    requires SubTable(mid.capabilities, LiveCapabilities(w.tables.capabilities, w'.now))
    ensures result.Some? <==> && Verifiable(w.tables.capabilities, w'.now, token, hostGeneration, resolve)
                              && token in mid.capabilities
  {
  }

  /** Even among ties, what should verify fails only in a full table in which no live token expires before it. */
  lemma FailsOnlyAtOverflow(ws: seq<World>, es: seq<Event>, i: nat)
    requires IsRun(ws, es) && i < |es| && es[i].VerifyCall? && es[i].result.None?
    requires Verifiable(ws[i].tables.capabilities, ws[i + 1].now, es[i].token, es[i].hostGeneration, es[i].resolve)
    ensures var live := LiveCapabilities(ws[i].tables.capabilities, ws[i + 1].now);
            && |live| == MAX_CAPABILITIES + 1
            && forall t :: t in live ==> live[es[i].token].expiresAt <= live[t].expiresAt
  {
    assert StepAt(ws, es, i);
    ReachableInv(ws, es, i);
    FailsInStep(ws[i], es[i].token, es[i].hostGeneration, es[i].resolve, ws[i + 1]);
  }

  /** The token is held, unexpired, of this host generation, and its source resolves. */
  ghost predicate Verifiable(caps: map<string, Capability>, now: nat, token: string, hostGeneration: nat,
                             resolve: Source -> Option<Resolution>) {
    && token in caps && now < caps[token].expiresAt
    && caps[token].binding.hostGeneration == hostGeneration && resolve(SourceOf(caps[token].binding)).Some?
  }

  lemma FailsInStep(w: World, token: string, hostGeneration: nat, resolve: Source -> Option<Resolution>, w': World)
    requires |w.tables.capabilities| <= MAX_CAPABILITIES + 1
    requires Next(w, VerifyCall(token, hostGeneration, resolve, None), w')
    requires Verifiable(w.tables.capabilities, w'.now, token, hostGeneration, resolve)
    ensures var live := LiveCapabilities(w.tables.capabilities, w'.now);
            && |live| == MAX_CAPABILITIES + 1
            && forall t :: t in live ==> live[token].expiresAt <= live[t].expiresAt
  {
    var mid :| Pruned(w.tables, mid, w'.now) && Effect(w, mid, VerifyCall(token, hostGeneration, resolve, None), w');
    var live := LiveCapabilities(w.tables.capabilities, w'.now);
    LiveIsSmaller(w.tables.capabilities, w'.now);
    PruningKeeps(w.tables, mid, w'.now);
    FailedIsNotHeld(w, mid, token, hostGeneration, resolve, w');
    EvictedAlone(live, mid.capabilities, token);
  }

  lemma LiveIsSmaller(caps: map<string, Capability>, now: nat)
    ensures |LiveCapabilities(caps, now)| <= |caps|
  {
    Smaller(LiveCapabilities(caps, now).Keys, caps.Keys);
  }

  lemma FailedIsNotHeld(w: World, mid: Tables, token: string, hostGeneration: nat,
                        resolve: Source -> Option<Resolution>, w': World)
    requires VerifyEffect(w, mid, token, hostGeneration, resolve, None, w')
    requires SubTable(mid.capabilities, w.tables.capabilities)
    requires Verifiable(w.tables.capabilities, w'.now, token, hostGeneration, resolve)
    ensures token !in mid.capabilities
  {
  }

  /** Of a table with one entry too many, an evicted entry is the only one. */
  lemma EvictedAlone(live: map<string, Capability>, kept: map<string, Capability>, token: string)
    requires Evicted(live, kept) && |live| <= MAX_CAPABILITIES + 1 && token in live && token !in kept
    ensures |live| == MAX_CAPABILITIES + 1
    ensures forall t :: t in live ==> live[token].expiresAt <= live[t].expiresAt
  {
    if |live| <= MAX_CAPABILITIES {
      NothingEvicted(live, kept);
    }
    assert kept.Keys <= live.Keys - {token};
    assert |live.Keys - {token}| == |live.Keys| - 1;
    SameSize(kept.Keys, live.Keys - {token});
  }

  // ---------------------------------------------------------------------------------------
  // Dead tokens
  // ---------------------------------------------------------------------------------------

  lemma StaysGone(w: World, e: Event, w': World, token: string)
    requires Inv(w) && Next(w, e, w') && token in w.minted && token !in w.tables.capabilities
    ensures token in w'.minted && token !in w'.tables.capabilities
    ensures e.VerifyCall? && e.token == token ==> e.result == None
  {
    var mid, touched := NextSummary(w, e, w');
    PruningKeeps(w.tables, mid, w'.now);
    SummaryStaysGone(w, mid.capabilities, touched, w', token);
    if e.VerifyCall? && e.token == token {
      FailsWithoutCapability(w, mid, e.token, e.hostGeneration, e.resolve, e.result, w');
    }
  }

  lemma SummaryStaysGone(w: World, mid: map<string, Capability>, touched: set<string>, w': World, token: string)
    requires Summary(w, mid, touched, w') && token in w.minted && token !in mid
    ensures token in w'.minted && token !in w'.tables.capabilities
  {
    forall t | t in w'.tables.capabilities
      ensures t in mid || t !in w.minted
    {
      assert Carried(mid, touched, t, w.minted, w');
    }
  }

  lemma FailsWithoutCapability(w: World, mid: Tables, token: string, hostGeneration: nat,
                               resolve: Source -> Option<Resolution>, result: Option<Binding>, w': World)
    requires VerifyEffect(w, mid, token, hostGeneration, resolve, result, w') && token !in mid.capabilities
    ensures result == None
  {
  }

  ghost predicate Gone(w: World, token: string) {
    token in w.minted && token !in w.tables.capabilities
  }

  /** A token for which no later verification succeeds. */
  ghost predicate FailsFrom(es: seq<Event>, i: nat, token: string) {
    forall j :: i <= j < |es| && es[j].VerifyCall? && es[j].token == token ==> es[j].result == None
  }

  lemma RunStaysGone(ws: seq<World>, es: seq<Event>, j: nat, token: string)
    requires IsRun(ws, es) && j < |es| && Gone(ws[j], token)
    ensures Gone(ws[j + 1], token)
  {
    assert StepAt(ws, es, j);
    ReachableInv(ws, es, j);
    StaysGone(ws[j], es[j], ws[j + 1], token);
  }

  lemma RunFails(ws: seq<World>, es: seq<Event>, j: nat, token: string)
    requires IsRun(ws, es) && j < |es| && Gone(ws[j], token)
    ensures es[j].VerifyCall? && es[j].token == token ==> es[j].result == None
  {
    assert StepAt(ws, es, j);
    ReachableInv(ws, es, j);
    StaysGone(ws[j], es[j], ws[j + 1], token);
  }

  lemma {:induction false} GoneLater(ws: seq<World>, es: seq<Event>, i: nat, j: nat, token: string)
    requires IsRun(ws, es) && i <= j < |ws| && Gone(ws[i], token)
    ensures Gone(ws[j], token)
    decreases j - i
  {
    if i < j {
      RunStaysGone(ws, es, i, token);
      GoneLater(ws, es, i + 1, j, token);
    }
  }

  /** A minted token that has left the table never comes back. */
  lemma GoneIsForever(ws: seq<World>, es: seq<Event>, i: nat, token: string)
    requires IsRun(ws, es) && i < |ws| && Gone(ws[i], token)
    ensures FailsFrom(es, i, token) && forall j :: i <= j < |ws| ==> Gone(ws[j], token)
  {
    forall j | i <= j < |ws|
      ensures Gone(ws[j], token)
      ensures j < |es| && es[j].VerifyCall? && es[j].token == token ==> es[j].result == None
    {
      GoneLater(ws, es, i, j, token);
      if j < |es| {
        RunFails(ws, es, j, token);
      }
    }
  }

  lemma MismatchRemoves(w: World, e: Event, w': World)
    requires Inv(w) && Next(w, e, w') && e.VerifyCall? && e.token in w.minted
    requires w.minted[e.token].hostGeneration != e.hostGeneration
    ensures e.result == None && Gone(w', e.token)
  {
    var mid :| Pruned(w.tables, mid, w'.now) && Effect(w, mid, e, w');
    PrunedInv(w, mid, w'.now);
    VerifyMismatch(w, mid, e.token, e.hostGeneration, e.resolve, e.result, w');
  }

  lemma VerifyMismatch(w: World, mid: Tables, token: string, hostGeneration: nat,
                       resolve: Source -> Option<Resolution>, result: Option<Binding>, w': World)
    requires VerifyEffect(w, mid, token, hostGeneration, resolve, result, w')
    requires token in mid.capabilities ==> mid.capabilities[token].binding.hostGeneration != hostGeneration
    ensures result == None && token !in w'.tables.capabilities
  {
  }

  /** A token shown with another host generation than its own never verifies again, with any. */
  lemma MismatchIsFinal(ws: seq<World>, es: seq<Event>, i: nat)
    requires IsRun(ws, es) && i < |es| && es[i].VerifyCall? && es[i].token in ws[i].minted
    requires ws[i].minted[es[i].token].hostGeneration != es[i].hostGeneration
    ensures FailsFrom(es, i, es[i].token)
  {
    assert StepAt(ws, es, i);
    ReachableInv(ws, es, i);
    MismatchRemoves(ws[i], es[i], ws[i + 1]);
    GoneIsForever(ws, es, i + 1, es[i].token);
  }

  lemma UnusedDies(w: World, e: Event, w': World, token: string)
    requires Inv(w) && Next(w, e, w') && token in w.minted && token in w.used
    requires w.used[token] + CAPABILITY_TTL <= w'.now
    ensures Gone(w', token) && (e.VerifyCall? && e.token == token ==> e.result == None)
  {
    var mid, touched := NextSummary(w, e, w');
    PruningKeeps(w.tables, mid, w'.now);
    assert token !in mid.capabilities;
    SummaryStaysGone(w, mid.capabilities, touched, w', token);
    if e.VerifyCall? && e.token == token {
      FailsWithoutCapability(w, mid, e.token, e.hostGeneration, e.resolve, e.result, w');
    }
  }

  /** A token that was not used for one TTL never verifies again, whatever is called next. */
  lemma UnusedIsFinal(ws: seq<World>, es: seq<Event>, i: nat, token: string)
    requires IsRun(ws, es) && i < |es| && token in ws[i].minted && token in ws[i].used
    requires ws[i].used[token] + CAPABILITY_TTL <= ws[i + 1].now
    ensures FailsFrom(es, i, token)
  {
    assert StepAt(ws, es, i);
    ReachableInv(ws, es, i);
    UnusedDies(ws[i], es[i], ws[i + 1], token);
    GoneIsForever(ws, es, i + 1, token);
  }

  // ---------------------------------------------------------------------------------------
  // Projections
  // ---------------------------------------------------------------------------------------

  /** The first projection of a source wins: while it lives, another product session is refused and nothing moves. */
  lemma FirstProjectionWins(w: World, w': World, source: Source, current: string, product: string, accepted: bool)
    requires Next(w, ProjectCall(source, current, product, accepted), w')
    requires source in w.tables.projections && w.tables.projections[source].expiresAt > w'.now
    requires IsPending(current) && current != product
    ensures accepted == (product == w.tables.projections[source].session)
    ensures source in w'.tables.projections && w'.tables.projections[source] == w.tables.projections[source]
    ensures SubTable(w'.tables.capabilities, w.tables.capabilities)
  {
    var e := ProjectCall(source, current, product, accepted);
    var mid :| Pruned(w.tables, mid, w'.now) && Effect(w, mid, e, w');
    PruningKeeps(w.tables, mid, w'.now);
  }

  /** And every verification of an owner that is still pending reports it, and keeps it alive. */
  lemma PendingOwnerReportsProjection(w: World, w': World, token: string, hostGeneration: nat,
                                      resolve: Source -> Option<Resolution>, b: Binding)
    requires Next(w, VerifyCall(token, hostGeneration, resolve, Some(b)), w')
    requires SourceOf(b) in w.tables.projections && w.tables.projections[SourceOf(b)].expiresAt > w'.now
    requires resolve(SourceOf(b)).Some? && IsPending(resolve(SourceOf(b)).value.session)
    ensures b.session == w.tables.projections[SourceOf(b)].session
    ensures SourceOf(b) in w'.tables.projections
    ensures w'.tables.projections[SourceOf(b)] == Projection(b.session, w'.now + CAPABILITY_TTL)
  {
    var e := VerifyCall(token, hostGeneration, resolve, Some(b));
    var mid :| Pruned(w.tables, mid, w'.now) && Effect(w, mid, e, w');
    VerifyIdentifies(mid, token, hostGeneration, w'.now, resolve, b, w'.tables);
  }

  lemma VerifyIdentifies(t: Tables, token: string, hostGeneration: nat, now: nat, resolve: Source -> Option<Resolution>,
                         b: Binding, after: Tables)
    requires Verify(t, token, hostGeneration, now, resolve) == Verification(after, Some(b))
    ensures resolve(SourceOf(b)).Some?
    ensures Identity(b.session, after.projections)
            == Identify(t.projections, SourceOf(b), resolve(SourceOf(b)).value.session, now)
  {
  }

  /** After a projection is made, every token of that source carries its session. */
  lemma ProjectionReachesEveryToken(w: World, w': World, source: Source, current: string, product: string,
                                    token: string)
    requires Next(w, ProjectCall(source, current, product, true), w')
    requires IsPending(current) && current != product && source !in w.tables.projections
    requires token in w'.tables.capabilities && SourceOf(w'.tables.capabilities[token].binding) == source
    ensures w'.tables.capabilities[token].binding.session == product
    ensures token in w.tables.capabilities
            && ScopeOf(w'.tables.capabilities[token].binding) == ScopeOf(w.tables.capabilities[token].binding)
  {
    var e := ProjectCall(source, current, product, true);
    var mid :| Pruned(w.tables, mid, w'.now) && Effect(w, mid, e, w');
    PruningKeeps(w.tables, mid, w'.now);
  }
}
