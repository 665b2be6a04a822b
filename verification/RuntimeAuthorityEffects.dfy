/** What each call of the authority does to its tables, and exactly how long a token stays good. */
module RuntimeAuthorityEffects {
  import opened Common
  import opened RuntimeAuthority
  import opened RuntimeAuthorityRuns

  // ---------------------------------------------------------------------------------------
  // The effects of the calls
  // ---------------------------------------------------------------------------------------

  /** The product session projected for a source, while that lives. */
  function Projected(w: World, source: Source, now: nat): Option<string> {
    if source in w.tables.projections && w.tables.projections[source].expiresAt > now
    then Some(w.tables.projections[source].session)
    else None
  }

  predicate StartsPending(session: string) {
    |session| >= 8 && session[..8] == "pending-"
  }

  lemma PendingExactly(session: string)
    ensures IsPending(session) <==> StartsPending(session)
  {
    assert |PENDING| == 8;
  }

  /** The call left every other capability as it was; expired and excess ones may have gone. */
  ghost predicate OthersStay(w: World, w': World, touched: set<string>) {
    forall t :: t in w'.tables.capabilities && t !in touched ==>
      t in w.tables.capabilities && w'.tables.capabilities[t] == w.tables.capabilities[t]
  }

  /**
   A projection is accepted when the session is the current one, or when the current one is pending and no other
   product session has been projected; and it is made only if the last of these has not happened yet.
   */
  lemma ProjectsExactly(w: World, w': World, source: Source, current: string, product: string, accepted: bool)
    requires Next(w, ProjectCall(source, current, product, accepted), w')
    ensures var known := Projected(w, source, w'.now);
            accepted <==> current == product
                          || (StartsPending(current) && (known == None || known == Some(product)))
    ensures var live := LiveProjections(w.tables.projections, w'.now);
            w'.tables.projections
            == if current != product && StartsPending(current) && Projected(w, source, w'.now) == None
               then live[source := Projection(product, w'.now + CAPABILITY_TTL)] else live
    ensures var made := current != product && StartsPending(current) && Projected(w, source, w'.now) == None;
            forall t :: t in w'.tables.capabilities ==>
              && t in w.tables.capabilities
              && w'.tables.capabilities[t]
                 == if made && IsOf(w.tables.capabilities[t].binding, source)
                    then Capability(w.tables.capabilities[t].binding.(session := product), w'.now + CAPABILITY_TTL)
                    else w.tables.capabilities[t]
  {
    PendingExactly(current);
  }

  /** The binding is of this life of this sidecar. */
  predicate IsOf(b: Binding, source: Source) {
    b.sidecar == source.sidecar && b.sourceGeneration == source.generation
  }

  /** Bindings have one scope when they agree on sidecar, source generation and host generation. */
  lemma ScopeExactly(a: Binding, b: Binding)
    ensures ScopeOf(a) == ScopeOf(b) <==>
            a.sidecar == b.sidecar && a.sourceGeneration == b.sourceGeneration && a.hostGeneration == b.hostGeneration
    ensures IsOf(a, SourceOf(b)) <==> a.sidecar == b.sidecar && a.sourceGeneration == b.sourceGeneration
  {
  }

  /** The session under which a binding is stored: a pending one gives way to the projected one. */
  function SessionOf(known: Option<string>, session: string): string {
    if known.Some? && StartsPending(session) then known.value else session
  }

  /** A session that is neither pending nor the projected one ends the projection. */
  predicate Contradicts(known: Option<string>, session: string) {
    known.Some? && !StartsPending(session) && session != known.value
  }

  /** Issuing stores the binding under its token for a TTL, and under no other; a second token is never minted. */
  lemma IssuesExactly(w: World, w': World, b: Binding, unused: string, token: string)
    requires Inv(w) && Next(w, IssueCall(b, unused, token), w')
    ensures var source := Source(b.sidecar, b.sourceGeneration);
            var known := Projected(w, source, w'.now);
            var bound := b.(session := SessionOf(known, b.session));
            && token in w'.tables.capabilities
            && w'.tables.capabilities[token] == Capability(bound, w'.now + CAPABILITY_TTL)
            && (token == unused || (token in w.tables.capabilities && w.tables.capabilities[token].binding == bound))
            && (token == unused ==> forall t :: t in w'.tables.capabilities && t != token
                                                ==> w'.tables.capabilities[t].binding != bound)
    ensures OthersStay(w, w', {token})
    ensures var source := Source(b.sidecar, b.sourceGeneration);
            var live := LiveProjections(w.tables.projections, w'.now);
            w'.tables.projections
            == if Contradicts(Projected(w, source, w'.now), b.session) then live - {source} else live
  {
    var mid :| Pruned(w.tables, mid, w'.now) && Effect(w, mid, IssueCall(b, unused, token), w');
    IssuedOn(w, mid, b, unused, token, w');
    PruningKeeps(w.tables, mid, w'.now);
  }

  lemma IssuedOn(w: World, mid: Tables, b: Binding, unused: string, token: string, w': World)
    requires Inv(w) && Pruned(w.tables, mid, w'.now) && IssueEffect(w, mid, b, unused, token, w')
    ensures var source := Source(b.sidecar, b.sourceGeneration);
            var known := Projected(w, source, w'.now);
            var bound := b.(session := SessionOf(known, b.session));
            && w'.tables.projections
               == (if Contradicts(known, b.session) then mid.projections - {source} else mid.projections)
            && w'.tables.capabilities == mid.capabilities[token := Capability(bound, w'.now + CAPABILITY_TTL)]
            && (token == unused || (token in mid.capabilities && mid.capabilities[token].binding == bound))
            && (token == unused ==> forall t :: t in mid.capabilities ==> mid.capabilities[t].binding != bound)
  {
    PendingExactly(b.session);
    AdmitsExactly(w, mid, b, w'.now);
    PruningKeeps(w.tables, mid, w'.now);
    IssuedEffect(w, mid, b, unused, token, w');
  }

  lemma AdmitsExactly(w: World, mid: Tables, b: Binding, now: nat)
    requires mid.projections == LiveProjections(w.tables.projections, now)
    requires IsPending(b.session) <==> StartsPending(b.session)
    ensures var known := Projected(w, SourceOf(b), now);
            && Admit(mid, b).binding == b.(session := SessionOf(known, b.session))
            && Admit(mid, b).tables.capabilities == mid.capabilities
            && Admit(mid, b).tables.projections
               == if Contradicts(known, b.session) then mid.projections - {SourceOf(b)} else mid.projections
  {
  }

  lemma IssuedEffect(w: World, mid: Tables, b: Binding, unused: string, token: string, w': World)
    requires IssueEffect(w, mid, b, unused, token, w') && Admit(mid, b).tables.capabilities == mid.capabilities
    requires SubTable(mid.capabilities, w.tables.capabilities) && Scoped(w.tables.capabilities, w.minted)
    requires forall t :: t in mid.capabilities ==> mid.capabilities[t].expiresAt > w'.now
    ensures var bound := Admit(mid, b).binding;
            && w'.tables.projections == Admit(mid, b).tables.projections
            && w'.tables.capabilities == mid.capabilities[token := Capability(bound, w'.now + CAPABILITY_TTL)]
            && (token == unused || (token in mid.capabilities && mid.capabilities[token].binding == bound))
            && (token == unused ==> forall t :: t in mid.capabilities ==> mid.capabilities[t].binding != bound)
  {
    var (a, bound) := (Admit(mid, b).tables, Admit(mid, b).binding);
    if t :| t in mid.capabilities && mid.capabilities[t].binding == bound {
      assert Holds(a, t, bound, w'.now);
    }
  }

  /** A verification that succeeds renews its token, follows the owner, and leaves all other tokens alone. */
  lemma VerifiesEffect(w: World, w': World, token: string, hostGeneration: nat,
                       resolve: Source -> Option<Resolution>, b: Binding)
    requires Next(w, VerifyCall(token, hostGeneration, resolve, Some(b)), w')
    ensures var source := Source(b.sidecar, b.sourceGeneration);
            && resolve(source).Some? && b.hostGeneration == hostGeneration
            && token in w.tables.capabilities && token in w'.tables.capabilities
            && w'.tables.capabilities[token] == Capability(b, w'.now + CAPABILITY_TTL)
            && b == w.tables.capabilities[token].binding.(
                      session := SessionOf(Projected(w, source, w'.now), resolve(source).value.session),
                      workspace := resolve(source).value.workspace)
    ensures var source := Source(b.sidecar, b.sourceGeneration);
            resolve(source).Some? && w'.tables.projections == Followed(w, source, w'.now, resolve(source).value.session)
    ensures OthersStay(w, w', {token})
  {
    var mid :| Pruned(w.tables, mid, w'.now) && Effect(w, mid, VerifyCall(token, hostGeneration, resolve, Some(b)), w');
    PruningKeeps(w.tables, mid, w'.now);
    VerifiedOn(w, mid, token, hostGeneration, resolve, b, w');
    var source := Source(b.sidecar, b.sourceGeneration);
    PendingExactly(resolve(source).value.session);
    IdentifiesExactly(w, source, resolve(source).value.session, w'.now);
  }

  /** The projections after a look at what the owner says: renewed, or ended when it contradicts them. */
  function Followed(w: World, source: Source, now: nat, session: string): map<Source, Projection> {
    var (known, live) := (Projected(w, source, now), LiveProjections(w.tables.projections, now));
    if known == None then live
    else if Contradicts(known, session) then live - {source}
    else live[source := Projection(known.value, now + CAPABILITY_TTL)]
  }

  lemma IdentifiesExactly(w: World, source: Source, session: string, now: nat)
    requires IsPending(session) <==> StartsPending(session)
    ensures Identify(LiveProjections(w.tables.projections, now), source, session, now)
            == Identity(SessionOf(Projected(w, source, now), session), Followed(w, source, now, session))
  {
  }

  lemma VerifiedOn(w: World, mid: Tables, token: string, hostGeneration: nat,
                   resolve: Source -> Option<Resolution>, b: Binding, w': World)
    requires VerifyEffect(w, mid, token, hostGeneration, resolve, Some(b), w')
    ensures var source := Source(b.sidecar, b.sourceGeneration);
            && resolve(source).Some? && b.hostGeneration == hostGeneration && token in mid.capabilities
            && var identity := Identify(mid.projections, source, resolve(source).value.session, w'.now);
            && b == mid.capabilities[token].binding.(session := identity.session,
                                                     workspace := resolve(source).value.workspace)
            && w'.tables == Tables(mid.capabilities[token := Capability(b, w'.now + CAPABILITY_TTL)],
                                   identity.projections)
  {
  }

  /** One that fails removes at most its own token, and that exactly for a wrong host generation. */
  lemma FailsEffect(w: World, w': World, token: string, hostGeneration: nat, resolve: Source -> Option<Resolution>)
    requires Next(w, VerifyCall(token, hostGeneration, resolve, None), w')
    ensures OthersStay(w, w', {})
    ensures w'.tables.projections == LiveProjections(w.tables.projections, w'.now)
    ensures token in w'.tables.capabilities ==> w'.tables.capabilities[token].binding.hostGeneration == hostGeneration
  {
    var mid :| Pruned(w.tables, mid, w'.now) && Effect(w, mid, VerifyCall(token, hostGeneration, resolve, None), w');
    PruningKeeps(w.tables, mid, w'.now);
    FailedOn(w, mid, token, hostGeneration, resolve, w');
  }

  lemma FailedOn(w: World, mid: Tables, token: string, hostGeneration: nat, resolve: Source -> Option<Resolution>,
                 w': World)
    requires VerifyEffect(w, mid, token, hostGeneration, resolve, None, w')
    ensures w'.tables.projections == mid.projections && SubTable(w'.tables.capabilities, mid.capabilities)
    ensures token in w'.tables.capabilities ==> w'.tables.capabilities[token].binding.hostGeneration == hostGeneration
  {
  }

  // ---------------------------------------------------------------------------------------
  // How long a token stays good
  // ---------------------------------------------------------------------------------------

  /** The event shows the token with another host generation than its own. */
  predicate Mismatches(w: World, e: Event, token: string) {
    e.VerifyCall? && e.token == token && token in w.minted && e.hostGeneration != w.minted[token].hostGeneration
  }

  lemma CapabilitiesKept(mid: map<string, Capability>, w': World, e: Event, w: World, before: Tables)
    requires before.capabilities == mid && Effect(w, before, e, w')
    ensures mid.Keys - w'.tables.capabilities.Keys <= (if e.VerifyCall? then {e.token} else {})
  {
  }

  lemma NotRemoved(w: World, mid: Tables, e: Event, w': World, token: string)
    requires Effect(w, mid, e, w') && token in mid.capabilities && Scoped(mid.capabilities, w.minted)
    requires !Mismatches(w, e, token)
    ensures token in w'.tables.capabilities
  {
    if e.VerifyCall? && e.token == token {
      assert ScopeOf(mid.capabilities[token].binding) == w.minted[token];
    } else {
      CapabilitiesKept(mid.capabilities, w', e, w, mid);
    }
  }

  /** In a table within bounds a token that has not expired stays, unless it is shown with a wrong generation. */
  lemma StaysHeld(w: World, e: Event, w': World, token: string)
    requires Inv(w) && Next(w, e, w') && |w.tables.capabilities| <= MAX_CAPABILITIES
    requires token in w.tables.capabilities && w.used[token] + CAPABILITY_TTL > w'.now && !Mismatches(w, e, token)
    ensures token in w'.tables.capabilities
  {
    var mid, touched := NextSummary(w, e, w');
    var live := LiveCapabilities(w.tables.capabilities, w'.now);
    LiveIsSmaller(w.tables.capabilities, w'.now);
    NothingEvicted(live, mid.capabilities);
    NotRemoved(w, mid, e, w', token);
  }

  /** Otherwise it goes, and a token that is not there comes only by being minted. */
  lemma GoesOtherwise(w: World, e: Event, w': World, token: string)
    requires Inv(w) && Next(w, e, w') && token in w.minted
    requires token !in w.tables.capabilities || w.used[token] + CAPABILITY_TTL <= w'.now || Mismatches(w, e, token)
    ensures token !in w'.tables.capabilities
  {
    if token !in w.tables.capabilities {
      StaysGone(w, e, w', token);
    } else if w.used[token] + CAPABILITY_TTL <= w'.now {
      UnusedDies(w, e, w', token);
    } else {
      MismatchRemoves(w, e, w');
    }
  }

  /** The token was used less than a TTL before each call so far. */
  ghost predicate KeptInUse(ws: seq<World>, token: string, n: nat)
    requires n < |ws|
  {
    forall i :: 0 <= i < n && token in ws[i].minted && token in ws[i].used
                ==> ws[i].used[token] + CAPABILITY_TTL > ws[i + 1].now
  }

  ghost predicate NeverMismatched(ws: seq<World>, es: seq<Event>, token: string, n: nat)
    requires n <= |es| && |ws| == |es| + 1
  {
    forall i :: 0 <= i < n ==> !Mismatches(ws[i], es[i], token)
  }

  lemma MintedIsHeld(w: World, e: Event, w': World, token: string)
    requires Inv(w) && Next(w, e, w') && token !in w.minted && token in w'.minted
    ensures token in w'.tables.capabilities
  {
  }

  lemma MintedStays(w: World, e: Event, w': World, token: string)
    requires Inv(w) && Next(w, e, w')
    ensures token in w.minted ==> token in w'.minted
    ensures token in w.tables.capabilities ==> token in w.minted && token in w.used
  {
    var _, _ := NextSummary(w, e, w');
  }

  /** Minted tokens were used when they were minted. */
  lemma {:induction false} MintedIsUsed(ws: seq<World>, es: seq<Event>, n: nat, token: string)
    requires IsRun(ws, es) && n < |ws| && token in ws[n].minted
    ensures token in ws[n].used
  {
    if n > 0 {
      if token in ws[n - 1].minted {
        MintedIsUsed(ws, es, n - 1, token);
      }
      StillUsed(ws, es, n, token);
    }
  }

  lemma StillUsed(ws: seq<World>, es: seq<Event>, n: nat, token: string)
    requires IsRun(ws, es) && 0 < n < |ws| && token in ws[n].minted
    requires token in ws[n - 1].minted ==> token in ws[n - 1].used
    ensures token in ws[n].used
  {
    StepTo(ws, es, n);
    var (w, e, w') := (ws[n - 1], es[n - 1], ws[n]);
    UsedOnceMinted(w, e, w', token);
  }

  lemma StepTo(ws: seq<World>, es: seq<Event>, n: nat)
    requires IsRun(ws, es) && 0 < n < |ws|
    ensures Inv(ws[n - 1]) && Inv(ws[n]) && Next(ws[n - 1], es[n - 1], ws[n])
  {
    var i := n - 1;
    StepFrom(ws, es, i);
    assert i + 1 == n;
  }

  lemma StepFrom(ws: seq<World>, es: seq<Event>, i: nat)
    requires IsRun(ws, es) && i < |es|
    ensures Inv(ws[i]) && Inv(ws[i + 1]) && Next(ws[i], es[i], ws[i + 1])
  {
    assert StepAt(ws, es, i);
    ReachableInv(ws, es, i);
    NextInv(ws[i], es[i], ws[i + 1]);
  }

  lemma UsedOnceMinted(w: World, e: Event, w': World, token: string)
    requires Inv(w) && Inv(w') && Next(w, e, w') && token in w'.minted && (token in w.minted ==> token in w.used)
    ensures token in w'.used
  {
    if token in w.minted {
      var mid, touched := NextSummary(w, e, w');
    } else {
      MintedIsHeld(w, e, w', token);
    }
  }

  /**
   While the table has stayed within bounds, it holds exactly the tokens that were minted, used at least once
   every TTL, and never shown with a wrong host generation.
   */
  lemma {:induction false} HeldExactly(ws: seq<World>, es: seq<Event>, n: nat, token: string)
    requires IsRun(ws, es) && n < |ws|
    requires forall i :: 0 <= i < n ==> |ws[i].tables.capabilities| <= MAX_CAPABILITIES
    ensures token in ws[n].tables.capabilities <==>
            token in ws[n].minted && KeptInUse(ws, token, n) && NeverMismatched(ws, es, token, n)
  {
    if n == 0 {
      assert ws[0] == Start();
    } else {
      StepTo(ws, es, n);
      HeldExactly(ws, es, n - 1, token);
      HeldStep(ws, es, n, token);
    }
  }

  lemma HeldStep(ws: seq<World>, es: seq<Event>, n: nat, token: string)
    requires IsRun(ws, es) && 0 < n < |ws| && Inv(ws[n - 1]) && Next(ws[n - 1], es[n - 1], ws[n])
    requires |ws[n - 1].tables.capabilities| <= MAX_CAPABILITIES
    requires token in ws[n - 1].tables.capabilities <==>
             token in ws[n - 1].minted && KeptInUse(ws, token, n - 1) && NeverMismatched(ws, es, token, n - 1)
    ensures token in ws[n].tables.capabilities <==>
            token in ws[n].minted && KeptInUse(ws, token, n) && NeverMismatched(ws, es, token, n)
  {
    var (w, e, w') := (ws[n - 1], es[n - 1], ws[n]);
    MintedStays(w, e, w', token);
    if token in w.minted {
      MintedIsUsed(ws, es, n - 1, token);
      UsedStep(ws, es, n, token);
    } else {
      FirstMinted(ws, es, n, token);
    }
  }

  lemma UsedStep(ws: seq<World>, es: seq<Event>, n: nat, token: string)
    requires IsRun(ws, es) && 0 < n < |ws| && Inv(ws[n - 1]) && Next(ws[n - 1], es[n - 1], ws[n])
    requires |ws[n - 1].tables.capabilities| <= MAX_CAPABILITIES
    requires token in ws[n - 1].minted && token in ws[n].minted && token in ws[n - 1].used
    requires token in ws[n - 1].tables.capabilities <==>
             KeptInUse(ws, token, n - 1) && NeverMismatched(ws, es, token, n - 1)
    ensures token in ws[n].tables.capabilities <==>
            KeptInUse(ws, token, n) && NeverMismatched(ws, es, token, n)
  {
    var (w, e, w') := (ws[n - 1], es[n - 1], ws[n]);
    if token in w.tables.capabilities && w.used[token] + CAPABILITY_TTL > w'.now && !Mismatches(w, e, token) {
      StaysHeld(w, e, w', token);
    } else {
      GoesOtherwise(w, e, w', token);
    }
  }

  lemma FirstMinted(ws: seq<World>, es: seq<Event>, n: nat, token: string)
    requires IsRun(ws, es) && 0 < n < |ws| && Inv(ws[n - 1]) && Next(ws[n - 1], es[n - 1], ws[n])
    requires token !in ws[n - 1].minted
    ensures token in ws[n].tables.capabilities <==>
            token in ws[n].minted && KeptInUse(ws, token, n) && NeverMismatched(ws, es, token, n)
  {
    NotMintedBefore(ws, es, n - 1, token);
    if token in ws[n].minted {
      MintedIsHeld(ws[n - 1], es[n - 1], ws[n], token);
    } else {
      NextInv(ws[n - 1], es[n - 1], ws[n]);
    }
  }

  lemma {:induction false} NotMintedBefore(ws: seq<World>, es: seq<Event>, n: nat, token: string)
    requires IsRun(ws, es) && n < |ws| && token !in ws[n].minted
    ensures forall i :: 0 <= i <= n ==> token !in ws[i].minted
  {
    if n > 0 {
      assert StepAt(ws, es, n - 1);
      ReachableInv(ws, es, n - 1);
      MintedStays(ws[n - 1], es[n - 1], ws[n], token);
      NotMintedBefore(ws, es, n - 1, token);
    }
  }

  /** So that is when it verifies, for a source that resolves and the host generation it was minted for. */
  lemma VerifiesWhileInUse(ws: seq<World>, es: seq<Event>, n: nat)
    requires IsRun(ws, es) && n < |es| && es[n].VerifyCall?
    requires forall i :: 0 <= i <= n ==> |ws[i].tables.capabilities| <= MAX_CAPABILITIES
    ensures var (w, e) := (ws[n], es[n]);
            e.result.Some? <==>
              && e.token in w.minted && KeptInUse(ws, e.token, n + 1) && NeverMismatched(ws, es, e.token, n + 1)
              && e.resolve(w.minted[e.token].source).Some?
  {
    var (w, e) := (ws[n], es[n]);
    HeldExactly(ws, es, n, e.token);
    ReachableInv(ws, es, n);
    LiveIsSmaller(w.tables.capabilities, ws[n + 1].now);
    VerifiesExactly(ws, es, n);
    if e.token in w.minted {
      MintedIsUsed(ws, es, n, e.token);
    }
    if e.token in w.tables.capabilities {
      assert ScopeOf(w.tables.capabilities[e.token].binding) == w.minted[e.token];
    }
  }
}
