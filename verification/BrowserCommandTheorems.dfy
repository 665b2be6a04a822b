/** What holds in every run of the browser commands, whatever the interleaving. */
module BrowserCommandTheorems {
  import opened Common
  import opened BrowserLifecycle
  import opened BrowserCommands
  import opened BrowserCommandProofs

  // ---------------------------------------------------------------------------------------
  // The invariant holds in every reachable state
  // ---------------------------------------------------------------------------------------

  ghost predicate SameTombstones(tabs: Tabs, after: Tabs, except: Id) {
    forall tab, t :: Id(tab, t) != except && t in TabOf(tabs, tab).tombstones ==> t in TabOf(after, tab).tombstones
  }

  lemma AdmitTombstones(tabs: Tabs, id: Id, l: Label)
    ensures SameTombstones(tabs, Admit(tabs, id.tab, id.token, l).0, id)
    ensures Admit(tabs, id.tab, id.token, l).1.Create? ==> id.token !in TabOf(tabs, id.tab).tombstones
  {
  }

  lemma CloseTombstones(tabs: Tabs, id: Id)
    ensures SameTombstones(tabs, Close(tabs, id.tab, id.token).0, id)
    ensures GenerationOf(tabs, id.tab, id.token) == None ==>
              id.token in TabOf(Close(tabs, id.tab, id.token).0, id.tab).tombstones
  {
  }

  lemma SettleTombstones(tabs: Tabs, id: Id, l: Label)
    ensures forall tab ::
              TabOf(SettleSuccess(tabs, id.tab, id.token, l).0, tab).tombstones == TabOf(tabs, tab).tombstones
    ensures forall tab :: TabOf(SettleFailure(tabs, id.tab, id.token), tab).tombstones == TabOf(tabs, tab).tombstones
    ensures forall tab :: TabOf(SettleNativeClose(tabs, id.tab, NativeClose(id.token, l)), tab).tombstones
                       == TabOf(tabs, tab).tombstones
  {
  }

  lemma KeptTombstones(s: State, s': State, id: Id)
    requires TombstonesOk(s) && SameTombstones(s.tabs, s'.tabs, id)
    requires s'.closed <= s.closed + {id} && s.used <= s'.used
    requires id in s'.used || id.token in TabOf(s'.tabs, id.tab).tombstones
    ensures TombstonesOk(s')
  {
    forall x | x in s'.closed && x !in s'.used
      ensures x.token in TabOf(s'.tabs, x.tab).tombstones
    {
      assert Id(x.tab, x.token) == x;
    }
  }

  lemma SettledTombstones(s: State, s': State)
    requires TombstonesOk(s) && s'.closed == s.closed && s'.used == s.used
    requires forall tab :: TabOf(s'.tabs, tab).tombstones == TabOf(s.tabs, tab).tombstones
    ensures TombstonesOk(s')
  {
  }

  lemma AdmittedListing(gens: Gens, s: State, id: Id, order: seq<NativeClose>)
    requires Coherent(s.tabs) && IsFlat(gens, s.tabs)
    requires Admit(s.tabs, id.tab, id.token, LabelOf(id)).1.Create?
    requires IsListing(order, Admit(s.tabs, id.tab, id.token, LabelOf(id)).1.closes)
    ensures |order| <= 1 && id !in gens && id.token !in TabOf(s.tabs, id.tab).tombstones
    ensures forall c :: c in order <==> Get(gens, Id(id.tab, c.token)) == Some(Live(c.webview))
  {
    AdmitFlat(gens, s.tabs, id, LabelOf(id));
    AdmitCoherent(s.tabs, id.tab, id.token, LabelOf(id));
    ListingOfAtMostOne(order, Admit(s.tabs, id.tab, id.token, LabelOf(id)).1.closes);
  }

  /** What a create that is admitted does to the table. */
  lemma AdmittedTable(gens: Gens, s: State, s': State, id: Id, order: seq<NativeClose>)
    requires Coherent(s.tabs) && TombstonesOk(s) && IsFlat(gens, s.tabs)
    requires DoStartCreate(s, id, order) == Some(s') && Admit(s.tabs, id.tab, id.token, LabelOf(id)).1.Create?
    ensures Coherent(s'.tabs) && TombstonesOk(s')
    ensures IsFlat(SupersedeTab(gens, id.tab)[id := Creating(LabelOf(id))], s'.tabs)
    ensures CreateStep(gens, s, s', id, order)
  {
    AdmitTombstones(s.tabs, id, LabelOf(id));
    KeptTombstones(s, s', id);
    AdmitCoherent(s.tabs, id.tab, id.token, LabelOf(id));
    AdmitFlat(gens, s.tabs, id, LabelOf(id));
    AdmittedListing(gens, s, id, order);
  }

  /** A create that finds its token among the tombstones is consumed and changes nothing else. */
  lemma RetiredTable(gens: Gens, s: State, s': State, id: Id, order: seq<NativeClose>)
    requires Coherent(s.tabs) && TombstonesOk(s) && IsFlat(gens, s.tabs)
    requires DoStartCreate(s, id, order) == Some(s') && !Admit(s.tabs, id.tab, id.token, LabelOf(id)).1.Create?
    ensures Coherent(s'.tabs) && TombstonesOk(s') && IsFlat(gens, s'.tabs)
  {
    AdmitTombstones(s.tabs, id, LabelOf(id));
    KeptTombstones(s, s', id);
    AdmitCoherent(s.tabs, id.tab, id.token, LabelOf(id));
    AdmitFlat(gens, s.tabs, id, LabelOf(id));
  }

  lemma StartCreateInv(s: State, s': State, id: Id, order: seq<NativeClose>)
    requires Inv(s) && DoStartCreate(s, id, order) == Some(s')
    ensures Inv(s')
  {
    var gens :| IsFlat(gens, s.tabs) && FlatInv(gens, s);
    if Admit(s.tabs, id.tab, id.token, LabelOf(id)).1.Create? {
      AdmittedTable(gens, s, s', id, order);
      CreateKeeps(gens, s, s', id, order);
    } else {
      RetiredTable(gens, s, s', id, order);
      RetiredCreateKeeps(gens, s, s', id);
    }
  }

  lemma ListingOfAtMostOne(order: seq<NativeClose>, closes: set<NativeClose>)
    requires IsListing(order, closes)
    requires forall c, d :: c in closes && d in closes ==> c == d
    ensures |order| <= 1
    ensures forall c :: c in order <==> c in closes
  {
    forall c
      ensures c in order <==> c in closes
    {
      assert c in multiset(order) <==> c in multiset(closes);
    }
    if closes == {} {
      assert multiset(order) == multiset{};
    } else {
      var c :| c in closes;
      assert closes == {c};
      assert |multiset(order)| == |multiset(closes)| == 1;
    }
  }

  lemma StartCloseInv(s: State, s': State, id: Id)
    requires Inv(s) && DoStartClose(s, id) == Some(s')
    ensures Inv(s')
  {
    var gens :| IsFlat(gens, s.tabs) && FlatInv(gens, s);
    StartCloseFlat(gens, s, s', id);
    CloseTombstones(s.tabs, id);
    KeptTombstones(s, s', id);
    CloseCoherent(s.tabs, id.tab, id.token);
    CloseKeeps(gens, s, s', id);
  }

  lemma StartCloseFlat(gens: map<Id, Generation>, s: State, s': State, id: Id)
    requires IsFlat(gens, s.tabs) && DoStartClose(s, id) == Some(s')
    ensures CloseStep(gens, s, s', id) && IsFlat(CloseGens(gens, id), s'.tabs)
  {
    CloseFlat(gens, s.tabs, id);
  }

  lemma SettleBirthFailureInv(s: State, s': State, id: Id)
    requires Inv(s) && DoSettleBirthFailure(s, id) == Some(s')
    ensures Inv(s')
  {
    var gens :| IsFlat(gens, s.tabs) && FlatInv(gens, s);
    SettleFailureFlat(gens, s.tabs, id);
    SettleFailureCoherent(s.tabs, id.tab, id.token);
    SettleTombstones(s.tabs, id, LabelOf(id));
    SettledTombstones(s, s');
    BirthFailureKeeps(gens, s, s', id);
  }

  lemma SettleSupersededInv(s: State, s': State, id: Id)
    requires Inv(s) && DoSettleSuperseded(s, id) == Some(s')
    ensures Inv(s')
  {
    var gens :| IsFlat(gens, s.tabs) && FlatInv(gens, s);
    var place := s.creators[id];
    SettleNativeCloseFlat(gens, s.tabs, id.tab, place.close);
    SettleNativeCloseCoherent(s.tabs, id.tab, place.close);
    SettleTombstones(s.tabs, Id(id.tab, place.close.token), place.close.webview);
    SettledTombstones(s, s');
    SettleSupersededKeeps(gens, s, s', id, place.close, place.rest);
  }

  lemma SettleCloseInv(s: State, s': State, c: Closer)
    requires Inv(s) && DoSettleClose(s, c) == Some(s')
    ensures Inv(s')
  {
    var gens :| IsFlat(gens, s.tabs) && FlatInv(gens, s);
    SettleNativeCloseFlat(gens, s.tabs, c.tab, c.close);
    SettleNativeCloseCoherent(s.tabs, c.tab, c.close);
    SettleTombstones(s.tabs, Id(c.tab, c.close.token), c.close.webview);
    SettledTombstones(s, s');
    SettleCloseKeeps(gens, s, s', c);
  }

  /** What a successful birth does to the table. */
  lemma BornTable(gens: Gens, s: State, s': State, id: Id) returns (published: bool)
    requires Coherent(s.tabs) && TombstonesOk(s) && IsFlat(gens, s.tabs)
    requires DoSettleBirth(s, id) == Some(s')
    ensures Coherent(s'.tabs) && TombstonesOk(s')
    ensures BornStep(gens, s, s', id, published)
    ensures IsFlat(gens[id := if published then Live(LabelOf(id)) else RetiringNative(LabelOf(id))], s'.tabs)
  {
    published := Get(gens, id) == Some(Creating(LabelOf(id)));
    SettleSuccessFlat(gens, s.tabs, id, LabelOf(id));
    SettleSuccessCoherent(s.tabs, id.tab, id.token, LabelOf(id));
    SettleTombstones(s.tabs, id, LabelOf(id));
    SettledTombstones(s, s');
  }

  lemma SettleBirthInv(s: State, s': State, id: Id)
    requires Inv(s) && DoSettleBirth(s, id) == Some(s')
    ensures Inv(s')
  {
    var gens :| IsFlat(gens, s.tabs) && FlatInv(gens, s);
    var published := BornTable(gens, s, s', id);
    SettledBirthKeeps(gens, s, s', id, published);
  }

  lemma StartShutdownInv(s: State, s': State)
    requires Inv(s) && DoStartShutdown(s) == Some(s')
    ensures Inv(s')
  {
    var gens :| IsFlat(gens, s.tabs) && FlatInv(gens, s);
    FlatNativeLabels(gens, s.tabs);
    StartShutdownKeeps(gens, s, s', NativeLabels(s.tabs));
    assert IsFlat(map[], s'.tabs);
  }

  lemma FlatNativeLabels(gens: Gens, tabs: Tabs)
    requires IsFlat(gens, tabs)
    ensures forall l ::
              l in NativeLabels(tabs) <==> exists id :: id in gens && gens[id].Native() && gens[id].webview == l
  {
    forall l | l in NativeLabels(tabs)
      ensures exists id :: id in gens && gens[id].Native() && gens[id].webview == l
    {
      var tab, t :| tab in tabs && t in tabs[tab].generations && tabs[tab].generations[t].Native()
                    && tabs[tab].generations[t].webview == l;
      assert Get(gens, Id(tab, t)) == GenerationOf(tabs, tab, t);
      assert gens[Id(tab, t)].webview == l;
    }
    forall id | id in gens && gens[id].Native()
      ensures gens[id].webview in NativeLabels(tabs)
    {
      assert Get(gens, Id(id.tab, id.token)) == GenerationOf(tabs, id.tab, id.token);
    }
  }

  /** The steps of a create between its critical sections. */
  lemma CreateStepKeeps(gens: Gens, s: State, s': State, a: Action)
    requires FlatInv(gens, s) && Next(s, a) == Some(s')
    requires a.CloseSuperseded? || a.SupersedingDone? || a.AddChild?
    ensures FlatInv(gens, s')
  {
    match a
    case CloseSuperseded(id, ok) => CloseSupersededKeeps(gens, s, s', id, ok);
    case SupersedingDone(id) => SupersedingDoneKeeps(gens, s, s', id);
    case AddChild(id, ok) => AddChildKeeps(gens, s, s', id, ok);
  }

  /** The native calls of a close and of a shutdown. */
  lemma CloseStepKeeps(gens: Gens, s: State, s': State, a: Action)
    requires FlatInv(gens, s) && Next(s, a) == Some(s')
    requires a.CloseNative? || a.ShutdownClose? || a.EndShutdown?
    ensures FlatInv(gens, s')
  {
    match a
    case CloseNative(c, ok) => CloseNativeKeeps(gens, s, s', c, ok);
    case ShutdownClose(l, ok) => ShutdownCloseKeeps(gens, s, s', l, ok);
    case EndShutdown => EndShutdownKeeps(gens, s, s');
  }

  /** The actions that leave the registry alone. */
  lemma UntouchedTable(s: State, s': State, a: Action)
    requires Next(s, a) == Some(s')
    requires a.CloseSuperseded? || a.SupersedingDone? || a.AddChild? || a.CloseNative? || a.ShutdownClose?
             || a.EndShutdown?
    ensures s'.tabs == s.tabs && s'.closed == s.closed && s'.used == s.used
  {
    if a.CloseSuperseded? || a.CloseNative? || a.AddChild? {
      NativeHistory(s, s', a);
    }
  }

  lemma NextInv(s: State, s': State, a: Action)
    requires Inv(s) && Next(s, a) == Some(s')
    ensures Inv(s')
  {
    match a
    case StartCreate(id, order) => StartCreateInv(s, s', id, order);
    case StartClose(id) => StartCloseInv(s, s', id);
    case SettleSuperseded(id) => SettleSupersededInv(s, s', id);
    case SettleBirthFailure(id) => SettleBirthFailureInv(s, s', id);
    case SettleBirth(id) => SettleBirthInv(s, s', id);
    case SettleClose(c) => SettleCloseInv(s, s', c);
    case StartShutdown => StartShutdownInv(s, s');
    case _ =>
      var gens :| IsFlat(gens, s.tabs) && FlatInv(gens, s);
      UntouchedTable(s, s', a);
      if a.CloseSuperseded? || a.SupersedingDone? || a.AddChild? {
        CreateStepKeeps(gens, s, s', a);
      } else {
        CloseStepKeeps(gens, s, s', a);
      }
  }

  lemma {:induction false} ReachableInv(actions: seq<Action>)
    requires Run(actions).Some?
    ensures Inv(Run(actions).value)
  {
    if actions == [] {
      assert IsFlat(map[], INITIAL.tabs) && FlatInv(map[], INITIAL);
    } else {
      ReachableInv(actions[..|actions| - 1]);
      NextInv(Run(actions[..|actions| - 1]).value, Run(actions).value, actions[|actions| - 1]);
    }
  }

  // ---------------------------------------------------------------------------------------
  // No webview is lost
  // ---------------------------------------------------------------------------------------

  predicate NoShutdown(actions: seq<Action>) {
    StartShutdown !in actions
  }

  /** A generation of the table owns this label, or its create has still to settle the birth. */
  ghost predicate TrackedOrBeingBorn(s: State, id: Id) {
    || OwnsLabel(s.tabs, id.tab, id.token, LabelOf(id))
    || Get(s.creators, id) == Some(Born)
  }

  /** What the invariant says of one generation in a reachable state. */
  lemma KnownGeneration(actions: seq<Action>, id: Id) returns (gens: Gens)
    requires Run(actions).Some?
    ensures FlatInv(gens, Run(actions).value)
    ensures Get(gens, id) == GenerationOf(Run(actions).value.tabs, id.tab, id.token)
    ensures id in gens ==> GenerationOk(Run(actions).value, id, gens[id])
    ensures Coherent(Run(actions).value.tabs)
  {
    ReachableInv(actions);
    var s := Run(actions).value;
    var flat :| IsFlat(flat, s.tabs) && FlatInv(flat, s);
    assert Get(flat, Id(id.tab, id.token)) == GenerationOf(s.tabs, id.tab, id.token);
    gens := flat;
  }

  /**
   Every existing webview is tracked by the table or belongs to a birth that has not settled; once
   there has been a shutdown, the only others are the labels it drained and could not close.
   */
  lemma NoWebviewIsLost(actions: seq<Action>, l: Label)
    requires Run(actions).Some? && l in Run(actions).value.native
    ensures var s := Run(actions).value;
            var id := s.native[l];
            && l == LabelOf(id)
            && (TrackedOrBeingBorn(s, id) || (s.draining.Some? && l in s.draining.value) || l in s.leaked)
            && (NoShutdown(actions) ==> TrackedOrBeingBorn(s, id))
  {
    var _ := KnownGeneration(actions, Run(actions).value.native[l]);
    if NoShutdown(actions) {
      NoShutdownNoLeak(actions);
    }
  }

  lemma CreateHistory(s: State, s': State, id: Id, order: seq<NativeClose>)
    requires DoStartCreate(s, id, order) == Some(s')
    ensures s.used <= s'.used && s.drained == s'.drained && s.closed == s'.closed
    ensures s'.draining == s.draining && s'.leaked == s.leaked
  {
  }

  lemma CloseHistory(s: State, s': State, id: Id)
    requires DoStartClose(s, id) == Some(s')
    ensures s.used <= s'.used && s.drained == s'.drained && s.closed <= s'.closed
    ensures s'.draining == s.draining && s'.leaked == s.leaked
  {
  }

  lemma NativeHistory(s: State, s': State, a: Action)
    requires Next(s, a) == Some(s') && (a.CloseSuperseded? || a.CloseNative? || a.AddChild?)
    ensures s.used == s'.used && s.drained == s'.drained && s.closed == s'.closed
    ensures s'.draining == s.draining && s'.leaked == s.leaked && s'.tabs == s.tabs
  {
    match a
    case CloseSuperseded(id, ok) => CloseSupersededHistory(s, s', id, ok);
    case CloseNative(c, ok) => CloseNativeHistory(s, s', c, ok);
    case AddChild(id, ok) => AddChildHistory(s, s', id, ok);
  }

  lemma CloseSupersededHistory(s: State, s': State, id: Id, ok: bool)
    requires DoCloseSuperseded(s, id, ok) == Some(s')
    ensures s.used == s'.used && s.drained == s'.drained && s.closed == s'.closed
    ensures s'.draining == s.draining && s'.leaked == s.leaked && s'.tabs == s.tabs
  {
  }

  lemma CloseNativeHistory(s: State, s': State, c: Closer, ok: bool)
    requires DoCloseNative(s, c, ok) == Some(s')
    ensures s.used == s'.used && s.drained == s'.drained && s.closed == s'.closed
    ensures s'.draining == s.draining && s'.leaked == s.leaked && s'.tabs == s.tabs
  {
  }

  lemma AddChildHistory(s: State, s': State, id: Id, ok: bool)
    requires DoAddChild(s, id, ok) == Some(s')
    ensures s.used == s'.used && s.drained == s'.drained && s.closed == s'.closed
    ensures s'.draining == s.draining && s'.leaked == s.leaked && s'.tabs == s.tabs
  {
  }

  lemma SettleHistory(s: State, s': State, a: Action)
    requires Next(s, a) == Some(s')
    requires a.SettleSuperseded? || a.SupersedingDone? || a.SettleBirthFailure? || a.SettleBirth? || a.SettleClose?
    ensures s.used == s'.used && s.drained == s'.drained && s.closed == s'.closed
    ensures s'.draining == s.draining && s'.leaked == s.leaked
  {
  }

  lemma StepHistory(s: State, s': State, a: Action)
    requires Next(s, a) == Some(s')
    ensures s.used <= s'.used && s.drained <= s'.drained && s.closed * s.used <= s'.closed
    ensures a != StartShutdown ==> s.closed <= s'.closed && s.drained == s'.drained
    ensures a != StartShutdown && s.draining == None ==> s'.draining == None && s'.leaked == s.leaked
  {
    match a
    case StartCreate(id, order) => CreateHistory(s, s', id, order);
    case StartClose(id) => CloseHistory(s, s', id);
    case CloseSuperseded(_, _) => NativeHistory(s, s', a);
    case CloseNative(_, _) => NativeHistory(s, s', a);
    case AddChild(_, _) => NativeHistory(s, s', a);
    case StartShutdown =>
    case ShutdownClose(_, _) =>
    case EndShutdown =>
    case _ => SettleHistory(s, s', a);
  }

  lemma {:induction false} NoShutdownNoLeak(actions: seq<Action>)
    requires Run(actions).Some? && NoShutdown(actions)
    ensures Run(actions).value.draining == None && Run(actions).value.leaked == {}
  {
    if actions != [] {
      var n := |actions| - 1;
      NoShutdownNoLeak(actions[..n]);
      assert actions[n] in actions;
      StepHistory(Run(actions[..n]).value, Run(actions).value, actions[n]);
    }
  }

  /** A published session always resolves to a webview that exists and that no command is closing. */
  lemma LiveIsReal(actions: seq<Action>, id: Id)
    requires Run(actions).Some?
    requires var g := GenerationOf(Run(actions).value.tabs, id.tab, id.token); g.Some? && g.value.Live?
    ensures var s := Run(actions).value;
            && LabelOf(id) in s.native && s.native[LabelOf(id)] == id
            && !IsClosing(s, id)
            && Get(s.last, id.tab) == Some(id.token)
  {
    var s := Run(actions).value;
    var gens := KnownGeneration(actions, id);
    LabelInjective(s.native[LabelOf(id)], id);
    if id in s.supersededBy && s.supersededBy[id] in s.creators {
      assert CreatorOk(gens, s, s.supersededBy[id], s.creators[s.supersededBy[id]]);
    }
  }

  predicate Quiescent(s: State) {
    s.creators == map[] && s.closers == multiset{} && s.draining == None
  }

  /** When no command is running, a webview that is not its tab's live one is one whose close failed. */
  lemma NothingForgotten(actions: seq<Action>, l: Label)
    requires Run(actions).Some? && Quiescent(Run(actions).value) && l in Run(actions).value.native
    ensures var s := Run(actions).value;
            var id := s.native[l];
            || (GenerationOf(s.tabs, id.tab, id.token) == Some(Live(l))
               && TabOf(s.tabs, id.tab).desired == Some(id.token))
            || l in s.failed
            || l in s.leaked
  {
    var s := Run(actions).value;
    var id := s.native[l];
    var gens := KnownGeneration(actions, id);
    assert Accounted(gens, s, id);
    assert DesiredIsWanted(TabOf(s.tabs, id.tab));
  }

  // ---------------------------------------------------------------------------------------
  // Close is final
  // ---------------------------------------------------------------------------------------

  predicate IsLive(s: State, id: Id) {
    var g := GenerationOf(s.tabs, id.tab, id.token);
    g.Some? && g.value.Live?
  }

  lemma {:induction false} HistoryGrows(before: seq<Action>, after: seq<Action>)
    requires Run(before + after).Some?
    ensures Run(before).Some?
    ensures var (s, s') := (Run(before).value, Run(before + after).value);
            && s.used <= s'.used
            && s.drained <= s'.drained
            && s.closed * s.used <= s'.closed
            && (NoShutdown(after) ==> s.closed <= s'.closed)
  {
    if after == [] {
      assert before + after == before;
    } else {
      var n := |after| - 1;
      assert (before + after)[..|before + after| - 1] == before + after[..n];
      HistoryGrows(before, after[..n]);
      assert after[n] in after;
      StepHistory(Run(before + after[..n]).value, Run(before + after).value, after[n]);
    }
  }

  /**
   A token that was closed is never live afterwards, whether the close came before, during or after
   its create, unless a shutdown came between a close and a create that had not yet started.
   */
  lemma CloseIsFinal(before: seq<Action>, id: Id, after: seq<Action>)
    requires Run(before + [StartClose(id)] + after).Some?
    requires Run(before + [StartClose(id)]).Some?
    requires NoShutdown(after) || id in Run(before + [StartClose(id)]).value.used
    ensures !IsLive(Run(before + [StartClose(id)] + after).value, id)
  {
    var closed := before + [StartClose(id)];
    HistoryGrows(closed, after);
    assert closed[..|closed| - 1] == before;
    assert id in Run(closed).value.closed;
    NotLive(closed + after, id);
  }

  lemma NotLive(actions: seq<Action>, id: Id)
    requires Run(actions).Some?
    requires id in Run(actions).value.closed || id in Run(actions).value.drained
    ensures !IsLive(Run(actions).value, id)
  {
    var _ := KnownGeneration(actions, id);
  }

  /** A birth that was admitted before a shutdown and settles after it is never published. */
  lemma LateBirthIsNeverPublished(before: seq<Action>, id: Id, after: seq<Action>)
    requires Run(before + [StartShutdown] + after).Some?
    requires Run(before).Some? && id in Run(before).value.used
    ensures !IsLive(Run(before + [StartShutdown] + after).value, id)
  {
    var drained := before + [StartShutdown];
    HistoryGrows(drained, after);
    assert drained[..|drained| - 1] == before;
    NotLive(drained + after, id);
  }

  lemma RunStep(actions: seq<Action>, a: Action)
    requires Run(actions).Some?
    ensures Run(actions + [a]) == Next(Run(actions).value, a)
  {
    assert (actions + [a])[..|actions + [a]| - 1] == actions;
  }

  predicate IsFreshCreate(s: State, id: Id) {
    && s.draining == None
    && PlaceOf(s, id) == Some(Superseding([]))
    && TabOf(s.tabs, id.tab) == Tab(Some(id.token), map[id.token := Creating(LabelOf(id))], {})
  }

  lemma FreshCreate(before: seq<Action>, id: Id)
    requires |id.token| == TOKEN_LENGTH && Run(before).Some?
    requires var s := Run(before).value; s.tabs == map[] && id !in s.used && s.draining == None
    ensures var r := Run(before + [StartCreate(id, [])]); r.Some? && IsFreshCreate(r.value, id)
  {
    RunStep(before, StartCreate(id, []));
  }

  lemma FreshBirthIsPublished(before: seq<Action>, id: Id)
    requires Run(before).Some? && IsFreshCreate(Run(before).value, id)
    ensures var run := before + [SupersedingDone(id)] + [AddChild(id, true)] + [SettleBirth(id)];
            Run(run).Some? && IsLive(Run(run).value, id)
  {
    RunStep(before, SupersedingDone(id));
    RunStep(before + [SupersedingDone(id)], AddChild(id, true));
    RunStep(before + [SupersedingDone(id)] + [AddChild(id, true)], SettleBirth(id));
  }

  /** A shutdown is under way and has still to close these labels. */
  predicate IsDraining(s: State, labels: set<Label>, used: set<Id>) {
    s.draining == Some(labels) && s.tabs == map[] && s.used == used
  }

  lemma DrainOne(before: seq<Action>, labels: set<Label>, used: set<Id>, l: Label)
    requires Run(before).Some? && IsDraining(Run(before).value, labels, used) && l in labels
    ensures var r := Run(before + [ShutdownClose(l, true)]); r.Some? && IsDraining(r.value, labels - {l}, used)
  {
    RunStep(before, ShutdownClose(l, true));
  }

  /** A shutdown can close what it drained, one label after another. */
  lemma {:induction false} Drain(before: seq<Action>, labels: set<Label>, used: set<Id>) returns (after: seq<Action>)
    requires Run(before).Some? && IsDraining(Run(before).value, labels, used)
    ensures Run(before + after).Some? && IsDraining(Run(before + after).value, {}, used)
    decreases |labels|
  {
    if labels == {} {
      after := [];
      assert before + after == before;
    } else {
      var l :| l in labels;
      DrainOne(before, labels, used, l);
      var rest := Drain(before + [ShutdownClose(l, true)], labels - {l}, used);
      after := [ShutdownClose(l, true)] + rest;
      Regroup(before, [ShutdownClose(l, true)], rest);
    }
  }

  lemma ShutdownStarts(before: seq<Action>) returns (labels: set<Label>)
    requires Run(before).Some? && Run(before).value.draining == None
    ensures var r := Run(before + [StartShutdown]); r.Some? && IsDraining(r.value, labels, Run(before).value.used)
  {
    RunStep(before, StartShutdown);
    labels := NativeLabels(Run(before).value.tabs);
  }

  predicate IsEmptied(s: State, used: set<Id>) {
    s.tabs == map[] && s.draining == None && s.used == used
  }

  lemma ShutdownEnds(before: seq<Action>, used: set<Id>)
    requires Run(before).Some? && IsDraining(Run(before).value, {}, used)
    ensures Run(before + [EndShutdown]).Some? && IsEmptied(Run(before + [EndShutdown]).value, used)
  {
    RunStep(before, EndShutdown);
  }

  /** Any shutdown can run to its end, after which the table is empty and nobody holds the lock. */
  lemma ShutdownCompletes(before: seq<Action>) returns (after: seq<Action>)
    requires Run(before).Some? && Run(before).value.draining == None
    ensures Run(before + after).Some? && IsEmptied(Run(before + after).value, Run(before).value.used)
  {
    var used := Run(before).value.used;
    var labels := ShutdownStarts(before);
    var drain := Drain(before + [StartShutdown], labels, used);
    ShutdownEnds(before + [StartShutdown] + drain, used);
    after := [StartShutdown] + drain + [EndShutdown];
    Regroup(before, [StartShutdown] + drain, [EndShutdown]);
    Regroup(before, [StartShutdown], drain);
  }

  /** A create that nothing disturbs goes live. */
  lemma EmptiedThenLive(before: seq<Action>, used: set<Id>, id: Id) returns (after: seq<Action>)
    requires |id.token| == TOKEN_LENGTH && id !in used && Run(before).Some? && IsEmptied(Run(before).value, used)
    ensures Run(before + after).Some? && IsLive(Run(before + after).value, id)
  {
    FreshCreate(before, id);
    FreshBirthIsPublished(before + [StartCreate(id, [])], id);
    var birth := [SupersedingDone(id)] + [AddChild(id, true)] + [SettleBirth(id)];
    after := [StartCreate(id, [])] + birth;
    Regroup(before, [StartCreate(id, [])], birth);
    Regroup(before + [StartCreate(id, [])], [SupersedingDone(id)] + [AddChild(id, true)], [SettleBirth(id)]);
    Regroup(before + [StartCreate(id, [])], [SupersedingDone(id)], [AddChild(id, true)]);
  }

  lemma CloseHappened(before: seq<Action>, id: Id)
    requires Run(before + [StartClose(id)]).Some?
    ensures |id.token| == TOKEN_LENGTH && Run(before).Some? && Run(before + [StartClose(id)]).value.draining == None
  {
    assert (before + [StartClose(id)])[..|before + [StartClose(id)]| - 1] == before;
    CloseHistory(Run(before).value, Run(before + [StartClose(id)]).value, id);
  }

  /**
   The exception is real, whatever happened before: a shutdown forgets the tombstone of a close that came
   before its create, and that create then goes live.
   */
  lemma ShutdownForgetsEarlyClose(before: seq<Action>, id: Id)
    requires Run(before + [StartClose(id)]).Some? && id !in Run(before + [StartClose(id)]).value.used
    ensures exists after ::
              Run(before + [StartClose(id)] + after).Some? && IsLive(Run(before + [StartClose(id)] + after).value, id)
  {
    var closed := before + [StartClose(id)];
    CloseHappened(before, id);
    var drained := ShutdownCompletes(closed);
    var birth := EmptiedThenLive(closed + drained, Run(closed).value.used, id);
    Regroup(closed, drained, birth);
  }

  /** A close is final in every continuation exactly when its token has already been given to a create. */
  lemma CloseIsFinalExactly(before: seq<Action>, id: Id)
    requires Run(before + [StartClose(id)]).Some?
    ensures (forall after :: Run(before + [StartClose(id)] + after).Some?
                             ==> !IsLive(Run(before + [StartClose(id)] + after).value, id))
            <==> id in Run(before + [StartClose(id)]).value.used
  {
    if id in Run(before + [StartClose(id)]).value.used {
      forall after | Run(before + [StartClose(id)] + after).Some?
        ensures !IsLive(Run(before + [StartClose(id)] + after).value, id)
      {
        CloseIsFinal(before, id, after);
      }
    } else {
      ShutdownForgetsEarlyClose(before, id);
    }
  }
}
