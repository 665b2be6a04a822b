/**
 The process-local registry of native child webviews
 (`BrowserLifecycleRegistry` in browser.rs). Each method of the class is proved against a
 function on the table of tabs; the command protocol in BrowserCommands runs those functions.
 */
module BrowserLifecycle {
  import opened Common

  type TabId = string
  type Token = string
  type Label = string

  datatype Generation =
    | Creating(webview: Label)
    | Live(webview: Label)
    | RetiringBirth
    | RetiringNative(webview: Label)
  {
    predicate Wanted() { Creating? || Live? }
    predicate Native() { Live? || RetiringNative? }
    predicate Unborn() { Creating? || RetiringBirth? }
  }

  datatype Tab = Tab(desired: Option<Token>, generations: map<Token, Generation>, tombstones: set<Token>)

  datatype NativeClose = NativeClose(token: Token, webview: Label)
  datatype Admission = Retired | AlreadyAdmitted | Create(closes: set<NativeClose>)
  datatype Settlement = Publish | Retire(close: NativeClose)

  type Tabs = map<TabId, Tab>

  const EMPTY_TAB := Tab(None, map[], {})

  function TabOf(tabs: Tabs, id: TabId): Tab {
    if id in tabs then tabs[id] else EMPTY_TAB
  }

  /** The generation registered under a tab and a token, if any. */
  function GenerationOf(tabs: Tabs, id: TabId, token: Token): Option<Generation> {
    Get(TabOf(tabs, id).generations, token)
  }

  function RemoveEmptyTab(tabs: Tabs, id: TabId): Tabs {
    if id in tabs && tabs[id] == EMPTY_TAB then tabs - {id} else tabs
  }

  function Supersede(g: Generation): Generation {
    match g
    case Creating(_) => RetiringBirth
    case Live(webview) => RetiringNative(webview)
    case RetiringBirth => g
    case RetiringNative(_) => g
  }

  function LiveCloses(generations: map<Token, Generation>): set<NativeClose> {
    set t | t in generations && generations[t].Live? :: NativeClose(t, generations[t].webview)
  }

  function SupersedeAll(generations: map<Token, Generation>): map<Token, Generation> {
    map t | t in generations :: Supersede(generations[t])
  }

  function Admit(tabs: Tabs, id: TabId, token: Token, webview: Label): (Tabs, Admission) {
    var tab := TabOf(tabs, id);
    if token in tab.tombstones then
      (RemoveEmptyTab(tabs[id := tab.(tombstones := tab.tombstones - {token})], id), Retired)
    else if token in tab.generations then
      (tabs[id := tab], AlreadyAdmitted)
    else
      (tabs[id := Tab(Some(token), SupersedeAll(tab.generations)[token := Creating(webview)], tab.tombstones)],
       Create(LiveCloses(tab.generations)))
  }

  function Undesire(desired: Option<Token>, token: Token): Option<Token> {
    if desired == Some(token) then None else desired
  }

  function SettleSuccess(tabs: Tabs, id: TabId, token: Token, webview: Label): (Tabs, Settlement) {
    var tab := TabOf(tabs, id);
    if Get(tab.generations, token) == Some(Creating(webview)) && tab.desired == Some(token) then
      (tabs[id := tab.(generations := tab.generations[token := Live(webview)])], Publish)
    else
      (tabs[id := tab.(generations := tab.generations[token := RetiringNative(webview)],
                       desired := Undesire(tab.desired, token))],
       Retire(NativeClose(token, webview)))
  }

  function SettleFailure(tabs: Tabs, id: TabId, token: Token): Tabs {
    if id !in tabs then tabs
    else
      var tab := tabs[id];
      RemoveEmptyTab(tabs[id := tab.(generations := tab.generations - {token},
                                     desired := Undesire(tab.desired, token))], id)
  }

  function CloseOf(token: Token, g: Generation): Option<NativeClose> {
    if g.Native() then Some(NativeClose(token, g.webview)) else None
  }

  function Close(tabs: Tabs, id: TabId, token: Token): (Tabs, Option<NativeClose>) {
    var tab := TabOf(tabs, id);
    if token !in tab.generations then
      (tabs[id := tab.(tombstones := tab.tombstones + {token})], None)
    else
      var g := tab.generations[token];
      (tabs[id := tab.(generations := tab.generations[token := Supersede(g)],
                       desired := Undesire(tab.desired, token))],
       CloseOf(token, g))
  }

  function SettleNativeClose(tabs: Tabs, id: TabId, close: NativeClose): Tabs {
    if id !in tabs then tabs
    else if Get(tabs[id].generations, close.token) == Some(RetiringNative(close.webview)) then
      RemoveEmptyTab(tabs[id := tabs[id].(generations := tabs[id].generations - {close.token})], id)
    else
      RemoveEmptyTab(tabs, id)
  }

  ghost predicate IsNativeWith(generations: map<Token, Generation>, token: Token, webview: Label) {
    token in generations && generations[token].Native() && generations[token].webview == webview
  }

  /** A generation that owns a native resource under this label. */
  ghost predicate OwnsLabel(tabs: Tabs, id: TabId, token: Token, webview: Label) {
    IsNativeWith(TabOf(tabs, id).generations, token, webview)
  }

  // ---------------------------------------------------------------------------------------
  // What every operation keeps
  // ---------------------------------------------------------------------------------------

  /** The desired token names exactly the one generation that is still wanted. */
  ghost predicate DesiredIsWanted(tab: Tab) {
    forall t :: tab.desired == Some(t) <==> t in tab.generations && tab.generations[t].Wanted()
  }

  ghost predicate Coherent(tabs: Tabs) {
    forall id :: id in tabs ==> DesiredIsWanted(tabs[id])
  }

  lemma AdmitCoherent(tabs: Tabs, id: TabId, token: Token, webview: Label)
    requires Coherent(tabs)
    ensures Coherent(Admit(tabs, id, token, webview).0)
    ensures var a := Admit(tabs, id, token, webview).1;
            a.Create? ==> forall c, d :: c in a.closes && d in a.closes ==> c == d
  {
    var tab := TabOf(tabs, id);
    assert DesiredIsWanted(tab);
    var a := Admit(tabs, id, token, webview).1;
    if a.Create? {
      forall c, d | c in a.closes && d in a.closes
        ensures c == d
      {
        assert tab.desired == Some(c.token) && tab.desired == Some(d.token);
      }
    }
  }

  lemma SettleSuccessCoherent(tabs: Tabs, id: TabId, token: Token, webview: Label)
    requires Coherent(tabs)
    ensures Coherent(SettleSuccess(tabs, id, token, webview).0)
  {
    assert DesiredIsWanted(TabOf(tabs, id));
  }

  lemma SettleFailureCoherent(tabs: Tabs, id: TabId, token: Token)
    requires Coherent(tabs)
    ensures Coherent(SettleFailure(tabs, id, token))
  {
    assert DesiredIsWanted(TabOf(tabs, id));
  }

  lemma CloseCoherent(tabs: Tabs, id: TabId, token: Token)
    requires Coherent(tabs)
    ensures Coherent(Close(tabs, id, token).0)
  {
    assert DesiredIsWanted(TabOf(tabs, id));
  }

  lemma SettleNativeCloseCoherent(tabs: Tabs, id: TabId, close: NativeClose)
    requires Coherent(tabs)
    ensures Coherent(SettleNativeClose(tabs, id, close))
  {
    assert DesiredIsWanted(TabOf(tabs, id));
  }

  /** In a coherent table a tab has at most one wanted generation, whatever its token. */
  lemma AtMostOneWanted(tabs: Tabs, id: TabId, t: Token, u: Token)
    requires Coherent(tabs)
    requires GenerationOf(tabs, id, t).Some? && GenerationOf(tabs, id, t).value.Wanted()
    requires GenerationOf(tabs, id, u).Some? && GenerationOf(tabs, id, u).value.Wanted()
    ensures t == u
  {
    assert DesiredIsWanted(TabOf(tabs, id));
    assert TabOf(tabs, id).desired == Some(t);
  }

  /** Closing or settling one generation leaves every other generation as it was. */
  lemma OthersUntouched(tabs: Tabs, id: TabId, token: Token, webview: Label, id': TabId, token': Token)
    requires (id, token) != (id', token')
    ensures GenerationOf(Close(tabs, id, token).0, id', token') == GenerationOf(tabs, id', token')
    ensures GenerationOf(SettleSuccess(tabs, id, token, webview).0, id', token') == GenerationOf(tabs, id', token')
    ensures GenerationOf(SettleFailure(tabs, id, token), id', token') == GenerationOf(tabs, id', token')
    ensures GenerationOf(SettleNativeClose(tabs, id, NativeClose(token, webview)), id', token')
         == GenerationOf(tabs, id', token')
  {
  }

  /**
   A repeated close names the same native resource until a close of it has settled, so a failed
   native close can be retried and nothing is closed under another generation's label.
   */
  lemma CloseRetries(tabs: Tabs, id: TabId, token: Token)
    ensures var (after, close) := Close(tabs, id, token);
            && Close(after, id, token).1 == close
            && (close.Some? <==> exists l :: OwnsLabel(tabs, id, token, l))
            && (close.Some? ==> GenerationOf(SettleNativeClose(after, id, close.value), id, token) == None)
  {
    var (after, close) := Close(tabs, id, token);
    var g := GenerationOf(tabs, id, token);
    if close.Some? {
      assert OwnsLabel(tabs, id, token, g.value.webview);
    }
  }

  // ---------------------------------------------------------------------------------------
  // What every operation does, generation by generation
  // ---------------------------------------------------------------------------------------

  /** The tab has the same desired token, generations and tombstones. */
  predicate SameTab(a: Tabs, b: Tabs, id: TabId) {
    TabOf(a, id) == TabOf(b, id)
  }

  /** A wanted generation retires; what is retiring already stays as it is. */
  predicate Retires(before: Generation, after: Generation) {
    && (before.Creating? ==> after == RetiringBirth)
    && (before.Live? ==> after == RetiringNative(before.webview))
    && (!before.Wanted() ==> after == before)
  }

  /**
   A create that was closed before it came is turned away, once; one that is known changes nothing; any other
   becomes the desired one, every other generation of its tab retires, and those that were live are to be closed.
   */
  lemma AdmitsExactly(tabs: Tabs, id: TabId, token: Token, webview: Label, t: Token)
    ensures var (after, a) := Admit(tabs, id, token, webview);
            var (tab, tab') := (TabOf(tabs, id), TabOf(after, id));
            && (a.Retired? <==> token in tab.tombstones)
            && (a.AlreadyAdmitted? <==> token !in tab.tombstones && token in tab.generations)
            && (a.Retired? ==> tab' == tab.(tombstones := tab.tombstones - {token}))
            && (a.AlreadyAdmitted? ==> tab' == tab)
            && (a.Create? ==>
                  && tab'.desired == Some(token) && Get(tab'.generations, token) == Some(Creating(webview))
                  && tab'.tombstones == tab.tombstones
                  && (t != token ==> (t in tab'.generations <==> t in tab.generations))
                  && (t != token && t in tab.generations ==> Retires(tab.generations[t], tab'.generations[t]))
                  && (forall l :: NativeClose(t, l) in a.closes <==> Get(tab.generations, t) == Some(Live(l))))
  {
  }

  /** A birth is published if its tab still waits for it, and retires otherwise. */
  lemma BirthsSettleExactly(tabs: Tabs, id: TabId, token: Token, webview: Label)
    ensures var (after, settlement) := SettleSuccess(tabs, id, token, webview);
            var (tab, tab') := (TabOf(tabs, id), TabOf(after, id));
            && (settlement.Publish? <==>
                  Get(tab.generations, token) == Some(Creating(webview)) && tab.desired == Some(token))
            && (settlement.Retire? ==> settlement.close == NativeClose(token, webview))
            && Get(tab'.generations, token)
               == Some(if settlement.Publish? then Live(webview) else RetiringNative(webview))
            && (tab'.desired == if settlement.Retire? && tab.desired == Some(token) then None else tab.desired)
            && tab'.tombstones == tab.tombstones
  {
  }

  /** A close retires its generation, names its webview if there is one, or else remembers the token. */
  lemma ClosesExactly(tabs: Tabs, id: TabId, token: Token)
    ensures var (after, close) := Close(tabs, id, token);
            var (tab, tab') := (TabOf(tabs, id), TabOf(after, id));
            && (token !in tab.generations ==>
                  close == None && tab' == tab.(tombstones := tab.tombstones + {token}))
            && (token in tab.generations ==>
                  && token in tab'.generations && Retires(tab.generations[token], tab'.generations[token])
                  && close == (if tab.generations[token].Native()
                               then Some(NativeClose(token, tab.generations[token].webview)) else None)
                  && tab'.desired == (if tab.desired == Some(token) then None else tab.desired)
                  && tab'.tombstones == tab.tombstones)
  {
  }

  /** A failed birth and a finished native close remove their generation; a close only under its own label. */
  lemma RemovalsExactly(tabs: Tabs, id: TabId, token: Token, close: NativeClose)
    ensures var (tab, tab') := (TabOf(tabs, id), TabOf(SettleFailure(tabs, id, token), id));
            && tab'.generations == tab.generations - {token} && tab'.tombstones == tab.tombstones
            && tab'.desired == (if tab.desired == Some(token) then None else tab.desired)
    ensures var (tab, tab') := (TabOf(tabs, id), TabOf(SettleNativeClose(tabs, id, close), id));
            && tab'.desired == tab.desired && tab'.tombstones == tab.tombstones
            && tab'.generations == (if Get(tab.generations, close.token) == Some(RetiringNative(close.webview))
                                    then tab.generations - {close.token} else tab.generations)
  {
  }

  /** No operation touches another tab. */
  lemma OtherTabsStay(tabs: Tabs, id: TabId, token: Token, webview: Label, other: TabId)
    requires other != id
    ensures SameTab(tabs, Admit(tabs, id, token, webview).0, other)
    ensures SameTab(tabs, SettleSuccess(tabs, id, token, webview).0, other)
    ensures SameTab(tabs, SettleFailure(tabs, id, token), other)
    ensures SameTab(tabs, Close(tabs, id, token).0, other)
    ensures SameTab(tabs, SettleNativeClose(tabs, id, NativeClose(token, webview)), other)
  {
  }

  // ---------------------------------------------------------------------------------------
  // The registry object
  // ---------------------------------------------------------------------------------------

  class BrowserLifecycleRegistry {
    var tabs: Tabs

    ghost predicate Valid()
      reads this
    {
      Coherent(tabs)
    }

    constructor ()
      ensures Valid() && tabs == map[]
    {
      tabs := map[];
    }

    method RemoveIfEmpty(id: TabId)
      modifies this
      ensures tabs == RemoveEmptyTab(old(tabs), id)
    {
      if id in tabs && tabs[id].generations == map[] && tabs[id].tombstones == {} && tabs[id].desired == None {
        tabs := tabs - {id};
      }
    }

    /** Retires every wanted generation of a tab and collects the native ones to close. */
    static method SupersedeGenerations(before: map<Token, Generation>)
      returns (generations: map<Token, Generation>, closeNow: seq<NativeClose>)
      ensures generations == SupersedeAll(before)
      ensures forall c :: c in closeNow <==> c in LiveCloses(before)
      ensures forall i, j :: 0 <= i < j < |closeNow| ==> closeNow[i] != closeNow[j]
    {
      generations, closeNow := before, [];
      var pending := generations.Keys;
      while pending != {}
        invariant pending <= before.Keys == generations.Keys
        invariant forall t :: t in generations ==>
                    generations[t] == if t in pending then before[t] else Supersede(before[t])
        invariant forall c :: c in closeNow <==> c in LiveCloses(before) && c.token !in pending
        invariant forall i, j :: 0 <= i < j < |closeNow| ==> closeNow[i] != closeNow[j]
        decreases |pending|
      {
        var t :| t in pending;
        pending := pending - {t};
        match generations[t] {
          case Creating(_) => generations := generations[t := RetiringBirth];
          case Live(l) =>
            generations := generations[t := RetiringNative(l)];
            closeNow := closeNow + [NativeClose(t, l)];
          case RetiringBirth =>
          case RetiringNative(_) =>
        }
      }
    }

    method AdmitCreate(id: TabId, token: Token, webview: Label)
      returns (admission: Admission, closeNow: seq<NativeClose>)
      requires Valid()
      modifies this
      ensures Valid()
      ensures (tabs, admission) == Admit(old(tabs), id, token, webview)
      ensures admission.Create? ==> admission.closes == (set c | c in closeNow)
      ensures forall c, d :: c in closeNow && d in closeNow ==> c == d
    {
      AdmitCoherent(tabs, id, token, webview);
      closeNow := [];
      var tab := TabOf(tabs, id);
      tabs := tabs[id := tab];
      if token in tab.tombstones {
        tabs := tabs[id := tab.(tombstones := tab.tombstones - {token})];
        assert tabs == old(tabs)[id := tab.(tombstones := tab.tombstones - {token})];
        RemoveIfEmpty(id);
        return Retired, [];
      }
      if token in tab.generations {
        return AlreadyAdmitted, [];
      }
      var generations;
      generations, closeNow := SupersedeGenerations(tab.generations);
      tabs := tabs[id := Tab(Some(token), generations[token := Creating(webview)], tab.tombstones)];
      assert tabs == Admit(old(tabs), id, token, webview).0;
      admission := Create(set c | c in closeNow);
      assert admission.closes == LiveCloses(tab.generations);
    }

    method SettleCreateSuccess(id: TabId, token: Token, webview: Label) returns (settlement: Settlement)
      requires Valid()
      modifies this
      ensures Valid()
      ensures (tabs, settlement) == SettleSuccess(old(tabs), id, token, webview)
    {
      SettleSuccessCoherent(tabs, id, token, webview);
      var tab := TabOf(tabs, id);
      var generation := Get(tab.generations, token);
      var shouldPublish := generation == Some(Creating(webview)) && tab.desired == Some(token);
      if shouldPublish {
        tabs := tabs[id := tab.(generations := tab.generations[token := Live(webview)])];
        settlement := Publish;
      } else {
        tab := tab.(generations := tab.generations[token := RetiringNative(webview)]);
        if tab.desired == Some(token) {
          tab := tab.(desired := None);
        }
        tabs := tabs[id := tab];
        settlement := Retire(NativeClose(token, webview));
      }
    }

    method SettleCreateFailure(id: TabId, token: Token)
      requires Valid()
      modifies this
      ensures Valid()
      ensures tabs == SettleFailure(old(tabs), id, token)
    {
      SettleFailureCoherent(tabs, id, token);
      if id !in tabs {
        return;
      }
      var tab := tabs[id].(generations := tabs[id].generations - {token});
      if tab.desired == Some(token) {
        tab := tab.(desired := None);
      }
      tabs := tabs[id := tab];
      RemoveIfEmpty(id);
    }

    method CloseGeneration(id: TabId, token: Token) returns (closeNow: Option<NativeClose>)
      requires Valid()
      modifies this
      ensures Valid()
      ensures (tabs, closeNow) == Close(old(tabs), id, token)
    {
      CloseCoherent(tabs, id, token);
      var tab := TabOf(tabs, id);
      if token !in tab.generations {
        tabs := tabs[id := tab.(tombstones := tab.tombstones + {token})];
        return None;
      }
      match tab.generations[token] {
      case Creating(_) =>
        tab := tab.(generations := tab.generations[token := RetiringBirth]);
        closeNow := None;
      case Live(l) =>
        tab := tab.(generations := tab.generations[token := RetiringNative(l)]);
        closeNow := Some(NativeClose(token, l));
      case RetiringBirth =>
        closeNow := None;
        assert tab.generations[token := RetiringBirth] == tab.generations;
      case RetiringNative(l) =>
        closeNow := Some(NativeClose(token, l));
        assert tab.generations[token := RetiringNative(l)] == tab.generations;
      }
      if tab.desired == Some(token) {
        tab := tab.(desired := None);
      }
      tabs := tabs[id := tab];
    }

    method SettleNativeCloseSuccess(id: TabId, close: NativeClose)
      requires Valid()
      modifies this
      ensures Valid()
      ensures tabs == SettleNativeClose(old(tabs), id, close)
    {
      SettleNativeCloseCoherent(tabs, id, close);
      if id !in tabs {
        return;
      }
      var tab := tabs[id];
      if close.token in tab.generations && tab.generations[close.token] == RetiringNative(close.webview) {
        tabs := tabs[id := tab.(generations := tab.generations - {close.token})];
      }
      RemoveIfEmpty(id);
    }

    /** The labels of one tab's native resources. */
    static method NativeLabelsOf(generations: map<Token, Generation>) returns (labels: seq<Label>)
      ensures forall l :: l in labels <==> exists t :: IsNativeWith(generations, t, l)
    {
      labels := [];
      var tokens := generations.Keys;
      while tokens != {}
        invariant tokens <= generations.Keys
        invariant forall l :: l in labels ==> exists t :: IsNativeWith(generations, t, l)
        invariant forall t, l :: t !in tokens && IsNativeWith(generations, t, l) ==> l in labels
        decreases |tokens|
      {
        var t :| t in tokens;
        tokens := tokens - {t};
        if generations[t].Native() {
          labels := labels + [generations[t].webview];
          assert IsNativeWith(generations, t, generations[t].webview);
        }
      }
    }

    /** Lists the label of every native resource and forgets the whole table. */
    method DrainNative() returns (labels: seq<Label>)
      requires Valid()
      modifies this
      ensures Valid() && tabs == map[]
      ensures forall l :: l in labels <==> exists id, t :: OwnsLabel(old(tabs), id, t, l)
    {
      labels := [];
      var ids := tabs.Keys;
      while ids != {}
        invariant ids <= tabs.Keys && tabs == old(tabs)
        invariant forall l :: l in labels ==> exists id, t :: OwnsLabel(tabs, id, t, l)
        invariant forall id, t, l :: id !in ids && OwnsLabel(tabs, id, t, l) ==> l in labels
        decreases |ids|
      {
        var id :| id in ids;
        var ofTab := NativeLabelsOf(tabs[id].generations);
        forall t, l | IsNativeWith(tabs[id].generations, t, l)
          ensures OwnsLabel(tabs, id, t, l)
        {
        }
        assert forall t, l :: OwnsLabel(tabs, id, t, l) ==> IsNativeWith(tabs[id].generations, t, l);
        labels := labels + ofTab;
        ids := ids - {id};
      }
      tabs := map[];
    }
  }
}
