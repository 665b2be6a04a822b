/** Every reachable state of the browser commands satisfies the invariant of BrowserCommands. */
module BrowserCommandProofs {
  import opened Common
  import opened BrowserLifecycle
  import opened BrowserCommands

  type Gens = map<Id, Generation>

  /** No two generations ever used share a label: the label names its generation. */
  lemma LabelsDistinct(s: State) returns (owner: map<Label, Id>)
    requires forall id :: id in s.used ==> |id.token| == TOKEN_LENGTH
    ensures forall id :: id in s.used ==> Get(owner, LabelOf(id)) == Some(id)
  {
    owner := OwnersOf(s.used);
  }

  lemma OwnersOf(ids: set<Id>) returns (owner: map<Label, Id>)
    requires forall id :: id in ids ==> |id.token| == TOKEN_LENGTH
    ensures forall id :: id in ids ==> Get(owner, LabelOf(id)) == Some(id)
    ensures forall l :: l in owner ==> owner[l] in ids && LabelOf(owner[l]) == l
  {
    if ids == {} {
      owner := map[];
    } else {
      var id :| id in ids;
      var rest := OwnersOf(ids - {id});
      owner := rest[LabelOf(id) := id];
      forall x | x in ids && x != id
        ensures Get(owner, LabelOf(x)) == Some(x)
      {
        if LabelOf(x) == LabelOf(id) {
          LabelInjective(x, id);
        }
      }
    }
  }

  // ---------------------------------------------------------------------------------------
  // What each critical section does to the flat table
  // ---------------------------------------------------------------------------------------

  function SupersedeTab(gens: Gens, tab: TabId): Gens {
    map x | x in gens :: if x.tab == tab then Supersede(gens[x]) else gens[x]
  }

  lemma AdmitFlat(gens: Gens, tabs: Tabs, id: Id, l: Label)
    requires IsFlat(gens, tabs)
    ensures var (after, admission) := Admit(tabs, id.tab, id.token, l);
            if admission.Create? then
              && id !in gens
              && IsFlat(SupersedeTab(gens, id.tab)[id := Creating(l)], after)
              && (forall c :: c in admission.closes <==> Get(gens, Id(id.tab, c.token)) == Some(Live(c.webview)))
            else IsFlat(gens, after)
  {
    var (after, admission) := Admit(tabs, id.tab, id.token, l);
    assert Get(gens, id) == GenerationOf(tabs, id.tab, id.token);
    if admission.Create? {
      forall c
        ensures c in admission.closes <==> Get(gens, Id(id.tab, c.token)) == Some(Live(c.webview))
      {
        assert Get(gens, Id(id.tab, c.token)) == GenerationOf(tabs, id.tab, c.token);
        assert c in admission.closes <==> c in LiveCloses(TabOf(tabs, id.tab).generations);
      }
    }
  }

  function CloseGens(gens: Gens, id: Id): Gens {
    if id in gens then gens[id := Supersede(gens[id])] else gens
  }

  lemma CloseFlat(gens: Gens, tabs: Tabs, id: Id)
    requires IsFlat(gens, tabs)
    ensures var (after, close) := Close(tabs, id.tab, id.token);
            && IsFlat(CloseGens(gens, id), after)
            && close == (if id in gens then CloseOf(id.token, gens[id]) else None)
  {
    assert Get(gens, id) == GenerationOf(tabs, id.tab, id.token);
  }

  function SettleCloseGens(gens: Gens, id: Id, l: Label): Gens {
    if Get(gens, id) == Some(RetiringNative(l)) then gens - {id} else gens
  }

  lemma SettleNativeCloseFlat(gens: Gens, tabs: Tabs, tab: TabId, close: NativeClose)
    requires IsFlat(gens, tabs)
    ensures IsFlat(SettleCloseGens(gens, Id(tab, close.token), close.webview), SettleNativeClose(tabs, tab, close))
  {
    assert Get(gens, Id(tab, close.token)) == GenerationOf(tabs, tab, close.token);
  }

  lemma SettleFailureFlat(gens: Gens, tabs: Tabs, id: Id)
    requires IsFlat(gens, tabs)
    ensures IsFlat(gens - {id}, SettleFailure(tabs, id.tab, id.token))
  {
  }

  lemma SettleSuccessFlat(gens: Gens, tabs: Tabs, id: Id, l: Label)
    requires Coherent(tabs) && IsFlat(gens, tabs)
    ensures var (after, settlement) := SettleSuccess(tabs, id.tab, id.token, l);
            && settlement == (if Get(gens, id) == Some(Creating(l)) then Publish else Retire(NativeClose(id.token, l)))
            && IsFlat(gens[id := if settlement.Publish? then Live(l) else RetiringNative(l)], after)
  {
    assert DesiredIsWanted(TabOf(tabs, id.tab));
    assert Get(gens, id) == GenerationOf(tabs, id.tab, id.token);
  }

  // ---------------------------------------------------------------------------------------
  // Each action keeps the invariant of the flat table
  // ---------------------------------------------------------------------------------------

  ghost predicate CreateStep(gens: Gens, s: State, s': State, id: Id, order: seq<NativeClose>) {
    && s.draining.None? && id !in s.used && |id.token| == TOKEN_LENGTH && id !in gens && id !in s.closed
    && (forall c :: c in order <==> Get(gens, Id(id.tab, c.token)) == Some(Live(c.webview)))
    && |order| <= 1
    && s' == s.(tabs := s'.tabs, used := s.used + {id}, creators := s.creators[id := Superseding(order)],
                last := s.last[id.tab := id.token], supersededBy := s.supersededBy + SupersededBy(id, order))
  }

  lemma CreateKeepsGeneration(gens: Gens, s: State, s': State, id: Id, order: seq<NativeClose>, x: Id)
    requires CreateStep(gens, s, s', id, order) && x in gens && GenerationOk(s, x, gens[x])
    requires id !in s.creators
    ensures GenerationOk(s', x, SupersedeTab(gens, id.tab)[x])
  {
    if gens[x].Live? && x.tab == id.tab {
      CreateRetiresLive(gens, s, s', id, order, x);
    } else {
      CreateKeepsOther(gens, s, s', id, order, x);
    }
  }

  lemma CreateKeepsOther(gens: Gens, s: State, s': State, id: Id, order: seq<NativeClose>, x: Id)
    requires CreateStep(gens, s, s', id, order) && x in gens && GenerationOk(s, x, gens[x])
    requires id !in s.creators && !(gens[x].Live? && x.tab == id.tab)
    ensures GenerationOk(s', x, SupersedeTab(gens, id.tab)[x])
  {
  }

  lemma CreateRetiresLive(gens: Gens, s: State, s': State, id: Id, order: seq<NativeClose>, x: Id)
    requires CreateStep(gens, s, s', id, order) && x in gens && GenerationOk(s, x, gens[x])
    requires gens[x].Live? && x.tab == id.tab
    ensures GenerationOk(s', x, SupersedeTab(gens, id.tab)[x])
  {
    LiveIsListed(gens, s, s', id, order, x);
  }

  /** The one generation that a create supersedes while it is live is the one it has to close. */
  lemma LiveIsListed(gens: Gens, s: State, s': State, id: Id, order: seq<NativeClose>, x: Id)
    requires CreateStep(gens, s, s', id, order) && x in gens && gens[x].Live? && x.tab == id.tab
    ensures order == [NativeClose(x.token, gens[x].webview)] && x in s'.supersededBy && s'.supersededBy[x] == id
  {
    var c := NativeClose(x.token, gens[x].webview);
    assert Get(gens, Id(id.tab, c.token)) == Some(Live(c.webview));
    assert c in order && Id(id.tab, c.token) == x;
    assert x in SupersededBy(id, order);
  }

  lemma CreateKeepsGenerations(gens: Gens, s: State, s': State, id: Id, order: seq<NativeClose>)
    requires GenerationsOk(gens, s) && CreateStep(gens, s, s', id, order)
    requires id !in s.creators && s.drained <= s.used
    ensures GenerationsOk(SupersedeTab(gens, id.tab)[id := Creating(LabelOf(id))], s')
  {
    var gens' := SupersedeTab(gens, id.tab)[id := Creating(LabelOf(id))];
    forall x | x in gens'
      ensures GenerationOk(s', x, gens'[x])
    {
      if x != id {
        CreateKeepsGeneration(gens, s, s', id, order, x);
      }
    }
  }

  lemma CreateKeepsClosers(gens: Gens, s: State, s': State, id: Id, order: seq<NativeClose>)
    requires ClosersOk(gens, s) && CreateStep(gens, s, s', id, order)
    ensures ClosersOk(SupersedeTab(gens, id.tab)[id := Creating(LabelOf(id))], s')
  {
  }

  lemma CreateKeepsCreators(gens: Gens, s: State, s': State, id: Id, order: seq<NativeClose>)
    requires CreatorsOk(gens, s) && CreateStep(gens, s, s', id, order) && GenerationsOk(gens, s)
    requires LabelOf(id) !in s.native
    ensures CreatorsOk(SupersedeTab(gens, id.tab)[id := Creating(LabelOf(id))], s')
  {
    var gens' := SupersedeTab(gens, id.tab)[id := Creating(LabelOf(id))];
    NewCreatorOk(gens, s, s', id, order);
    forall x | x in s'.creators && x != id
      ensures CreatorOk(gens', s', x, s'.creators[x])
    {
      OldCreatorOk(gens, s, s', id, order, x);
    }
  }

  lemma OldCreatorOk(gens: Gens, s: State, s': State, id: Id, order: seq<NativeClose>, x: Id)
    requires CreateStep(gens, s, s', id, order) && x in s.creators && x != id && CreatorOk(gens, s, x, s.creators[x])
    ensures CreatorOk(SupersedeTab(gens, id.tab)[id := Creating(LabelOf(id))], s', x, s'.creators[x])
  {
  }

  lemma NewCreatorOk(gens: Gens, s: State, s': State, id: Id, order: seq<NativeClose>)
    requires CreatorsOk(gens, s) && CreateStep(gens, s, s', id, order) && GenerationsOk(gens, s)
    requires LabelOf(id) !in s.native
    ensures CreatorOk(SupersedeTab(gens, id.tab)[id := Creating(LabelOf(id))], s', id, Superseding(order))
  {
    if order != [] {
      var x := Id(id.tab, order[0].token);
      assert order[0] in order;
      assert x in gens && GenerationOk(s, x, gens[x]);
      assert x in s.creators ==> CreatorOk(gens, s, x, s.creators[x]);
    }
  }

  lemma CreateKeeps(gens: Gens, s: State, s': State, id: Id, order: seq<NativeClose>)
    requires FlatInv(gens, s) && CreateStep(gens, s, s', id, order)
    ensures FlatInv(SupersedeTab(gens, id.tab)[id := Creating(LabelOf(id))], s')
  {
    var _ := LabelsDistinct(s');
    CreateKeepsGenerations(gens, s, s', id, order);
    CreateKeepsClosers(gens, s, s', id, order);
    CreateKeepsCreators(gens, s, s', id, order);
    CreateKeepsNative(gens, s, s', id, order);
  }

  lemma CreateKeepsNative(gens: Gens, s: State, s': State, id: Id, order: seq<NativeClose>)
    requires NativeOk(gens, s) && CreateStep(gens, s, s', id, order) && id !in s.creators
    ensures NativeOk(SupersedeTab(gens, id.tab)[id := Creating(LabelOf(id))], s')
  {
  }

  lemma RetiredCreateKeeps(gens: Gens, s: State, s': State, id: Id)
    requires FlatInv(gens, s) && |id.token| == TOKEN_LENGTH
    requires s' == s.(tabs := s'.tabs, used := s.used + {id})
    ensures FlatInv(gens, s')
  {
  }

  ghost predicate CloseStep(gens: Gens, s: State, s': State, id: Id) {
    && s.draining.None? && |id.token| == TOKEN_LENGTH
    && s' == s.(tabs := s'.tabs, closed := s.closed + {id},
                closers := if id in gens && gens[id].Native()
                           then s.closers + multiset{Closer(id.tab, NativeClose(id.token, gens[id].webview), false)}
                           else s.closers)
  }

  lemma CloseKeepsGenerations(gens: Gens, s: State, s': State, id: Id)
    requires GenerationsOk(gens, s) && CloseStep(gens, s, s', id)
    ensures GenerationsOk(CloseGens(gens, id), s')
  {
  }

  lemma CloseKeepsCreators(gens: Gens, s: State, s': State, id: Id)
    requires CreatorsOk(gens, s) && CloseStep(gens, s, s', id)
    ensures CreatorsOk(CloseGens(gens, id), s')
  {
  }

  lemma CloseKeeps(gens: Gens, s: State, s': State, id: Id)
    requires FlatInv(gens, s) && CloseStep(gens, s, s', id)
    ensures FlatInv(CloseGens(gens, id), s')
  {
    CloseKeepsGenerations(gens, s, s', id);
    CloseKeepsCreators(gens, s, s', id);
    CloseKeepsClosers(gens, s, s', id);
    CloseKeepsNative(gens, s, s', id);
  }

  lemma CloseKeepsClosers(gens: Gens, s: State, s': State, id: Id)
    requires ClosersOk(gens, s) && CloseStep(gens, s, s', id)
    requires GenerationsOk(gens, s) && CreatorsOk(gens, s)
    ensures ClosersOk(CloseGens(gens, id), s')
  {
  }

  lemma CloseKeepsNative(gens: Gens, s: State, s': State, id: Id)
    requires NativeOk(gens, s) && CloseStep(gens, s, s', id)
    ensures NativeOk(CloseGens(gens, id), s')
  {
  }

  /** What a native close that succeeded or failed leaves intact, whoever performed it. */
  lemma NativeCloseKeepsNative(gens: Gens, s: State, s': State, l: Label, ok: bool)
    requires NativeOk(gens, s)
    requires s' == AfterNativeClose(s, l, ok).(creators := s'.creators, closers := s'.closers)
    requires forall id :: Get(s.creators, id) == Some(Born) ==> Get(s'.creators, id) == Some(Born)
    ensures NativeOk(gens, s')
  {
  }

  lemma CloseSupersededKeepsGenerations(gens: Gens, s: State, s': State, id: Id, ok: bool)
    requires GenerationsOk(gens, s) && DoCloseSuperseded(s, id, ok) == Some(s')
    requires CreatorOk(gens, s, id, s.creators[id])
    requires forall x :: x in s.used ==> |x.token| == TOKEN_LENGTH
    ensures GenerationsOk(gens, s')
  {
    var _ := LabelsDistinct(s);
  }

  lemma CloseSupersededKeepsCreators(gens: Gens, s: State, s': State, id: Id, ok: bool)
    requires CreatorsOk(gens, s) && DoCloseSuperseded(s, id, ok) == Some(s')
    requires forall x :: x in s.used ==> |x.token| == TOKEN_LENGTH
    ensures CreatorsOk(gens, s')
  {
    var _ := LabelsDistinct(s);
  }

  lemma CloseSupersededKeeps(gens: Gens, s: State, s': State, id: Id, ok: bool)
    requires FlatInv(gens, s) && DoCloseSuperseded(s, id, ok) == Some(s')
    ensures FlatInv(gens, s')
  {
    CloseSupersededKeepsGenerations(gens, s, s', id, ok);
    CloseSupersededKeepsCreators(gens, s, s', id, ok);
    NativeCloseKeepsNative(gens, s, s', s.creators[id].rest[0].webview, ok);
  }

  /** Forgetting generations and finishing commands keeps what is known of the other creates. */
  lemma SettledKeepsCreators(gens: Gens, gens': Gens, s: State, s': State)
    requires CreatorsOk(gens, s)
    requires forall x :: x in gens' ==> x in gens && (x in s.creators ==> gens'[x] == gens[x])
                                        && (gens[x].RetiringNative? ==> gens'[x].RetiringNative?)
    requires s' == s.(tabs := s'.tabs, creators := s'.creators, closers := s'.closers)
    requires forall x :: x in s'.creators ==> x in s.creators
                                              && (s'.creators[x] == s.creators[x]
                                                 || CreatorOk(gens', s', x, s'.creators[x]))
    ensures CreatorsOk(gens', s')
  {
  }

  lemma SettledKeepsClosers(gens: Gens, gens': Gens, s: State, s': State)
    requires ClosersOk(gens, s)
    requires forall x :: x in gens' ==> x in gens && (gens[x].RetiringNative? ==> gens'[x].RetiringNative?)
    requires s' == s.(tabs := s'.tabs, creators := s'.creators, closers := s'.closers)
    requires forall x :: x in s'.creators ==> x in s.creators
    requires forall c :: c in s'.closers ==> c in s.closers
    ensures ClosersOk(gens', s')
  {
  }

  lemma SettledKeepsNative(gens: Gens, gens': Gens, s: State, s': State)
    requires NativeOk(gens, s)
    requires s' == s.(tabs := s'.tabs, creators := s'.creators, closers := s'.closers)
    requires forall x :: x in gens && gens[x].Native() && LabelOf(x) in s.native ==> Accounted(gens', s', x)
    requires forall x :: Get(s.creators, x) == Some(Born) ==> Accounted(gens', s', x)
    ensures NativeOk(gens', s')
  {
  }

  lemma SettleSupersededKeepsGenerations(gens: Gens, s: State, s': State, id: Id, close: NativeClose)
    requires GenerationsOk(gens, s) && Get(s.creators, id) == Some(SupersededClosed(close, []))
    requires s' == s.(tabs := s'.tabs, creators := s.creators[id := Superseding([])])
    requires close.webview == LabelOf(Id(id.tab, close.token))
    ensures GenerationsOk(SettleCloseGens(gens, Id(id.tab, close.token), close.webview), s')
  {
  }

  lemma SettleSupersededKeeps(gens: Gens, s: State, s': State, id: Id, close: NativeClose, rest: seq<NativeClose>)
    requires FlatInv(gens, s) && Get(s.creators, id) == Some(SupersededClosed(close, rest)) && s.draining.None?
    requires s' == s.(tabs := s'.tabs, creators := s.creators[id := Superseding(rest)])
    ensures FlatInv(SettleCloseGens(gens, Id(id.tab, close.token), close.webview), s')
  {
    SettleSupersededKeepsGenerations(gens, s, s', id, close);
    var gens' := SettleCloseGens(gens, Id(id.tab, close.token), close.webview);
    SettledKeepsCreators(gens, gens', s, s');
    SettledKeepsClosers(gens, gens', s, s');
    SettledKeepsNative(gens, gens', s, s');
  }

  lemma SupersedingDoneKeepsGenerations(gens: Gens, s: State, s': State, id: Id)
    requires GenerationsOk(gens, s) && DoSupersedingDone(s, id) == Some(s')
    ensures GenerationsOk(gens, s')
  {
  }

  lemma SupersedingDoneKeeps(gens: Gens, s: State, s': State, id: Id)
    requires FlatInv(gens, s) && DoSupersedingDone(s, id) == Some(s')
    ensures FlatInv(gens, s')
  {
    SupersedingDoneKeepsGenerations(gens, s, s', id);
    SettledKeepsCreators(gens, gens, s, s');
    SettledKeepsClosers(gens, gens, s, s');
    SettledKeepsNative(gens, gens, s, s');
  }

  lemma AddChildKeepsGenerations(gens: Gens, s: State, s': State, id: Id, ok: bool)
    requires GenerationsOk(gens, s) && DoAddChild(s, id, ok) == Some(s')
    ensures GenerationsOk(gens, s')
  {
  }

  lemma AddChildKeepsCreators(gens: Gens, s: State, s': State, id: Id, ok: bool)
    requires CreatorsOk(gens, s) && DoAddChild(s, id, ok) == Some(s')
    requires forall x :: x in s.used ==> |x.token| == TOKEN_LENGTH
    ensures CreatorsOk(gens, s')
  {
    var _ := LabelsDistinct(s);
  }

  lemma AddChildKeeps(gens: Gens, s: State, s': State, id: Id, ok: bool)
    requires FlatInv(gens, s) && DoAddChild(s, id, ok) == Some(s')
    ensures FlatInv(gens, s')
  {
    AddChildKeepsGenerations(gens, s, s', id, ok);
    AddChildKeepsCreators(gens, s, s', id, ok);
    AddChildKeepsClosers(gens, s, s', id, ok);
    AddChildKeepsNative(gens, s, s', id, ok);
  }

  lemma AddChildKeepsClosers(gens: Gens, s: State, s': State, id: Id, ok: bool)
    requires ClosersOk(gens, s) && DoAddChild(s, id, ok) == Some(s')
    requires forall x :: x in s.used ==> |x.token| == TOKEN_LENGTH
    requires id in s.used
    ensures ClosersOk(gens, s')
  {
    var _ := LabelsDistinct(s);
  }

  lemma AddChildKeepsNative(gens: Gens, s: State, s': State, id: Id, ok: bool)
    requires NativeOk(gens, s) && DoAddChild(s, id, ok) == Some(s') && id in s.used
    requires LabelOf(id) !in s.native
    ensures NativeOk(gens, s')
  {
  }

  lemma BirthFailureKeeps(gens: Gens, s: State, s': State, id: Id)
    requires FlatInv(gens, s) && s.draining.None?
    requires HasFailed(s, id)
    requires s' == s.(tabs := s'.tabs, creators := s.creators - {id})
    ensures FlatInv(gens - {id}, s')
  {
    BirthFailureKeepsGenerations(gens, s, s', id);
    SettledKeepsCreators(gens, gens - {id}, s, s');
    SettledKeepsClosers(gens, gens - {id}, s, s');
    SettledKeepsNative(gens, gens - {id}, s, s');
  }

  lemma BirthFailureKeepsGenerations(gens: Gens, s: State, s': State, id: Id)
    requires GenerationsOk(gens, s) && HasFailed(s, id)
    requires s' == s.(tabs := s'.tabs, creators := s.creators - {id})
    ensures GenerationsOk(gens - {id}, s')
  {
  }

  lemma PublishKeeps(gens: Gens, s: State, s': State, id: Id)
    requires FlatInv(gens, s) && s.draining.None?
    requires Get(s.creators, id) == Some(Born) && Get(gens, id) == Some(Creating(LabelOf(id)))
    requires s' == s.(tabs := s'.tabs, creators := s.creators - {id})
    ensures FlatInv(gens[id := Live(LabelOf(id))], s')
  {
  }

  lemma RetireKeepsGenerations(gens: Gens, s: State, s': State, id: Id)
    requires GenerationsOk(gens, s) && Get(s.creators, id) == Some(Born)
    requires s' == s.(tabs := s'.tabs, creators := s.creators - {id},
                      closers := s.closers + multiset{Closer(id.tab, NativeClose(id.token, LabelOf(id)), false)})
    requires id in s.used
    ensures GenerationsOk(gens[id := RetiringNative(LabelOf(id))], s')
  {
  }

  lemma RetireKeeps(gens: Gens, s: State, s': State, id: Id)
    requires FlatInv(gens, s) && s.draining.None?
    requires Get(s.creators, id) == Some(Born) && Get(gens, id) != Some(Creating(LabelOf(id)))
    requires s' == s.(tabs := s'.tabs, creators := s.creators - {id},
                      closers := s.closers + multiset{Closer(id.tab, NativeClose(id.token, LabelOf(id)), false)})
    ensures FlatInv(gens[id := RetiringNative(LabelOf(id))], s')
  {
    RetireKeepsGenerations(gens, s, s', id);
    RetireKeepsCreators(gens, s, s', id);
    RetireKeepsClosers(gens, s, s', id);
    RetireKeepsNative(gens, s, s', id);
  }

  lemma RetireKeepsCreators(gens: Gens, s: State, s': State, id: Id)
    requires CreatorsOk(gens, s) && Get(s.creators, id) == Some(Born)
    requires s' == s.(tabs := s'.tabs, creators := s.creators - {id}, closers := s'.closers)
    ensures CreatorsOk(gens[id := RetiringNative(LabelOf(id))], s')
  {
  }

  lemma RetireKeepsClosers(gens: Gens, s: State, s': State, id: Id)
    requires ClosersOk(gens, s) && Get(s.creators, id) == Some(Born) && id in s.used
    requires s' == s.(tabs := s'.tabs, creators := s.creators - {id},
                      closers := s.closers + multiset{Closer(id.tab, NativeClose(id.token, LabelOf(id)), false)})
    ensures ClosersOk(gens[id := RetiringNative(LabelOf(id))], s')
  {
  }

  lemma RetireKeepsNative(gens: Gens, s: State, s': State, id: Id)
    requires NativeOk(gens, s) && Get(s.creators, id) == Some(Born)
    requires s' == s.(tabs := s'.tabs, creators := s.creators - {id}, closers := s'.closers)
    ensures NativeOk(gens[id := RetiringNative(LabelOf(id))], s')
  {
  }

  ghost predicate BornStep(gens: Gens, s: State, s': State, id: Id, published: bool) {
    && s.draining.None? && Get(s.creators, id) == Some(Born)
    && (published <==> Get(gens, id) == Some(Creating(LabelOf(id))))
    && s' == s.(tabs := s'.tabs, creators := s.creators - {id},
                closers := if published then s.closers
                           else s.closers + multiset{Closer(id.tab, NativeClose(id.token, LabelOf(id)), false)})
  }

  lemma SettledBirthKeeps(gens: Gens, s: State, s': State, id: Id, published: bool)
    requires FlatInv(gens, s) && BornStep(gens, s, s', id, published)
    ensures FlatInv(gens[id := if published then Live(LabelOf(id)) else RetiringNative(LabelOf(id))], s')
  {
    if published {
      PublishKeeps(gens, s, s', id);
    } else {
      RetireKeeps(gens, s, s', id);
    }
  }

  lemma CloseNativeKeepsGenerations(gens: Gens, s: State, s': State, c: Closer, ok: bool)
    requires GenerationsOk(gens, s) && DoCloseNative(s, c, ok) == Some(s')
    requires CloseOk(gens, s, c.tab, c.close)
    requires forall x :: x in s.used ==> |x.token| == TOKEN_LENGTH
    ensures GenerationsOk(gens, s')
  {
    var _ := LabelsDistinct(s);
  }

  lemma CloseNativeKeepsCreators(gens: Gens, s: State, s': State, c: Closer, ok: bool)
    requires CreatorsOk(gens, s) && DoCloseNative(s, c, ok) == Some(s')
    requires CloseOk(gens, s, c.tab, c.close)
    requires forall x :: x in s.used ==> |x.token| == TOKEN_LENGTH
    ensures CreatorsOk(gens, s')
  {
    var _ := LabelsDistinct(s);
  }

  lemma CloseNativeKeeps(gens: Gens, s: State, s': State, c: Closer, ok: bool)
    requires FlatInv(gens, s) && DoCloseNative(s, c, ok) == Some(s')
    ensures FlatInv(gens, s')
  {
    CloseNativeKeepsGenerations(gens, s, s', c, ok);
    CloseNativeKeepsCreators(gens, s, s', c, ok);
    NativeCloseKeepsNative(gens, s, s', c.close.webview, ok);
  }

  lemma SettleCloseKeepsGenerations(gens: Gens, s: State, s': State, c: Closer)
    requires GenerationsOk(gens, s) && c in s.closers && c.close.webview == LabelOf(Id(c.tab, c.close.token))
    requires s' == s.(tabs := s'.tabs, closers := s.closers - multiset{c})
    ensures GenerationsOk(SettleCloseGens(gens, Id(c.tab, c.close.token), c.close.webview), s')
  {
  }

  lemma SettleCloseKeeps(gens: Gens, s: State, s': State, c: Closer)
    requires FlatInv(gens, s) && s.draining.None? && c in s.closers && c.closed
    requires s' == s.(tabs := s'.tabs, closers := s.closers - multiset{c})
    ensures FlatInv(SettleCloseGens(gens, Id(c.tab, c.close.token), c.close.webview), s')
  {
    SettleCloseKeepsGenerations(gens, s, s', c);
    var gens' := SettleCloseGens(gens, Id(c.tab, c.close.token), c.close.webview);
    SettledKeepsCreators(gens, gens', s, s');
    SettledKeepsClosers(gens, gens', s, s');
    SettledKeepsNative(gens, gens', s, s');
  }

  lemma StartShutdownKeepsCreators(gens: Gens, s: State, s': State, labels: set<Label>)
    requires CreatorsOk(gens, s) && GenerationsOk(gens, s) && s.draining.None?
    requires forall id :: id in s.used ==> |id.token| == TOKEN_LENGTH
    requires forall l :: l in labels ==> exists id :: id in gens && gens[id].Native() && gens[id].webview == l
    requires s' == s.(tabs := s'.tabs, draining := Some(labels),
                      drained := s.drained + s.used, closed := s.closed * s.used)
    ensures CreatorsOk(map[], s')
  {
    var _ := LabelsDistinct(s);
  }

  lemma StartShutdownKeeps(gens: Gens, s: State, s': State, labels: set<Label>)
    requires FlatInv(gens, s) && s.draining.None?
    requires forall l :: l in labels <==> exists id :: id in gens && gens[id].Native() && gens[id].webview == l
    requires s' == s.(tabs := s'.tabs, draining := Some(labels),
                      drained := s.drained + s.used, closed := s.closed * s.used)
    ensures FlatInv(map[], s')
  {
    StartShutdownKeepsCreators(gens, s, s', labels);
  }

  lemma ShutdownCloseKeepsCreators(s: State, s': State, l: Label, ok: bool)
    requires CreatorsOk(map[], s) && DoShutdownClose(s, l, ok) == Some(s')
    ensures CreatorsOk(map[], s')
  {
  }

  lemma ShutdownCloseKeeps(gens: Gens, s: State, s': State, l: Label, ok: bool)
    requires FlatInv(gens, s) && DoShutdownClose(s, l, ok) == Some(s')
    ensures FlatInv(gens, s')
  {
    ShutdownCloseKeepsCreators(s, s', l, ok);
  }

  lemma EndShutdownKeeps(gens: Gens, s: State, s': State)
    requires FlatInv(gens, s) && DoEndShutdown(s) == Some(s')
    ensures FlatInv(gens, s')
  {
  }
}
