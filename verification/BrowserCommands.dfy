/**
 The asynchronous create, close and shutdown commands of browser.rs as a state machine. A step is
 either one critical section of the registry's lock or one call into the native toolkit, so every
 interleaving of commands is a sequence of actions.
 */
module BrowserCommands {
  import opened Common
  import opened BrowserLifecycle

  /** A generation of a tab: the unit that owns one native webview. */
  datatype Id = Id(tab: TabId, token: Token)

  /** Length of a lifecycle token, the canonical text form of a UUID. */
  const TOKEN_LENGTH: nat := 36

  function LabelOf(id: Id): Label {
    "browser-" + id.tab + "-" + id.token
  }

  lemma LabelInjective(x: Id, y: Id)
    requires |x.token| == |y.token|
    requires LabelOf(x) == LabelOf(y)
    ensures x == y
  {
    var n, a, b := |"browser-"|, LabelOf(x), LabelOf(y);
    assert |x.tab| == |y.tab|;
    assert x.tab == a[n..n + |x.tab|] == b[n..n + |y.tab|] == y.tab;
    assert x.token == a[n + |x.tab| + 1..] == b[n + |y.tab| + 1..] == y.token;
  }

  /** Where a running `cmd_browser_create` is, after its admission; it closes superseded webviews in turn. */
  datatype Place =
    | Superseding(rest: seq<NativeClose>)
    | SupersededClosed(close: NativeClose, rest: seq<NativeClose>)
    | SupersedeFailed
    | AddingChild
    | ChildFailed
    | Born

  /** A close command, or a create command that has to close its own late birth. */
  datatype Closer = Closer(tab: TabId, close: NativeClose, closed: bool)

  datatype State = State(
    tabs: Tabs,
    creators: map<Id, Place>,
    closers: multiset<Closer>,
    // the native webviews that really exist, each with the generation it was created for
    native: map<Label, Id>,
    // labels a running shutdown has still to close; the shutdown holds the lock meanwhile
    draining: Option<set<Label>>,
    // history: ids given to a create, ids given to a close, ids admitted before a shutdown,
    // labels whose close failed (in a command, in a shutdown), each tab's last admitted token,
    // and the create that superseded a live generation
    used: set<Id>,
    closed: set<Id>,
    drained: set<Id>,
    failed: set<Label>,
    leaked: set<Label>,
    last: map<TabId, Token>,
    supersededBy: map<Id, Id>)

  const INITIAL := State(map[], map[], multiset{}, map[], None, {}, {}, {}, {}, {}, map[], map[])

  datatype Action =
    | StartCreate(id: Id, order: seq<NativeClose>)
    | StartClose(id: Id)
    | CloseSuperseded(id: Id, ok: bool)
    | SettleSuperseded(id: Id)
    | SupersedingDone(id: Id)
    | AddChild(id: Id, ok: bool)
    | SettleBirthFailure(id: Id)
    | SettleBirth(id: Id)
    | CloseNative(closer: Closer, ok: bool)
    | SettleClose(closer: Closer)
    | StartShutdown
    | ShutdownClose(webview: Label, ok: bool)
    | EndShutdown

  /** Closing a webview that no longer exists succeeds; an existing one may refuse. */
  predicate MayClose(s: State, webview: Label, ok: bool) {
    ok || webview in s.native
  }

  function AfterNativeClose(s: State, webview: Label, ok: bool): State {
    if ok then s.(native := s.native - {webview}) else s.(failed := s.failed + {webview})
  }

  function NativeLabels(tabs: Tabs): set<Label> {
    set id, t | id in tabs && t in tabs[id].generations && tabs[id].generations[t].Native()
      :: tabs[id].generations[t].webview
  }

  function SupersededBy(id: Id, closes: seq<NativeClose>): map<Id, Id> {
    map c | c in closes :: Id(id.tab, c.token) := id
  }

  /** `order` is the order in which the table happens to list the generations to close. */
  function DoStartCreate(s: State, id: Id, order: seq<NativeClose>): Option<State> {
    if s.draining.Some? || id in s.used || |id.token| != TOKEN_LENGTH then None
    else
      var (tabs, admission) := Admit(s.tabs, id.tab, id.token, LabelOf(id));
      var s1 := s.(tabs := tabs, used := s.used + {id});
      if !admission.Create? then Some(s1)
      else if !IsListing(order, admission.closes) then None
      else Some(s1.(creators := s.creators[id := Superseding(order)], last := s.last[id.tab := id.token],
                    supersededBy := s.supersededBy + SupersededBy(id, order)))
  }

  predicate IsListing(order: seq<NativeClose>, closes: set<NativeClose>) {
    multiset(order) == multiset(closes)
  }

  function DoStartClose(s: State, id: Id): Option<State> {
    if s.draining.Some? || |id.token| != TOKEN_LENGTH then None
    else
      var (tabs, close) := Close(s.tabs, id.tab, id.token);
      var s1 := s.(tabs := tabs, closed := s.closed + {id});
      if close.Some?
      then Some(s1.(closers := s.closers + multiset{Closer(id.tab, close.value, false)}))
      else Some(s1)
  }

  function PlaceOf(s: State, id: Id): Option<Place> {
    Get(s.creators, id)
  }

  function DoCloseSuperseded(s: State, id: Id, ok: bool): Option<State> {
    match PlaceOf(s, id)
    case Some(Superseding(rest)) =>
      if rest == [] || !MayClose(s, rest[0].webview, ok) then None
      else
        var place := if ok then SupersededClosed(rest[0], rest[1..]) else SupersedeFailed;
        Some(AfterNativeClose(s, rest[0].webview, ok).(creators := s.creators[id := place]))
    case _ => None
  }

  function DoSettleSuperseded(s: State, id: Id): Option<State> {
    match PlaceOf(s, id)
    case Some(SupersededClosed(close, rest)) =>
      if s.draining.Some? then None
      else Some(s.(tabs := SettleNativeClose(s.tabs, id.tab, close), creators := s.creators[id := Superseding(rest)]))
    case _ => None
  }

  function DoSupersedingDone(s: State, id: Id): Option<State> {
    if PlaceOf(s, id) != Some(Superseding([])) then None
    else Some(s.(creators := s.creators[id := AddingChild]))
  }

  function DoAddChild(s: State, id: Id, ok: bool): Option<State> {
    if PlaceOf(s, id) != Some(AddingChild) then None
    else if ok then Some(s.(native := s.native[LabelOf(id) := id], creators := s.creators[id := Born]))
    else Some(s.(creators := s.creators[id := ChildFailed]))
  }

  predicate HasFailed(s: State, id: Id) {
    PlaceOf(s, id) == Some(SupersedeFailed) || PlaceOf(s, id) == Some(ChildFailed)
  }

  function DoSettleBirthFailure(s: State, id: Id): Option<State> {
    if s.draining.Some? || !HasFailed(s, id) then None
    else Some(s.(tabs := SettleFailure(s.tabs, id.tab, id.token), creators := s.creators - {id}))
  }

  function DoSettleBirth(s: State, id: Id): Option<State> {
    if s.draining.Some? || PlaceOf(s, id) != Some(Born) then None
    else
      var (tabs, settlement) := SettleSuccess(s.tabs, id.tab, id.token, LabelOf(id));
      var s1 := s.(tabs := tabs, creators := s.creators - {id});
      match settlement
      case Publish => Some(s1)
      case Retire(close) => Some(s1.(closers := s.closers + multiset{Closer(id.tab, close, false)}))
  }

  function DoCloseNative(s: State, c: Closer, ok: bool): Option<State> {
    if c !in s.closers || c.closed || !MayClose(s, c.close.webview, ok) then None
    else
      var others := s.closers - multiset{c};
      Some(AfterNativeClose(s, c.close.webview, ok).(
           closers := if ok then others + multiset{c.(closed := true)} else others))
  }

  function DoSettleClose(s: State, c: Closer): Option<State> {
    if s.draining.Some? || c !in s.closers || !c.closed then None
    else Some(s.(tabs := SettleNativeClose(s.tabs, c.tab, c.close), closers := s.closers - multiset{c}))
  }

  /** Shutdown forgets the table, including the tombstones of closes that preceded their create. */
  function DoStartShutdown(s: State): Option<State> {
    if s.draining.Some? then None
    else Some(s.(draining := Some(NativeLabels(s.tabs)), tabs := map[],
                 drained := s.drained + s.used, closed := s.closed * s.used))
  }

  function DoShutdownClose(s: State, webview: Label, ok: bool): Option<State> {
    if s.draining.None? || webview !in s.draining.value || !MayClose(s, webview, ok) then None
    else
      var s1 := s.(draining := Some(s.draining.value - {webview}));
      if ok then Some(s1.(native := s.native - {webview})) else Some(s1.(leaked := s.leaked + {webview}))
  }

  function DoEndShutdown(s: State): Option<State> {
    if s.draining != Some({}) then None else Some(s.(draining := None))
  }

  /** The state after an action, or None when the action is not possible there. */
  function Next(s: State, a: Action): Option<State> {
    match a
    case StartCreate(id, order) => DoStartCreate(s, id, order)
    case StartClose(id) => DoStartClose(s, id)
    case CloseSuperseded(id, ok) => DoCloseSuperseded(s, id, ok)
    case SettleSuperseded(id) => DoSettleSuperseded(s, id)
    case SupersedingDone(id) => DoSupersedingDone(s, id)
    case AddChild(id, ok) => DoAddChild(s, id, ok)
    case SettleBirthFailure(id) => DoSettleBirthFailure(s, id)
    case SettleBirth(id) => DoSettleBirth(s, id)
    case CloseNative(c, ok) => DoCloseNative(s, c, ok)
    case SettleClose(c) => DoSettleClose(s, c)
    case StartShutdown => DoStartShutdown(s)
    case ShutdownClose(webview, ok) => DoShutdownClose(s, webview, ok)
    case EndShutdown => DoEndShutdown(s)
  }

  /** The state after a run from the empty registry, or None when some action is not possible. */
  function Run(actions: seq<Action>): Option<State> {
    if actions == [] then Some(INITIAL)
    else
      var before :- Run(actions[..|actions| - 1]);
      Next(before, actions[|actions| - 1])
  }

  // ---------------------------------------------------------------------------------------
  // The invariant, over the table seen as one flat map from ids to generations
  // ---------------------------------------------------------------------------------------

  /** `gens` is the table of tabs seen as one map from ids to generations. */
  ghost predicate IsFlat(gens: map<Id, Generation>, tabs: Tabs) {
    forall tab, t :: Get(gens, Id(tab, t)) == GenerationOf(tabs, tab, t)
  }

  /** The native close a create is to perform or settle next for the generations it superseded. */
  function Pending(p: Place): Option<NativeClose> {
    match p
    case Superseding(rest) => if rest == [] then None else Some(rest[0])
    case SupersededClosed(close, _) => Some(close)
    case _ => None
  }

  /** Some running command has still to close or settle this generation's webview. */
  ghost predicate IsClosing(s: State, id: Id) {
    var close := NativeClose(id.token, LabelOf(id));
    || Closer(id.tab, close, false) in s.closers
    || Closer(id.tab, close, true) in s.closers
    || (&& id in s.supersededBy && s.supersededBy[id] in s.creators && s.supersededBy[id].tab == id.tab
        && Pending(s.creators[s.supersededBy[id]]) == Some(close))
  }

  ghost predicate GenerationOk(s: State, id: Id, g: Generation) {
    && id in s.used
    && (g.RetiringBirth? || g.webview == LabelOf(id))
    && (g.Wanted() ==> Get(s.last, id.tab) == Some(id.token) && id !in s.drained && id !in s.closed)
    && (g.Unborn() ==> id in s.creators)
    && (g.Live? ==> LabelOf(id) in s.native)
    && (g.RetiringNative? ==> LabelOf(id) in s.failed || IsClosing(s, id))
  }

  ghost predicate GenerationsOk(gens: map<Id, Generation>, s: State) {
    forall id :: id in gens ==> GenerationOk(s, id, gens[id])
  }

  /** A close in progress is of a generation that is not wanted and that no create owns. */
  ghost predicate CloseOk(gens: map<Id, Generation>, s: State, tab: TabId, c: NativeClose) {
    && c.webview == LabelOf(Id(tab, c.token))
    && Id(tab, c.token) in s.used
    && Id(tab, c.token) !in s.creators
    && (Id(tab, c.token) in gens ==> gens[Id(tab, c.token)].RetiringNative?)
  }

  ghost predicate CreatorOk(gens: map<Id, Generation>, s: State, id: Id, p: Place) {
    && id in s.used
    && (id in gens ==> gens[id].Unborn())
    && (LabelOf(id) in s.native <==> p.Born?)
    && (s.draining.Some? ==> LabelOf(id) !in s.draining.value)
    && (Pending(p).Some? ==> CloseOk(gens, s, id.tab, Pending(p).value))
    && (p.Superseding? ==> |p.rest| <= 1)
    && (p.SupersededClosed? ==> p.rest == [] && p.close.webview !in s.native)
  }

  ghost predicate CreatorsOk(gens: map<Id, Generation>, s: State) {
    forall id :: id in s.creators ==> CreatorOk(gens, s, id, s.creators[id])
  }

  ghost predicate ClosersOk(gens: map<Id, Generation>, s: State) {
    forall c :: c in s.closers ==> CloseOk(gens, s, c.tab, c.close) && (c.closed ==> c.close.webview !in s.native)
  }

  /** Why a native webview still exists. */
  ghost predicate Accounted(gens: map<Id, Generation>, s: State, id: Id) {
    || (id in gens && gens[id].Native())
    || Get(s.creators, id) == Some(Born)
    || (s.draining.Some? && LabelOf(id) in s.draining.value)
    || LabelOf(id) in s.leaked
  }

  ghost predicate NativeOk(gens: map<Id, Generation>, s: State) {
    forall l :: l in s.native ==>
      l == LabelOf(s.native[l]) && s.native[l] in s.used && Accounted(gens, s, s.native[l])
  }

  ghost predicate FlatInv(gens: map<Id, Generation>, s: State) {
    && (s.draining.Some? ==> gens == map[])
    && (forall id :: id in s.used ==> |id.token| == TOKEN_LENGTH)
    && s.drained <= s.used
    && GenerationsOk(gens, s)
    && CreatorsOk(gens, s)
    && ClosersOk(gens, s)
    && NativeOk(gens, s)
  }

  /** A close that came before its create is remembered until that create or a shutdown. */
  ghost predicate TombstonesOk(s: State) {
    forall id :: id in s.closed && id !in s.used ==> id.token in TabOf(s.tabs, id.tab).tombstones
  }

  ghost predicate Inv(s: State) {
    Coherent(s.tabs) && TombstonesOk(s) && exists gens :: IsFlat(gens, s.tabs) && FlatInv(gens, s)
  }
}
