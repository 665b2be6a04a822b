/** What one create does in whole runs: it follows its script, stops when it fails, and replaces what it superseded. */
module BrowserCommandScripts {
  import opened Common
  import opened BrowserLifecycle
  import opened BrowserCommands
  import opened BrowserCommandProofs
  import opened BrowserCommandTheorems

  // ---------------------------------------------------------------------------------------
  // The script of a create
  // ---------------------------------------------------------------------------------------

  /** The create whose step an action is. */
  function OwnerOf(a: Action): Option<Id> {
    match a
    case StartCreate(id, _) => Some(id)
    case CloseSuperseded(id, _) => Some(id)
    case SettleSuperseded(id) => Some(id)
    case SupersedingDone(id) => Some(id)
    case AddChild(id, _) => Some(id)
    case SettleBirthFailure(id) => Some(id)
    case SettleBirth(id) => Some(id)
    case _ => None
  }

  function LastOwn(actions: seq<Action>, id: Id): Option<Action> {
    if actions == [] then None
    else if OwnerOf(actions[|actions| - 1]) == Some(id) then Some(actions[|actions| - 1])
    else LastOwn(actions[..|actions| - 1], id)
  }

  /** What a create may do next, by what it did last. */
  predicate Follows(last: Option<Action>, a: Action) {
    match a
    case StartCreate(_, _) => last == None
    case CloseSuperseded(_, _) => last.Some? && (last.value.StartCreate? || last.value.SettleSuperseded?)
    case SettleSuperseded(_) => last.Some? && last.value.CloseSuperseded? && last.value.ok
    case SupersedingDone(_) => last.Some? && (last.value.StartCreate? || last.value.SettleSuperseded?)
    case AddChild(_, _) => last.Some? && last.value.SupersedingDone?
    case SettleBirth(_) => last.Some? && last.value.AddChild? && last.value.ok
    case SettleBirthFailure(_) =>
      last.Some? && (last.value.CloseSuperseded? || last.value.AddChild?) && !last.value.ok
    case _ => true
  }

  predicate PlaceFits(last: Option<Action>, place: Option<Place>) {
    match last
    case None => place == None
    case Some(StartCreate(_, _)) => place.None? || place.value.Superseding?
    case Some(CloseSuperseded(_, ok)) =>
      place.Some? && (if ok then place.value.SupersededClosed? else place.value.SupersedeFailed?)
    case Some(SettleSuperseded(_)) => place.Some? && place.value.Superseding?
    case Some(SupersedingDone(_)) => place == Some(AddingChild)
    case Some(AddChild(_, ok)) => place == Some(if ok then Born else ChildFailed)
    case _ => place == None
  }

  lemma OthersStay(s: State, s': State, a: Action, id: Id)
    requires Next(s, a) == Some(s') && OwnerOf(a) != Some(id)
    ensures PlaceOf(s', id) == PlaceOf(s, id) && (id in s'.used <==> id in s.used)
  {
    match a
    case StartCreate(other, order) => StartedAlone(s, s', other, order);
    case StartClose(_) => NobodyMoves(s, s', a);
    case CloseNative(_, _) => NobodyMoves(s, s', a);
    case SettleClose(_) => NobodyMoves(s, s', a);
    case StartShutdown => NobodyMoves(s, s', a);
    case ShutdownClose(_, _) => NobodyMoves(s, s', a);
    case EndShutdown => NobodyMoves(s, s', a);
    case _ => OneMoves(s, s', a);
  }

  lemma StartedAlone(s: State, s': State, id: Id, order: seq<NativeClose>)
    requires DoStartCreate(s, id, order) == Some(s')
    ensures s'.used == s.used + {id} && s'.creators - {id} == s.creators - {id}
  {
  }

  lemma NobodyMoves(s: State, s': State, a: Action)
    requires Next(s, a) == Some(s') && OwnerOf(a) == None
    ensures s'.used == s.used && s'.creators == s.creators
  {
    match a
    case StartClose(id) => CloseStarts(s, s', id);
    case CloseNative(c, ok) => CloseGoesOn(s, s', c, ok);
    case _ =>
  }

  lemma CloseStarts(s: State, s': State, id: Id)
    requires DoStartClose(s, id) == Some(s')
    ensures s'.used == s.used && s'.creators == s.creators && s'.native == s.native
  {
  }

  lemma CloseGoesOn(s: State, s': State, c: Closer, ok: bool)
    requires DoCloseNative(s, c, ok) == Some(s')
    ensures s'.used == s.used && s'.creators == s.creators
    ensures s'.native == s.native || s'.native == s.native - {c.close.webview}
  {
  }

  lemma SupersededGoesOn(s: State, s': State, id: Id, ok: bool)
    requires DoCloseSuperseded(s, id, ok) == Some(s')
    ensures s'.used == s.used && s'.creators - {id} == s.creators - {id}
    ensures forall l :: l in s'.native ==> l in s.native && s'.native[l] == s.native[l]
  {
  }

  lemma BirthSettles(s: State, s': State, id: Id)
    requires DoSettleBirth(s, id) == Some(s')
    ensures s'.used == s.used && s'.creators == s.creators - {id} && s'.native == s.native
  {
  }

  lemma OneMoves(s: State, s': State, a: Action)
    requires Next(s, a) == Some(s') && OwnerOf(a).Some? && !a.StartCreate?
    ensures s'.used == s.used && s'.creators - {a.id} == s.creators - {a.id}
  {
    match a
    case CloseSuperseded(id, ok) => SupersededGoesOn(s, s', id, ok);
    case SettleBirth(id) => BirthSettles(s, s', id);
    case _ =>
  }

  lemma OwnStart(s: State, s': State, id: Id, order: seq<NativeClose>)
    requires DoStartCreate(s, id, order) == Some(s')
    ensures id !in s.used && id in s'.used
    ensures PlaceOf(s', id) == PlaceOf(s, id) || (PlaceOf(s', id).Some? && PlaceOf(s', id).value.Superseding?)
  {
  }

  lemma OwnStep(s: State, s': State, a: Action, id: Id, last: Option<Action>)
    requires Next(s, a) == Some(s') && OwnerOf(a) == Some(id)
    requires PlaceFits(last, PlaceOf(s, id)) && (last.Some? <==> id in s.used)
    ensures Follows(last, a) && PlaceFits(Some(a), PlaceOf(s', id)) && id in s'.used
  {
    if a.StartCreate? {
      OwnStart(s, s', id, a.order);
    } else {
      OneMoves(s, s', a);
      OwnMove(s, s', a, id);
    }
  }

  lemma OwnMove(s: State, s': State, a: Action, id: Id)
    requires Next(s, a) == Some(s') && OwnerOf(a) == Some(id) && !a.StartCreate?
    ensures PlaceOf(s, id).Some? && PlaceFits(Some(a), PlaceOf(s', id))
    ensures var place := PlaceOf(s, id).value;
            && (a.CloseSuperseded? || a.SupersedingDone? ==> place.Superseding?)
            && (a.SettleSuperseded? ==> place.SupersededClosed?)
            && (a.AddChild? ==> place.AddingChild?) && (a.SettleBirth? ==> place.Born?)
            && (a.SettleBirthFailure? ==> place.SupersedeFailed? || place.ChildFailed?)
  {
  }

  lemma {:induction false} Scripted(actions: seq<Action>, id: Id)
    requires Run(actions).Some?
    ensures PlaceFits(LastOwn(actions, id), PlaceOf(Run(actions).value, id))
    ensures LastOwn(actions, id).Some? <==> id in Run(actions).value.used
  {
    if actions != [] {
      var (init, a) := (actions[..|actions| - 1], actions[|actions| - 1]);
      Scripted(init, id);
      if OwnerOf(a) == Some(id) {
        OwnStep(Run(init).value, Run(actions).value, a, id, LastOwn(init, id));
      } else {
        OthersStay(Run(init).value, Run(actions).value, a, id);
      }
    }
  }

  /** In every run each create takes its steps in the order of its script. */
  lemma CreateFollowsScript(actions: seq<Action>, a: Action, id: Id)
    requires Run(actions + [a]).Some? && OwnerOf(a) == Some(id)
    ensures Follows(LastOwn(actions, id), a)
  {
    assert (actions + [a])[..|actions + [a]| - 1] == actions;
    Scripted(actions, id);
    OwnStep(Run(actions).value, Run(actions + [a]).value, a, id, LastOwn(actions, id));
  }

  // ---------------------------------------------------------------------------------------
  // A create that fails
  // ---------------------------------------------------------------------------------------

  lemma {:induction false} WasAdded(actions: seq<Action>, l: Label)
    requires Run(actions).Some? && l in Run(actions).value.native
    ensures AddChild(Run(actions).value.native[l], true) in actions
  {
    var (init, a) := (actions[..|actions| - 1], actions[|actions| - 1]);
    var (s, s') := (Run(init).value, Run(actions).value);
    NativeStep(s, s', a, l);
    assert actions == init + [a];
    if l in s.native && s.native[l] == s'.native[l] {
      WasAdded(init, l);
    }
  }

  lemma NativeStep(s: State, s': State, a: Action, l: Label)
    requires Next(s, a) == Some(s') && l in s'.native
    ensures (l in s.native && s'.native[l] == s.native[l]) || a == AddChild(s'.native[l], true)
  {
    if a.CloseSuperseded? || a.CloseNative? || a.ShutdownClose? {
      ClosesOnly(s, s', a);
    } else if !a.AddChild? {
      NativeStays(s, s', a);
    }
  }

  lemma ClosesOnly(s: State, s': State, a: Action)
    requires Next(s, a) == Some(s') && (a.CloseSuperseded? || a.CloseNative? || a.ShutdownClose?)
    ensures forall l :: l in s'.native ==> l in s.native && s'.native[l] == s.native[l]
  {
    match a
    case CloseSuperseded(id, ok) => SupersededGoesOn(s, s', id, ok);
    case CloseNative(c, ok) => CloseGoesOn(s, s', c, ok);
    case _ =>
  }

  lemma NativeStays(s: State, s': State, a: Action)
    requires Next(s, a) == Some(s') && !a.CloseSuperseded? && !a.CloseNative? && !a.ShutdownClose? && !a.AddChild?
    ensures s'.native == s.native
  {
  }

  /** Every webview was added by the create of its generation. */
  lemma EveryWebviewWasAdded(actions: seq<Action>, id: Id)
    requires Run(actions).Some? && LabelOf(id) in Run(actions).value.native && |id.token| == TOKEN_LENGTH
    ensures AddChild(id, true) in actions
  {
    var s := Run(actions).value;
    var other := s.native[LabelOf(id)];
    NoWebviewIsLost(actions, LabelOf(id));
    var gens := KnownGeneration(actions, other);
    LabelInjective(other, id);
    WasAdded(actions, LabelOf(id));
  }

  lemma {:induction false} RunPrefix(before: seq<Action>, after: seq<Action>)
    requires Run(before + after).Some?
    ensures Run(before).Some?
    decreases |after|
  {
    if after == [] {
      assert before + after == before;
    } else {
      assert (before + after)[..|before + after| - 1] == before + after[..|after| - 1];
      RunPrefix(before, after[..|after| - 1]);
    }
  }

  predicate IsFailure(a: Action) {
    (a.CloseSuperseded? || a.AddChild?) && !a.ok
  }

  /** The last own step is the failure, or its settling. */
  predicate IsFailed(last: Option<Action>) {
    last.Some? && (IsFailure(last.value) || last.value.SettleBirthFailure?)
  }

  /** After a failed step a create only settles the failure, once. */
  lemma {:induction false} FailureIsLast(before: seq<Action>, a: Action, id: Id, after: seq<Action>)
    requires IsFailure(a) && OwnerOf(a) == Some(id) && Run(before + [a] + after).Some?
    ensures IsFailed(LastOwn(before + [a] + after, id))
    ensures forall b :: b in after && OwnerOf(b) == Some(id) ==> b == SettleBirthFailure(id)
    ensures LastOwn(before + [a] + after, id) == Some(SettleBirthFailure(id)) <==> SettleBirthFailure(id) in after
    decreases |after|
  {
    if after == [] {
      assert before + [a] + after == before + [a];
      assert (before + [a])[|before + [a]| - 1] == a;
    } else {
      var (init, b) := (after[..|after| - 1], after[|after| - 1]);
      var actions := before + [a] + init;
      assert after == init + [b];
      assert before + [a] + after == actions + [b];
      assert (actions + [b])[..|actions + [b]| - 1] == actions;
      FailureIsLast(before, a, id, init);
      if OwnerOf(b) == Some(id) {
        CreateFollowsScript(actions, b, id);
      }
    }
  }

  lemma {:induction false} NeverAdded(before: seq<Action>, id: Id)
    requires Run(before).Some?
    requires LastOwn(before, id).Some? ==>
               var last := LastOwn(before, id).value;
               last.StartCreate? || last.CloseSuperseded? || last.SettleSuperseded? || last.SupersedingDone?
    ensures AddChild(id, true) !in before
  {
    if before != [] {
      var (init, a) := (before[..|before| - 1], before[|before| - 1]);
      assert before == init + [a];
      if OwnerOf(a) == Some(id) {
        CreateFollowsScript(init, a, id);
      }
      NeverAdded(init, id);
    }
  }

  /** A generation that was used and is gone stays gone, unless it is born. */
  lemma GoneStaysGone(s: State, s': State, a: Action, id: Id)
    requires Next(s, a) == Some(s') && id in s.used && GenerationOf(s.tabs, id.tab, id.token) == None
    requires a != SettleBirth(id)
    ensures GenerationOf(s'.tabs, id.tab, id.token) == None
  {
    match a
    case StartCreate(other, order) => AdmitOthers(s.tabs, other, id);
    case StartClose(other) => CloseOthers(s.tabs, other, id);
    case SettleSuperseded(_) => SettleOthers(s, s', a, id);
    case SettleBirthFailure(_) => SettleOthers(s, s', a, id);
    case SettleBirth(other) => BirthOthers(s.tabs, other, id);
    case SettleClose(_) => SettleOthers(s, s', a, id);
    case StartShutdown =>
    case _ => TableStays(s, s', a);
  }

  lemma TableStays(s: State, s': State, a: Action)
    requires Next(s, a) == Some(s')
    requires a.CloseSuperseded? || a.SupersedingDone? || a.AddChild? || a.CloseNative? || a.ShutdownClose?
             || a.EndShutdown?
    ensures s'.tabs == s.tabs
  {
    if a.CloseSuperseded? || a.AddChild? || a.CloseNative? {
      NativeHistory(s, s', a);
    }
  }

  lemma CloseOthers(tabs: Tabs, other: Id, id: Id)
    requires GenerationOf(tabs, id.tab, id.token) == None
    ensures GenerationOf(Close(tabs, other.tab, other.token).0, id.tab, id.token) == None
  {
  }

  lemma BirthOthers(tabs: Tabs, other: Id, id: Id)
    requires other != id && GenerationOf(tabs, id.tab, id.token) == None
    ensures GenerationOf(SettleSuccess(tabs, other.tab, other.token, LabelOf(other)).0, id.tab, id.token) == None
  {
  }

  lemma SettleOthers(s: State, s': State, a: Action, id: Id)
    requires Next(s, a) == Some(s') && GenerationOf(s.tabs, id.tab, id.token) == None
    requires a.SettleSuperseded? || a.SettleBirthFailure? || a.SettleClose?
    ensures GenerationOf(s'.tabs, id.tab, id.token) == None
  {
  }

  lemma AdmitOthers(tabs: Tabs, other: Id, id: Id)
    requires other != id && GenerationOf(tabs, id.tab, id.token) == None
    ensures GenerationOf(Admit(tabs, other.tab, other.token, LabelOf(other)).0, id.tab, id.token) == None
  {
  }

  lemma SettledFailureIsGone(s: State, s': State, id: Id)
    requires DoSettleBirthFailure(s, id) == Some(s')
    ensures GenerationOf(s'.tabs, id.tab, id.token) == None
  {
  }

  lemma {:induction false} GoneAfterFailure(before: seq<Action>, a: Action, id: Id, after: seq<Action>)
    requires IsFailure(a) && OwnerOf(a) == Some(id) && Run(before + [a] + after).Some?
    requires SettleBirthFailure(id) in after
    ensures GenerationOf(Run(before + [a] + after).value.tabs, id.tab, id.token) == None
    decreases |after|
  {
    var (init, b) := (after[..|after| - 1], after[|after| - 1]);
    var actions := before + [a] + init;
    assert after == init + [b];
    assert before + [a] + after == actions + [b];
    assert (actions + [b])[..|actions + [b]| - 1] == actions;
    FailureIsLast(before, a, id, after);
    if b == SettleBirthFailure(id) {
      SettledFailureIsGone(Run(actions).value, Run(actions + [b]).value, id);
    } else {
      GoneAfterFailure(before, a, id, init);
      Scripted(actions, id);
      FailureIsLast(before, a, id, init);
      GoneStaysGone(Run(actions).value, Run(actions + [b]).value, b, id);
    }
  }

  /**
   A create that cannot close a webview it supersedes, or cannot add its own, stops there: it adds none, is never
   live, and once its failure has settled, its tab neither registers nor desires it.
   */
  lemma FailedCreateStops(before: seq<Action>, a: Action, id: Id, after: seq<Action>)
    requires IsFailure(a) && OwnerOf(a) == Some(id) && Run(before + [a] + after).Some?
    ensures var s := Run(before + [a] + after).value;
            && (forall b :: b in after && OwnerOf(b) == Some(id) ==> b == SettleBirthFailure(id))
            && LabelOf(id) !in s.native && !IsLive(s, id)
            && (SettleBirthFailure(id) in after ==>
                  GenerationOf(s.tabs, id.tab, id.token) == None && TabOf(s.tabs, id.tab).desired != Some(id.token))
  {
    var actions := before + [a] + after;
    var s := Run(actions).value;
    FailureIsLast(before, a, id, after);
    NothingWasAdded(before, a, id, after);
    Scripted(actions, id);
    var gens := KnownGeneration(actions, id);
    if LabelOf(id) in s.native {
      EveryWebviewWasAdded(actions, id);
    }
    if SettleBirthFailure(id) in after {
      GoneAfterFailure(before, a, id, after);
      assert DesiredIsWanted(TabOf(s.tabs, id.tab));
    }
  }

  lemma NothingWasAdded(before: seq<Action>, a: Action, id: Id, after: seq<Action>)
    requires IsFailure(a) && OwnerOf(a) == Some(id) && Run(before + [a] + after).Some?
    ensures AddChild(id, true) !in before + [a] + after
  {
    RunPrefix(before + [a], after);
    assert (before + [a])[..|before + [a]| - 1] == before;
    CreateFollowsScript(before, a, id);
    NeverAdded(before, id);
    FailureIsLast(before, a, id, after);
  }

  // ---------------------------------------------------------------------------------------
  // A create that replaces
  // ---------------------------------------------------------------------------------------

  /** A generation of an earlier create whose webview no longer exists; it never will again. */
  predicate IsOver(s: State, x: Id) {
    x in s.used && x !in s.creators && LabelOf(x) !in s.native
  }

  lemma NotAdded(s: State, s': State, a: Action, l: Label)
    requires Next(s, a) == Some(s') && l !in s.native && (a.AddChild? ==> LabelOf(a.id) != l)
    ensures l !in s'.native
  {
    if l in s'.native {
      NativeStep(s, s', a, l);
      AddsItsLabel(s, s', a);
    }
  }

  lemma AddsItsLabel(s: State, s': State, a: Action)
    requires Next(s, a) == Some(s')
    ensures a.AddChild? ==> forall l :: l in s'.native ==> l in s.native || l == LabelOf(a.id)
  {
  }

  lemma NotStartedAgain(s: State, s': State, a: Action, x: Id)
    requires Next(s, a) == Some(s') && x in s.used && x !in s.creators
    ensures x in s'.used && x !in s'.creators
  {
    if OwnerOf(a) != Some(x) {
      OthersStay(s, s', a, x);
    } else {
      StepsOfCreators(s, s', a, x);
    }
  }

  /** All steps but the first are of running creates, and the first is of an unused token. */
  lemma StepsOfCreators(s: State, s': State, a: Action, x: Id)
    requires Next(s, a) == Some(s') && OwnerOf(a) == Some(x)
    ensures if a.StartCreate? then x !in s.used else x in s.creators
  {
  }

  lemma OverStaysOver(s: State, s': State, a: Action, x: Id)
    requires Inv(s) && Next(s, a) == Some(s') && IsOver(s, x)
    ensures IsOver(s', x)
  {
    if a.AddChild? {
      StepsOfCreators(s, s', a, a.id);
      AddedIsAnother(s, a.id, x);
    }
    NotAdded(s, s', a, LabelOf(x));
    NotStartedAgain(s, s', a, x);
  }

  lemma AddedIsAnother(s: State, id: Id, x: Id)
    requires Inv(s) && x in s.used && id in s.creators && x !in s.creators
    ensures LabelOf(id) != LabelOf(x)
  {
    var gens: Gens :| IsFlat(gens, s.tabs) && FlatInv(gens, s);
    assert CreatorOk(gens, s, id, s.creators[id]);
    if LabelOf(id) == LabelOf(x) {
      LabelInjective(id, x);
    }
  }

  lemma {:induction false} OverForever(before: seq<Action>, after: seq<Action>, x: Id)
    requires Run(before + after).Some? && Run(before).Some? && IsOver(Run(before).value, x)
    ensures IsOver(Run(before + after).value, x)
    decreases |after|
  {
    if after == [] {
      assert before + after == before;
    } else {
      var n := |after| - 1;
      assert (before + after)[..|before + after| - 1] == before + after[..n];
      OverForever(before, after[..n], x);
      ReachableInv(before + after[..n]);
      OverStaysOver(Run(before + after[..n]).value, Run(before + after).value, after[n], x);
    }
  }

  /** The create `id` has still to close the webview of `x`, has failed to, or it is gone. */
  ghost predicate Replacing(s: State, id: Id, x: Id) {
    && x in s.used && x !in s.creators
    && (id in s.creators && LabelOf(x) in s.native ==>
          || Pending(s.creators[id]) == Some(NativeClose(x.token, LabelOf(x)))
          || s.creators[id].SupersedeFailed?)
  }

  lemma ReplacingStep(s: State, s': State, a: Action, id: Id, x: Id)
    requires Inv(s) && Next(s, a) == Some(s') && Replacing(s, id, x) && !a.StartCreate?
    ensures Replacing(s', id, x)
  {
    NotStartedAgain(s, s', a, x);
    if a.AddChild? {
      StepsOfCreators(s, s', a, a.id);
      AddedIsAnother(s, a.id, x);
    }
    if LabelOf(x) !in s.native {
      NotAdded(s, s', a, LabelOf(x));
    } else if OwnerOf(a) == Some(id) {
      StepsOfCreators(s, s', a, id);
      ClosedIsGone(s, id);
      ReplacingOwnStep(s, s', a, id, x);
    } else {
      OthersStay(s, s', a, id);
    }
  }

  lemma ClosedIsGone(s: State, id: Id)
    requires Inv(s) && id in s.creators
    ensures s.creators[id].SupersededClosed? ==> s.creators[id].close.webview !in s.native
  {
    var gens: Gens :| IsFlat(gens, s.tabs) && FlatInv(gens, s);
    assert CreatorOk(gens, s, id, s.creators[id]);
  }

  lemma ReplacingOwnStep(s: State, s': State, a: Action, id: Id, x: Id)
    requires Next(s, a) == Some(s') && id in s.creators && Replacing(s, id, x) && LabelOf(x) in s.native
    requires OwnerOf(a) == Some(id) && !a.StartCreate?
    requires s.creators[id].SupersededClosed? ==> s.creators[id].close.webview !in s.native
    ensures id in s'.creators && LabelOf(x) in s'.native ==> s'.creators[id].SupersedeFailed?
  {
  }

  lemma ReplacingStarts(s: State, s': State, id: Id, order: seq<NativeClose>, x: Id)
    requires Inv(s) && DoStartCreate(s, id, order) == Some(s') && IsLive(s, x) && x.tab == id.tab
    ensures Replacing(s', id, x)
  {
    var l := LiveHasSettled(s, x);
    CreatorsAreUsed(s);
    OwnStart(s, s', id, order);
    LiveIsClosed(s, s', id, order, x, l);
    NotStartedAgain(s, s', StartCreate(id, order), x);
  }

  lemma CreatorsAreUsed(s: State)
    requires Inv(s)
    ensures forall y :: y in s.creators ==> y in s.used
  {
    var gens: Gens :| IsFlat(gens, s.tabs) && FlatInv(gens, s);
    forall y | y in s.creators
      ensures y in s.used
    {
      assert CreatorOk(gens, s, y, s.creators[y]);
    }
  }

  /** What is live was born: no create of it runs any more. */
  lemma LiveHasSettled(s: State, x: Id) returns (l: Label)
    requires Inv(s) && IsLive(s, x)
    ensures GenerationOf(s.tabs, x.tab, x.token) == Some(Live(l)) && l == LabelOf(x)
    ensures x in s.used && x !in s.creators
  {
    var gens: Gens :| IsFlat(gens, s.tabs) && FlatInv(gens, s);
    assert Get(gens, Id(x.tab, x.token)) == GenerationOf(s.tabs, x.tab, x.token);
    assert GenerationOk(s, x, gens[x]);
    forall y | y in s.creators
      ensures y in gens ==> gens[y].Unborn()
    {
      assert CreatorOk(gens, s, y, s.creators[y]);
    }
    l := LabelOf(x);
  }

  lemma LiveIsClosed(s: State, s': State, id: Id, order: seq<NativeClose>, x: Id, l: Label)
    requires Coherent(s.tabs) && DoStartCreate(s, id, order) == Some(s') && x.tab == id.tab
    requires GenerationOf(s.tabs, x.tab, x.token) == Some(Live(l))
    ensures id in s'.creators ==> s'.creators[id] == Superseding([NativeClose(x.token, l)]) || id in s.creators
  {
    var admission := Admit(s.tabs, id.tab, id.token, LabelOf(id)).1;
    AdmitCoherent(s.tabs, id.tab, id.token, LabelOf(id));
    if admission.Create? {
      var c := NativeClose(x.token, l);
      assert c in admission.closes;
      OneListed(order, admission.closes, c);
    }
  }

  lemma OneListed(order: seq<NativeClose>, closes: set<NativeClose>, c: NativeClose)
    requires IsListing(order, closes) && c in closes && forall d: NativeClose :: d in closes ==> d == c
    ensures order == [c]
  {
    assert closes == {c};
    assert multiset(closes) == multiset{c};
    assert |multiset(order)| == |order| == 1;
    assert order[0] in multiset(order);
  }

  /** A later create starts another generation, so the two stay as they are. */
  lemma ReplacingAndOthers(s: State, s': State, other: Id, order: seq<NativeClose>, id: Id, x: Id)
    requires DoStartCreate(s, other, order) == Some(s') && Replacing(s, id, x) && id in s.used
    ensures Replacing(s', id, x)
  {
  }

  lemma {:induction false} ReplacingRuns(before: seq<Action>, after: seq<Action>, id: Id, x: Id)
    requires Run(before + after).Some? && Run(before).Some? && x.tab == id.tab
    requires Replacing(Run(before).value, id, x) && id in Run(before).value.used
    ensures Replacing(Run(before + after).value, id, x) && id in Run(before + after).value.used
    decreases |after|
  {
    if after == [] {
      assert before + after == before;
    } else {
      var (init, a) := (before + after[..|after| - 1], after[|after| - 1]);
      assert (before + after)[..|before + after| - 1] == init;
      ReplacingRuns(before, after[..|after| - 1], id, x);
      ReachableInv(init);
      StepHistory(Run(init).value, Run(before + after).value, a);
      if a.StartCreate? {
        ReplacingAndOthers(Run(init).value, Run(before + after).value, a.id, a.order, id, x);
      } else {
        ReplacingStep(Run(init).value, Run(before + after).value, a, id, x);
      }
    }
  }

  /**
   Once a create has finished superseding, what was live in its tab when it was admitted has no webview any more,
   whatever else has happened since.
   */
  lemma SupersededIsReplaced(before: seq<Action>, id: Id, order: seq<NativeClose>, middle: seq<Action>, x: Id,
                             after: seq<Action>)
    requires Run(before + [StartCreate(id, order)] + middle + [SupersedingDone(id)] + after).Some?
    requires Run(before).Some? && IsLive(Run(before).value, x) && x.tab == id.tab
    ensures LabelOf(x) !in Run(before + [StartCreate(id, order)] + middle + [SupersedingDone(id)] + after).value.native
  {
    var started := before + [StartCreate(id, order)];
    var done := started + middle + [SupersedingDone(id)];
    RunPrefix(done, after);
    SupersededIsOver(before, id, order, middle, x);
    OverForever(done, after, x);
  }

  lemma SupersededIsOver(before: seq<Action>, id: Id, order: seq<NativeClose>, middle: seq<Action>, x: Id)
    requires Run(before + [StartCreate(id, order)] + middle + [SupersedingDone(id)]).Some?
    requires Run(before).Some? && IsLive(Run(before).value, x) && x.tab == id.tab
    ensures IsOver(Run(before + [StartCreate(id, order)] + middle + [SupersedingDone(id)]).value, x)
  {
    var started := before + [StartCreate(id, order)];
    RunPrefix(started + middle, [SupersedingDone(id)]);
    RunPrefix(started, middle);
    ReplacementStarts(before, id, order, x);
    ReplacingRuns(started, middle, id, x);
    ReplacementEnds(started + middle, id, x);
  }

  lemma ReplacementStarts(before: seq<Action>, id: Id, order: seq<NativeClose>, x: Id)
    requires Run(before + [StartCreate(id, order)]).Some?
    requires Run(before).Some? && IsLive(Run(before).value, x) && x.tab == id.tab
    ensures var s := Run(before + [StartCreate(id, order)]).value;
            Replacing(s, id, x) && id in s.used && x != id
  {
    RunStep(before, StartCreate(id, order));
    ReachableInv(before);
    ReplacingStarts(Run(before).value, Run(before + [StartCreate(id, order)]).value, id, order, x);
    var _ := LiveHasSettled(Run(before).value, x);
    OwnStart(Run(before).value, Run(before + [StartCreate(id, order)]).value, id, order);
  }

  lemma ReplacementEnds(before: seq<Action>, id: Id, x: Id)
    requires Run(before + [SupersedingDone(id)]).Some? && Run(before).Some?
    requires Replacing(Run(before).value, id, x) && x != id
    ensures IsOver(Run(before + [SupersedingDone(id)]).value, x)
  {
    RunStep(before, SupersedingDone(id));
    SupersedingEnds(Run(before).value, Run(before + [SupersedingDone(id)]).value, id, x);
  }

  lemma SupersedingEnds(s: State, s': State, id: Id, x: Id)
    requires DoSupersedingDone(s, id) == Some(s') && Replacing(s, id, x) && x != id
    ensures IsOver(s', x)
  {
  }
}
