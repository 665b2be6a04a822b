/** Running commands never block one another, and end after finitely many steps. */
module BrowserCommandLiveness {
  import opened Common
  import opened BrowserLifecycle
  import opened BrowserCommands
  import opened BrowserCommandTheorems

  // ---------------------------------------------------------------------------------------
  // Work
  // ---------------------------------------------------------------------------------------

  /** How many steps a create has left at most, those of the close of its own late birth included. */
  function WorkAt(p: Place): nat {
    match p
    case Superseding(rest) => 2 * |rest| + 5
    case SupersededClosed(_, rest) => 2 * |rest| + 6
    case AddingChild => 4
    case Born => 3
    case SupersedeFailed => 1
    case ChildFailed => 1
  }

  ghost function PickId(creators: map<Id, Place>): (id: Id)
    requires creators != map[]
    ensures id in creators
  {
    assert exists id :: id in creators;
    var id :| id in creators;
    id
  }

  ghost function WorkOf(creators: map<Id, Place>): nat
    decreases |creators|
  {
    if creators == map[] then 0
    else
      var id := PickId(creators);
      assert |creators - {id}| == |creators| - 1 by { Fewer(creators, id); }
      WorkAt(creators[id]) + WorkOf(creators - {id})
  }

  lemma Fewer(creators: map<Id, Place>, id: Id)
    requires id in creators
    ensures |creators - {id}| == |creators| - 1
  {
    assert (creators - {id}).Keys == creators.Keys - {id};
  }

  lemma {:induction false} WorkWithout(creators: map<Id, Place>, id: Id)
    requires id in creators
    ensures WorkOf(creators) == WorkAt(creators[id]) + WorkOf(creators - {id})
    decreases |creators|
  {
    var first := PickId(creators);
    if first != id {
      Fewer(creators, first);
      Fewer(creators, id);
      WorkWithout(creators - {first}, id);
      WorkWithout(creators - {id}, first);
      assert creators - {first} - {id} == creators - {id} - {first};
    }
  }

  lemma WorkWith(creators: map<Id, Place>, id: Id, p: Place)
    requires id in creators
    ensures WorkOf(creators[id := p]) + WorkAt(creators[id]) == WorkOf(creators) + WorkAt(p)
  {
    WorkWithout(creators, id);
    WorkWithout(creators[id := p], id);
    assert creators[id := p] - {id} == creators - {id};
  }

  function CloserWorkAt(c: Closer): nat {
    if c.closed then 1 else 2
  }

  ghost function PickCloser(closers: multiset<Closer>): (c: Closer)
    requires closers != multiset{}
    ensures c in closers
  {
    var c :| c in closers;
    c
  }

  ghost function CloserWork(closers: multiset<Closer>): nat
    decreases |closers|
  {
    if closers == multiset{} then 0
    else
      var c := PickCloser(closers);
      CloserWorkAt(c) + CloserWork(closers - multiset{c})
  }

  lemma {:induction false} CloserWorkWithout(closers: multiset<Closer>, c: Closer)
    requires c in closers
    ensures CloserWork(closers) == CloserWorkAt(c) + CloserWork(closers - multiset{c})
    decreases |closers|
  {
    var first := PickCloser(closers);
    if first != c {
      CloserWorkWithout(closers - multiset{first}, c);
      CloserWorkWithout(closers - multiset{c}, first);
      assert closers - multiset{first} - multiset{c} == closers - multiset{c} - multiset{first};
    }
  }

  lemma CloserWorkWith(closers: multiset<Closer>, c: Closer)
    ensures CloserWork(closers + multiset{c}) == CloserWork(closers) + CloserWorkAt(c)
  {
    CloserWorkWithout(closers + multiset{c}, c);
    assert closers + multiset{c} - multiset{c} == closers;
  }

  function DrainWork(draining: Option<set<Label>>): nat {
    match draining
    case None => 0
    case Some(labels) => |labels| + 1
  }

  /** The steps that running commands have left at most. */
  ghost function Work(s: State): nat {
    WorkOf(s.creators) + CloserWork(s.closers) + DrainWork(s.draining)
  }

  predicate IsStart(a: Action) {
    a.StartCreate? || a.StartClose? || a.StartShutdown?
  }

  lemma CreatorMoves(s: State, s': State, a: Action)
    requires Next(s, a) == Some(s')
    requires a.CloseSuperseded? || a.SettleSuperseded? || a.SupersedingDone? || a.AddChild?
    ensures a.id in s.creators && a.id in s'.creators && s'.creators == s.creators[a.id := s'.creators[a.id]]
    ensures WorkAt(s'.creators[a.id]) < WorkAt(s.creators[a.id])
    ensures s'.closers == s.closers && s'.draining == s.draining
  {
  }

  lemma CreateWorks(s: State, s': State, a: Action)
    requires Next(s, a) == Some(s')
    requires a.CloseSuperseded? || a.SettleSuperseded? || a.SupersedingDone? || a.AddChild?
    ensures Work(s') < Work(s)
  {
    CreatorMoves(s, s', a);
    WorkWith(s.creators, a.id, s'.creators[a.id]);
  }

  lemma FailureWorks(s: State, s': State, id: Id)
    requires DoSettleBirthFailure(s, id) == Some(s')
    ensures Work(s') < Work(s)
  {
    WorkWithout(s.creators, id);
  }

  lemma BirthWorks(s: State, s': State, id: Id)
    requires DoSettleBirth(s, id) == Some(s')
    ensures Work(s') < Work(s)
  {
    WorkWithout(s.creators, id);
    var settlement := SettleSuccess(s.tabs, id.tab, id.token, LabelOf(id)).1;
    if settlement.Retire? {
      CloserWorkWith(s.closers, Closer(id.tab, settlement.close, false));
    }
  }

  lemma CloseWorks(s: State, s': State, c: Closer, ok: bool)
    requires DoCloseNative(s, c, ok) == Some(s')
    ensures Work(s') < Work(s)
  {
    CloserWorkWithout(s.closers, c);
    CloserWorkWith(s.closers - multiset{c}, c.(closed := true));
  }

  lemma SettledWorks(s: State, s': State, c: Closer)
    requires DoSettleClose(s, c) == Some(s')
    ensures Work(s') < Work(s)
  {
    CloserWorkWithout(s.closers, c);
  }

  lemma ShutdownWorks(s: State, s': State, a: Action)
    requires Next(s, a) == Some(s') && (a.ShutdownClose? || a.EndShutdown?)
    ensures Work(s') < Work(s)
  {
  }

  /** Every step of a running command leaves less to do. */
  lemma StepWorks(s: State, s': State, a: Action)
    requires Next(s, a) == Some(s') && !IsStart(a)
    ensures Work(s') < Work(s)
  {
    match a
    case SettleBirthFailure(id) => FailureWorks(s, s', id);
    case SettleBirth(id) => BirthWorks(s, s', id);
    case CloseNative(c, ok) => CloseWorks(s, s', c, ok);
    case SettleClose(c) => SettledWorks(s, s', c);
    case ShutdownClose(_, _) => ShutdownWorks(s, s', a);
    case EndShutdown => ShutdownWorks(s, s', a);
    case _ => CreateWorks(s, s', a);
  }

  /** If no command starts, those that run end after a bounded number of steps, in whatever order they are taken. */
  lemma {:induction false} CommandsEnd(before: seq<Action>, after: seq<Action>)
    requires Run(before).Some? && Run(before + after).Some? && forall a :: a in after ==> !IsStart(a)
    ensures |after| + Work(Run(before + after).value) <= Work(Run(before).value)
    decreases |after|
  {
    if after == [] {
      assert before + after == before;
    } else {
      var (init, a) := (after[..|after| - 1], after[|after| - 1]);
      assert after == init + [a];
      assert (before + after)[..|before + after| - 1] == before + init;
      CommandsEnd(before, init);
      StepWorks(Run(before + init).value, Run(before + after).value, a);
    }
  }

  // ---------------------------------------------------------------------------------------
  // Progress
  // ---------------------------------------------------------------------------------------

  function CreatorStep(id: Id, p: Place): Action {
    match p
    case Superseding(rest) => if rest == [] then SupersedingDone(id) else CloseSuperseded(id, true)
    case SupersededClosed(_, _) => SettleSuperseded(id)
    case AddingChild => AddChild(id, true)
    case Born => SettleBirth(id)
    case _ => SettleBirthFailure(id)
  }

  /** While a command runs, some running command can take a step. */
  lemma SomeStep(s: State) returns (a: Action)
    requires !Quiescent(s)
    ensures !IsStart(a) && Next(s, a).Some?
  {
    if s.draining.Some? {
      if s.draining.value == {} {
        a := EndShutdown;
      } else {
        var l :| l in s.draining.value;
        a := ShutdownClose(l, true);
      }
    } else if s.creators != map[] {
      var id := PickId(s.creators);
      a := CreatorStep(id, s.creators[id]);
      assert PlaceOf(s, id) == Some(s.creators[id]);
    } else {
      var c := PickCloser(s.closers);
      a := if c.closed then SettleClose(c) else CloseNative(c, true);
    }
  }

  /** Whatever has happened, all running commands can come to their ends. */
  lemma {:induction false} CommandsCanEnd(before: seq<Action>) returns (after: seq<Action>)
    requires Run(before).Some?
    ensures Run(before + after).Some? && Quiescent(Run(before + after).value)
    ensures forall a :: a in after ==> !IsStart(a)
    decreases Work(Run(before).value)
  {
    if Quiescent(Run(before).value) {
      after := [];
      assert before + after == before;
    } else {
      var a := SomeStep(Run(before).value);
      RunStep(before, a);
      StepWorks(Run(before).value, Run(before + [a]).value, a);
      var rest := CommandsCanEnd(before + [a]);
      after := [a] + rest;
      Regroup(before, [a], rest);
    }
  }

  /** Unless a shutdown holds the lock, every command can start, a create once for each token. */
  lemma CommandsCanStart(s: State, id: Id) returns (order: seq<NativeClose>)
    requires Coherent(s.tabs) && s.draining == None && |id.token| == TOKEN_LENGTH
    ensures Next(s, StartClose(id)).Some? && Next(s, StartShutdown).Some?
    ensures Next(s, StartCreate(id, order)).Some? <==> id !in s.used
  {
    var a := Admit(s.tabs, id.tab, id.token, LabelOf(id)).1;
    AdmitCoherent(s.tabs, id.tab, id.token, LabelOf(id));
    order := [];
    if a.Create? && a.closes != {} {
      var c :| c in a.closes;
      assert a.closes == {c};
      order := [c];
    }
  }

  // ---------------------------------------------------------------------------------------
  // Failures
  // ---------------------------------------------------------------------------------------

  /** Every native call may fail: a close of a webview that exists, and any attempt to add one. */
  lemma NativeCallsMayFail(s: State, id: Id, c: Closer, l: Label)
    ensures Next(s, AddChild(id, true)).Some? <==> Next(s, AddChild(id, false)).Some?
    ensures Next(s, CloseSuperseded(id, true)).Some? && s.creators[id].rest[0].webview in s.native
            ==> Next(s, CloseSuperseded(id, false)).Some?
    ensures Next(s, CloseNative(c, true)).Some? && c.close.webview in s.native
            ==> Next(s, CloseNative(c, false)).Some?
    ensures Next(s, ShutdownClose(l, true)).Some? && l in s.native ==> Next(s, ShutdownClose(l, false)).Some?
  {
  }

  /** The labels that a shutdown could not close. */
  function NotClosed(labels: set<Label>, native: map<Label, Id>, works: Label -> bool): set<Label> {
    set l | l in labels && l in native && !works(l)
  }

  /** A shutdown goes on whatever fails: it tries each label once, closes those it can, and forgets the others. */
  lemma {:induction false} ShutdownGoesOn(before: seq<Action>, works: Label -> bool) returns (after: seq<Action>)
    requires Run(before).Some? && Run(before).value.draining.Some?
    ensures Run(before + after).Some? && Run(before + after).value.draining == Some({})
    ensures var (s, s') := (Run(before).value, Run(before + after).value);
            var labels := s.draining.value;
            && s'.native == s.native - (labels - NotClosed(labels, s.native, works))
            && s'.leaked == s.leaked + NotClosed(labels, s.native, works)
    decreases |Run(before).value.draining.value|
  {
    var s := Run(before).value;
    var labels := s.draining.value;
    if labels == {} {
      after := [];
      assert before + after == before;
      assert s.native - {} == s.native && s.leaked + {} == s.leaked;
    } else {
      var l :| l in labels;
      var a := ShutdownClose(l, l !in s.native || works(l));
      RunStep(before, a);
      var rest := ShutdownGoesOn(before + [a], works);
      after := [a] + rest;
      Regroup(before, [a], rest);
      OneLess(s, Run(before + [a]).value, l, works);
    }
  }

  lemma OneLess(s: State, s': State, l: Label, works: Label -> bool)
    requires s.draining.Some? && l in s.draining.value
    requires DoShutdownClose(s, l, l !in s.native || works(l)) == Some(s')
    ensures s'.draining.Some? && s'.draining.value == s.draining.value - {l}
    ensures var (labels, rest) := (s.draining.value, s'.draining.value);
            && s'.native - (rest - NotClosed(rest, s'.native, works))
               == s.native - (labels - NotClosed(labels, s.native, works))
            && s'.leaked + NotClosed(rest, s'.native, works) == s.leaked + NotClosed(labels, s.native, works)
  {
  }
}
