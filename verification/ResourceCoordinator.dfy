/**
 The single-flight coordinator of browser_resource.rs. Its critical sections are functions on the
 state under the mutex; threads that call `run` interleave between them and block on the condition
 variable, where a wakeup may also be spurious.
 */
module ResourceCoordinator {
  import opened Common

  datatype Outcome<T> = Success(value: T) | Failure(error: string)

  /** The state guarded by the mutex. */
  datatype Shared<T> = Shared(active: bool, generation: nat, waiters: nat, terminal: Option<Outcome<T>>)

  datatype Decision = Join(generation: nat) | AwaitDrain | Own

  const INSTALL_FAILED := "BROWSER_RESOURCE_INSTALL_FAILED"

  function WrappingNext(generation: nat): nat {
    (generation + 1) % (U64_MAX + 1)
  }

  /** One pass of the outer loop of `run`, from taking the lock to waiting, or to owning the operation. */
  function Enter<T>(s: Shared<T>): (Shared<T>, Decision) {
    if s.active then (s.(waiters := s.waiters + 1), Join(s.generation))
    else if s.waiters > 0 then (s, AwaitDrain)
    else (s.(active := true, generation := WrappingNext(s.generation), terminal := None), Own)
  }

  predicate StillWaiting<T>(s: Shared<T>, generation: nat) {
    s.active && s.generation == generation
  }

  function TerminalOf<T>(s: Shared<T>): Outcome<T> {
    if s.terminal.Some? then s.terminal.value else Failure(INSTALL_FAILED)
  }

  function Leave<T>(s: Shared<T>): Shared<T> {
    s.(waiters := if s.waiters == 0 then 0 else s.waiters - 1)
  }

  function Complete<T>(s: Shared<T>, result: Outcome<T>): Shared<T> {
    s.(active := false, terminal := Some(result))
  }

  class BrowserResourceOperationCoordinator<T> {
    var active: bool
    var generation: nat
    var waiters: nat
    var terminal: Option<Outcome<T>>

    function View(): Shared<T>
      reads this
    {
      Shared(active, generation, waiters, terminal)
    }

    /** While an operation runs there is no result to take. */
    ghost predicate Valid()
      reads this
    {
      generation <= U64_MAX && (active ==> terminal == None)
    }

    constructor ()
      ensures Valid() && View() == Shared(false, 0, 0, None)
    {
      active, generation, waiters, terminal := false, 0, 0, None;
    }

    method TryEnter() returns (decision: Decision)
      requires Valid()
      modifies this
      ensures Valid() && (View(), decision) == Enter(old(View()))
    {
      if active {
        decision := Join(generation);
        waiters := waiters + 1;
      } else if waiters > 0 {
        decision := AwaitDrain;
      } else {
        active := true;
        generation := WrappingNext(generation);
        terminal := None;
        decision := Own;
      }
    }

    method LeaveJoined() returns (result: Outcome<T>, notify: bool)
      requires Valid()
      modifies this
      ensures Valid() && View() == Leave(old(View())) && result == TerminalOf(old(View()))
              && notify == (View().waiters == 0)
    {
      result := if terminal.Some? then terminal.value else Failure(INSTALL_FAILED);
      if waiters > 0 {
        waiters := waiters - 1;
      }
      notify := waiters == 0;
    }

    method Publish(result: Outcome<T>)
      requires Valid()
      modifies this
      ensures Valid() && View() == Complete(old(View()), result)
    {
      active := false;
      terminal := Some(result);
    }
  }

  // ---------------------------------------------------------------------------------------
  // Threads
  // ---------------------------------------------------------------------------------------

  /**
   `epoch` counts the operations ever started, without the wrap-around of `generation`. A blocked
   thread is `notified` when a notification has been sent since it began to wait.
   */
  datatype Thread<T> =
    | Fresh
    | Draining(notified: bool)
    | Joined(generation: nat, epoch: nat, notified: bool)
    | Running(epoch: nat)
    | Returned(result: Outcome<T>, epoch: nat)

  datatype World<T> = World(
    shared: Shared<T>,
    threads: seq<Thread<T>>,
    epoch: nat,
    owner: Option<nat>,
    results: map<nat, Outcome<T>>)

  datatype Action<T> =
    | TryEnter(thread: nat)
    | WakeJoined(thread: nat)
    | Finish(thread: nat, result: Outcome<T>)

  function Notify<T>(t: Thread<T>): Thread<T> {
    match t
    case Draining(_) => Draining(true)
    case Joined(g, e, _) => Joined(g, e, true)
    case _ => t
  }

  function NotifyAll<T>(threads: seq<Thread<T>>): seq<Thread<T>> {
    seq(|threads|, i requires 0 <= i < |threads| => Notify(threads[i]))
  }

  function DoEnter<T>(w: World<T>, i: nat): Option<World<T>> {
    if i >= |w.threads| || !(w.threads[i].Fresh? || w.threads[i].Draining?) then None
    else
      var (shared, decision) := Enter(w.shared);
      match decision
      case Join(g) => Some(w.(shared := shared, threads := w.threads[i := Joined(g, w.epoch, false)]))
      case AwaitDrain => Some(w.(shared := shared, threads := w.threads[i := Draining(false)]))
      case Own => Some(w.(shared := shared, threads := w.threads[i := Running(w.epoch + 1)],
                          epoch := w.epoch + 1, owner := Some(i)))
  }

  function DoWakeJoined<T>(w: World<T>, i: nat): Option<World<T>> {
    if i >= |w.threads| || !w.threads[i].Joined? then None
    else
      var t := w.threads[i];
      if StillWaiting(w.shared, t.generation) then Some(w.(threads := w.threads[i := t.(notified := false)]))
      else
        var shared := Leave(w.shared);
        var threads := w.threads[i := Returned(TerminalOf(w.shared), t.epoch)];
        Some(w.(shared := shared, threads := if shared.waiters == 0 then NotifyAll(threads) else threads))
  }

  function DoFinish<T>(w: World<T>, i: nat, result: Outcome<T>): Option<World<T>> {
    if i >= |w.threads| || !w.threads[i].Running? then None
    else
      var e := w.threads[i].epoch;
      Some(w.(shared := Complete(w.shared, result), threads := NotifyAll(w.threads[i := Returned(result, e)]),
              owner := None, results := w.results[e := result]))
  }

  function Next<T>(w: World<T>, a: Action<T>): Option<World<T>> {
    match a
    case TryEnter(i) => DoEnter(w, i)
    case WakeJoined(i) => DoWakeJoined(w, i)
    case Finish(i, result) => DoFinish(w, i, result)
  }

  function Initial<T>(n: nat): World<T> {
    World(Shared(false, 0, 0, None), seq(n, _ => Fresh), 0, None, map[])
  }

  function Run<T>(w: World<T>, actions: seq<Action<T>>): Option<World<T>> {
    if actions == [] then Some(w)
    else
      var before :- Run(w, actions[..|actions| - 1]);
      Next(before, actions[|actions| - 1])
  }

  // ---------------------------------------------------------------------------------------
  // The invariant
  // ---------------------------------------------------------------------------------------

  function Weigh<T>(threads: seq<Thread<T>>, weight: Thread<T> -> nat): nat {
    if threads == [] then 0 else Weigh(threads[..|threads| - 1], weight) + weight(threads[|threads| - 1])
  }

  function Joins<T>(t: Thread<T>): nat { if t.Joined? then 1 else 0 }

  ghost predicate ThreadOk<T>(w: World<T>, i: nat, t: Thread<T>) {
    match t
    case Fresh => true
    case Draining(notified) => notified || (!w.shared.active && w.shared.waiters > 0)
    case Joined(g, e, notified) => g == w.shared.generation && 1 <= e == w.epoch && notified == !w.shared.active
    case Running(e) => w.owner == Some(i) && 1 <= e == w.epoch
    case Returned(result, e) => e <= w.epoch && Get(w.results, e) == Some(result)
  }

  ghost predicate ThreadsOk<T>(w: World<T>) {
    forall i :: 0 <= i < |w.threads| ==> ThreadOk(w, i, w.threads[i])
  }

  ghost predicate CountsOk<T>(w: World<T>) {
    && w.shared.generation == Wrap(w.epoch)
    && w.shared.waiters == Weigh(w.threads, Joins)
    && (w.owner.Some? <==> w.shared.active)
    && (w.owner.Some? ==> w.owner.value < |w.threads| && w.threads[w.owner.value].Running?)
    && (forall e :: e in w.results <==> 1 <= e <= w.epoch && (w.shared.active ==> e != w.epoch))
    && (!w.shared.active && w.epoch > 0 ==> w.shared.terminal == Some(w.results[w.epoch]))
    && (w.shared.active ==> w.shared.terminal == None)
  }

  ghost predicate Inv<T>(w: World<T>) {
    CountsOk(w) && ThreadsOk(w)
  }

  lemma {:induction false} WeighUpdate<T>(threads: seq<Thread<T>>, weight: Thread<T> -> nat, i: nat, t: Thread<T>)
    requires i < |threads|
    ensures Weigh(threads[i := t], weight) + weight(threads[i]) == Weigh(threads, weight) + weight(t)
  {
    var n := |threads| - 1;
    if i == n {
      assert threads[i := t][..n] == threads[..n];
    } else {
      assert threads[i := t][..n] == threads[..n][i := t];
      WeighUpdate(threads[..n], weight, i, t);
    }
  }

  /** A notification to everybody raises a weight by no more than what it raises one thread's. */
  lemma {:induction false} WeighNotify<T>(threads: seq<Thread<T>>, weight: Thread<T> -> nat, rise: nat)
    requires forall t :: weight(t) <= weight(Notify(t)) <= weight(t) + rise
    ensures Weigh(threads, weight) <= Weigh(NotifyAll(threads), weight) <= Weigh(threads, weight) + rise * |threads|
  {
    if threads != [] {
      var n := |threads| - 1;
      assert NotifyAll(threads)[..n] == NotifyAll(threads[..n]);
      WeighNotify(threads[..n], weight, rise);
      assert rise * |threads| == rise * n + rise;
    }
  }

  lemma {:induction false} WeighBound<T>(threads: seq<Thread<T>>, weight: Thread<T> -> nat, i: nat)
    requires i < |threads|
    ensures weight(threads[i]) <= Weigh(threads, weight)
  {
    WeighUpdate(threads, weight, i, threads[i]);
    var n := |threads| - 1;
    if i < n {
      WeighBound(threads[..n], weight, i);
    }
  }

  lemma {:induction false} WeighPositive<T>(threads: seq<Thread<T>>, weight: Thread<T> -> nat) returns (i: nat)
    requires Weigh(threads, weight) > 0
    ensures i < |threads| && weight(threads[i]) > 0
  {
    var n := |threads| - 1;
    if weight(threads[n]) > 0 {
      i := n;
    } else {
      i := WeighPositive(threads[..n], weight);
    }
  }

  /** A thread that starts to wait, for the running operation or for a drain. */
  lemma WaitKeeps<T>(w: World<T>, w': World<T>, i: nat)
    requires Inv(w) && DoEnter(w, i) == Some(w') && !Enter(w.shared).1.Own?
    ensures Inv(w')
  {
    WeighUpdate(w.threads, Joins, i, w'.threads[i]);
  }

  lemma NotJoined<T>(threads: seq<Thread<T>>, j: nat)
    requires Weigh(threads, Joins) == 0 && j < |threads|
    ensures !threads[j].Joined?
  {
    WeighBound(threads, Joins, j);
  }

  lemma OwnKeepsThread<T>(w: World<T>, w': World<T>, i: nat, j: nat)
    requires Inv(w) && DoEnter(w, i) == Some(w') && Enter(w.shared).1.Own? && j < |w.threads|
    ensures ThreadOk(w', j, w'.threads[j])
  {
    NotJoined(w.threads, j);
    assert ThreadOk(w, j, w.threads[j]);
  }

  /** A thread that becomes the owner finds nobody waiting, so nobody belongs to an older generation. */
  lemma OwnKeeps<T>(w: World<T>, w': World<T>, i: nat)
    requires Inv(w) && DoEnter(w, i) == Some(w') && Enter(w.shared).1.Own?
    ensures Inv(w')
  {
    OwnKeepsThreads(w, w', i);
    OwnKeepsCounts(w, w', i);
  }

  function Wrap(epoch: nat): nat {
    epoch % (U64_MAX + 1)
  }

  lemma WrapNext(epoch: nat)
    ensures WrappingNext(Wrap(epoch)) == Wrap(epoch + 1)
  {
  }

  lemma OwnKeepsCounts<T>(w: World<T>, w': World<T>, i: nat)
    requires CountsOk(w) && DoEnter(w, i) == Some(w') && Enter(w.shared).1.Own?
    ensures CountsOk(w')
  {
    WrapNext(w.epoch);
    WeighUpdate(w.threads, Joins, i, w'.threads[i]);
  }

  lemma OwnKeepsThreads<T>(w: World<T>, w': World<T>, i: nat)
    requires Inv(w) && DoEnter(w, i) == Some(w') && Enter(w.shared).1.Own?
    ensures ThreadsOk(w')
  {
    forall j | 0 <= j < |w'.threads|
      ensures ThreadOk(w', j, w'.threads[j])
    {
      OwnKeepsThread(w, w', i, j);
    }
  }

  lemma EnterKeeps<T>(w: World<T>, w': World<T>, i: nat)
    requires Inv(w) && DoEnter(w, i) == Some(w')
    ensures Inv(w')
  {
    if Enter(w.shared).1.Own? {
      OwnKeeps(w, w', i);
    } else {
      WaitKeeps(w, w', i);
    }
  }

  lemma JoinersAfterReturn<T>(threads: seq<Thread<T>>, i: nat, returned: Thread<T>)
    requires i < |threads| && returned.Returned?
    ensures Weigh(threads[i := returned], Joins) + Joins(threads[i]) == Weigh(threads, Joins)
    ensures Weigh(NotifyAll(threads[i := returned]), Joins) == Weigh(threads[i := returned], Joins)
  {
    WeighUpdate(threads, Joins, i, returned);
    WeighNotify(threads[i := returned], Joins, 0);
  }

  lemma StillWaitingKeeps<T>(w: World<T>, w': World<T>, i: nat)
    requires Inv(w) && DoWakeJoined(w, i) == Some(w') && StillWaiting(w.shared, w.threads[i].generation)
    ensures Inv(w')
  {
    assert ThreadOk(w, i, w.threads[i]);
    assert w'.threads == w.threads;
  }

  lemma LeavingKeepsThread<T>(w: World<T>, w': World<T>, i: nat, j: nat)
    requires Inv(w) && DoWakeJoined(w, i) == Some(w') && !StillWaiting(w.shared, w.threads[i].generation)
    requires j < |w.threads| && w.shared.waiters > 0
    ensures ThreadOk(w', j, w'.threads[j])
  {
    assert ThreadOk(w, i, w.threads[i]);
    assert ThreadOk(w, j, w.threads[j]);
  }

  lemma LeavingKeeps<T>(w: World<T>, w': World<T>, i: nat)
    requires Inv(w) && DoWakeJoined(w, i) == Some(w') && !StillWaiting(w.shared, w.threads[i].generation)
    ensures Inv(w')
  {
    var returned := Returned(TerminalOf(w.shared), w.threads[i].epoch);
    JoinersAfterReturn(w.threads, i, returned);
    WeighBound(w.threads, Joins, i);
    forall j | 0 <= j < |w'.threads|
      ensures ThreadOk(w', j, w'.threads[j])
    {
      LeavingKeepsThread(w, w', i, j);
    }
  }

  lemma WakeJoinedKeeps<T>(w: World<T>, w': World<T>, i: nat)
    requires Inv(w) && DoWakeJoined(w, i) == Some(w')
    ensures Inv(w')
  {
    if StillWaiting(w.shared, w.threads[i].generation) {
      StillWaitingKeeps(w, w', i);
    } else {
      LeavingKeeps(w, w', i);
    }
  }

  lemma FinishKeeps<T>(w: World<T>, w': World<T>, i: nat, result: Outcome<T>)
    requires Inv(w) && DoFinish(w, i, result) == Some(w')
    ensures Inv(w')
  {
    var returned := Returned(result, w.threads[i].epoch);
    assert ThreadOk(w, i, w.threads[i]);
    JoinersAfterReturn(w.threads, i, returned);
    forall j | 0 <= j < |w'.threads|
      ensures ThreadOk(w', j, w'.threads[j])
    {
      assert ThreadOk(w, j, w.threads[j]);
    }
  }

  lemma NextKeeps<T>(w: World<T>, w': World<T>, a: Action<T>)
    requires Inv(w) && Next(w, a) == Some(w')
    ensures Inv(w')
  {
    match a
    case TryEnter(i) => EnterKeeps(w, w', i);
    case WakeJoined(i) => WakeJoinedKeeps(w, w', i);
    case Finish(i, result) => FinishKeeps(w, w', i, result);
  }

  lemma {:induction false} ReachableInv<T>(n: nat, actions: seq<Action<T>>)
    requires Run(Initial<T>(n), actions).Some?
    ensures Inv(Run(Initial<T>(n), actions).value)
    ensures |Run(Initial<T>(n), actions).value.threads| == n
  {
    if actions == [] {
      NobodyJoined<T>(n);
    } else {
      var k := |actions| - 1;
      ReachableInv(n, actions[..k]);
      NextKeeps(Run(Initial<T>(n), actions[..k]).value, Run(Initial<T>(n), actions).value, actions[k]);
    }
  }

  lemma {:induction false} NobodyJoined<T>(n: nat)
    ensures Weigh(Initial<T>(n).threads, Joins) == 0
  {
    if n > 0 {
      assert Initial<T>(n).threads[..n - 1] == Initial<T>(n - 1).threads;
      NobodyJoined<T>(n - 1);
    }
  }

  // ---------------------------------------------------------------------------------------
  // Exactness
  // ---------------------------------------------------------------------------------------

  /** At most one thread runs an operation, and whoever returned has the one result of its epoch. */
  lemma SingleFlight<T>(n: nat, actions: seq<Action<T>>, i: nat, j: nat)
    requires Run(Initial<T>(n), actions).Some? && i < n && j < n
    ensures var w := Run(Initial<T>(n), actions).value;
            && |w.threads| == n
            && (w.threads[i].Running? && w.threads[j].Running? ==> i == j)
            && (w.threads[i].Returned? && w.threads[j].Returned? && w.threads[i].epoch == w.threads[j].epoch
                ==> w.threads[i].result == w.threads[j].result)
  {
    ReachableInv(n, actions);
    var w := Run(Initial<T>(n), actions).value;
    assert ThreadOk(w, i, w.threads[i]) && ThreadOk(w, j, w.threads[j]);
  }

  /** No operation can start while joined threads remain, so the test of the generation decides nothing. */
  lemma GenerationTestIsRedundant<T>(n: nat, actions: seq<Action<T>>, i: nat)
    requires Run(Initial<T>(n), actions).Some? && i < n
    ensures var w := Run(Initial<T>(n), actions).value;
            && |w.threads| == n
            && (w.threads[i].Joined? ==>
                  && StillWaiting(w.shared, w.threads[i].generation) == w.shared.active
                  && w.threads[i].epoch == w.epoch
                  && !Enter(w.shared).1.Own?)
  {
    ReachableInv(n, actions);
    var w := Run(Initial<T>(n), actions).value;
    assert ThreadOk(w, i, w.threads[i]);
    WeighBound(w.threads, Joins, i);
  }

  lemma StepKeepsEpochs<T>(w: World<T>, w': World<T>, a: Action<T>, i: nat)
    requires Inv(w) && Next(w, a) == Some(w') && i < |w.threads|
    ensures |w'.threads| == |w.threads|
    ensures w.threads[i].Joined? || w.threads[i].Running? ==>
              || (w'.threads[i].Joined? && w.threads[i].Joined? && w'.threads[i].epoch == w.threads[i].epoch)
              || (w'.threads[i].Running? && w'.threads[i] == w.threads[i])
              || (w'.threads[i].Returned? && w'.threads[i].epoch == w.threads[i].epoch)
    ensures w.threads[i].Returned? ==> w'.threads[i] == w.threads[i]
  {
  }

  /** A thread bound to an epoch either still waits for its operation or returned its result. */
  ghost predicate BoundTo<T>(w: World<T>, i: nat, e: nat) {
    && i < |w.threads|
    && match w.threads[i]
       case Joined(_, epoch, _) => epoch == e
       case Running(epoch) => epoch == e
       case Returned(result, epoch) => epoch == e && Get(w.results, e) == Some(result)
       case _ => false
  }

  lemma StepKeepsBound<T>(w: World<T>, w': World<T>, a: Action<T>, i: nat, e: nat)
    requires Inv(w) && Next(w, a) == Some(w') && BoundTo(w, i, e)
    ensures BoundTo(w', i, e)
  {
    NextKeeps(w, w', a);
    StepKeepsEpochs(w, w', a, i);
    assert ThreadOk(w', i, w'.threads[i]);
  }

  /**
   A thread that joined, or that owns, the operation of an epoch returns exactly the result that the
   owner of that epoch produced, whatever happens in between.
   */
  lemma {:induction false} JoinersGetTheirResult<T>(n: nat, before: seq<Action<T>>, after: seq<Action<T>>, i: nat,
                                                    e: nat)
    requires Run(Initial<T>(n), before).Some? && Run(Initial<T>(n), before + after).Some?
    requires BoundTo(Run(Initial<T>(n), before).value, i, e)
    ensures BoundTo(Run(Initial<T>(n), before + after).value, i, e)
  {
    if after == [] {
      assert before + after == before;
    } else {
      var k := |after| - 1;
      assert (before + after)[..|before + after| - 1] == before + after[..k];
      JoinersGetTheirResult(n, before, after[..k], i, e);
      ReachableInv(n, before + after[..k]);
      StepKeepsBound(Run(Initial<T>(n), before + after[..k]).value, Run(Initial<T>(n), before + after).value,
                     after[k], i, e);
    }
  }

  // ---------------------------------------------------------------------------------------
  // No lost wakeup, and every caller returns
  // ---------------------------------------------------------------------------------------

  predicate Blocked<T>(t: Thread<T>) {
    (t.Draining? || t.Joined?) && !t.notified
  }

  /** Whoever is blocked has an owner to wait for, or a notified joined thread about to leave. */
  lemma NoLostWakeup<T>(n: nat, actions: seq<Action<T>>, i: nat)
    requires Run(Initial<T>(n), actions).Some? && i < n
    ensures var w := Run(Initial<T>(n), actions).value;
            && |w.threads| == n
            && (Blocked(w.threads[i]) ==>
                  || (exists j :: 0 <= j < n && w.threads[j].Running?)
                  || (exists j :: 0 <= j < n && w.threads[j].Joined? && w.threads[j].notified))
  {
    ReachableInv(n, actions);
    var w := Run(Initial<T>(n), actions).value;
    assert ThreadOk(w, i, w.threads[i]);
    if w.threads[i].Draining? && !w.threads[i].notified {
      var j := WeighPositive(w.threads, Joins);
      assert ThreadOk(w, j, w.threads[j]);
    }
  }

  /** An action that needs no spurious wakeup. */
  predicate Prompt<T>(w: World<T>, a: Action<T>) {
    match a
    case TryEnter(i) => i < |w.threads| && (w.threads[i].Fresh? || w.threads[i] == Draining(true))
    case WakeJoined(i) => i < |w.threads| && w.threads[i].Joined? && w.threads[i].notified
    case Finish(i, _) => i < |w.threads| && w.threads[i].Running?
  }

  /** How far a thread is from returning; the base outweighs one notification to all n threads. */
  function Distance<T>(n: nat): Thread<T> -> nat {
    (t: Thread<T>) =>
      match t
      case Fresh => n + 4
      case Draining(notified) => if notified then n + 3 else n + 2
      case Joined(_, _, _) => n + 1
      case Running(_) => n + 1
      case Returned(_, _) => 0
  }

  function Measure<T>(w: World<T>): nat {
    Weigh(w.threads, Distance(|w.threads|))
  }

  lemma ReturnLowers<T>(threads: seq<Thread<T>>, i: nat, returned: Thread<T>)
    requires i < |threads| && (threads[i].Joined? || threads[i].Running?) && returned.Returned?
    ensures var d := Distance<T>(|threads|);
            Weigh(threads[i := returned], d) + |threads| + 1 == Weigh(threads, d)
  {
    WeighUpdate(threads, Distance<T>(|threads|), i, returned);
  }

  lemma NotificationRaises<T>(threads: seq<Thread<T>>)
    ensures Weigh(NotifyAll(threads), Distance<T>(|threads|)) <= Weigh(threads, Distance<T>(|threads|)) + |threads|
  {
    WeighNotify(threads, Distance<T>(|threads|), 1);
  }

  /** A thread that returns outweighs a notification to everybody else. */
  lemma ReturnDecreases<T>(threads: seq<Thread<T>>, i: nat, returned: Thread<T>)
    requires i < |threads| && (threads[i].Joined? || threads[i].Running?) && returned.Returned?
    ensures var d := Distance<T>(|threads|);
            && Weigh(threads[i := returned], d) < Weigh(threads, d)
            && Weigh(NotifyAll(threads[i := returned]), d) < Weigh(threads, d)
  {
    ReturnLowers(threads, i, returned);
    NotificationRaises(threads[i := returned]);
  }

  lemma EnterDecreases<T>(w: World<T>, w': World<T>, i: nat)
    requires Inv(w) && Prompt(w, TryEnter(i)) && DoEnter(w, i) == Some(w')
    ensures Measure(w') < Measure(w) && |w'.threads| == |w.threads|
  {
    WeighUpdate(w.threads, Distance<T>(|w.threads|), i, w'.threads[i]);
  }

  lemma WakeDecreases<T>(w: World<T>, w': World<T>, i: nat)
    requires Inv(w) && Prompt(w, WakeJoined(i)) && DoWakeJoined(w, i) == Some(w')
    ensures Measure(w') < Measure(w) && |w'.threads| == |w.threads|
  {
    assert ThreadOk(w, i, w.threads[i]);
    ReturnDecreases(w.threads, i, Returned(TerminalOf(w.shared), w.threads[i].epoch));
  }

  lemma PromptDecreases<T>(w: World<T>, w': World<T>, a: Action<T>)
    requires Inv(w) && Prompt(w, a) && Next(w, a) == Some(w')
    ensures Measure(w') < Measure(w) && |w'.threads| == |w.threads|
  {
    match a
    case TryEnter(i) => EnterDecreases(w, w', i);
    case WakeJoined(i) => WakeDecreases(w, w', i);
    case Finish(i, result) => ReturnDecreases(w.threads, i, Returned(result, w.threads[i].epoch));
  }

  predicate AllReturned<T>(w: World<T>) {
    forall i :: 0 <= i < |w.threads| ==> w.threads[i].Returned?
  }

  /** While some caller has not returned, some prompt action is possible. */
  lemma NeverStuck<T>(n: nat, actions: seq<Action<T>>, result: Outcome<T>) returns (a: Action<T>)
    requires Run(Initial<T>(n), actions).Some?
    requires !AllReturned(Run(Initial<T>(n), actions).value)
    ensures var w := Run(Initial<T>(n), actions).value;
            Prompt(w, a) && Next(w, a).Some?
  {
    ReachableInv(n, actions);
    var w := Run(Initial<T>(n), actions).value;
    var i :| 0 <= i < |w.threads| && !w.threads[i].Returned?;
    if Blocked(w.threads[i]) {
      NoLostWakeup(n, actions, i);
      if j :| 0 <= j < n && w.threads[j].Running? {
        a := Finish(j, result);
      } else {
        var j :| 0 <= j < n && w.threads[j].Joined? && w.threads[j].notified;
        a := WakeJoined(j);
      }
    } else if w.threads[i].Running? {
      a := Finish(i, result);
    } else if w.threads[i].Joined? {
      a := WakeJoined(i);
    } else {
      a := TryEnter(i);
    }
  }

  /** Every action of the run is prompt where it is taken. */
  predicate PromptRun<T>(w: World<T>, actions: seq<Action<T>>) {
    actions == []
    || (&& PromptRun(w, actions[..|actions| - 1])
        && Run(w, actions[..|actions| - 1]).Some?
        && Prompt(Run(w, actions[..|actions| - 1]).value, actions[|actions| - 1]))
  }

  /**
   Without spurious wakeups n callers take at most n * (n + 4) steps; with NeverStuck, a run that
   cannot go on has returned from every call.
   */
  lemma {:induction false} EveryCallReturns<T>(n: nat, actions: seq<Action<T>>)
    requires Run(Initial<T>(n), actions).Some? && PromptRun(Initial<T>(n), actions)
    ensures |actions| + Measure(Run(Initial<T>(n), actions).value) <= n * (n + 4)
  {
    if actions == [] {
      FreshMeasure<T>(n, n);
    } else {
      var k := |actions| - 1;
      EveryCallReturns(n, actions[..k]);
      ReachableInv(n, actions[..k]);
      PromptDecreases(Run(Initial<T>(n), actions[..k]).value, Run(Initial<T>(n), actions).value, actions[k]);
    }
  }

  lemma {:induction false} FreshMeasure<T>(n: nat, k: nat)
    ensures Weigh(Initial<T>(k).threads, Distance(n)) == k * (n + 4)
  {
    if k > 0 {
      assert Initial<T>(k).threads[..k - 1] == Initial<T>(k - 1).threads;
      FreshMeasure<T>(n, k - 1);
      assert k * (n + 4) == (k - 1) * (n + 4) + (n + 4);
    }
  }
}
