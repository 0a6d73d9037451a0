/**
 What the worker lifecycle guarantees on every run, for any number of slots, any interleaving and
 any kernel replies, and for both threaded servers.
 */
module Lifecycle {
  import opened Base
  import opened Workers

  ghost predicate Reachable(s: State) {
    exists n: nat, tcp: bool, actions: seq<Action> :: Run(Initial(n), tcp, actions) == Some(s)
  }

  lemma ReachableIsInv(s: State)
    requires Reachable(s)
    ensures Inv(s)
  {
    hide Run, Inv;
    var n: nat, tcp: bool, actions: seq<Action> :| Run(Initial(n), tcp, actions) == Some(s);
    ReachableInv(n, tcp, actions);
  }

  // ---- Threads, slots and races ----

  ghost predicate AllJoined(s: State) {
    && Distinct(s.joined) && |s.joined| == |s.threads|
    && forall t :: 0 <= t < |s.threads| ==> t in s.joined && s.threads[t].pc == Exited
  }

  lemma SlotsEmptied(s: State)
    requires Inv(s) && NoneInUse(s, |s.slots|) && Claimed(s.main) == None
    ensures forall t :: 0 <= t < |s.threads| ==> t in s.joined && s.threads[t].pc == Exited
  {
    hide FdsOk, MutexOk;
    forall t | 0 <= t < |s.threads| ensures t in s.joined && s.threads[t].pc == Exited {
      assert ThreadOk(s, t);
    }
  }

  /** A list of distinct numbers below n that holds all of them has length n. */
  lemma {:induction false} CompleteListLength(xs: seq<nat>, n: nat)
    requires Distinct(xs) && (forall k :: 0 <= k < |xs| ==> xs[k] < n) && forall t: nat :: t < n ==> t in xs
    ensures |xs| == n
  {
    if n > 0 {
      var top: nat := n - 1;
      assert top in xs;
      var k :| 0 <= k < |xs| && xs[k] == top;
      var rest := xs[..k] + xs[k + 1..];
      forall t: nat | t < n - 1 ensures t in rest {
        assert t in xs;
        var j :| 0 <= j < |xs| && xs[j] == t;
        assert rest[if j < k then j else j - 1] == t;
      }
      assert forall j :: 0 <= j < |rest| ==> rest[j] == xs[if j < k then j else j + 1];
      CompleteListLength(rest, n - 1);
    }
  }

  /**
   When the mutex is about to be destroyed, and when the server returns, every thread ever created
   has exited and was joined exactly once, no slot is in use and nobody holds the mutex.
   */
  lemma JoinedExactlyOnce(s: State)
    requires Reachable(s) && (s.main == Destroy || s.main == Done)
    ensures AllJoined(s) && NoneInUse(s, |s.slots|) && s.mutex == Nobody
  {
    ReachableIsInv(s);
    SlotsEmptied(s);
    CompleteListLength(s.joined, |s.threads|);
  }

  lemma AllClosed(s: State)
    requires Inv(s) && s.main == Done
    ensures forall conn: nat :: conn < s.accepted ==> conn in s.closed
  {
    SlotsEmptied(s);
    hide MainOk, MutexOk;
    forall conn: nat | conn < s.accepted ensures conn in s.closed {
      if Handed(s, conn) {
        var t :| 0 <= t < |s.threads| && s.threads[t].conn == conn;
        assert ThreadOk(s, t);
      }
    }
  }

  lemma NothingOpen(s: State)
    requires FdsOk(s) && forall conn: nat :: conn < s.accepted ==> conn in s.closed
    ensures s.open == map[]
  {
    assert forall fd :: fd in s.open.Keys ==> fd !in s.open;
  }

  /** When the server returns, every accepted descriptor was closed exactly once, and none is open. */
  lemma ClosedExactlyOnce(s: State)
    requires Reachable(s) && s.main == Done
    ensures Distinct(s.closed) && |s.closed| == s.accepted && !s.badClose
    ensures forall conn: nat :: conn < s.accepted ==> conn in s.closed
    ensures s.open == map[]
  {
    ReachableIsInv(s);
    AllClosed(s);
    hide ThreadsOk, MainOk, MutexOk, Run;
    CompleteListLength(s.closed, s.accepted);
    NothingOpen(s);
  }

  /** A worker's close always closes its own connection, though descriptor numbers are reused. */
  lemma WorkerClosesItsOwn(s: State, t: nat, again: bool)
    requires Reachable(s) && WorkerStep(s, t, again).Some? && s.threads[t].pc == Close
    ensures var r := WorkerStep(s, t, again).value;
            && s.threads[t].conn !in s.closed
            && r.closed == s.closed + [s.threads[t].conn]
            && r.open == s.open - {s.slots[s.threads[t].slot].clientFd}
  {
    ReachableIsInv(s);
    assert ThreadOk(s, t);
    OwnSlot(s, t);
  }

  /** A slot marked finished belongs to a worker whose connection is closed. */
  lemma FinishedMeansClosed(s: State, i: nat)
    requires Reachable(s) && i < |s.slots| && s.slots[i].inUse && s.slots[i].finished
    ensures s.slots[i].thread < |s.threads| && s.threads[s.slots[i].thread].slot == i
    ensures PastFinish(s.threads[s.slots[i].thread].pc) && s.threads[s.slots[i].thread].conn in s.closed
  {
    ReachableIsInv(s);
    assert SlotOk(s, i);
    assert ThreadOk(s, s.slots[i].thread);
  }

  lemma ReapWrites(s: State, i: nat)
    requires ReapStep(s).Some? && i < |s.slots| == |ReapStep(s).value.slots|
    requires ReapStep(s).value.slots[i] != s.slots[i]
    ensures Vacating(s.main) == Some(i)
  {
  }

  lemma JoinAllWrites(s: State, i: nat)
    requires JoinAllStep(s).Some? && i < |s.slots| == |JoinAllStep(s).value.slots|
    requires JoinAllStep(s).value.slots[i] != s.slots[i]
    ensures Vacating(s.main) == Some(i)
  {
  }

  lemma StartWrites(s: State, c: Choice, i: nat)
    requires StartStep(s, c).Some? && i < |s.slots| == |StartStep(s, c).value.slots|
    requires StartStep(s, c).value.slots[i] != s.slots[i]
    ensures Claimed(s.main) == Some(i) || (s.main.Scan? && !s.slots[i].inUse)
  {
  }

  lemma OthersWriteNothing(s: State, tcp: bool, c: Choice)
    ensures StopStep(s).Some? ==> StopStep(s).value.slots == s.slots
    ensures AcceptStep(s, tcp, c).Some? ==> AcceptStep(s, tcp, c).value.slots == s.slots
  {
  }

  /** Main's writes to the table: freeing a slot it joined, undoing a claim, or claiming a free slot. */
  lemma MainWrites(s: State, tcp: bool, c: Choice, i: nat)
    requires MainStep(s, tcp, c).Some? && i < |s.slots| == |MainStep(s, tcp, c).value.slots|
    requires MainStep(s, tcp, c).value.slots[i] != s.slots[i]
    ensures Vacating(s.main) == Some(i) || Claimed(s.main) == Some(i) || (s.main.Scan? && !s.slots[i].inUse)
  {
    hide ReapStep, StopStep, JoinAllStep, StartStep, AcceptStep, Vacating, Claimed;
    OthersWriteNothing(s, tcp, c);
    if Reaping(s.main) {
      ReapWrites(s, i);
    } else if Joining(s.main) && !Stopping(s.main) {
      JoinAllWrites(s, i);
    } else if Starting(s.main) {
      StartWrites(s, c, i);
    }
  }

  /**
   Main writes a slot, always outside the lock, only when every thread that ever ran in it has
   exited and been joined; in particular a slot is reused only after its thread was joined.
   */
  lemma MainWritesIdleSlots(s: State, tcp: bool, c: Choice, i: nat, t: nat)
    requires Reachable(s) && MainStep(s, tcp, c).Some? && i < |s.slots| == |MainStep(s, tcp, c).value.slots|
    requires MainStep(s, tcp, c).value.slots[i] != s.slots[i]
    requires t < |s.threads| && s.threads[t].slot == i
    ensures t in s.joined && s.threads[t].pc == Exited
  {
    MainWrites(s, tcp, c, i);
    hide MainStep, Run;
    ReachableIsInv(s);
    assert ThreadOk(s, t);
    assert SlotOk(s, i);
  }

  /** A worker writes only its own slot, only its `finished` field, and only holding the mutex. */
  lemma WorkerWritesUnderLock(s: State, t: nat, again: bool, i: nat)
    requires Reachable(s) && WorkerStep(s, t, again).Some? && i < |s.slots|
    requires WorkerStep(s, t, again).value.slots[i] != s.slots[i]
    ensures i == s.threads[t].slot && s.mutex == Worker(t) && !MainHolds(s.main)
    ensures WorkerStep(s, t, again).value.slots[i] == s.slots[i].(finished := true)
  {
    ReachableIsInv(s);
  }

  // ---- Shutdown ----

  /** How many steps a worker has left once the stop flag is up: at most the turn in progress. */
  function Rank(pc: WorkerPc): nat {
    match pc
    case Exited => 0
    case Log => 1
    case UnlockFinish => 2
    case SetFinished => 3
    case LockFinish => 4
    case Close => 5
    case UnlockCheck(stop) => if stop then 6 else 10
    case ReadStop => 7
    case LockCheck => 8
    case Start => 9
    case Body => 9
  }

  function MainRank(pc: MainPc, n: nat): int {
    match pc
    case StopUnlock => 3 * n + 4
    case CloseListener => 3 * n + 3
    case JoinNext(i) => 3 * (n - i) + 2
    case JoinWait(i) => 3 * (n - i) + 1
    case JoinFree(i) => 3 * (n - i)
    case Destroy => 1
    case _ => 0
  }

  function WorkLeft(threads: seq<Thread>): nat {
    if threads == [] then 0 else Rank(threads[0].pc) + WorkLeft(threads[1..])
  }

  ghost function Left(s: State): int {
    MainRank(s.main, |s.slots|) + WorkLeft(s.threads)
  }

  lemma {:induction false} WorkLeftUpdate(threads: seq<Thread>, t: nat, th: Thread)
    requires t < |threads|
    ensures WorkLeft(threads[t := th]) + Rank(threads[t].pc) == WorkLeft(threads) + Rank(th.pc)
    decreases |threads|
  {
    if t == 0 {
      assert threads[t := th][1..] == threads[1..];
    } else {
      assert threads[t := th][1..] == threads[1..][t - 1 := th];
      WorkLeftUpdate(threads[1..], t - 1, th);
    }
  }

  lemma MainDescends(s: State, tcp: bool, c: Choice)
    requires Inv(s) && s.stopping && MainStep(s, tcp, c).Some?
    ensures var r := MainStep(s, tcp, c).value;
            r.stopping && r.threads == s.threads && 0 <= MainRank(r.main, |r.slots|) < MainRank(s.main, |s.slots|)
  {
    hide ThreadsOk, SlotOk, MutexOk, FdsOk, JoinedOk;
  }

  lemma WorkerDescends(s: State, t: nat, again: bool)
    requires s.stopping && WorkerStep(s, t, again).Some?
    ensures var r := WorkerStep(s, t, again).value;
            && t < |s.threads| == |r.threads|
            && r.stopping && r.main == s.main && |r.slots| == |s.slots|
            && r.threads == s.threads[t := r.threads[t]] && Rank(r.threads[t].pc) < Rank(s.threads[t].pc)
  {
  }

  /** Once stop is published, every step of anybody brings the end closer. */
  lemma EveryStepDescends(s: State, tcp: bool, a: Action)
    requires Inv(s) && s.stopping && Step(s, tcp, a).Some?
    ensures var r := Step(s, tcp, a).value;
            Inv(r) && r.stopping && Left(r) < Left(s)
  {
    hide Inv, MainStep, WorkerStep;
    StepKeeps(s, tcp, a);
    match a
    case MainDoes(c) => MainDescends(s, tcp, c);
    case WorkerDoes(t, again) =>
      WorkerDescends(s, t, again);
      WorkLeftUpdate(s.threads, t, Step(s, tcp, a).value.threads[t]);
  }

  lemma LeftNonnegative(s: State)
    requires Inv(s)
    ensures Left(s) >= 0
  {
    hide ThreadsOk, SlotOk, MutexOk, FdsOk, JoinedOk;
  }

  /** Somebody who can move: whoever holds the mutex, else the worker main waits to join, else main. */
  ghost function Mover(s: State): Action {
    if s.mutex.Worker? then WorkerDoes(s.mutex.t, false)
    else if s.main.JoinWait? && s.main.i < |s.slots| && !HasExited(s, s.slots[s.main.i].thread)
    then WorkerDoes(s.slots[s.main.i].thread, false)
    else if s.main.ReapJoin? && !HasExited(s, s.main.t) then WorkerDoes(s.main.t, false)
    else MainDoes(Proceed)
  }

  /** A worker that holds the mutex, or that main waits to join while nobody holds it, can move. */
  lemma WorkerCanMove(s: State, t: nat)
    requires Inv(s) && t < |s.threads| && s.threads[t].pc != Exited
    requires s.mutex == Worker(t) || s.mutex == Nobody
    ensures WorkerStep(s, t, false).Some?
  {
    assert ThreadOk(s, t);
  }

  /** No deadlock: at any time until the server has returned, some thread can take a step. */
  lemma NoDeadlock(s: State, tcp: bool)
    requires Inv(s) && s.main != Done
    ensures Step(s, tcp, Mover(s)).Some?
  {
    if s.mutex.Worker? {
      WorkerCanMove(s, s.mutex.t);
    } else if s.main.JoinWait? || s.main.ReapJoin? {
      var i := s.main.i;
      var t := s.slots[i].thread;
      assert SlotOk(s, i);
      if !HasExited(s, t) {
        WorkerCanMove(s, t);
      }
    } else {
      hide ThreadsOk, SlotOk, FdsOk, JoinedOk;
    }
  }

  function Steps(actions: seq<Action>, t: nat): nat {
    if actions == [] then 0
    else
      var last := actions[|actions| - 1];
      Steps(actions[..|actions| - 1], t) + if last.WorkerDoes? && last.t == t then 1 else 0
  }

  /**
   Shutdown is bounded: from a state where stop is published, every run keeps the invariant and
   takes no more than `Left` steps in all.
   */
  lemma {:induction false} ShutdownBounded(s: State, tcp: bool, actions: seq<Action>)
    requires Inv(s) && s.stopping && Run(s, tcp, actions).Some?
    ensures var r := Run(s, tcp, actions).value;
            Inv(r) && r.stopping && 0 <= Left(r) && |actions| + Left(r) <= Left(s)
    decreases |actions|
  {
    hide Inv, Step, Left;
    if actions == [] {
      LeftNonnegative(s);
    } else {
      var k := |actions| - 1;
      ShutdownBounded(s, tcp, actions[..k]);
      EveryStepDescends(Run(s, tcp, actions[..k]).value, tcp, actions[k]);
      LeftNonnegative(Run(s, tcp, actions).value);
    }
  }

  /** No worker takes more steps than the ten of the turn in progress. */
  lemma {:induction false} WorkerShutdownBounded(s: State, tcp: bool, actions: seq<Action>, t: nat)
    requires Inv(s) && s.stopping && Run(s, tcp, actions).Some? && t < |s.threads|
    ensures var r := Run(s, tcp, actions).value;
            && |r.threads| == |s.threads|
            && Steps(actions, t) + Rank(r.threads[t].pc) <= Rank(s.threads[t].pc) <= 10
    decreases |actions|
  {
    hide Inv, Step, Left;
    if actions != [] {
      var k := |actions| - 1;
      WorkerShutdownBounded(s, tcp, actions[..k], t);
      ShutdownBounded(s, tcp, actions[..k]);
      OneStepRank(Run(s, tcp, actions[..k]).value, tcp, actions[k], t);
    }
  }

  lemma OneStepRank(s: State, tcp: bool, a: Action, t: nat)
    requires Inv(s) && s.stopping && Step(s, tcp, a).Some? && t < |s.threads|
    ensures var r := Step(s, tcp, a).value;
            && |r.threads| == |s.threads|
            && Rank(r.threads[t].pc) + (if a.WorkerDoes? && a.t == t then 1 else 0) <= Rank(s.threads[t].pc)
  {
    hide Inv, MainStep, WorkerStep;
    match a
    case MainDoes(c) => MainDescends(s, tcp, c);
    case WorkerDoes(u, again) => WorkerDescends(s, u, again);
  }

  /**
   Shutdown completes: a run from a state where stop is published that cannot be continued has
   returned, with every thread joined and every connection closed.
   */
  lemma ShutdownCompletes(s: State, tcp: bool, actions: seq<Action>)
    requires Inv(s) && s.stopping && Run(s, tcp, actions).Some?
    requires forall a :: Step(Run(s, tcp, actions).value, tcp, a).None?
    ensures var r := Run(s, tcp, actions).value;
            && r.main == Done && NoneInUse(r, |r.slots|)
            && (forall t :: 0 <= t < |r.threads| ==> t in r.joined && r.threads[t].pc == Exited)
            && (forall conn: nat :: conn < r.accepted ==> conn in r.closed)
  {
    hide Step;
    var r := Run(s, tcp, actions).value;
    ShutdownBounded(s, tcp, actions);
    if r.main != Done {
      NoDeadlock(r, tcp);
    }
    SlotsEmptied(r);
    AllClosed(r);
  }
}
