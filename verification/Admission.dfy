/**
 What the threaded servers do for a connection, and why they stop: how main comes to start a worker
 for it, when it is turned away instead, when a worker ends, and what a pass of reaping does.
 */
module Admission {
  import opened Base
  import opened Workers

  // ---- Main alone, when every call of its succeeds ----

  function Proceeds(n: nat): (actions: seq<Action>)
    ensures |actions| == n
  {
    seq(n, _ => MainDoes(Proceed))
  }

  lemma {:induction false} RunConcat(s: State, tcp: bool, a: seq<Action>, b: seq<Action>)
    ensures Run(s, tcp, a + b) == if Run(s, tcp, a).None? then None else Run(Run(s, tcp, a).value, tcp, b)
    decreases |b|
  {
    hide Step;
    if b == [] {
      assert a + b == a;
    } else {
      var n := |b| - 1;
      assert (a + b)[..|a + b| - 1] == a + b[..n];
      RunConcat(s, tcp, a, b[..n]);
    }
  }

  lemma RunOne(s: State, tcp: bool, a: Action)
    ensures Run(s, tcp, [a]) == Step(s, tcp, a)
  {
    hide Step;
    assert [a][..0] == [];
  }

  /** One step and then the rest of a run. */
  lemma StepThen(s: State, tcp: bool, n: nat)
    requires Step(s, tcp, MainDoes(Proceed)).Some?
    ensures Run(s, tcp, Proceeds(n + 1)) == Run(Step(s, tcp, MainDoes(Proceed)).value, tcp, Proceeds(n))
  {
    hide Step, Run;
    RunOne(s, tcp, MainDoes(Proceed));
    RunConcat(s, tcp, [MainDoes(Proceed)], Proceeds(n));
    assert [MainDoes(Proceed)] + Proceeds(n) == Proceeds(n + 1);
  }

  ghost predicate FirstFree(s: State, i: nat) {
    i < |s.slots| && !s.slots[i].inUse && forall j :: 0 <= j < i ==> s.slots[j].inUse
  }

  /** One more worker, in slot `i`, for the connection that `fd` names. */
  ghost function Started(s: State, i: nat, fd: int, conn: nat): State
    requires i < |s.slots|
  {
    s.(threads := s.threads + [Thread(i, NO_FD, conn, Start)],
       slots := s.slots[i := Slot(true, false, fd, |s.threads|)], main := Accept)
  }

  lemma CreateStarts(s: State, tcp: bool, i: nat, fd: int, conn: nat)
    requires s.main == Scan(i, fd, conn) && i < |s.slots| && !s.slots[i].inUse
    ensures Run(s, tcp, Proceeds(2)) == Some(Started(s, i, fd, conn))
  {
    hide Run;
    var r := Step(s, tcp, MainDoes(Proceed)).value;
    assert r == s.(slots := s.slots[i := Slot(true, false, fd, s.slots[i].thread)], main := Create(i, fd, conn));
    var t := Step(r, tcp, MainDoes(Proceed)).value;
    assert t.slots == s.slots[i := Slot(true, false, fd, |s.threads|)];
    assert t == Started(s, i, fd, conn);
    StepThen(s, tcp, 1);
    StepThen(r, tcp, 0);
    RunNone(t, tcp);
  }

  lemma RunNone(s: State, tcp: bool)
    ensures Run(s, tcp, Proceeds(0)) == Some(s)
  {
  }

  /** From any slot at or before the first free one, the scan finds it and starts a worker there. */
  lemma {:induction false} ScanStarts(s: State, tcp: bool, j: nat, i: nat, fd: int, conn: nat)
    requires s.main == Scan(j, fd, conn) && j <= i && FirstFree(s, i)
    ensures Run(s, tcp, Proceeds(i - j + 2)) == Some(Started(s, i, fd, conn))
    decreases i - j
  {
    hide Run;
    if j == i {
      CreateStarts(s, tcp, i, fd, conn);
    } else {
      var r := Step(s, tcp, MainDoes(Proceed)).value;
      assert r == s.(main := Scan(j + 1, fd, conn));
      ScanStarts(r, tcp, j + 1, i, fd, conn);
      StepThen(s, tcp, i - j + 1);
    }
  }

  /** A connection admitted while a slot is free gets a worker in the first free slot. */
  lemma AdmitStarts(s: State, tcp: bool, i: nat)
    requires s.main.Admit? && FirstFree(s, i)
    ensures Run(s, tcp, Proceeds(i + 3)) == Some(Started(s, i, s.main.fd, s.main.conn))
  {
    hide Run;
    var r := Step(s, tcp, MainDoes(Proceed)).value;
    assert r == s.(main := Scan(0, s.main.fd, s.main.conn));
    ScanStarts(r, tcp, 0, i, s.main.fd, s.main.conn);
    StepThen(s, tcp, i + 2);
  }

  ghost predicate NoneFinished(s: State) {
    forall i :: 0 <= i < |s.slots| ==> !(s.slots[i].inUse && s.slots[i].finished)
  }

  lemma ReapOne(s: State, tcp: bool, j: nat, after: After)
    requires s.main == ReapLock(j, after) && j < |s.slots| && s.mutex == Nobody && NoneFinished(s)
    ensures Run(s, tcp, Proceeds(3)) == Some(s.(main := ReapNext(s, j, after)))
  {
    hide Run;
    var a := Step(s, tcp, MainDoes(Proceed)).value;
    assert a == s.(main := ReapCheck(j, after), mutex := Main);
    var b := Step(a, tcp, MainDoes(Proceed)).value;
    assert b == a.(main := ReapUnlock(j, after, None));
    var c := Step(b, tcp, MainDoes(Proceed)).value;
    assert c == s.(main := ReapNext(s, j, after));
    StepThen(s, tcp, 2);
    StepThen(a, tcp, 1);
    StepThen(b, tcp, 0);
    RunNone(c, tcp);
  }

  /** With nothing to reap, a pass goes by. */
  lemma {:induction false} ReapIdle(s: State, tcp: bool, j: nat, after: After)
    requires s.main == ReapLock(j, after) && j < |s.slots| && s.mutex == Nobody && NoneFinished(s)
    ensures Run(s, tcp, Proceeds(3 * (|s.slots| - j))) == Some(s.(main := AfterReap(after)))
    decreases |s.slots| - j
  {
    hide Run;
    var n := |s.slots| - j;
    ReapOne(s, tcp, j, after);
    if n > 1 {
      ReapIdle(s.(main := ReapLock(j + 1, after)), tcp, j + 1, after);
      RunConcat(s, tcp, Proceeds(3), Proceeds(3 * (n - 1)));
      assert Proceeds(3) + Proceeds(3 * (n - 1)) == Proceeds(3 * n);
    }
  }

  /** From the loop head, main polls; a connection that comes in then is accepted and, in time, admitted. */
  lemma ReachesAccept(s: State, tcp: bool)
    requires s.main == LoopHead && s.mutex == Nobody && NoneFinished(s) && |s.slots| > 0
    ensures Run(s, tcp, Proceeds(3 * |s.slots| + 2)) == Some(s.(main := Accept))
  {
    hide Run;
    var n := 3 * |s.slots|;
    var a := Step(s, tcp, MainDoes(Proceed)).value;
    assert a == s.(main := ReapLock(0, ToPoll));
    ReapIdle(a, tcp, 0, ToPoll);
    var b := s.(main := Poll);
    var c := Step(b, tcp, MainDoes(Proceed)).value;
    assert c == s.(main := Accept);
    StepThen(b, tcp, 0);
    RunNone(c, tcp);
    RunConcat(a, tcp, Proceeds(n), Proceeds(1));
    assert Proceeds(n) + Proceeds(1) == Proceeds(n + 1);
    StepThen(s, tcp, n + 1);
  }

  lemma ReachesAdmit(s: State, tcp: bool, fd: int)
    requires s.main == Accept && s.mutex == Nobody && NoneFinished(s) && |s.slots| > 0 && fd >= 0 && fd !in s.open
    ensures Run(s, tcp, [MainDoes(Incoming(fd))] + Proceeds(if tcp then 3 * |s.slots| else 0))
         == Some(s.(open := s.open[fd := s.accepted], accepted := s.accepted + 1, main := Admit(fd, s.accepted)))
  {
    hide Run;
    var a := Step(s, tcp, MainDoes(Incoming(fd))).value;
    var came := s.(open := s.open[fd := s.accepted], accepted := s.accepted + 1);
    assert a == came.(main := if tcp then ReapLock(0, ToAdmit(fd, s.accepted)) else Admit(fd, s.accepted));
    RunOne(s, tcp, MainDoes(Incoming(fd)));
    RunConcat(s, tcp, [MainDoes(Incoming(fd))], Proceeds(if tcp then 3 * |s.slots| else 0));
    if tcp {
      ReapIdle(a, tcp, 0, ToAdmit(fd, s.accepted));
    } else {
      RunNone(a, tcp);
    }
  }

  /** The steps main takes for a connection that comes in as `fd`, `i` being the first free of `n` slots. */
  function ServiceSteps(n: nat, tcp: bool, fd: int, i: nat): seq<Action> {
    Proceeds(3 * n + 2) + ([MainDoes(Incoming(fd))] + Proceeds(if tcp then 3 * n else 0)) + Proceeds(i + 3)
  }

  /** From the loop head to a worker: a connection that comes in while a slot is free is served. */
  lemma ConnectionStarts(s: State, tcp: bool, fd: int, i: nat)
    requires s.main == LoopHead && s.mutex == Nobody && NoneFinished(s) && FirstFree(s, i)
    requires fd >= 0 && fd !in s.open
    ensures Run(s, tcp, ServiceSteps(|s.slots|, tcp, fd, i))
         == Some(Started(s.(open := s.open[fd := s.accepted], accepted := s.accepted + 1), i, fd, s.accepted))
  {
    hide Run, Step;
    var n := |s.slots|;
    var first, second := Proceeds(3 * n + 2), [MainDoes(Incoming(fd))] + Proceeds(if tcp then 3 * n else 0);
    ReachesAccept(s, tcp);
    var a := s.(main := Accept);
    ReachesAdmit(a, tcp, fd);
    RunConcat(s, tcp, first, second);
    var b := a.(open := a.open[fd := a.accepted], accepted := a.accepted + 1, main := Admit(fd, a.accepted));
    AdmitStarts(b, tcp, i);
    RunConcat(s, tcp, first + second, Proceeds(i + 3));
  }

  // ---- Causes, over runs ----

  /** The state after the first `k` steps of a run. */
  ghost function At(n: nat, tcp: bool, actions: seq<Action>, k: nat): Option<State>
    requires k <= |actions|
  {
    Run(Initial(n), tcp, actions[..k])
  }

  /** Main turns the connection away: it stayed blocking, no thread could be created, or no slot was free. */
  ghost predicate TurnsAway(s: State, a: Action, conn: nat) {
    && a.MainDoes?
    && (|| (s.main.Admit? && s.main.conn == conn && a.choice != Proceed)
        || (s.main.Create? && s.main.conn == conn && a.choice != Proceed)
        || (s.main.Scan? && s.main.conn == conn && s.main.i == |s.slots| && AllInUse(s, |s.slots|)))
  }

  ghost predicate TurnedAway(n: nat, tcp: bool, actions: seq<Action>, conn: nat) {
    exists k :: 0 <= k < |actions| && At(n, tcp, actions, k).Some?
                && TurnsAway(At(n, tcp, actions, k).value, actions[k], conn)
  }

  /** The connection was closed without a worker, or is about to be. */
  ghost predicate Unserved(s: State, conn: nat) {
    || (conn in s.closed && !Handed(s, conn))
    || ((s.main.Undo? || s.main.Reject?) && s.main.conn == conn)
  }

  lemma WorkerServes(s: State, t: nat, again: bool, conn: nat)
    requires Inv(s) && WorkerStep(s, t, again).Some? && Unserved(WorkerStep(s, t, again).value, conn)
    ensures Unserved(s, conn)
  {
    var r := WorkerStep(s, t, again).value;
    WorkerStepMoves(s, t, again);
    WorkerStepWrites(s, t, again);
    OwnSlot(s, t);
    assert ThreadOk(s, t);
    hide WorkerStep;
    SameHanded(s, r);
    assert Handed(s, s.threads[t].conn);
    hide ThreadOk, MainOk, MutexOk;
  }

  lemma ReapEffects(s: State)
    requires ReapStep(s).Some?
    ensures ReapStep(s).value.threads == s.threads && ReapStep(s).value.closed == s.closed
  {
  }

  lemma JoinAllEffects(s: State)
    requires JoinAllStep(s).Some?
    ensures JoinAllStep(s).value.threads == s.threads && JoinAllStep(s).value.closed == s.closed
  {
  }

  lemma StartEffects(s: State, c: Choice)
    requires StartStep(s, c).Some?
    ensures var r := StartStep(s, c).value;
            && s.threads <= r.threads && r.closed == s.closed
            && forall t :: |s.threads| <= t < |r.threads| ==> r.threads[t].pc == Start
  {
  }

  lemma AcceptEffects(s: State, tcp: bool, c: Choice)
    requires AcceptStep(s, tcp, c).Some?
    ensures var r := AcceptStep(s, tcp, c).value;
            && r.threads == s.threads
            && (s.main.Reject? ==> r == CloseFd(s, s.main.fd).(main := Accept))
            && (!s.main.Reject? ==> r.closed == s.closed)
  {
  }

  /** Main's steps only add threads, and close nothing but a connection being rejected. */
  lemma MainEffects(s: State, tcp: bool, c: Choice)
    requires MainStep(s, tcp, c).Some?
    ensures var r := MainStep(s, tcp, c).value;
            && s.threads <= r.threads && (forall t :: |s.threads| <= t < |r.threads| ==> r.threads[t].pc == Start)
            && (s.main.Reject? ==> r == CloseFd(s, s.main.fd).(main := Accept))
            && (!s.main.Reject? ==> r.closed == s.closed)
  {
    hide ReapStep, JoinAllStep, StartStep, AcceptStep, CloseFd;
    if Reaping(s.main) {
      ReapEffects(s);
    } else if Joining(s.main) {
      JoinAllEffects(s);
    } else if Starting(s.main) {
      StartEffects(s, c);
    } else if !Stopping(s.main) && s.main != LoopHead && s.main != Poll {
      AcceptEffects(s, tcp, c);
    }
  }

  /** Main gives up on a connection only when it turns it away. */
  lemma MainGivesUp(s: State, tcp: bool, c: Choice)
    requires PcOk(s) && MainStep(s, tcp, c).Some?
    ensures var r := MainStep(s, tcp, c).value;
            r.main.Undo? || r.main.Reject? ==>
              || ((s.main.Undo? || s.main.Reject?) && s.main.conn == r.main.conn)
              || TurnsAway(s, MainDoes(c), r.main.conn)
  {
    hide Freed, CloseFd;
    if Reaping(s.main) {
      hide StopStep, JoinAllStep, StartStep, AcceptStep;
    } else if Joining(s.main) {
      hide StopStep, ReapStep, StartStep, AcceptStep;
    } else if Starting(s.main) {
      hide StopStep, ReapStep, JoinAllStep, AcceptStep;
    } else {
      hide ReapStep, JoinAllStep, StartStep;
    }
  }

  lemma MainTurnsAway(s: State, tcp: bool, c: Choice, conn: nat)
    requires Inv(s) && MainStep(s, tcp, c).Some? && Unserved(MainStep(s, tcp, c).value, conn)
    ensures Unserved(s, conn) || TurnsAway(s, MainDoes(c), conn)
  {
    MainEffects(s, tcp, c);
    MainGivesUp(s, tcp, c);
    hide MainStep, ThreadsOk, SlotOk, MutexOk, JoinedOk, PcOk;
    var r := MainStep(s, tcp, c).value;
    if Handed(s, conn) {
      var t :| 0 <= t < |s.threads| && s.threads[t].conn == conn;
      assert r.threads[t].conn == conn;
    }
  }

  /**
   A connection that is closed without ever having had a worker was turned away: it could not be made
   nonblocking, no thread could be created for it, or every slot was in use when it was its turn.
   */
  lemma {:induction false} TurnedAwayForCause(n: nat, tcp: bool, actions: seq<Action>, conn: nat)
    requires Run(Initial(n), tcp, actions).Some? && Unserved(Run(Initial(n), tcp, actions).value, conn)
    ensures TurnedAway(n, tcp, actions, conn)
    decreases |actions|
  {
    hide Unserved, TurnsAway, Step, Inv;
    if actions == [] {
      NothingUnserved(n, conn);
    } else {
      var k := |actions| - 1;
      var s := Run(Initial(n), tcp, actions[..k]).value;
      ReachableInv(n, tcp, actions[..k]);
      StepTurnsAway(s, tcp, actions[k], conn);
      if Unserved(s, conn) {
        TurnedAwayForCause(n, tcp, actions[..k], conn);
        var j :| 0 <= j < k && At(n, tcp, actions[..k], j).Some?
                 && TurnsAway(At(n, tcp, actions[..k], j).value, actions[..k][j], conn);
        assert actions[..k][..j] == actions[..j];
        assert At(n, tcp, actions, j).Some? && TurnsAway(At(n, tcp, actions, j).value, actions[j], conn);
      } else {
        assert At(n, tcp, actions, k).Some? && TurnsAway(At(n, tcp, actions, k).value, actions[k], conn);
      }
    }
  }

  lemma NothingUnserved(n: nat, conn: nat)
    ensures !Unserved(Initial(n), conn)
  {
  }

  lemma StepTurnsAway(s: State, tcp: bool, a: Action, conn: nat)
    requires Inv(s) && Step(s, tcp, a).Some? && Unserved(Step(s, tcp, a).value, conn)
    ensures Unserved(s, conn) || TurnsAway(s, a, conn)
  {
    hide Unserved, TurnsAway, Inv, MainStep, WorkerStep;
    match a
    case MainDoes(c) => MainTurnsAway(s, tcp, c, conn);
    case WorkerDoes(t, again) => WorkerServes(s, t, again, conn);
  }

  // ---- Why the server stops ----

  /** The stop flag is seen, poll fails, or the listener reports an error. */
  ghost predicate ToldToStop(s: State, a: Action) {
    && a.MainDoes?
    && (|| (s.main == LoopHead && a.choice != Proceed)
        || (s.main == Poll && a.choice != Proceed && a.choice != Alternate)
        || (s.main == Accept && a.choice == Break))
  }

  ghost predicate ShuttingDown(s: State) {
    s.stopping || Stopping(s.main) || Joining(s.main)
  }

  lemma ReapGoesOn(s: State)
    requires ReapStep(s).Some?
    ensures var r := ReapStep(s).value;
            r.stopping == s.stopping && (Reaping(r.main) || r.main.Poll? || r.main.Admit?) && Reaping(s.main)
  {
  }

  lemma StartGoesOn(s: State, c: Choice)
    requires StartStep(s, c).Some?
    ensures var r := StartStep(s, c).value;
            r.stopping == s.stopping && (Starting(r.main) || r.main.Accept? || r.main.Reject?)
  {
  }

  lemma AcceptGoesOn(s: State, tcp: bool, c: Choice)
    requires AcceptStep(s, tcp, c).Some?
    ensures var r := AcceptStep(s, tcp, c).value;
            && r.stopping == s.stopping
            && (Stopping(r.main) || Joining(r.main) ==> ToldToStop(s, MainDoes(c)))
  {
  }

  lemma StepStops(s: State, tcp: bool, a: Action)
    requires Inv(s) && Step(s, tcp, a).Some? && ShuttingDown(Step(s, tcp, a).value)
    ensures ShuttingDown(s) || ToldToStop(s, a)
  {
    hide Inv, WorkerStep, ReapStep, StopStep, JoinAllStep, StartStep, AcceptStep;
    if a.WorkerDoes? {
      WorkerStepMoves(s, a.t, a.again);
    } else if Reaping(s.main) {
      ReapGoesOn(s);
    } else if Starting(s.main) {
      StartGoesOn(s, a.choice);
    } else if !Stopping(s.main) && !Joining(s.main) && s.main != LoopHead && s.main != Poll {
      AcceptGoesOn(s, tcp, a.choice);
    }
  }

  /** The server shuts down only when it was told to. */
  lemma {:induction false} StopsForCause(n: nat, tcp: bool, actions: seq<Action>)
    requires Run(Initial(n), tcp, actions).Some? && ShuttingDown(Run(Initial(n), tcp, actions).value)
    ensures exists k :: 0 <= k < |actions| && At(n, tcp, actions, k).Some?
                        && ToldToStop(At(n, tcp, actions, k).value, actions[k])
    decreases |actions|
  {
    hide Step, Inv, ToldToStop;
    var k := |actions| - 1;
    var s := Run(Initial(n), tcp, actions[..k]).value;
    ReachableInv(n, tcp, actions[..k]);
    StepStops(s, tcp, actions[k]);
    if ShuttingDown(s) {
      StopsForCause(n, tcp, actions[..k]);
      var j :| 0 <= j < k && At(n, tcp, actions[..k], j).Some?
               && ToldToStop(At(n, tcp, actions[..k], j).value, actions[..k][j]);
      assert actions[..k][..j] == actions[..j];
      assert At(n, tcp, actions, j).Some? && ToldToStop(At(n, tcp, actions, j).value, actions[j]);
    } else {
      assert At(n, tcp, actions, k).Some? && ToldToStop(At(n, tcp, actions, k).value, actions[k]);
    }
  }

  // ---- Why a worker ends ----

  /** The worker is on its way out: it saw the stop flag, or has left its session. */
  ghost predicate Leaving(s: State, t: nat) {
    t < |s.threads| && (var pc := s.threads[t].pc; pc == UnlockCheck(true) || pc == Close || PastClose(pc))
  }

  /** The session of worker `t` ends with this step. */
  ghost predicate SessionEnds(s: State, a: Action, t: nat) {
    a == WorkerDoes(t, false) && t < |s.threads| && s.threads[t].pc == Body
  }

  lemma WorkerLeaves(s: State, u: nat, again: bool, t: nat)
    requires WorkerStep(s, u, again).Some? && Leaving(WorkerStep(s, u, again).value, t)
    ensures s.stopping || Leaving(s, t) || SessionEnds(s, WorkerDoes(u, again), t)
    ensures WorkerStep(s, u, again).value.stopping == s.stopping
  {
    WorkerStepMoves(s, u, again);
  }

  lemma MainStaysStopped(s: State, tcp: bool, c: Choice)
    requires Inv(s) && s.stopping && MainStep(s, tcp, c).Some?
    ensures MainStep(s, tcp, c).value.stopping
  {
    hide ThreadsOk, SlotOk, MutexOk, FdsOk, JoinedOk, ReapStep, StartStep, AcceptStep;
  }

  lemma StepLeaves(s: State, tcp: bool, a: Action, t: nat)
    requires Inv(s) && Step(s, tcp, a).Some? && Leaving(Step(s, tcp, a).value, t)
    ensures Step(s, tcp, a).value.stopping || Leaving(s, t) || SessionEnds(s, a, t)
    ensures s.stopping ==> Step(s, tcp, a).value.stopping
  {
    hide Inv, MainStep, WorkerStep;
    match a
    case MainDoes(c) =>
      MainEffects(s, tcp, c);
      if s.stopping {
        MainStaysStopped(s, tcp, c);
      }
    case WorkerDoes(u, again) => WorkerLeaves(s, u, again, t);
  }

  /** A worker closes its connection only when stop was published or its session ended. */
  lemma {:induction false} WorkerLeavesForCause(n: nat, tcp: bool, actions: seq<Action>, t: nat)
    requires Run(Initial(n), tcp, actions).Some? && Leaving(Run(Initial(n), tcp, actions).value, t)
    ensures Run(Initial(n), tcp, actions).value.stopping
            || exists k :: 0 <= k < |actions| && At(n, tcp, actions, k).Some?
                           && SessionEnds(At(n, tcp, actions, k).value, actions[k], t)
    decreases |actions|
  {
    hide Step, Inv, SessionEnds;
    var k := |actions| - 1;
    var s := Run(Initial(n), tcp, actions[..k]).value;
    ReachableInv(n, tcp, actions[..k]);
    StepLeaves(s, tcp, actions[k], t);
    if Leaving(s, t) {
      WorkerLeavesForCause(n, tcp, actions[..k], t);
      if j :| 0 <= j < k && At(n, tcp, actions[..k], j).Some?
              && SessionEnds(At(n, tcp, actions[..k], j).value, actions[..k][j], t) {
        assert actions[..k][..j] == actions[..j];
        assert At(n, tcp, actions, j).Some? && SessionEnds(At(n, tcp, actions, j).value, actions[j], t);
      }
    } else if SessionEnds(s, actions[k], t) {
      assert At(n, tcp, actions, k).Some? && SessionEnds(At(n, tcp, actions, k).value, actions[k], t);
    }
  }

  // ---- What reaping does ----

  ghost predicate Finished(s: State, i: nat) {
    i < |s.slots| && s.slots[i].inUse && s.slots[i].finished
  }

  /** In a pass of reaping: a slot found finished is still so until its turn, and free after it. */
  ghost predicate Passing(s: State, i: nat, after: After) {
    && i < |s.slots|
    && match s.main
       case ReapLock(j, a) => a == after && if j <= i then Finished(s, i) else !s.slots[i].inUse
       case ReapCheck(j, a) => a == after && if j <= i then Finished(s, i) else !s.slots[i].inUse
       case ReapUnlock(j, a, join) =>
         a == after && (j == i ==> join.Some?) && if j <= i then Finished(s, i) else !s.slots[i].inUse
       case ReapJoin(j, a, _) => a == after && if j <= i then Finished(s, i) else !s.slots[i].inUse
       case ReapFree(j, a) => a == after && if j <= i then Finished(s, i) else !s.slots[i].inUse
       case _ => s.main == AfterReap(after) && !s.slots[i].inUse
  }

  lemma WorkerPasses(s: State, t: nat, again: bool, i: nat, after: After)
    requires Reaping(s.main) && Passing(s, i, after) && WorkerStep(s, t, again).Some?
    ensures Passing(WorkerStep(s, t, again).value, i, after)
  {
    WorkerStepMoves(s, t, again);
    WorkerStepWrites(s, t, again);
    hide WorkerStep, CloseFd, PastClose, PastFinish;
  }

  lemma ReapPasses(s: State, i: nat, after: After)
    requires Passing(s, i, after) && ReapStep(s).Some?
    ensures Passing(ReapStep(s).value, i, after)
  {
  }

  lemma StepPasses(s: State, tcp: bool, a: Action, i: nat, after: After)
    requires Reaping(s.main) && Passing(s, i, after) && Step(s, tcp, a).Some?
    ensures Passing(Step(s, tcp, a).value, i, after)
  {
    hide Passing, WorkerStep, ReapStep, StopStep, JoinAllStep, StartStep, AcceptStep;
    match a
    case MainDoes(_) => ReapPasses(s, i, after);
    case WorkerDoes(t, again) => WorkerPasses(s, t, again, i, after);
  }

  /** Main stays in the pass up to the last step of the run. */
  ghost predicate WithinPass(s: State, tcp: bool, actions: seq<Action>) {
    forall k :: 0 <= k < |actions| ==>
      Run(s, tcp, actions[..k]).Some? && Reaping(Run(s, tcp, actions[..k]).value.main)
  }

  lemma {:induction false} RunPasses(s: State, tcp: bool, actions: seq<Action>, i: nat, after: After)
    requires Inv(s) && s.main == ReapLock(0, after) && Finished(s, i)
    requires Run(s, tcp, actions).Some? && WithinPass(s, tcp, actions)
    ensures Inv(Run(s, tcp, actions).value) && Passing(Run(s, tcp, actions).value, i, after)
    decreases |actions|
  {
    hide Inv, Step;
    if actions != [] {
      var k := |actions| - 1;
      assert forall j :: 0 <= j < k ==> actions[..k][..j] == actions[..j];
      hide Passing;
      RunPasses(s, tcp, actions[..k], i, after);
      var m := Run(s, tcp, actions[..k]).value;
      StepKeeps(m, tcp, actions[k]);
      StepPasses(m, tcp, actions[k], i, after);
    }
  }

  /** A complete pass of reaping, however it is interleaved, frees every slot that was finished when it began. */
  lemma PassFreesFinished(s: State, tcp: bool, actions: seq<Action>, i: nat, after: After)
    requires Inv(s) && s.main == ReapLock(0, after) && Finished(s, i)
    requires Run(s, tcp, actions).Some? && WithinPass(s, tcp, actions)
    requires Run(s, tcp, actions).value.main == AfterReap(after)
    ensures i < |Run(s, tcp, actions).value.slots| && !Run(s, tcp, actions).value.slots[i].inUse
  {
    hide Inv, Step, Run, WithinPass;
    RunPasses(s, tcp, actions, i, after);
  }

  // ---- One worker alone ----

  function WorkerSteps(t: nat, n: nat): (actions: seq<Action>)
    ensures |actions| == n
  {
    seq(n, _ => WorkerDoes(t, false))
  }

  lemma WorkerThen(s: State, tcp: bool, t: nat, n: nat)
    requires WorkerStep(s, t, false).Some?
    ensures Run(s, tcp, WorkerSteps(t, n + 1)) == Run(WorkerStep(s, t, false).value, tcp, WorkerSteps(t, n))
  {
    hide WorkerStep, Run;
    RunOne(s, tcp, WorkerDoes(t, false));
    RunConcat(s, tcp, [WorkerDoes(t, false)], WorkerSteps(t, n));
    assert [WorkerDoes(t, false)] + WorkerSteps(t, n) == WorkerSteps(t, n + 1);
  }

  /** Where a worker stands after `n` steps of its own, the flags and the mutex being as they are. */
  lemma WorkerMoves1(s: State, t: nat)
    requires CanMove(s, t)
    ensures WorkerStep(s, t, false).Some?
    ensures var r := WorkerStep(s, t, false).value;
            && t < |r.threads| == |s.threads| && |r.slots| == |s.slots| && r.stopping == s.stopping
            && r.threads[t].pc == NextPc(s.threads[t].pc, s.stopping, false) && r.threads[t].slot == s.threads[t].slot
            && r.mutex == NextMutex(s.mutex, t, s.threads[t].pc)
            && (r.slots[r.threads[t].slot].finished
                <==> s.slots[s.threads[t].slot].finished || s.threads[t].pc == SetFinished)
  {
    hide NextPc, NextMutex;
  }

  /** A worker that finds the mutex free and no stop published gets to another turn of its session. */
  lemma WorkerServesTurn(s: State, tcp: bool, t: nat)
    requires t < |s.threads| && s.threads[t].slot < |s.slots| && s.threads[t].pc == LockCheck
    requires s.mutex == Nobody && !s.stopping
    ensures var r := Run(s, tcp, WorkerSteps(t, 3));
            r.Some? && t < |r.value.threads| && r.value.threads[t].pc == Body && r.value.mutex == Nobody
  {
    hide WorkerStep, Run;
    WorkerMoves1(s, t);
    var a := WorkerStep(s, t, false).value;
    WorkerMoves1(a, t);
    var b := WorkerStep(a, t, false).value;
    WorkerMoves1(b, t);
    var c := WorkerStep(b, t, false).value;
    WorkerThen(s, tcp, t, 2);
    WorkerThen(a, tcp, t, 1);
    WorkerThen(b, tcp, t, 0);
    NoWorkerSteps(c, tcp, t);
  }

  lemma NoWorkerSteps(s: State, tcp: bool, t: nat)
    ensures Run(s, tcp, WorkerSteps(t, 0)) == Some(s)
  {
  }

  /** A worker whose session ends, finding the mutex free, exits with its slot marked finished. */
  lemma WorkerFinishes(s: State, tcp: bool, t: nat)
    requires t < |s.threads| && s.threads[t].slot < |s.slots| && s.threads[t].pc == Body && s.mutex == Nobody
    ensures var r := Run(s, tcp, WorkerSteps(t, 6));
            && r.Some? && t < |r.value.threads| && r.value.threads[t].pc == Exited && r.value.mutex == Nobody
            && r.value.threads[t].slot < |r.value.slots| && r.value.slots[r.value.threads[t].slot].finished
  {
    hide WorkerStep, Run;
    WorkerMoves1(s, t);
    var a := WorkerStep(s, t, false).value;
    WorkerMoves1(a, t);
    var b := WorkerStep(a, t, false).value;
    WorkerMoves1(b, t);
    var c := WorkerStep(b, t, false).value;
    WorkerMoves1(c, t);
    var d := WorkerStep(c, t, false).value;
    WorkerMoves1(d, t);
    var e := WorkerStep(d, t, false).value;
    WorkerMoves1(e, t);
    var f := WorkerStep(e, t, false).value;
    WorkerThen(s, tcp, t, 5);
    WorkerThen(a, tcp, t, 4);
    WorkerThen(b, tcp, t, 3);
    WorkerThen(c, tcp, t, 2);
    WorkerThen(d, tcp, t, 1);
    WorkerThen(e, tcp, t, 0);
    NoWorkerSteps(f, tcp, t);
  }
}
