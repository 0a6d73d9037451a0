/**
 The worker lifecycle shared by src/server_tcp.c and src/server_uds_threaded.c, as a system of
 interleaved steps: one main thread and any number of worker threads, the slot table, the mutex,
 the stop flag and the kernel's descriptor table. A step is what a thread does between two points
 where another may run. Locks and joins succeed when they return, as the source assumes.

 Descriptor numbers are reused as soon as they are closed, so accepted connections are numbered:
 `open` says which connection a descriptor number names now. Slots keep descriptor numbers, which
 may by then name somebody else's connection.
 */
module Workers {
  import opened Base

  const NO_FD: int := -1

  /** The fields of one slot of the worker table. */
  datatype Slot = Slot(inUse: bool, finished: bool, clientFd: int, thread: nat)

  /** Where a worker stands. It holds the mutex from ReadStop and from SetFinished until it unlocks. */
  datatype WorkerPc =
    | Start | LockCheck | ReadStop | UnlockCheck(stop: bool) | Body
    | Close | LockFinish | SetFinished | UnlockFinish | Log | Exited

  /** A worker: its slot, its local copy of the descriptor, and the connection handed to it. */
  datatype Thread = Thread(slot: nat, fd: int, conn: nat, pc: WorkerPc)

  /** What follows a pass of reaping: polling, or admitting a connection just accepted. */
  datatype After = ToPoll | ToAdmit(fd: int, conn: nat)

  datatype MainPc =
    | LoopHead
    | ReapLock(i: nat, after: After) | ReapCheck(i: nat, after: After)
    | ReapUnlock(i: nat, after: After, join: Option<nat>) | ReapJoin(i: nat, after: After, t: nat)
    | ReapFree(i: nat, after: After)
    | Poll | Accept
    | Admit(fd: int, conn: nat) | Scan(i: nat, fd: int, conn: nat) | Create(i: nat, fd: int, conn: nat)
    | Undo(i: nat, fd: int, conn: nat) | Reject(fd: int, conn: nat)
    | StopLock | StopSet | StopUnlock | CloseListener
    | JoinNext(i: nat) | JoinWait(i: nat) | JoinFree(i: nat)
    | Destroy | Done

  datatype Holder = Nobody | Main | Worker(t: nat)

  datatype State = State(
    slots: seq<Slot>, threads: seq<Thread>, mutex: Holder, stopping: bool, main: MainPc,
    open: map<int, nat>, accepted: nat,
    closed: seq<nat>,        // connections in the order their descriptors were closed
    joined: seq<nat>,        // threads in the order they were joined
    badClose: bool)          // some close named a descriptor that was not open

  /** What the outside decides for a step of the main thread. */
  datatype Choice = Proceed | Alternate | Break | Incoming(fd: int)

  datatype Action = MainDoes(choice: Choice) | WorkerDoes(t: nat, again: bool)

  function Initial(slots: nat): State {
    State(seq(slots, _ => Slot(false, false, NO_FD, 0)), [], Nobody, false, LoopHead, map[], 0, [], [], false)
  }

  // ---- Steps ----

  function CloseFd(s: State, fd: int): State {
    if fd in s.open then s.(open := s.open - {fd}, closed := s.closed + [s.open[fd]])
    else s.(badClose := true)
  }

  function Goto(s: State, pc: MainPc): State {
    s.(main := pc)
  }

  function AfterReap(after: After): MainPc {
    match after case ToPoll => Poll case ToAdmit(fd, conn) => Admit(fd, conn)
  }

  function ReapNext(s: State, i: nat, after: After): MainPc {
    if i + 1 < |s.slots| then ReapLock(i + 1, after) else AfterReap(after)
  }

  function BeginReap(s: State, after: After): MainPc {
    if 0 < |s.slots| then ReapLock(0, after) else AfterReap(after)
  }

  predicate HasExited(s: State, t: nat) {
    t < |s.threads| && s.threads[t].pc == Exited
  }

  predicate Reaping(pc: MainPc) {
    pc.ReapLock? || pc.ReapCheck? || pc.ReapUnlock? || pc.ReapJoin? || pc.ReapFree?
  }

  predicate Starting(pc: MainPc) {
    pc.Scan? || pc.Create? || pc.Undo?
  }

  predicate Stopping(pc: MainPc) {
    pc.StopLock? || pc.StopSet? || pc.StopUnlock? || pc.CloseListener?
  }

  predicate Joining(pc: MainPc) {
    pc.JoinNext? || pc.JoinWait? || pc.JoinFree? || pc.Destroy? || pc.Done?
  }

  function Freed(s: State, i: nat): State
    requires i < |s.slots|
  {
    s.(slots := s.slots[i := s.slots[i].(inUse := false, clientFd := NO_FD)])
  }

  /** reap_finished: for each slot, look under the lock, join outside it, free the slot. */
  function ReapStep(s: State): Option<State> {
    match s.main
    case ReapLock(i, after) =>
      if s.mutex == Nobody then Some(s.(main := ReapCheck(i, after), mutex := Main)) else None
    case ReapCheck(i, after) =>
      if i >= |s.slots| then None
      else
        var slot := s.slots[i];
        Some(Goto(s, ReapUnlock(i, after, if slot.inUse && slot.finished then Some(slot.thread) else None)))
    case ReapUnlock(i, after, join) =>
      Some(s.(main := if join.Some? then ReapJoin(i, after, join.value) else ReapNext(s, i, after), mutex := Nobody))
    case ReapJoin(i, after, t) =>
      if HasExited(s, t) then Some(s.(main := ReapFree(i, after), joined := s.joined + [t])) else None
    case ReapFree(i, after) =>
      if i < |s.slots| then Some(Goto(Freed(s, i), ReapNext(s, i, after))) else None
    case _ => None
  }

  /** accept_clients; `tcp` adds the reaping after accept. */
  function AcceptStep(s: State, tcp: bool, c: Choice): Option<State> {
    match s.main
    case Accept =>
      (match c
       case Incoming(fd) =>
         if fd < 0 || fd in s.open then None
         else Some(s.(open := s.open[fd := s.accepted], accepted := s.accepted + 1,
                      main := if tcp then BeginReap(s, ToAdmit(fd, s.accepted)) else Admit(fd, s.accepted)))
       case Proceed => Some(Goto(s, LoopHead))
       case Alternate => Some(s)
       case Break => Some(Goto(s, StopLock)))
    case Admit(fd, conn) =>
      // Making the descriptor nonblocking may fail.
      Some(Goto(s, if c == Proceed then Scan(0, fd, conn) else Reject(fd, conn)))
    case Reject(fd, _) => Some(Goto(CloseFd(s, fd), Accept))
    case _ => None
  }

  /** start_worker: claim the first free slot and create a thread in it, or give the slot back. */
  function StartStep(s: State, c: Choice): Option<State> {
    match s.main
    case Scan(i, fd, conn) =>
      if i >= |s.slots| then Some(Goto(s, Reject(fd, conn)))
      else if s.slots[i].inUse then Some(Goto(s, Scan(i + 1, fd, conn)))
      else Some(s.(slots := s.slots[i := Slot(true, false, fd, s.slots[i].thread)], main := Create(i, fd, conn)))
    case Create(i, fd, conn) =>
      if i >= |s.slots| then None
      else if c == Proceed then
        Some(s.(threads := s.threads + [Thread(i, NO_FD, conn, Start)],
                slots := s.slots[i := s.slots[i].(thread := |s.threads|)], main := Accept))
      else Some(Goto(s, Undo(i, fd, conn)))
    case Undo(i, fd, conn) =>
      if i < |s.slots| then Some(Goto(Freed(s, i), Reject(fd, conn))) else None
    case _ => None
  }

  /** request_stop, and closing the listener. */
  function StopStep(s: State): Option<State> {
    match s.main
    case StopLock => if s.mutex == Nobody then Some(s.(main := StopSet, mutex := Main)) else None
    case StopSet => Some(s.(main := StopUnlock, stopping := true))
    case StopUnlock => Some(s.(main := CloseListener, mutex := Nobody))
    case CloseListener => Some(Goto(s, JoinNext(0)))
    case _ => None
  }

  /** join_all and, once it has returned, the destruction of the mutex. */
  function JoinAllStep(s: State): Option<State> {
    match s.main
    case JoinNext(i) =>
      Some(Goto(s, if i >= |s.slots| then Destroy else if s.slots[i].inUse then JoinWait(i) else JoinNext(i + 1)))
    case JoinWait(i) =>
      if i < |s.slots| && HasExited(s, s.slots[i].thread)
      then Some(s.(main := JoinFree(i), joined := s.joined + [s.slots[i].thread])) else None
    case JoinFree(i) =>
      if i < |s.slots| then Some(Goto(Freed(s, i), JoinNext(i + 1))) else None
    case Destroy => Some(Goto(s, Done))
    case _ => None
  }

  /** A step of the main thread, or None when it cannot move. */
  function MainStep(s: State, tcp: bool, c: Choice): Option<State> {
    if Reaping(s.main) then ReapStep(s)
    else if Stopping(s.main) then StopStep(s)
    else if Joining(s.main) then JoinAllStep(s)
    else if s.main == LoopHead then
      // The stop flag, set by the signal handler.
      Some(Goto(s, if c == Proceed then BeginReap(s, ToPoll) else StopLock))
    else if s.main == Poll then
      Some(Goto(s, if c == Proceed then Accept else if c == Alternate then LoopHead else StopLock))
    else if Starting(s.main) then StartStep(s, c)
    else AcceptStep(s, tcp, c)
  }

  /** The worker's control flow; `again` is whether its session loop goes on after the current turn. */
  function NextPc(pc: WorkerPc, stopping: bool, again: bool): WorkerPc {
    match pc
    case Start => LockCheck
    case LockCheck => ReadStop
    case ReadStop => UnlockCheck(stopping)
    case UnlockCheck(stop) => if stop then Close else Body
    case Body => if again then LockCheck else Close
    case Close => LockFinish
    case LockFinish => SetFinished
    case SetFinished => UnlockFinish
    case UnlockFinish => Log
    case Log => Exited                        // reads worker->client_fd once more
    case Exited => Exited
  }

  function NextMutex(mutex: Holder, t: nat, pc: WorkerPc): Holder {
    match pc
    case LockCheck => Worker(t)
    case LockFinish => Worker(t)
    case UnlockCheck(_) => Nobody
    case UnlockFinish => Nobody
    case _ => mutex
  }

  /** A worker moves unless it has exited or waits for the mutex. */
  predicate CanMove(s: State, t: nat) {
    && t < |s.threads| && s.threads[t].slot < |s.slots|
    && s.threads[t].pc != Exited
    && ((s.threads[t].pc == LockCheck || s.threads[t].pc == LockFinish) ==> s.mutex == Nobody)
  }

  /** A step of worker `t`: start by copying the descriptor, lock, close, publish `finished`, unlock. */
  function WorkerStep(s: State, t: nat, again: bool): Option<State> {
    if !CanMove(s, t) then None else
    var th := s.threads[t];
    var slot := s.slots[th.slot];
    var now := Thread(th.slot, if th.pc == Start then slot.clientFd else th.fd, th.conn,
                      NextPc(th.pc, s.stopping, again));
    var r := s.(threads := s.threads[t := now],
                slots := s.slots[th.slot := slot.(finished := slot.finished || th.pc == SetFinished)],
                mutex := NextMutex(s.mutex, t, th.pc));
    Some(if th.pc == Close then CloseFd(r, th.fd) else r)
  }

  function Step(s: State, tcp: bool, a: Action): Option<State> {
    match a
    case MainDoes(c) => MainStep(s, tcp, c)
    case WorkerDoes(t, again) => WorkerStep(s, t, again)
  }

  /** The state a run of steps leads to, or None when some step of it was not possible. */
  function Run(s: State, tcp: bool, actions: seq<Action>): Option<State> {
    if actions == [] then Some(s)
    else
      var r := Run(s, tcp, actions[..|actions| - 1]);
      if r.None? then None else Step(r.value, tcp, actions[|actions| - 1])
  }

  // ---- The invariant ----

  predicate PastClose(pc: WorkerPc) {
    pc.LockFinish? || pc.SetFinished? || PastFinish(pc)
  }

  predicate PastFinish(pc: WorkerPc) {
    pc.UnlockFinish? || pc.Log? || pc.Exited?
  }

  predicate WorkerHolds(pc: WorkerPc) {
    pc.ReadStop? || pc.UnlockCheck? || pc.SetFinished? || pc.UnlockFinish?
  }

  predicate MainHolds(pc: MainPc) {
    pc.ReapCheck? || pc.ReapUnlock? || pc.StopSet? || pc.StopUnlock?
  }

  /** The accepted connection main has not yet handed over or rejected. */
  function InHand(pc: MainPc): Option<(int, nat)> {
    match pc
    case ReapLock(_, ToAdmit(fd, conn)) => Some((fd, conn))
    case ReapCheck(_, ToAdmit(fd, conn)) => Some((fd, conn))
    case ReapUnlock(_, ToAdmit(fd, conn), _) => Some((fd, conn))
    case ReapJoin(_, ToAdmit(fd, conn), _) => Some((fd, conn))
    case ReapFree(_, ToAdmit(fd, conn)) => Some((fd, conn))
    case Admit(fd, conn) => Some((fd, conn))
    case Scan(_, fd, conn) => Some((fd, conn))
    case Create(_, fd, conn) => Some((fd, conn))
    case Undo(_, fd, conn) => Some((fd, conn))
    case Reject(fd, conn) => Some((fd, conn))
    case _ => None
  }

  /** The slot main has claimed for the connection in hand, before a thread runs in it. */
  function Claimed(pc: MainPc): Option<nat> {
    if pc.Create? || pc.Undo? then Some(pc.i) else None
  }

  /** The slot whose thread main has joined and which it is about to free. */
  function Vacating(pc: MainPc): Option<nat> {
    if pc.ReapFree? || pc.JoinFree? then Some(pc.i) else None
  }

  predicate Stopped(pc: MainPc) {
    pc.StopUnlock? || pc.CloseListener? || Joining(pc)
  }

  ghost predicate ThreadOk(s: State, t: nat)
    requires t < |s.threads|
  {
    var th := s.threads[t];
    && th.slot < |s.slots|
    && (PastClose(th.pc) ==> th.conn in s.closed)
    && (t in s.joined ==> th.pc == Exited)
    && (t !in s.joined ==>
          var slot := s.slots[th.slot];
          && slot.inUse && slot.thread == t && Claimed(s.main) != Some(th.slot)
          && (slot.finished <==> PastFinish(th.pc))
          && (th.pc != Start ==> th.fd == slot.clientFd)
          && (!PastClose(th.pc) ==> slot.clientFd in s.open && s.open[slot.clientFd] == th.conn))
  }

  ghost predicate ThreadsOk(s: State) {
    && (forall t :: 0 <= t < |s.threads| ==> ThreadOk(s, t))
    && (forall t, u :: 0 <= t < u < |s.threads| ==> s.threads[t].conn != s.threads[u].conn)
    && (forall t :: 0 <= t < |s.threads| ==> s.threads[t].conn < s.accepted)
  }

  ghost predicate SlotOk(s: State, i: nat)
    requires i < |s.slots|
  {
    var slot := s.slots[i];
    && (slot.inUse && Claimed(s.main) != Some(i) ==>
          && slot.thread < |s.threads| && s.threads[slot.thread].slot == i
          && (slot.thread in s.joined <==> Vacating(s.main) == Some(i)))
    && (Claimed(s.main) == Some(i) ==>
          slot.inUse && !slot.finished && InHand(s.main).Some? && slot.clientFd == InHand(s.main).value.0)
    && (Vacating(s.main) == Some(i) ==> slot.inUse)
    && (!slot.inUse ==> slot.clientFd == -1)
  }

  ghost predicate MainOk(s: State) {
    && (forall i :: 0 <= i < |s.slots| ==> SlotOk(s, i))
    && (s.stopping <==> Stopped(s.main))
    && PcOk(s)
  }

  /** What main knows at each point of its program. */
  ghost predicate PcOk(s: State) {
       match s.main
       case ReapLock(i, _) => i < |s.slots|
       case ReapCheck(i, _) => i < |s.slots|
       case ReapUnlock(i, _, join) =>
         i < |s.slots| && (join.Some? ==> JoinTarget(s, i, join.value))
       case ReapJoin(i, _, t) => i < |s.slots| && JoinTarget(s, i, t)
       case ReapFree(i, _) => i < |s.slots|
       case Scan(i, _, _) => i <= |s.slots| && AllInUse(s, i)
       case Create(i, _, _) => i < |s.slots|
       case Undo(i, _, _) => i < |s.slots|
       case JoinNext(i) => i <= |s.slots| && NoneInUse(s, i)
       case JoinWait(i) => i < |s.slots| && NoneInUse(s, i) && s.slots[i].inUse
       case JoinFree(i) => i < |s.slots| && NoneInUse(s, i)
       case Destroy => NoneInUse(s, |s.slots|)
       case Done => NoneInUse(s, |s.slots|)
       case _ => true
  }

  ghost predicate NoneInUse(s: State, n: nat)
    requires n <= |s.slots|
  {
    forall i :: 0 <= i < n ==> !s.slots[i].inUse
  }

  /** The slots a scan has passed. */
  ghost predicate AllInUse(s: State, n: nat)
    requires n <= |s.slots|
  {
    forall i :: 0 <= i < n ==> s.slots[i].inUse
  }

  ghost predicate JoinTarget(s: State, i: nat, t: nat)
    requires i < |s.slots|
  {
    s.slots[i].inUse && s.slots[i].finished && s.slots[i].thread == t
  }

  ghost predicate MutexOk(s: State) {
    && (s.mutex == Main <==> MainHolds(s.main))
    && (s.mutex.Worker? ==> s.mutex.t < |s.threads|)
    && (forall t :: 0 <= t < |s.threads| ==> (s.mutex == Worker(t) <==> WorkerHolds(s.threads[t].pc)))
  }

  ghost predicate Distinct(xs: seq<nat>) {
    forall i, j :: 0 <= i < j < |xs| ==> xs[i] != xs[j]
  }

  /** Some thread was handed the connection. */
  ghost predicate Handed(s: State, conn: nat) {
    exists t :: 0 <= t < |s.threads| && s.threads[t].conn == conn
  }

  ghost predicate FdsOk(s: State) {
    && !s.badClose && Distinct(s.closed)
    && (forall k :: 0 <= k < |s.closed| ==> s.closed[k] < s.accepted)
    && (forall fd :: fd in s.open ==> s.open[fd] < s.accepted && s.open[fd] !in s.closed)
    && (forall f, g :: f in s.open && g in s.open && s.open[f] == s.open[g] ==> f == g)
    && (InHand(s.main).Some? ==>
          var (fd, conn) := InHand(s.main).value;
          fd in s.open && s.open[fd] == conn && !Handed(s, conn))
    && (forall conn :: 0 <= conn < s.accepted ==>
          conn in s.closed || Handed(s, conn) || (InHand(s.main).Some? && InHand(s.main).value.1 == conn))
  }

  ghost predicate JoinedOk(s: State) {
    Distinct(s.joined) && forall k :: 0 <= k < |s.joined| ==> s.joined[k] < |s.threads|
  }

  ghost predicate Inv(s: State) {
    ThreadsOk(s) && MainOk(s) && MutexOk(s) && FdsOk(s) && JoinedOk(s)
  }

  lemma InitialInv(n: nat)
    ensures Inv(Initial(n))
  {
  }

  // ---- Worker steps keep it ----

  /** A thread that can move has not been joined, and no other unjoined thread shares its slot. */
  lemma OwnSlot(s: State, t: nat)
    requires ThreadsOk(s) && t < |s.threads| && s.threads[t].pc != Exited
    ensures t !in s.joined && s.threads[t].slot < |s.slots|
    ensures forall u :: 0 <= u < |s.threads| && u != t && u !in s.joined ==> s.threads[u].slot != s.threads[t].slot
  {
    assert ThreadOk(s, t);
    forall u | 0 <= u < |s.threads| && u != t && u !in s.joined ensures s.threads[u].slot != s.threads[t].slot {
      assert ThreadOk(s, u);
    }
  }

  // What any step of worker `t` does, whatever the step: the worker moves on, and at most one thing else.

  ghost predicate WorkerMoves(s: State, r: State, t: nat) {
    && t < |s.threads| == |r.threads|
    && var th, now := s.threads[t], r.threads[t];
    && r.threads == s.threads[t := now] && now.slot == th.slot && now.conn == th.conn
    && th.pc != Exited && now.pc != Start
    && (PastClose(now.pc) <==> PastClose(th.pc) || th.pc == Close)
    && (PastFinish(now.pc) <==> PastFinish(th.pc) || th.pc == SetFinished)
    && r.main == s.main && r.stopping == s.stopping && r.accepted == s.accepted && r.joined == s.joined
  }

  ghost predicate WorkerWrites(s: State, r: State, t: nat) {
    && t < |s.threads| == |r.threads| && s.threads[t].slot < |s.slots| == |r.slots|
    && var th, now := s.threads[t], r.threads[t];
    && now.fd == (if th.pc == Start then s.slots[th.slot].clientFd else th.fd)
    && r.slots == s.slots[th.slot := s.slots[th.slot].(finished := s.slots[th.slot].finished || th.pc == SetFinished)]
    && (th.pc != Close ==> r.open == s.open && r.closed == s.closed && r.badClose == s.badClose)
    && (th.pc == Close ==>
          var u := CloseFd(s, th.fd);
          r.open == u.open && r.closed == u.closed && r.badClose == u.badClose)
  }

  ghost predicate WorkerLocks(s: State, r: State, t: nat) {
    && t < |s.threads| == |r.threads|
    && var held, holds := WorkerHolds(s.threads[t].pc), WorkerHolds(r.threads[t].pc);
    if held == holds then r.mutex == s.mutex
    else if holds then s.mutex == Nobody && r.mutex == Worker(t)
    else r.mutex == Nobody
  }

  ghost predicate WorkerEffect(s: State, r: State, t: nat) {
    WorkerMoves(s, r, t) && WorkerWrites(s, r, t) && WorkerLocks(s, r, t)
  }

  lemma WorkerStepMoves(s: State, t: nat, again: bool)
    requires WorkerStep(s, t, again).Some?
    ensures WorkerMoves(s, WorkerStep(s, t, again).value, t)
  {
  }

  lemma WorkerStepWrites(s: State, t: nat, again: bool)
    requires WorkerStep(s, t, again).Some?
    ensures WorkerWrites(s, WorkerStep(s, t, again).value, t)
  {
  }

  lemma WorkerStepLocks(s: State, t: nat, again: bool)
    requires WorkerStep(s, t, again).Some?
    ensures WorkerLocks(s, WorkerStep(s, t, again).value, t)
  {
  }

  lemma WorkerThreads(s: State, r: State, t: nat)
    requires ThreadsOk(s) && FdsOk(s) && WorkerEffect(s, r, t)
    ensures ThreadsOk(r)
  {
    OwnSlot(s, t);
    assert ThreadOk(s, t);
    forall u | 0 <= u < |r.threads| ensures ThreadOk(r, u) {
      assert ThreadOk(s, u);
    }
  }

  lemma WorkerSlots(s: State, r: State, t: nat)
    requires ThreadsOk(s) && MainOk(s) && WorkerEffect(s, r, t)
    ensures MainOk(r)
  {
    OwnSlot(s, t);
    assert ThreadOk(s, t);
    forall i | 0 <= i < |r.slots| ensures SlotOk(r, i) {
      assert SlotOk(s, i);
    }
  }

  lemma WorkerMutex(s: State, r: State, t: nat)
    requires MutexOk(s) && JoinedOk(s) && WorkerEffect(s, r, t)
    ensures MutexOk(r) && JoinedOk(r)
  {
  }

  lemma SameHanded(s: State, r: State)
    requires |s.threads| == |r.threads| && forall u :: 0 <= u < |s.threads| ==> s.threads[u].conn == r.threads[u].conn
    ensures forall c :: Handed(r, c) <==> Handed(s, c)
  {
    forall c ensures Handed(r, c) <==> Handed(s, c) {
      if Handed(s, c) {
        var u :| 0 <= u < |s.threads| && s.threads[u].conn == c;
        assert r.threads[u].conn == c;
      }
      if Handed(r, c) {
        var u :| 0 <= u < |r.threads| && r.threads[u].conn == c;
        assert s.threads[u].conn == c;
      }
    }
  }

  lemma WorkerFds(s: State, r: State, t: nat)
    requires ThreadsOk(s) && FdsOk(s) && WorkerEffect(s, r, t)
    ensures FdsOk(r)
  {
    OwnSlot(s, t);
    assert ThreadOk(s, t);
    assert s.threads[t].pc == Start ==> s.threads[t].pc != Close;
    SameHanded(s, r);
    assert Handed(s, s.threads[t].conn);
  }

  lemma WorkerStepKeeps(s: State, t: nat, again: bool)
    requires Inv(s) && WorkerStep(s, t, again).Some?
    ensures Inv(WorkerStep(s, t, again).value)
  {
    hide WorkerStep;
    var r := WorkerStep(s, t, again).value;
    WorkerStepMoves(s, t, again);
    WorkerStepWrites(s, t, again);
    WorkerStepLocks(s, t, again);
    WorkerThreads(s, r, t);
    WorkerSlots(s, r, t);
    WorkerMutex(s, r, t);
    WorkerFds(s, r, t);
  }

  // ---- Main steps keep it ----

  /** Main's next point claims and frees the same slot, and has the same connection in hand. */
  predicate SameDuties(a: MainPc, b: MainPc) {
    InHand(a) == InHand(b) && Claimed(a) == Claimed(b) && Vacating(a) == Vacating(b)
  }

  /** Steps that only move main, take or give the mutex, or raise the stop flag. */
  lemma PcStep(s: State, r: State)
    requires Inv(s) && SameDuties(s.main, r.main) && PcOk(r)
    requires r == s.(main := r.main, mutex := r.mutex, stopping := Stopped(r.main))
    requires if MainHolds(s.main) == MainHolds(r.main) then r.mutex == s.mutex
             else if MainHolds(r.main) then s.mutex == Nobody && r.mutex == Main
             else r.mutex == Nobody
    ensures Inv(r)
  {
    forall t | 0 <= t < |r.threads| ensures ThreadOk(r, t) {
      assert ThreadOk(s, t);
    }
    forall i | 0 <= i < |r.slots| ensures SlotOk(r, i) {
      assert SlotOk(s, i);
    }
    SameHanded(s, r);
  }

  /** A join: the thread has exited and was not joined before; its slot is freed next. */
  lemma JoinStep(s: State, r: State, i: nat)
    requires Inv(s) && i < |s.slots| && s.slots[i].inUse && HasExited(s, s.slots[i].thread)
    requires (s.main.ReapJoin? || s.main.JoinWait?) && s.main.i == i
    requires r == s.(main := r.main, joined := s.joined + [s.slots[i].thread])
    requires Vacating(r.main) == Some(i) && Claimed(r.main) == None
    requires InHand(s.main) == InHand(r.main) && Stopped(s.main) == Stopped(r.main) && PcOk(r)
    ensures Inv(r) && s.slots[i].thread !in s.joined
  {
    assert SlotOk(s, i);
    forall t | 0 <= t < |r.threads| ensures ThreadOk(r, t) {
      assert ThreadOk(s, t);
    }
    forall j | 0 <= j < |r.slots| ensures SlotOk(r, j) {
      assert SlotOk(s, j);
    }
    SameHanded(s, r);
  }

  /** A slot is freed after its thread was joined, or when no thread could be created for it. */
  lemma FreeStep(s: State, r: State, i: nat)
    requires Inv(s) && i < |s.slots| && (Vacating(s.main) == Some(i) || (s.main.Undo? && s.main.i == i))
    requires r == Freed(s, i).(main := r.main) && PcOk(r)
    requires Claimed(r.main) == None && Vacating(r.main) == None
    requires InHand(s.main) == InHand(r.main) && Stopped(s.main) == Stopped(r.main)
    requires MainHolds(s.main) == MainHolds(r.main)
    ensures Inv(r)
  {
    assert SlotOk(s, i);
    forall t | 0 <= t < |r.threads| ensures ThreadOk(r, t) {
      assert ThreadOk(s, t);
    }
    forall j | 0 <= j < |r.slots| ensures SlotOk(r, j) {
      assert SlotOk(s, j);
    }
    SameHanded(s, r);
  }

  /** A new connection may reuse a descriptor number that some finished slot still stores. */
  lemma IncomingStep(s: State, r: State, fd: int)
    requires Inv(s) && s.main == Accept && fd >= 0 && fd !in s.open
    requires r == s.(open := s.open[fd := s.accepted], accepted := s.accepted + 1, main := r.main)
    requires InHand(r.main) == Some((fd, s.accepted)) && Claimed(r.main) == None && Vacating(r.main) == None
    requires !MainHolds(r.main) && !Stopped(r.main) && PcOk(r)
    ensures Inv(r)
  {
    forall t | 0 <= t < |r.threads| ensures ThreadOk(r, t) {
      assert ThreadOk(s, t);
    }
    forall i | 0 <= i < |r.slots| ensures SlotOk(r, i) {
      assert SlotOk(s, i);
    }
    SameHanded(s, r);
  }

  /** A free slot is claimed: every thread that ever used it was joined. */
  lemma ClaimStep(s: State, r: State, i: nat)
    requires Inv(s) && s.main.Scan? && s.main.i == i < |s.slots| && !s.slots[i].inUse
    requires r == s.(slots := s.slots[i := Slot(true, false, s.main.fd, s.slots[i].thread)],
                     main := Create(i, s.main.fd, s.main.conn))
    ensures Inv(r)
  {
    forall t | 0 <= t < |r.threads| ensures ThreadOk(r, t) {
      assert ThreadOk(s, t);
    }
    forall j | 0 <= j < |r.slots| ensures SlotOk(r, j) {
      assert SlotOk(s, j);
    }
    SameHanded(s, r);
  }

  /** The connection in hand is handed to a new thread. */
  lemma CreateStep(s: State, r: State, i: nat)
    requires Inv(s) && s.main.Create? && s.main.i == i < |s.slots|
    requires r == s.(threads := s.threads + [Thread(i, NO_FD, s.main.conn, Start)],
                     slots := s.slots[i := s.slots[i].(thread := |s.threads|)], main := Accept)
    ensures Inv(r)
  {
    CreateThreads(s, r, i);
    CreateFds(s, r, i);
    assert SlotOk(s, i);
    hide FdsOk, ThreadsOk, Handed;
    forall j | 0 <= j < |r.slots| ensures SlotOk(r, j) {
      assert SlotOk(s, j);
    }
  }

  lemma CreateFds(s: State, r: State, i: nat)
    requires Inv(s) && s.main.Create? && s.main.i == i < |s.slots|
    requires r == s.(threads := s.threads + [Thread(i, NO_FD, s.main.conn, Start)],
                     slots := s.slots[i := s.slots[i].(thread := |s.threads|)], main := Accept)
    ensures FdsOk(r)
  {
    hide ThreadsOk, MainOk, MutexOk;
    var n := |s.threads|;
    var conn := s.main.conn;
    forall c ensures Handed(r, c) <==> Handed(s, c) || c == conn {
      if Handed(s, c) {
        var u :| 0 <= u < n && s.threads[u].conn == c;
        assert r.threads[u].conn == c;
      }
      if Handed(r, c) {
        var u :| 0 <= u < |r.threads| && r.threads[u].conn == c;
        assert u < n ==> s.threads[u].conn == c;
      }
      assert r.threads[n].conn == conn;
    }
  }

  lemma CreateThreads(s: State, r: State, i: nat)
    requires Inv(s) && s.main.Create? && s.main.i == i < |s.slots|
    requires r == s.(threads := s.threads + [Thread(i, NO_FD, s.main.conn, Start)],
                     slots := s.slots[i := s.slots[i].(thread := |s.threads|)], main := Accept)
    ensures ThreadsOk(r)
  {
    var n := |s.threads|;
    assert SlotOk(s, i);
    forall t | 0 <= t < |r.threads| ensures ThreadOk(r, t) {
      assert t < n ==> ThreadOk(s, t);
    }
    forall t | 0 <= t < n ensures s.threads[t].conn != s.main.conn {
      assert !Handed(s, s.main.conn);
    }
  }

  lemma RejectStep(s: State, r: State)
    requires Inv(s) && s.main.Reject? && r == CloseFd(s, s.main.fd).(main := Accept)
    ensures Inv(r)
  {
    SameHanded(s, r);
    assert forall t :: 0 <= t < |s.threads| ==> s.threads[t].conn != s.main.conn by {
      assert !Handed(s, s.main.conn);
    }
    assert FdsOk(r) by {
      hide ThreadsOk, MainOk, MutexOk, JoinedOk, Handed;
    }
    hide Handed;
    forall t | 0 <= t < |r.threads| ensures ThreadOk(r, t) {
      assert ThreadOk(s, t);
    }
    forall i | 0 <= i < |r.slots| ensures SlotOk(r, i) {
      assert SlotOk(s, i);
    }
  }

  lemma ReapLookKeeps(s: State)
    requires Inv(s) && ReapStep(s).Some? && (s.main.ReapLock? || s.main.ReapCheck? || s.main.ReapUnlock?)
    ensures Inv(ReapStep(s).value)
  {
    hide ThreadsOk, SlotOk, MutexOk, FdsOk, JoinedOk;
    PcStep(s, ReapStep(s).value);
  }

  lemma ReapStepKeeps(s: State)
    requires Inv(s) && ReapStep(s).Some?
    ensures Inv(ReapStep(s).value)
  {
    hide ThreadsOk, SlotOk, MutexOk, FdsOk, JoinedOk;
    if s.main.ReapJoin? {
      JoinStep(s, ReapStep(s).value, s.main.i);
    } else if s.main.ReapFree? {
      FreeStep(s, ReapStep(s).value, s.main.i);
    } else {
      ReapLookKeeps(s);
    }
  }

  lemma StopStepKeeps(s: State)
    requires Inv(s) && StopStep(s).Some?
    ensures Inv(StopStep(s).value)
  {
    hide ThreadsOk, SlotOk, MutexOk, FdsOk, JoinedOk;
    PcStep(s, StopStep(s).value);
  }

  lemma JoinAllStepKeeps(s: State)
    requires Inv(s) && JoinAllStep(s).Some?
    ensures Inv(JoinAllStep(s).value)
  {
    hide ThreadsOk, SlotOk, MutexOk, FdsOk, JoinedOk;
    var r := JoinAllStep(s).value;
    match s.main
    case JoinNext(i) => PcStep(s, r);
    case JoinWait(i) => JoinStep(s, r, i);
    case JoinFree(i) => FreeStep(s, r, i);
    case Destroy => PcStep(s, r);
  }

  lemma AcceptStepKeeps(s: State, tcp: bool, c: Choice)
    requires Inv(s) && AcceptStep(s, tcp, c).Some?
    ensures Inv(AcceptStep(s, tcp, c).value)
  {
    hide ThreadsOk, SlotOk, MutexOk, FdsOk, JoinedOk;
    var r := AcceptStep(s, tcp, c).value;
    match s.main
    case Accept =>
      if c.Incoming? {
        IncomingStep(s, r, c.fd);
      } else {
        PcStep(s, r);
      }
    case Admit(_, _) => PcStep(s, r);
    case Reject(_, _) => RejectStep(s, r);
  }

  lemma StartStepKeeps(s: State, c: Choice)
    requires Inv(s) && StartStep(s, c).Some?
    ensures Inv(StartStep(s, c).value)
  {
    hide ThreadsOk, SlotOk, MutexOk, FdsOk, JoinedOk;
    var r := StartStep(s, c).value;
    match s.main
    case Scan(i, _, _) =>
      if i < |s.slots| && !s.slots[i].inUse {
        ClaimStep(s, r, i);
      } else {
        PcStep(s, r);
      }
    case Create(i, _, _) =>
      if c == Proceed {
        CreateStep(s, r, i);
      } else {
        PcStep(s, r);
      }
    case Undo(i, _, _) => FreeStep(s, r, i);
  }

  lemma MainStepKeeps(s: State, tcp: bool, c: Choice)
    requires Inv(s) && MainStep(s, tcp, c).Some?
    ensures Inv(MainStep(s, tcp, c).value)
  {
    hide ThreadsOk, SlotOk, MutexOk, FdsOk, JoinedOk, ReapStep, StopStep, JoinAllStep, StartStep, AcceptStep;
    if Reaping(s.main) {
      ReapStepKeeps(s);
    } else if Stopping(s.main) {
      StopStepKeeps(s);
    } else if Joining(s.main) {
      JoinAllStepKeeps(s);
    } else if s.main == LoopHead || s.main == Poll {
      PcStep(s, MainStep(s, tcp, c).value);
    } else if Starting(s.main) {
      StartStepKeeps(s, c);
    } else {
      AcceptStepKeeps(s, tcp, c);
    }
  }

  /** Every state a run can reach satisfies the invariant. */
  lemma {:induction false} ReachableInv(n: nat, tcp: bool, actions: seq<Action>)
    requires Run(Initial(n), tcp, actions).Some?
    ensures Inv(Run(Initial(n), tcp, actions).value)
    decreases |actions|
  {
    hide Inv, Step, MainStep, WorkerStep;
    if actions == [] {
      InitialInv(n);
    } else {
      var k := |actions| - 1;
      ReachableInv(n, tcp, actions[..k]);
      StepKeeps(Run(Initial(n), tcp, actions[..k]).value, tcp, actions[k]);
    }
  }

  lemma StepKeeps(s: State, tcp: bool, a: Action)
    requires Inv(s) && Step(s, tcp, a).Some?
    ensures Inv(Step(s, tcp, a).value)
  {
    hide Inv, MainStep, WorkerStep;
    match a
    case MainDoes(c) => MainStepKeeps(s, tcp, c);
    case WorkerDoes(t, again) => WorkerStepKeeps(s, t, again);
  }
}
