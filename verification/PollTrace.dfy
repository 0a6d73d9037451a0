/**
 What a poll server did in a whole run, turn by turn: the requests it took from the queue with what
 the outside did to each, whom it polled, what was replied. Every connection that is lost is lost
 for a cause in this record.
 */
module PollTrace {
  import opened Base
  import opened Protocol
  import opened Commands
  import opened Service
  import opened Kernel
  import opened PollState
  import opened PollSteps
  import opened PollEvents
  import opened PollFlow
  import Codec

  // ---- Taking requests from the queue ----

  /** The head of the queue was taken for the client in `slot`, and its response placed or not. */
  datatype Step = Step(slot: nat, attempt: Attempt, placed: bool)

  /** The outside lets the request be answered and its response be placed. */
  ghost predicate Succeeding(r: Request, a: Attempt) {
    Answer(r, a.world).Some? && a.memory == (true, true)
  }

  /**
   The state after taking the head, or None when it could not be taken so: its owner must be in the
   slot, with no output pending. A response that is not placed costs the owner its connection.
   */
  ghost function TakeHead(s: State, x: Step): Option<State> {
    if && Live(s, x.slot) && s.queue != [] && Owns(s.clients[x.slot], s.queue[0]) && s.clients[x.slot].output == []
       && (x.placed ==> Answer(s.queue[0].request, x.attempt.world).Some?)
       && (Succeeding(s.queue[0].request, x.attempt) ==> x.placed)
    then Some(if x.placed then Respond(s, x.slot, x.attempt.world) else Remove(Dequeue(s), x.slot))
    else None
  }

  ghost function Replay(s: State, steps: seq<Step>): Option<State> {
    if steps == [] then Some(s)
    else
      var m := Replay(s, steps[..|steps| - 1]);
      if m.None? then None else TakeHead(m.value, steps[|steps| - 1])
  }

  ghost function Attempts(steps: seq<Step>): (attempts: seq<Attempt>)
    ensures |attempts| == |steps|
  {
    seq(|steps|, k requires 0 <= k < |steps| => steps[k].attempt)
  }

  lemma ReplayMore(s: State, steps: seq<Step>, x: Step)
    requires Replay(s, steps).Some?
    ensures Replay(s, steps + [x]) == TakeHead(Replay(s, steps).value, x)
    ensures Attempts(steps + [x]) == Attempts(steps) + [x.attempt]
  {
    hide TakeHead;
    assert (steps + [x])[..|steps|] == steps;
  }

  /** A head taken with the outcome that the allocator and the world determine is one that can be taken. */
  lemma HeadTaken(s: State, x: Step, capacity: nat)
    requires Live(s, x.slot) && s.queue != [] && Owns(s.clients[x.slot], s.queue[0]) && s.clients[x.slot].output == []
    requires capacity <= OUTPUT_LIMIT
    requires x.placed <==> var answer := Answer(s.queue[0].request, x.attempt.world);
                           && answer.Some?
                           && Codec.Allocatable(capacity, OUTPUT_LIMIT, 0, RESPONSE_HEADER, |answer.value|,
                                                x.attempt.memory)
    ensures TakeHead(s, x) == Some(if x.placed then Respond(s, x.slot, x.attempt.world) else Remove(Dequeue(s), x.slot))
  {
    hide Answer, Drop;
  }

  lemma TakeHeadKeeps(s: State, x: Step)
    requires Inv(s, FREE) && TakeHead(s, x).Some?
    ensures Inv(TakeHead(s, x).value, FREE) && TakeHead(s, x).value.history == s.history
  {
    hide Inv, Answer;
    if x.placed {
      RespondKeeps(s, x.slot, x.attempt.world);
    } else {
      DequeueKeeps(s, x.slot);
      RemoveKeeps(Dequeue(s), x.slot);
    }
  }

  lemma {:induction false} ReplayKeeps(s: State, steps: seq<Step>)
    requires Inv(s, FREE) && Replay(s, steps).Some?
    ensures Inv(Replay(s, steps).value, FREE) && Replay(s, steps).value.history == s.history
    decreases |steps|
  {
    hide Inv, TakeHead;
    if steps != [] {
      ReplayKeeps(s, steps[..|steps| - 1]);
      TakeHeadKeeps(Replay(s, steps[..|steps| - 1]).value, steps[|steps| - 1]);
    }
  }

  /** The connections that lost a response, and with it their place. */
  ghost function Lost(s: State, steps: seq<Step>): set<nat>
    requires Replay(s, steps).Some?
  {
    if steps == [] then {}
    else
      var n := |steps| - 1;
      Lost(s, steps[..n]) + if steps[n].placed then {} else {Replay(s, steps[..n]).value.clients[steps[n].slot].conn}
  }

  lemma TakeHeadAlive(s: State, x: Step, c: nat)
    requires TableOk(s) && TakeHead(s, x).Some?
    ensures Alive(TakeHead(s, x).value.clients, c)
       <==> Alive(s.clients, c) && (x.placed || c != s.clients[x.slot].conn)
  {
    hide Answer, Drop;
    var t := TakeHead(s, x).value;
    if Alive(s.clients, c) && (x.placed || c != s.clients[x.slot].conn) {
      var i :| 0 <= i < |s.clients| && s.clients[i].fd != FREE && s.clients[i].conn == c;
      assert t.clients[i].fd != FREE && t.clients[i].conn == c;
    }
    if Alive(t.clients, c) {
      var i :| 0 <= i < |t.clients| && t.clients[i].fd != FREE && t.clients[i].conn == c;
      assert s.clients[i].fd != FREE && s.clients[i].conn == c;
    }
  }

  /** Taking requests loses exactly the connections whose response was not placed. */
  lemma {:induction false} ReplayAlive(s: State, steps: seq<Step>, c: nat)
    requires Inv(s, FREE) && Replay(s, steps).Some?
    ensures Alive(Replay(s, steps).value.clients, c) <==> Alive(s.clients, c) && c !in Lost(s, steps)
    decreases |steps|
  {
    hide Inv, Alive, TakeHead, TableOk;
    if steps != [] {
      var n := |steps| - 1;
      ReplayAlive(s, steps[..n], c);
      ReplayKeeps(s, steps[..n]);
      var m := Replay(s, steps[..n]).value;
      InvTable(m);
      TakeHeadAlive(m, steps[n], c);
    }
  }

  /** A connection is lost only by a request of its own to which the outside gave no answer or no memory. */
  lemma {:induction false} LostForCause(s: State, steps: seq<Step>, c: nat)
    requires Replay(s, steps).Some? && c in Lost(s, steps)
    ensures exists k :: 0 <= k < |steps| && FailedAt(s, steps, k, c)
    decreases |steps|
  {
    var n := |steps| - 1;
    assert steps[..n][..n] == steps[..n];
    if c in Lost(s, steps[..n]) {
      LostForCause(s, steps[..n], c);
      var k :| 0 <= k < n && FailedAt(s, steps[..n], k, c);
      assert steps[..n][..k] == steps[..k];
      assert FailedAt(s, steps, k, c);
    } else {
      hide Answer;
      assert FailedAt(s, steps, n, c);
    }
  }

  ghost predicate FailedAt(s: State, steps: seq<Step>, k: nat, c: nat)
    requires k < |steps|
  {
    && Replay(s, steps[..k]).Some?
    && var m := Replay(s, steps[..k]).value;
    && m.queue != [] && m.queue[0].conn == c && !Succeeding(m.queue[0].request, steps[k].attempt)
  }

  /** The outside lets the first requests of the queue be answered and their responses be placed. */
  ghost predicate AllAnswered(queue: seq<Queued>, attempts: seq<Attempt>) {
    && |attempts| <= |queue|
    && forall k :: 0 <= k < |attempts| ==> Succeeding(queue[k].request, attempts[k])
  }

  /** Then they are answered in turn, told to the connections that asked, and nobody is lost. */
  lemma {:induction false} SmoothReplay(s: State, steps: seq<Step>)
    requires Replay(s, steps).Some? && AllAnswered(s.queue, Attempts(steps))
    ensures var t := Replay(s, steps).value;
            && Lost(s, steps) == {} && t.queue == s.queue[|steps|..] && t.open == s.open
            && s.answered <= t.answered && |t.answered| == |s.answered| + |steps|
            && forall k :: 0 <= k < |steps| ==>
                 InTurn(t.answered[|s.answered| + k], s.queue[k], steps[k].attempt.world)
    decreases |steps|
  {
    hide Answer, Drop, Succeeding;
    if steps != [] {
      var n := |steps| - 1;
      assert Attempts(steps[..n]) == Attempts(steps)[..n];
      SmoothReplay(s, steps[..n]);
      var m := Replay(s, steps[..n]).value;
      assert m.queue[0] == s.queue[n] && Succeeding(s.queue[n].request, Attempts(steps)[n]);
    }
  }

  // ---- Turns ----

  /**
   One turn: the requests taken before polling, the state and the list that were polled, whether the
   listener was, the reply, and the calls made after it.
   */
  datatype Episode = Episode(steps: seq<Step>, polled: State, list: seq<PollEntry>, listening: bool,
                             reply: PollAllReply, gets: seq<Call<ReadReply>>, puts: seq<Call<SendReply>>,
                             accepts: seq<Arrival>)

  /** Events were reported, and none that ends the server. */
  ghost predicate Acted(e: Episode) {
    e.reply.AllReady? && !Fatal(e.reply) && |e.reply.clients| == |e.list|
  }

  ghost predicate DroppedAt(e: Episode, k: nat)
    requires Acted(e) && k < |e.list|
  {
    Dropped(e.reply.clients[k], Last(e.gets, 0, e.list[k].fd), Last(e.puts, 0, e.list[k].fd))
  }

  /** A connection's turn ends it: a response of its own could not be placed, or its events or replies drop it. */
  ghost predicate Doomed(s: State, e: Episode, c: nat) {
    || (Replay(s, e.steps).Some? && c in Lost(s, e.steps))
    || (Acted(e) && exists k :: 0 <= k < |e.list| && e.list[k].conn == c && DroppedAt(e, k))
  }

  /** Of the connections there were, exactly the doomed ones are gone; the others there are are the new ones. */
  ghost predicate Kept(s: State, t: State, e: Episode) {
    && (forall c: nat :: Alive(s.clients, c) ==> (Alive(t.clients, c) <==> !Doomed(s, e, c)))
    && (forall c: nat :: !Alive(s.clients, c) ==> (Alive(t.clients, c) <==> |s.history| <= c < |t.history|))
  }

  /**
   Accepting: exactly when poll reported a connection waiting, until the table is full or the kernel
   has no more. The new connections are those of the descriptors that became nonblocking.
   */
  ghost predicate Accepting(s: State, t: State, e: Episode) {
    && (e.accepts != [] <==> Acted(e) && e.reply.listener.input)
    && (e.accepts != [] ==> Full(t.clients) || e.accepts[|e.accepts| - 1].reply == AcceptStopped)
    && |t.history| == |s.history| + |Admitted(e.accepts)| && Welcomed(|s.history|, Admitted(e.accepts), t.open)
    && Newcomers(t.history, |s.history|)
  }

  /**
   What a polled connection got: it was read from exactly when input was reported, its history was
   moved by the calls on its own descriptor, and output reported possible went on until there was
   none left or the socket was full.
   */
  ghost predicate ServedAt(t: State, e: Episode, k: nat)
    requires Acted(e) && k < |e.list|
  {
    var x := e.list[k];
    && (Last(e.gets, 0, x.fd).Some? <==> e.reply.clients[k].input)
    && FlowedAt(e.polled.history, t.history, x, e.gets, e.puts, !DroppedAt(e, k))
    && (e.reply.clients[k].output && !DroppedAt(e, k) ==>
          x.slot < |t.clients| && (t.clients[x.slot].output == [] || Last(e.puts, 0, x.fd) == Some(SendAgain)))
  }

  /** Every polled connection was served, and no other's history moved. */
  ghost predicate Served(t: State, e: Episode)
    requires Acted(e)
  {
    && (forall k :: 0 <= k < |e.list| ==> ServedAt(t, e, k))
    && (forall c: nat :: c < |e.polled.history| && Unpolled(e.list, c) ==>
          c < |t.history| && t.history[c] == e.polled.history[c])
  }

  ghost predicate TurnOk(s: State, t: State, e: Episode) {
    && Replay(s, e.steps) == Some(e.polled) && PollListOf(e.polled.clients, e.list) && ReportsAll(e.list, e.reply)
    && (e.listening <==> !Full(e.polled.clients))
    && (if Acted(e) then Served(t, e) else t == e.polled && e.gets == [] && e.puts == [])
    && Accepting(s, t, e) && Kept(s, t, e)
  }

  lemma ListedAlive(clients: seq<Client>, list: seq<PollEntry>, c: nat)
    requires PollListOf(clients, list)
    ensures Alive(clients, c) <==> exists k :: 0 <= k < |list| && list[k].conn == c
  {
    if Alive(clients, c) {
      var i :| 0 <= i < |clients| && clients[i].fd != FREE && clients[i].conn == c;
      var k :| 0 <= k < |list| && list[k].slot == i;
      assert list[k].conn == c;
    }
    if k :| 0 <= k < |list| && list[k].conn == c {
      assert clients[list[k].slot].conn == c;
    }
  }

  /** A turn that goes no further than poll keeps whom taking requests keeps. */
  lemma IdleTurn(s: State, e: Episode)
    requires Inv(s, FREE) && Replay(s, e.steps) == Some(e.polled) && PollListOf(e.polled.clients, e.list)
    requires (Fatal(e.reply) || !e.reply.AllReady?) && ReportsAll(e.list, e.reply)
    requires e.gets == [] && e.puts == [] && e.accepts == [] && (e.listening <==> !Full(e.polled.clients))
    ensures TurnOk(s, e.polled, e)
  {
    hide Inv, Alive, Replay, Lost, PollListOf, ReportsAll, Full, TableOk, Doomed, Accepting, Fatal;
    ReplayKeeps(s, e.steps);
    NothingAccepted(s, e);
    forall c: nat
      ensures Alive(s.clients, c) ==> (Alive(e.polled.clients, c) <==> !Doomed(s, e, c))
      ensures !Alive(s.clients, c) ==> !Alive(e.polled.clients, c)
    {
      ReplayAlive(s, e.steps, c);
      IdleFor(s, e, c);
    }
  }

  lemma NothingAccepted(s: State, e: Episode)
    requires e.accepts == [] && !Acted(e) && e.polled.history == s.history
    ensures Accepting(s, e.polled, e)
  {
    assert Admitted([]) == [];
  }

  lemma IdleFor(s: State, e: Episode, c: nat)
    requires Replay(s, e.steps).Some? && !Acted(e)
    ensures Doomed(s, e, c) <==> c in Lost(s, e.steps)
  {
    hide Replay, Lost;
  }

  /** A turn whose events were handled, to `b`, and that may then have accepted, to `t`. */
  lemma BusyTurn(s: State, e: Episode, b: seq<Client>, g: seq<History>, t: State)
    requires Inv(s, FREE) && Inv(t, FREE) && Replay(s, e.steps) == Some(e.polled)
    requires PollListOf(e.polled.clients, e.list) && ReportsAll(e.list, e.reply)
    requires Acted(e) && Survivors(e.polled.clients, b)
    requires HandledUpTo(e.polled.clients, b, e.list, e.reply.clients, |e.list|, e.gets, 0, e.puts, 0)
    requires b == t.clients || Joined(b, t.clients, |s.history|)
    requires FlowedAll(e.polled.history, g, e.list, b, e.gets, e.puts) && g <= t.history
    requires Accepting(s, t, e) && (e.listening <==> !Full(e.polled.clients))
    ensures TurnOk(s, t, e)
  {
    hide FlowedAll, Served;
    hide Inv, ReportsAll, TableOk, Replay, Lost, Last, Dropped, Survivors, Joined, PollListOf, Alive;
    hide HandledUpTo, Doomed, Full, Accepting;
    ReplayKeeps(s, e.steps);
    InvTable(e.polled);
    InvTable(s);
    InvTable(t);
    AllServed(s, e, b, g, t);
    TurnKeeps(e.polled, b, t.clients, e.list, e.reply.clients, e.gets, 0, e.puts, 0);
    forall c: nat
      ensures Alive(s.clients, c) ==> (Alive(t.clients, c) <==> !Doomed(s, e, c))
      ensures !Alive(s.clients, c) ==> (Alive(t.clients, c) <==> |s.history| <= c < |t.history|)
    {
      ReplayAlive(s, e.steps, c);
      ListedAlive(e.polled.clients, e.list, c);
      AliveNumbered(s, c);
      AliveNumbered(t, c);
      KeptFor(s, e, t, c);
      NewAlive(s, t, e, c);
    }
  }

  /** A welcomed connection is in the table. */
  lemma NewAlive(s: State, t: State, e: Episode, c: nat)
    requires Inv(t, FREE) && Accepting(s, t, e)
    ensures |s.history| <= c < |t.history| ==> Alive(t.clients, c)
  {
    if |s.history| <= c < |t.history| {
      var fd := Admitted(e.accepts)[c - |s.history|];
      assert fd in t.open && t.open[fd] == c;
      NamedAlive(t, fd);
    }
  }

  lemma NamedAlive(t: State, fd: int)
    requires Inv(t, FREE) && fd in t.open
    ensures Alive(t.clients, t.open[fd])
  {
    hide Balanced, HonestPast, ParseRequest, AllOwned, InOrder, SlotsOk;
    assert fd in LiveFds(t.clients);
    var i :| 0 <= i < |t.clients| && t.clients[i].fd != FREE && t.clients[i].fd == fd;
    assert t.clients[i].conn == t.open[fd];
  }

  lemma AllServed(s: State, e: Episode, b: seq<Client>, g: seq<History>, t: State)
    requires Acted(e) && HandledUpTo(e.polled.clients, b, e.list, e.reply.clients, |e.list|, e.gets, 0, e.puts, 0)
    requires FlowedAll(e.polled.history, g, e.list, b, e.gets, e.puts) && g <= t.history
    requires b == t.clients || Joined(b, t.clients, |s.history|)
    ensures Served(t, e)
  {
    hide Last, Dropped, Flowed;
    forall k | 0 <= k < |e.list|
      ensures ServedAt(t, e, k)
    {
      assert Handled(e.polled.clients, b, e.list[k].slot, e.reply.clients[k],
                     Last(e.gets, 0, e.list[k].fd), Last(e.puts, 0, e.list[k].fd));
      assert b[e.list[k].slot].fd != FREE <==> !DroppedAt(e, k);
    }
  }

  lemma AliveNumbered(s: State, c: nat)
    requires TableOk(s)
    ensures Alive(s.clients, c) ==> c < |s.history|
  {
  }

  /** One connection's fate, by whether it was lost before polling, polled, and dropped after. */
  lemma KeptFor(s: State, e: Episode, t: State, c: nat)
    requires Replay(s, e.steps).Some? && Acted(e)
    requires Alive(e.polled.clients, c) <==> Alive(s.clients, c) && c !in Lost(s, e.steps)
    requires Alive(e.polled.clients, c) <==> exists k :: 0 <= k < |e.list| && e.list[k].conn == c
    requires forall k :: 0 <= k < |e.list| ==> (Alive(t.clients, e.list[k].conn) <==> !DroppedAt(e, k))
    requires c < |s.history| && Alive(t.clients, c) ==> exists k :: 0 <= k < |e.list| && e.list[k].conn == c
    requires Alive(s.clients, c) ==> c < |s.history|
    ensures Alive(s.clients, c) ==> (Alive(t.clients, c) <==> !Doomed(s, e, c))
    ensures Alive(t.clients, c) && !Alive(s.clients, c) ==> |s.history| <= c
  {
    hide Alive, Replay, Lost, Acted, DroppedAt;
  }

  // ---- Runs ----

  /** Turn by turn, from the first state to the last. */
  ghost predicate Traced(states: seq<State>, trace: seq<Episode>) {
    && |states| == |trace| + 1
    && forall k :: 0 <= k < |trace| ==> TurnOk(states[k], states[k + 1], trace[k])
  }

  lemma NoTrace(s: State, l: Logs)
    ensures Traced([s], []) && AfterAll(l, []) == l
  {
  }

  lemma TraceMore(states: seq<State>, trace: seq<Episode>, t: State, e: Episode)
    requires Traced(states, trace) && TurnOk(states[|trace|], t, e)
    ensures Traced(states + [t], trace + [e])
  {
    hide TurnOk;
  }

  /** Over a whole run, a connection is gone exactly when some turn ended it for a cause of its own. */
  lemma {:induction false} RunLosesForCause(states: seq<State>, trace: seq<Episode>, c: nat)
    requires Traced(states, trace) && Alive(states[0].clients, c) && c < |states[0].history|
    ensures Alive(states[|trace|].clients, c) <==> forall k :: 0 <= k < |trace| ==> !Doomed(states[k], trace[k], c)
    ensures |states[0].history| <= |states[|trace|].history|
    decreases |trace|
  {
    hide Alive, Doomed, Replay, Acted;
    if trace != [] {
      var n := |trace| - 1;
      assert Traced(states[..n + 1], trace[..n]);
      RunLosesForCause(states[..n + 1], trace[..n], c);
      assert TurnOk(states[n], states[n + 1], trace[n]);
    }
  }

  // ---- What flowed through a connection ----

  /** The reads a turn made for a connection: those on the descriptor it was polled under. */
  ghost function GetsOf(e: Episode, c: nat): seq<Call<ReadReply>> {
    if Unpolled(e.list, c) then []
    else var k :| 0 <= k < |e.list| && e.list[k].conn == c; On(e.gets, e.list[k].fd)
  }

  ghost function PutsOf(e: Episode, c: nat): seq<Call<SendReply>> {
    if Unpolled(e.list, c) then []
    else var k :| 0 <= k < |e.list| && e.list[k].conn == c; On(e.puts, e.list[k].fd)
  }

  lemma OneDescriptor(s: State, e: Episode, k: nat)
    requires TableOk(s) && PollListOf(s.clients, e.list) && k < |e.list|
    ensures GetsOf(e, e.list[k].conn) == On(e.gets, e.list[k].fd)
    ensures PutsOf(e, e.list[k].conn) == On(e.puts, e.list[k].fd)
  {
    hide TableOk, PollListOf, On;
    forall l | 0 <= l < |e.list| && e.list[l].conn == e.list[k].conn
      ensures l == k
    {
      if l != k {
        PolledConns(s, e.list, l, k);
      }
    }
  }

  /** What the kernel delivered to a connection in a run. */
  ghost function DeliveredTo(trace: seq<Episode>, c: nat): seq<byte> {
    if trace == [] then [] else DeliveredTo(trace[..|trace| - 1], c) + Delivered(GetsOf(trace[|trace| - 1], c))
  }

  /** How many bytes it took from one. */
  ghost function TakenFrom(trace: seq<Episode>, c: nat): nat {
    if trace == [] then 0 else TakenFrom(trace[..|trace| - 1], c) + Taken(PutsOf(trace[|trace| - 1], c))
  }

  /** A turn that a connection outlives moves its history by exactly the calls on its descriptor. */
  lemma TurnFlows(s: State, t: State, e: Episode, c: nat)
    requires Inv(s, FREE) && TurnOk(s, t, e) && c < |s.history| && Alive(t.clients, c)
    ensures Alive(s.clients, c) && c < |t.history|
    ensures Flowed(s.history[c], t.history[c], GetsOf(e, c), PutsOf(e, c), true)
  {
    hide Inv, Alive, Replay, Lost, PollListOf, ReportsAll, Full, TableOk, Accepting, Fatal, Flowed, Dropped, On, Last;
    ReplayKeeps(s, e.steps);
    InvTable(e.polled);
    if Unpolled(e.list, c) {
      FlowedNone(s.history[c]);
    } else {
      var k :| 0 <= k < |e.list| && e.list[k].conn == c;
      OneDescriptor(e.polled, e, k);
      if Acted(e) {
        assert ServedAt(t, e, k);
        assert !Doomed(s, e, c);
      } else {
        OnNone(e.list[k].fd);
        FlowedNone(s.history[c]);
      }
    }
  }

  /** Every state of a run keeps the invariant. */
  ghost predicate AllInv(states: seq<State>) {
    forall k :: 0 <= k < |states| ==> Inv(states[k], FREE)
  }

  /**
   Over a whole run that a connection outlives, it received exactly what the kernel delivered on its
   descriptor, and sent exactly as much as the kernel took.
   */
  lemma {:induction false} RunFlows(states: seq<State>, trace: seq<Episode>, c: nat)
    requires Traced(states, trace) && AllInv(states) && c < |states[0].history| && Alive(states[|trace|].clients, c)
    ensures Alive(states[0].clients, c) && c < |states[|trace|].history|
    ensures var h, g := states[0].history[c], states[|trace|].history[c];
            && g.received == h.received + DeliveredTo(trace, c)
            && h.sent <= g.sent && |g.sent| == |h.sent| + TakenFrom(trace, c)
    decreases |trace|
  {
    hide Inv, Alive, TurnOk, GetsOf, PutsOf, Delivered, Taken;
    if trace != [] {
      var n := |trace| - 1;
      var s, t := states[n], states[n + 1];
      assert Traced(states[..n + 1], trace[..n]) && AllInv(states[..n + 1]);
      HistoryGrows(states, trace, n);
      TurnFlows(s, t, trace[n], c);
      RunFlows(states[..n + 1], trace[..n], c);
      assert states[0].history[c].received + DeliveredTo(trace[..n], c) + Delivered(GetsOf(trace[n], c))
          == states[0].history[c].received + DeliveredTo(trace, c);
    }
  }

  lemma {:induction false} HistoryGrows(states: seq<State>, trace: seq<Episode>, n: nat)
    requires Traced(states, trace) && n <= |trace|
    ensures |states[0].history| <= |states[n].history|
  {
    hide Inv, Served, Kept, Replay, PollListOf, ReportsAll, Acted, Full;
    if n > 0 {
      HistoryGrows(states, trace, n - 1);
      assert TurnOk(states[n - 1], states[n], trace[n - 1]);
    }
  }

  /** A connection accepted in turn `j` has received and sent nothing else since. */
  lemma AcceptedFlows(states: seq<State>, trace: seq<Episode>, j: nat, c: nat)
    requires Traced(states, trace) && AllInv(states) && j < |trace|
    requires |states[j].history| <= c < |states[j + 1].history| && Alive(states[|trace|].clients, c)
    ensures c < |states[|trace|].history|
    ensures var g := states[|trace|].history[c];
            g.received == DeliveredTo(trace[j + 1..], c) && |g.sent| == TakenFrom(trace[j + 1..], c)
  {
    hide Inv, Alive, DeliveredTo, TakenFrom;
    assert TurnOk(states[j], states[j + 1], trace[j]);
    assert states[j + 1].history[c] == History([], []);
    hide TurnOk;
    assert Traced(states[j + 1..], trace[j + 1..]);
    RunFlows(states[j + 1..], trace[j + 1..], c);
    assert [] + DeliveredTo(trace[j + 1..], c) == DeliveredTo(trace[j + 1..], c);
  }

  /** The logs of a run: what was read, sent, attempted and accepted, and what poll was asked and replied. */
  datatype Logs = Logs(gets: seq<Call<ReadReply>>, puts: seq<Call<SendReply>>, attempts: seq<Attempt>,
                       accepts: seq<Arrival>, polls: seq<PolledAll>)

  /** The logs after a turn: they grew by exactly what its record holds. */
  ghost function After(l: Logs, e: Episode): Logs {
    Logs(l.gets + e.gets, l.puts + e.puts, l.attempts + Attempts(e.steps), l.accepts + e.accepts,
         l.polls + [PolledAll(e.listening, EventsOf(e.list), e.reply)])
  }

  ghost function AfterAll(l: Logs, trace: seq<Episode>): Logs {
    if trace == [] then l else After(AfterAll(l, trace[..|trace| - 1]), trace[|trace| - 1])
  }

  lemma AfterMore(l: Logs, trace: seq<Episode>, e: Episode)
    ensures AfterAll(l, trace + [e]) == After(AfterAll(l, trace), e)
  {
    hide After;
    assert (trace + [e])[..|trace|] == trace;
  }
}
