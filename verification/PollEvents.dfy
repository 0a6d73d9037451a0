/**
 What one turn of the poll server does, on values: answering from the queue, the poll list, the
 handling of its entries one by one, and what it comes to for every connection.
 */
module PollEvents {
  import opened Base
  import opened Protocol
  import opened Commands
  import opened Service
  import opened Kernel
  import opened PollState
  import opened PollSteps
  import opened PollReading

  datatype PollEntry = PollEntry(slot: nat, fd: int, events: Events, ghost conn: nat)

  function EventsOf(list: seq<PollEntry>): (events: seq<Events>)
    ensures |events| == |list|
  {
    seq(|list|, k requires 0 <= k < |list| => list[k].events)
  }

  /** The descriptors that accept gave and that became nonblocking, in order. */
  ghost function Admitted(log: seq<Arrival>): seq<int> {
    if log == [] then []
    else
      var last := log[|log| - 1];
      Admitted(log[..|log| - 1]) + if last.reply.Accepted? && last.nonblocking then [last.reply.fd] else []
  }

  lemma AdmitOne(log: seq<Arrival>, a: Arrival)
    ensures Admitted(log + [a]) == Admitted(log) + if a.reply.Accepted? && a.nonblocking then [a.reply.fd] else []
  {
    assert (log + [a])[..|log|] == log;
  }

  /** Each descriptor names a connection of its own, numbered from `n` on. */
  ghost predicate Welcomed(n: nat, fds: seq<int>, open: map<int, nat>) {
    forall k :: 0 <= k < |fds| ==> fds[k] in open && open[fds[k]] == n + k
  }

  lemma WelcomeOne(n: nat, fds: seq<int>, open: map<int, nat>, fd: int)
    requires Welcomed(n, fds, open) && fd !in open
    ensures Welcomed(n, fds + [fd], open[fd := n + |fds|])
  {
  }

  lemma NobodyAdmitted(n: nat, open: map<int, nat>)
    ensures Admitted([]) == [] && Welcomed(n, [], open)
  {
  }

  ghost predicate Full(clients: seq<Client>) {
    forall i :: 0 <= i < |clients| ==> clients[i].fd != FREE
  }

  /** Poll reports on the polled descriptors, and only what was asked for or an error. */
  ghost predicate ReportsAll(list: seq<PollEntry>, r: PollAllReply) {
    r.AllReady? ==> |r.clients| == |list| && forall k :: 0 <= k < |list| ==> Reports(list[k].events, r.clients[k])
  }

  /** The main loop ends on a failed poll or an error of the listener. */
  predicate Fatal(r: PollAllReply) {
    r.AllFailed? || (r.AllReady? && (r.listener.error || r.listener.hangup || r.listener.invalid))
  }

  // ---- Measures ----

  ghost function Pending(c: Client): nat {
    if c.fd == FREE then 0 else |c.output|
  }

  ghost function TotalOutput(clients: seq<Client>): nat {
    if clients == [] then 0 else Pending(clients[0]) + TotalOutput(clients[1..])
  }

  /** How many bytes there can be to send without further input. */
  ghost function Potential(clients: seq<Client>, queue: seq<Queued>): nat {
    TotalOutput(clients) + |queue| * OUTPUT_LIMIT
  }

  lemma {:induction false} TotalOutputUpdate(clients: seq<Client>, i: nat, c: Client)
    requires i < |clients|
    ensures TotalOutput(clients[i := c]) + Pending(clients[i]) == TotalOutput(clients) + Pending(c)
    decreases |clients|
  {
    if i == 0 {
      assert clients[i := c][1..] == clients[1..];
    } else {
      assert clients[i := c][1..] == clients[1..][i - 1 := c];
      TotalOutputUpdate(clients[1..], i - 1, c);
    }
  }

  lemma RemoveShrinks(s: State, i: nat)
    requires Live(s, i)
    ensures |Remove(s, i).queue| <= |s.queue|
    ensures TotalOutput(Remove(s, i).clients) <= TotalOutput(s.clients)
  {
    DropMembers(s.queue, s.clients[i].fd);
    TotalOutputUpdate(s.clients, i, Client(FREE, [], [], 0));
  }

  lemma DepartShrinks(s: State, i: nat, n: nat)
    requires TableOk(s) && NamesOk(s) && Live(s, i) && n <= |s.clients[i].output|
    ensures var t := Depart(s, i, n);
            && OnlySlot(s.clients, t.clients, i) && t.clients[i].fd == s.clients[i].fd
            && t.answered == s.answered && |t.history| == |s.history| && t.queue == s.queue
            && TotalOutput(t.clients) + n == TotalOutput(s.clients)
  {
    hide LiveFds;
    TotalOutputUpdate(s.clients, i, Depart(s, i, n).clients[i]);
  }

  lemma RespondSpends(s: State, i: nat, w: World)
    requires Live(s, i) && s.queue != [] && Answer(s.queue[0].request, w).Some?
    ensures var t := Respond(s, i, w);
            |t.queue| == |s.queue| - 1 && TotalOutput(t.clients) <= TotalOutput(s.clients) + OUTPUT_LIMIT
  {
    hide Answer;
    TotalOutputUpdate(s.clients, i, Respond(s, i, w).clients[i]);
  }

  lemma AnswerSpends(s: State, i: nat, w: World, placed: bool)
    requires Live(s, i) && s.queue != [] && (placed ==> Answer(s.queue[0].request, w).Some?)
    ensures var t := if placed then Respond(s, i, w) else Remove(Dequeue(s), i);
            |t.queue| < |s.queue| && Potential(t.clients, t.queue) <= Potential(s.clients, s.queue)
  {
    hide Answer, Drop, TotalOutput;
    if placed {
      RespondSpends(s, i, w);
    } else {
      RemoveShrinks(Dequeue(s), i);
    }
  }

  // ---- Answering from the queue ----

  /** The first waiting request cannot be answered yet because its client has output pending. */
  ghost predicate HeadBlocked(clients: seq<Client>, queue: seq<Queued>) {
    queue != [] && exists i :: 0 <= i < |clients| && Owns(clients[i], queue[0]) && clients[i].output != []
  }

  /** The next request of the queue became the next answer, told to the connection that asked. */
  ghost predicate InTurn(a: Answered, q: Queued, w: World) {
    a.conn == q.conn && a.ticket == q.ticket && a.exchange.request == q.request && a.exchange.world == w
  }

  // ---- The poll list ----

  /** The poll list holds exactly the live slots below `n`. */
  ghost predicate PollListUpTo(clients: seq<Client>, list: seq<PollEntry>, n: nat)
    requires n <= |clients|
  {
    && (forall k :: 0 <= k < |list| ==>
          && list[k].slot < n && clients[list[k].slot].fd == list[k].fd && list[k].fd != FREE
          && clients[list[k].slot].conn == list[k].conn
          && list[k].events == Events(true, clients[list[k].slot].output != []))
    && (forall k, l :: 0 <= k < l < |list| ==> list[k].slot < list[l].slot)
    && (forall i :: 0 <= i < n && clients[i].fd != FREE ==> exists k :: 0 <= k < |list| && list[k].slot == i)
  }

  ghost predicate PollListOf(clients: seq<Client>, list: seq<PollEntry>) {
    PollListUpTo(clients, list, |clients|)
  }

  lemma PolledApart(s: State, list: seq<PollEntry>, k: nat, l: nat)
    requires TableOk(s) && PollListOf(s.clients, list) && k < |list| && l < |list| && k != l
    ensures list[k].fd != list[l].fd && list[k].slot != list[l].slot
  {
  }

  // ---- Handling one client ----

  /** Slot `i` holds what it held, or nothing; the other slots are untouched. */
  ghost predicate OnlySlot(a: seq<Client>, b: seq<Client>, i: nat) {
    && i < |a| == |b|
    && (forall j :: 0 <= j < |a| && j != i ==> a[j] == b[j])
    && (b[i].fd == FREE || (b[i].fd == a[i].fd && b[i].conn == a[i].conn))
  }

  /** A client is disconnected when poll reports an error, reading ends but on an empty socket, or sending fails. */
  ghost predicate Dropped(events: Revents, got: Option<ReadReply>, put: Option<SendReply>) {
    || events.error || events.hangup || events.invalid
    || (got.Some? && !got.value.ReadAgain?)
    || put == Some(SendFailed)
  }

  /** What became of slot `i` by its events and the last replies on its descriptor. */
  ghost predicate Handled(a: seq<Client>, b: seq<Client>, i: nat, events: Revents,
                          got: Option<ReadReply>, put: Option<SendReply>)
  {
    && i < |a| == |b|
    && (got.Some? <==> events.input) && (put.Some? ==> events.output)
    && (b[i].fd == FREE <==> Dropped(events, got, put))
    && (b[i].fd != FREE ==>
          && b[i].fd == a[i].fd && b[i].conn == a[i].conn
          && (events.output ==> b[i].output == [] || put == Some(SendAgain)))
  }

  lemma ReadFrame(s: State, t: State, i: nat, data: seq<byte>)
    requires Reading(s, t, i, data)
    ensures OnlySlot(s.clients, t.clients, i) && t.clients[i].fd == s.clients[i].fd
    ensures t.answered == s.answered && |t.history| == |s.history|
  {
    hide Drain;
  }

  lemma WeakenInv(s: State, i: nat)
    requires Inv(s, FREE)
    ensures Inv(s, i)
  {
    hide Balanced, HonestPast, ParseRequest, SlotsOk, Named, AllOwned, InOrder;
  }

  lemma InitialInv(slots: nat)
    ensures Inv(State(seq(slots, _ => Client(FREE, [], [], 0)), [], map[], [], [], 0), FREE)
  {
    assert LiveFds(seq(slots, _ => Client(FREE, [], [], 0))) == {};
  }

  /** With no client left, no request is left and no descriptor is open. */
  lemma NobodyLeft(s: State)
    requires Inv(s, FREE) && forall i :: 0 <= i < |s.clients| ==> s.clients[i].fd == FREE
    ensures s.queue == [] && s.open == map[]
  {
    hide Balanced, HonestPast, ParseRequest, InOrder;
    assert s.queue != [] ==> HasOwner(s.clients, s.queue[0]);
    assert LiveFds(s.clients) == {};
  }

  lemma InvTable(s: State)
    requires Inv(s, FREE)
    ensures TableOk(s)
    ensures forall i :: 0 <= i < |s.clients| && s.clients[i].fd != FREE ==> s.clients[i].conn < |s.history|
  {
    hide Balanced, HonestPast, ParseRequest, Named, AllOwned, InOrder;
  }

  // ---- Handling all polled clients ----

  /** The first `p` polled slots were handled by their own events and replies; the others are as they were polled. */
  ghost predicate HandledUpTo(a: seq<Client>, b: seq<Client>, list: seq<PollEntry>, events: seq<Revents>, p: nat,
                              readLog: seq<Call<ReadReply>>, n: nat, sendLog: seq<Call<SendReply>>, m: nat)
  {
    && p <= |list| == |events| && n <= |readLog| && m <= |sendLog|
    && (forall k :: 0 <= k < p ==>
          Handled(a, b, list[k].slot, events[k], Last(readLog, n, list[k].fd), Last(sendLog, m, list[k].fd)))
    && (forall k :: p <= k < |list| ==>
          && list[k].slot < |a| == |b| && b[list[k].slot] == a[list[k].slot]
          && Last(readLog, n, list[k].fd) == None && Last(sendLog, m, list[k].fd) == None)
  }

  lemma HandledNone(s: State, list: seq<PollEntry>, events: seq<Revents>,
                    readLog: seq<Call<ReadReply>>, sendLog: seq<Call<SendReply>>)
    requires PollListOf(s.clients, list) && |events| == |list|
    ensures HandledUpTo(s.clients, s.clients, list, events, 0, readLog, |readLog|, sendLog, |sendLog|)
  {
  }

  lemma StillPolled(s: State, b: seq<Client>, list: seq<PollEntry>, events: seq<Revents>, p: nat,
                    readLog: seq<Call<ReadReply>>, n: nat, sendLog: seq<Call<SendReply>>, m: nat)
    requires PollListOf(s.clients, list) && p < |list|
    requires HandledUpTo(s.clients, b, list, events, p, readLog, n, sendLog, m)
    ensures list[p].slot < |b| && b[list[p].slot].fd == list[p].fd != FREE && |events| == |list|
    ensures b[list[p].slot].conn == list[p].conn && n <= |readLog| && m <= |sendLog|
  {
    hide Handled, Last;
  }

  lemma HandledOneMore(s: State, b: seq<Client>, c: seq<Client>, list: seq<PollEntry>, events: seq<Revents>, p: nat,
                       readLog: seq<Call<ReadReply>>, gets: seq<Call<ReadReply>>, n: nat,
                       sendLog: seq<Call<SendReply>>, puts: seq<Call<SendReply>>, m: nat)
    requires TableOk(s) && PollListOf(s.clients, list) && p < |list|
    requires HandledUpTo(s.clients, b, list, events, p, readLog, n, sendLog, m)
    requires OnlySlot(b, c, list[p].slot) && AllOn(gets, list[p].fd) && AllOn(puts, list[p].fd)
    requires Handled(b, c, list[p].slot, events[p], Last(gets, 0, list[p].fd), Last(puts, 0, list[p].fd))
    ensures HandledUpTo(s.clients, c, list, events, p + 1, readLog + gets, n, sendLog + puts, m)
  {
    LastHere(readLog, gets, n, list[p].fd);
    LastHere(sendLog, puts, m, list[p].fd);
    forall k | 0 <= k < |list| && k != p
      ensures Last(readLog + gets, n, list[k].fd) == Last(readLog, n, list[k].fd)
      ensures Last(sendLog + puts, m, list[k].fd) == Last(sendLog, m, list[k].fd)
      ensures list[k].slot != list[p].slot
    {
      PolledApart(s, list, k, p);
      LastElsewhere(readLog, gets, n, list[p].fd, list[k].fd);
      LastElsewhere(sendLog, puts, m, list[p].fd, list[k].fd);
    }
    hide Last, TableOk, AllOn, Dropped;
  }

  // ---- Connections across a turn ----

  ghost predicate Alive(clients: seq<Client>, conn: nat) {
    exists i :: 0 <= i < |clients| && clients[i].fd != FREE && clients[i].conn == conn
  }

  /** Live slots are as they were; free ones are free or hold a connection numbered `n` or higher. */
  ghost predicate Joined(a: seq<Client>, b: seq<Client>, n: nat) {
    && |a| == |b|
    && forall i :: 0 <= i < |a| ==> if a[i].fd != FREE then b[i] == a[i] else b[i].fd == FREE || b[i].conn >= n
  }

  lemma JoinedKeeps(a: seq<Client>, b: seq<Client>, n: nat, conn: nat)
    requires Joined(a, b, n) && conn < n
    ensures Alive(a, conn) <==> Alive(b, conn)
  {
    if Alive(a, conn) {
      var i :| 0 <= i < |a| && a[i].fd != FREE && a[i].conn == conn;
      assert b[i].fd != FREE && b[i].conn == conn;
    }
    if Alive(b, conn) {
      var i :| 0 <= i < |b| && b[i].fd != FREE && b[i].conn == conn;
      assert a[i].fd != FREE && a[i].conn == conn;
    }
  }

  /** Once its events are handled, a polled connection is alive unless it was dropped. */
  lemma HandledAlive(s: State, b: seq<Client>, list: seq<PollEntry>, k: nat, events: Revents,
                     got: Option<ReadReply>, put: Option<SendReply>)
    requires TableOk(s) && PollListOf(s.clients, list) && k < |list| && Survivors(s.clients, b)
    requires Handled(s.clients, b, list[k].slot, events, got, put)
    ensures Alive(b, list[k].conn) <==> !Dropped(events, got, put)
  {
    hide Dropped;
    var i := list[k].slot;
    if Alive(b, list[k].conn) {
      var j :| 0 <= j < |b| && b[j].fd != FREE && b[j].conn == list[k].conn;
      assert s.clients[j].fd != FREE && s.clients[j].conn == s.clients[i].conn;
      assert j == i;
    }
    if b[i].fd != FREE {
      assert b[i].conn == list[k].conn;
    }
  }

  /** Every slot holds what connection it held, or none. */
  ghost predicate Survivors(a: seq<Client>, b: seq<Client>) {
    && |a| == |b|
    && forall i :: 0 <= i < |a| ==> b[i].fd == FREE || (b[i].fd == a[i].fd && b[i].conn == a[i].conn)
  }

  lemma StillRoom(a: seq<Client>, b: seq<Client>)
    requires Survivors(a, b) && !Full(a)
    ensures !Full(b)
  {
    var i :| 0 <= i < |a| && a[i].fd == FREE;
    assert b[i].fd == FREE;
  }

  lemma SurvivorsAll(a: seq<Client>)
    ensures Survivors(a, a)
  {
  }

  lemma SurvivorsMore(a: seq<Client>, b: seq<Client>, c: seq<Client>, i: nat)
    requires Survivors(a, b) && OnlySlot(b, c, i)
    ensures Survivors(a, c)
  {
  }

  /** From poll to the end of the turn: `s` when polled, `b` once events were handled, `c` after accepting. */
  lemma TurnKeeps(s: State, b: seq<Client>, c: seq<Client>, list: seq<PollEntry>, events: seq<Revents>,
                  readLog: seq<Call<ReadReply>>, n: nat, sendLog: seq<Call<SendReply>>, m: nat)
    requires TableOk(s) && PollListOf(s.clients, list) && Survivors(s.clients, b)
    requires HandledUpTo(s.clients, b, list, events, |list|, readLog, n, sendLog, m)
    requires b == c || Joined(b, c, |s.history|)
    ensures forall k :: 0 <= k < |list| ==>
              (Alive(c, list[k].conn)
               <==> !Dropped(events[k], Last(readLog, n, list[k].fd), Last(sendLog, m, list[k].fd)))
    ensures forall conn: nat :: conn < |s.history| && Alive(c, conn) ==>
              exists k :: 0 <= k < |list| && list[k].conn == conn
  {
    forall k | 0 <= k < |list|
      ensures Alive(c, list[k].conn)
         <==> !Dropped(events[k], Last(readLog, n, list[k].fd), Last(sendLog, m, list[k].fd))
    {
      HandledAlive(s, b, list, k, events[k], Last(readLog, n, list[k].fd), Last(sendLog, m, list[k].fd));
      if b != c {
        JoinedKeeps(b, c, |s.history|, list[k].conn);
      }
    }
    hide Dropped, Last, HandledUpTo;
    forall conn: nat | conn < |s.history| && Alive(c, conn)
      ensures exists k :: 0 <= k < |list| && list[k].conn == conn
    {
      if b != c {
        JoinedKeeps(b, c, |s.history|, conn);
      }
      var i :| 0 <= i < |b| && b[i].fd != FREE && b[i].conn == conn;
      assert s.clients[i].fd != FREE;
      var k :| 0 <= k < |list| && list[k].slot == i;
      assert list[k].conn == conn;
    }
  }

  /** The same account, of the calls made since the logs were `n` and `m` long. */
  lemma HandledShift(a: seq<Client>, b: seq<Client>, list: seq<PollEntry>, events: seq<Revents>,
                     readLog: seq<Call<ReadReply>>, gets: seq<Call<ReadReply>>,
                     sendLog: seq<Call<SendReply>>, puts: seq<Call<SendReply>>)
    requires HandledUpTo(a, b, list, events, |list|, readLog + gets, |readLog|, sendLog + puts, |sendLog|)
    ensures HandledUpTo(a, b, list, events, |list|, gets, 0, puts, 0)
  {
    hide Handled;
    forall k | 0 <= k < |list|
      ensures Handled(a, b, list[k].slot, events[k], Last(gets, 0, list[k].fd), Last(puts, 0, list[k].fd))
    {
      LastShift(readLog, gets, list[k].fd);
      LastShift(sendLog, puts, list[k].fd);
    }
  }
}
