/**
 The elementary changes of the poll server's state, and the proofs that each keeps the invariant.
 The methods of the server are sequences of these.
 */
module PollSteps {
  import opened Base
  import opened Protocol
  import opened Commands
  import opened Service
  import opened PollState

  // ---- The changes ----

  // Reading and sending concern the connection that the kernel's table has for the slot's descriptor.

  ghost function Arrive(s: State, i: nat, bytes: seq<byte>): State
    requires TableOk(s) && NamesOk(s) && Live(s, i)
  {
    var c := s.clients[i];
    var conn := s.open[c.fd];
    var h := s.history[conn];
    s.(clients := s.clients[i := c.(input := c.input + bytes)],
       history := s.history[conn := h.(received := h.received + bytes)])
  }

  ghost function TakeFrame(s: State, i: nat): State
    requires Live(s, i) && ParseRequest(s.clients[i].input).Complete?
  {
    var c := s.clients[i];
    var p := ParseRequest(c.input);
    CompleteConsumesFrame(c.input);
    s.(clients := s.clients[i := c.(input := c.input[p.consumed..])],
       queue := s.queue + [Queued(c.fd, p.value, c.conn, s.nextTicket)],
       nextTicket := s.nextTicket + 1)
  }

  ghost function Dequeue(s: State): State
    requires s.queue != []
  {
    s.(queue := s.queue[1..])
  }

  ghost function Respond(s: State, i: nat, w: World): State
    requires Live(s, i) && s.queue != [] && Answer(s.queue[0].request, w).Some?
  {
    var q := s.queue[0];
    var x: Exchange := Exchange(q.request, w);
    s.(clients := s.clients[i := s.clients[i].(output := ResponseFrame(Reply(x)))],
       queue := s.queue[1..],
       answered := s.answered + [Answered(s.clients[i].conn, q.ticket, x)])
  }

  ghost function Depart(s: State, i: nat, n: nat): State
    requires TableOk(s) && NamesOk(s) && Live(s, i) && n <= |s.clients[i].output|
  {
    var c := s.clients[i];
    var conn := s.open[c.fd];
    var h := s.history[conn];
    s.(clients := s.clients[i := c.(output := c.output[n..])],
       history := s.history[conn := h.(sent := h.sent + c.output[..n])])
  }

  ghost function Remove(s: State, i: nat): State
    requires Live(s, i)
  {
    var fd := s.clients[i].fd;
    s.(clients := s.clients[i := Client(FREE, [], [], 0)],
       queue := Drop(s.queue, fd),
       open := s.open - {fd})
  }

  ghost function Connect(s: State, i: nat, fd: int): State
    requires i < |s.clients|
  {
    s.(clients := s.clients[i := Client(fd, [], [], |s.history|)],
       open := s.open[fd := |s.history|],
       history := s.history + [History([], [])])
  }

  // ---- Frames: what changing one slot leaves alone ----

  /** Slot `i` keeps its descriptor and connection; nothing else changes in the table. */
  ghost predicate SameOwner(a: seq<Client>, b: seq<Client>, i: nat) {
    && i < |a| == |b|
    && a[i].fd == b[i].fd && a[i].conn == b[i].conn
    && forall j :: 0 <= j < |a| && j != i ==> a[j] == b[j]
  }

  lemma SameOwnerKeeps(a: seq<Client>, b: seq<Client>, i: nat)
    requires SameOwner(a, b, i)
    ensures LiveFds(a) == LiveFds(b)
    ensures forall q :: HasOwner(a, q) ==> HasOwner(b, q)
  {
    forall fd ensures fd in LiveFds(a) <==> fd in LiveFds(b) {
      if fd in LiveFds(a) {
        var j :| 0 <= j < |a| && a[j].fd != FREE && a[j].fd == fd;
        assert b[j].fd == fd;
      }
      if fd in LiveFds(b) {
        var j :| 0 <= j < |b| && b[j].fd != FREE && b[j].fd == fd;
        assert a[j].fd == fd;
      }
    }
    forall q | HasOwner(a, q) ensures HasOwner(b, q) {
      var j :| 0 <= j < |a| && Owns(a[j], q);
      assert Owns(b[j], q);
    }
  }

  lemma NamesKept(a: seq<Client>, b: seq<Client>, i: nat, open: map<int, nat>)
    requires Named(a, open) && SameOwner(a, b, i)
    ensures Named(b, open)
  {
    SameOwnerKeeps(a, b, i);
    hide LiveFds, HasOwner;
  }

  lemma OwnersKept(a: seq<Client>, b: seq<Client>, i: nat, queue: seq<Queued>)
    requires AllOwned(a, queue) && SameOwner(a, b, i)
    ensures AllOwned(b, queue)
  {
    SameOwnerKeeps(a, b, i);
    hide LiveFds, HasOwner;
  }

  lemma SlotsKept(a: seq<Client>, b: seq<Client>, i: nat, conns: nat)
    requires SlotsOk(a, conns) && SameOwner(a, b, i)
    requires |b[i].input| <= INPUT_LIMIT && |b[i].output| <= OUTPUT_LIMIT
    ensures SlotsOk(b, conns)
  {
  }

  /** The books of every slot but `i` are the same in both states. */
  ghost predicate OthersSame(s: State, t: State, i: int) {
    && |s.clients| == |t.clients|
    && forall j :: Live(t, j) && j != i ==>
         && Live(s, j) && s.clients[j] == t.clients[j]
         && s.clients[j].conn < |s.history| && s.clients[j].conn < |t.history|
         && BooksOf(s, j) == BooksOf(t, j)
  }

  lemma OthersBalanced(s: State, t: State, i: int)
    requires TableOk(s) && BooksOk(s, i) && TableOk(t) && OthersSame(s, t, i)
    ensures BooksOk(t, i)
  {
    hide Balanced, ParseRequest;
    forall j | Live(t, j) && j != i
      ensures Balanced(BooksOf(t, j)) && ParseRequest(t.clients[j].input).NeedMore?
    {
      assert Live(s, j);
    }
  }

  /** A live connection's balanced books make its past honest. */
  lemma LiveIsHonest(s: State, i: nat)
    requires i < |s.clients| && s.clients[i].conn < |s.history| && Balanced(BooksOf(s, i))
    ensures HonestPast(s, s.clients[i].conn)
  {
    hide Balanced, Honest, DoneBy, WaitingOf;
    BalancedIsHonest(BooksOf(s, i));
  }

  /** Only connection `conn` may have a changed past. */
  lemma PastKept(s: State, t: State, conn: int)
    requires PastOk(s) && forall k :: 0 <= k < |t.answered| ==> t.answered[k].conn < |t.history|
    requires forall c :: 0 <= c < |t.history| && c != conn ==>
               c < |s.history| && s.history[c] == t.history[c] && DoneBy(s.answered, c) == DoneBy(t.answered, c)
    requires 0 <= conn < |t.history| ==> HonestPast(t, conn)
    ensures PastOk(t)
  {
    forall c | 0 <= c < |t.history| ensures HonestPast(t, c) {
      if c != conn {
        assert DoneBy(s.answered, c) == DoneBy(t.answered, c);
        assert HonestPast(s, c);
      }
    }
  }

  /** A change to slot `i` and its connection alone, whose books balance again. */
  lemma OwnChange(s: State, t: State, i: nat)
    requires TableOk(s) && BooksOk(s, i) && PastOk(s) && Live(s, i)
    requires TableOk(t) && SameOwner(s.clients, t.clients, i) && |t.history| == |s.history|
    requires forall c :: 0 <= c < |s.history| && c != s.clients[i].conn ==>
               && s.history[c] == t.history[c] && DoneBy(s.answered, c) == DoneBy(t.answered, c)
               && WaitingOf(s.queue, c) == WaitingOf(t.queue, c)
    requires forall k :: 0 <= k < |t.answered| ==> t.answered[k].conn < |t.history|
    requires Balanced(BooksOf(t, i))
    ensures BooksOk(t, i) && PastOk(t)
  {
    hide Balanced, HonestPast, ParseRequest, DoneBy, WaitingOf;
    assert OthersSame(s, t, i);
    OthersBalanced(s, t, i);
    LiveIsHonest(t, i);
    PastKept(s, t, t.clients[i].conn);
  }

  // ---- Each change keeps the invariant ----

  /** Changing what slot `i` holds, but not whose it is. */
  lemma SlotSound(s: State, t: State, i: nat)
    requires Sound(s) && SameOwner(s.clients, t.clients, i) && t == s.(clients := t.clients, history := t.history)
    requires |t.history| == |s.history| && |t.clients[i].input| <= INPUT_LIMIT && |t.clients[i].output| <= OUTPUT_LIMIT
    ensures Sound(t)
  {
    hide SlotsOk, Named, AllOwned, InOrder;
    SlotsKept(s.clients, t.clients, i, |s.history|);
    NamesKept(s.clients, t.clients, i, s.open);
    OwnersKept(s.clients, t.clients, i, s.queue);
  }

  lemma ArriveKeeps(s: State, i: nat, bytes: seq<byte>)
    requires Serving(s, i) && |s.clients[i].input| + |bytes| <= INPUT_LIMIT
    ensures Serving(Arrive(s, i, bytes), i)
  {
    hide Balanced, ParseRequest, DoneBy, WaitingOf, LiveFds, AllOwned, InOrder, HonestPast;
    var t := Arrive(s, i, bytes);
    SlotSound(s, t, i);
    BytesArrive(BooksOf(s, i), bytes);
    var b := BooksOf(s, i);
    assert BooksOf(t, i) == b.(received := b.received + bytes, input := b.input + bytes);
    OwnChange(s, t, i);
  }

  lemma DepartKeeps(s: State, i: nat, n: nat)
    requires Serving(s, i) && n <= |s.clients[i].output|
    ensures Serving(Depart(s, i, n), i)
  {
    hide Balanced, ParseRequest, DoneBy, WaitingOf, LiveFds, AllOwned, InOrder, HonestPast;
    var t := Depart(s, i, n);
    SlotSound(s, t, i);
    BytesDepart(BooksOf(s, i), n);
    OwnChange(s, t, i);
  }

  lemma TakeFrameSound(s: State, i: nat)
    requires Sound(s) && Live(s, i) && ParseRequest(s.clients[i].input).Complete? && |s.queue| < MAX_QUEUED
    ensures Sound(TakeFrame(s, i))
  {
    hide ParseRequest, Named, HasOwner;
    var t := TakeFrame(s, i);
    CompleteConsumesFrame(s.clients[i].input);
    SlotSound(s, s.(clients := t.clients), i);
    hide SlotsOk;
    var q := t.queue[|s.queue|];
    assert Owns(t.clients[i], q);
    OwnerHere(t.clients, i, q);
  }

  lemma OwnerHere(clients: seq<Client>, i: nat, q: Queued)
    requires i < |clients| && Owns(clients[i], q)
    ensures HasOwner(clients, q)
  {
  }

  lemma TakeFrameKeeps(s: State, i: nat)
    requires Serving(s, i) && ParseRequest(s.clients[i].input).Complete? && |s.queue| < MAX_QUEUED
    ensures Serving(TakeFrame(s, i), i)
  {
    hide Balanced, ParseRequest, DoneBy, WaitingOf, Named, AllOwned, InOrder, HonestPast;
    var t := TakeFrame(s, i);
    TakeFrameSound(s, i);
    var q := t.queue[|s.queue|];
    FrameQueued(BooksOf(s, i));
    forall c ensures WaitingOf(t.queue, c) == WaitingOf(s.queue, c) + if q.conn == c then [q.request] else [] {
      WaitingAppend(s.queue, q, c);
    }
    OwnChange(s, t, i);
  }

  lemma RespondSound(s: State, i: nat, w: World)
    requires Sound(s) && Live(s, i) && s.queue != [] && Answer(s.queue[0].request, w).Some?
    ensures Sound(Respond(s, i, w))
  {
    hide Answer, Named, HasOwner;
    var t := Respond(s, i, w);
    SlotSound(s, s.(clients := t.clients), i);
    hide SlotsOk;
  }

  /** The queue's head goes to the books it came from; no other connection's books move. */
  lemma RespondKeeps(s: State, i: nat, w: World)
    requires Inv(s, FREE) && Live(s, i) && s.queue != [] && Owns(s.clients[i], s.queue[0])
    requires s.clients[i].output == [] && Answer(s.queue[0].request, w).Some?
    ensures Inv(Respond(s, i, w), FREE)
  {
    hide Balanced, ParseRequest, Answer, ResponseFrame, DoneBy, WaitingOf, Named, AllOwned, InOrder, HonestPast;
    var t := Respond(s, i, w);
    RespondSound(s, i, w);
    var a := t.answered[|s.answered|];
    HeadLeaves(s.queue);
    forall c ensures DoneBy(t.answered, c) == DoneBy(s.answered, c) + if a.conn == c then [a.exchange] else [] {
      DoneAppend(s.answered, a, c);
    }
    HeadAnswered(BooksOf(s, i), a.exchange);
    assert BooksOf(t, i) == BooksOf(s, i).(done := BooksOf(s, i).done + [a.exchange],
                                           waiting := BooksOf(s, i).waiting[1..],
                                           output := ResponseFrame(Reply(a.exchange)));
    OwnChange(s, t, i);
  }

  lemma HeadLeaves(queue: seq<Queued>)
    requires queue != []
    ensures forall c :: WaitingOf(queue, c)
                     == (if queue[0].conn == c then [queue[0].request] else []) + WaitingOf(queue[1..], c)
  {
  }

  /** A request whose response cannot be made leaves the queue; only its client's books are off. */
  lemma DequeueKeeps(s: State, i: nat)
    requires Inv(s, FREE) && Live(s, i) && s.queue != [] && Owns(s.clients[i], s.queue[0])
    ensures Inv(Dequeue(s), i)
  {
    hide Balanced, HonestPast, ParseRequest, DoneBy, WaitingOf, Named, HasOwner;
    var t := Dequeue(s);
    assert AllOwned(t.clients, t.queue) && InOrder(t.queue, t.answered, t.nextTicket);
    hide AllOwned, InOrder;
    HeadLeaves(s.queue);
    assert OthersSame(s, t, i);
    OthersBalanced(s, t, i);
    PastKept(s, t, -1);
  }

  /** In the queue, a live slot's descriptor and connection name the same requests. */
  lemma DescriptorNamesConnection(s: State, i: nat)
    requires TableOk(s) && QueueOk(s) && Live(s, i)
    ensures forall k :: 0 <= k < |s.queue| ==>
              (s.queue[k].fd == s.clients[i].fd <==> s.queue[k].conn == s.clients[i].conn)
  {
    forall k | 0 <= k < |s.queue|
      ensures s.queue[k].fd == s.clients[i].fd <==> s.queue[k].conn == s.clients[i].conn
    {
      assert HasOwner(s.clients, s.queue[k]);
      var j :| 0 <= j < |s.clients| && Owns(s.clients[j], s.queue[k]);
      assert Live(s, j);
    }
  }

  lemma RemoveKeeps(s: State, i: nat)
    requires Inv(s, i) && Live(s, i)
    ensures Inv(Remove(s, i), FREE)
  {
    hide Balanced, HonestPast, ParseRequest, DoneBy, WaitingOf, Named, AllOwned, InOrder, Drop;
    var t := Remove(s, i);
    var c := s.clients[i];
    DescriptorNamesConnection(s, i);
    RemoveSound(s, i);
    forall other ensures other != c.conn ==> WaitingOf(t.queue, other) == WaitingOf(s.queue, other) {
      DropWaiting(s.queue, c.fd, c.conn, other);
    }
    assert OthersSame(s, t, i);
    OthersBalanced(s, t, i);
    PastKept(s, t, -1);
  }

  lemma FdsAdded(clients: seq<Client>, i: nat, c: Client)
    requires i < |clients| && clients[i].fd == FREE && c.fd != FREE
    ensures LiveFds(clients[i := c]) == LiveFds(clients) + {c.fd}
  {
    var after := clients[i := c];
    forall f ensures f in LiveFds(after) <==> f in LiveFds(clients) || f == c.fd {
      if f in LiveFds(clients) {
        var j :| 0 <= j < |clients| && clients[j].fd != FREE && clients[j].fd == f;
        assert after[j].fd == f;
      }
      if f in LiveFds(after) {
        var j :| 0 <= j < |after| && after[j].fd != FREE && after[j].fd == f;
        assert j == i || clients[j].fd == f;
      }
      assert after[i].fd == c.fd;
    }
  }

  lemma FdsRemoved(clients: seq<Client>, i: nat, conns: nat)
    requires SlotsOk(clients, conns) && i < |clients| && clients[i].fd != FREE
    ensures LiveFds(clients[i := Client(FREE, [], [], 0)]) == LiveFds(clients) - {clients[i].fd}
  {
    var fd := clients[i].fd;
    var after := clients[i := Client(FREE, [], [], 0)];
    forall f ensures f in LiveFds(after) <==> f in LiveFds(clients) && f != fd {
      if f in LiveFds(clients) && f != fd {
        var j :| 0 <= j < |clients| && clients[j].fd != FREE && clients[j].fd == f;
        assert after[j].fd == f;
      }
      if f in LiveFds(after) {
        var j :| 0 <= j < |after| && after[j].fd != FREE && after[j].fd == f;
        assert j != i && clients[j].fd == f;
      }
    }
  }

  lemma RemoveNames(clients: seq<Client>, i: nat, open: map<int, nat>, conns: nat)
    requires SlotsOk(clients, conns) && Named(clients, open) && i < |clients| && clients[i].fd != FREE
    ensures Named(clients[i := Client(FREE, [], [], 0)], open - {clients[i].fd})
  {
    FdsRemoved(clients, i, conns);
    hide LiveFds;
    var after := clients[i := Client(FREE, [], [], 0)];
    assert forall j :: 0 <= j < |after| && after[j].fd != FREE ==> j != i && after[j] == clients[j];
  }

  lemma RemoveOwners(clients: seq<Client>, i: nat, queue: seq<Queued>)
    requires AllOwned(clients, queue) && i < |clients|
    ensures AllOwned(clients[i := Client(FREE, [], [], 0)], Drop(queue, clients[i].fd))
  {
    var after, rest := clients[i := Client(FREE, [], [], 0)], Drop(queue, clients[i].fd);
    DropMembers(queue, clients[i].fd);
    hide Drop;
    forall k | 0 <= k < |rest| ensures HasOwner(after, rest[k]) {
      assert rest[k] in queue && rest[k].fd != clients[i].fd;
      var j :| 0 <= j < |clients| && Owns(clients[j], rest[k]);
      assert Owns(after[j], rest[k]);
    }
  }

  lemma RemoveOrder(queue: seq<Queued>, fd: int, answered: seq<Answered>, nextTicket: nat)
    requires InOrder(queue, answered, nextTicket)
    ensures InOrder(Drop(queue, fd), answered, nextTicket)
  {
    DropMembers(queue, fd);
    DropSorted(queue, fd);
    hide Drop, Sorted;
    assert forall k :: 0 <= k < |Drop(queue, fd)| ==> Drop(queue, fd)[k] in queue;
  }

  lemma RemoveSound(s: State, i: nat)
    requires Sound(s) && Live(s, i)
    ensures Sound(Remove(s, i))
  {
    hide Named, AllOwned, InOrder, Drop;
    RemoveNames(s.clients, i, s.open, |s.history|);
    RemoveOwners(s.clients, i, s.queue);
    RemoveOrder(s.queue, s.clients[i].fd, s.answered, s.nextTicket);
  }

  lemma ConnectNames(clients: seq<Client>, i: nat, open: map<int, nat>, c: Client)
    requires Named(clients, open) && i < |clients| && clients[i].fd == FREE && c.fd != FREE && c.fd !in open
    ensures Named(clients[i := c], open[c.fd := c.conn])
  {
    FdsAdded(clients, i, c);
    hide LiveFds;
  }

  lemma ConnectOwners(clients: seq<Client>, i: nat, c: Client, queue: seq<Queued>, conns: nat)
    requires SlotsOk(clients, conns) && AllOwned(clients, queue) && i < |clients| && clients[i].fd == FREE
    ensures AllOwned(clients[i := c], queue)
    ensures forall k :: 0 <= k < |queue| ==> queue[k].conn < conns
  {
    forall k | 0 <= k < |queue| ensures HasOwner(clients[i := c], queue[k]) && queue[k].conn < conns {
      var j :| 0 <= j < |clients| && Owns(clients[j], queue[k]);
      assert Owns(clients[i := c][j], queue[k]);
    }
  }

  lemma ConnectSlots(clients: seq<Client>, i: nat, open: map<int, nat>, c: Client)
    requires SlotsOk(clients, c.conn) && Named(clients, open) && i < |clients|
    requires c.fd >= 0 && c.fd !in open && c.input == [] && c.output == []
    ensures SlotsOk(clients[i := c], c.conn + 1)
  {
    hide LiveFds;
  }

  lemma ConnectSound(s: State, i: nat, fd: int)
    requires Sound(s) && i < |s.clients| && s.clients[i].fd == FREE && fd >= 0 && fd !in s.open
    ensures Sound(Connect(s, i, fd))
    ensures forall k :: 0 <= k < |s.queue| ==> s.queue[k].conn < |s.history|
  {
    var c := Client(fd, [], [], |s.history|);
    ConnectNames(s.clients, i, s.open, c);
    ConnectOwners(s.clients, i, c, s.queue, |s.history|);
    ConnectSlots(s.clients, i, s.open, c);
    hide Named, AllOwned, InOrder, SlotsOk;
  }

  /** A new connection starts with empty books, even under a descriptor number used before. */
  lemma ConnectKeeps(s: State, i: nat, fd: int)
    requires Inv(s, FREE) && i < |s.clients| && s.clients[i].fd == FREE
    requires fd >= 0 && fd !in s.open
    ensures Inv(Connect(s, i, fd), FREE)
  {
    hide Balanced, HonestPast, DoneBy, WaitingOf, RequestStream, ResponseStream, Asked, Told, Named, AllOwned, InOrder;
    var t := Connect(s, i, fd);
    var conn := |s.history|;
    ConnectSound(s, i, fd);
    NothingDone(s.answered, conn);
    NothingWaiting(s.queue, conn);
    OpeningBalance();
    assert BooksOf(t, i) == Books([], [], [], [], [], []);
    assert OthersSame(s, t, i);
    OthersBalanced(s, t, i);
    LiveIsHonest(t, i);
    PastKept(s, t, conn);
  }

  // ---- Sending in pieces; the owner of the head ----

  lemma DepartNothing(s: State, i: nat)
    requires TableOk(s) && NamesOk(s) && Live(s, i)
    ensures Depart(s, i, 0) == s
  {
    var h := s.history[s.open[s.clients[i].fd]];
    assert h.sent + [] == h.sent;
  }

  /** Two departures in a row are one. */
  lemma DepartMore(s: State, i: nat, n: nat, m: nat)
    requires TableOk(s) && NamesOk(s) && Live(s, i) && n + m <= |s.clients[i].output|
    requires TableOk(Depart(s, i, n)) && NamesOk(Depart(s, i, n))
    ensures Depart(Depart(s, i, n), i, m) == Depart(s, i, n + m)
  {
    var c := s.clients[i];
    var h := s.history[c.conn];
    assert c.output[n..][m..] == c.output[n + m..];
    assert h.sent + c.output[..n] + c.output[n..][..m] == h.sent + c.output[..n + m];
  }

  /** The lookup of the head's descriptor finds the connection that sent the request. */
  lemma HeadOwner(s: State, found: Option<nat>)
    requires Inv(s, FREE) && s.queue != []
    requires found.Some? ==> found.value < |s.clients| && s.clients[found.value].fd == s.queue[0].fd
    requires found.None? ==> forall i :: 0 <= i < |s.clients| ==> s.clients[i].fd != s.queue[0].fd
    ensures found.Some? && Live(s, found.value) && Owns(s.clients[found.value], s.queue[0])
  {
    assert HasOwner(s.clients, s.queue[0]);
    var j :| 0 <= j < |s.clients| && Owns(s.clients[j], s.queue[0]);
    assert Live(s, j);
    assert Live(s, found.value);
  }

  // ---- What the invariant means to a client ----

  /**
   Every connection, live or gone, was answered a prefix of the requests its stream parses into,
   and was sent a prefix of those answers and nothing else.
   */
  lemma EveryConnectionServed(s: State, skip: int, c: nat)
    requires Inv(s, skip) && c < |s.history|
    ensures Asked(DoneBy(s.answered, c)) <= Drain(s.history[c].received).requests
    ensures s.history[c].sent <= ResponseStream(Told(DoneBy(s.answered, c)))
  {
    assert HonestPast(s, c);
    hide *;
    HonestServesPrefix(s.history[c].received, s.history[c].sent, DoneBy(s.answered, c));
  }

  /** A live connection's requests are all accounted for: answered, or waiting in the queue. */
  lemma LiveConnectionLosesNothing(s: State, i: nat)
    requires Inv(s, FREE) && Live(s, i)
    ensures var c := s.clients[i];
            && c.conn < |s.history|
            && Drain(s.history[c.conn].received)
            == Drained(Asked(DoneBy(s.answered, c.conn)) + WaitingOf(s.queue, c.conn), c.input, false)
            && s.history[c.conn].sent + c.output == ResponseStream(Told(DoneBy(s.answered, c.conn)))
  {
    var b := BooksOf(s, i);
    assert Balanced(b) && ParseRequest(b.input).NeedMore?;
    hide ParseRequest, Drain, DoneBy, WaitingOf, RequestStream, ResponseStream, Asked, Told;
    BalancedServesPrefix(b);
    DrainIncomplete(b.input);
    assert Asked(b.done) + b.waiting + [] == Asked(b.done) + b.waiting;
  }
}
