/**
 The state of the poll server (src/server_uds.c) with the history of every connection, the
 invariant that ties the two together, and the elementary changes that keep it. File descriptor
 numbers are reused by the kernel, so history is kept by connection: `conn` numbers the accepted
 connections, and `ticket` the enqueued requests. No decision of the server depends on them.
 */
module PollState {
  import opened Base
  import opened Protocol
  import opened Service
  import Queue

  const MAX_QUEUED: nat := 256
  const FREE: int := -1

  /** A slot of the table: its descriptor, what its two buffers hold, and its connection. */
  datatype Client = Client(fd: int, ghost input: seq<byte>, ghost output: seq<byte>, ghost conn: nat)

  datatype Queued = Queued(fd: int, request: Request, conn: nat, ticket: nat)

  /** An answered request: whose it was, when it was enqueued, and the exchange it became. */
  datatype Answered = Answered(conn: nat, ticket: nat, exchange: Exchange)

  datatype History = History(received: seq<byte>, sent: seq<byte>)

  datatype State = State(
    clients: seq<Client>,        // the client table
    queue: seq<Queued>,          // the shared request queue
    open: map<int, nat>,         // the kernel's table: the connection each open descriptor names
    history: seq<History>,       // per connection, all that was ever received and sent
    answered: seq<Answered>,     // all requests ever answered, in the order of execution
    nextTicket: nat)             // how many requests were ever enqueued

  // ---- Views ----

  ghost predicate Live(s: State, i: int) {
    0 <= i < |s.clients| && s.clients[i].fd != FREE
  }

  ghost function DoneBy(answered: seq<Answered>, conn: nat): seq<Exchange> {
    if answered == [] then []
    else
      var last := answered[|answered| - 1];
      DoneBy(answered[..|answered| - 1], conn) + if last.conn == conn then [last.exchange] else []
  }

  ghost function WaitingOf(queue: seq<Queued>, conn: nat): seq<Request> {
    if queue == [] then []
    else (if queue[0].conn == conn then [queue[0].request] else []) + WaitingOf(queue[1..], conn)
  }

  /** The queue without a client's requests, as its linked list leaves it. */
  function Drop(queue: seq<Queued>, fd: int): seq<Queued> {
    if queue == [] then []
    else (if queue[0].fd == fd then [] else [queue[0]]) + Drop(queue[1..], fd)
  }

  function ItemsOf(queue: seq<Queued>): (items: seq<Queue.Item>)
    ensures |items| == |queue|
  {
    seq(|queue|, k requires 0 <= k < |queue| => Queue.Item(queue[k].fd, queue[k].request))
  }

  function LiveFds(clients: seq<Client>): set<int> {
    set i | 0 <= i < |clients| && clients[i].fd != FREE :: clients[i].fd
  }

  ghost function BooksOf(s: State, i: nat): Books
    requires i < |s.clients| && s.clients[i].conn < |s.history|
  {
    var c := s.clients[i];
    Books(s.history[c.conn].received, s.history[c.conn].sent, DoneBy(s.answered, c.conn),
          WaitingOf(s.queue, c.conn), c.input, c.output)
  }

  // ---- The invariant ----

  // Its parts are predicates of just the fields they concern, so that a change to one field is seen
  // to leave the others' parts alone.

  /** Live slots hold valid descriptors and distinct connections; buffers are within their limits. */
  ghost predicate SlotsOk(clients: seq<Client>, conns: nat) {
    && (forall i :: 0 <= i < |clients| && clients[i].fd != FREE ==>
          && clients[i].fd >= 0 && clients[i].conn < conns
          && |clients[i].input| <= INPUT_LIMIT && |clients[i].output| <= OUTPUT_LIMIT)
    && (forall i, j :: 0 <= i < |clients| && 0 <= j < |clients| && i != j ==>
          clients[i].fd != FREE && clients[j].fd != FREE ==>
            clients[i].fd != clients[j].fd && clients[i].conn != clients[j].conn)
  }

  ghost predicate TableOk(s: State) {
    SlotsOk(s.clients, |s.history|)
  }

  /** The open descriptors are those of the live slots, and in the kernel's table each names its slot's connection. */
  ghost predicate Named(clients: seq<Client>, open: map<int, nat>) {
    && open.Keys == LiveFds(clients)
    && forall i :: 0 <= i < |clients| && clients[i].fd != FREE ==>
         clients[i].fd in open && open[clients[i].fd] == clients[i].conn
  }

  ghost predicate NamesOk(s: State) {
    Named(s.clients, s.open)
  }

  /** The connection that sent the request is in the table, under the descriptor the request names. */
  ghost predicate Owns(c: Client, q: Queued) {
    c.fd == q.fd && c.conn == q.conn && q.fd != FREE
  }

  ghost predicate HasOwner(clients: seq<Client>, q: Queued) {
    exists i :: 0 <= i < |clients| && Owns(clients[i], q)
  }

  ghost predicate AllOwned(clients: seq<Client>, queue: seq<Queued>) {
    && |queue| <= MAX_QUEUED
    && forall k :: 0 <= k < |queue| ==> HasOwner(clients, queue[k])
  }

  ghost predicate QueueOk(s: State) {
    AllOwned(s.clients, s.queue)
  }

  /** Requests are answered in the order they were enqueued. */
  ghost predicate InOrder(queue: seq<Queued>, answered: seq<Answered>, nextTicket: nat) {
    && Sorted(queue)
    && (forall k, l :: 0 <= k < l < |answered| ==> answered[k].ticket < answered[l].ticket)
    && (forall k, l :: 0 <= k < |answered| && 0 <= l < |queue| ==> answered[k].ticket < queue[l].ticket)
    && (forall k :: 0 <= k < |queue| ==> queue[k].ticket < nextTicket)
    && (forall k :: 0 <= k < |answered| ==> answered[k].ticket < nextTicket)
  }

  ghost predicate FifoOk(s: State) {
    InOrder(s.queue, s.answered, s.nextTicket)
  }

  /** The books of every live connection balance, and its pending input is an incomplete frame. */
  ghost predicate BooksOk(s: State, skip: int)
    requires TableOk(s)
  {
    forall i :: Live(s, i) && i != skip ==>
      Balanced(BooksOf(s, i)) && ParseRequest(s.clients[i].input).NeedMore?
  }

  /** Every connection ever, live or gone, was sent a prefix of the answers to its own requests. */
  ghost predicate PastOk(s: State) {
    && (forall k :: 0 <= k < |s.answered| ==> s.answered[k].conn < |s.history|)
    && (forall c :: 0 <= c < |s.history| ==> HonestPast(s, c))
  }

  ghost predicate HonestPast(s: State, c: nat)
    requires c < |s.history|
  {
    Honest(s.history[c].received, s.history[c].sent, DoneBy(s.answered, c))
  }

  /** The part of the invariant that is about the table, the kernel and the queue. */
  ghost predicate Sound(s: State) {
    TableOk(s) && NamesOk(s) && QueueOk(s) && FifoOk(s)
  }

  /** `skip` is a slot in the middle of being served, or FREE for none. */
  ghost predicate Inv(s: State, skip: int) {
    Sound(s) && BooksOk(s, skip) && PastOk(s)
  }

  /** A slot being served whose books nevertheless balance. */
  ghost predicate Serving(s: State, i: int) {
    Inv(s, i) && Live(s, i) && Balanced(BooksOf(s, i))
  }

  // ---- Facts about the views ----

  lemma {:induction false} WaitingConcat(a: seq<Queued>, b: seq<Queued>, conn: nat)
    ensures WaitingOf(a + b, conn) == WaitingOf(a, conn) + WaitingOf(b, conn)
    decreases |a|
  {
    if a == [] {
      assert a + b == b;
    } else {
      assert (a + b)[1..] == a[1..] + b;
      WaitingConcat(a[1..], b, conn);
    }
  }

  lemma WaitingAppend(queue: seq<Queued>, q: Queued, conn: nat)
    ensures WaitingOf(queue + [q], conn) == WaitingOf(queue, conn) + if q.conn == conn then [q.request] else []
  {
    WaitingConcat(queue, [q], conn);
    assert [q][1..] == [];
  }

  lemma DoneAppend(answered: seq<Answered>, a: Answered, conn: nat)
    ensures DoneBy(answered + [a], conn) == DoneBy(answered, conn) + if a.conn == conn then [a.exchange] else []
  {
    assert (answered + [a])[..|answered|] == answered;
  }

  /** A connection nobody has used yet has no history. */
  lemma {:induction false} NothingDone(answered: seq<Answered>, conn: nat)
    requires forall k :: 0 <= k < |answered| ==> answered[k].conn != conn
    ensures DoneBy(answered, conn) == []
    decreases |answered|
  {
    if answered != [] {
      NothingDone(answered[..|answered| - 1], conn);
    }
  }

  lemma {:induction false} NothingWaiting(queue: seq<Queued>, conn: nat)
    requires forall k :: 0 <= k < |queue| ==> queue[k].conn != conn
    ensures WaitingOf(queue, conn) == []
    decreases |queue|
  {
    if queue != [] {
      NothingWaiting(queue[1..], conn);
    }
  }

  /** Dropping is the filter the linked list is proved to compute. */
  lemma {:induction false} DropIsWithout(queue: seq<Queued>, fd: int)
    ensures ItemsOf(Drop(queue, fd)) == Queue.Without(ItemsOf(queue), fd)
    decreases |queue|
  {
    if queue != [] {
      DropIsWithout(queue[1..], fd);
      assert ItemsOf(queue)[1..] == ItemsOf(queue[1..]);
      assert queue[0].fd != fd ==> ItemsOf(Drop(queue, fd)) == [ItemsOf(queue)[0]] + ItemsOf(Drop(queue[1..], fd));
    }
  }

  ghost predicate Sorted(queue: seq<Queued>) {
    forall k, l :: 0 <= k < l < |queue| ==> queue[k].ticket < queue[l].ticket
  }

  /** Dropping keeps exactly the requests of other descriptors. */
  lemma {:induction false} DropMembers(queue: seq<Queued>, fd: int)
    ensures |Drop(queue, fd)| <= |queue|
    ensures forall q :: q in Drop(queue, fd) <==> q in queue && q.fd != fd
    decreases |queue|
  {
    if queue != [] {
      DropMembers(queue[1..], fd);
      assert queue == [queue[0]] + queue[1..];
    }
  }

  lemma {:induction false} DropSorted(queue: seq<Queued>, fd: int)
    requires Sorted(queue)
    ensures Sorted(Drop(queue, fd))
    decreases |queue|
  {
    if queue != [] {
      var rest := Drop(queue[1..], fd);
      DropSorted(queue[1..], fd);
      DropMembers(queue[1..], fd);
      forall l | 0 <= l < |rest| ensures queue[0].ticket < rest[l].ticket {
        assert rest[l] in queue[1..];
      }
    }
  }

  /** When a descriptor and a connection name the same requests, no other connection loses any. */
  lemma {:induction false} DropWaiting(queue: seq<Queued>, fd: int, conn: nat, other: nat)
    requires forall k :: 0 <= k < |queue| ==> (queue[k].fd == fd <==> queue[k].conn == conn)
    ensures WaitingOf(Drop(queue, fd), other) == if other == conn then [] else WaitingOf(queue, other)
    decreases |queue|
  {
    if queue != [] {
      var rest := Drop(queue[1..], fd);
      DropWaiting(queue[1..], fd, conn, other);
      if queue[0].fd != fd {
        assert ([queue[0]] + rest)[1..] == rest;
      } else {
        assert Drop(queue, fd) == rest;
      }
    }
  }
}
