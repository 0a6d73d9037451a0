/**
 What flows through the poll server's connections in a turn: the history of each gains exactly what
 the kernel delivered and took on its own descriptor.
 */
module PollFlow {
  import opened Base
  import opened Kernel
  import opened PollState
  import opened PollSteps
  import opened PollReading
  import opened PollEvents

  /** The calls of a run made on one descriptor. */
  ghost function On<T>(calls: seq<Call<T>>, fd: int): seq<Call<T>> {
    if calls == [] then []
    else
      var last := calls[|calls| - 1];
      On(calls[..|calls| - 1], fd) + if last.fd == fd then [last] else []
  }

  lemma {:induction false} OnConcat<T>(a: seq<Call<T>>, b: seq<Call<T>>, fd: int)
    ensures On(a + b, fd) == On(a, fd) + On(b, fd)
    decreases |b|
  {
    if b == [] {
      assert a + b == a;
    } else {
      assert (a + b)[..|a + b| - 1] == a + b[..|b| - 1];
      OnConcat(a, b[..|b| - 1], fd);
    }
  }

  lemma OnNone(fd: int)
    ensures On<ReadReply>([], fd) == [] && On<SendReply>([], fd) == []
  {
  }

  /** Calls all made on one descriptor are its own, and nobody else's. */
  lemma {:induction false} OnAll<T>(calls: seq<Call<T>>, fd: int, other: int)
    requires AllOn(calls, fd)
    ensures On(calls, other) == if other == fd then calls else []
    decreases |calls|
  {
    if calls != [] {
      OnAll(calls[..|calls| - 1], fd, other);
    }
  }

  /**
   A history before and after calls of its connection: what was sent grew by what the kernel took,
   and what was received by what it delivered, of which the end may be missing if the connection
   was not kept.
   */
  ghost predicate Flowed(h: History, g: History, gets: seq<Call<ReadReply>>, puts: seq<Call<SendReply>>, kept: bool) {
    && h.received <= g.received <= h.received + Delivered(gets)
    && (kept ==> g.received == h.received + Delivered(gets))
    && h.sent <= g.sent && |g.sent| == |h.sent| + Taken(puts)
  }

  lemma FlowedNone(h: History)
    ensures Flowed(h, h, [], [], true)
  {
    NoCalls();
  }

  /** What holds of a connection that was kept also holds of one that is then dropped. */
  lemma FlowedDropped(h: History, g: History, gets: seq<Call<ReadReply>>, puts: seq<Call<SendReply>>)
    requires Flowed(h, g, gets, puts, true)
    ensures Flowed(h, g, gets, puts, false)
  {
  }

  lemma FlowedThen(h: History, g: History, f: History, gets: seq<Call<ReadReply>>, more: seq<Call<ReadReply>>,
                   puts: seq<Call<SendReply>>, further: seq<Call<SendReply>>, kept: bool)
    requires Flowed(h, g, gets, puts, true) && Flowed(g, f, more, further, kept)
    ensures Flowed(h, f, gets + more, puts + further, kept)
  {
    hide Delivered, Taken;
    DeliveredConcat(gets, more);
    TakenConcat(puts, further);
    assert h.received + Delivered(gets) + Delivered(more) == h.received + (Delivered(gets) + Delivered(more));
  }

  /** Reading, and then sending. */
  lemma FlowedBoth(h: History, g: History, f: History, gets: seq<Call<ReadReply>>, puts: seq<Call<SendReply>>)
    requires Flowed(h, g, gets, [], true) && Flowed(g, f, [], puts, true)
    ensures Flowed(h, f, gets, puts, true) && Flowed(h, f, gets, puts, false)
  {
    FlowedThen(h, g, f, gets, [], [], puts, true);
    assert gets + [] == gets && [] + puts == puts;
  }

  /** No history but one changed. */
  ghost predicate OnlyHistory(h: seq<History>, g: seq<History>, c: nat) {
    c < |h| == |g| && forall d :: 0 <= d < |h| && d != c ==> g[d] == h[d]
  }

  lemma ReadFlows(s: State, t: State, i: nat, gets: seq<Call<ReadReply>>, data: seq<byte>, verdict: Verdict)
    requires Reading(s, t, i, data) && StoppedBecause(gets, data, verdict)
    ensures var c := s.clients[i].conn;
            && OnlyHistory(s.history, t.history, c)
            && Flowed(s.history[c], t.history[c], gets, [], verdict == Kept)
  {
    hide Delivered;
    NoCalls();
  }

  lemma DepartFlows(s: State, i: nat, puts: seq<Call<SendReply>>)
    requires TableOk(s) && NamesOk(s) && Live(s, i) && Taken(puts) <= |s.clients[i].output|
    ensures var c, t := s.clients[i].conn, Depart(s, i, Taken(puts));
            && OnlyHistory(s.history, t.history, c)
            && Flowed(s.history[c], t.history[c], [], puts, true) && Flowed(s.history[c], t.history[c], [], puts, false)
  {
    hide Taken, LiveFds;
    NoCalls();
  }

  /** The histories from `n` on are those of connections nothing has happened to yet. */
  ghost predicate Newcomers(history: seq<History>, n: nat) {
    forall c :: n <= c < |history| ==> history[c] == History([], [])
  }

  /** A log since an earlier point, with more calls. */
  lemma SinceMore<T>(log: seq<T>, more: seq<T>, n: nat)
    requires n <= |log|
    ensures (log + more)[n..] == log[n..] + more
  {
  }

  ghost predicate Unpolled(list: seq<PollEntry>, c: nat) {
    forall k :: 0 <= k < |list| ==> list[k].conn != c
  }

  /** The polled connection's history was moved by the calls on its own descriptor. */
  ghost predicate FlowedAt(h: seq<History>, g: seq<History>, x: PollEntry, gets: seq<Call<ReadReply>>,
                           puts: seq<Call<SendReply>>, kept: bool)
  {
    x.conn < |h| && x.conn < |g| && Flowed(h[x.conn], g[x.conn], On(gets, x.fd), On(puts, x.fd), kept)
  }

  /** So were all polled ones', and no other's; `b` says who was kept. */
  ghost predicate FlowedAll(h: seq<History>, g: seq<History>, list: seq<PollEntry>, b: seq<Client>,
                            gets: seq<Call<ReadReply>>, puts: seq<Call<SendReply>>)
  {
    && |h| == |g|
    && (forall k :: 0 <= k < |list| ==>
          list[k].slot < |b| && FlowedAt(h, g, list[k], gets, puts, b[list[k].slot].fd != FREE))
    && (forall c: nat :: c < |h| && Unpolled(list, c) ==> g[c] == h[c])
  }

  lemma FlowedAllNone(s: State, list: seq<PollEntry>)
    requires TableOk(s) && PollListOf(s.clients, list)
    ensures FlowedAll(s.history, s.history, list, s.clients, [], [])
  {
    forall k | 0 <= k < |list|
      ensures FlowedAt(s.history, s.history, list[k], [], [], true)
    {
      FlowedNone(s.history[list[k].conn]);
    }
  }

  lemma PolledConns(s: State, list: seq<PollEntry>, k: nat, l: nat)
    requires TableOk(s) && PollListOf(s.clients, list) && k < |list| && l < |list| && k != l
    ensures list[k].conn != list[l].conn
  {
    PolledApart(s, list, k, l);
  }

  /** Another connection's calls leave a history and its account alone. */
  lemma FlowedElsewhere(h: seq<History>, g: seq<History>, f: seq<History>, x: PollEntry, y: PollEntry,
                        gets: seq<Call<ReadReply>>, more: seq<Call<ReadReply>>,
                        puts: seq<Call<SendReply>>, further: seq<Call<SendReply>>, kept: bool)
    requires FlowedAt(h, g, y, gets, puts, kept) && OnlyHistory(g, f, x.conn) && y.conn != x.conn && y.fd != x.fd
    requires AllOn(more, x.fd) && AllOn(further, x.fd)
    ensures FlowedAt(h, f, y, gets + more, puts + further, kept)
  {
    hide Flowed, AllOn, On;
    OnConcat(gets, more, y.fd);
    OnConcat(puts, further, y.fd);
    OnAll(more, x.fd, y.fd);
    OnAll(further, x.fd, y.fd);
    assert On(gets, y.fd) + [] == On(gets, y.fd) && On(puts, y.fd) + [] == On(puts, y.fd);
  }

  lemma FlowedHere(h: seq<History>, g: seq<History>, f: seq<History>, x: PollEntry,
                   gets: seq<Call<ReadReply>>, more: seq<Call<ReadReply>>,
                   puts: seq<Call<SendReply>>, further: seq<Call<SendReply>>, kept: bool)
    requires FlowedAt(h, g, x, gets, puts, true) && OnlyHistory(g, f, x.conn)
    requires Flowed(g[x.conn], f[x.conn], more, further, kept)
    requires AllOn(more, x.fd) && AllOn(further, x.fd)
    ensures FlowedAt(h, f, x, gets + more, puts + further, kept)
  {
    hide Flowed, AllOn, On;
    OnConcat(gets, more, x.fd);
    OnConcat(puts, further, x.fd);
    OnAll(more, x.fd, x.fd);
    OnAll(further, x.fd, x.fd);
    FlowedThen(h[x.conn], g[x.conn], f[x.conn], On(gets, x.fd), more, On(puts, x.fd), further, kept);
  }

  /** Handling one more polled connection keeps the account of all. */
  lemma FlowedMore(s: State, g: seq<History>, f: seq<History>, list: seq<PollEntry>, p: nat,
                   b: seq<Client>, c: seq<Client>, gets: seq<Call<ReadReply>>, more: seq<Call<ReadReply>>,
                   puts: seq<Call<SendReply>>, further: seq<Call<SendReply>>)
    requires TableOk(s) && PollListOf(s.clients, list) && p < |list|
    requires FlowedAll(s.history, g, list, b, gets, puts) && b[list[p].slot].fd != FREE
    requires OnlySlot(b, c, list[p].slot) && OnlyHistory(g, f, list[p].conn)
    requires Flowed(g[list[p].conn], f[list[p].conn], more, further, c[list[p].slot].fd != FREE)
    requires AllOn(more, list[p].fd) && AllOn(further, list[p].fd)
    ensures FlowedAll(s.history, f, list, c, gets + more, puts + further)
  {
    hide TableOk, PollListOf, AllOn, Flowed, FlowedAt;
    forall k | 0 <= k < |list|
      ensures list[k].slot < |c|
      ensures FlowedAt(s.history, f, list[k], gets + more, puts + further, c[list[k].slot].fd != FREE)
    {
      if k == p {
        FlowedHere(s.history, g, f, list[p], gets, more, puts, further, c[list[p].slot].fd != FREE);
      } else {
        PolledApart(s, list, k, p);
        PolledConns(s, list, k, p);
        FlowedElsewhere(s.history, g, f, list[p], list[k], gets, more, puts, further, b[list[k].slot].fd != FREE);
      }
    }
  }
}
