/**
 What reading from one client does to the poll server's state: how the frames in the bytes of any
 number of reads reach the queue, and why the reading ends.
 */
module PollReading {
  import opened Base
  import opened Protocol
  import opened Service
  import opened PollState
  import opened PollSteps
  import opened Kernel

  /** Why reading from a client stopped: for now, or for good. */
  datatype Verdict = Kept | BadFrame | QueueFull | NoMemory | Closed | Broken

  function RequestsOf(queue: seq<Queued>): (rs: seq<Request>)
    ensures |rs| == |queue|
  {
    seq(|queue|, k requires 0 <= k < |queue| => queue[k].request)
  }

  /** What a queue gained since it was `n` entries long. */
  ghost function Gained(queue: seq<Queued>, n: nat): seq<Request>
    requires n <= |queue|
  {
    RequestsOf(queue[n..])
  }

  lemma GainOne(queue: seq<Queued>, q: Queued, n: nat)
    requires n <= |queue|
    ensures Gained(queue, |queue|) == []
    ensures Gained(queue + [q], n) == Gained(queue, n) + [q.request]
  {
    assert (queue + [q])[n..] == queue[n..] + [q];
  }

  /** How many more reads one call can make: each takes a step down this scale or is the last. */
  function ReadsLeft(queued: nat, pending: nat): int {
    (MAX_QUEUED - queued) * (INPUT_LIMIT + 1) + (INPUT_LIMIT - pending)
  }

  // ---- Entering and leaving the service of one slot ----

  lemma StartServing(s: State, i: nat)
    requires Inv(s, FREE) && Live(s, i)
    ensures Serving(s, i) && ParseRequest(s.clients[i].input).NeedMore?
  {
  }

  lemma StopServing(s: State, i: nat)
    requires Serving(s, i) && ParseRequest(s.clients[i].input).NeedMore?
    ensures Inv(s, FREE)
  {
  }

  lemma ServingBounds(s: State, i: nat)
    requires Serving(s, i)
    ensures |s.queue| <= MAX_QUEUED && i < |s.clients| && s.clients[i].conn < |s.history|
    ensures |s.clients[i].input| <= INPUT_LIMIT && Live(s, i) && Inv(s, i) && TableOk(s) && NamesOk(s)
    ensures s.clients[i].fd >= 0 && s.clients[i].fd in s.open && s.open[s.clients[i].fd] == s.clients[i].conn
    ensures ReadsLeft(|s.queue|, |s.clients[i].input|) >= 0
  {
    hide Balanced, HonestPast, ParseRequest, LiveFds, InOrder, HasOwner;
  }

  lemma DrainTakesFrame(data: seq<byte>)
    requires ParseRequest(data).Complete?
    ensures var p := ParseRequest(data);
            && p.consumed <= |data|
            && Drain(data) == Drained([p.value] + Drain(data[p.consumed..]).requests,
                                      Drain(data[p.consumed..]).rest, Drain(data[p.consumed..]).bad)
  {
    CompleteConsumesFrame(data);
  }

  // ---- What reading does to the queue ----

  /** From `s` to `t`, some of the frames pending in slot `i` moved to the queue, and nothing else changed. */
  ghost predicate Extracting(s: State, t: State, i: nat) {
    && i < |s.clients| == |t.clients|
    && t.clients == s.clients[i := s.clients[i].(input := t.clients[i].input)]
    && t.open == s.open && t.history == s.history && t.answered == s.answered
    && s.queue <= t.queue
    && var d := Drain(t.clients[i].input);
       Drain(s.clients[i].input) == Drained(Gained(t.queue, |s.queue|) + d.requests, d.rest, d.bad)
  }

  /** The same, and all of them unless something ran out. */
  ghost predicate Extracted(s: State, t: State, i: nat, verdict: Verdict) {
    && Extracting(s, t, i)
    && verdict in {Kept, BadFrame, QueueFull, NoMemory}
    && (verdict in {Kept, BadFrame} ==>
          Drain(s.clients[i].input) == Drained(Gained(t.queue, |s.queue|), t.clients[i].input, verdict == BadFrame))
    && (verdict == QueueFull ==> |t.queue| == MAX_QUEUED && ParseRequest(t.clients[i].input).Complete?)
    && (verdict == NoMemory ==> ParseRequest(t.clients[i].input).Complete?)
    && (verdict == Kept ==> ParseRequest(t.clients[i].input).NeedMore?)
    && (verdict == BadFrame ==> ParseRequest(t.clients[i].input).Invalid?)
  }

  lemma ExtractNothing(s: State, i: nat)
    requires i < |s.clients|
    ensures Extracting(s, s, i)
  {
    hide Drain;
    assert s.queue[|s.queue|..] == [];
    assert [] + Drain(s.clients[i].input).requests == Drain(s.clients[i].input).requests;
  }

  lemma ExtractFrame(s: State, t: State, i: nat)
    requires Extracting(s, t, i) && Live(t, i) && ParseRequest(t.clients[i].input).Complete?
    ensures Extracting(s, TakeFrame(t, i), i)
  {
    var input := t.clients[i].input;
    DrainTakesFrame(input);
    hide Drain, ParseRequest;
    var u := TakeFrame(t, i);
    var p := ParseRequest(input);
    GainOne(t.queue, u.queue[|t.queue|], |s.queue|);
    var g, rest := Gained(t.queue, |s.queue|), Drain(input[p.consumed..]).requests;
    assert g + ([p.value] + rest) == g + [p.value] + rest;
  }

  lemma ExtractAll(s: State, t: State, i: nat)
    requires Extracting(s, t, i) && !ParseRequest(t.clients[i].input).Complete?
    ensures Drain(s.clients[i].input)
         == Drained(Gained(t.queue, |s.queue|), t.clients[i].input, ParseRequest(t.clients[i].input).Invalid?)
  {
    hide ParseRequest;
    DrainIncomplete(t.clients[i].input);
    assert Gained(t.queue, |s.queue|) + [] == Gained(t.queue, |s.queue|);
  }

  /**
   From `s` to `t`, slot `i` received `data`, and the frames completed by it moved to the queue. The
   right-hand side does not depend on how the reads cut `data`.
   */
  ghost predicate Reading(s: State, t: State, i: nat, data: seq<byte>) {
    && i < |s.clients| == |t.clients| && s.clients[i].conn < |s.history|
    && t.clients == s.clients[i := s.clients[i].(input := t.clients[i].input)]
    && t.open == s.open && t.answered == s.answered
    && (var c := s.clients[i].conn;
        t.history == s.history[c := History(s.history[c].received + data, s.history[c].sent)])
    && s.queue <= t.queue
    && var d := Drain(t.clients[i].input);
       Drain(s.clients[i].input + data) == Drained(Gained(t.queue, |s.queue|) + d.requests, d.rest, d.bad)
  }

  /**
   Reading stopped for a reason: the kernel had no more for now, closed or failed; or the bytes it
   delivered could not be kept, queued or parsed. All bytes delivered were received, except a chunk
   the input could not hold.
   */
  ghost predicate StoppedBecause(calls: seq<Call<ReadReply>>, data: seq<byte>, verdict: Verdict) {
    && calls != [] && Reason(calls[|calls| - 1].reply, verdict)
    && data <= Delivered(calls) && (verdict != NoMemory ==> Delivered(calls) == data)
  }

  ghost predicate Reason(last: ReadReply, verdict: Verdict) {
    match verdict
    case Kept => last.ReadAgain?
    case Closed => last.EndOfFile?
    case Broken => last.ReadFailed?
    case _ => last.Data?
  }

  /** With no queue or memory shortage: the queue gains exactly the requests in the stream. */
  ghost predicate ReadAll(s: State, t: State, i: nat, data: seq<byte>, verdict: Verdict)
    requires Reading(s, t, i, data)
  {
    && (verdict in {Kept, BadFrame} ==>
          Drain(s.clients[i].input + data)
          == Drained(Gained(t.queue, |s.queue|), t.clients[i].input, verdict == BadFrame))
    && (verdict == QueueFull ==> |t.queue| == MAX_QUEUED && ParseRequest(t.clients[i].input).Complete?)
    && (verdict == Kept ==> ParseRequest(t.clients[i].input).NeedMore?)
    && (verdict == BadFrame ==> ParseRequest(t.clients[i].input).Invalid?)
  }

  lemma ReadNothing(s: State, i: nat)
    requires i < |s.clients| && s.clients[i].conn < |s.history|
    ensures Reading(s, s, i, [])
  {
    ExtractNothing(s, i);
    hide Drain;
    assert s.clients[i].input + [] == s.clients[i].input;
    var c := s.clients[i].conn;
    assert s.history[c].received + [] == s.history[c].received;
  }

  /** One read more: its bytes arrive, then frames are extracted. */
  lemma ReadChunk(s: State, t: State, u: State, i: nat, data: seq<byte>, bytes: seq<byte>)
    requires Reading(s, t, i, data) && TableOk(t) && NamesOk(t)
    requires Live(t, i) && ParseRequest(t.clients[i].input).NeedMore?
    requires Extracting(Arrive(t, i, bytes), u, i)
    ensures Reading(s, u, i, data + bytes)
  {
    hide ParseRequest, Drain, TableOk, LiveFds;
    var first, mid := s.clients[i].input, t.clients[i].input;
    DrainIncomplete(mid);
    var g := Gained(t.queue, |s.queue|);
    assert g + [] == g;
    DrainInParts(first + data, bytes);
    assert first + data + bytes == first + (data + bytes);
    GainMore(t.queue, u.queue, |s.queue|);
    var more, d := Gained(u.queue, |t.queue|), Drain(u.clients[i].input);
    assert g + (more + d.requests) == g + more + d.requests;
    var c := s.clients[i].conn;
    assert s.history[c].received + data + bytes == s.history[c].received + (data + bytes);
  }

  /** A read that ends in NEED_MORE has lengthened the queue or else the pending input. */
  lemma ReadProgress(t: State, u: State, i: nat, bytes: seq<byte>)
    requires TableOk(t) && NamesOk(t) && Live(t, i) && Extracted(Arrive(t, i, bytes), u, i, Kept)
    ensures |t.queue| < |u.queue| || (|t.queue| == |u.queue| && u.clients[i].input == t.clients[i].input + bytes)
  {
    hide ParseRequest, TableOk;
    if |t.queue| == |u.queue| {
      var d := Drain(t.clients[i].input + bytes);
      assert d.requests == Gained(u.queue, |t.queue|) == [];
    }
  }

  lemma ReadSettled(s: State, t: State, i: nat, data: seq<byte>)
    requires Reading(s, t, i, data) && !ParseRequest(t.clients[i].input).Complete?
    ensures Drain(s.clients[i].input + data)
         == Drained(Gained(t.queue, |s.queue|), t.clients[i].input, ParseRequest(t.clients[i].input).Invalid?)
  {
    hide ParseRequest;
    DrainIncomplete(t.clients[i].input);
    assert Gained(t.queue, |s.queue|) + [] == Gained(t.queue, |s.queue|);
  }

  /** The read loop leaves between reads, or on bytes it cannot keep. */
  lemma ReadEnds(s: State, t: State, i: nat, data: seq<byte>, verdict: Verdict)
    requires Reading(s, t, i, data) && ParseRequest(t.clients[i].input).NeedMore?
    requires verdict in {Kept, Closed, Broken, NoMemory}
    ensures ReadAll(s, t, i, data, verdict)
  {
    ReadSettled(s, t, i, data);
  }

  /** A step down the bound on further reads, in the queue or else in the room for input. */
  ghost predicate ReadStep(t: State, u: State, i: nat) {
    && i < |t.clients| && i < |u.clients|
    && ReadsLeft(|u.queue|, |u.clients[i].input|) < ReadsLeft(|t.queue|, |t.clients[i].input|)
    && (|t.queue| < |u.queue| || (|t.queue| == |u.queue| && |t.clients[i].input| < |u.clients[i].input|))
  }

  /** One turn of the read loop, whatever the extraction ended with. */
  lemma ReadTurn(s: State, t: State, u: State, i: nat, data: seq<byte>, bytes: seq<byte>, verdict: Verdict)
    requires Reading(s, t, i, data) && Serving(t, i) && ParseRequest(t.clients[i].input).NeedMore?
    requires bytes != [] && Extracted(Arrive(t, i, bytes), u, i, verdict) && Serving(u, i)
    ensures Inv(u, i) && Reading(s, u, i, data + bytes) && ReadAll(s, u, i, data + bytes, verdict)
    ensures verdict in {Kept, BadFrame, QueueFull, NoMemory}
    ensures verdict == Kept ==>
              && ParseRequest(u.clients[i].input).NeedMore?
              && ReadStep(t, u, i)
  {
    hide ParseRequest, Drain, Extracting, Reading, Balanced, BooksOk, AllOwned, InOrder, LiveFds, PastOk;
    ReadChunk(s, t, u, i, data, bytes);
    if verdict in {Kept, BadFrame} {
      ReadSettled(s, u, i, data + bytes);
    }
    if verdict == Kept {
      ReadProgress(t, u, i, bytes);
    }
  }

  lemma GainMore(a: seq<Queued>, b: seq<Queued>, n: nat)
    requires n <= |a| && a <= b
    ensures Gained(b, n) == Gained(a, n) + Gained(b, |a|)
  {
    assert b[n..] == a[n..] + b[|a|..];
  }
}
