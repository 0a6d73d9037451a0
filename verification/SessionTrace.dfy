/**
 What a worker's session does, turn by turn, on its books: what was made of the pending request, what
 was polled for, what was replied, and what came of it.
 */
module SessionTrace {
  import opened Base
  import opened Protocol
  import opened Commands
  import opened Service
  import opened Kernel

  /** Why a session ended. */
  datatype Ending =
    | Stopping | EndOfStream | BadFrame | NoResponse | ReadError | WriteError | PollError | HungUp

  /** One turn: the outside's part, the books when it polled, and every call it made. */
  datatype Record = Record(attempt: Attempt, prepared: Books, polls: seq<Polled>, gets: seq<Call<ReadReply>>,
                           memory: seq<bool>, puts: seq<Call<SendReply>>, ending: Option<Ending>)

  /** Which of reading and writing broke the connection, if either did; reading comes first. */
  ghost predicate Broke(revents: Revents, got: Option<ReadReply>, memory: Option<bool>, put: Option<SendReply>,
                        broken: Option<Ending>)
  {
    && (got.Some? <==> revents.input)
    && (broken == Some(EndOfStream) <==> got == Some(EndOfFile))
    && (broken == Some(ReadError) ==>
          got == Some(ReadFailed) || (got.Some? && got.value.Data? && memory == Some(false)))
    && (got == Some(ReadFailed) ==> broken == Some(ReadError))
    && (put.Some? <==> revents.output && broken != Some(EndOfStream) && broken != Some(ReadError))
    && (broken == Some(WriteError) <==> put == Some(SendFailed))
    && (broken.None? || broken.value in {EndOfStream, ReadError, WriteError})
  }

  /**
   The reason to leave the loop, or to stay, by what poll reported and the kernel replied: a broken
   connection, then a reported error, then a hang-up with nothing left to send.
   */
  ghost predicate Justified(revents: Revents, got: Option<ReadReply>, memory: Option<bool>, put: Option<SendReply>,
                            drained: bool, ending: Option<Ending>)
  {
    var fault := revents.error || revents.invalid;
    match ending
    case None => Broke(revents, got, memory, put, None) && !fault && !(revents.hangup && drained)
    case Some(PollError) => Broke(revents, got, memory, put, None) && fault
    case Some(HungUp) => Broke(revents, got, memory, put, None) && !fault && revents.hangup && drained
    case Some(_) => Broke(revents, got, memory, put, ending)
  }

  /** The books with the pending request answered. */
  ghost function Answering(b: Books, w: World): Books
    requires ParseRequest(b.input).Complete? && Answer(ParseRequest(b.input).value, w).Some?
  {
    var p := ParseRequest(b.input);
    CompleteConsumesFrame(b.input);
    var x: Exchange := Exchange(p.value, w);
    b.(done := b.done + [x], input := b.input[p.consumed..], output := ResponseFrame(Reply(x)))
  }

  /** Before polling: with nothing to send, the first complete request is answered. */
  ghost predicate Prepared(b: Books, m: Books, w: World) {
    var p := ParseRequest(b.input);
    if b.output == [] && p.Complete? then Answer(p.value, w).Some? && m == Answering(b, w)
    else m == b && (b.output == [] ==> p.NeedMore?)
  }

  /** The read's bytes, when they were kept. */
  ghost function Kept(gets: seq<Call<ReadReply>>, ending: Option<Ending>): seq<byte> {
    if gets != [] && gets[0].reply.Data? && ending != Some(ReadError) then gets[0].reply.bytes else []
  }

  /** What was read joins input and history; what was taken moves from output to history. */
  ghost predicate Moved(m: Books, a: Books, gets: seq<Call<ReadReply>>, puts: seq<Call<SendReply>>,
                        ending: Option<Ending>, fd: int)
  {
    && |gets| <= 1 && |puts| <= 1 && AllOn(gets, fd) && AllOn(puts, fd)
    && Taken(puts) <= |m.output|
    && a == Books(m.received + Kept(gets, ending), m.sent + m.output[..Taken(puts)], m.done, m.waiting,
                  m.input + Kept(gets, ending), m.output[Taken(puts)..])
  }

  /** A read and then a send, either or both left out, is such a move. */
  lemma Moves(m: Books, k: Books, a: Books, gets: seq<Call<ReadReply>>, puts: seq<Call<SendReply>>,
              ending: Option<Ending>, fd: int)
    requires |gets| <= 1 && |puts| <= 1 && AllOn(gets, fd) && AllOn(puts, fd)
    requires k == m.(received := m.received + Kept(gets, ending), input := m.input + Kept(gets, ending))
    requires puts == [] ==> a == k
    requires puts != [] ==>
               var n := if puts[0].reply.Sent? then puts[0].reply.count else 0;
               n <= |k.output| && a == k.(sent := k.sent + k.output[..n], output := k.output[n..])
    ensures Moved(m, a, gets, puts, ending, fd)
  {
    hide Kept;
    if puts != [] {
      NoCalls();
      OneMoreSend([], puts[0]);
      assert [] + [puts[0]] == puts;
    }
  }

  lemma SameMove(m: Books, a: Books, gets: seq<Call<ReadReply>>, puts: seq<Call<SendReply>>,
                 broken: Option<Ending>, ending: Option<Ending>, fd: int)
    requires Moved(m, a, gets, puts, broken, fd) && (broken == Some(ReadError) <==> ending == Some(ReadError))
    ensures Moved(m, a, gets, puts, ending, fd)
  {
  }

  /** The turn left before polling: the frame is invalid, or its request cannot be answered. */
  ghost predicate LeftEarly(b: Books, r: Record) {
    var p := ParseRequest(b.input);
    && b.output == []
    && match r.ending
       case Some(BadFrame) => p.Invalid?
       case Some(NoResponse) =>
         p.Complete? && (Answer(p.value, r.attempt.world).None? || r.attempt.memory != (true, true))
       case _ => false
  }

  ghost predicate Quiet(r: Record) {
    r.gets == [] && r.memory == [] && r.puts == []
  }

  /** From books `b` to books `a`: exactly one poll, for what the books call for, and what it reports is acted on. */
  ghost predicate TurnOk(b: Books, a: Books, r: Record, fd: int) {
    if r.polls == [] then LeftEarly(b, r) && Quiet(r) && a == b
    else
      var m := r.prepared;
      && Prepared(b, m, r.attempt.world)
      && |r.polls| == 1 && r.polls[0].events == Events(m.output == [], m.output != [])
      && match r.polls[0].reply
         case PollFailed => r.ending == Some(PollError) && Quiet(r) && a == m
         case TimedOut => r.ending == None && Quiet(r) && a == m
         case PollInterrupted => r.ending == None && Quiet(r) && a == m
         case Ready(revents) =>
           && Reports(r.polls[0].events, revents) && Moved(m, a, r.gets, r.puts, r.ending, fd)
           && Justified(revents, Last(r.gets, 0, fd), Latest(r.memory, 0), Last(r.puts, 0, fd), a.output == [],
                        r.ending)
  }

  /** Turn by turn; only the last may leave the loop. */
  ghost predicate Traced(books: seq<Books>, trace: seq<Record>, fd: int) {
    && |books| == |trace| + 1
    && (forall k :: 0 <= k < |trace| ==> TurnOk(books[k], books[k + 1], trace[k], fd))
    && (forall k :: 0 <= k < |trace| - 1 ==> trace[k].ending == None)
  }

  lemma TraceMore(books: seq<Books>, trace: seq<Record>, fd: int, a: Books, r: Record)
    requires Traced(books, trace, fd) && TurnOk(books[|trace|], a, r, fd)
    requires forall k :: 0 <= k < |trace| ==> trace[k].ending == None
    ensures Traced(books + [a], trace + [r], fd)
  {
    hide TurnOk;
  }

  datatype Logs = Logs(gets: seq<Call<ReadReply>>, puts: seq<Call<SendReply>>, memory: seq<bool>,
                       polls: seq<Polled>, attempts: seq<Attempt>)

  ghost function After(l: Logs, r: Record): Logs {
    Logs(l.gets + r.gets, l.puts + r.puts, l.memory + r.memory, l.polls + r.polls, l.attempts + [r.attempt])
  }

  ghost function AfterAll(l: Logs, trace: seq<Record>): Logs {
    if trace == [] then l else After(AfterAll(l, trace[..|trace| - 1]), trace[|trace| - 1])
  }

  lemma AfterMore(l: Logs, trace: seq<Record>, r: Record)
    ensures AfterAll(l, trace + [r]) == After(AfterAll(l, trace), r)
  {
    hide After;
    assert (trace + [r])[..|trace|] == trace;
  }

  lemma NoTrace(b: Books, l: Logs, fd: int)
    ensures Traced([b], [], fd) && AfterAll(l, []) == l
  {
  }

  /**
   Over a whole session: it received every byte the kernel delivered, except a last chunk for which
   there was no memory, and sent exactly as many as the kernel took.
   */
  lemma {:induction false} SessionMoves(books: seq<Books>, trace: seq<Record>, fd: int, l: Logs)
    requires Traced(books, trace, fd)
    requires trace != [] ==> trace[|trace| - 1].ending != Some(ReadError)
    requires Delivered(l.gets) == books[0].received && Taken(l.puts) == |books[0].sent|
    ensures var e := AfterAll(l, trace);
            Delivered(e.gets) == books[|trace|].received && Taken(e.puts) == |books[|trace|].sent|
    decreases |trace|
  {
    hide TurnOk, Delivered, Taken;
    if trace != [] {
      var n := |trace| - 1;
      assert Traced(books[..n + 1], trace[..n], fd);
      SessionMoves(books[..n + 1], trace[..n], fd, l);
      TurnMoves(books[n], books[n + 1], trace[n], fd, AfterAll(l, trace[..n]));
    }
  }

  lemma MoveMoves(m: Books, a: Books, r: Record, fd: int, l: Logs)
    requires Moved(m, a, r.gets, r.puts, r.ending, fd) && r.ending != Some(ReadError)
    requires Delivered(l.gets) == m.received && Taken(l.puts) == |m.sent|
    ensures Delivered(l.gets + r.gets) == a.received && Taken(l.puts + r.puts) == |a.sent|
  {
    hide Delivered, Taken, AllOn;
    TakenConcat(l.puts, r.puts);
    if r.gets == [] {
      assert l.gets + r.gets == l.gets && m.received + [] == m.received;
    } else {
      assert r.gets == [r.gets[0]];
      OneMoreRead(l.gets, r.gets[0]);
    }
  }

  lemma TurnMoves(b: Books, a: Books, r: Record, fd: int, l: Logs)
    requires TurnOk(b, a, r, fd) && r.ending != Some(ReadError)
    requires Delivered(l.gets) == b.received && Taken(l.puts) == |b.sent|
    ensures Delivered(l.gets + r.gets) == a.received && Taken(l.puts + r.puts) == |a.sent|
  {
    hide Justified, ParseRequest, Answer, Last, Latest, Moved, Delivered, Taken, LeftEarly;
    if r.polls != [] && r.polls[0].reply.Ready? {
      MoveMoves(r.prepared, a, r, fd, l);
    } else {
      assert l.gets + [] == l.gets && l.puts + [] == l.puts;
    }
  }
}
