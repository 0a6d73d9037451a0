/**
 The command-line client: sending all of a request (src/socket_utils.c), receiving one response
 (src/main_client.c), and the whole exchange with a connection of either kind of server.
 */
module Client {
  import opened Base
  import opened Protocol
  import opened Commands
  import opened Service
  import opened Kernel
  import PollState
  import Buffer
  import Codec
  import S = Session
  import SessionTrace

  const INPUT_MAX: nat := UINT16_MAX + RESPONSE_HEADER
  const STDOUT: int := 1

  datatype Result = Done | NotEncoded | NotSent | WriteFailed | EndedEarly | Unreadable | NoMemory

  // ---- Failed calls ----

  ghost predicate Refused(r: Option<SendReply>) {
    r == Some(SendFailed) || r == Some(SendAgain)
  }

  ghost predicate Stalled(r: Option<ReadReply>) {
    r == Some(ReadFailed) || r == Some(ReadAgain)
  }

  /** Every allocation since the log was `n` long was served. */
  ghost predicate Served(log: seq<bool>, n: nat) {
    forall k :: n <= k < |log| ==> log[k]
  }

  // ---- Sending ----

  /**
   Write every byte, in as many pieces as the descriptor takes them. `interrupts` bounds how often
   the call is interrupted by a signal.
   */
  method WriteAll(wire: Wire, fd: int, data: seq<byte>, interrupts: nat)
    returns (ok: bool, written: seq<byte>, ghost calls: seq<Call<SendReply>>)
    modifies wire`sendLog
    ensures wire.sendLog == old(wire.sendLog) + calls && AllOn(calls, fd)
    ensures written <= data && |written| == Taken(calls)
    ensures ok <==> written == data
    ensures !ok <==> Refused(Last(calls, 0, fd))
  {
    written, calls := [], [];
    var budget := interrupts;
    while |written| < |data|
      invariant written <= data && |written| == Taken(calls)
      invariant wire.sendLog == old(wire.sendLog) + calls && AllOn(calls, fd)
      invariant !Refused(Last(calls, 0, fd))
      decreases |data| - |written|, budget
    {
      var reply := wire.Send(fd, |data| - |written|, budget);
      OneMoreSend(calls, Call(fd, reply));
      calls := calls + [Call(fd, reply)];
      match reply
      case Sent(n) =>
        written := written + data[|written|..|written| + n];
      case SendInterrupted =>
        budget := budget - 1;
      case _ =>
        return false, written, calls;
    }
    ok := true;
  }

  /** Encode a request and send all of its frame, or say why not. */
  method SendRequest(kind: Kind, argument: seq<byte>, wire: Wire, fd: int, interrupts: nat)
    returns (failed: Option<Result>, ghost written: seq<byte>, ghost calls: seq<Call<SendReply>>)
    modifies wire
    ensures wire.sendLog == old(wire.sendLog) + calls && AllOn(calls, fd) && Taken(calls) == |written|
    ensures wire.readLog == old(wire.readLog) && old(wire.memoryLog) <= wire.memoryLog
    ensures failed.None? ==> |argument| <= MAX_ARGUMENT && written == RequestFrame(Request(kind, argument))
    ensures failed.Some? ==>
              || (failed.value == NotEncoded && calls == [] && written == []
                  && (|argument| > MAX_ARGUMENT || !Served(wire.memoryLog, |old(wire.memoryLog)|)))
              || (failed.value == NotSent && |argument| <= MAX_ARGUMENT
                  && written < RequestFrame(Request(kind, argument)) && Refused(Last(calls, 0, fd)))
  {
    var request := new Buffer.Buffer(UINT16_MAX as size_t);
    var first := wire.Allocate();
    var second := wire.Allocate();
    assert wire.memoryLog[|old(wire.memoryLog)|] == first && wire.memoryLog[|old(wire.memoryLog)| + 1] == second;
    var encoded := Codec.EncodeRequest(request, KindCode(kind), argument, (first, second));
    if !encoded {
      return Some(NotEncoded), [], [];
    }
    var frame := request.Contents();
    assert frame == [] + RequestFrame(Request(kind, argument)) == RequestFrame(Request(kind, argument));
    hide RequestFrame, Last, Refused, Taken;
    var ok, out;
    ok, out, calls := WriteAll(wire, fd, frame, interrupts);
    return if ok then None else Some(NotSent), out, calls;
  }

  // ---- Receiving ----

  /**
   Read until the incremental parser has one complete response, then write its data. `stream` is all
   the server sends before closing; the reads may cut it anywhere. Every result but `Done` has its
   cause in the stream or in a failed call.
   */
  method ReceiveResponse(wire: Wire, fd: int, stream: seq<byte>, interrupts: nat)
    returns (result: Result, stdout: seq<byte>, ghost calls: seq<Call<ReadReply>>, ghost puts: seq<Call<SendReply>>)
    modifies wire
    ensures wire.readLog == old(wire.readLog) + calls && AllOn(calls, fd) && Delivered(calls) <= stream
    ensures wire.sendLog == old(wire.sendLog) + puts && AllOn(puts, STDOUT) && Taken(puts) == |stdout|
    ensures old(wire.memoryLog) <= wire.memoryLog
    ensures result != NotEncoded && result != NotSent
    ensures result == Done || result == WriteFailed ==>
              && ParseResponse(Delivered(calls)).Complete?
              && ParseResponse(stream) == ParseResponse(Delivered(calls))
    ensures result == Done ==> stdout == ParseResponse(stream).value
    ensures result == WriteFailed ==> stdout < ParseResponse(stream).value && Refused(Last(puts, 0, STDOUT))
    ensures result == EndedEarly ==>
              !ParseResponse(stream).Complete? && Delivered(calls) == stream && Last(calls, 0, fd) == Some(EndOfFile)
    ensures result == Unreadable ==> Stalled(Last(calls, 0, fd))
    ensures result == NoMemory ==> !Served(wire.memoryLog, |old(wire.memoryLog)|)
    ensures result != Done && result != WriteFailed ==> stdout == []
    ensures && ParseResponse(stream).Complete? && Served(wire.memoryLog, |old(wire.memoryLog)|)
            && !Stalled(Last(calls, 0, fd)) && !Refused(Last(puts, 0, STDOUT))
            ==> result == Done
  {
    hide ParseResponse;
    var input := new Buffer.Buffer(INPUT_MAX as size_t);
    var budget := interrupts;
    stdout, calls, puts := [], [], [];
    while true
      invariant input.Valid() && fresh(input) && fresh(input.data) && input.maxSize as nat == INPUT_MAX
      invariant input.Contents() == Delivered(calls) <= stream && stdout == [] && puts == []
      invariant wire.readLog == old(wire.readLog) + calls && AllOn(calls, fd) && wire.sendLog == old(wire.sendLog)
      invariant old(wire.memoryLog) <= wire.memoryLog
      decreases |stream| - |input.Contents()|, budget
    {
      var got := input.Contents();
      var parsed := ParseResponse(got);
      if parsed.Complete? {
        ResponseVerdictStable(got, stream);
        var ok;
        ok, stdout, puts := WriteAll(wire, STDOUT, parsed.value, interrupts);
        return if ok then Done else WriteFailed, stdout, calls, puts;
      }
      ResponseIncompleteIsShort(got);
      if parsed.Invalid? || input.length == input.maxSize {
        assert false;
      }
      var reply, failed := ReceiveMore(wire, fd, input, stream, budget);
      OneMoreRead(calls, Call(fd, reply));
      calls := calls + [Call(fd, reply)];
      assert got + [] == got;
      if failed.Some? {
        return failed.value, [], calls, puts;
      }
      if reply.ReadInterrupted? {
        budget := budget - 1;
      }
    }
  }

  /** One read of the server's stream into the input, or why not. */
  method ReceiveMore(wire: Wire, fd: int, input: Buffer.Buffer, stream: seq<byte>, interrupts: nat)
    returns (reply: ReadReply, failed: Option<Result>)
    requires input.Valid() && input.maxSize as nat == INPUT_MAX
    requires input.Contents() <= stream && |input.Contents()| < INPUT_MAX
    modifies wire, input, input.data
    ensures input.Valid() && (input.data == old(input.data) || fresh(input.data))
    ensures wire.readLog == old(wire.readLog) + [Call(fd, reply)] && wire.sendLog == old(wire.sendLog)
    ensures old(wire.memoryLog) <= wire.memoryLog
    ensures reply.Data? ==> old(input.Contents()) + reply.bytes <= stream && |reply.bytes| <= 4096
    ensures match failed
            case None =>
              || (reply.Data? && reply.bytes != [] && input.Contents() == old(input.Contents()) + reply.bytes)
              || (reply.ReadInterrupted? && interrupts > 0 && input.Contents() == old(input.Contents()))
            case Some(EndedEarly) => reply == EndOfFile && old(input.Contents()) == stream
            case Some(Unreadable) => reply == ReadFailed || reply == ReadAgain
            case Some(NoMemory) => reply.Data? && !Served(wire.memoryLog, |old(wire.memoryLog)|)
            case _ => false
  {
    hide Buffer.Enlarged, Buffer.Appended;
    ghost var got := input.Contents();
    var available := (input.maxSize - input.length) as nat;
    var remaining := stream[input.length..];
    reply := wire.ReadFrom(fd, remaining, Min(available, 4096), interrupts);
    match reply
    case Data(bytes) =>
      assert bytes == stream[|got|..][..|bytes|];
      assert got + bytes <= stream;
      var memory := wire.Allocate();
      assert wire.memoryLog[|wire.memoryLog| - 1] == memory;
      var ok := input.Append(bytes, memory);
      failed := if ok then None else Some(NoMemory);
    case ReadInterrupted =>
      failed := None;
    case EndOfFile =>
      assert got == stream;
      failed := Some(EndedEarly);
    case _ =>
      failed := Some(Unreadable);
  }

  lemma ResponseVerdictStable(data: seq<byte>, stream: seq<byte>)
    requires data <= stream && ParseResponse(data).Complete?
    ensures ParseResponse(stream) == ParseResponse(data)
  {
    CompleteConsumesResponseFrame(data);
    var Complete(p, n) := ParseResponse(data);
    assert stream == ResponseFrame(p) + stream[n..];
    ParseResponseFrame(p, stream[n..]);
  }

  /**
   A client that sent one request, and finds a response in whatever an honest server connection
   has sent it so far, has found exactly the answer to that request.
   */
  lemma ClientSeesItsAnswer(r: Request, received: seq<byte>, sent: seq<byte>, done: seq<Exchange>)
    requires received <= RequestFrame(r) && Honest(received, sent, done)
    ensures ParseResponse(sent).Complete? ==>
              && |done| == 1 && done[0].request == r && sent == ResponseFrame(Reply(done[0]))
              && Answer(r, done[0].world) == Some(ParseResponse(sent).value)
  {
    if ParseResponse(sent).Complete? {
      OneRequestOneExchange(r, received, sent, done);
      assert |sent| <= |ResponseStream(Told(done))|;
      assert done != [];
      var x := done[0];
      assert Told(done) == [Reply(x)];
      ResponseStreamOne(Reply(x));
      hide ResponseStream, Answer;
      var whole := ResponseFrame(Reply(x));
      assert whole + [] == whole;
      ParseResponseFrame(Reply(x), []);
      ResponseVerdictStable(sent, whole);
      CompleteConsumesResponseFrame(sent);
    }
  }

  lemma OneRequestOneExchange(r: Request, received: seq<byte>, sent: seq<byte>, done: seq<Exchange>)
    requires received <= RequestFrame(r) && Honest(received, sent, done)
    ensures |done| <= 1 && (done != [] ==> done[0].request == r)
  {
    assert Honest(RequestFrame(r), sent, done);
    HonestServesPrefix(RequestFrame(r), sent, done);
    OneRequestDrains(r);
    hide *;
    assert Asked(done) <= [r];
    assert done != [] ==> Asked(done)[0] == done[0].request;
  }

  lemma OneRequestDrains(r: Request)
    ensures Drain(RequestFrame(r)) == Drained([r], [], false)
  {
    RequestStreamOne(r);
    DrainUnique([r], []);
    assert RequestStream([r]) + [] == RequestFrame(r);
  }

  /** If every request received is answered and every answer sent, as a session does before it ends
      at end of stream, the client gets a complete response. */
  lemma AnsweredInFull(r: Request, sent: seq<byte>, done: seq<Exchange>)
    requires ServedInFull(RequestFrame(r), sent, done)
    ensures |done| == 1 && done[0].request == r && ParseResponse(sent) == Complete(Reply(done[0]), |sent|)
  {
    OneRequestDrains(r);
    var x := done[0];
    assert Asked(done)[0] == x.request;
    assert Told(done) == [Reply(x)];
    ResponseStreamOne(Reply(x));
    assert sent == ResponseFrame(Reply(x)) + [];
    ParseResponseFrame(Reply(x), []);
  }

  // ---- The whole exchange ----

  /** The calls of one exchange: the request's writes, the reads, and the writes of what is printed. */
  datatype Exchanged = Exchanged(calls: seq<Call<SendReply>>, gets: seq<Call<ReadReply>>, puts: seq<Call<SendReply>>)

  /** Made on the right descriptors, and taking as many bytes as were sent and printed. */
  ghost predicate Accounted(x: Exchanged, fd: int, written: seq<byte>, stdout: seq<byte>) {
    && AllOn(x.calls, fd) && AllOn(x.gets, fd) && AllOn(x.puts, 1)
    && Taken(x.calls) == |written| && Taken(x.puts) == |stdout|
  }

  /** None of the calls failed, nor any allocation since the log was `n` long. */
  ghost predicate Unfailing(x: Exchanged, fd: int, memoryLog: seq<bool>, n: nat) {
    && !Refused(Last(x.calls, 0, fd)) && !Stalled(Last(x.gets, 0, fd)) && !Refused(Last(x.puts, 0, STDOUT))
    && Served(memoryLog, n)
  }

  /**
   What one exchange means to the client, against a connection that received `received`, was sent
   `sent` and has done `done`. Whatever the client prints is the beginning of its own request's
   answer, and all of it when it reports success; it does so only on a complete response that it
   read. A connection served to the end gives success, unless a call of the client fails.
   */
  ghost predicate Meant(kind: Kind, argument: seq<byte>, received: seq<byte>, sent: seq<byte>, done: seq<Exchange>,
                        result: Result, stdout: seq<byte>, written: seq<byte>, gets: seq<Call<ReadReply>>, clean: bool)
  {
    && (|argument| > MAX_ARGUMENT ==> result == NotEncoded && written == [])
    && Delivered(gets) <= sent
    && (result == Done || stdout != [] ==>
          && |argument| <= MAX_ARGUMENT && written == RequestFrame(Request(kind, argument))
          && ParseResponse(Delivered(gets)).Complete?
          && |done| == 1 && done[0].request == Request(kind, argument) && stdout <= Reply(done[0]))
    && (result == Done ==> stdout == Reply(done[0]))
    && (&& |argument| <= MAX_ARGUMENT && received == RequestFrame(Request(kind, argument))
        && ServedInFull(received, sent, done) && clean
        ==> result == Done)
  }

  /**
   The client's side of one exchange: encode the request, send it all, receive one response. The
   other side is any connection that has received at most the request's frame and is honest about
   it.
   */
  method Ask(kind: Kind, argument: seq<byte>, wire: Wire, fd: int,
             ghost received: seq<byte>, sent: seq<byte>, ghost done: seq<Exchange>, interrupts: nat)
    returns (result: Result, stdout: seq<byte>, ghost written: seq<byte>, ghost x: Exchanged)
    requires fd != STDOUT && Honest(received, sent, done)
    requires |argument| <= MAX_ARGUMENT ==> received <= RequestFrame(Request(kind, argument))
    modifies wire
    ensures wire.sendLog == old(wire.sendLog) + x.calls + x.puts && wire.readLog == old(wire.readLog) + x.gets
    ensures Accounted(x, fd, written, stdout)
    ensures Meant(kind, argument, received, sent, done, result, stdout, written, x.gets,
                  Unfailing(x, fd, wire.memoryLog, |old(wire.memoryLog)|))
  {
    hide Taken, Delivered;
    NoCalls();
    var failed;
    ghost var calls, gets, puts;
    failed, written, calls := SendRequest(kind, argument, wire, fd, interrupts);
    if failed.Some? {
      return failed.value, [], written, Exchanged(calls, [], []);
    }
    ghost var r: Request := Request(kind, argument);
    ClientSeesItsAnswer(r, received, sent, done);
    if received == RequestFrame(r) && ServedInFull(received, sent, done) {
      AnsweredInFull(r, sent, done);
    }
    hide RequestFrame, ParseResponse, Answer, Honest, ServedInFull, Refused, Stalled, Last;
    result, stdout, gets, puts := ReceiveResponse(wire, fd, sent, interrupts);
    x := Exchanged(calls, gets, puts);
  }

  /** The exchange with a session of a threaded server, at any point of the session's life. */
  method AskSession(kind: Kind, argument: seq<byte>, wire: Wire, fd: int,
                    session: S.Session, sent: seq<byte>, interrupts: nat)
    returns (result: Result, stdout: seq<byte>, ghost written: seq<byte>, ghost x: Exchanged)
    requires fd != STDOUT && session.Valid() && sent == session.sent
    requires |argument| <= MAX_ARGUMENT ==> session.received <= RequestFrame(Request(kind, argument))
    modifies wire
    ensures wire.sendLog == old(wire.sendLog) + x.calls + x.puts && wire.readLog == old(wire.readLog) + x.gets
    ensures Accounted(x, fd, written, stdout)
    ensures Meant(kind, argument, session.received, sent, session.done, result, stdout, written, x.gets,
                  Unfailing(x, fd, wire.memoryLog, |old(wire.memoryLog)|))
    ensures && |argument| <= MAX_ARGUMENT && session.received == RequestFrame(Request(kind, argument))
            && session.Concluded(SessionTrace.EndOfStream) && Unfailing(x, fd, wire.memoryLog, |old(wire.memoryLog)|)
            ==> result == Done
  {
    hide Balanced, Honest, ServedInFull, Drain, Answer, Unfailing, Accounted, Delivered, ParseResponse;
    BalancedIsHonest(session.Accounts());
    result, stdout, written, x := Ask(kind, argument, wire, fd, session.received, sent, session.done, interrupts);
  }

  /** The exchange with a connection of the poll server, in any state of the server, the connection live or gone. */
  method AskPollServer(kind: Kind, argument: seq<byte>, wire: Wire, fd: int,
                       ghost s: PollState.State, ghost skip: int, ghost conn: nat, sent: seq<byte>, interrupts: nat)
    returns (result: Result, stdout: seq<byte>, ghost written: seq<byte>, ghost x: Exchanged)
    requires fd != STDOUT && PollState.Inv(s, skip) && conn < |s.history| && sent == s.history[conn].sent
    requires |argument| <= MAX_ARGUMENT ==> s.history[conn].received <= RequestFrame(Request(kind, argument))
    modifies wire
    ensures wire.sendLog == old(wire.sendLog) + x.calls + x.puts && wire.readLog == old(wire.readLog) + x.gets
    ensures Accounted(x, fd, written, stdout)
    ensures Meant(kind, argument, s.history[conn].received, sent, PollState.DoneBy(s.answered, conn),
                  result, stdout, written, x.gets, Unfailing(x, fd, wire.memoryLog, |old(wire.memoryLog)|))
  {
    assert PollState.HonestPast(s, conn);
    hide PollState.Inv, Honest, Meant, PollState.DoneBy, Unfailing, Accounted;
    result, stdout, written, x := Ask(kind, argument, wire, fd, s.history[conn].received, sent,
                                      PollState.DoneBy(s.answered, conn), interrupts);
  }
}
