/**
 One worker's session with its client: the read, parse, execute and drain loop shared by
 src/server_tcp.c and src/server_uds_threaded.c.
 */
module Session {
  import opened Base
  import opened Protocol
  import opened Commands
  import opened Service
  import opened Kernel
  import opened SessionTrace
  import Buffer
  import Codec

  /** The request has an answer in this world, and the allocator lets the output hold it. */
  ghost predicate Answerable(r: Request, w: World, capacity: size_t, memory: (bool, bool))
    requires capacity as nat <= OUTPUT_LIMIT
  {
    && Answer(r, w).Some?
    && Codec.Allocatable(capacity as nat, OUTPUT_LIMIT, 0, RESPONSE_HEADER, |Answer(r, w).value|, memory)
  }

  /** The logs after a turn whose attempt was logged before it. */
  ghost function Grown(l: Logs, r: Record): Logs {
    Logs(l.gets + r.gets, l.puts + r.puts, l.memory + r.memory, l.polls + r.polls, l.attempts)
  }

  /** A request that is not answerable has no answer, or the allocator fails it. */
  lemma Unanswered(b: Books, r: Record, capacity: size_t)
    requires capacity as nat <= OUTPUT_LIMIT && b.output == [] && !ParseRequest(b.input).NeedMore?
    requires ParseRequest(b.input).Complete? ==>
               !Answerable(ParseRequest(b.input).value, r.attempt.world, capacity, r.attempt.memory)
    requires r.ending == Some(if ParseRequest(b.input).Invalid? then BadFrame else NoResponse)
    ensures LeftEarly(b, r)
  {
    hide ParseRequest, Answer;
  }

  class Session {
    const clientFd: int
    const input: Buffer.Buffer
    const output: Buffer.Buffer
    const wire: Wire

    // History of the connection.
    ghost var received: seq<byte>
    ghost var sent: seq<byte>
    ghost var done: seq<Exchange>

    ghost predicate Valid()
      reads this, input, input.data, output, output.data
    {
      && input.Valid() && input.maxSize as nat == INPUT_LIMIT
      && output.Valid() && output.maxSize as nat == OUTPUT_LIMIT
      && input != output && input.data != output.data
      && Balanced(Accounts())
    }

    ghost function Accounts(): Books
      requires input.Valid() && output.Valid()
      reads this, input, input.data, output, output.data
    {
      Books(received, sent, done, [], input.Contents(), output.Contents())
    }

    ghost function Logged(): Logs
      reads wire
    {
      Logs(wire.readLog, wire.sendLog, wire.memoryLog, wire.pollLog, wire.attemptLog)
    }

    /** Buffers reallocate only into fresh memory. */
    twostate predicate Private()
      reads input, output
    {
      (input.data == old(input.data) || fresh(input.data)) && (output.data == old(output.data) || fresh(output.data))
    }

    constructor (clientFd: int)
      ensures this.clientFd == clientFd
      ensures Valid() && fresh(input) && fresh(input.data) && fresh(output) && fresh(output.data)
      ensures Accounts() == Books([], [], [], [], [], []) && input.maxSize == 65535 && output.maxSize == 65537
    {
      this.clientFd := clientFd;
      input := new Buffer.Buffer(INPUT_LIMIT as size_t);
      output := new Buffer.Buffer(OUTPUT_LIMIT as size_t);
      wire := new Wire();
      received := [];
      sent := [];
      done := [];
      OpeningBalance();
    }

    /**
     Handle one request once the previous response has drained. The size checks of the encoder
     never fail here: only an invalid frame, a failed error text or the allocator can.
     */
    method ProcessRequest(w: World, memory: (bool, bool)) returns (ok: bool)
      requires Valid() && output.Contents() == []
      modifies this, input, input.data, output, output.data
      ensures Valid() && Private() && received == old(received) && sent == old(sent)
      ensures var p := ParseRequest(old(input.Contents()));
              && (p.NeedMore? ==> ok) && (p.Invalid? ==> !ok)
              && (p.Complete? ==> (ok <==> Answerable(p.value, w, old(output.capacity), memory)))
              && (p.Complete? && ok ==> Answer(p.value, w).Some?)
              && (ok && p.Complete? ==>
                    && Answer(p.value, w).Some? && done == old(done) + [Exchange(p.value, w)]
                    && input.Contents() == old(input.Contents())[p.consumed..]
                    && output.Contents() == ResponseFrame(Reply(Exchange(p.value, w))))
              && (!ok || p.NeedMore? ==>
                    done == old(done) && input.Contents() == old(input.Contents()) && output.Contents() == [])
    {
      hide Balanced, Answer, ParseRequest, ResponseFrame, Codec.Allocatable, Buffer.Enlarged, Buffer.Appended;
      var parsed := ParseRequest(input.Contents());
      if parsed.NeedMore? {
        return true;
      }
      if parsed.Invalid? {
        return false;
      }
      var answer := Answer(parsed.value, w);
      if answer.None? {
        return false;
      }
      ghost var b := Accounts();
      ghost var x: Exchange := Exchange(parsed.value, w);
      FrameQueued(b);
      assert [] + [x.request] == [x.request] && [x.request][1..] == [];
      HeadAnswered(b.(waiting := [x.request], input := b.input[parsed.consumed..]), x);
      assert [] + ResponseFrame(answer.value) == ResponseFrame(answer.value);
      ok := Codec.EncodeResponse(output, answer.value, memory);
      if ok {
        ok := input.Consume(parsed.consumed as size_t);
        done := done + [x];
      }
    }

    /**
     The loop head: process if nothing is pending, then choose what to poll for. Either output is
     pending and writability is awaited, or the input holds no complete and no invalid frame.
     */
    method Prepare(w: World, memory: (bool, bool)) returns (events: Option<Events>)
      requires Valid()
      modifies this, input, input.data, output, output.data
      ensures Valid() && Private() && received == old(received) && sent == old(sent)
      ensures events.Some? ==>
                || (output.Contents() != [] && events.value == Events(false, true))
                || (output.Contents() == [] && events.value == Events(true, false)
                    && ParseRequest(input.Contents()).NeedMore?)
      ensures var p := ParseRequest(old(input.Contents()));
              events.None? <==> old(output.Contents()) == []
                                && (|| p.Invalid?
                                    || (p.Complete? && !Answerable(p.value, w, old(output.capacity), memory)))
      ensures if events.Some? then Prepared(old(Accounts()), Accounts(), w) else Accounts() == old(Accounts())
      ensures events.None? ==> output.Contents() == []
    {
      hide Balanced, Answer, Answerable, ParseRequest, ResponseFrame;
      if output.length == 0 {
        var ok := ProcessRequest(w, memory);
        if !ok {
          return None;
        }
      }
      return Some(if output.length > 0 then Events(false, true) else Events(true, false));
    }

    /** A read happens only on an incomplete frame, so the input never is full. */
    method ReadClient() returns (reply: ReadReply, ok: bool, ghost memory: seq<bool>)
      requires Valid() && ParseRequest(input.Contents()).NeedMore?
      modifies this, input, input.data, output, output.data, wire`readLog, wire`memoryLog
      ensures Valid() && Private() && sent == old(sent) && done == old(done)
      ensures output.Contents() == old(output.Contents())
      ensures ok && reply.Data? ==>
                input.Contents() == old(input.Contents()) + reply.bytes && received == old(received) + reply.bytes
      ensures !(ok && reply.Data?) ==> input.Contents() == old(input.Contents()) && received == old(received)
      ensures wire.readLog == old(wire.readLog) + [Call(clientFd, reply)]
      ensures reply.Data? ==> |reply.bytes| <= 4096
      ensures wire.memoryLog == old(wire.memoryLog) + memory && |memory| == if reply.Data? then 1 else 0
      ensures match reply
              case Data(bytes) =>
                ok <==> |old(input.Contents())| + |bytes| <= old(input.capacity) as nat || memory[0]
              case EndOfFile => !ok
              case ReadFailed => !ok
              case ReadAgain => ok
              case ReadInterrupted => ok
    {
      hide Balanced, ParseRequest, Buffer.Enlarged, Buffer.Appended;
      IncompleteIsShort(input.Contents());
      var available := (input.maxSize - input.length) as nat;
      var readSize := Min(available, READ_CHUNK);
      if readSize == 0 {
        assert false;
      }
      reply := wire.Read(clientFd, readSize, 1);
      memory := [];
      match reply
      case Data(bytes) =>
        var served := wire.Allocate();
        memory := [served];
        ok := Keep(bytes, served);
      case EndOfFile => ok := false;
      case ReadInterrupted => ok := true;
      case ReadAgain => ok := true;
      case ReadFailed => ok := false;
    }

    /** Bytes that were read join the input, if its memory allows. */
    method Keep(bytes: seq<byte>, memory: bool) returns (ok: bool)
      requires Valid() && |input.Contents()| + |bytes| <= INPUT_LIMIT && bytes != []
      modifies this, input, input.data
      ensures Valid() && Private() && sent == old(sent) && done == old(done)
      ensures output.data == old(output.data) && output.Contents() == old(output.Contents())
      ensures ok <==> |old(input.Contents())| + |bytes| <= old(input.capacity) as nat || memory
      ensures input.Contents() == if ok then old(input.Contents()) + bytes else old(input.Contents())
      ensures received == if ok then old(received) + bytes else old(received)
    {
      hide Balanced, Buffer.Enlarged, Buffer.Appended;
      BytesArrive(Accounts(), bytes);
      ok := input.Append(bytes, memory);
      if ok {
        received := received + bytes;
      }
    }

    /** Bytes the kernel took leave the output. */
    method Release(n: nat)
      requires Valid() && n <= |output.Contents()|
      modifies this, output, output.data
      ensures Valid() && Private() && received == old(received) && done == old(done)
      ensures input.data == old(input.data) && input.Contents() == old(input.Contents())
      ensures sent == old(sent) + old(output.Contents())[..n] && output.Contents() == old(output.Contents())[n..]
    {
      hide Balanced, Buffer.Buffer.Contents;
      ghost var b := Accounts();
      BytesDepart(b, n);
      var _ := output.Consume(n as size_t);
      sent := sent + b.output[..n];
      assert Accounts() == b.(sent := b.sent + b.output[..n], output := b.output[n..]);
    }

    /** One send; what the kernel took leaves the output. */
    method WriteClient() returns (reply: SendReply, ok: bool)
      requires Valid()
      modifies this, input, input.data, output, output.data, wire`sendLog
      ensures Valid() && Private() && received == old(received) && done == old(done)
      ensures input.Contents() == old(input.Contents())
      ensures wire.sendLog == old(wire.sendLog) + [Call(clientFd, reply)]
      ensures ok <==> !reply.SendFailed?
      ensures var n := if reply.Sent? then reply.count else 0;
              && n <= |old(output.Contents())|
              && sent == old(sent) + old(output.Contents())[..n] && output.Contents() == old(output.Contents())[n..]
    {
      hide Balanced;
      var bytes := output.Contents();
      reply := wire.Send(clientFd, |bytes|, 1);
      match reply
      case Sent(n) =>
        Release(n);
        ok := true;
      case SendInterrupted => ok := true;
      case SendAgain => ok := true;
      case SendFailed => ok := false;
    }

    /** What an ended session has done, by the reason it ended. */
    ghost predicate Concluded(ending: Ending)
      reads this
    {
      // It answered a prefix of the requests it received, in order, and sent a prefix of the answers.
      && Honest(received, sent, done) && Asked(done) <= Drain(received).requests
      // At end of stream every complete request was answered and every answer fully sent.
      && (ending == EndOfStream ==>
            ServedInFull(received, sent, done) && !Drain(received).bad)
      // A session is rejected only at an invalid frame, after all requests before it.
      && (ending == BadFrame ==>
            ServedInFull(received, sent, done) && Drain(received).bad)
    }

    lemma Conclude(ending: Ending)
      requires Valid()
      requires ending == EndOfStream ==> output.Contents() == [] && ParseRequest(input.Contents()).NeedMore?
      requires ending == BadFrame ==> output.Contents() == [] && ParseRequest(input.Contents()).Invalid?
      ensures Concluded(ending)
    {
      hide Drain, ParseRequest, RequestStream, ResponseStream, Asked, Told;
      var b := Accounts();
      BalancedServesPrefix(b);
      BalancedIsHonest(b);
      if !ParseRequest(b.input).Complete? {
        DrainIncomplete(b.input);
      }
      assert Asked(done) + [] + Drain(b.input).requests == Asked(done) + Drain(b.input).requests;
      assert sent + [] == sent;
    }

    /** One turn of the worker loop after its stop check, its record, and the reason to leave the loop. */
    method Turn(a: Attempt) returns (ending: Option<Ending>, ghost r: Record)
      requires Valid()
      modifies this, input, input.data, output, output.data
      modifies wire`readLog, wire`sendLog, wire`memoryLog, wire`pollLog
      ensures Valid() && Private() && wire.attemptLog == old(wire.attemptLog)
      ensures r.attempt == a && r.ending == ending && TurnOk(old(Accounts()), Accounts(), r, clientFd)
      ensures Logged() == Grown(old(Logged()), r)
      ensures ending.Some? ==> ending.value != Stopping && Concluded(ending.value)
      ensures ending == Some(EndOfStream) <==> Last(wire.readLog, |old(wire.readLog)|, clientFd) == Some(EndOfFile)
      ensures var p, idle := ParseRequest(old(input.Contents())), old(output.Contents()) == [];
              && (ending == Some(BadFrame) <==> idle && p.Invalid?)
              && (ending == Some(NoResponse)
                  <==> idle && p.Complete? && !Answerable(p.value, a.world, old(output.capacity), a.memory))
    {
      hide Balanced, ParseRequest, Concluded, Answerable, Answer, Prepared, Moved, Justified;
      var events := Prepare(a.world, a.memory);
      ghost var m := Accounts();
      if events.None? {
        ending := Some(if ParseRequest(input.Contents()).Invalid? then BadFrame else NoResponse);
        r := Record(a, m, [], [], [], [], ending);
        Unanswered(old(Accounts()), r, old(output.capacity));
        Conclude(ending.value);
        return;
      }
      var poll := wire.Poll(events.value);
      ghost var polls := [Polled(events.value, poll)];
      if poll.PollFailed? {
        Conclude(PollError);
        return Some(PollError), Record(a, m, polls, [], [], [], Some(PollError));
      }
      if poll.PollInterrupted? || poll.TimedOut? {
        return None, Record(a, m, polls, [], [], [], None);
      }
      ghost var gets, memory, puts;
      ending, gets, memory, puts := HandleEvents(poll.revents);
      LastShift(old(wire.readLog), gets, clientFd);
      r := Record(a, m, polls, gets, memory, puts, ending);
    }

    /** Act on what poll reported for the one descriptor. */
    method HandleEvents(revents: Revents)
      returns (ending: Option<Ending>, ghost gets: seq<Call<ReadReply>>, ghost memory: seq<bool>,
               ghost puts: seq<Call<SendReply>>)
      requires Valid()
      requires revents.input ==> output.Contents() == [] && ParseRequest(input.Contents()).NeedMore?
      modifies this, input, input.data, output, output.data, wire`readLog, wire`sendLog, wire`memoryLog
      ensures Valid() && Private()
      ensures ending.Some? ==> Concluded(ending.value)
      ensures wire.readLog == old(wire.readLog) + gets && wire.sendLog == old(wire.sendLog) + puts
      ensures wire.memoryLog == old(wire.memoryLog) + memory
      ensures Justified(revents, Last(gets, 0, clientFd), Latest(memory, 0), Last(puts, 0, clientFd),
                        output.Contents() == [], ending)
      ensures Moved(old(Accounts()), Accounts(), gets, puts, ending, clientFd)
      ensures ending != Some(Stopping) && ending != Some(BadFrame) && ending != Some(NoResponse)
      ensures ending == Some(EndOfStream) <==> Last(gets, 0, clientFd) == Some(EndOfFile)
    {
      hide Balanced, ParseRequest, Concluded, Moved, Last, Latest;
      var broken;
      broken, gets, memory, puts := Transfer(revents);
      ending := broken;
      if ending.None? && (revents.error || revents.invalid) {
        ending := Some(PollError);
      }
      if ending.None? && revents.hangup && output.length == 0 {
        ending := Some(HungUp);
      }
      SameMove(old(Accounts()), Accounts(), gets, puts, broken, ending, clientFd);
      if ending.Some? {
        Conclude(ending.value);
      }
    }

    /** The reading and the writing that poll reported possible; one that breaks the connection ends it. */
    method Transfer(revents: Revents)
      returns (broken: Option<Ending>, ghost gets: seq<Call<ReadReply>>, ghost memory: seq<bool>,
               ghost puts: seq<Call<SendReply>>)
      requires Valid()
      requires revents.input ==> output.Contents() == [] && ParseRequest(input.Contents()).NeedMore?
      modifies this, input, input.data, output, output.data, wire`readLog, wire`sendLog, wire`memoryLog
      ensures Valid() && Private()
      ensures broken == Some(EndOfStream) ==> output.Contents() == [] && ParseRequest(input.Contents()).NeedMore?
      ensures wire.readLog == old(wire.readLog) + gets && wire.sendLog == old(wire.sendLog) + puts
      ensures wire.memoryLog == old(wire.memoryLog) + memory
      ensures Broke(revents, Last(gets, 0, clientFd), Latest(memory, 0), Last(puts, 0, clientFd), broken)
      ensures Moved(old(Accounts()), Accounts(), gets, puts, broken, clientFd)
    {
      hide Balanced, ParseRequest, Moved;
      broken, gets, memory, puts := None, [], [], [];
      if revents.input {
        var reply, ok;
        reply, ok, memory := ReadClient();
        gets := [Call(clientFd, reply)];
        if !ok {
          broken := Some(if reply.EndOfFile? then EndOfStream else ReadError);
        }
      }
      ghost var k := Accounts();
      assert received + [] == received && input.Contents() + [] == input.Contents();
      if broken.None? && revents.output {
        var reply, ok := WriteClient();
        puts := [Call(clientFd, reply)];
        if !ok {
          broken := Some(WriteError);
        }
      }
      Moves(old(Accounts()), k, Accounts(), gets, puts, broken, clientFd);
    }

    /**
     The worker loop and its record; `turns` is the number of turns before the stop flag is seen. It
     stops only then, or for the reason its last turn gives.
     */
    method Run(turns: nat) returns (ending: Ending, ghost books: seq<Books>, ghost trace: seq<Record>)
      requires Valid()
      modifies this, input, input.data, output, output.data, wire
      ensures Valid() && Private() && Concluded(ending)
      ensures Traced(books, trace, clientFd) && books[0] == old(Accounts()) && books[|trace|] == Accounts()
      ensures Logged() == AfterAll(old(Logged()), trace)
      ensures ending == EndOfStream <==> Last(wire.readLog, |old(wire.readLog)|, clientFd) == Some(EndOfFile)
      ensures |trace| <= turns
      ensures if ending == Stopping then |trace| == turns && forall k :: 0 <= k < turns ==> trace[k].ending == None
              else trace != [] && trace[|trace| - 1].ending == Some(ending)
    {
      hide Balanced, Concluded, Traced, TurnOk, AfterAll;
      books, trace := [Accounts()], [];
      NoTrace(Accounts(), Logged(), clientFd);
      for turn := 0 to turns
        invariant Valid() && Private() && Traced(books, trace, clientFd) && Logged() == AfterAll(old(Logged()), trace)
        invariant |trace| == turn && |books| == turn + 1 && books[0] == old(Accounts()) && books[turn] == Accounts()
        invariant forall k :: 0 <= k < turn ==> trace[k].ending == None
        invariant old(wire.readLog) <= wire.readLog
        invariant Last(wire.readLog, |old(wire.readLog)|, clientFd) != Some(EndOfFile)
      {
        ghost var before := wire.readLog;
        var a := wire.Outside();
        ghost var r;
        var left;
        left, r := Turn(a);
        assert wire.readLog[..|before|] == before;
        LastGoesOn(wire.readLog, |old(wire.readLog)|, |before|, clientFd);
        TraceMore(books, trace, clientFd, Accounts(), r);
        AfterMore(old(Logged()), trace, r);
        books, trace := books + [Accounts()], trace + [r];
        if left.Some? {
          return left.value, books, trace;
        }
      }
      Conclude(Stopping);
      return Stopping, books, trace;
    }
  }
}
