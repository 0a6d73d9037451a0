/**
 The single-threaded poll server of src/server_uds.c, on the buffers and the linked list of its
 tables; the number of client slots is arbitrary. `S()` is the state the invariant speaks of, and
 `Linked()` ties what the tables hold to it.
 */
module PollServer {
  import opened Base
  import opened Protocol
  import opened Commands
  import opened Service
  import opened Kernel
  import opened PollState
  import opened PollSteps
  import opened PollReading
  import opened PollEvents
  import opened PollFlow
  import opened PollTrace
  import Codec
  import Queue
  import T = Tables

  class Server {
    const slots: nat
    const wire: Wire
    const tables: T.Tables
    var clients: seq<Client>
    var open: map<int, nat>
    var history: seq<History>
    ghost var queue: seq<Queued>
    ghost var answered: seq<Answered>
    ghost var nextTicket: nat

    ghost function S(): State
      reads this
    {
      State(clients, queue, open, history, answered, nextTicket)
    }

    /** The buffers and the list hold what the state says. */
    ghost predicate Linked()
      reads this, tables, tables.Repr
      ensures Linked() ==> tables.Valid() && this !in tables.Repr && wire !in tables.Repr && |clients| == slots
    {
      && tables.Valid() && this !in tables.Repr && wire !in tables.Repr
      && |clients| == slots && |tables.contents| == 2 * slots
      && (forall i :: 0 <= i < |clients| ==>
            tables.contents[T.Input(i)] == clients[i].input && tables.contents[T.Output(i)] == clients[i].output)
      && tables.items == ItemsOf(queue)
    }

    function InputOf(i: nat): (s: seq<byte>)
      requires Linked() && i < slots
      reads this, tables, tables.Repr
      ensures s == clients[i].input
    {
      tables.Bytes(T.Input(i))
    }

    function OutputOf(i: nat): (s: seq<byte>)
      requires Linked() && i < slots
      reads this, tables, tables.Repr
      ensures s == clients[i].output
    {
      tables.Bytes(T.Output(i))
    }

    ghost function OutputCapacity(i: nat): (n: nat)
      requires Linked() && i < slots
      reads this, tables, tables.Repr
      ensures n <= OUTPUT_LIMIT
    {
      tables.capacities[T.Output(i)]
    }

    function QueueLength(): (n: nat)
      requires Linked()
      reads this, tables, tables.Repr
      ensures n == |queue|
    {
      tables.Queued()
    }

    ghost predicate Valid()
      reads this, tables, tables.Repr
    {
      Linked() && Inv(S(), FREE)
    }

    /** In the middle of serving slot `i`, whose books balance. */
    ghost predicate Open(i: nat)
      reads this, tables, tables.Repr
    {
      Linked() && Serving(S(), i)
    }

    ghost function Logged(): Logs
      reads this, wire
    {
      Logs(wire.readLog, wire.sendLog, wire.attemptLog, wire.acceptLog, wire.pollAllLog)
    }

    /** The tables take up only memory they had, or fresh memory. */
    twostate predicate Private()
      reads tables
    {
      fresh(tables.Repr - old(tables.Repr))
    }

    constructor (slots: nat)
      ensures Valid() && this.slots == slots && queue == [] && open == map[]
      ensures fresh(tables.Repr) && fresh(tables) && fresh(wire)
      ensures forall i :: 0 <= i < slots ==> clients[i].fd == FREE
    {
      InitialInv(slots);
      hide Inv, T.Tables.Valid;
      this.slots := slots;
      wire := new Wire();
      tables := new T.Tables(slots);
      clients := seq(slots, _ => Client(FREE, [], [], 0));
      open := map[];
      history := [];
      queue := [];
      answered := [];
      nextTicket := 0;
    }

    method FindClient(fd: int) returns (found: Option<nat>)
      ensures found.Some? ==> found.value < |clients| && clients[found.value].fd == fd
      ensures found.Some? ==> forall i :: 0 <= i < found.value ==> clients[i].fd != fd
      ensures found.None? ==> forall i :: 0 <= i < |clients| ==> clients[i].fd != fd
    {
      for i := 0 to |clients|
        invariant forall j :: 0 <= j < i ==> clients[j].fd != fd
      {
        if clients[i].fd == fd {
          return Some(i);
        }
      }
      return None;
    }

    /** Take the first free slot; a new connection begins. */
    method AddClient(fd: int) returns (ok: bool)
      requires Valid() && fd >= 0 && fd !in open
      modifies this, tables
      ensures Valid() && Private()
      ensures ok <==> exists i :: 0 <= i < |old(clients)| && old(clients)[i].fd == FREE
      ensures ok ==>
                exists i :: && 0 <= i < |old(clients)| && old(clients)[i].fd == FREE && Full(old(clients)[..i])
                            && S() == Connect(old(S()), i, fd)
      ensures !ok ==> S() == old(S())
      ensures Joined(old(clients), clients, |old(history)|) && TotalOutput(clients) == TotalOutput(old(clients))
      ensures ok ==> queue == old(queue) && answered == old(answered) && history == old(history) + [History([], [])]
      ensures ok ==> open == old(open)[fd := |old(history)|]
    {
      hide Inv, TotalOutput, T.Tables.Valid;
      var slot := FindClient(FREE);
      if slot.None? {
        return false;
      }
      var i := slot.value;
      ConnectKeeps(S(), i, fd);
      TotalOutputUpdate(clients, i, Client(fd, [], [], |history|));
      tables.Renew(i);
      clients := clients[i := Client(fd, [], [], |history|)];
      open := open[fd := |history|];
      history := history + [History([], [])];
      return true;
    }

    /** Forget a client: its queued requests, its buffers, its slot, its descriptor. */
    method RemoveClient(i: nat)
      requires Linked() && i < slots && (Inv(S(), FREE) || (Live(S(), i) && Inv(S(), i)))
      modifies this, tables, tables.Repr
      ensures Valid() && Private()
      ensures OnlySlot(old(clients), clients, i) && clients[i].fd == FREE
      ensures answered == old(answered) && history == old(history)
      ensures |queue| <= |old(queue)| && TotalOutput(clients) <= TotalOutput(old(clients))
      ensures S() == if old(Live(S(), i)) then Remove(old(S()), i) else old(S())
    {
      hide Inv, Drop, TotalOutput, T.Tables.Valid;
      if clients[i].fd == FREE {
        return;
      }
      if Inv(S(), FREE) {
        WeakenInv(S(), i);
      }
      var fd := clients[i].fd;
      RemoveKeeps(S(), i);
      RemoveShrinks(S(), i);
      DropIsWithout(queue, fd);
      tables.DiscardClient(fd);
      tables.Renew(i);
      queue := Drop(queue, fd);
      clients := clients[i := Client(FREE, [], [], 0)];
      open := open - {fd};
    }

    /** Queue one complete frame and consume it, if a node can be allocated. */
    method TakeOne(i: nat, memory: bool) returns (ok: bool)
      requires Open(i) && ParseRequest(clients[i].input).Complete? && |queue| < MAX_QUEUED
      modifies this, tables, tables.Repr
      ensures Open(i) && Private() && ok == memory
      ensures S() == if ok then TakeFrame(old(S()), i) else old(S())
    {
      hide Inv, Serving, Balanced, ParseRequest, RequestFrame, TableOk, NamesOk, T.Tables.Valid;
      ServingBounds(S(), i);
      TakeFrameKeeps(S(), i);
      CompleteConsumesFrame(clients[i].input);
      var c := clients[i];
      var parsed := ParseRequest(InputOf(i));
      ok := tables.Enqueue(c.fd, parsed.value, memory);
      if ok {
        tables.Consume(T.Input(i), parsed.consumed);
        ghost var q := Queued(c.fd, parsed.value, c.conn, nextTicket);
        assert ItemsOf(queue + [q]) == ItemsOf(queue) + [Queue.Item(c.fd, parsed.value)];
        queue := queue + [q];
        nextTicket := nextTicket + 1;
        clients := clients[i := c.(input := c.input[parsed.consumed..])];
      }
    }

    /**
     Extract every complete frame of the input into the queue. Unless the queue or the memory runs
     out, what is queued, what stays pending and whether the client is rejected are those of `Drain`.
     */
    method EnqueueCompleteRequests(i: nat) returns (verdict: Verdict)
      requires Open(i)
      modifies this, tables, tables.Repr, wire`memoryLog
      ensures Open(i) && Private()
      ensures Extracted(old(S()), S(), i, verdict)
      ensures |queue| <= 256 && (verdict == QueueFull ==> |queue| == 256)
      ensures old(wire.memoryLog) <= wire.memoryLog
      ensures verdict == NoMemory <==> Latest(wire.memoryLog, |old(wire.memoryLog)|) == Some(false)
    {
      hide Inv, Serving, Balanced, Drain, ParseRequest, Extracting, Linked, InputOf, QueueLength, T.Tables.Valid;
      ghost var s := S();
      ServingBounds(s, i);
      ExtractNothing(s, i);
      while true
        invariant Open(i) && i < |clients| && Extracting(s, S(), i) && Private()
        invariant old(wire.memoryLog) <= wire.memoryLog
        invariant Latest(wire.memoryLog, |old(wire.memoryLog)|) != Some(false)
        decreases |clients[i].input|
      {
        ServingBounds(S(), i);
        var parsed := ParseRequest(InputOf(i));
        if !parsed.Complete? {
          ExtractAll(s, S(), i);
          return if parsed.NeedMore? then Kept else BadFrame;
        }
        if QueueLength() >= MAX_QUEUED {
          return QueueFull;
        }
        var memory := wire.Allocate();
        ExtractFrame(s, S(), i);
        CompleteConsumesFrame(clients[i].input);
        var ok := TakeOne(i, memory);
        if !ok {
          return NoMemory;
        }
      }
    }

    /** Keep the bytes of one read, if the input's memory allows, and extract what they complete. */
    method ReceiveChunk(i: nat, bytes: seq<byte>) returns (verdict: Verdict, kept: bool)
      requires Open(i) && bytes != [] && |clients[i].input| + |bytes| <= INPUT_LIMIT
      modifies this, tables, tables.Repr, wire`memoryLog
      ensures Open(i) && Private() && Serving(old(S()), i)
      ensures if kept then Extracted(Arrive(old(S()), i, bytes), S(), i, verdict)
              else S() == old(S()) && verdict == NoMemory
      ensures old(wire.memoryLog) <= wire.memoryLog
      ensures verdict == NoMemory ==> Latest(wire.memoryLog, |old(wire.memoryLog)|) == Some(false)
      ensures verdict == QueueFull ==> |queue| == 256
    {
      hide Inv, Serving, TableOk, NamesOk, Balanced, Extracted, T.Tables.Valid;
      ghost var t := S();
      ServingBounds(t, i);
      ArriveKeeps(t, i, bytes);
      var memory := wire.Allocate();
      kept := tables.Append(T.Input(i), bytes, memory);
      if !kept {
        return NoMemory, false;
      }
      var conn := open[clients[i].fd];
      clients := clients[i := clients[i].(input := clients[i].input + bytes)];
      history := history[conn := history[conn].(received := history[conn].received + bytes)];
      assert S() == Arrive(t, i, bytes);
      verdict := EnqueueCompleteRequests(i);
    }

    /**
     One read, after `data` was read since state `s`. A full input is never met, because pending
     input is an incomplete frame. Unless it interrupts or stops the reading, it takes a step down
     `ReadsLeft`.
     */
    method ReadOnce(i: nat, interrupts: nat, ghost s: State, ghost data: seq<byte>)
      returns (reply: ReadReply, stop: Option<Verdict>, ghost more: seq<byte>)
      requires Open(i) && ParseRequest(clients[i].input).NeedMore? && Reading(s, S(), i, data)
      modifies this, tables, tables.Repr, wire`readLog, wire`memoryLog
      ensures Open(i) && Private() && Reading(s, S(), i, data + more)
      ensures wire.readLog == old(wire.readLog) + [Call(old(clients)[i].fd, reply)]
      ensures wire.sendLog == old(wire.sendLog) && old(wire.memoryLog) <= wire.memoryLog
      ensures if reply.Data? then |reply.bytes| <= 4096 else S() == old(S())
      ensures more == (if reply.Data? then reply.bytes else []) || (more == [] && stop == Some(NoMemory))
      ensures stop.Some? ==> Reason(reply, stop.value) && ReadAll(s, S(), i, data + more, stop.value)
      ensures stop == Some(NoMemory) ==> Latest(wire.memoryLog, |old(wire.memoryLog)|) == Some(false)
      ensures stop == Some(QueueFull) ==> |queue| == 256
      ensures stop.None? || stop == Some(Kept) ==> ParseRequest(clients[i].input).NeedMore?
      ensures stop.None? ==> (reply.ReadInterrupted? && interrupts > 0) || (reply.Data? && ReadStep(old(S()), S(), i))
    {
      hide Inv, TableOk, NamesOk, Serving, Balanced, Drain, ParseRequest, Extracted, Reading, ReadAll;
      hide Linked, InputOf, T.Tables.Valid;
      ghost var t := S();
      ServingBounds(t, i);
      IncompleteIsShort(clients[i].input);
      var readSize := Min(INPUT_LIMIT - |InputOf(i)|, READ_CHUNK);
      if readSize == 0 {
        assert false;
      }
      reply := wire.Read(clients[i].fd, readSize, interrupts);
      more := [];
      assert data + more == data;
      stop := None;
      match reply
      case Data(bytes) =>
        var extracted, kept := ReceiveChunk(i, bytes);
        if !kept {
          ReadEnds(s, S(), i, data, NoMemory);
          stop := Some(NoMemory);
          return;
        }
        more := bytes;
        ReadTurn(s, t, S(), i, data, bytes, extracted);
        if extracted != Kept {
          stop := Some(extracted);
        }
      case ReadInterrupted =>
      case EndOfFile =>
        ReadEnds(s, S(), i, data, Closed);
        stop := Some(Closed);
      case ReadAgain =>
        ReadEnds(s, S(), i, data, Kept);
        stop := Some(Kept);
      case ReadFailed =>
        ReadEnds(s, S(), i, data, Broken);
        stop := Some(Broken);
    }

    /**
     Read until the kernel has no more, queueing requests as their frames complete; the number of
     successful reads is bounded.
     */
    method ReadClient(i: nat, interrupts: nat)
      returns (verdict: Verdict, count: nat, ghost data: seq<byte>, ghost calls: seq<Call<ReadReply>>)
      requires Valid() && Live(S(), i)
      modifies this, tables, tables.Repr, wire`readLog, wire`memoryLog
      ensures wire.readLog == old(wire.readLog) + calls && AllOn(calls, old(clients)[i].fd)
      ensures wire.sendLog == old(wire.sendLog) && old(wire.memoryLog) <= wire.memoryLog
      ensures count == Successes(calls) && StoppedBecause(calls, data, verdict)
      ensures verdict == NoMemory ==> Latest(wire.memoryLog, |old(wire.memoryLog)|) == Some(false)
      ensures Reading(old(S()), S(), i, data) && ReadAll(old(S()), S(), i, data, verdict)
      ensures Linked() && Private() && Inv(S(), if verdict == Kept then FREE else i)
      ensures count <= ReadsLeft(|old(queue)|, |old(clients)[i].input|) + 1
      ensures count == 0 ==> S() == old(S())
      ensures |queue| <= 256 && (verdict == QueueFull ==> |queue| == 256)
    {
      hide Inv, TableOk, NamesOk, Serving, Balanced, Drain, ParseRequest, Reading, ReadAll, ReadsLeft;
      hide Linked, T.Tables.Valid;
      hide Delivered, Successes;
      NoCalls();
      var budget := interrupts;
      ghost var s := S();
      calls, count, data := [], 0, [];
      StartServing(s, i);
      ServingBounds(s, i);
      ReadNothing(s, i);
      while true
        invariant Open(i) && i < |clients| && clients[i].fd == s.clients[i].fd
        invariant ParseRequest(clients[i].input).NeedMore?
        invariant Private() && Reading(s, S(), i, data)
        invariant count + ReadsLeft(|queue|, |clients[i].input|) <= ReadsLeft(|s.queue|, |s.clients[i].input|)
        invariant count == 0 ==> S() == s
        invariant wire.readLog == old(wire.readLog) + calls && AllOn(calls, s.clients[i].fd)
        invariant Delivered(calls) == data && Successes(calls) == count
        invariant wire.sendLog == old(wire.sendLog) && old(wire.memoryLog) <= wire.memoryLog
        decreases MAX_QUEUED - |queue|, INPUT_LIMIT - |clients[i].input|, budget
      {
        ServingBounds(S(), i);
        ghost var more;
        var reply, stop;
        reply, stop, more := ReadOnce(i, budget, s, data);
        ServingBounds(S(), i);
        ReadFrame(s, S(), i, data + more);
        OneMoreRead(calls, Call(s.clients[i].fd, reply));
        calls := calls + [Call(s.clients[i].fd, reply)];
        data := data + more;
        if reply.Data? {
          count := count + 1;
        }
        if stop.Some? {
          if stop.value == Kept {
            StopServing(S(), i);
          }
          return stop.value, count, data, calls;
        }
        if reply.ReadInterrupted? {
          budget := budget - 1;
        }
      }
    }

    /** Bytes the kernel took leave the output. */
    method ReleaseOutput(i: nat, n: nat)
      requires Open(i) && n <= |clients[i].output|
      modifies this, tables, tables.Repr
      ensures Open(i) && Private() && Serving(old(S()), i)
      ensures S() == Depart(old(S()), i, n) && clients[i].input == old(clients)[i].input
      ensures clients[i].output == old(clients)[i].output[n..]
    {
      hide Inv, Serving, TableOk, NamesOk, T.Tables.Valid;
      ServingBounds(S(), i);
      DepartKeeps(S(), i, n);
      var conn := open[clients[i].fd];
      var bytes := OutputOf(i)[..n];
      tables.Consume(T.Output(i), n);
      history := history[conn := history[conn].(sent := history[conn].sent + bytes)];
      clients := clients[i := clients[i].(output := clients[i].output[n..])];
    }

    /** Send until the output is empty or the kernel takes no more; all the sends are one departure. */
    method WriteClient(i: nat, interrupts: nat) returns (ok: bool, count: nat, ghost calls: seq<Call<SendReply>>)
      requires Valid() && Live(S(), i)
      modifies this, tables, tables.Repr, wire`sendLog
      ensures Valid() && Private()
      ensures count <= |old(clients)[i].output| && TableOk(old(S())) && NamesOk(old(S()))
      ensures S() == Depart(old(S()), i, count)
      ensures wire.sendLog == old(wire.sendLog) + calls && AllOn(calls, old(clients)[i].fd) && count == Taken(calls)
      ensures ok ==> clients[i].output == [] || (calls != [] && calls[|calls| - 1].reply == SendAgain)
      ensures !ok <==> calls != [] && calls[|calls| - 1].reply == SendFailed
    {
      hide Inv, TableOk, NamesOk, Serving, Balanced, ParseRequest, Depart, Linked, OutputOf, T.Tables.Valid;
      var budget := interrupts;
      ghost var s := S();
      var fd := clients[i].fd;
      StartServing(s, i);
      ServingBounds(s, i);
      DepartNothing(s, i);
      count, calls := 0, [];
      while |OutputOf(i)| > 0
        invariant Open(i) && i < |clients| && Private()
        invariant count + |clients[i].output| == |s.clients[i].output| && S() == Depart(s, i, count)
        invariant ParseRequest(clients[i].input).NeedMore?
        invariant wire.sendLog == old(wire.sendLog) + calls && AllOn(calls, fd) && Taken(calls) == count
        invariant calls != [] ==> calls[|calls| - 1].reply != SendFailed
        decreases |clients[i].output|, budget
      {
        hide Taken;
        ServingBounds(S(), i);
        var reply := wire.Send(fd, |OutputOf(i)|, budget);
        OneMoreSend(calls, Call(fd, reply));
        calls := calls + [Call(fd, reply)];
        match reply
        case Sent(n) =>
          DepartMore(s, i, count, n);
          ReleaseOutput(i, n);
          count := count + n;
        case SendInterrupted =>
          budget := budget - 1;
        case SendAgain =>
          StopServing(S(), i);
          return true, count, calls;
        case SendFailed =>
          StopServing(S(), i);
          return false, count, calls;
      }
      StopServing(S(), i);
      ok := true;
    }

    method DequeueHead() returns (request: Request)
      requires Linked() && queue != []
      modifies this, tables, tables.Repr
      ensures Linked() && Private()
      ensures S() == Dequeue(old(S())) && request == old(queue)[0].request
      ensures forall i :: 0 <= i < slots ==> OutputCapacity(i) == old(OutputCapacity(i))
    {
      hide T.Tables.Valid;
      var first := tables.Dequeue();
      assert ItemsOf(queue[1..]) == ItemsOf(queue)[1..];
      assert first.value == ItemsOf(queue)[0];
      queue := queue[1..];
      return first.value.request;
    }

    /** Put a response into an empty output, where it always fits, and record what it answers. */
    method Place(i: nat, p: Payload, memory: (bool, bool), ghost a: Answered) returns (ok: bool)
      requires Linked() && i < slots && clients[i].output == []
      modifies this, tables, tables.Repr
      ensures Linked() && Private()
      ensures ok <==> Codec.Allocatable(old(OutputCapacity(i)), OUTPUT_LIMIT, 0, RESPONSE_HEADER, |p|, memory)
      ensures S() == if ok then old(S()).(clients := old(clients)[i := old(clients)[i].(output := ResponseFrame(p))],
                                          answered := old(answered) + [a]) else old(S())
    {
      hide ResponseFrame, T.Tables.Valid;
      assert [] + ResponseFrame(p) == ResponseFrame(p);
      ok := tables.AppendResponse(T.Output(i), p, memory);
      if ok {
        answered := answered + [a];
        clients := clients[i := clients[i].(output := ResponseFrame(p))];
      }
    }

    /**
     Take the head of the queue, execute it and place the response in its client's empty output. The
     response always fits, so only a missing error text or the allocator can make it fail, and then
     the client is removed.
     */
    method AnswerHead(i: nat, a: Attempt) returns (placed: bool)
      requires Valid() && Live(S(), i) && queue != [] && Owns(clients[i], queue[0]) && clients[i].output == []
      modifies this, tables, tables.Repr
      ensures Valid() && Private()
      ensures placed <==> var answer := Answer(old(queue)[0].request, a.world);
                          && answer.Some?
                          && Codec.Allocatable(old(OutputCapacity(i)), OUTPUT_LIMIT, 0, RESPONSE_HEADER,
                                               |answer.value|, a.memory)
      ensures S() == if placed then Respond(old(S()), i, a.world) else Remove(Dequeue(old(S())), i)
    {
      hide Inv, Answer, ResponseFrame, Linked, Codec.Allocatable, T.Tables.Valid;
      ghost var s := S();
      var request := DequeueHead();
      var answer := Answer(request, a.world);
      placed := false;
      if answer.Some? {
        ghost var told := Answered(s.clients[i].conn, s.queue[0].ticket, Exchange(request, a.world));
        placed := Place(i, answer.value, a.memory, told);
      }
      if placed {
        RespondKeeps(s, i, a.world);
      } else {
        DequeueKeeps(s, i);
        RemoveClient(i);
      }
    }

    /**
     Answer queued requests in order until the next client's earlier response must drain first. The
     owner of the head is always found; the loop ends because the queue gets shorter. `steps` is the
     record of what was taken, for whom and with what from the outside: replaying it gives the state.
     */
    method ProcessQueue() returns (ghost steps: seq<Step>)
      requires Valid()
      modifies this, tables, tables.Repr, wire`attemptLog
      ensures Valid() && Private()
      ensures queue == [] || HeadBlocked(clients, queue)
      ensures Replay(old(S()), steps) == Some(S())
      ensures wire.attemptLog == old(wire.attemptLog) + Attempts(steps)
      ensures history == old(history) && old(answered) <= answered && nextTicket == old(nextTicket)
      ensures S() == old(S()) || |queue| < |old(queue)|
      ensures Potential(clients, queue) <= Potential(old(clients), old(queue))
    {
      hide Inv, Answer, Drop, Linked, OutputOf, TotalOutput, Codec.Allocatable, T.Tables.Valid;
      steps := [];
      while true
        invariant Valid() && Private() && Replay(old(S()), steps) == Some(S())
        invariant wire.attemptLog == old(wire.attemptLog) + Attempts(steps)
        invariant history == old(history) && old(answered) <= answered && nextTicket == old(nextTicket)
        invariant S() == old(S()) || |queue| < |old(queue)|
        invariant Potential(clients, queue) <= Potential(old(clients), old(queue))
        decreases |queue|
      {
        hide Replay, Attempts;
        var first := HeadItem();
        if first.None? {
          return;
        }
        var found := FindClient(first.value.fd);
        HeadOwner(S(), found);
        if found.None? {
          assert false;
        }
        var i := found.value;
        if |OutputOf(i)| != 0 {
          return;
        }
        var a := wire.Outside();
        ghost var t := S();
        ghost var capacity := OutputCapacity(i);
        var placed := AnswerHead(i, a);
        ghost var x := Step(i, a, placed);
        AnswerSpends(t, i, a.world, placed);
        HeadTaken(t, x, capacity);
        ReplayMore(old(S()), steps, x);
        steps := steps + [x];
      }
    }

    method HeadItem() returns (first: Option<Queue.Item>)
      requires Linked()
      ensures first.None? <==> queue == []
      ensures first.Some? ==> first.value == Queue.Item(queue[0].fd, queue[0].request)
    {
      hide T.Tables.Valid;
      first := tables.Peek();
    }

    /** One entry per live slot, in slot order, asking to write exactly when output is pending. */
    method BuildPollList() returns (list: seq<PollEntry>)
      requires Linked()
      ensures PollListOf(clients, list)
    {
      hide Linked, OutputOf;
      list := [];
      for i := 0 to |clients|
        invariant PollListUpTo(clients, list, i)
      {
        if clients[i].fd != FREE {
          ghost var before := list;
          list := list + [PollEntry(i, clients[i].fd, Events(true, OutputOf(i) != []), clients[i].conn)];
          assert forall k :: 0 <= k < |before| ==> list[k] == before[k];
          assert list[|before|].slot == i;
        }
      }
    }

    /**
     The head of the main loop. When the server is about to block, the queue is empty or its head
     waits for a live client whose writability is being polled.
     */
    method ArmPoll() returns (listening: bool, list: seq<PollEntry>, ghost steps: seq<Step>)
      requires Valid()
      modifies this, tables, tables.Repr, wire`attemptLog
      ensures Replay(old(S()), steps) == Some(S()) && wire.attemptLog == old(wire.attemptLog) + Attempts(steps)
      ensures Valid() && Private() && PollListOf(clients, list)
      ensures listening <==> !Full(clients)
      ensures queue != [] ==>
                exists k :: 0 <= k < |list| && Owns(clients[list[k].slot], queue[0]) && list[k].events.output
      ensures history == old(history) && old(answered) <= answered && nextTicket == old(nextTicket)
      ensures S() == old(S()) || |queue| < |old(queue)|
      ensures Potential(clients, queue) <= Potential(old(clients), old(queue))
    {
      hide Inv, Linked, Potential, Replay, Attempts;
      steps := ProcessQueue();
      list := BuildPollList();
      var free := FindClient(FREE);
      listening := free.Some?;
      if queue != [] {
        ghost var i :| 0 <= i < |clients| && Owns(clients[i], queue[0]) && clients[i].output != [];
        ghost var k :| 0 <= k < |list| && list[k].slot == i;
      }
    }

    /**
     Accept while slots are free until the kernel has no more; a descriptor that cannot be made
     nonblocking is closed again, and every other one becomes a connection.
     */
    method AcceptClients(waiting: nat, interrupts: nat) returns (accepted: nat, ghost log: seq<Arrival>)
      requires Valid()
      modifies this, tables, wire`acceptLog
      ensures Valid() && Private() && queue == old(queue) && answered == old(answered)
      ensures |history| == |old(history)| + accepted && old(history) <= history && Newcomers(history, |old(history)|)
      ensures Joined(old(clients), clients, |old(history)|)
      ensures TotalOutput(clients) == TotalOutput(old(clients))
      ensures wire.acceptLog == old(wire.acceptLog) + log
      ensures accepted == |Admitted(log)| && Welcomed(|old(history)|, Admitted(log), open)
      ensures Full(clients) || (log != [] && log[|log| - 1].reply == AcceptStopped)
      ensures log == [] ==> Full(old(clients)) && S() == old(S())
    {
      hide Inv, TotalOutput, Linked, Connect, T.Tables.Valid;
      var backlog, budget := waiting, interrupts;
      accepted, log := 0, [];
      hide Admitted, Welcomed;
      NobodyAdmitted(|history|, open);
      while true
        invariant Valid() && Private() && queue == old(queue) && answered == old(answered)
        invariant |history| == |old(history)| + accepted && old(history) <= history
        invariant Newcomers(history, |old(history)|)
        invariant Joined(old(clients), clients, |old(history)|)
        invariant TotalOutput(clients) == TotalOutput(old(clients))
        invariant wire.acceptLog == old(wire.acceptLog) + log
        invariant accepted == |Admitted(log)| && Welcomed(|old(history)|, Admitted(log), open)
        invariant log == [] ==> S() == old(S())
        decreases backlog, budget
      {
        var free := FindClient(FREE);
        if free.None? {
          return;
        }
        var a := wire.Accept(open, backlog, budget);
        AdmitOne(log, a);
        ghost var before := log;
        log := log + [a];
        match a.reply
        case AcceptInterrupted =>
          budget := budget - 1;
        case AcceptStopped =>
          return;
        case Accepted(fd) =>
          backlog := backlog - 1;
          if a.nonblocking {
            WelcomeOne(|old(history)|, Admitted(before), open, fd);
            var added := AddClient(fd);
            if added {
              accepted := accepted + 1;
            } else {
              assert false;
            }
          }
      }
    }

    /**
     Act on the events of one polled client. No other slot changes, and the slot holds the same
     connection afterwards or none: none exactly when an error was reported, reading ended with
     anything but an empty socket, or sending failed. Without new input, what is queued and pending
     only shrinks.
     */
    method HandleClient(i: nat, events: Revents, interrupts: nat)
      returns (chunks: nat, sent: nat, ghost gets: seq<Call<ReadReply>>, ghost puts: seq<Call<SendReply>>)
      requires Valid() && Live(S(), i)
      modifies this, tables, tables.Repr, wire`readLog, wire`sendLog, wire`memoryLog
      ensures Valid() && Private() && OnlySlot(old(clients), clients, i)
      ensures old(answered) == answered && |history| == |old(history)|
      ensures wire.readLog == old(wire.readLog) + gets && AllOn(gets, old(clients)[i].fd) && Successes(gets) == chunks
      ensures wire.sendLog == old(wire.sendLog) + puts && AllOn(puts, old(clients)[i].fd) && Taken(puts) == sent
      ensures chunks == 0 ==> |queue| <= |old(queue)| && TotalOutput(clients) + sent <= TotalOutput(old(clients))
      ensures var fd := old(clients)[i].fd;
              Handled(old(clients), clients, i, events, Last(gets, 0, fd), Last(puts, 0, fd))
      ensures var c := old(clients)[i].conn;
              OnlyHistory(old(history), history, c)
              && Flowed(old(history)[c], history[c], gets, puts, clients[i].fd != FREE)
    {
      hide Inv, TotalOutput, Remove, Linked, T.Tables.Valid;
      hide Successes, Taken, Flowed, TableOk;
      NoCalls();
      chunks, sent, gets, puts := 0, 0, [], [];
      InvTable(S());
      ghost var c := clients[i].conn;
      FlowedNone(history[c]);
      if events.input {
        chunks, gets := HandleInput(i, interrupts);
        if clients[i].fd == FREE {
          return;
        }
      }
      if events.output {
        ghost var g := history[c];
        sent, puts := HandleOutput(i, interrupts);
        FlowedBoth(old(history)[c], g, history[c], gets, puts);
        if clients[i].fd == FREE {
          return;
        }
      }
      if events.error || events.hangup || events.invalid {
        FlowedDropped(old(history)[c], history[c], gets, puts);
        RemoveClient(i);
      }
    }

    /** Read from a client that has input; it stays exactly when reading ends on an empty socket. */
    method HandleInput(i: nat, interrupts: nat) returns (chunks: nat, ghost gets: seq<Call<ReadReply>>)
      requires Valid() && Live(S(), i)
      modifies this, tables, tables.Repr, wire`readLog, wire`memoryLog
      ensures Valid() && Private() && OnlySlot(old(clients), clients, i)
      ensures old(answered) == answered && |history| == |old(history)|
      ensures wire.readLog == old(wire.readLog) + gets && AllOn(gets, old(clients)[i].fd) && Successes(gets) == chunks
      ensures wire.sendLog == old(wire.sendLog)
      ensures chunks == 0 ==> |queue| <= |old(queue)| && TotalOutput(clients) <= TotalOutput(old(clients))
      ensures var c := old(clients)[i].conn;
              OnlyHistory(old(history), history, c)
              && Flowed(old(history)[c], history[c], gets, [], clients[i].fd != FREE)
      ensures gets != [] && (clients[i].fd != FREE <==> Last(gets, 0, old(clients)[i].fd) == Some(ReadAgain))
    {
      hide Inv, Reading, ReadAll, TotalOutput, Delivered, Remove, ReadsLeft, Linked, Successes, T.Tables.Valid;
      var verdict;
      ghost var data;
      verdict, chunks, data, gets := ReadClient(i, interrupts);
      ReadFrame(old(S()), S(), i, data);
      ReadFlows(old(S()), S(), i, gets, data, verdict);
      if verdict != Kept {
        RemoveClient(i);
      }
    }

    /** Send to a client that can take output; it stays unless sending fails. */
    method HandleOutput(i: nat, interrupts: nat) returns (sent: nat, ghost puts: seq<Call<SendReply>>)
      requires Valid() && Live(S(), i)
      modifies this, tables, tables.Repr, wire`sendLog
      ensures Valid() && Private() && OnlySlot(old(clients), clients, i)
      ensures old(answered) == answered && |history| == |old(history)|
      ensures wire.sendLog == old(wire.sendLog) + puts && AllOn(puts, old(clients)[i].fd) && Taken(puts) == sent
      ensures wire.readLog == old(wire.readLog)
      ensures |queue| <= |old(queue)| && TotalOutput(clients) + sent <= TotalOutput(old(clients))
      ensures var c := old(clients)[i].conn;
              OnlyHistory(old(history), history, c) && Flowed(old(history)[c], history[c], [], puts, true)
      ensures clients[i].fd == FREE <==> Last(puts, 0, old(clients)[i].fd) == Some(SendFailed)
      ensures clients[i].fd != FREE ==> clients[i].output == [] || Last(puts, 0, old(clients)[i].fd) == Some(SendAgain)
    {
      hide Inv, TableOk, NamesOk, TotalOutput, Depart, Remove, Linked, Taken, T.Tables.Valid;
      var ok;
      ok, sent, puts := WriteClient(i, interrupts);
      DepartShrinks(old(S()), i, sent);
      DepartFlows(old(S()), i, puts);
      if !ok {
        RemoveClient(i);
      }
    }

    /**
     Act on everything poll reported. A slot is emptied only by its own events, so each polled slot
     still holds the connection that was polled when its turn comes; afterwards it holds that
     connection or none, by its own events and the last replies on its own descriptor.
     */
    method HandleEvents(list: seq<PollEntry>, events: seq<Revents>, interrupts: nat) returns (chunks: nat, sent: nat)
      requires Valid() && PollListOf(clients, list) && |events| == |list|
      modifies this, tables, tables.Repr, wire`readLog, wire`sendLog, wire`memoryLog
      ensures Valid() && Private()
      ensures old(answered) == answered && |history| == |old(history)| && Survivors(old(clients), clients)
      ensures old(wire.readLog) <= wire.readLog && old(wire.sendLog) <= wire.sendLog
      ensures HandledUpTo(old(clients), clients, list, events, |list|,
                          wire.readLog, |old(wire.readLog)|, wire.sendLog, |old(wire.sendLog)|)
      ensures FlowedAll(old(history), history, list, clients,
                        wire.readLog[|old(wire.readLog)|..], wire.sendLog[|old(wire.sendLog)|..])
      ensures Successes(wire.readLog) == Successes(old(wire.readLog)) + chunks
      ensures Taken(wire.sendLog) == Taken(old(wire.sendLog)) + sent
      ensures chunks == 0 ==> |queue| <= |old(queue)| && TotalOutput(clients) + sent <= TotalOutput(old(clients))
    {
      hide Inv, TableOk, TotalOutput, Successes, Taken, Linked, HandledUpTo, PollListOf, Survivors, T.Tables.Valid;
      hide FlowedAll;
      InvTable(S());
      ghost var s := S();
      chunks, sent := 0, 0;
      SurvivorsAll(clients);
      HandledNone(s, list, events, wire.readLog, wire.sendLog);
      FlowedAllNone(s, list);
      assert wire.readLog[|wire.readLog|..] == [] && wire.sendLog[|wire.sendLog|..] == [];
      for p := 0 to |list|
        invariant Valid() && Private()
        invariant old(answered) == answered && |history| == |old(history)| && Survivors(s.clients, clients)
        invariant old(wire.readLog) <= wire.readLog && old(wire.sendLog) <= wire.sendLog
        invariant HandledUpTo(s.clients, clients, list, events, p,
                              wire.readLog, |old(wire.readLog)|, wire.sendLog, |old(wire.sendLog)|)
        invariant FlowedAll(s.history, history, list, clients,
                            wire.readLog[|old(wire.readLog)|..], wire.sendLog[|old(wire.sendLog)|..])
        invariant Successes(wire.readLog) == Successes(old(wire.readLog)) + chunks
        invariant Taken(wire.sendLog) == Taken(old(wire.sendLog)) + sent
        invariant chunks == 0 ==> |queue| <= |old(queue)| && TotalOutput(clients) + sent <= TotalOutput(old(clients))
      {
        var g, n := HandlePolled(list, events, p, interrupts, s, |old(wire.readLog)|, |old(wire.sendLog)|);
        chunks, sent := chunks + g, sent + n;
      }
    }

    /** The turn of entry `p`, when those before it have been handled since state `s`. */
    method HandlePolled(list: seq<PollEntry>, events: seq<Revents>, p: nat, interrupts: nat,
                        ghost s: State, ghost n: nat, ghost m: nat)
      returns (chunks: nat, sent: nat)
      requires Valid() && TableOk(s) && PollListOf(s.clients, list)
      requires p < |list| == |events| && Survivors(s.clients, clients)
      requires HandledUpTo(s.clients, clients, list, events, p, wire.readLog, n, wire.sendLog, m)
      requires n <= |wire.readLog| && m <= |wire.sendLog|
      requires FlowedAll(s.history, history, list, clients, wire.readLog[n..], wire.sendLog[m..])
      modifies this, tables, tables.Repr, wire`readLog, wire`sendLog, wire`memoryLog
      ensures Valid() && Private()
      ensures old(answered) == answered && |history| == |old(history)| && Survivors(s.clients, clients)
      ensures old(wire.readLog) <= wire.readLog && old(wire.sendLog) <= wire.sendLog
      ensures HandledUpTo(s.clients, clients, list, events, p + 1, wire.readLog, n, wire.sendLog, m)
      ensures FlowedAll(s.history, history, list, clients, wire.readLog[n..], wire.sendLog[m..])
      ensures Successes(wire.readLog) == Successes(old(wire.readLog)) + chunks
      ensures Taken(wire.sendLog) == Taken(old(wire.sendLog)) + sent
      ensures chunks == 0 ==> |queue| <= |old(queue)| && TotalOutput(clients) + sent <= TotalOutput(old(clients))
    {
      hide Inv, TableOk, TotalOutput, Successes, Taken, Linked, Handled, HandledUpTo, PollListOf, T.Tables.Valid;
      hide OnlySlot, Survivors, AllOn, Last, FlowedAll, Flowed, OnlyHistory;
      ghost var b, g, gotten, put := clients, history, wire.readLog, wire.sendLog;
      StillPolled(s, b, list, events, p, gotten, n, put, m);
      var i := list[p].slot;
      if clients[i].fd == FREE {
        assert false;
      }
      ghost var gets, puts;
      chunks, sent, gets, puts := HandleClient(i, events[p], interrupts);
      HandledOneMore(s, b, clients, list, events, p, gotten, gets, n, put, puts, m);
      FlowedMore(s, g, history, list, p, b, clients, gotten[n..], gets, put[m..], puts);
      SinceMore(gotten, gets, n);
      SinceMore(put, puts, m);
      SurvivorsMore(s.clients, b, clients, i);
      SuccessesConcat(gotten, gets);
      TakenConcat(put, puts);
    }

    method PollClients(listening: bool, list: seq<PollEntry>) returns (reply: PollAllReply)
      modifies wire`pollAllLog
      ensures wire.pollAllLog == old(wire.pollAllLog) + [PolledAll(listening, EventsOf(list), reply)]
      ensures ReportsAll(list, reply) && (reply.AllReady? ==> |reply.clients| == |list|)
      ensures reply.AllReady? && reply.listener.input ==> listening
    {
      reply := wire.PollAll(listening, EventsOf(list));
      assert reply.AllReady? ==> forall k :: 0 <= k < |list| ==> list[k].events == EventsOf(list)[k];
    }

    /**
     One turn of the main loop, and its record. Of the connections there were, exactly those are gone
     that lost a response to a failure of the outside, or were polled and dropped by their own events
     and replies. What there is to send never grows without input, and a turn that receives nothing,
     accepts nobody and sends at least one byte brings the server down the scale (queued requests,
     pending output).
     */
    method Turn(waiting: nat, interrupts: nat)
      returns (go: bool, chunks: nat, accepted: nat, sent: nat, ghost e: Episode)
      requires Valid()
      modifies this, tables, tables.Repr, wire
      ensures Valid() && Private() && old(answered) <= answered && |history| == |old(history)| + accepted
      ensures TurnOk(old(S()), S(), e) && Logged() == After(old(Logged()), e)
      ensures go <==> match e.reply
                      case AllReady(listener, _) => !listener.error && !listener.hangup && !listener.invalid
                      case AllInterrupted => true
                      case AllFailed => false
      ensures chunks == Successes(e.gets) && sent == Taken(e.puts)
      ensures chunks == 0 ==> Potential(clients, queue) + sent <= Potential(old(clients), old(queue))
      ensures chunks == 0 && accepted == 0 && sent > 0 ==>
                || |queue| < |old(queue)|
                || (|queue| == |old(queue)| && TotalOutput(clients) < TotalOutput(old(clients)))
    {
      hide Inv, TotalOutput, Potential, Successes, Taken, Linked, PollListOf, Replay, Attempts, TurnOk, ReportsAll;
      hide T.Tables.Valid;
      NoCalls();
      ghost var steps;
      var listening, list, reply;
      listening, list, reply, steps := ArmAndPoll();
      go := !Fatal(reply);
      if Fatal(reply) || reply.AllInterrupted? || reply.AllFailed? {
        chunks, accepted, sent := 0, 0, 0;
        e := Episode(steps, S(), list, listening, reply, [], [], []);
        IdleTurn(old(S()), e);
      } else {
        chunks, accepted, sent, e := HandleReply(listening, list, reply, waiting, interrupts, old(S()), steps);
      }
    }

    method ArmAndPoll() returns (listening: bool, list: seq<PollEntry>, reply: PollAllReply, ghost steps: seq<Step>)
      requires Valid()
      modifies this, tables, tables.Repr, wire`attemptLog, wire`pollAllLog
      ensures Valid() && Private() && PollListOf(clients, list) && ReportsAll(list, reply)
      ensures (listening <==> !Full(clients)) && (reply.AllReady? && reply.listener.input ==> listening)
      ensures reply.AllReady? ==> |reply.clients| == |list|
      ensures Replay(old(S()), steps) == Some(S()) && wire.attemptLog == old(wire.attemptLog) + Attempts(steps)
      ensures wire.pollAllLog == old(wire.pollAllLog) + [PolledAll(listening, EventsOf(list), reply)]
      ensures history == old(history) && old(answered) <= answered
      ensures S() == old(S()) || |queue| < |old(queue)|
      ensures Potential(clients, queue) <= Potential(old(clients), old(queue))
    {
      hide Inv, Potential, Linked, PollListOf, Replay, Attempts, ReportsAll, Full, T.Tables.Valid;
      listening, list, steps := ArmPoll();
      reply := PollClients(listening, list);
    }

    /** What follows poll: the clients' events first, then new connections. */
    method HandleReply(listening: bool, list: seq<PollEntry>, reply: PollAllReply, waiting: nat, interrupts: nat,
                       ghost s: State, ghost steps: seq<Step>)
      returns (chunks: nat, accepted: nat, sent: nat, ghost e: Episode)
      requires Valid() && PollListOf(clients, list) && Inv(s, FREE) && Replay(s, steps) == Some(S())
      requires reply.AllReady? && !Fatal(reply) && |reply.clients| == |list| && ReportsAll(list, reply)
      requires (listening <==> !Full(clients)) && (reply.listener.input ==> listening)
      modifies this, tables, tables.Repr, wire`readLog, wire`sendLog, wire`memoryLog, wire`acceptLog
      ensures Valid() && Private() && answered == old(answered) && |history| == |old(history)| + accepted
      ensures e.steps == steps && e.list == list && e.listening == listening && e.reply == reply && TurnOk(s, S(), e)
      ensures wire.readLog == old(wire.readLog) + e.gets && wire.sendLog == old(wire.sendLog) + e.puts
      ensures wire.acceptLog == old(wire.acceptLog) + e.accepts
      ensures chunks == Successes(e.gets) && sent == Taken(e.puts)
      ensures chunks == 0 ==> |queue| <= |old(queue)| && TotalOutput(clients) + sent <= TotalOutput(old(clients))
      ensures chunks == 0 ==> Potential(clients, queue) + sent <= Potential(old(clients), old(queue))
    {
      hide Inv, TotalOutput, Successes, Taken, Linked, PollListOf, Replay, TurnOk, ReportsAll, T.Tables.Valid;
      hide HandledUpTo, Survivors, Joined, Last, Full, Welcomed, Admitted, Fatal, FlowedAll;
      accepted := 0;
      chunks, sent := HandleEvents(list, reply.clients, interrupts);
      ghost var b, g := clients, history;
      ghost var gets := wire.readLog[|old(wire.readLog)|..];
      ghost var puts := wire.sendLog[|old(wire.sendLog)|..];
      assert wire.readLog == old(wire.readLog) + gets && wire.sendLog == old(wire.sendLog) + puts;
      SuccessesConcat(old(wire.readLog), gets);
      TakenConcat(old(wire.sendLog), puts);
      HandledShift(old(clients), b, list, reply.clients, old(wire.readLog), gets, old(wire.sendLog), puts);
      ReplayKeeps(s, steps);
      if listening {
        StillRoom(old(clients), b);
      }
      ghost var accepts := [];
      NobodyAdmitted(|history|, open);
      if reply.listener.input {
        accepted, accepts := AcceptClients(waiting, interrupts);
      }
      e := Episode(steps, old(S()), list, listening, reply, gets, puts, accepts);
      BusyTurn(s, e, b, g, S());
    }

    method CloseAllClients()
      requires Valid()
      modifies this, tables, tables.Repr
      ensures Valid() && Private() && forall i :: 0 <= i < |clients| ==> clients[i].fd == FREE
      ensures history == old(history) && answered == old(answered)
    {
      hide Inv, Linked, Remove, T.Tables.Valid;
      for i := 0 to |clients|
        invariant Valid() && Private() && history == old(history) && answered == old(answered)
        invariant forall j :: 0 <= j < i ==> clients[j].fd == FREE
      {
        RemoveClient(i);
      }
    }

    /**
     The whole life of the server: `turns` turns until the stop flag is seen, or fewer when poll
     fails; then shutdown. Afterwards nothing is queued and every accepted descriptor is closed;
     `Valid()` still says of every connection there ever was that it was sent a prefix of the
     answers to its own requests. Without input, all the turns together send no more than there was
     to send at the start, so at most that many of them send anything.
     */
    method Run(turns: nat, waiting: nat, interrupts: nat)
      returns (ok: bool, ran: nat, chunks: nat, accepted: nat, sent: nat, busy: nat,
               ghost states: seq<State>, ghost trace: seq<Episode>)
      requires Valid()
      modifies this, tables, tables.Repr, wire
      ensures Valid() && queue == [] && open == map[] && forall i :: 0 <= i < |clients| ==> clients[i].fd == FREE
      ensures Traced(states, trace) && AllInv(states) && |trace| == ran && states[0] == old(S())
      ensures Logged() == AfterAll(old(Logged()), trace)
      ensures answered == states[ran].answered && history == states[ran].history
      ensures old(answered) <= answered && |history| == |old(history)| + accepted
      ensures ran <= turns && (ok ==> ran == turns && forall k :: 0 <= k < ran ==> !Fatal(trace[k].reply))
      ensures !ok ==> ran > 0 && Fatal(trace[ran - 1].reply)
      ensures Successes(wire.readLog) == Successes(old(wire.readLog)) + chunks
      ensures Taken(wire.sendLog) == Taken(old(wire.sendLog)) + sent
      ensures chunks == 0 ==> busy <= sent <= Potential(old(clients), old(queue))
    {
      hide Inv, Linked, Successes, Taken, Potential, TotalOutput, Attempts, AfterAll, Traced, TurnOk, T.Tables.Valid;
      ok, ran, chunks, accepted, sent, busy := true, 0, 0, 0, 0, 0;
      states, trace := [S()], [];
      NoTrace(S(), Logged());
      while ran < turns && ok
        invariant Valid() && Private() && Traced(states, trace) && Logged() == AfterAll(old(Logged()), trace)
        invariant AllInv(states)
        invariant |trace| == ran && |states| == ran + 1 && states[0] == old(S()) && states[ran] == S()
        invariant old(answered) <= answered && |history| == |old(history)| + accepted
        invariant ran <= turns && (ok ==> forall k :: 0 <= k < ran ==> !Fatal(trace[k].reply))
        invariant !ok ==> ran > 0 && Fatal(trace[ran - 1].reply)
        invariant Successes(wire.readLog) == Successes(old(wire.readLog)) + chunks
        invariant Taken(wire.sendLog) == Taken(old(wire.sendLog)) + sent && busy <= sent
        invariant chunks == 0 ==> Potential(clients, queue) + sent <= Potential(old(clients), old(queue))
        decreases turns - ran
      {
        ghost var before := Logged();
        ghost var e;
        var c, a, n;
        ok, c, a, n, e := Turn(waiting, interrupts);
        TraceMore(states, trace, S(), e);
        AfterMore(old(Logged()), trace, e);
        SuccessesConcat(before.gets, e.gets);
        TakenConcat(before.puts, e.puts);
        states, trace := states + [S()], trace + [e];
        ran, chunks, accepted, sent := ran + 1, chunks + c, accepted + a, sent + n;
        if n > 0 {
          busy := busy + 1;
        }
      }
      CloseAllClients();
      NobodyLeft(S());
      ClearQueue();
    }

    method ClearQueue()
      requires Valid() && queue == []
      modifies tables, tables.Repr
      ensures Valid()
    {
      hide Inv, T.Tables.Valid;
      tables.Clear();
    }
  }
}
