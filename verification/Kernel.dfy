/**
 The operating system as the servers see it. Each method returns an arbitrary reply among those the
 system call can give, so a proof about a caller holds for every behaviour of the kernel. Callers
 that retry interrupted calls pass `interrupts`, an arbitrary bound on how many signals are still
 to come, which is what their termination rests on.
 */
module Kernel {
  import opened Base
  import opened Commands

  datatype ReadReply = Data(bytes: seq<byte>) | EndOfFile | ReadAgain | ReadInterrupted | ReadFailed

  datatype SendReply = Sent(count: nat) | SendAgain | SendInterrupted | SendFailed

  /** One call on a descriptor, and the kernel's reply to it. */
  datatype Call<T> = Call(fd: int, reply: T)

  /**
   The outside's part in executing one request: the world of its command, and whether the allocator
   serves the header and the data of its response, should they need memory.
   */
  datatype Attempt = Attempt(world: World, memory: (bool, bool))

  datatype Events = Events(input: bool, output: bool)

  datatype Revents = Revents(input: bool, output: bool, error: bool, hangup: bool, invalid: bool)

  datatype PollReply = Ready(revents: Revents) | TimedOut | PollInterrupted | PollFailed

  /** One call of poll on one descriptor: what was asked for, and the reply. */
  datatype Polled = Polled(events: Events, reply: PollReply)

  datatype AcceptReply = Accepted(fd: int) | AcceptInterrupted | AcceptStopped

  /** One call of accept, and whether the descriptor it gave can be made nonblocking. */
  datatype Arrival = Arrival(reply: AcceptReply, nonblocking: bool)

  datatype PollAllReply = AllReady(listener: Revents, clients: seq<Revents>) | AllInterrupted | AllFailed

  /** One call of poll on the listener and the clients. */
  datatype PolledAll = PolledAll(listening: bool, events: seq<Events>, reply: PollAllReply)

  /** Only requested readiness is reported; error conditions always may be. */
  predicate Reports(events: Events, r: Revents) {
    (r.input ==> events.input) && (r.output ==> events.output)
  }

  // ---- Reading the logs ----

  /** All bytes a run of reads delivered. */
  ghost function Delivered(calls: seq<Call<ReadReply>>): seq<byte> {
    if calls == [] then []
    else
      var last := calls[|calls| - 1].reply;
      Delivered(calls[..|calls| - 1]) + if last.Data? then last.bytes else []
  }

  /** How many of a run of reads delivered bytes. */
  ghost function Successes(calls: seq<Call<ReadReply>>): nat {
    if calls == [] then 0
    else Successes(calls[..|calls| - 1]) + if calls[|calls| - 1].reply.Data? then 1 else 0
  }

  /** How many bytes a run of sends took. */
  ghost function Taken(calls: seq<Call<SendReply>>): nat {
    if calls == [] then 0
    else
      var last := calls[|calls| - 1].reply;
      Taken(calls[..|calls| - 1]) + if last.Sent? then last.count else 0
  }

  lemma NoCalls()
    ensures Delivered([]) == [] && Successes([]) == 0 && Taken([]) == 0
  {
  }

  lemma OneMoreRead(calls: seq<Call<ReadReply>>, c: Call<ReadReply>)
    ensures Delivered(calls + [c]) == Delivered(calls) + if c.reply.Data? then c.reply.bytes else []
    ensures Successes(calls + [c]) == Successes(calls) + if c.reply.Data? then 1 else 0
  {
    assert (calls + [c])[..|calls|] == calls;
  }

  lemma OneMoreSend(calls: seq<Call<SendReply>>, c: Call<SendReply>)
    ensures Taken(calls + [c]) == Taken(calls) + if c.reply.Sent? then c.reply.count else 0
  {
    assert (calls + [c])[..|calls|] == calls;
  }

  lemma {:induction false} SuccessesConcat(a: seq<Call<ReadReply>>, b: seq<Call<ReadReply>>)
    ensures Successes(a + b) == Successes(a) + Successes(b)
    decreases |b|
  {
    if b == [] {
      assert a + b == a;
    } else {
      var n := |b| - 1;
      assert a + b == (a + b[..n]) + [b[n]];
      OneMoreRead(a + b[..n], b[n]);
      SuccessesConcat(a, b[..n]);
    }
  }

  lemma {:induction false} DeliveredConcat(a: seq<Call<ReadReply>>, b: seq<Call<ReadReply>>)
    ensures Delivered(a + b) == Delivered(a) + Delivered(b)
    decreases |b|
  {
    if b == [] {
      assert a + b == a;
    } else {
      var n := |b| - 1;
      assert a + b == (a + b[..n]) + [b[n]];
      OneMoreRead(a + b[..n], b[n]);
      DeliveredConcat(a, b[..n]);
    }
  }

  lemma {:induction false} TakenConcat(a: seq<Call<SendReply>>, b: seq<Call<SendReply>>)
    ensures Taken(a + b) == Taken(a) + Taken(b)
    decreases |b|
  {
    if b == [] {
      assert a + b == a;
    } else {
      var n := |b| - 1;
      assert a + b == (a + b[..n]) + [b[n]];
      OneMoreSend(a + b[..n], b[n]);
      TakenConcat(a, b[..n]);
    }
  }

  /** All calls of a run were made on one descriptor. */
  ghost predicate AllOn<T>(calls: seq<Call<T>>, fd: int) {
    forall k :: 0 <= k < |calls| ==> calls[k].fd == fd
  }

  /** The last reply on a descriptor since the log was `n` calls long. */
  ghost function Last<T>(log: seq<Call<T>>, n: nat, fd: int): Option<T> {
    if |log| <= n then None
    else if log[|log| - 1].fd == fd then Some(log[|log| - 1].reply)
    else Last(log[..|log| - 1], n, fd)
  }

  /** Calls on one descriptor leave the last reply on any other as it was. */
  lemma {:induction false} LastElsewhere<T>(log: seq<Call<T>>, calls: seq<Call<T>>, n: nat, fd: int, other: int)
    requires n <= |log| && AllOn(calls, fd) && other != fd
    ensures Last(log + calls, n, other) == Last(log, n, other)
    decreases |calls|
  {
    if calls == [] {
      assert log + calls == log;
    } else {
      var k := |calls| - 1;
      assert (log + calls)[..|log + calls| - 1] == log + calls[..k];
      LastElsewhere(log, calls[..k], n, fd, other);
    }
  }

  /** The last reply of a run on one descriptor, seen from any earlier point of the log. */
  lemma LastHere<T>(log: seq<Call<T>>, calls: seq<Call<T>>, n: nat, fd: int)
    requires n <= |log| && AllOn(calls, fd)
    ensures Last(log + calls, n, fd) == if calls == [] then Last(log, n, fd) else Some(calls[|calls| - 1].reply)
  {
    if calls == [] {
      assert log + calls == log;
    }
  }

  /** A last reply found from a later point is found from an earlier one, and if none is, it is the earlier log's. */
  lemma {:induction false} LastGoesOn<T>(log: seq<Call<T>>, n: nat, m: nat, fd: int)
    requires n <= m <= |log|
    ensures Last(log, n, fd) == if Last(log, m, fd).Some? then Last(log, m, fd) else Last(log[..m], n, fd)
    decreases |log|
  {
    if |log| == m {
      assert log[..m] == log;
    } else if log[|log| - 1].fd != fd {
      var k := |log| - 1;
      assert log[..k][..m] == log[..m];
      LastGoesOn(log[..k], n, m, fd);
    }
  }

  /** The last of a log of outcomes since it was `n` long. */
  ghost function Latest<T>(log: seq<T>, n: nat): Option<T> {
    if |log| > n then Some(log[|log| - 1]) else None
  }

  /** Calls made since a log was `log` give the same last replies on their own. */
  lemma {:induction false} LastShift<T>(log: seq<Call<T>>, calls: seq<Call<T>>, fd: int)
    ensures Last(log + calls, |log|, fd) == Last(calls, 0, fd)
    decreases |calls|
  {
    if calls != [] {
      var k := |calls| - 1;
      assert (log + calls)[..|log + calls| - 1] == log + calls[..k];
      LastShift(log, calls[..k], fd);
    }
  }

  /** The system calls, the allocator and the execution of commands, with a log of every outcome there ever was. */
  class Wire {
    ghost var readLog: seq<Call<ReadReply>>
    ghost var sendLog: seq<Call<SendReply>>
    ghost var memoryLog: seq<bool>
    ghost var attemptLog: seq<Attempt>
    ghost var acceptLog: seq<Arrival>
    ghost var pollLog: seq<Polled>
    ghost var pollAllLog: seq<PolledAll>

    constructor ()
      ensures readLog == [] && sendLog == [] && memoryLog == [] && attemptLog == []
      ensures acceptLog == [] && pollLog == [] && pollAllLog == []
    {
      readLog := [];
      sendLog := [];
      memoryLog := [];
      attemptLog := [];
      acceptLog := [];
      pollLog := [];
      pollAllLog := [];
    }

    method Read(fd: int, size: nat, interrupts: nat) returns (r: ReadReply)
      requires size > 0
      modifies this`readLog
      ensures r.Data? ==> 1 <= |r.bytes| <= size
      ensures r.ReadInterrupted? ==> interrupts > 0
      ensures readLog == old(readLog) + [Call(fd, r)]
    {
      r := *;
      if (r.Data? && !(1 <= |r.bytes| <= size)) || (r.ReadInterrupted? && interrupts == 0) {
        r := ReadAgain;
      }
      readLog := readLog + [Call(fd, r)];
    }

    /** A read from a peer that will send exactly `remaining` before it closes. */
    method ReadFrom(fd: int, remaining: seq<byte>, size: nat, interrupts: nat) returns (r: ReadReply)
      requires size > 0
      modifies this`readLog
      ensures r.Data? ==> 1 <= |r.bytes| <= size && r.bytes <= remaining
      ensures r.EndOfFile? ==> remaining == []
      ensures r.ReadInterrupted? ==> interrupts > 0
      ensures readLog == old(readLog) + [Call(fd, r)]
    {
      r := *;
      if (r.Data? && !(1 <= |r.bytes| <= size && r.bytes <= remaining)) || (r.EndOfFile? && remaining != [])
         || (r.ReadInterrupted? && interrupts == 0) {
        r := ReadFailed;
      }
      readLog := readLog + [Call(fd, r)];
    }

    method Send(fd: int, length: nat, interrupts: nat) returns (r: SendReply)
      modifies this`sendLog
      ensures r.Sent? ==> 1 <= r.count <= length
      ensures r.SendInterrupted? ==> interrupts > 0
      ensures sendLog == old(sendLog) + [Call(fd, r)]
    {
      r := *;
      if (r.Sent? && !(1 <= r.count <= length)) || (r.SendInterrupted? && interrupts == 0) {
        r := SendAgain;
      }
      sendLog := sendLog + [Call(fd, r)];
    }

    /** A descriptor that is not open now, whatever it may have named before. */
    method Accept(open: map<int, nat>, waiting: nat, interrupts: nat) returns (a: Arrival)
      modifies this`acceptLog
      ensures a.reply.Accepted? ==> a.reply.fd >= 0 && a.reply.fd !in open && waiting > 0
      ensures a.reply.AcceptInterrupted? ==> interrupts > 0
      ensures acceptLog == old(acceptLog) + [a]
    {
      a := *;
      var r := a.reply;
      if (r.Accepted? && (r.fd < 0 || r.fd in open || waiting == 0)) || (r.AcceptInterrupted? && interrupts == 0) {
        a := a.(reply := AcceptStopped);
      }
      acceptLog := acceptLog + [a];
    }

    method Poll(events: Events) returns (r: PollReply)
      modifies this`pollLog
      ensures r.Ready? ==> Reports(events, r.revents)
      ensures pollLog == old(pollLog) + [Polled(events, r)]
    {
      r := *;
      if r.Ready? && !Reports(events, r.revents) {
        r := TimedOut;
      }
      pollLog := pollLog + [Polled(events, r)];
    }

    method PollAll(listening: bool, events: seq<Events>) returns (r: PollAllReply)
      modifies this`pollAllLog
      ensures r.AllReady? ==> (r.listener.input ==> listening) && |r.clients| == |events|
      ensures r.AllReady? ==> forall k :: 0 <= k < |events| ==> Reports(events[k], r.clients[k])
      ensures pollAllLog == old(pollAllLog) + [PolledAll(listening, events, r)]
    {
      r := *;
      if r.AllReady? {
        if (r.listener.input && !listening) || |r.clients| != |events|
           || !(forall k :: 0 <= k < |events| ==> Reports(events[k], r.clients[k])) {
          r := AllInterrupted;
        }
      }
      pollAllLog := pollAllLog + [PolledAll(listening, events, r)];
    }

    method Outside() returns (a: Attempt)
      modifies this`attemptLog
      ensures attemptLog == old(attemptLog) + [a]
    {
      a := *;
      attemptLog := attemptLog + [a];
    }

    /** Whether the allocator serves a call, should the call need memory. */
    method Allocate() returns (ok: bool)
      modifies this`memoryLog
      ensures memoryLog == old(memoryLog) + [ok]
    {
      ok := *;
      memoryLog := memoryLog + [ok];
    }
  }
}
