/**
 The reference service both kinds of server refine: requests are answered one by one, in order,
 and each answer is what the command layer makes of that request.
 */
module Service {
  import opened Base
  import opened Protocol
  import opened Commands

  const INPUT_LIMIT: nat := UINT16_MAX
  const OUTPUT_LIMIT: nat := UINT16_MAX + RESPONSE_HEADER
  const READ_CHUNK: nat := 4096

  datatype RawExchange = Exchange(request: Request, world: World)

  /** A request together with the world it was executed in, which fixes the answer. */
  type Exchange = x: RawExchange | Answer(x.request, x.world).Some?
    witness Exchange(Request(Pwd, [1]),
                     World((true, true), true, [], 0, false, true, Messages([], [], [], [], []), true))

  function Reply(x: Exchange): Payload {
    Answer(x.request, x.world).value
  }

  function Asked(done: seq<Exchange>): (rs: seq<Request>)
    ensures |rs| == |done|
  {
    seq(|done|, i requires 0 <= i < |done| => done[i].request)
  }

  function Told(done: seq<Exchange>): (ps: seq<Payload>)
    ensures |ps| == |done|
  {
    seq(|done|, i requires 0 <= i < |done| => Reply(done[i]))
  }

  /** One more exchange adds exactly its frame at the end of either stream. */
  lemma OneMore(done: seq<Exchange>, x: Exchange)
    ensures RequestStream(Asked(done + [x])) == RequestStream(Asked(done)) + RequestFrame(x.request)
    ensures ResponseStream(Told(done + [x])) == ResponseStream(Told(done)) + ResponseFrame(Reply(x))
  {
    hide Answer, RequestStream, ResponseStream, RequestFrame, ResponseFrame;
    assert Asked(done + [x]) == Asked(done) + [x.request];
    assert Told(done + [x]) == Told(done) + [Reply(x)];
    RequestStreamConcat(Asked(done), [x.request]);
    RequestStreamOne(x.request);
    ResponseStreamConcat(Told(done), [Reply(x)]);
    ResponseStreamOne(Reply(x));
  }

  /** One connection's books: its history, its queued requests and its two pending buffers. */
  datatype Books = Books(received: seq<byte>, sent: seq<byte>, done: seq<Exchange>, waiting: seq<Request>,
                         input: seq<byte>, output: seq<byte>)

  /**
   What the books must show: the bytes received are the requests answered, then those waiting,
   then the pending input; the bytes sent and the pending output together are the answers.
   */
  ghost predicate Balanced(b: Books) {
    && b.received == RequestStream(Asked(b.done)) + RequestStream(b.waiting) + b.input
    && b.sent + b.output == ResponseStream(Told(b.done))
  }

  /**
   What any connection may be told: the answers, in order, to requests it sent, in order, and no
   others; the sending may stop anywhere.
   */
  ghost predicate Honest(received: seq<byte>, sent: seq<byte>, done: seq<Exchange>) {
    RequestStream(Asked(done)) <= received && sent <= ResponseStream(Told(done))
  }

  /** What a connection has when it is served to the end: every request answered, every answer sent. */
  ghost predicate ServedInFull(received: seq<byte>, sent: seq<byte>, done: seq<Exchange>) {
    Asked(done) == Drain(received).requests && sent == ResponseStream(Told(done))
  }

  lemma BalancedIsHonest(b: Books)
    requires Balanced(b)
    ensures Honest(b.received, b.sent, b.done)
  {
    hide RequestStream, ResponseStream, Asked, Told;
    assert b.received == RequestStream(Asked(b.done)) + (RequestStream(b.waiting) + b.input);
    assert b.sent <= b.sent + b.output;
  }

  /** An honest connection has answered a prefix of the requests that its stream parses into. */
  lemma HonestServesPrefix(received: seq<byte>, sent: seq<byte>, done: seq<Exchange>)
    requires Honest(received, sent, done)
    ensures Asked(done) <= Drain(received).requests
  {
    hide Asked, Told, Drain, RequestStream, ResponseStream;
    var n := |RequestStream(Asked(done))|;
    assert received == RequestStream(Asked(done)) + received[n..];
    DrainSkip(Asked(done), received[n..]);
  }

  /** A balanced connection has answered a prefix, in order, of the requests in its received stream. */
  lemma BalancedServesPrefix(b: Books)
    requires Balanced(b)
    ensures Drain(b.received).requests == Asked(b.done) + b.waiting + Drain(b.input).requests
    ensures Drain(b.received).rest == Drain(b.input).rest && Drain(b.received).bad == Drain(b.input).bad
  {
    hide Asked, Told, Drain, RequestStream, ResponseStream;
    RequestStreamConcat(Asked(b.done), b.waiting);
    DrainSkip(Asked(b.done) + b.waiting, b.input);
  }

  lemma OpeningBalance()
    ensures Balanced(Books([], [], [], [], [], []))
  {
    assert Asked([]) == [] && Told([]) == [];
  }

  lemma BytesArrive(b: Books, bytes: seq<byte>)
    requires Balanced(b)
    ensures Balanced(b.(received := b.received + bytes, input := b.input + bytes))
  {
    hide Asked, Told, RequestStream, ResponseStream;
    var before := RequestStream(Asked(b.done)) + RequestStream(b.waiting);
    assert before + b.input + bytes == before + (b.input + bytes);
  }

  lemma BytesDepart(b: Books, n: nat)
    requires Balanced(b) && n <= |b.output|
    ensures Balanced(b.(sent := b.sent + b.output[..n], output := b.output[n..]))
  {
    hide Asked, Told, RequestStream, ResponseStream;
    assert b.output == b.output[..n] + b.output[n..];
  }

  /** The first complete frame of the input becomes the last waiting request. */
  lemma FrameQueued(b: Books)
    requires Balanced(b) && ParseRequest(b.input).Complete?
    ensures var p := ParseRequest(b.input);
            && p.consumed <= |b.input|
            && Balanced(b.(waiting := b.waiting + [p.value], input := b.input[p.consumed..]))
  {
    hide Asked, Told, RequestStream, ResponseStream, RequestFrame, ParseRequest;
    var p := ParseRequest(b.input);
    CompleteConsumesFrame(b.input);
    RequestStreamConcat(b.waiting, [p.value]);
    RequestStreamOne(p.value);
    assert b.input == b.input[..p.consumed] + b.input[p.consumed..];
    Regroup(RequestStream(Asked(b.done)), RequestStream(b.waiting), RequestFrame(p.value), b.input[p.consumed..]);
  }

  /** With the output drained, the first waiting request becomes the last exchange. */
  lemma HeadAnswered(b: Books, x: Exchange)
    requires Balanced(b) && b.output == [] && b.waiting != [] && b.waiting[0] == x.request
    ensures Balanced(b.(done := b.done + [x], waiting := b.waiting[1..], output := ResponseFrame(Reply(x))))
  {
    hide Asked, Told, RequestStream, ResponseStream, RequestFrame, ResponseFrame, Answer;
    OneMore(b.done, x);
    RequestStreamCons(x.request, b.waiting[1..]);
    assert [x.request] + b.waiting[1..] == b.waiting;
    Regroup(RequestStream(Asked(b.done)), RequestFrame(x.request), RequestStream(b.waiting[1..]), b.input);
    assert b.sent + b.output == b.sent;
  }
}
