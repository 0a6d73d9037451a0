/**
 The wire protocol of src/protocol.c as functions of bytes: frames, the two
 incremental parsers, and what repeated parsing does to a whole stream.
 */
module Protocol {
  import opened Base

  const REQUEST_HEADER: nat := 6
  const RESPONSE_HEADER: nat := 2
  const MAX_ARGUMENT: nat := UINT16_MAX - REQUEST_HEADER

  datatype Kind = Ls | Pwd | Cat

  datatype RawRequest = Request(kind: Kind, argument: seq<byte>)

  /** A request whose whole frame fits the 16-bit length field. */
  type Request = r: RawRequest | |r.argument| <= MAX_ARGUMENT witness Request(Pwd, [])

  /** Response data that fits the 16-bit length field. */
  type Payload = p: seq<byte> | |p| <= UINT16_MAX witness []

  datatype Parse<+T> = Complete(value: T, consumed: nat) | NeedMore | Invalid

  // ---- 16-bit network byte order ----

  function EncodeU16(value: u16): (b: seq<byte>)
    ensures |b| == 2
  {
    [(value / 0x100) as byte, (value % 0x100) as byte]
  }

  function DecodeU16(data: seq<byte>, offset: nat): u16
    requires offset + 2 <= |data|
  {
    data[offset] as u16 * 0x100 + data[offset + 1] as u16
  }

  lemma DecodeEncodeU16(value: u16, data: seq<byte>, offset: nat)
    requires offset + 2 <= |data| && data[offset..offset + 2] == EncodeU16(value)
    ensures DecodeU16(data, offset) == value
  {
    assert data[offset] == EncodeU16(value)[0] && data[offset + 1] == EncodeU16(value)[1];
  }

  lemma EncodeDecodeU16(data: seq<byte>, offset: nat)
    requires offset + 2 <= |data|
    ensures EncodeU16(DecodeU16(data, offset)) == data[offset..offset + 2]
  {
    var hi, lo := data[offset] as int, data[offset + 1] as int;
    assert (hi * 0x100 + lo) / 0x100 == hi && (hi * 0x100 + lo) % 0x100 == lo;
  }

  // ---- Frames ----

  function KindCode(kind: Kind): u16 {
    match kind case Ls => 1 case Pwd => 2 case Cat => 3
  }

  function KindOf(code: u16): Option<Kind> {
    if code == 1 then Some(Ls) else if code == 2 then Some(Pwd) else if code == 3 then Some(Cat) else None
  }

  function RequestHeader(kind: Kind, argumentLength: nat): (h: seq<byte>)
    requires argumentLength <= MAX_ARGUMENT
    ensures |h| == REQUEST_HEADER
  {
    EncodeU16((REQUEST_HEADER + argumentLength) as u16) + EncodeU16(KindCode(kind))
    + EncodeU16(argumentLength as u16)
  }

  /** The bytes that carry one request: total length, type, argument length, argument. */
  function RequestFrame(r: Request): (f: seq<byte>)
    ensures |f| == REQUEST_HEADER + |r.argument|
  {
    RequestHeader(r.kind, |r.argument|) + r.argument
  }

  /** The bytes that carry one response: data length, data. */
  function ResponseFrame(p: Payload): (f: seq<byte>)
    ensures |f| == RESPONSE_HEADER + |p|
  {
    EncodeU16(|p| as u16) + p
  }

  // ---- Parsers ----

  function ParseRequest(data: seq<byte>): Parse<Request> {
    if |data| < REQUEST_HEADER then NeedMore
    else
      var length := DecodeU16(data, 0) as nat;
      var kind := KindOf(DecodeU16(data, 2));
      var argumentLength := DecodeU16(data, 4) as nat;
      if kind.None? then Invalid
      else if length < REQUEST_HEADER then Invalid
      else if length != REQUEST_HEADER + argumentLength then Invalid
      else if |data| < length then NeedMore
      else Complete(Request(kind.value, data[REQUEST_HEADER..length]), length)
  }

  function ParseResponse(data: seq<byte>): Parse<Payload> {
    if |data| < RESPONSE_HEADER then NeedMore
    else
      var length := RESPONSE_HEADER + DecodeU16(data, 0) as nat;
      if |data| < length then NeedMore
      else Complete(data[RESPONSE_HEADER..length], length)
  }

  // ---- The request parser against the set of frames ----

  lemma HeaderFields(kind: Kind, argumentLength: nat, data: seq<byte>)
    requires argumentLength <= MAX_ARGUMENT
    requires |data| >= REQUEST_HEADER && data[..REQUEST_HEADER] == RequestHeader(kind, argumentLength)
    ensures DecodeU16(data, 0) as nat == REQUEST_HEADER + argumentLength
    ensures KindOf(DecodeU16(data, 2)) == Some(kind)
    ensures DecodeU16(data, 4) as nat == argumentLength
  {
    var h := data[..REQUEST_HEADER];
    assert data[0..2] == h[0..2] == EncodeU16((REQUEST_HEADER + argumentLength) as u16);
    assert data[2..4] == h[2..4] == EncodeU16(KindCode(kind));
    assert data[4..6] == h[4..6] == EncodeU16(argumentLength as u16);
    DecodeEncodeU16((REQUEST_HEADER + argumentLength) as u16, data, 0);
    DecodeEncodeU16(KindCode(kind), data, 2);
    DecodeEncodeU16(argumentLength as u16, data, 4);
  }

  /**
   A request frame byte by byte: its whole length, the request type and the argument length, each
   with the high byte first, then the argument.
   */
  lemma FrameBytes(r: Request)
    ensures var f := RequestFrame(r);
            && |f| == 6 + |r.argument| <= 65535
            && f[0] as int * 256 + f[1] as int == |f|
            && f[2] == 0 && f[3] == (match r.kind case Ls => 1 case Pwd => 2 case Cat => 3)
            && f[4] as int * 256 + f[5] as int == |r.argument|
            && f[6..] == r.argument
  {
    var f := RequestFrame(r);
    assert f[0..2] == EncodeU16((REQUEST_HEADER + |r.argument|) as u16);
    assert f[4..6] == EncodeU16(|r.argument| as u16);
    assert f[2..4] == EncodeU16(KindCode(r.kind));
    assert f[0] == f[0..2][0] && f[1] == f[0..2][1] && f[2] == f[2..4][0] && f[3] == f[2..4][1];
    assert f[4] == f[4..6][0] && f[5] == f[4..6][1];
  }

  /** A response frame byte by byte: the length of the data, high byte first, then the data. */
  lemma ResponseFrameBytes(p: Payload)
    ensures var f := ResponseFrame(p);
            |f| == 2 + |p| && f[0] as int * 256 + f[1] as int == |p| <= 65535 && f[2..] == p
  {
    var f := ResponseFrame(p);
    assert f[0..2] == EncodeU16(|p| as u16);
    assert f[0] == f[0..2][0] && f[1] == f[0..2][1];
  }

  /** What the parser makes of six bytes or more, read off the bytes. */
  lemma ParseBytes(data: seq<byte>)
    requires |data| >= 6
    ensures var length := data[0] as int * 256 + data[1] as int;
            var known := data[2] == 0 && 1 <= data[3] <= 3;
            var consistent := length == 6 + data[4] as int * 256 + data[5] as int;
            match ParseRequest(data)
            case Invalid => !known || !consistent
            case NeedMore => known && consistent && |data| < length
            case Complete(r, n) =>
              && known && consistent && n == length <= |data| && r.argument == data[6..n]
              && r.kind == (if data[3] == 1 then Ls else if data[3] == 2 then Pwd else Cat)
  {
  }

  /** Parsing an encoded request, whatever follows it, gives that request and its size back. */
  lemma ParseFrame(r: Request, suffix: seq<byte>)
    ensures ParseRequest(RequestFrame(r) + suffix) == Complete(r, |RequestFrame(r)|)
  {
    var data := RequestFrame(r) + suffix;
    assert data[..REQUEST_HEADER] == RequestHeader(r.kind, |r.argument|);
    HeaderFields(r.kind, |r.argument|, data);
    assert data[REQUEST_HEADER..REQUEST_HEADER + |r.argument|] == r.argument;
  }

  /** A COMPLETE verdict consumes exactly the bytes the encoder writes for the parsed request. */
  lemma CompleteConsumesFrame(data: seq<byte>)
    requires ParseRequest(data).Complete?
    ensures REQUEST_HEADER <= ParseRequest(data).consumed <= |data|
    ensures data[..ParseRequest(data).consumed] == RequestFrame(ParseRequest(data).value)
  {
    EncodeDecodeU16(data, 0);
    EncodeDecodeU16(data, 2);
    EncodeDecodeU16(data, 4);
    var n := ParseRequest(data).consumed;
    assert data[..n] == data[0..2] + data[2..4] + data[4..6] + data[6..n];
  }

  /** COMPLETE and INVALID verdicts survive any bytes appended later. */
  lemma VerdictStable(data: seq<byte>, more: seq<byte>)
    requires !ParseRequest(data).NeedMore?
    ensures ParseRequest(data + more) == ParseRequest(data)
  {
    var n := DecodeU16(data, 0) as nat;
    assert forall k | 0 <= k < |data| :: (data + more)[k] == data[k];
    if ParseRequest(data).Complete? {
      assert (data + more)[REQUEST_HEADER..n] == data[REQUEST_HEADER..n];
    }
  }

  /** Pending input that is not yet a frame is shorter than the input limit. */
  lemma IncompleteIsShort(data: seq<byte>)
    requires ParseRequest(data).NeedMore?
    ensures |data| < UINT16_MAX
  {
  }

  ghost predicate StrictPrefixOfFrame(data: seq<byte>) {
    exists r: Request :: data < RequestFrame(r)
  }

  ghost predicate StartsWithFrame(data: seq<byte>) {
    exists r: Request :: RequestFrame(r) <= data
  }

  /** Data whose header is complete and consistent, but whose argument is cut short, extends to a frame. */
  lemma CutShortExtends(data: seq<byte>)
    requires |data| >= REQUEST_HEADER && ParseRequest(data).NeedMore?
    ensures StrictPrefixOfFrame(data)
  {
    var n := DecodeU16(data, 0) as nat;
    var kind := KindOf(DecodeU16(data, 2)).value;
    var padding := seq(n - |data|, _ => 0 as byte);
    var r: Request := Request(kind, data[REQUEST_HEADER..] + padding);
    EncodeDecodeU16(data, 0);
    EncodeDecodeU16(data, 2);
    EncodeDecodeU16(data, 4);
    assert data == data[0..2] + data[2..4] + data[4..6] + data[6..];
    assert data + padding == RequestFrame(r);
    assert data < RequestFrame(r);
  }

  /** A strict prefix of a valid frame never completes and is never rejected. */
  lemma StrictPrefixNeedsMore(r: Request, data: seq<byte>)
    requires data < RequestFrame(r)
    ensures ParseRequest(data).NeedMore?
  {
    if !ParseRequest(data).NeedMore? {
      var frame := RequestFrame(r);
      assert data + frame[|data|..] == frame;
      VerdictStable(data, frame[|data|..]);
      assert frame + [] == frame;
      ParseFrame(r, []);
      if ParseRequest(data).Complete? {
        CompleteConsumesFrame(data);
      }
      assert false;
    }
  }

  /**
   The parser's three verdicts, characterised by the set of frames alone: COMPLETE when a
   frame is a prefix of the data, NEED_MORE when the header is not all there or the data is
   a strict prefix of some frame, INVALID exactly otherwise.
   */
  lemma VerdictCharacterised(data: seq<byte>)
    ensures ParseRequest(data).Complete? <==> StartsWithFrame(data)
    ensures ParseRequest(data).NeedMore? <==> |data| < REQUEST_HEADER || StrictPrefixOfFrame(data)
    ensures ParseRequest(data).Invalid? <==>
              |data| >= REQUEST_HEADER && !StartsWithFrame(data) && !StrictPrefixOfFrame(data)
  {
    if StartsWithFrame(data) {
      var r: Request :| RequestFrame(r) <= data;
      assert data == RequestFrame(r) + data[|RequestFrame(r)|..];
      ParseFrame(r, data[|RequestFrame(r)|..]);
    }
    if ParseRequest(data).Complete? {
      CompleteConsumesFrame(data);
      assert RequestFrame(ParseRequest(data).value) <= data;
    }
    if StrictPrefixOfFrame(data) {
      var r: Request :| data < RequestFrame(r);
      StrictPrefixNeedsMore(r, data);
    }
    if |data| >= REQUEST_HEADER && ParseRequest(data).NeedMore? {
      CutShortExtends(data);
    }
  }

  // ---- The response parser ----

  lemma ParseResponseFrame(p: Payload, suffix: seq<byte>)
    ensures ParseResponse(ResponseFrame(p) + suffix) == Complete(p, |ResponseFrame(p)|)
  {
    var data := ResponseFrame(p) + suffix;
    assert data[0..2] == EncodeU16(|p| as u16);
    DecodeEncodeU16(|p| as u16, data, 0);
    assert data[RESPONSE_HEADER..RESPONSE_HEADER + |p|] == p;
  }

  lemma CompleteConsumesResponseFrame(data: seq<byte>)
    requires ParseResponse(data).Complete?
    ensures ParseResponse(data).consumed <= |data|
    ensures data[..ParseResponse(data).consumed] == ResponseFrame(ParseResponse(data).value)
  {
    EncodeDecodeU16(data, 0);
    var n := ParseResponse(data).consumed;
    assert data[..n] == data[0..2] + data[2..n];
  }

  lemma ResponsePrefixNeedsMore(p: Payload, data: seq<byte>)
    requires data < ResponseFrame(p)
    ensures ParseResponse(data).NeedMore?
  {
    if |data| >= RESPONSE_HEADER {
      assert data[..2] == ResponseFrame(p)[..2];
      DecodeEncodeU16(|p| as u16, data, 0);
    }
  }

  /** Response parsing never rejects; incomplete data is always shorter than the largest frame. */
  lemma ResponseIncompleteIsShort(data: seq<byte>)
    requires !ParseResponse(data).Complete?
    ensures ParseResponse(data).NeedMore? && |data| < RESPONSE_HEADER + UINT16_MAX
  {
  }

  // ---- Whole streams ----

  function RequestStream(rs: seq<Request>): seq<byte> {
    if rs == [] then [] else RequestFrame(rs[0]) + RequestStream(rs[1..])
  }

  function ResponseStream(ps: seq<Payload>): seq<byte> {
    if ps == [] then [] else ResponseFrame(ps[0]) + ResponseStream(ps[1..])
  }

  lemma RequestStreamConcat(a: seq<Request>, b: seq<Request>)
    ensures RequestStream(a + b) == RequestStream(a) + RequestStream(b)
  {
    if a == [] {
      assert a + b == b;
    } else {
      assert (a + b)[1..] == a[1..] + b;
      RequestStreamConcat(a[1..], b);
    }
  }

  lemma RequestStreamCons(r: Request, rs: seq<Request>)
    ensures RequestStream([r] + rs) == RequestFrame(r) + RequestStream(rs)
  {
    assert ([r] + rs)[1..] == rs;
  }

  lemma RequestStreamOne(r: Request)
    ensures RequestStream([r]) == RequestFrame(r)
  {
    assert [r][1..] == [];
    assert RequestFrame(r) + [] == RequestFrame(r);
  }

  lemma ResponseStreamConcat(a: seq<Payload>, b: seq<Payload>)
    ensures ResponseStream(a + b) == ResponseStream(a) + ResponseStream(b)
  {
    if a == [] {
      assert a + b == b;
    } else {
      assert (a + b)[1..] == a[1..] + b;
      ResponseStreamConcat(a[1..], b);
    }
  }

  lemma ResponseStreamOne(p: Payload)
    ensures ResponseStream([p]) == ResponseFrame(p)
  {
    assert [p][1..] == [];
    assert ResponseFrame(p) + [] == ResponseFrame(p);
  }

  /** What parsing until nothing more completes extracts from a stream. */
  datatype Drained = Drained(requests: seq<Request>, rest: seq<byte>, bad: bool)

  function Drain(data: seq<byte>): Drained
    decreases |data|
  {
    match ParseRequest(data)
    case NeedMore => Drained([], data, false)
    case Invalid => Drained([], data, true)
    case Complete(r, n) =>
      var d := Drain(data[n..]);
      Drained([r] + d.requests, d.rest, d.bad)
  }

  lemma DrainIncomplete(data: seq<byte>)
    requires !ParseRequest(data).Complete?
    ensures Drain(data) == Drained([], data, ParseRequest(data).Invalid?)
  {
  }

  /** Draining loses and invents nothing: the stream is the extracted frames and then the rest. */
  lemma {:induction false} DrainAccounts(data: seq<byte>)
    ensures data == RequestStream(Drain(data).requests) + Drain(data).rest
    ensures ParseRequest(Drain(data).rest) == (if Drain(data).bad then Invalid else NeedMore)
    decreases |data|
  {
    hide RequestFrame;
    hide ParseRequest;
    if ParseRequest(data).Complete? {
      var Complete(r, n) := ParseRequest(data);
      CompleteConsumesFrame(data);
      var tail := data[n..];
      var d := Drain(tail);
      assert Drain(data) == Drained([r] + d.requests, d.rest, d.bad);
      hide Drain;
      DrainAccounts(tail);
      RequestStreamCons(r, d.requests);
      hide RequestStream;
      assert data == RequestFrame(r) + tail;
    }
  }

  /** The converse: any split into frames and an unparseable rest is the one draining finds. */
  lemma {:induction false} DrainUnique(rs: seq<Request>, rest: seq<byte>)
    requires !ParseRequest(rest).Complete?
    ensures Drain(RequestStream(rs) + rest) == Drained(rs, rest, ParseRequest(rest).Invalid?)
  {
    if rs == [] {
      assert RequestStream(rs) + rest == rest;
    } else {
      var tail := RequestStream(rs[1..]) + rest;
      assert RequestStream(rs) + rest == RequestFrame(rs[0]) + tail;
      ParseFrame(rs[0], tail);
      assert (RequestFrame(rs[0]) + tail)[|RequestFrame(rs[0])|..] == tail;
      DrainUnique(rs[1..], rest);
      assert [rs[0]] + rs[1..] == rs;
    }
  }

  /** Frames already extracted are a prefix of what the longer stream yields. */
  lemma {:induction false} DrainSkip(rs: seq<Request>, tail: seq<byte>)
    ensures var d := Drain(tail);
            Drain(RequestStream(rs) + tail) == Drained(rs + d.requests, d.rest, d.bad)
  {
    hide *;
    var d := Drain(tail);
    DrainAccounts(tail);
    RequestStreamConcat(rs, d.requests);
    assert RequestStream(rs) + tail == RequestStream(rs + d.requests) + d.rest;
    DrainUnique(rs + d.requests, d.rest);
  }

  /** Draining a stream in two parts gives what draining it at once gives. */
  lemma DrainInParts(a: seq<byte>, b: seq<byte>)
    ensures var d := Drain(a);
            if d.bad then Drain(a + b) == Drained(d.requests, d.rest + b, true)
            else var e := Drain(d.rest + b);
                 Drain(a + b) == Drained(d.requests + e.requests, e.rest, e.bad)
  {
    hide *;
    var d := Drain(a);
    DrainAccounts(a);
    assert a + b == RequestStream(d.requests) + (d.rest + b);
    if d.bad {
      VerdictStable(d.rest, b);
      DrainUnique(d.requests, d.rest + b);
    } else {
      DrainSkip(d.requests, d.rest + b);
    }
  }

  /**
   The reception of a stream in the pieces that successive reads deliver: append, extract every
   complete request, and stop for good at the first invalid frame.
   */
  function Receive(pending: seq<byte>, chunks: seq<seq<byte>>): Drained
    decreases |chunks|
  {
    if chunks == [] then Drained([], pending, false)
    else
      var d := Drain(pending + chunks[0]);
      if d.bad then d
      else
        var e := Receive(d.rest, chunks[1..]);
        Drained(d.requests + e.requests, e.rest, e.bad)
  }

  /** Piecewise reception equals draining the whole stream (up to what a rejected client sends later). */
  lemma {:induction false} ReceiveIsDrain(pending: seq<byte>, chunks: seq<seq<byte>>)
    requires ParseRequest(pending).NeedMore?
    ensures var d := Receive(pending, chunks);
            var whole := Drain(pending + Flatten(chunks));
            && d.requests == whole.requests
            && d.bad == whole.bad
            && (!d.bad ==> d.rest == whole.rest)
    decreases |chunks|
  {
    if chunks == [] {
      assert pending + Flatten(chunks) == pending;
    } else {
      var d := Drain(pending + chunks[0]);
      assert pending + Flatten(chunks) == (pending + chunks[0]) + Flatten(chunks[1..]);
      DrainInParts(pending + chunks[0], Flatten(chunks[1..]));
      if !d.bad {
        DrainAccounts(pending + chunks[0]);
        ReceiveIsDrain(d.rest, chunks[1..]);
      }
    }
  }

  /**
   Fragmentation independence: two ways of cutting the same stream into reads extract the same
   requests, reach the same verdict and, when the client is kept, leave the same pending input.
   */
  lemma FragmentationIndependent(one: seq<seq<byte>>, other: seq<seq<byte>>)
    requires Flatten(one) == Flatten(other)
    ensures var d, e := Receive([], one), Receive([], other);
            d.requests == e.requests && d.bad == e.bad && (!d.bad ==> d.rest == e.rest)
  {
    ReceiveIsDrain([], one);
    ReceiveIsDrain([], other);
  }

  /** Response streams are uniquely decodable. */
  lemma {:induction false} ResponseStreamInjective(a: seq<Payload>, b: seq<Payload>)
    requires ResponseStream(a) == ResponseStream(b)
    ensures a == b
  {
    if a == [] || b == [] {
      assert a == b == [];
    } else {
      ParseResponseFrame(a[0], ResponseStream(a[1..]));
      ParseResponseFrame(b[0], ResponseStream(b[1..]));
      var s := ResponseStream(a);
      assert s[|ResponseFrame(a[0])|..] == ResponseStream(a[1..]);
      assert s[|ResponseFrame(b[0])|..] == ResponseStream(b[1..]);
      ResponseStreamInjective(a[1..], b[1..]);
      assert a == [a[0]] + a[1..] && b == [b[0]] + b[1..];
    }
  }
}
