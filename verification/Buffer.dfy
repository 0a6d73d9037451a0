/**
 The growable bounded byte buffer of src/buffer.c. `Contents()` is the byte sequence a caller
 sees; every method is specified by what it does to that sequence. Lengths and capacities are
 64-bit `size_t` values, so each arithmetic step is also proved free of wrap-around.
 */
module Buffer {
  import opened Base

  const INITIAL_CAPACITY: size_t := 64

  /** Appending to a bounded sequence: nothing is kept of an append that does not fit. */
  function Appended(contents: seq<byte>, maxSize: nat, bytes: seq<byte>, memory: bool): Option<seq<byte>> {
    if |contents| + |bytes| > maxSize then None
    else if bytes == [] then Some(contents)
    else if memory then Some(contents + bytes)
    else None
  }

  /** The doubling of the growth loop, up to the first capacity that suffices. */
  function Doubled(capacity: nat, required: nat, maxSize: nat): (c: nat)
    requires 0 < capacity <= maxSize && required <= maxSize
    ensures required <= c <= maxSize && capacity <= c
    ensures c == capacity || 2 * capacity <= c || c == maxSize
    decreases maxSize - capacity
  {
    if required <= capacity then capacity
    else Doubled(if capacity > maxSize / 2 then maxSize else 2 * capacity, required, maxSize)
  }

  /** The capacity a buffer has once it can hold `required` bytes: at least doubled, or at the limit. */
  function Enlarged(capacity: nat, required: nat, maxSize: nat): (c: nat)
    requires capacity <= maxSize && required <= maxSize
    ensures required <= c <= maxSize && capacity <= c
    ensures c == capacity || 2 * capacity <= c || c == maxSize
  {
    if required <= capacity then capacity
    else Doubled(if capacity == 0 then Min(INITIAL_CAPACITY as nat, maxSize) else capacity, required, maxSize)
  }

  /** The first growth asks for 64 bytes, or for the limit when that is smaller. */
  lemma FirstGrowth(required: nat, maxSize: nat)
    requires 0 < required <= 64 && required <= maxSize
    ensures Enlarged(0, required, maxSize) == if maxSize < 64 then maxSize else 64
  {
  }

  /** memcpy: the bytes take their place, and what is before them stays. */
  method Copy(data: array<byte>, start: nat, bytes: seq<byte>)
    requires start + |bytes| <= data.Length
    modifies data
    ensures data[..start + |bytes|] == old(data[..start]) + bytes
  {
    forall k | 0 <= k < |bytes| {
      data[start + k] := bytes[k];
    }
    assert forall k :: 0 <= k < start ==> data[k] == old(data[k]);
    assert data[..start] == old(data[..start]);
    assert data[start..start + |bytes|] == bytes;
  }

  class Buffer {
    var data: array<byte>
    var length: size_t
    var capacity: size_t
    const maxSize: size_t

    /** Total size of every allocation given up by a growth so far. */
    ghost var replaced: nat

    ghost predicate Valid()
      reads this
    {
      && length <= capacity <= maxSize
      && data.Length == capacity as int
      && replaced <= 2 * capacity as nat
      && (capacity < maxSize ==> replaced <= capacity as nat)
    }

    function Contents(): (s: seq<byte>)
      requires Valid()
      reads this, data
      ensures |s| == length as nat
    {
      data[..length]
    }

    constructor (maxSize: size_t)
      ensures Valid() && fresh(data)
      ensures Contents() == [] && this.maxSize == maxSize && capacity == 0 && replaced == 0
    {
      this.data := new byte[0];
      this.length := 0;
      this.capacity := 0;
      this.maxSize := maxSize;
      this.replaced := 0;
    }

    /** The doubling loop: the capacity to ask for, at least doubled unless the limit is reached. */
    method NewCapacity(required: size_t) returns (newCapacity: size_t)
      requires Valid() && capacity < required <= maxSize
      ensures newCapacity as nat == Enlarged(capacity as nat, required as nat, maxSize as nat)
    {
      newCapacity := capacity;
      if newCapacity == 0 {
        newCapacity := INITIAL_CAPACITY;
      }
      if newCapacity > maxSize {
        newCapacity := maxSize;
      }
      while newCapacity < required
        invariant 0 < newCapacity <= maxSize
        invariant Doubled(newCapacity as nat, required as nat, maxSize as nat)
               == Enlarged(capacity as nat, required as nat, maxSize as nat)
        decreases maxSize - newCapacity
      {
        if newCapacity > maxSize / 2 {
          newCapacity := maxSize;
        } else {
          newCapacity := newCapacity * 2;
        }
      }
    }

    /** `memory` says whether the allocator can serve this call. */
    method Grow(required: size_t, memory: bool) returns (ok: bool)
      requires Valid() && required <= maxSize
      modifies this
      ensures Valid() && Contents() == old(Contents()) && length == old(length)
      ensures ok <==> required <= old(capacity) || memory
      ensures ok ==> capacity as nat == Enlarged(old(capacity) as nat, required as nat, maxSize as nat)
      ensures data == old(data) || fresh(data)
      ensures !ok ==> data == old(data) && capacity == old(capacity) && replaced == old(replaced)
      ensures capacity != old(capacity) ==>
                replaced == old(replaced) + old(capacity) as nat
    {
      if required <= capacity {
        return true;
      }
      var newCapacity := NewCapacity(required);
      if !memory {
        return false;
      }
      var newData := new byte[newCapacity];
      forall k | 0 <= k < length as int {
        newData[k] := data[k];
      }
      assert newData[..length] == data[..length];
      replaced := replaced + capacity as nat;
      data := newData;
      capacity := newCapacity;
      return true;
    }

    method Append(bytes: seq<byte>, memory: bool) returns (ok: bool)
      requires Valid() && |bytes| <= SIZE_MAX
      modifies this, data
      ensures Valid() && (data == old(data) || fresh(data))
      ensures ok <==> var required := |old(Contents())| + |bytes|;
                      required <= maxSize as nat && (bytes == [] || required <= old(capacity) as nat || memory)
      ensures capacity as nat == if ok then Enlarged(old(capacity) as nat, |old(Contents())| + |bytes|, maxSize as nat)
                                 else old(capacity) as nat
      ensures Contents() == if ok then old(Contents()) + bytes else old(Contents())
      ensures Appended(old(Contents()), maxSize as nat, bytes, memory).Some? ==> ok
    {
      var size := |bytes| as size_t;
      if size > maxSize - length {
        return false;
      }
      if size == 0 {
        return true;
      }
      var required := length + size;
      var grown := Grow(required, memory);
      if !grown {
        return false;
      }
      var start := length as int;
      assert data[..start] == old(Contents());
      Copy(data, start, bytes);
      length := length + size;
      return true;
    }

    method Consume(size: size_t) returns (ok: bool)
      requires Valid()
      modifies this, data
      ensures Valid() && data == old(data) && capacity == old(capacity)
      ensures ok <==> size as nat <= |old(Contents())|
      ensures Contents() == if ok then old(Contents())[size..] else old(Contents())
    {
      if size > length {
        return false;
      }
      if size == 0 {
        return true;
      }
      var remaining := length - size;
      forall k | 0 <= k < remaining as int {
        data[k] := data[k + size as int];
      }
      length := remaining;
      assert data[..remaining] == old(Contents())[size..];
      return true;
    }

    /** Roll the visible contents back to a shorter prefix, keeping the allocation. */
    method Truncate(newLength: size_t)
      requires Valid() && newLength <= length
      modifies this
      ensures Valid() && data == old(data) && capacity == old(capacity)
      ensures Contents() == old(Contents())[..newLength]
    {
      length := newLength;
      assert data[..newLength] == old(Contents())[..newLength];
    }
  }
}

/** The two encoders of src/protocol.c, which append a whole frame to a buffer or nothing. */
module Codec {
  import opened Base
  import opened Protocol
  import B = Buffer

  /**
   Whether two appends in a row find the memory they need: each needs the allocator only if what is
   allocated by then does not suffice.
   */
  predicate Allocatable(capacity: nat, maxSize: nat, length: nat, header: nat, body: nat, memory: (bool, bool))
    requires capacity <= maxSize && length + header + body <= maxSize
  {
    && (length + header <= capacity || memory.0)
    && (body == 0 || length + header + body <= B.Enlarged(capacity, length + header, maxSize) || memory.1)
  }

  /** The end of both encoders: a header and a body are appended, or the contents are rolled back. */
  method AppendBoth(output: B.Buffer, header: seq<byte>, body: seq<byte>, memory: (bool, bool)) returns (ok: bool)
    requires output.Valid() && |output.Contents()| + |header| + |body| <= output.maxSize as nat && header != []
    modifies output, output.data
    ensures output.Valid() && (output.data == old(output.data) || fresh(output.data))
    ensures output.Contents() == old(output.Contents()) + if ok then header + body else []
    ensures ok <==> Allocatable(old(output.capacity) as nat, output.maxSize as nat,
                                |old(output.Contents())|, |header|, |body|, memory)
  {
    hide B.Enlarged;
    var originalLength := output.length;
    ghost var before := output.Contents();
    ok := output.Append(header, memory.0);
    if !ok {
      return;
    }
    ok := output.Append(body, memory.1);
    if !ok {
      output.Truncate(originalLength);
      assert (before + header)[..|before|] == before;
      return;
    }
    assert before + header + body == before + (header + body);
  }

  /** `memory` says which of the two appends the allocator can serve. */
  method EncodeRequest(output: B.Buffer, kind: u16, argument: seq<byte>, memory: (bool, bool)) returns (ok: bool)
    requires output.Valid()
    modifies output, output.data
    ensures output.Valid() && (output.data == old(output.data) || fresh(output.data))
    ensures ok ==> KindOf(kind).Some? && |argument| <= MAX_ARGUMENT
    ensures ok ==> output.Contents() == old(output.Contents()) + RequestFrame(Request(KindOf(kind).value, argument))
    ensures !ok ==> output.Contents() == old(output.Contents())
    ensures ok <==> && 1 <= kind <= 3 && |argument| <= 65529
                    && |old(output.Contents())| + REQUEST_HEADER + |argument| <= output.maxSize as nat
                    && Allocatable(old(output.capacity) as nat, output.maxSize as nat,
                                   |old(output.Contents())|, REQUEST_HEADER, |argument|, memory)
  {
    if KindOf(kind).None? {
      return false;
    }
    if |argument| > MAX_ARGUMENT {
      return false;
    }
    var messageLength := (REQUEST_HEADER + |argument|) as size_t;
    if messageLength > output.maxSize - output.length {
      return false;
    }
    var header := RequestHeader(KindOf(kind).value, |argument|);
    assert RequestFrame(Request(KindOf(kind).value, argument)) == header + argument;
    hide RequestFrame, RequestHeader, Allocatable;
    ok := AppendBoth(output, header, argument, memory);
  }

  method EncodeResponse(output: B.Buffer, bytes: seq<byte>, memory: (bool, bool)) returns (ok: bool)
    requires output.Valid()
    modifies output, output.data
    ensures output.Valid() && (output.data == old(output.data) || fresh(output.data))
    ensures ok ==> |bytes| <= UINT16_MAX
    ensures ok ==> output.Contents() == old(output.Contents()) + ResponseFrame(bytes)
    ensures !ok ==> output.Contents() == old(output.Contents())
    ensures ok <==> && |bytes| <= 65535
                    && |old(output.Contents())| + RESPONSE_HEADER + |bytes| <= output.maxSize as nat
                    && Allocatable(old(output.capacity) as nat, output.maxSize as nat,
                                   |old(output.Contents())|, RESPONSE_HEADER, |bytes|, memory)
  {
    if |bytes| > UINT16_MAX {
      return false;
    }
    var messageLength := (RESPONSE_HEADER + |bytes|) as size_t;
    if messageLength > output.maxSize - output.length {
      return false;
    }
    var header := EncodeU16(|bytes| as u16);
    assert ResponseFrame(bytes) == header + bytes;
    hide ResponseFrame, EncodeU16, Allocatable;
    ok := AppendBoth(output, header, bytes, memory);
  }
}
