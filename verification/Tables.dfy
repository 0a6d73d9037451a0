/**
 What the poll server keeps in memory: two buffers for every client slot and the linked list of
 queued requests. `contents` and `items` are the byte and request sequences they hold. Buffer 2i is
 the input of slot i and buffer 2i + 1 its output.
 */
module Tables {
  import opened Base
  import opened Protocol
  import opened Service
  import Buffer
  import Codec
  import Queue

  function Input(i: nat): nat { 2 * i }

  function Output(i: nat): nat { 2 * i + 1 }

  function Limit(k: nat): size_t {
    if k % 2 == 0 then INPUT_LIMIT as size_t else OUTPUT_LIMIT as size_t
  }

  class Tables {
    var buffers: seq<Buffer.Buffer>
    const requests: Queue.RequestQueue

    ghost var contents: seq<seq<byte>>
    ghost var capacities: seq<nat>
    ghost var items: seq<Queue.Item>
    ghost var Repr: set<object>

    /** The buffers are apart from one another, and hold the contents within their limits. */
    ghost predicate BuffersOk()
      reads this, Repr
    {
      && |contents| == |buffers| == |capacities|
      && (forall k :: 0 <= k < |buffers| ==> buffers[k] in Repr && buffers[k].data in Repr)
      && (forall k :: 0 <= k < |buffers| ==>
            buffers[k].Valid() && buffers[k].maxSize == Limit(k) && buffers[k].Contents() == contents[k])
      && (forall k :: 0 <= k < |buffers| ==> buffers[k].capacity as nat == capacities[k])
      && (forall j, k :: 0 <= j < k < |buffers| ==> buffers[j] != buffers[k] && buffers[j].data != buffers[k].data)
    }

    ghost predicate QueueOk()
      reads this, Repr
    {
      && requests in Repr
      && (forall n :: n in requests.spine ==> n in Repr)
      && requests.Valid() && requests.Contents() == items
    }

    ghost predicate Valid()
      reads this, Repr
      ensures Valid() ==> |capacities| == |contents|
      ensures Valid() ==> forall k :: 0 <= k < |capacities| ==> capacities[k] <= Limit(k) as nat
    {
      this !in Repr && BuffersOk() && QueueOk()
    }

    constructor (slots: nat)
      ensures Valid() && fresh(Repr)
      ensures |contents| == 2 * slots && items == [] && forall k :: 0 <= k < |contents| ==> contents[k] == []
      ensures |buffers| == 2 * slots
      ensures forall k :: 0 <= k < |buffers| ==> buffers[k].maxSize == if k % 2 == 0 then 65535 else 65537
    {
      buffers := [];
      requests := new Queue.RequestQueue();
      contents := [];
      capacities := [];
      items := [];
      Repr := {};
      new;
      Repr := {requests};
      for k := 0 to 2 * slots
        invariant Valid() && fresh(Repr) && |contents| == k && items == []
        invariant forall j :: 0 <= j < k ==> contents[j] == []
      {
        AddBuffer();
      }
    }

    /** One more buffer, empty and with nothing allocated. */
    method AddBuffer()
      requires Valid()
      modifies this
      ensures Valid() && fresh(Repr - old(Repr)) && contents == old(contents) + [[]] && items == old(items)
    {
      hide Queue.RequestQueue.Valid, Queue.RequestQueue.Contents, Buffer.Buffer.Valid, Buffer.Buffer.Contents;
      var b := new Buffer.Buffer(Limit(|buffers|));
      buffers := buffers + [b];
      contents := contents + [[]];
      capacities := capacities + [0];
      Repr := Repr + {b, b.data};
    }

    method Replace(k: nat)
      requires Valid() && k < |contents|
      modifies this
      ensures Valid() && fresh(Repr - old(Repr)) && contents == old(contents)[k := []] && items == old(items)
    {
      hide Queue.RequestQueue.Valid, Queue.RequestQueue.Contents, Buffer.Buffer.Valid, Buffer.Buffer.Contents;
      var b := new Buffer.Buffer(Limit(k));
      buffers := buffers[k := b];
      contents := contents[k := []];
      capacities := capacities[k := 0];
      Repr := Repr + {b, b.data};
    }

    function Bytes(k: nat): (s: seq<byte>)
      requires Valid() && k < |contents|
      reads this, Repr
      ensures s == contents[k]
    {
      buffers[k].Contents()
    }

    function Queued(): (n: nat)
      requires Valid()
      reads this, Repr
      ensures n == |items|
    {
      requests.length as nat
    }

    // ---- Buffers ----

    /** Release what slot `i` holds and start it afresh. */
    method Renew(i: nat)
      requires Valid() && Output(i) < |contents|
      modifies this
      ensures Valid() && fresh(Repr - old(Repr))
      ensures contents == old(contents)[Input(i) := []][Output(i) := []] && items == old(items)
    {
      hide BuffersOk, QueueOk;
      Replace(Input(i));
      Replace(Output(i));
    }

    /** Only buffer `k` and its memory changed, and it holds what `contents` says: the others still do too. */
    twostate lemma OthersKept(k: nat)
      requires old(BuffersOk()) && k < |buffers| && buffers == old(buffers) && |contents| == |old(contents)|
      requires forall j :: 0 <= j < |contents| && j != k ==> contents[j] == old(contents)[j]
      requires capacities == old(capacities)[k := buffers[k].capacity as nat]
      requires Repr == old(Repr) + {buffers[k].data}
      requires buffers[k].data == old(buffers[k].data) || fresh(buffers[k].data)
      requires buffers[k].Valid() && buffers[k].Contents() == contents[k]
      requires unchanged(set o | o in old(Repr) && o != buffers[k] && o != old(buffers[k].data))
      ensures BuffersOk()
    {
      forall j | 0 <= j < |buffers| && j != k
        ensures buffers[j].Valid() && buffers[j].Contents() == contents[j] && buffers[j].data == old(buffers[j].data)
        ensures buffers[j].capacity as nat == capacities[j]
      {
        assert buffers[j] in old(Repr) && buffers[j] != buffers[k] && old(buffers[j].data) != old(buffers[k].data);
      }
      hide Buffer.Buffer.Valid, Buffer.Buffer.Contents;
    }

    twostate lemma QueueKept(k: nat)
      requires old(QueueOk()) && k < |buffers| && buffers == old(buffers) && items == old(items) && old(Repr) <= Repr
      requires unchanged(set o | o in old(Repr) && o != buffers[k] && o != old(buffers[k].data))
      ensures QueueOk()
    {
    }

    method Append(k: nat, bytes: seq<byte>, memory: bool) returns (ok: bool)
      requires Valid() && k < |contents| && |bytes| <= SIZE_MAX
      modifies this, Repr
      ensures Valid() && fresh(Repr - old(Repr))
      ensures ok ==> |old(contents)[k]| + |bytes| <= Limit(k) as nat
      ensures |old(contents)[k]| + |bytes| <= Limit(k) as nat && memory ==> ok
      ensures contents == if ok then old(contents)[k := old(contents)[k] + bytes] else old(contents)
      ensures items == old(items)
    {
      var b := buffers[k];
      ok := b.Append(bytes, memory);
      if ok {
        contents := contents[k := contents[k] + bytes];
      }
      capacities := capacities[k := b.capacity as nat];
      Repr := Repr + {b.data};
      hide BuffersOk, QueueOk, Buffer.Enlarged, Buffer.Appended, Codec.Allocatable;
      OthersKept(k);
      QueueKept(k);
    }

    method Consume(k: nat, n: nat)
      requires Valid() && k < |contents| && n <= |contents[k]|
      modifies this, Repr
      ensures Valid() && Repr == old(Repr)
      ensures contents == old(contents)[k := old(contents)[k][n..]] && items == old(items)
    {
      var b := buffers[k];
      assert n <= b.length as nat;
      var ok := b.Consume(n as size_t);
      contents := contents[k := contents[k][n..]];
    }

    method AppendResponse(k: nat, p: Payload, memory: (bool, bool)) returns (ok: bool)
      requires Valid() && k < |contents|
      modifies this, Repr
      ensures Valid() && fresh(Repr - old(Repr))
      ensures ok <==> && |old(contents)[k]| + RESPONSE_HEADER + |p| <= Limit(k) as nat
                      && Codec.Allocatable(old(capacities)[k], Limit(k) as nat, |old(contents)[k]|, RESPONSE_HEADER,
                                           |p|, memory)
      ensures contents == if ok then old(contents)[k := old(contents)[k] + ResponseFrame(p)] else old(contents)
      ensures items == old(items)
    {
      hide ResponseFrame;
      var b := buffers[k];
      ok := Codec.EncodeResponse(b, p, memory);
      if ok {
        contents := contents[k := contents[k] + ResponseFrame(p)];
      }
      capacities := capacities[k := b.capacity as nat];
      Repr := Repr + {b.data};
      hide BuffersOk, QueueOk, Buffer.Enlarged, Buffer.Appended, Codec.Allocatable;
      OthersKept(k);
      QueueKept(k);
    }

    // ---- Queue ----

    method Enqueue(fd: int, request: Request, memory: bool) returns (ok: bool)
      requires Valid() && |items| < SIZE_MAX
      modifies this, Repr
      ensures Valid() && fresh(Repr - old(Repr))
      ensures ok <==> fd >= 0 && memory
      ensures items == (if ok then old(items) + [Queue.Item(fd, request)] else old(items)) && contents == old(contents)
    {
      hide Buffer.Buffer.Valid, Buffer.Buffer.Contents, Queue.RequestQueue.Linked;
      ok := requests.Enqueue(fd, request, memory);
      items := requests.Contents();
      Repr := Repr + set n | n in requests.spine;
    }

    method Dequeue() returns (first: Option<Queue.Item>)
      requires Valid()
      modifies this, Repr
      ensures Valid() && Repr == old(Repr) && contents == old(contents) && capacities == old(capacities)
      ensures first.None? <==> old(items) == []
      ensures first.None? ==> items == []
      ensures first.Some? ==> old(items) == [first.value] + items
    {
      var node := requests.Dequeue();
      items := requests.Contents();
      return if node == null then None else Some(node.item);
    }

    method Peek() returns (first: Option<Queue.Item>)
      requires Valid()
      ensures first == if items == [] then None else Some(items[0])
    {
      first := requests.Peek();
    }

    method DiscardClient(fd: int)
      requires Valid()
      modifies this, Repr
      ensures Valid() && Repr == old(Repr) && contents == old(contents)
      ensures items == Queue.Without(old(items), fd)
    {
      var _ := requests.DiscardClient(fd);
      items := requests.Contents();
    }

    method Clear()
      requires Valid()
      modifies this, Repr
      ensures Valid() && Repr == old(Repr) && contents == old(contents) && items == []
    {
      requests.Clear();
      items := [];
    }
  }
}
