/**
 The singly linked FIFO of src/queue.c. The ghost `spine` lists the nodes from head to tail;
 `Valid()` says that the `next` pointers, the tail pointer and the length agree with it, so the
 list is acyclic. `Contents()` is the abstract FIFO the rest of the system reasons about.
 */
module Queue {
  import opened Base
  import opened Protocol

  datatype Item = Item(fd: int, request: Request)

  /** The order-preserving filter that removing a client amounts to. */
  function Without(items: seq<Item>, fd: int): seq<Item> {
    if items == [] then []
    else (if items[0].fd == fd then [] else [items[0]]) + Without(items[1..], fd)
  }

  /** The filter removes every item of the client, and keeps each other client's items as they were. */
  lemma {:induction false} WithoutRemovesOnly(items: seq<Item>, fd: int, other: int)
    ensures forall x :: x in Without(items, fd) <==> x in items && x.fd != fd
    ensures other != fd ==> OfClient(Without(items, fd), other) == OfClient(items, other)
  {
    if items != [] {
      WithoutRemovesOnly(items[1..], fd, other);
      var rest := Without(items[1..], fd);
      assert items == [items[0]] + items[1..];
      if items[0].fd == fd {
        assert Without(items, fd) == rest;
      } else {
        assert Without(items, fd) == [items[0]] + rest;
        assert ([items[0]] + rest)[1..] == rest;
      }
    }
  }

  function OfClient(items: seq<Item>, fd: int): seq<Request> {
    if items == [] then []
    else (if items[0].fd == fd then [items[0].request] else []) + OfClient(items[1..], fd)
  }

  class Node {
    const item: Item
    var next: Node?

    constructor (item: Item)
      ensures this.item == item && next == null
    {
      this.item := item;
      this.next := null;
    }
  }

  ghost function Items(spine: seq<Node>): (items: seq<Item>)
    ensures |items| == |spine|
  {
    seq(|spine|, i requires 0 <= i < |spine| => spine[i].item)
  }

  /** One step of filtering the spine: the first node of the rest is dropped or kept. */
  lemma DiscardStep(kept: seq<Node>, rest: seq<Node>, fd: int)
    requires rest != []
    ensures Items(kept) + Without(Items(rest), fd)
         == Items(if rest[0].item.fd == fd then kept else kept + [rest[0]]) + Without(Items(rest[1..]), fd)
  {
    assert Items(rest)[1..] == Items(rest[1..]);
    assert Items(kept + [rest[0]]) == Items(kept) + [rest[0].item];
  }

  class RequestQueue {
    var head: Node?
    var tail: Node?
    var length: size_t
    ghost var spine: seq<Node>

    /** Node k of the spine points to node k + 1, and the last one to null. */
    static ghost predicate Linked(spine: seq<Node>)
      reads set n | n in spine
    {
      && (forall i, j :: 0 <= i < j < |spine| ==> spine[i] != spine[j])
      && (forall i, j :: 0 <= i < |spine| && j == i + 1 < |spine| ==> spine[i].next == spine[j])
      && (spine != [] ==> spine[|spine| - 1].next == null)
    }

    ghost predicate Valid()
      reads this, set n | n in spine
    {
      && Linked(spine)
      && length as nat == |spine|
      && head == (if spine == [] then null else spine[0])
      && tail == (if spine == [] then null else spine[|spine| - 1])
    }

    ghost function Contents(): seq<Item>
      reads this
    {
      Items(spine)
    }

    constructor ()
      ensures Valid() && Contents() == [] && spine == []
    {
      head := null;
      tail := null;
      length := 0;
      spine := [];
    }

    /** `memory` says whether the allocator can serve the node. */
    method Enqueue(fd: int, request: Request, memory: bool) returns (ok: bool)
      requires Valid() && |Contents()| < SIZE_MAX
      modifies this, set n | n in spine
      ensures Valid()
      ensures ok <==> fd >= 0 && memory
      ensures Contents() == if ok then old(Contents()) + [Item(fd, request)] else old(Contents())
      ensures forall n :: n in spine && n !in old(spine) ==> fresh(n)
    {
      if fd < 0 || !memory {
        return false;
      }
      var node := new Node(Item(fd, request));
      if tail == null {
        head := node;
      } else {
        tail.next := node;
      }
      tail := node;
      length := length + 1;
      spine := spine + [node];
      assert Items(spine) == Items(old(spine)) + [Item(fd, request)];
      return true;
    }

    method Dequeue() returns (first: Node?)
      requires Valid()
      modifies this, set n | n in spine
      ensures Valid()
      ensures first == null <==> old(Contents()) == []
      ensures first == null ==> Contents() == []
      ensures first != null ==> first.next == null && first !in spine
                                && old(Contents()) == [first.item] + Contents()
      ensures forall n :: n in spine ==> n in old(spine)
    {
      if head == null {
        return null;
      }
      first := head;
      head := head.next;
      first.next := null;
      length := length - 1;
      spine := spine[1..];
      if head == null {
        tail := null;
      }
      assert Items(old(spine)) == [first.item] + Items(spine);
    }

    method Peek() returns (item: Option<Item>)
      requires Valid()
      ensures item == if Contents() == [] then None else Some(Contents()[0])
    {
      if head == null {
        return None;
      }
      return Some(head.item);
    }

    lemma NextAfter(kept: seq<Node>, rest: seq<Node>)
      requires Valid() && spine == kept + rest && rest != []
      ensures rest[0].next == if |rest| == 1 then null else rest[1]
      ensures spine == (kept + [rest[0]]) + rest[1..]
    {
      assert spine[|kept|] == rest[0];
      assert |rest| > 1 ==> spine[|kept| + 1] == rest[1];
    }

    /** One pass with a trailing pointer that unlinks every node of the client in place. */
    method DiscardClient(fd: int) returns (removed: size_t)
      requires Valid()
      modifies this, set n | n in spine
      ensures Valid()
      ensures Contents() == Without(old(Contents()), fd)
      ensures removed as nat == |old(Contents())| - |Contents()|
      ensures forall n :: n in spine ==> n in old(spine)
    {
      ghost var kept: seq<Node> := [];
      ghost var rest := spine;
      var current := head;
      var previous: Node? := null;
      removed := 0;
      assert Items([]) + Without(Items(rest), fd) == Without(Items(spine), fd);
      while current != null
        invariant spine == kept + rest && Valid()
        invariant current == if rest == [] then null else rest[0]
        invariant previous == if kept == [] then null else kept[|kept| - 1]
        invariant Items(kept) + Without(Items(rest), fd) == Without(old(Contents()), fd)
        invariant removed as nat == |old(spine)| - |spine|
        invariant forall n :: n in spine ==> n in old(spine)
        decreases |rest|
      {
        hide *;
        DiscardStep(kept, rest, fd);
        var gone;
        current, previous, gone, kept := Visit(fd, current, previous, kept, rest);
        if gone {
          removed := removed + 1;
        }
        rest := rest[1..];
      }
      assert kept + rest == kept;
    }

    /** One step of the pass: the node is unlinked, or becomes the one last kept. */
    method Visit(fd: int, current: Node, previous: Node?, ghost kept: seq<Node>, ghost rest: seq<Node>)
      returns (next: Node?, last: Node?, gone: bool, ghost now: seq<Node>)
      requires Valid() && spine == kept + rest && rest != [] && current == rest[0]
      requires previous == if kept == [] then null else kept[|kept| - 1]
      modifies this, set n | n in spine
      ensures Valid() && spine == now + rest[1..]
      ensures gone == (current.item.fd == fd) && now == if gone then kept else kept + [current]
      ensures |spine| == |old(spine)| - if gone then 1 else 0
      ensures forall n :: n in spine ==> n in old(spine)
      ensures next == if |rest| == 1 then null else rest[1]
      ensures last == if now == [] then null else now[|now| - 1]
    {
      hide *;
      gone := current.item.fd == fd;
      if gone {
        next := Unlink(current, previous, kept, rest);
        last, now := previous, kept;
      } else {
        NextAfter(kept, rest);
        next, last, now := current.next, current, kept + [current];
      }
    }

    /** The removal of one node: patch the pointer into it and, at the end, the tail. */
    method Unlink(current: Node, previous: Node?, ghost kept: seq<Node>, ghost rest: seq<Node>)
      returns (next: Node?)
      requires Valid() && spine == kept + rest && rest != [] && current == rest[0]
      requires previous == if kept == [] then null else kept[|kept| - 1]
      modifies this, set n | n in spine
      ensures Valid() && spine == kept + rest[1..] && |spine| == |old(spine)| - 1
      ensures forall n :: n in spine ==> n in old(spine)
      ensures next == if |rest| == 1 then null else rest[1]
    {
      ghost var j := |kept|;
      ghost var before := spine;
      assert before[j] == current;
      assert j + 1 < |before| ==> before[j + 1] == rest[1];
      next := current.next;
      if previous == null {
        head := next;
      } else {
        assert before[j - 1] == previous;
        previous.next := next;
      }
      if tail == current {
        tail := previous;
      }
      length := length - 1;
      spine := kept + rest[1..];
      assert forall i :: 0 <= i < |spine| ==> spine[i] == before[if i < j then i else i + 1];
    }

    method Clear()
      requires Valid()
      modifies this
      ensures Valid() && Contents() == []
    {
      ghost var k := 0;
      var current := head;
      while current != null
        invariant Valid() && 0 <= k <= |spine|
        invariant current == if k == |spine| then null else spine[k]
        decreases |spine| - k
      {
        assert current == spine[k] && (k + 1 < |spine| ==> current.next == spine[k + 1]);
        current := current.next;
        k := k + 1;
      }
      head := null;
      tail := null;
      length := 0;
      spine := [];
    }
  }
}
