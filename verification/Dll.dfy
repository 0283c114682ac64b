/** The circular lists of iosplitter/include/dll.h and the FIFO of iosplitter/common/queue.c. */
module Dll {
  import opened Common

  /** A dll_t and, where it is a member of a message, what the code reaches through container_of: the seqid and,
      as long as it is hashed, the bucket. at is the bucket of the ring the node is in, a head's included. */
  class Node {
    var next: Node
    var prev: Node
    const key: nat
    var bucket: int
    ghost var at: int

    /** DLL_INIT */
    constructor (key: nat)
      ensures next == prev == this && this.key == key && bucket == at == -1
    {
      next, prev, this.key := this, this, key;
      bucket, at := -1, -1;
    }
  }

  /** s is a whole ring, each node followed by the one its dll_prev points to. */
  ghost predicate IsRing(s: seq<Node>)
    reads s`next, s`prev
  {
    && s != [] && Distinct(s)
    && s[|s| - 1].prev == s[0] && s[0].next == s[|s| - 1]
    && (forall i {:trigger s[i].prev} :: 0 <= i < |s| - 1 ==> s[i].prev == s[i + 1])
    && (forall i {:trigger s[i].next} :: 0 < i < |s| ==> s[i].next == s[i - 1])
  }

  /** DLL_ADD: n comes last. Its old links do not matter. */
  method Add(head: Node, n: Node, ghost s: seq<Node>)
    requires IsRing(s) && s[0] == head && n !in s
    modifies head`next, head.next`prev, n`next, n`prev
    ensures IsRing(s + [n])
  {
    n.next := head.next;
    n.prev := head;
    head.next.prev := n;
    head.next := n;
  }

  /** DLL_REVADD: n comes right behind the head. */
  method RevAdd(head: Node, n: Node, ghost s: seq<Node>)
    requires IsRing(s) && s[0] == head && n !in s
    modifies head`prev, head.prev`next, n`next, n`prev
    ensures IsRing([head, n] + s[1..])
  {
    n.prev := head.prev;
    n.next := head;
    head.prev := n;
    n.prev.next := n;
  }

  /** DLL_REM: what is left is a ring, and so is the node that was taken out. */
  method Rem(n: Node, ghost s: seq<Node>, ghost k: nat)
    requires IsRing(s) && 0 < k < |s| && s[k] == n
    modifies n`next, n`prev, n.next`prev, n.prev`next
    ensures IsRing(s[..k] + s[k + 1..]) && IsRing([n])
  {
    ghost var t := s[..k] + s[k + 1..];
    WithoutOne(s, k, t);
    assert n.next == s[k - 1];
    assert n.prev == if k == |s| - 1 then s[0] else s[k + 1];
    n.next.prev := n.prev;
    n.prev.next := n.next;
    n.next := n;
    n.prev := n;
    forall i | 0 <= i < |t| - 1 ensures t[i].prev == t[i + 1] && t[i + 1].next == t[i] {
      assert s[k] == n && t[i] == (if i < k then s[i] else s[i + 1]);
      assert t[i + 1] == if i + 1 < k then s[i + 1] else s[i + 2];
    }
    assert t[|t| - 1] == if k == |s| - 1 then s[k - 1] else s[|s| - 1];
    assert t[0] == s[0];
    assert IsRing(t);
  }

  /** The queue of queue.c: entries are added at one end of the ring and taken from the other. */
  class Queue {
    const head: Node
    var len: int
    ghost var ring: seq<Node>

    ghost predicate Valid()
      reads this, ring
    {
      IsRing(ring) && ring[0] == head && len == |ring| - 1
    }

    ghost function Contents(): seq<Node>
      requires Valid()
      reads this, ring
    {
      ring[1..]
    }

    /** queue_init */
    constructor ()
      ensures Valid() && Contents() == [] && fresh(head)
    {
      var h := new Node(0);
      head, len, ring := h, 0, [h];
    }

    /** queue_add */
    method Enqueue(entry: Node)
      requires Valid() && entry !in ring
      modifies this`len, this`ring, head`next, head.next`prev, entry`next, entry`prev
      ensures Valid() && Contents() == old(Contents()) + [entry] && ring == old(ring) + [entry]
    {
      Add(head, entry, ring);
      ring := ring + [entry];
      len := len + 1;
    }

    /** queue_rem: the entry that has waited longest, unlinked; null if there is none. */
    method Dequeue() returns (e: Node?)
      requires Valid()
      modifies this`len, this`ring, ring`next, ring`prev
      ensures Valid()
      ensures e == null <==> old(Contents()) == []
      ensures e == null ==> ring == old(ring)
      ensures e != null ==> old(Contents()) == [e] + Contents() && IsRing([e])
      ensures e != null ==> e in old(ring) && e !in ring && forall n :: n in ring ==> n in old(ring)
    {
      if head.next == head {
        return null;
      }
      var n := head.prev;
      Rem(n, ring, 1);
      ring := ring[..1] + ring[2..];
      len := len - 1;
      e := n;
    }

    /** queue_iter_next: the entry behind cur, k places from the head; null behind the last. */
    method Following(cur: Node, ghost k: nat) returns (e: Node?)
      requires Valid() && k < |ring| && ring[k] == cur
      ensures e == if k + 1 < |ring| then ring[k + 1] else null
    {
      if cur.prev == head {
        return null;
      }
      e := cur.prev;
    }
  }
}
