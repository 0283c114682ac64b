/** The lists every task waits on: addtask and deltask of iosplitter/libtask/task.c. */
module TaskList {
  import opened Common

  class Task {
    var next: Task?
    var prev: Task?
  }

  /** The tasks at places i and i + 1 point to each other. */
  ghost predicate Linked(q: seq<Task>, i: nat)
    requires i < |q| - 1
    reads q`next, q`prev
  {
    q[i].next == q[i + 1] && q[i + 1].prev == q[i]
  }

  class Tasklist {
    var head: Task?
    var tail: Task?
    ghost var items: seq<Task>

    ghost predicate Valid()
      reads this, items`next, items`prev
    {
      && Distinct(items)
      && (if items == [] then head == tail == null
          else head == items[0] && head.prev == null && tail == items[|items| - 1] && tail.next == null)
      && (forall i {:trigger Linked(items, i)} :: 0 <= i < |items| - 1 ==> Linked(items, i))
    }

    constructor ()
      ensures Valid() && items == []
    {
      head, tail, items := null, null, [];
    }

    /** addtask: t goes last, whatever links it still has from a list it was on before. */
    method Add(t: Task)
      requires Valid() && t !in items
      modifies this, t, items`next
      ensures Valid() && items == old(items) + [t]
    {
      ghost var s := items;
      if tail != null {
        tail.next := t;
        t.prev := tail;
      } else {
        head := t;
        t.prev := null;
      }
      tail := t;
      t.next := null;
      items := s + [t];
      forall i | 0 <= i < |s| ensures Linked(items, i) {
        assert i < |s| - 1 ==> old(Linked(items, i));
      }
    }

    /** The assignments of deltask. */
    method Unlink(t: Task, ghost k: nat)
      requires Valid() && k < |items| && items[k] == t
      modifies this`head, this`tail, items`next, items`prev
      ensures var n := |items|;
        && (head == if k > 0 then items[0] else if n == 1 then null else items[1])
        && (tail == if k < n - 1 then items[n - 1] else if n == 1 then null else items[n - 2])
      ensures forall i {:trigger items[i].next} :: 0 <= i < |items| ==>
        items[i].next == if i == k - 1 then (if k == |items| - 1 then null else items[k + 1]) else old(items[i].next)
      ensures forall i {:trigger items[i].prev} :: 0 <= i < |items| ==>
        items[i].prev == if i == k + 1 then (if k == 0 then null else items[k - 1]) else old(items[i].prev)
    {
      assert k > 0 ==> Linked(items, k - 1);
      assert k < |items| - 1 ==> Linked(items, k);
      assert t.prev == (if k == 0 then null else items[k - 1]);
      assert t.next == (if k == |items| - 1 then null else items[k + 1]);
      if t.prev != null {
        t.prev.next := t.next;
      } else {
        head := t.next;
      }
      if t.next != null {
        t.next.prev := t.prev;
      } else {
        tail := t.prev;
      }
    }

    /** The same with s for the list that is left. */
    method Leave(t: Task, ghost k: nat, ghost s: seq<Task>)
      requires Valid() && k < |items| && items[k] == t
      requires |s| == |items| - 1 && Distinct(s)
      requires forall i {:trigger s[i]} :: 0 <= i < |s| ==> s[i] == items[if i < k then i else i + 1]
      modifies this, items`next, items`prev
      ensures Valid() && items == s
    {
      Unlink(t, k);
      forall i | 0 <= i < |s| - 1 ensures Linked(s, i) {
        assert i != k - 1 ==> old(Linked(items, if i < k then i else i + 1));
      }
      items := s;
    }

    /** deltask, of the task at place k: the others keep their order. */
    method Del(t: Task, ghost k: nat)
      requires Valid() && k < |items| && items[k] == t
      modifies this, items`next, items`prev
      ensures Valid() && items == old(items[..k] + items[k + 1..])
    {
      ghost var s := items[..k] + items[k + 1..];
      WithoutOne(items, k, s);
      Leave(t, k, s);
    }
  }
}
