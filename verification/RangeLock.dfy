/** range_lock and range_unlock of iosplitter/common/range_lock.c over the sleep and wakeup of
    iosplitter/libtask/rendez.c. Scheduling is cooperative: a method is the code a task runs from one
    taskswitch to the next, and the methods may be called in any order their preconditions allow. */
module RangeLock {
  import opened Common
  import opened RbTree
  import opened RbSearch
  import opened RbInsert
  import opened RbDelete

  /** struct range: what a holder keeps. */
  datatype Range = Range(node: Node, start: nat, end: nat)

  /** A task inside range_lock's tasksleep: the node it counted itself on and the range it asked for. */
  datatype Wait = Wait(node: Node, start: nat, end: nat)

  /** The woken tasks that still count on n. */
  ghost function Pending(woken: map<nat, Wait>, n: Node): set<nat> {
    set t | t in woken && woken[t].node == n
  }

  /** The tasks of gone have moved from a0 to w0, and nothing else has. */
  ghost predicate Moved(a0: map<nat, Wait>, w0: map<nat, Wait>, a: map<nat, Wait>, w: map<nat, Wait>, gone: seq<nat>) {
    && (forall t {:trigger t in a} :: t in a <==> t in a0 && t !in gone)
    && (forall t {:trigger a[t]} :: t in a ==> a[t] == a0[t])
    && (forall t {:trigger t in w} :: t in w <==> t in w0 || t in gone)
    && (forall t {:trigger w[t]} :: t in w ==> if t in a0 then w[t] == a0[t] else t in w0 && w[t] == w0[t])
  }

  lemma MovesOne(a0: map<nat, Wait>, w0: map<nat, Wait>, a: map<nat, Wait>, w: map<nat, Wait>, gone: seq<nat>, t: nat)
    requires Moved(a0, w0, a, w, gone) && t in a0 && t !in gone && a0.Keys !! w0.Keys
    ensures t in a && Moved(a0, w0, a - {t}, w[t := a[t]], gone + [t])
    ensures |Pending(w[t := a[t]], a[t].node)| == |Pending(w, a[t].node)| + 1
  {
    assert t !in w;
    assert forall u :: u in gone + [t] <==> u in gone || u == t;
    assert Pending(w[t := a[t]], a[t].node) == Pending(w, a[t].node) + {t};
  }

  /** What the holders of the nodes in the tree keep. */
  ghost function Handed(root: Root): set<Range>
    reads root`repr, root.repr`start, root.repr`end
  {
    set n | n in root.repr :: Range(n, n.start, n.end)
  }

  class RangeLock {
    const root: Root
    // tasks asleep on a node, and tasks woken from one that have not run yet
    ghost var asleep: map<nat, Wait>
    ghost var woken: map<nat, Wait>
    // nodes allocated and not freed, and nodes freed
    ghost var live: set<Node>
    ghost var freed: set<Node>
    // the ranges handed out by range_lock and not yet given back
    ghost var handed: set<Range>

    /** An in-tree node is counted by its holder and its sleepers. */
    ghost predicate HeldOk(n: Node)
      reads this`asleep, n`refcount, n`waiting
    {
      && n.refcount == 1 + |n.waiting|
      && Distinct(n.waiting)
      && (forall i :: 0 <= i < |n.waiting| ==> n.waiting[i] in asleep && asleep[n.waiting[i]].node == n)
    }

    /** A node out of the tree is counted by the tasks woken from it that have yet to run. */
    ghost predicate DetachedOk(n: Node)
      reads this`woken, n`refcount, n`waiting
    {
      n.waiting == [] && n.refcount == |Pending(woken, n)| && n.refcount > 0
    }

    ghost predicate SleeperOk(t: nat, held: set<Node>)
      reads this`asleep, held`waiting, held`start, held`end
    {
      t in asleep ==>
        var w := asleep[t];
        w.node in held && t in w.node.waiting && Overlaps(w.node, w.start, w.end)
    }

    ghost predicate WokenOk(t: nat, held: set<Node>)
      reads this`woken, this`live
    {
      t in woken ==> woken[t].node in live && woken[t].node !in held
    }

    /** What the counts, the wait lists and the tasks have to do with each other, with these nodes in the tree. */
    ghost predicate Settled(held: set<Node>)
      reads this`asleep, this`woken, this`live, this`freed, live`refcount, live`waiting
      reads held`refcount, held`waiting, held`start, held`end
    {
      && held <= live && live !! freed && asleep.Keys !! woken.Keys
      && (forall t {:trigger SleeperOk(t, held)} :: SleeperOk(t, held))
      && (forall t {:trigger WokenOk(t, held)} :: WokenOk(t, held))
      && (forall n {:trigger HeldOk(n)} :: n in held ==> HeldOk(n))
      && (forall n {:trigger DetachedOk(n)} :: n in live && n !in held ==> DetachedOk(n))
    }

    ghost predicate Valid()
      reads this, root, root.repr, root.nodes, live
    {
      RbSearch.Valid(root) && Settled(root.repr) && handed == Handed(root)
    }

    constructor ()
      ensures Valid() && fresh(root) && root.repr == {} && asleep == map[] && woken == map[]
      ensures live == {} && freed == {} && handed == {}
    {
      root := new Root();
      asleep, woken, live, freed, handed := map[], map[], {}, {}, {};
    }

    /** free_node. */
    ghost method FreeNode(n: Node)
      requires n in live && n !in freed
      modifies `live, `freed
      ensures live == old(live) - {n} && freed == old(freed) + {n}
    {
      live, freed := live - {n}, freed + {n};
    }

    /** The branch of range_lock's loop for an overlapping node n, up to tasksleep's taskswitch. */
    method Sleep(t: nat, n: Node, s: nat, e: nat)
      requires Settled(root.repr) && t !in asleep && t !in woken && n in root.repr && Overlaps(n, s, e)
      modifies this`asleep, n`refcount, n`waiting
      ensures Settled(root.repr) && asleep == old(asleep)[t := Wait(n, s, e)]
      ensures n.refcount == old(n.refcount) + 1 && n.waiting == old(n.waiting) + [t]
    {
      assert HeldOk(n);
      n.refcount := n.refcount + 1;
      n.waiting := n.waiting + [t];
      asleep := asleep[t := Wait(n, s, e)];
      assert n.waiting[|n.waiting| - 1] == t;
      forall m | m in root.repr ensures HeldOk(m) {
        assert old(HeldOk(m));
      }
      forall m | m in live && m !in root.repr ensures DetachedOk(m) {
        assert old(DetachedOk(m));
      }
      forall u ensures SleeperOk(u, root.repr) && WokenOk(u, root.repr) {
        assert old(SleeperOk(u, root.repr) && WokenOk(u, root.repr));
      }
    }

    /** A new node is counted once, for its holder. */
    method Count(n: Node, ghost held: set<Node>)
      requires Settled(held) && n !in live && n !in freed && n.waiting == []
      modifies this`live, n`refcount
      ensures Settled(held + {n}) && live == old(live) + {n} && n.refcount == 1
    {
      n.refcount := 1;
      live := live + {n};
      forall m | m in held + {n} ensures HeldOk(m) {
        assert m in held ==> old(HeldOk(m));
      }
      forall m | m in live && m !in held + {n} ensures DetachedOk(m) {
        assert old(DetachedOk(m));
      }
      forall u ensures SleeperOk(u, held + {n}) && WokenOk(u, held + {n}) {
        assert old(SleeperOk(u, held) && WokenOk(u, held));
      }
    }

    /** The end of range_lock. */
    method Acquire(s: nat, e: nat) returns (n: Node)
      requires Valid() && Free(root, s, e)
      modifies this`live, this`handed, root
      modifies root.repr`left, root.repr`right, root.repr`idx, root.repr`lo, root.repr`hi, root.repr`parent,
        root.repr`color, root.repr`bh
      ensures Valid() && fresh(n) && live == old(live) + {n} && root.repr == old(root.repr) + {n}
      ensures handed == old(handed) + {Range(n, n.start, n.end)}
      ensures n.start == (if s > e then e else s) && n.end == (if s > e then s else e) && n.refcount == 1
    {
      ghost var held := root.repr;
      n := Insert(root, s, e);
      assert Settled(held);
      handed := handed + {Range(n, n.start, n.end)};
      assert handed == Handed(root);
      Count(n, held);
    }

    /** One turn of range_lock's loop: the range is locked, or the task goes to sleep on a held range that
        overlaps. */
    method Attempt(t: nat, s: nat, e: nat) returns (r: Option<Range>)
      requires Valid() && t !in asleep && t !in woken
      modifies this`asleep, this`live, this`handed, root, root.repr
      ensures Valid()
      ensures forall m :: m in old(root.repr) ==> m.start == old(m.start) && m.end == old(m.end)
      ensures r.Some? <==> old(Free(root, s, e))
      ensures r.Some? ==>
        && fresh(r.value.node) && root.repr == old(root.repr) + {r.value.node} && live == old(live) + {r.value.node}
        && asleep == old(asleep)
        && handed == old(handed) + {r.value}
        && r.value.start == r.value.node.start == (if s > e then e else s)
        && r.value.end == r.value.node.end == (if s > e then s else e)
      ensures r.None? ==>
        && root.repr == old(root.repr) && live == old(live) && handed == old(handed)
        && exists n :: n in root.repr && Overlaps(n, s, e) && asleep == old(asleep)[t := Wait(n, s, e)]
    {
      var n := Search(root, s, e);
      SearchFinds(root, s, e);
      if n != null {
        Sleep(t, n, s, e);
        assert n in root.repr && Overlaps(n, s, e);
        return None;
      }
      n := Acquire(s, e);
      r := Some(Range(n, n.start, n.end));
    }

    /** taskwakeupall(&n->rendez): every task asleep on n is woken, and no other. */
    method WakeAll(n: Node)
      requires Distinct(n.waiting) && asleep.Keys !! woken.Keys
      requires forall i :: 0 <= i < |n.waiting| ==> n.waiting[i] in asleep && asleep[n.waiting[i]].node == n
      requires forall t {:trigger asleep[t]} :: t in asleep && asleep[t].node == n ==> t in n.waiting
      modifies this`asleep, this`woken, n`waiting
      ensures n.waiting == []
      ensures forall t :: t in asleep <==> t in old(asleep) && old(asleep)[t].node != n
      ensures forall t {:trigger asleep[t]} :: t in asleep ==> asleep[t] == old(asleep)[t]
      ensures forall t :: t in woken <==> t in old(woken) || (t in old(asleep) && old(asleep)[t].node == n)
      ensures forall t {:trigger woken[t]} ::
        t in woken ==> woken[t] == if t in old(asleep) then old(asleep)[t] else old(woken)[t]
      ensures |Pending(woken, n)| == |Pending(old(woken), n)| + old(|n.waiting|)
    {
      ghost var q := n.waiting;
      ghost var k := 0;
      while n.waiting != []
        invariant 0 <= k <= |q| && n.waiting == q[k..]
        invariant Moved(old(asleep), old(woken), asleep, woken, q[..k])
        invariant |Pending(woken, n)| == |Pending(old(woken), n)| + k
        decreases |n.waiting|
      {
        var t := n.waiting[0];
        assert t == q[k] && t !in q[..k];
        assert q[..k + 1] == q[..k] + [t];
        MovesOne(old(asleep), old(woken), asleep, woken, q[..k], t);
        n.waiting := n.waiting[1..];
        woken := woken[t := asleep[t]];
        asleep := asleep - {t};
        k := k + 1;
      }
      assert q[..k] == q;
    }

    /** range_lock from the end of tasksleep: the task gives up its count on the node that was in its way, the
        last one frees it, and the loop goes round. */
    method Leave(t: nat, n: Node)
      requires Settled(root.repr) && t in woken && woken[t].node == n
      modifies this`woken, this`live, this`freed, n`refcount
      ensures Settled(root.repr) && woken == old(woken) - {t}
      ensures n.refcount == old(n.refcount) - 1
      ensures if n.refcount == 0 then live == old(live) - {n} && freed == old(freed) + {n}
              else live == old(live) && freed == old(freed)
    {
      assert WokenOk(t, root.repr);
      assert DetachedOk(n);
      woken := woken - {t};
      PendingRemove(old(woken), t, woken);
      n.refcount := n.refcount - 1;
      if n.refcount == 0 {
        FreeNode(n);
      }
      forall m | m in root.repr ensures HeldOk(m) {
        assert old(HeldOk(m));
      }
      forall m | m in live && m !in root.repr ensures DetachedOk(m) {
        assert old(DetachedOk(m));
      }
      forall u ensures SleeperOk(u, root.repr) && WokenOk(u, root.repr) {
        assert old(SleeperOk(u, root.repr) && WokenOk(u, root.repr));
        if u in woken && woken[u].node == n { assert u in Pending(woken, n); }
      }
    }

    method Resume(t: nat, n: Node, s: nat, e: nat) returns (r: Option<Range>)
      requires Valid() && t in woken && woken[t] == Wait(n, s, e)
      modifies this`asleep, this`woken, this`live, this`freed, this`handed, root, live
      ensures Valid() && woken == old(woken) - {t}
      ensures forall m :: m in old(root.repr) ==> m.start == old(m.start) && m.end == old(m.end)
      ensures r.Some? <==> old(Free(root, s, e))
      ensures r.Some? ==>
        && fresh(r.value.node) && root.repr == old(root.repr) + {r.value.node} && asleep == old(asleep)
        && handed == old(handed) + {r.value}
        && r.value.start == r.value.node.start == (if s > e then e else s)
        && r.value.end == r.value.node.end == (if s > e then s else e)
      ensures r.None? ==>
        && root.repr == old(root.repr) && handed == old(handed)
        && exists m :: m in root.repr && Overlaps(m, s, e) && asleep == old(asleep)[t := Wait(m, s, e)]
      ensures old(freed) <= freed <= old(freed) + {n}
      ensures n in freed <==> old(n.refcount) == 1
    {
      assert WokenOk(t, root.repr) && DetachedOk(n);
      Leave(t, n);
      r := Attempt(t, s, e);
    }

    /** The end of range_unlock, for a node that has left the tree with its count. */
    method Release(n: Node, ghost held: set<Node>)
      requires Settled(held + {n}) && n !in held
      modifies this`asleep, this`woken, this`live, this`freed, n`refcount, n`waiting
      ensures Settled(held)
      ensures forall t :: t in asleep <==> t in old(asleep) && old(asleep)[t].node != n
      ensures forall t :: t in woken <==> t in old(woken) || (t in old(asleep) && old(asleep)[t].node == n)
      ensures if old(n.waiting) == [] then live == old(live) - {n} && freed == old(freed) + {n}
              else live == old(live) && freed == old(freed)
    {
      assert HeldOk(n);
      forall t | t in asleep ensures t in asleep[t].node.waiting {
        assert SleeperOk(t, held + {n});
      }
      forall t | t in woken ensures woken[t].node != n {
        assert WokenOk(t, held + {n});
      }
      assert Pending(woken, n) == {};
      n.refcount := n.refcount - 1;
      if n.refcount == 0 {
        FreeNode(n);
      } else {
        WakeAll(n);
      }
      forall m | m in held ensures HeldOk(m) {
        assert old(HeldOk(m));
      }
      forall m | m in live && m !in held ensures DetachedOk(m) {
        if m != n {
          assert old(DetachedOk(m));
          assert Pending(woken, m) == Pending(old(woken), m);
        }
      }
      forall u ensures SleeperOk(u, held) && WokenOk(u, held) {
        assert old(SleeperOk(u, held + {n}) && WokenOk(u, held + {n}));
      }
    }

    /** range_unlock. */
    method Unlock(r: Range)
      requires Valid() && r in handed
      modifies this`asleep, this`woken, this`live, this`freed, this`handed, root, live
      ensures Valid() && root.repr == old(root.repr) - {r.node} && handed == old(handed) - {r}
      ensures forall m :: m in old(root.repr) ==> m.start == old(m.start) && m.end == old(m.end)
      ensures forall t :: t in asleep <==> t in old(asleep) && old(asleep)[t].node != r.node
      ensures forall t :: t in woken <==> t in old(woken) || (t in old(asleep) && old(asleep)[t].node == r.node)
      ensures if old(r.node.waiting) == [] then live == old(live) - {r.node} && freed == old(freed) + {r.node}
              else live == old(live) && freed == old(freed)
    {
      var n := r.node;
      ghost var held := root.repr;
      Delete(root, n);
      assert Settled(held);
      handed := handed - {r};
      forall x | x in handed ensures x.node in root.repr && x == Range(x.node, x.node.start, x.node.end) {
        assert x in old(Handed(root)) && x != r;
      }
      assert handed == Handed(root);
      assert held == root.repr + {n};
      Release(n, root.repr);
    }

    /** Two ranges handed out and not given back never share a point. */
    lemma HeldRangesAreDisjoint(a: Range, b: Range)
      requires Valid() && a in handed && b in handed && a != b
      ensures a.node != b.node && !CheckOverlap(a.start, a.end, b.start, b.end)
    {
      assert NodeOk(root, a.node) && NodeOk(root, b.node);
      assert root.nodes[a.node.idx] == a.node && root.nodes[b.node.idx] == b.node;
    }

    /** Nobody sleeps in vain: a sleeper is counted on a held range that overlaps its own, and would be refused
        if it asked now. */
    lemma SleepersAreRefused(t: nat)
      requires Valid() && t in asleep
      ensures var w := asleep[t];
        && w.node in root.repr && w.node !in freed && w.node.refcount >= 2 && Overlaps(w.node, w.start, w.end)
        && Search(root, w.start, w.end) != null
    {
      var w := asleep[t];
      assert SleeperOk(t, root.repr) && HeldOk(w.node);
      SearchFinds(root, w.start, w.end);
    }
  }

  lemma PendingRemove(w: map<nat, Wait>, t: nat, v: map<nat, Wait>)
    requires t in w && v == w - {t}
    ensures |Pending(v, w[t].node)| == |Pending(w, w[t].node)| - 1
    ensures forall n :: n != w[t].node ==> Pending(v, n) == Pending(w, n)
  {
    assert Pending(v, w[t].node) == Pending(w, w[t].node) - {t};
  }
}
