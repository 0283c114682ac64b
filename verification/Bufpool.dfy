/** The buffer pool of iosplitter/common/bufpool.c, on the FIFO of Dll and the Rendez of Locks. A method is the code a
    task runs up to the point where it sleeps or returns; allocation succeeds. */
module Bufpool {
  import opened Common
  import opened Dll
  import Locks

  type Task = Locks.Task

  datatype Outcome = Got(buf: Node) | Refused | Asleep

  class Pool {
    const freelist: Queue
    const nbufs: nat
    const nmax: nat
    var owned: int
    var issued: int
    const rendez: Locks.Rendez
    // the buffers in use, and the getters woken that have not run since
    ghost var held: set<Node>
    ghost var woken: set<Task>

    /** Every buffer is free or in use, never both; a pool above nbufs keeps none free. */
    ghost predicate Conserved()
      reads this, freelist, freelist.ring
    {
      && freelist.Valid()
      && owned == issued + freelist.len <= nmax
      && issued == |held| && (forall b :: b in held ==> b !in freelist.ring)
      && (owned > nbufs ==> freelist.len == 0)
    }

    /** No wakeup is lost: while a getter sleeps, every buffer that could be had is meant for one that was woken. */
    ghost predicate NobodyForgotten()
      reads this, rendez
    {
      && Distinct(rendez.waiting)
      && (forall t :: t in rendez.waiting ==> t !in woken) && (forall t :: t in woken ==> t in rendez.readied)
      && (rendez.waiting != [] ==> nmax - issued <= |woken|)
    }

    ghost predicate Valid()
      reads this, freelist, freelist.ring, rendez
    {
      0 < nbufs <= nmax && Conserved() && NobodyForgotten()
    }

    /** bufpool_init */
    constructor (nbufs: nat, nmax: nat)
      requires 0 < nbufs <= nmax
      ensures Valid() && this.nbufs == nbufs && this.nmax == nmax
      ensures owned == nbufs && issued == 0 && rendez.waiting == [] && woken == {}
    {
      freelist := new Queue();
      rendez := new Locks.Rendez();
      this.nbufs, this.nmax := nbufs, nmax;
      owned, issued := 0, 0;
      held, woken := {}, {};
      new;
      Fill();
    }

    /** The loop of bufpool_init. */
    method Fill()
      requires freelist.Valid() && freelist.Contents() == [] && owned == 0
      modifies this`owned, freelist, freelist.ring
      ensures freelist.Valid() && freelist.len == owned == nbufs
    {
      while owned < nbufs
        invariant 0 <= owned <= nbufs && freelist.Valid() && freelist.len == owned
        invariant fresh(freelist.Contents()) && freelist.head in old(freelist.ring)
      {
        var buf := new Node(0);
        ghost var last := freelist.ring[|freelist.ring| - 1];
        assert freelist.head.next == last;
        assert owned > 0 ==> last in freelist.Contents();
        freelist.Enqueue(buf);
        owned := owned + 1;
      }
    }

    /** The branches of bufpool_get that find a buffer. */
    method Take() returns (e: Node?)
      requires Conserved() && 0 < nbufs <= nmax
      modifies this`owned, this`issued, this`held, freelist, freelist.ring
      ensures Conserved()
      ensures e != null <==> old(issued) < nmax
      ensures e != null ==> e !in old(held) && held == old(held) + {e} && issued == old(issued) + 1
      ensures e == null ==> held == old(held) && issued == old(issued) == nmax
      ensures if old(freelist.Contents()) != [] then e == old(freelist.Contents())[0] && owned == old(owned)
              else e != null ==> fresh(e) && owned == old(owned) + 1
    {
      e := freelist.Dequeue();
      if e != null {
        assert e !in held;
        issued := issued + 1;
        held := held + {e};
      } else if owned < nmax {
        var buf := new Node(0);
        owned, issued := owned + 1, issued + 1;
        held := held + {buf};
        e := buf;
      }
    }

    /** bufpool_get up to its first sleep or its return, and from a wakeup up to the next (resumed). */
    method Get(self: Task, noblock: bool, ghost resumed: bool) returns (r: Outcome)
      requires Valid() && (if resumed then self in woken && !noblock else self !in woken && self !in rendez.waiting)
      modifies this`owned, this`issued, this`held, this`woken, freelist, freelist.ring, rendez
      ensures Valid() && woken == old(woken) - {self}
      ensures r.Got? <==> old(issued) < nmax
      ensures r.Got? ==>
                && r.buf !in old(held) && held == old(held) + {r.buf} && rendez.waiting == old(rendez.waiting)
                && (old(freelist.Contents()) != [] ==> r.buf == old(freelist.Contents())[0] && owned == old(owned))
                && (old(freelist.Contents()) == [] ==> fresh(r.buf) && owned == old(owned) + 1)
      ensures !r.Got? ==> r.Refused? == noblock && held == old(held) && owned == old(owned)
      ensures rendez.waiting == if r.Asleep? then old(rendez.waiting) + [self] else old(rendez.waiting)
      ensures rendez.readied == old(rendez.readied)
    {
      woken := woken - {self};
      var e := Take();
      if e != null {
        return Got(e);
      }
      if noblock {
        return Refused;
      }
      rendez.Sleep(self, null);
      return Asleep;
    }

    /** The branches of bufpool_put; both asserts hold. */
    method Give(buf: Node)
      requires Conserved() && 0 < nbufs <= nmax && buf in held
      modifies this`owned, this`issued, this`held, freelist, freelist.ring, buf
      ensures Conserved() && held == old(held) - {buf} && issued == old(issued) - 1
      ensures owned == if old(owned) <= nbufs then old(owned) else old(owned) - 1
      ensures freelist.Contents() == if old(owned) <= nbufs then old(freelist.Contents()) + [buf] else []
    {
      issued := issued - 1;
      held := held - {buf};
      assert issued >= 0;
      if owned <= nbufs {
        freelist.Enqueue(buf);
      } else {
        owned := owned - 1;
        assert owned >= 0;
        assert owned >= nbufs;
      }
    }

    /** bufpool_put: the getter that has slept longest is woken. */
    method Put(buf: Node)
      requires Valid() && buf in held
      modifies this`owned, this`issued, this`held, this`woken, freelist, freelist.ring, buf, rendez
      ensures Valid() && held == old(held) - {buf}
      ensures owned == if old(owned) <= nbufs then old(owned) else old(owned) - 1
      ensures freelist.Contents() == if old(owned) <= nbufs then old(freelist.Contents()) + [buf] else []
      ensures if old(rendez.waiting) == [] then woken == old(woken) && rendez.waiting == []
              else woken == old(woken) + {old(rendez.waiting)[0]} && rendez.waiting == old(rendez.waiting)[1..]
      ensures rendez.readied == old(rendez.readied) + if old(rendez.waiting) == [] then [] else [old(rendez.waiting)[0]]
    {
      Give(buf);
      if rendez.waiting != [] {
        woken := woken + {rendez.waiting[0]};
      }
      var n := rendez.Wakeup(false);
    }
  }
}
