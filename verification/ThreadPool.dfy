/** The worker pool of vmware_kernel/mpp/threadpool.c. A call of the model is what a thread does between taking and
    releasing work_lock, or one wakeup of everybody that waits; a run is any sequence of calls. */
module ThreadPool {
  import opened Dll

  type Thread = nat
  type Work = Node

  datatype At = Looping | Asleep | Working(w: Work)

  /** The pool, its workers that have not exited, and the wakeups still owed: schedule_work and the shutdown give
      theirs only after they have released the lock. testing holds the work of callers between schedule_work's test
      of the state and its insertion, scheduled and dispatched list the work handed in and begun. */
  datatype Pool = Pool(list: seq<Work>, pend: int, active: int, shutting: bool, workers: map<Thread, At>, owed: nat,
                       testing: set<Work>, scheduled: seq<Work>, dispatched: seq<Work>)

  datatype Call = Test(w: Work) | Insert(w: Work) | Wakeup | Loop(t: Thread) | Finish(t: Thread) | Shutdown

  /** schedule_work tests the state before it takes the lock, so its insertion may come after the shutdown. */
  predicate Enabled(p: Pool, c: Call) {
    match c
    case Test(w) => !p.shutting && w !in p.testing
    case Insert(w) => w in p.testing
    case Wakeup => p.owed > 0
    case Loop(t) => t in p.workers && p.workers[t] == Looping
    case Finish(t) => t in p.workers && p.workers[t].Working?
    case Shutdown => !p.shutting
  }

  function Inserted(p: Pool, w: Work): Pool {
    p.(list := p.list + [w], pend := p.pend + 1, owed := p.owed + 1, testing := p.testing - {w},
       scheduled := p.scheduled + [w])
  }

  function Woken(p: Pool): Pool
    requires p.owed > 0
  {
    p.(owed := p.owed - 1, workers := map t | t in p.workers ::
      if p.workers[t] == Asleep then Looping else p.workers[t])
  }

  function Looped(p: Pool, t: Thread): Pool {
    if p.list != [] then
      p.(list := p.list[1..], pend := p.pend - 1, workers := p.workers[t := Working(p.list[0])],
         dispatched := p.dispatched + [p.list[0]])
    else if p.shutting then
      p.(active := p.active - 1, workers := p.workers - {t})
    else
      p.(workers := p.workers[t := Asleep])
  }

  function Next(p: Pool, c: Call): Pool
    requires Enabled(p, c)
  {
    match c
    case Test(w) => p.(testing := p.testing + {w})
    case Insert(w) => Inserted(p, w)
    case Wakeup => Woken(p)
    case Loop(t) => Looped(p, t)
    case Finish(t) => p.(workers := p.workers[t := Looping])
    case Shutdown => p.(shutting := true, owed := p.owed + 1)
  }

  predicate Possible(p: Pool, calls: seq<Call>)
    decreases |calls|
  {
    calls == [] || (Enabled(p, calls[0]) && Possible(Next(p, calls[0]), calls[1..]))
  }

  function Run(p: Pool, calls: seq<Call>): Pool
    requires Possible(p, calls)
    decreases |calls|
  {
    if calls == [] then p else Run(Next(p, calls[0]), calls[1..])
  }

  predicate AllLooping(workers: map<Thread, At>) {
    forall t :: t in workers ==> workers[t] == Looping
  }

  function Start(workers: map<Thread, At>): Pool {
    Pool([], 0, |workers|, false, workers, 0, {}, [], [])
  }

  predicate Inv(p: Pool) {
    && p.scheduled == p.dispatched + p.list
    && p.pend == |p.list| && p.active == |p.workers|
    && (forall t :: t in p.workers && p.workers[t] == Asleep && (p.list != [] || p.shutting) ==> p.owed > 0)
  }

  /** Workers exit only in a shutdown. */
  predicate Staffed(p: Pool, n: nat) {
    p.active < n ==> p.shutting
  }

  lemma NextKeepsInv(p: Pool, c: Call, n: nat)
    requires Inv(p) && Staffed(p, n) && Enabled(p, c)
    ensures Inv(Next(p, c)) && Staffed(Next(p, c), n)
  {
    var q := Next(p, c);
    match c
    case Wakeup =>
      assert q.workers.Keys == p.workers.Keys;
      assert |q.workers.Keys| == |q.workers| && |p.workers.Keys| == |p.workers|;
    case Loop(t) =>
      if p.list == [] && p.shutting {
        assert q.workers.Keys == p.workers.Keys - {t};
        assert |q.workers.Keys| == |q.workers| && |p.workers.Keys| == |p.workers|;
      }
    case _ =>
  }

  lemma {:induction false} RunKeepsInv(p: Pool, calls: seq<Call>, n: nat)
    requires Inv(p) && Staffed(p, n) && Possible(p, calls)
    ensures Inv(Run(p, calls)) && Staffed(Run(p, calls), n)
    decreases |calls|
  {
    if calls != [] {
      NextKeepsInv(p, calls[0], n);
      RunKeepsInv(Next(p, calls[0]), calls[1..], n);
    }
  }

  /** No work is forgotten: while there is work and a worker, a worker can go on or be woken. */
  lemma WorkGoesOn(p: Pool) returns (c: Call)
    requires Inv(p) && p.list != [] && p.workers != map[]
    ensures Enabled(p, c) && (c.Loop? || c.Finish? || c == Wakeup)
  {
    var t :| t in p.workers;
    match p.workers[t]
    case Looping => c := Loop(t);
    case Working(_) => c := Finish(t);
    case Asleep => c := Wakeup;
  }

  /** The work that the calls insert. */
  function InsertedBy(calls: seq<Call>): seq<Work> {
    if calls == [] then []
    else if calls[0].Insert? then [calls[0].w] + InsertedBy(calls[1..])
    else InsertedBy(calls[1..])
  }

  /** All work handed in, and no other, is in the books. */
  lemma {:induction false} RunSchedules(p: Pool, calls: seq<Call>)
    requires Possible(p, calls)
    ensures Run(p, calls).scheduled == p.scheduled + InsertedBy(calls)
    decreases |calls|
  {
    if calls != [] {
      RunSchedules(Next(p, calls[0]), calls[1..]);
    }
  }

  /** Over every run: the work handed in is begun once and in that order, or still in the list, work_pend is the length
      of the list, active counts the workers, which exit only in a shutdown, and a worker sleeps beside work, or
      through a shutdown, only if a wakeup is on its way. */
  lemma {:induction false} PoolIsSafe(workers: map<Thread, At>, calls: seq<Call>)
    requires AllLooping(workers) && Possible(Start(workers), calls)
    ensures var p := Run(Start(workers), calls);
            && InsertedBy(calls) == p.dispatched + p.list && p.pend == |p.list| && p.active == |p.workers|
            && (p.owed == 0 && (p.list != [] || p.shutting) ==> forall t :: t in p.workers ==> p.workers[t] != Asleep)
            && (p.active < |workers| ==> p.shutting)
  {
    RunKeepsInv(Start(workers), calls, |workers|);
    RunSchedules(Start(workers), calls);
  }

  /** Nobody takes work any more once all workers have exited. */
  lemma {:induction false} WorkStays(p: Pool, calls: seq<Call>)
    requires p.workers == map[] && p.shutting && Possible(p, calls)
    ensures var q := Run(p, calls);
            && q.list == p.list + InsertedBy(calls) && q.workers == map[] && q.shutting && q.testing <= p.testing
            && (p.testing == {} ==> InsertedBy(calls) == [])
    decreases |calls|
  {
    if calls != [] {
      WorkStays(Next(p, calls[0]), calls[1..]);
    }
  }

  /** When all workers have exited, the work left is exactly what was inserted after the last of them did, with the
      list empty at that point. */
  lemma {:induction false} OnlyLateWorkIsLeft(p: Pool, calls: seq<Call>) returns (k: nat)
    requires p.workers != map[] && Possible(p, calls) && Run(p, calls).workers == map[]
    ensures 0 < k <= |calls| && Possible(p, calls[..k]) && calls[k - 1].Loop?
    ensures var q := Run(p, calls[..k]); q.workers == map[] && q.list == [] && q.shutting
    ensures Run(p, calls).list == InsertedBy(calls[k..])
    decreases |calls|
  {
    var n := Next(p, calls[0]);
    if n.workers == map[] {
      k := 1;
      assert calls[..1] == [calls[0]];
      assert Possible(n, [calls[0]][1..]);
      var t :| t in p.workers;
      assert !calls[0].Loop? ==> t in n.workers;
      WorkStays(n, calls[1..]);
    } else {
      k := OnlyLateWorkIsLeft(n, calls[1..]);
      k := k + 1;
      assert calls[..k][1..] == calls[1..][..k - 1] && calls[k..] == calls[1..][k - 1..];
    }
  }

  /** With all workers gone, the list is empty after every run from here if and only if it is empty now and no
      caller is between its test and its insertion; else more is a run that ends with work in the list. */
  lemma EmptyForGood(p: Pool, calls: seq<Call>) returns (more: seq<Call>)
    requires p.workers == map[] && p.shutting && Possible(p, calls)
    ensures if p.list == [] && p.testing == {} then Run(p, calls).list == []
            else Possible(p, more) && Run(p, more).list != []
  {
    WorkStays(p, calls);
    more := [];
    if p.list == [] && p.testing != {} {
      var w :| w in p.testing;
      more := [Insert(w)];
      var n := Next(p, more[0]);
      assert more[1..] == [] && Possible(n, []) && Run(n, []) == n;
    }
  }

  /** A run in which work is left behind: a caller has tested the state, the only worker exits, the work comes. */
  lemma ShutdownStrandsWork(t: Thread, w: Work)
    ensures var calls := [Test(w), Shutdown, Loop(t), Insert(w)];
            var p := Start(map[t := Looping]);
            Possible(p, calls) && Run(p, calls).workers == map[] && Run(p, calls).list == [w]
  {
    var c := [Test(w), Shutdown, Loop(t), Insert(w)];
    var p0 := Start(map[t := Looping]);
    var p1 := Next(p0, c[0]);
    var p2 := Next(p1, c[1]);
    var p3 := Next(p2, c[2]);
    assert p3.workers == map[];
    assert c[3..] == [c[3]] && c[2..][1..] == c[3..] && c[1..][1..] == c[2..] && c[0..] == c;
    assert Possible(Next(p3, c[3]), c[3..][1..]);
    assert Possible(p3, c[3..]) && Possible(p2, c[2..]) && Possible(p1, c[1..]);
    assert Run(p3, c[3..]) == Next(p3, c[3]);
    assert Run(p2, c[2..]) == Next(p3, c[3]);
  }

  /** The pool in place. The list of work is a ring on which new work comes first and old work goes last. */
  class WorkerPool {
    const workList: Node
    var workPend: int
    var active: int
    var shutting: bool
    ghost var ring: seq<Node>
    ghost var fifo: seq<Work>
    ghost var workers: map<Thread, At>
    ghost var owed: nat
    ghost var testing: set<Work>
    ghost var scheduled: seq<Work>
    ghost var dispatched: seq<Work>

    /** fifo is the list, oldest work first. */
    ghost predicate Linked()
      reads this`ring, this`fifo, ring`next, ring`prev
    {
      && IsRing(ring) && ring[0] == workList && |ring| == |fifo| + 1
      && (forall i {:trigger fifo[i]} :: 0 <= i < |fifo| ==> ring[|fifo| - i] == fifo[i])
    }

    ghost predicate Valid()
      reads this, ring`next, ring`prev
    {
      Linked() && Inv(State())
    }

    ghost function State(): Pool
      reads this
    {
      Pool(fifo, workPend, active, shutting, workers, owed, testing, scheduled, dispatched)
    }

    /** thread_pool_init, with its workers about to start. */
    constructor (n: nat, ghost workers: map<Thread, At>)
      requires AllLooping(workers) && |workers| == n
      ensures Valid() && State() == Start(workers)
      ensures fifo == [] && workPend == 0 && active == n && !shutting
    {
      var head := new Node(0);
      workList, workPend, active, shutting := head, 0, n, false;
      ring, fifo, this.workers, owed, testing, scheduled, dispatched := [head], [], workers, 0, {}, [], [];
    }

    /** schedule_work up to the lock: its assert on the state holds. */
    method Test(w: Work)
      requires Valid() && !shutting && w !in testing
      modifies this`testing
      ensures Valid() && State() == Next(old(State()), Call.Test(w)) && testing == old(testing) + {w}
    {
      NextKeepsInv(State(), Call.Test(w), 0);
      testing := testing + {w};
    }

    /** schedule_work from the lock up to its wakeup. */
    method Schedule(w: Work)
      requires Valid() && w in testing && w !in ring
      modifies this`ring, this`workPend, this`fifo, this`owed, this`testing, this`scheduled
      modifies workList`prev, workList.prev`next, w`next, w`prev
      ensures Valid() && State() == Inserted(old(State()), w)
      ensures fifo == old(fifo) + [w] && workPend == old(workPend) + 1 && scheduled == old(scheduled) + [w]
      ensures owed == old(owed) + 1 && testing == old(testing) - {w}
    {
      ghost var was := State();
      NextKeepsInv(was, Insert(w), 0);
      Link(w);
      workPend := workPend + 1;
      owed, testing, scheduled := owed + 1, testing - {w}, scheduled + [w];
      assert State() == Inserted(was, w);
    }

    method Link(w: Work)
      requires Linked() && w !in ring
      modifies this`ring, this`fifo, workList`prev, workList.prev`next, w`next, w`prev
      ensures Linked() && fifo == old(fifo) + [w]
    {
      RevAdd(workList, w, ring);
      ring := [workList, w] + ring[1..];
      fifo := fifo + [w];
    }

    /** vmk_WorldWakeup on work_pend: everybody that waits goes round its loop again. */
    ghost method Wake()
      requires Valid() && owed > 0
      modifies this`owed, this`workers
      ensures Valid() && State() == Woken(old(State())) && owed == old(owed) - 1
      ensures workers.Keys == old(workers).Keys && forall t :: t in workers ==>
        workers[t] == if old(workers)[t] == Asleep then Looping else old(workers)[t]
    {
      NextKeepsInv(State(), Wakeup, 0);
      var was := State();
      workers, owed := Woken(was).workers, owed - 1;
      assert State() == Woken(was);
    }

    /** The end of a round of _worker_thread: the work is done. */
    ghost method Done(t: Thread)
      requires Valid() && t in workers && workers[t].Working?
      modifies this`workers
      ensures Valid() && State() == Next(old(State()), Finish(t)) && workers == old(workers)[t := Looping]
    {
      NextKeepsInv(State(), Finish(t), 0);
      workers := workers[t := Looping];
    }

    /** _thread_pool_deinit up to its wakeup. */
    method BeginShutdown()
      requires Valid() && !shutting
      modifies this`shutting, this`owed
      ensures Valid() && State() == Next(old(State()), Shutdown) && shutting && owed == old(owed) + 1
    {
      NextKeepsInv(State(), Shutdown, 0);
      shutting, owed := true, owed + 1;
    }

    /** The locked part of _worker_thread: the oldest work, or null and whether the worker exits or sleeps. */
    method NextWork(t: Thread) returns (w: Node?, exits: bool)
      requires Valid() && t in workers && workers[t] == Looping
      modifies this`ring, this`workPend, this`active, this`fifo, this`workers, this`dispatched, ring`next, ring`prev
      ensures Valid() && State() == Looped(old(State()), t)
      ensures w == if old(fifo) == [] then null else old(fifo)[0]
      ensures exits <==> old(fifo) == [] && old(shutting)
      ensures w != null ==>
                && fifo == old(fifo)[1..] && workPend == old(workPend) - 1 && active == old(active)
                && workers == old(workers)[t := Working(w)] && dispatched == old(dispatched) + [w]
      ensures w == null ==>
                && fifo == [] && workPend == old(workPend) && dispatched == old(dispatched)
                && active == (if exits then old(active) - 1 else old(active))
                && workers == if exits then old(workers) - {t} else old(workers)[t := Asleep]
    {
      if IsEmpty() {
        w := null;
        exits := Idle(t);
      } else {
        w := TakeWork(t);
        exits := false;
      }
    }

    method Idle(t: Thread) returns (exits: bool)
      requires Valid() && t in workers && workers[t] == Looping && fifo == []
      modifies this`active, this`workers
      ensures Valid() && State() == Looped(old(State()), t) && exits == shutting
    {
      NextKeepsInv(State(), Loop(t), 0);
      exits := shutting;
      if shutting {
        active := active - 1;
        workers := workers - {t};
      } else {
        workers := workers[t := Asleep];
      }
    }

    method TakeWork(t: Thread) returns (f: Node)
      requires Valid() && t in workers && workers[t] == Looping && fifo != []
      modifies this`ring, this`workPend, this`fifo, this`workers, this`dispatched, ring`next, ring`prev
      ensures Valid() && State() == Looped(old(State()), t) && f == old(fifo)[0]
    {
      ghost var was := State();
      NextKeepsInv(was, Loop(t), 0);
      f := Unlink();
      workPend := workPend - 1;
      workers, dispatched := workers[t := Working(f)], dispatched + [f];
      assert State() == Looped(was, t);
    }

    predicate IsEmpty()
      requires Linked()
      reads workList`next, this`ring, this`fifo, ring`next, ring`prev
      ensures IsEmpty() <==> fifo == []
    {
      assert workList == ring[0] && workList.next == ring[|ring| - 1];
      workList.next == workList
    }

    method Unlink() returns (f: Node)
      requires Linked() && fifo != []
      modifies this`ring, this`fifo, ring`next, ring`prev
      ensures Linked() && f == old(fifo)[0] && fifo == old(fifo)[1..]
    {
      f := workList.next;
      ghost var last := |ring| - 1;
      assert f == ring[last] && f.next == ring[last - 1] && f.prev == ring[0];
      Rem(f, ring, last);
      assert ring[..last] + ring[last + 1..] == ring[..last];
      ring := ring[..last];
      fifo := fifo[1..];
    }
  }
}
