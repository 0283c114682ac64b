/** The task runtime of iosplitter/libtask/task.c. */
module Scheduler {

  const TASKS_CACHE_MAX := 32

  /** Where a task is: on the processor, on the run queue, in the cache of finished tasks, or asleep on a list of
      somebody else's. */
  datatype Where = Running | Queued | Cached | Parked

  class Task {
    const cacheable: bool
    var alltaskslot: nat
    var system: bool
    var ready: bool
    var cached: bool
    ghost var place: Where
    // the number of switches when it was last made ready, and how many tasks were ready ahead of it then
    ghost var stamp: nat
    ghost var ahead: nat

    constructor (cacheable: bool, slot: nat)
      ensures this.cacheable == cacheable && alltaskslot == slot && !system && !ready && !cached && place == Parked
    {
      this.cacheable, alltaskslot := cacheable, slot;
      system, ready, cached, place := false, false, false, Parked;
    }
  }

  ghost predicate SlotOk(a: seq<Task>, s: set<Task>, i: nat)
    requires i < |a|
    reads s`alltaskslot
  {
    a[i] in s && a[i].alltaskslot == i
  }

  ghost predicate Slotted(a: seq<Task>, t: Task)
    reads t`alltaskslot
  {
    t.alltaskslot < |a| && a[t.alltaskslot] == t
  }

  /** a lists the tasks of s, each at its own slot. */
  ghost predicate SlotsOk(a: seq<Task>, s: set<Task>)
    reads s`alltaskslot
  {
    && (forall t {:trigger Slotted(a, t)} :: t in s ==> Slotted(a, t))
    && (forall i {:trigger SlotOk(a, s, i)} :: 0 <= i < |a| ==> SlotOk(a, s, i))
  }

  ghost predicate Counted(ordinary: set<Task>, t: Task)
    reads t`system, t`place
  {
    (t in ordinary <==> !t.system) && (t.place == Cached ==> t.cacheable && !t.system)
  }

  /** count is the number of the tasks of s that are not system tasks, cached ones included. */
  ghost predicate CountsOk(s: set<Task>, ordinary: set<Task>, count: int)
    reads s`system, s`place
  {
    && (forall t {:trigger Counted(ordinary, t)} :: t in s ==> Counted(ordinary, t))
    && ordinary <= s && count == |ordinary|
  }

  lemma AlsoSlotted(a: seq<Task>, s: set<Task>, t: Task)
    requires SlotsOk(a, s) && t !in s && t.alltaskslot == |a|
    ensures SlotsOk(a + [t], s + {t})
  {
    forall u | u in s + {t} ensures Slotted(a + [t], u) {
      assert u in s ==> Slotted(a, u);
    }
    forall i | 0 <= i <= |a| ensures SlotOk(a + [t], s + {t}, i) {
      assert i < |a| ==> SlotOk(a, s, i);
    }
  }

  lemma AlsoCounted(s: set<Task>, ordinary: set<Task>, count: int, t: Task)
    requires CountsOk(s, ordinary, count) && t !in s && !t.system && t.place == Parked
    ensures CountsOk(s + {t}, ordinary + {t}, count + 1)
  {
    forall u | u in s + {t} ensures Counted(ordinary + {t}, u) {
      assert u in s ==> Counted(ordinary, u);
    }
  }

  lemma FewerCounted(s: set<Task>, ordinary: set<Task>, count: int, t: Task)
    requires CountsOk(s, ordinary, count) && t in s
    ensures CountsOk(s - {t}, ordinary - {t}, if t.system then count else count - 1)
  {
    assert Counted(ordinary, t);
    forall u | u in s - {t} ensures Counted(ordinary - {t}, u) {
      assert Counted(ordinary, u);
    }
  }

  class Runtime {
    var runqueue: seq<Task>
    var cache: seq<Task>
    var cachecount: int
    var alltask: seq<Task>
    var taskcount: int
    var nswitch: nat
    var running: Task?
    ghost var all: set<Task>
    ghost var ordinary: set<Task>

    /** A task is in at most one list, and its flags say in which. */
    ghost predicate Listed(t: Task)
      reads this`runqueue, this`cache, this`running, this`nswitch
      reads t`place, t`ready, t`cached, t`stamp, t`ahead
    {
      && (t.place == Running <==> running == t) && (t.place == Running ==> t.stamp + t.ahead + 1 == nswitch)
      && (t.place == Queued <==> t in runqueue)
      && (t.place == Cached <==> t in cache)
      && (t.ready <==> t.place == Queued) && (t.cached <==> t.place == Cached)
    }

    /** The task at place k of the run queue will run after as many switches as were ahead of it when it came. */
    ghost predicate InTurn(k: nat)
      requires k < |runqueue|
      reads this`runqueue, this`nswitch, runqueue`stamp, runqueue`ahead
    {
      runqueue[k].stamp + runqueue[k].ahead == nswitch + k
    }

    ghost predicate ListsOk(s: set<Task>)
      reads this`runqueue, this`cache, this`cachecount, this`running, this`nswitch
      reads s`place, s`ready, s`cached, s`stamp, s`ahead, runqueue`stamp, runqueue`ahead
    {
      && (forall t {:trigger Listed(t)} :: t in s ==> Listed(t))
      && (forall k {:trigger InTurn(k)} :: 0 <= k < |runqueue| ==> runqueue[k] in s && InTurn(k))
      && (forall t :: t in cache ==> t in s) && (running != null ==> running in s)
      && (forall i, j :: 0 <= i < j < |cache| ==> cache[i] != cache[j]) && cachecount == |cache|
    }

    ghost predicate Valid()
      reads this, all, runqueue
    {
      SlotsOk(alltask, all) && ListsOk(all) && CountsOk(all, ordinary, taskcount)
    }

    constructor ()
      ensures Valid() && all == {} && running == null && taskcount == nswitch == 0
    {
      runqueue, cache, cachecount, alltask, taskcount, nswitch, running := [], [], 0, [], 0, 0, null;
      all, ordinary := {}, {};
    }

    /** taskready */
    method Ready(t: Task)
      requires Valid() && t in all && t.place == Parked
      modifies this`runqueue, t`ready, t`place, t`stamp, t`ahead
      ensures Valid() && runqueue == old(runqueue) + [t]
      ensures t.ready && t.place == Queued && t.stamp == nswitch && t.ahead == |old(runqueue)|
    {
      assert Listed(t);
      t.ready := true;
      t.stamp, t.ahead := nswitch, |runqueue|;
      runqueue := runqueue + [t];
      t.place := Queued;
      forall u | u in all ensures Listed(u) {
        assert old(Listed(u));
      }
      forall u | u in all ensures Counted(ordinary, u) {
        assert old(Counted(ordinary, u));
      }
      forall k | 0 <= k < |runqueue| ensures runqueue[k] in all && InTurn(k) {
        assert k < |old(runqueue)| ==> old(InTurn(k));
      }
    }

    /** The running task gives up the processor (taskswitch) after it has put itself on somebody's list. */
    method Sleep() returns (t: Task)
      requires Valid() && running != null
      modifies this`running, running`place
      ensures Valid() && t == old(running) && running == null && t.place == Parked
      ensures unchanged(`runqueue, `nswitch, `cache, `cachecount, `all, `ordinary)
    {
      t := running;
      running := null;
      assert old(Listed(running));
      t.place := Parked;
      forall u | u in all ensures Listed(u) {
        assert old(Listed(u));
      }
      forall u | u in all ensures Counted(ordinary, u) {
        assert old(Counted(ordinary, u));
      }
      forall k | 0 <= k < |runqueue| ensures runqueue[k] in all && InTurn(k) {
        assert old(InTurn(k));
      }
    }

    /** taskyield up to its taskswitch: the task goes behind everybody that is ready. */
    method YieldBegin() returns (t: Task, n: nat)
      requires Valid() && running != null
      modifies this`running, this`runqueue, running`place, running`ready, running`stamp, running`ahead
      ensures Valid() && t == old(running) && running == null && runqueue == old(runqueue) + [t]
      ensures n == nswitch == t.stamp && t.ahead == |old(runqueue)|
    {
      n := nswitch;
      t := Sleep();
      Ready(t);
    }

    /** taskyield behind its taskswitch: it returns how many tasks were ready ahead of the caller, whatever they
        and others did in between. */
    method YieldEnd(t: Task, n: nat) returns (r: int)
      requires Valid() && running == t && n == t.stamp
      ensures r == t.ahead
    {
      assert Listed(t);
      r := nswitch - n - 1;
    }

    /** One round of the scheduler: the task that has been ready longest runs. */
    method Switch() returns (t: Task)
      requires Valid() && running == null && runqueue != []
      modifies this`running, this`runqueue, this`nswitch, runqueue`ready, runqueue`place
      ensures Valid() && [t] + runqueue == old(runqueue) && running == t && nswitch == old(nswitch) + 1
    {
      t := runqueue[0];
      assert InTurn(0) && Listed(t);
      forall k | 1 <= k < |runqueue| ensures runqueue[k] != t {
        assert InTurn(k);
      }
      runqueue := runqueue[1..];
      t.ready := false;
      t.place := Running;
      running := t;
      nswitch := nswitch + 1;
      forall u | u in all ensures Listed(u) {
        assert old(Listed(u));
        assert u in old(runqueue) <==> u == t || u in runqueue;
      }
      forall u | u in all ensures Counted(ordinary, u) {
        assert old(Counted(ordinary, u));
      }
      forall k | 0 <= k < |runqueue| ensures runqueue[k] in all && InTurn(k) {
        assert old(InTurn(k + 1));
      }
    }

    /** tasksystem */
    method System()
      requires Valid() && running != null
      modifies this`taskcount, this`ordinary, running`system
      ensures Valid() && ordinary == old(ordinary) - {running} && running.system
    {
      assert Listed(running) && Counted(ordinary, running);
      if !running.system {
        running.system := true;
        taskcount := taskcount - 1;
        ordinary := ordinary - {running};
        forall u | u in all ensures Counted(ordinary, u) {
          assert old(Counted(ordinary, u));
        }
      }
    }

    /** taskcreate: a finished task of the cache if the stack is of the size that is cached, and else a new one. With
        another size the cache must be empty (the assert of the source). */
    method Create(cacheable: bool) returns (t: Task)
      requires Valid() && (cacheable || cache == [])
      modifies this, all`ready, all`place, all`stamp, all`ahead, all`cached
      ensures Valid() && runqueue == old(runqueue) + [t] && nswitch == old(nswitch) && running == old(running)
      ensures if cacheable && old(cache) != [] then
                t == old(cache)[0] && cache == old(cache)[1..] && all == old(all) && ordinary == old(ordinary)
              else
                fresh(t) && cache == old(cache) && all == old(all) + {t} && ordinary == old(ordinary) + {t}
      ensures if fresh(t) then alltask == old(alltask) + [t] && t.alltaskslot == |old(alltask)|
              else alltask == old(alltask)
      ensures t.ready && !t.cached && !t.system && t.stamp == nswitch && t.ahead == |old(runqueue)|
      ensures forall u :: u in old(all) && u != t ==> u.stamp == old(u.stamp) && u.ahead == old(u.ahead)
      ensures forall u :: u in old(all) && u != t ==>
        u.place == old(u.place) && u.ready == old(u.ready) && u.cached == old(u.cached)
    {
      if cacheable && cache != [] {
        t := cache[0];
        TakeCached(t);
      } else {
        t := Alloc(cacheable);
      }
      Ready(t);
    }

    method TakeCached(t: Task)
      requires Valid() && cache != [] && t == cache[0]
      modifies this`cache, this`cachecount, t`place, t`cached
      ensures Valid() && [t] + cache == old(cache) && t.place == Parked && t in all && !t.cached && !t.system
      ensures unchanged(`runqueue, `running, `nswitch, `alltask, `all, `ordinary)
    {
      assert Listed(t) && Counted(ordinary, t) && cachecount > 0;
      cache := cache[1..];
      cachecount := cachecount - 1;
      t.cached := false;
      t.place := Parked;
      forall u | u in all ensures Listed(u) {
        assert old(Listed(u));
        assert u in old(cache) <==> u == t || u in cache;
      }
      forall u | u in all ensures Counted(ordinary, u) {
        assert old(Counted(ordinary, u));
      }
      forall k | 0 <= k < |runqueue| ensures runqueue[k] in all && InTurn(k) {
        assert old(InTurn(k));
      }
    }

    method Alloc(cacheable: bool) returns (t: Task)
      requires Valid()
      modifies this`alltask, this`taskcount, this`all, this`ordinary
      ensures Valid() && fresh(t) && all == old(all) + {t} && ordinary == old(ordinary) + {t} && t.place == Parked
      ensures alltask == old(alltask) + [t] && t.alltaskslot == |old(alltask)| && !t.cached && !t.system
    {
      t := new Task(cacheable, |alltask|);
      AddTask(t);
    }

    method AddTask(t: Task)
      requires Valid() && t !in all && t.place == Parked && t.alltaskslot == |alltask|
      requires !t.ready && !t.cached && !t.system
      modifies this`alltask, this`taskcount, this`all, this`ordinary
      ensures Valid() && all == old(all) + {t} && ordinary == old(ordinary) + {t} && alltask == old(alltask) + [t]
    {
      AlsoListed(t);
      AlsoSlotted(alltask, all, t);
      AlsoCounted(all, ordinary, taskcount, t);
      Enter(t);
    }

    method Enter(t: Task)
      requires SlotsOk(alltask + [t], all + {t}) && ListsOk(all + {t})
      requires CountsOk(all + {t}, ordinary + {t}, taskcount + 1)
      modifies this`alltask, this`taskcount, this`all, this`ordinary
      ensures Valid() && all == old(all) + {t} && ordinary == old(ordinary) + {t} && alltask == old(alltask) + [t]
    {
      taskcount := taskcount + 1;
      alltask := alltask + [t];
      all, ordinary := all + {t}, ordinary + {t};
    }

    lemma AlsoListed(t: Task)
      requires ListsOk(all) && t !in all && t.place == Parked && !t.ready && !t.cached
      ensures ListsOk(all + {t})
    {
      forall k | 0 <= k < |runqueue| ensures runqueue[k] in all && InTurn(k) {
        assert InTurn(k);
      }
      assert Listed(t);
    }

    /** taskfree: the last task of alltask takes the slot of the one that goes. */
    method Free(t: Task)
      requires Valid() && t in all && t.place == Parked
      modifies this`alltask, this`taskcount, this`all, this`ordinary, all`alltaskslot
      ensures Valid() && all == old(all) - {t} && ordinary == old(ordinary) - {t}
      ensures |alltask| == |old(alltask)| - 1 && unchanged(`runqueue, `running, `nswitch, `cache)
    {
      Uncount(t);
      DropSlot(t);
      StayListed(t);
      all := all - {t};
    }

    method Uncount(t: Task)
      requires CountsOk(all, ordinary, taskcount) && t in all
      modifies this`taskcount, this`ordinary
      ensures CountsOk(all - {t}, ordinary, taskcount) && ordinary == old(ordinary) - {t}
    {
      FewerCounted(all, ordinary, taskcount, t);
      if !t.system {
        taskcount := taskcount - 1;
      }
      ordinary := ordinary - {t};
    }

    method DropSlot(t: Task)
      requires SlotsOk(alltask, all) && t in all
      modifies this`alltask, all`alltaskslot
      ensures SlotsOk(alltask, all - {t}) && |alltask| == |old(alltask)| - 1
    {
      assert Slotted(alltask, t) && SlotOk(alltask, all, |alltask| - 1);
      var i := t.alltaskslot;
      var last := alltask[|alltask| - 1];
      alltask := alltask[i := last][..|alltask| - 1];
      last.alltaskslot := i;
      forall u | u in all - {t} ensures Slotted(alltask, u) {
        assert old(Slotted(alltask, u));
      }
      forall k | 0 <= k < |alltask| ensures SlotOk(alltask, all - {t}, k) {
        assert old(SlotOk(alltask, all, k));
      }
    }

    lemma StayListed(t: Task)
      requires ListsOk(all) && t in all && t.place == Parked
      ensures ListsOk(all - {t})
    {
      assert Listed(t);
      forall k | 0 <= k < |runqueue| ensures runqueue[k] in all - {t} && InTurn(k) {
        assert InTurn(k) && runqueue[k] in runqueue;
      }
    }

    /** The scheduler's end of a task that exits: it is freed, or kept in the cache as an ordinary task. */
    method Exit() returns (t: Task)
      requires Valid() && running != null
      modifies this, all`alltaskslot, running`place, running`cached, running`system
      ensures Valid() && t == old(running) && running == null && runqueue == old(runqueue) && nswitch == old(nswitch)
      ensures if t.cacheable && |old(cache)| < TASKS_CACHE_MAX then
                cache == old(cache) + [t] && all == old(all) && ordinary == old(ordinary) + {t}
              else
                cache == old(cache) && all == old(all) - {t} && ordinary == old(ordinary) - {t}
    {
      t := Sleep();
      if !t.cacheable || cachecount >= TASKS_CACHE_MAX {
        Free(t);
      } else {
        Reset(t);
        Keep(t);
      }
    }

    /** A system task counts again. */
    method Reset(t: Task)
      requires CountsOk(all, ordinary, taskcount) && t in all
      modifies this`taskcount, this`ordinary, t`system
      ensures unchanged(`runqueue, `running, `nswitch, `all, `cache)
      ensures CountsOk(all, ordinary, taskcount) && !t.system && ordinary == old(ordinary) + {t}
    {
      assert Counted(ordinary, t);
      if t.system {
        taskcount := taskcount + 1;
      }
      t.system := false;
      ordinary := ordinary + {t};
      forall u | u in all ensures Counted(ordinary, u) {
        assert old(Counted(ordinary, u));
      }
    }

    method Keep(t: Task)
      requires Valid() && t in all && t.place == Parked && t.cacheable && !t.system
      modifies this`cache, this`cachecount, t`place, t`cached
      ensures Valid() && cache == old(cache) + [t]
      ensures unchanged(`runqueue, `running, `nswitch, `all, `ordinary)
    {
      assert Listed(t);
      t.cached := true;
      t.place := Cached;
      cache := cache + [t];
      cachecount := cachecount + 1;
      forall u | u in all ensures Listed(u) {
        assert old(Listed(u));
      }
      forall u | u in all ensures Counted(ordinary, u) {
        assert old(Counted(ordinary, u));
      }
      forall k | 0 <= k < |runqueue| ensures runqueue[k] in all && InTurn(k) {
        assert old(InTurn(k));
      }
    }

    method FreeNext()
      requires Valid() && cache != []
      modifies this`cache, this`cachecount, this`alltask, this`taskcount, this`all, this`ordinary
      modifies all`alltaskslot, all`place, all`cached
      ensures Valid() && unchanged(`runqueue, `running, `nswitch)
      ensures cache == old(cache)[1..]
      ensures all == old(all) - {old(cache)[0]} && ordinary == old(ordinary) - {old(cache)[0]}
    {
      var t := cache[0];
      assert Listed(t);
      TakeCached(t);
      Free(t);
    }

    /** taskcachefree: every cached task is freed and no other one. */
    method CacheFree()
      requires Valid()
      modifies this, all`alltaskslot, all`place, all`cached
      ensures Valid() && cache == [] && cachecount == 0 && runqueue == old(runqueue) && running == old(running)
      ensures forall t :: t in all <==> t in old(all) && t !in old(cache)
      ensures forall t :: t in ordinary <==> t in old(ordinary) && t !in old(cache)
    {
      ghost var q, k := cache, 0;
      while cache != []
        invariant Valid() && runqueue == old(runqueue) && running == old(running)
        invariant 0 <= k <= |q| && cache == q[k..]
        invariant forall t :: t in all <==> t in old(all) && t !in q[..k]
        invariant forall t :: t in ordinary <==> t in old(ordinary) && t !in q[..k]
        decreases |cache|
      {
        assert q[..k + 1] == q[..k] + [cache[0]];
        FreeNext();
        k := k + 1;
      }
      assert q[..k] == q;
      cachecount := 0;
    }

    /** The scheduler with nothing to run: it has freed the cache, and gives up in good order exactly if no ordinary
        task is left asleep. */
    method Idle() returns (stalled: int)
      requires Valid() && running == null && runqueue == []
      modifies this, all`alltaskslot, all`place, all`cached
      ensures Valid() && stalled == taskcount
      ensures stalled == 0 <==> forall t :: t in all ==> t.system
      ensures forall t :: t in all ==> t.place == Parked
    {
      CacheFree();
      stalled := taskcount;
      forall t | t in all ensures t.place == Parked && (t in ordinary <==> !t.system) {
        assert Listed(t) && Counted(ordinary, t);
      }
    }
  }
}
