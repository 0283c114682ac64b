/** The buffer pool of vmware_kernel/mpp/bufpool.c, which keeps a reserve for getters that must not be starved. A
    call of the model is what a thread does under the pool's lock, so a run is any sequence of calls. */
module ReservePool {
  import opened Common

  type Buf = nat
  type Thread = nat

  datatype Limits = Limits(nbufs: nat, reserve: nat, nmax: nat)

  /** The pool and the buffers handed out, by the kind of getter that has them. made counts the buffers ever
      allocated, and waiting holds the getters in the wait loop. */
  datatype Pool = Pool(free: seq<Buf>, owned: int, issued: int, ordinary: set<Buf>, reserved: set<Buf>, made: nat,
                       waiting: map<Thread, bool>)

  predicate MayAllocate(p: Pool, z: Limits, res: bool) {
    p.owned + z.reserve < z.nmax || (res && z.reserve != 0 && p.owned < z.nmax)
  }

  /** The buffer a getter finds: a free one, or a new one if it may allocate. */
  function Found(p: Pool, z: Limits, res: bool): Option<Buf> {
    if p.free != [] then Some(p.free[0]) else if MayAllocate(p, z, res) then Some(p.made) else None
  }

  /** When the wait loop is left. It does not look at the free list. */
  predicate LeavesWait(p: Pool, z: Limits, res: bool) {
    (res && p.owned < z.nmax) || p.owned + z.reserve < z.nmax
  }

  /** What is left when it is taken from the free list or made. */
  function Picked(p: Pool): Pool {
    if p.free != [] then p.(free := p.free[1..]) else p.(owned := p.owned + 1, made := p.made + 1)
  }

  function Taken(p: Pool, z: Limits, res: bool): Pool {
    match Found(p, z, res)
    case None => p
    case Some(b) =>
      var n := Picked(p);
      if res then n.(issued := p.issued + 1, reserved := p.reserved + {b})
      else n.(issued := p.issued + 1, ordinary := p.ordinary + {b})
  }

  function PutBack(p: Pool, z: Limits, b: Buf): Pool {
    var n := p.(issued := p.issued - 1, ordinary := p.ordinary - {b}, reserved := p.reserved - {b});
    if p.owned <= z.nbufs then n.(free := p.free + [b]) else n.(owned := p.owned - 1)
  }

  datatype Call = Get(t: Thread, res: bool, noblock: bool) | Recheck(t: Thread) | Put(b: Buf)

  predicate Enabled(p: Pool, z: Limits, c: Call) {
    match c
    case Get(t, res, _) => t !in p.waiting && (res ==> z.reserve != 0)
    case Recheck(t) => t in p.waiting && (p.waiting[t] ==> z.reserve != 0)
    case Put(b) => b in p.ordinary || b in p.reserved
  }

  function Next(p: Pool, z: Limits, c: Call): Pool
    requires Enabled(p, z, c)
  {
    match c
    case Get(t, res, noblock) =>
      if Found(p, z, res).None? && !noblock then p.(waiting := p.waiting[t := res]) else Taken(p, z, res)
    case Recheck(t) =>
      var res := p.waiting[t];
      if LeavesWait(p, z, res) && Found(p, z, res).Some? then
        Taken(p, z, res).(waiting := p.waiting - {t})
      else
        p
    case Put(b) => PutBack(p, z, b)
  }

  predicate Possible(p: Pool, z: Limits, calls: seq<Call>)
    decreases |calls|
  {
    calls == [] || (Enabled(p, z, calls[0]) && Possible(Next(p, z, calls[0]), z, calls[1..]))
  }

  function Run(p: Pool, z: Limits, calls: seq<Call>): Pool
    requires Possible(p, z, calls)
    decreases |calls|
  {
    if calls == [] then p else Run(Next(p, z, calls[0]), z, calls[1..])
  }

  predicate Sound(z: Limits) {
    0 < z.nbufs <= z.nmax
  }

  function Start(z: Limits): Pool {
    Pool(seq(z.nbufs, i requires 0 <= i => i), z.nbufs, 0, {}, {}, z.nbufs, map[])
  }

  /** Every buffer made and not given back to the heap is in one place, and the counters count them. */
  ghost predicate Conserved(p: Pool) {
    && (forall i, j :: 0 <= i < j < |p.free| ==> p.free[i] != p.free[j])
    && (forall i {:trigger p.free[i]} :: 0 <= i < |p.free| ==>
      p.free[i] < p.made && p.free[i] !in p.ordinary && p.free[i] !in p.reserved)
    && p.ordinary !! p.reserved
    && (forall b :: b in p.ordinary || b in p.reserved ==> b < p.made)
    && p.issued == |p.ordinary| + |p.reserved| && p.owned == p.issued + |p.free|
  }

  ghost predicate Inv(p: Pool, z: Limits) {
    && Conserved(p)
    && z.nbufs <= p.owned <= z.nmax
    && (p.owned > z.nbufs ==> p.free == [])
    && (z.nbufs + z.reserve <= z.nmax ==> |p.ordinary| + z.reserve <= z.nmax)
    && (forall t :: t in p.waiting && p.waiting[t] ==> z.reserve != 0)
  }

  lemma TakenKeepsInv(p: Pool, z: Limits, res: bool)
    requires Sound(z) && Inv(p, z)
    ensures Inv(Taken(p, z, res), z)
  {
  }

  lemma PutBackKeepsInv(p: Pool, z: Limits, b: Buf)
    requires Sound(z) && Inv(p, z) && (b in p.ordinary || b in p.reserved)
    ensures Inv(PutBack(p, z, b), z)
  {
    if b in p.ordinary {
      assert p.reserved - {b} == p.reserved;
    } else {
      assert p.ordinary - {b} == p.ordinary;
    }
  }

  lemma NextKeepsInv(p: Pool, z: Limits, c: Call)
    requires Sound(z) && Inv(p, z) && Enabled(p, z, c)
    ensures Inv(Next(p, z, c), z)
  {
    match c
    case Get(t, res, noblock) => TakenKeepsInv(p, z, res);
    case Recheck(t) => TakenKeepsInv(p, z, p.waiting[t]);
    case Put(b) => PutBackKeepsInv(p, z, b);
  }

  lemma {:induction false} RunKeepsInv(p: Pool, z: Limits, calls: seq<Call>)
    requires Sound(z) && Inv(p, z) && Possible(p, z, calls)
    ensures Inv(Run(p, z, calls), z)
    decreases |calls|
  {
    if calls != [] {
      NextKeepsInv(p, z, calls[0]);
      RunKeepsInv(Next(p, z, calls[0]), z, calls[1..]);
    }
  }

  /** The reserve guarantee, over every run: the ordinary getters never hold more than nmax - reserve buffers, so a
      reserve getter does not block while fewer than reserve buffers are out to its like. */
  lemma {:induction false} ReserveIsKept(z: Limits, calls: seq<Call>)
    requires Sound(z) && z.nbufs + z.reserve <= z.nmax && Possible(Start(z), z, calls)
    ensures var p := Run(Start(z), z, calls);
            && Conserved(p)
            && |p.ordinary| + z.reserve <= z.nmax
            && (|p.reserved| < z.reserve ==> Found(p, z, true).Some?)
  {
    RunKeepsInv(Start(z), z, calls);
  }

  /** Over every run: a getter finds nothing exactly if no buffer is free and as many are out as it may see out,
      nmax for a reserve getter and reserve less for an ordinary one. */
  lemma {:induction false} RefusedOnlyWhenFull(z: Limits, calls: seq<Call>, res: bool)
    requires Sound(z) && Possible(Start(z), z, calls) && (res ==> z.reserve != 0)
    ensures var p := Run(Start(z), z, calls);
            Found(p, z, res).None? <==> p.free == [] && p.issued + (if res then 0 else z.reserve) >= z.nmax
  {
    RunKeepsInv(Start(z), z, calls);
  }

  /** t is in the wait loop although there is a buffer for it. */
  predicate Overlooked(p: Pool, z: Limits, t: Thread) {
    t in p.waiting && Found(p, z, p.waiting[t]).Some? && !LeavesWait(p, z, p.waiting[t])
  }

  function Room(z: Limits, res: bool): nat {
    z.nbufs + (if res then 0 else z.reserve)
  }

  /** The wait loop only looks at the room left to allocate, and owned never falls below nbufs. If that leaves room
      no waiting getter ever overlooks a buffer, in any run; if it does not, some run ends with one that does. */
  lemma WithRoomNobodyOverlooks(z: Limits, calls: seq<Call>, t: Thread)
    requires Sound(z) && Possible(Start(z), z, calls) && t in Run(Start(z), z, calls).waiting
    requires Room(z, Run(Start(z), z, calls).waiting[t]) < z.nmax
    ensures !Overlooked(Run(Start(z), z, calls), z, t)
  {
    RunKeepsInv(Start(z), z, calls);
  }

  lemma WithoutRoomSomebodyOverlooks(z: Limits, res: bool) returns (calls: seq<Call>, t: Thread)
    requires Sound(z) && (res ==> z.reserve != 0) && Room(z, res) >= z.nmax
    ensures Possible(Start(z), z, calls)
    ensures var p := Run(Start(z), z, calls); Overlooked(p, z, t) && p.waiting[t] == res
  {
    calls := Drained(z, z.nbufs);
    t := 0;
    var p := Run(Start(z), z, calls);
    var last := [Get(t, res, false), Put(0)];
    var q := Next(p, z, last[0]);
    assert last[1..] == [Put(0)] && last[1..][1..] == [];
    assert Possible(q, z, last[1..]);
    assert Run(q, z, last[1..]) == Next(q, z, Put(0));
    RunAppends(Start(z), z, calls, last);
    calls := calls + last;
  }

  /** Ordinary getters take the first k buffers. */
  lemma {:induction false} Drained(z: Limits, k: nat) returns (calls: seq<Call>)
    requires Sound(z) && k <= z.nbufs
    ensures Possible(Start(z), z, calls)
    ensures var p := Run(Start(z), z, calls);
            && p.free == Start(z).free[k..] && p.owned == z.nbufs && p.waiting == map[] && (k > 0 ==> 0 in p.ordinary)
  {
    calls := [];
    if k > 0 {
      calls := Drained(z, k - 1);
      var one := [Get(0, false, false)];
      RunAppends(Start(z), z, calls, one);
      calls := calls + one;
    }
  }

  lemma {:induction false} RunAppends(p: Pool, z: Limits, a: seq<Call>, b: seq<Call>)
    requires Possible(p, z, a) && Possible(Run(p, z, a), z, b)
    ensures Possible(p, z, a + b) && Run(p, z, a + b) == Run(Run(p, z, a), z, b)
    decreases |a|
  {
    if a == [] {
      assert a + b == b;
    } else {
      RunAppends(Next(p, z, a[0]), z, a[1..], b);
      assert (a + b)[1..] == a[1..] + b;
    }
  }

  lemma WaiterStays(p: Pool, z: Limits, c: Call, t: Thread)
    requires Sound(z) && Inv(p, z) && Enabled(p, z, c) && t in p.waiting && Room(z, p.waiting[t]) >= z.nmax
    ensures t in Next(p, z, c).waiting && Next(p, z, c).waiting[t] == p.waiting[t]
  {
  }

  /** Without that room, a getter that waits once waits for ever, whatever the other threads do. */
  lemma {:induction false} WithoutRoomWaitersStay(p: Pool, z: Limits, calls: seq<Call>, t: Thread)
    requires Sound(z) && Inv(p, z) && Possible(p, z, calls) && t in p.waiting
    requires Room(z, p.waiting[t]) >= z.nmax
    ensures var q := Run(p, z, calls); t in q.waiting && q.waiting[t] == p.waiting[t]
    decreases |calls|
  {
    if calls != [] {
      NextKeepsInv(p, z, calls[0]);
      WaiterStays(p, z, calls[0], t);
      WithoutRoomWaitersStay(Next(p, z, calls[0]), z, calls[1..], t);
    }
  }

  /** The pool in place. freelist and the counters are fields; who has which buffer is known to the proof only. */
  class BufferPool {
    const z: Limits
    var freelist: seq<Buf>
    var owned: int
    var issued: int
    var made: nat
    ghost var ordinary: set<Buf>
    ghost var reserved: set<Buf>
    ghost var waiting: map<Thread, bool>

    ghost function State(): Pool
      reads this
    {
      Pool(freelist, owned, issued, ordinary, reserved, made, waiting)
    }

    /** bufpool_init_reserve */
    constructor (z: Limits)
      requires Sound(z)
      ensures this.z == z && State() == Start(z)
      ensures |freelist| == owned == z.nbufs && issued == 0 && ordinary == reserved == {} && waiting == map[]
    {
      this.z := z;
      freelist, owned, issued, made := [], 0, 0, 0;
      ordinary, reserved, waiting := {}, {}, map[];
      new;
      while owned < z.nbufs
        invariant 0 <= owned <= z.nbufs && made == owned && issued == 0
        invariant freelist == seq(owned, i requires 0 <= i => i)
        invariant ordinary == reserved == {} && waiting == map[]
      {
        freelist := freelist + [made];
        owned, made := owned + 1, made + 1;
      }
    }

    /** A buffer is handed out. */
    method Book(b: Buf, res: bool)
      modifies this`issued, this`reserved, this`ordinary
      ensures issued == old(issued) + 1
      ensures reserved == if res then old(reserved) + {b} else old(reserved)
      ensures ordinary == if res then old(ordinary) else old(ordinary) + {b}
    {
      issued := issued + 1;
      if res {
        reserved := reserved + {b};
      } else {
        ordinary := ordinary + {b};
      }
    }

    /** The body of the outer loop of _bufpool_get, up to the wait: a buffer, or none. */
    method TryTake(res: bool) returns (b: Option<Buf>)
      requires Sound(z) && Inv(State(), z)
      modifies this
      ensures b == old(Found(State(), z, res)) && State() == old(Taken(State(), z, res)) && Inv(State(), z)
    {
      TakenKeepsInv(State(), z, res);
      b := Pick(res);
      if b.Some? {
        Book(b.value, res);
      }
    }

    method Pick(res: bool) returns (b: Option<Buf>)
      modifies this`freelist, this`owned, this`made
      ensures b == old(Found(State(), z, res)) && State() == old(if b.Some? then Picked(State()) else State())
    {
      if freelist != [] {
        b := Some(freelist[0]);
        freelist := freelist[1..];
      } else if owned + z.reserve < z.nmax || (res && z.reserve != 0 && owned < z.nmax) {
        b := Some(made);
        owned, made := owned + 1, made + 1;
      } else {
        b := None;
      }
    }

    /** _bufpool_get from the lock to its return or its wait: no buffer and noblock is the error. */
    method Acquire(t: Thread, res: bool, noblock: bool) returns (b: Option<Buf>, waits: bool)
      requires Sound(z) && Inv(State(), z) && Enabled(State(), z, Get(t, res, noblock))
      modifies this
      ensures State() == old(Next(State(), z, Get(t, res, noblock))) && Inv(State(), z)
      ensures b.Some? <==>
        old(freelist != [] || owned + z.reserve < z.nmax || (res && z.reserve != 0 && owned < z.nmax))
      ensures b.Some? ==> b.value !in old(ordinary + reserved) && issued == old(issued) + 1 && waiting == old(waiting)
      ensures b.Some? && res ==> reserved == old(reserved) + {b.value} && ordinary == old(ordinary)
      ensures b.Some? && !res ==> ordinary == old(ordinary) + {b.value} && reserved == old(reserved)
      ensures b.Some? && old(freelist) != [] ==>
        b.value == old(freelist)[0] && freelist == old(freelist)[1..] && owned == old(owned)
      ensures b.Some? && old(freelist) == [] ==> freelist == [] && owned == old(owned) + 1
      ensures waits <==> b.None? && !noblock
      ensures b.None? ==> waiting == if waits then old(waiting)[t := res] else old(waiting)
      ensures b.None? ==> freelist == old(freelist) && owned == old(owned) && issued == old(issued)
      ensures b.None? ==> ordinary == old(ordinary) && reserved == old(reserved)
    {
      NextKeepsInv(State(), z, Get(t, res, noblock));
      b := TryTake(res);
      waits := b.None? && !noblock;
      if waits {
        waiting := waiting[t := res];
      }
    }

    /** _bufpool_get behind vmk_WorldWait: the inner loop, and if it ends the outer one again. */
    method Reawake(t: Thread, res: bool) returns (b: Option<Buf>)
      requires Sound(z) && Inv(State(), z) && Enabled(State(), z, Recheck(t)) && waiting[t] == res
      modifies this
      ensures State() == old(Next(State(), z, Recheck(t))) && Inv(State(), z)
      ensures b.Some? <==> old((res && owned < z.nmax) || owned + z.reserve < z.nmax)
      ensures b.Some? ==> b.value !in old(ordinary + reserved) && issued == old(issued) + 1
      ensures b.Some? && res ==> reserved == old(reserved) + {b.value} && ordinary == old(ordinary)
      ensures b.Some? && !res ==> ordinary == old(ordinary) + {b.value} && reserved == old(reserved)
      ensures waiting == if b.Some? then old(waiting) - {t} else old(waiting)
    {
      NextKeepsInv(State(), z, Recheck(t));
      var leaves := false;
      if res && owned < z.nmax {
        leaves := true;
      } else if owned + z.reserve < z.nmax {
        leaves := true;
      }
      if !leaves {
        return None;
      }
      b := TryTake(res);
      waiting := waiting - {t};
    }

    /** bufpool_put: its asserts hold. */
    method Release(b: Buf)
      requires Sound(z) && Inv(State(), z) && (b in ordinary || b in reserved)
      modifies this
      ensures State() == old(PutBack(State(), z, b)) && Inv(State(), z)
      ensures issued == old(issued) - 1 && ordinary == old(ordinary) - {b} && reserved == old(reserved) - {b}
      ensures if old(owned) <= z.nbufs then freelist == old(freelist) + [b] && owned == old(owned)
              else freelist == old(freelist) && owned == old(owned) - 1
    {
      PutBackKeepsInv(State(), z, b);
      issued := issued - 1;
      ordinary, reserved := ordinary - {b}, reserved - {b};
      assert issued >= 0;
      if owned <= z.nbufs {
        freelist := freelist + [b];
      } else {
        owned := owned - 1;
        assert owned >= 0;
        assert owned >= z.nbufs;
      }
    }
  }
}
