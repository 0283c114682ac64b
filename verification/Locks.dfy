/** QLock, RWLock and Rendez of iosplitter/libtask/qlock.c and rendez.c. One call of the model is the code a task
    runs without giving up the processor, so a run is any sequence of calls, in any order and by any tasks, that
    the tasks are awake to make. */
module Locks {
  import opened Common

  type Task = nat

  datatype Owner = Nobody | Held(task: Task)

  /** A QLock and what its tasks can tell of its past: woken holds the waiters the lock was handed to that have not
      run since, robbed those of them under whose feet it was released again, arrivals and grants the tasks that
      asked for the lock, and got it, in that order. */
  datatype QState = QState(owner: Owner, waiting: seq<Task>, woken: set<Task>, robbed: set<Task>,
                           arrivals: seq<Task>, grants: seq<Task>)

  datatype QCall = Lock(task: Task) | TryLock(task: Task) | Unlock | Resume(task: Task)

  predicate QEnabled(s: QState, c: QCall) {
    match c
    case Lock(t) => t !in s.waiting && t !in s.woken
    case TryLock(t) => t !in s.waiting && t !in s.woken
    case Unlock => s.owner.Held?
    case Resume(t) => t in s.woken
  }

  function QLocked(s: QState, t: Task, block: bool): QState {
    if s.owner == Nobody then
      s.(owner := Held(t), arrivals := s.arrivals + [t], grants := s.grants + [t])
    else if block then
      s.(waiting := s.waiting + [t], arrivals := s.arrivals + [t])
    else
      s
  }

  function QUnlocked(s: QState): QState
    requires s.owner.Held?
  {
    var robbed := if s.owner.task in s.woken then s.robbed + {s.owner.task} else s.robbed;
    if s.waiting == [] then
      s.(owner := Nobody, robbed := robbed)
    else
      var t := s.waiting[0];
      s.(owner := Held(t), waiting := s.waiting[1..], woken := s.woken + {t}, robbed := robbed,
         grants := s.grants + [t])
  }

  function QResumed(s: QState, t: Task): QState {
    s.(woken := s.woken - {t}, robbed := s.robbed - {t})
  }

  function QNext(s: QState, c: QCall): QState
    requires QEnabled(s, c)
  {
    match c
    case Lock(t) => QLocked(s, t, true)
    case TryLock(t) => QLocked(s, t, false)
    case Unlock => QUnlocked(s)
    case Resume(t) => QResumed(s, t)
  }

  predicate QPossible(s: QState, calls: seq<QCall>)
    decreases |calls|
  {
    calls == [] || (QEnabled(s, calls[0]) && QPossible(QNext(s, calls[0]), calls[1..]))
  }

  function QRun(s: QState, calls: seq<QCall>): QState
    requires QPossible(s, calls)
    decreases |calls|
  {
    if calls == [] then s else QRun(QNext(s, calls[0]), calls[1..])
  }

  const Q_FREE := QState(Nobody, [], {}, {}, [], [])

  predicate QInv(s: QState) {
    && Distinct(s.waiting) && (forall t :: t in s.waiting ==> t !in s.woken)
    && (s.waiting != [] ==> s.owner.Held?)
    && s.arrivals == s.grants + s.waiting
    && (s.owner.Held? ==> s.grants != [] && s.grants[|s.grants| - 1] == s.owner.task)
    && s.robbed <= s.woken
    && (forall t :: t in s.woken ==> (s.owner == Held(t) <==> t !in s.robbed))
  }

  lemma QNextKeepsInv(s: QState, c: QCall)
    requires QInv(s) && QEnabled(s, c)
    ensures QInv(QNext(s, c))
  {
  }

  /** The tasks that ask for the lock in a run and do not give up. */
  function QAsked(s: QState, calls: seq<QCall>): seq<Task>
    requires QPossible(s, calls)
    decreases |calls|
  {
    if calls == [] then [] else
      (match calls[0]
       case Lock(t) => [t]
       case TryLock(t) => if s.owner == Nobody then [t] else []
       case _ => [])
      + QAsked(QNext(s, calls[0]), calls[1..])
  }

  lemma {:induction false} QRunArrivals(s: QState, calls: seq<QCall>)
    requires QPossible(s, calls)
    ensures QRun(s, calls).arrivals == s.arrivals + QAsked(s, calls)
    decreases |calls|
  {
    if calls != [] { QRunArrivals(QNext(s, calls[0]), calls[1..]); }
  }

  /** Over every run: the tasks are given the lock in the order they asked for it, a free lock has nobody waiting,
      and a waiter that was handed the lock resumes as its owner (the abort is not reached) exactly if the lock
      was not released between the hand-off and its turn to run. */
  lemma {:induction false} QRunIsFifo(calls: seq<QCall>)
    requires QPossible(Q_FREE, calls)
    ensures var s := QRun(Q_FREE, calls);
            && QAsked(Q_FREE, calls) == s.grants + s.waiting
            && (s.owner == Nobody ==> s.waiting == [] && QAsked(Q_FREE, calls) == s.grants)
            && (s.owner.Held? ==> s.grants != [] && s.grants[|s.grants| - 1] == s.owner.task)
            && forall t :: t in s.woken ==> (s.owner == Held(t) <==> t !in s.robbed)
  {
    QRunKeepsInv(Q_FREE, calls);
    QRunArrivals(Q_FREE, calls);
  }

  lemma {:induction false} QRunKeepsInv(s: QState, calls: seq<QCall>)
    requires QInv(s) && QPossible(s, calls)
    ensures QInv(QRun(s, calls))
    decreases |calls|
  {
    if calls != [] {
      QNextKeepsInv(s, calls[0]);
      QRunKeepsInv(QNext(s, calls[0]), calls[1..]);
    }
  }

  /** Nobody releases the lock on behalf of an owner that has not run since it was handed the lock. */
  predicate QPatient(s: QState, calls: seq<QCall>)
    requires QPossible(s, calls)
    decreases |calls|
  {
    calls == [] || ((calls[0].Unlock? ==> s.owner.task !in s.woken) && QPatient(QNext(s, calls[0]), calls[1..]))
  }

  lemma {:induction false} QPatientRunNeverAborts(s: QState, calls: seq<QCall>)
    requires QInv(s) && s.robbed == {} && QPossible(s, calls) && QPatient(s, calls)
    ensures var z := QRun(s, calls);
            z.robbed == {} && forall t :: t in z.woken ==> z.owner == Held(t)
    decreases |calls|
  {
    if calls != [] {
      QNextKeepsInv(s, calls[0]);
      QPatientRunNeverAborts(QNext(s, calls[0]), calls[1..]);
    }
  }

  /** Two releases in a row, which the code allows, and the waiter between them aborts. */
  lemma QImpatientRunAborts(owner: Task, waiter: Task)
    requires owner != waiter
    ensures var calls := [Lock(owner), Lock(waiter), Unlock, Unlock];
            && QPossible(Q_FREE, calls)
            && waiter in QRun(Q_FREE, calls).woken && QRun(Q_FREE, calls).owner != Held(waiter)
  {
    var calls := [Lock(owner), Lock(waiter), Unlock, Unlock];
    var s1 := QNext(Q_FREE, calls[0]);
    var s2 := QNext(s1, calls[1]);
    var s3 := QNext(s2, calls[2]);
    assert calls[1..][1..] == [Unlock, Unlock];
    assert calls[1..][1..][1..] == [Unlock];
    assert QPossible(s3, [Unlock]);
    assert QPossible(s2, [Unlock, Unlock]);
    assert QPossible(s1, calls[1..]);
    assert QRun(s3, [Unlock]) == QNext(s3, Unlock);
    assert QRun(s2, [Unlock, Unlock]) == QNext(s3, Unlock);
  }

  class QLock {
    var owner: Owner
    var waiting: seq<Task>
    ghost var woken: set<Task>
    ghost var robbed: set<Task>
    ghost var arrivals: seq<Task>
    ghost var grants: seq<Task>

    constructor ()
      ensures State() == Q_FREE
    {
      owner, waiting := Nobody, [];
      woken, robbed, arrivals, grants := {}, {}, [], [];
    }

    ghost function State(): QState
      reads this
    {
      QState(owner, waiting, woken, robbed, arrivals, grants)
    }

    /** _qlock up to taskswitch: a task that did not get the lock and may block is asleep afterwards. */
    method Acquire(self: Task, block: bool) returns (got: bool)
      requires QInv(State()) && QEnabled(State(), Lock(self))
      modifies this
      ensures State() == QLocked(old(State()), self, block) && QInv(State())
      ensures got <==> old(owner) == Nobody
      ensures owner == if got then Held(self) else old(owner)
      ensures waiting == if !got && block then old(waiting) + [self] else old(waiting)
      ensures woken == old(woken) && robbed == old(robbed)
    {
      QNextKeepsInv(State(), if block then Lock(self) else TryLock(self));
      if owner == Nobody {
        owner := Held(self);
        arrivals, grants := arrivals + [self], grants + [self];
        return true;
      }
      if !block {
        return false;
      }
      waiting := waiting + [self];
      arrivals := arrivals + [self];
      return false;
    }

    /** _qlock after taskswitch: the comparison whose failure aborts. */
    method Continue(self: Task) returns (aborts: bool)
      requires QInv(State()) && self in woken
      modifies this
      ensures State() == QResumed(old(State()), self) && QInv(State())
      ensures aborts <==> self in old(robbed)
      ensures woken == old(woken) - {self} && robbed == old(robbed) - {self}
      ensures owner == old(owner) && waiting == old(waiting)
    {
      QNextKeepsInv(State(), Resume(self));
      aborts := owner != Held(self);
      woken, robbed := woken - {self}, robbed - {self};
    }

    method Release()
      requires QInv(State()) && owner.Held?
      modifies this
      ensures State() == QUnlocked(old(State())) && QInv(State())
      ensures if old(waiting) == [] then owner == Nobody && waiting == [] && woken == old(woken)
              else
                && owner == Held(old(waiting)[0]) && waiting == old(waiting)[1..]
                && woken == old(woken) + {old(waiting)[0]}
    {
      QNextKeepsInv(State(), Unlock);
      if owner.task in woken {
        robbed := robbed + {owner.task};
      }
      if waiting == [] {
        owner := Nobody;
      } else {
        owner := Held(waiting[0]);
        waiting := waiting[1..];
        woken, grants := woken + {owner.task}, grants + [owner.task];
      }
    }
  }

  /** A RWLock. inside holds the tasks that are reading, once for each time they were let in; each side keeps the
      tasks that asked (arrivals) and were let in (grants), in that order. */
  datatype RWState = RWState(readers: nat, writer: Owner, rwaiting: seq<Task>, wwaiting: seq<Task>,
                             inside: multiset<Task>, rArrivals: seq<Task>, rGrants: seq<Task>,
                             wArrivals: seq<Task>, wGrants: seq<Task>)

  datatype RWCall = RLock(task: Task, block: bool) | WLock(task: Task, block: bool) | RUnlock(task: Task) | WUnlock

  predicate Awake(s: RWState, t: Task) {
    t !in s.rwaiting && t !in s.wwaiting
  }

  predicate RWEnabled(s: RWState, c: RWCall) {
    match c
    case RLock(t, _) => Awake(s, t)
    case WLock(t, _) => Awake(s, t)
    case RUnlock(t) => Awake(s, t) && t in s.inside && s.readers > 0
    case WUnlock => s.writer.Held?
  }

  function RLocked(s: RWState, t: Task, block: bool): RWState {
    if s.writer == Nobody && s.wwaiting == [] then
      s.(readers := s.readers + 1, inside := s.inside + multiset{t}, rArrivals := s.rArrivals + [t],
         rGrants := s.rGrants + [t])
    else if block then
      s.(rwaiting := s.rwaiting + [t], rArrivals := s.rArrivals + [t])
    else
      s
  }

  function WLocked(s: RWState, t: Task, block: bool): RWState {
    if s.writer == Nobody && s.readers == 0 then
      s.(writer := Held(t), wArrivals := s.wArrivals + [t], wGrants := s.wGrants + [t])
    else if block then
      s.(wwaiting := s.wwaiting + [t], wArrivals := s.wArrivals + [t])
    else
      s
  }

  /** The tail both releases share: a lock with no readers goes to the first waiting writer. */
  function HandToWriter(s: RWState): RWState {
    if s.readers == 0 && s.wwaiting != [] then
      s.(writer := Held(s.wwaiting[0]), wwaiting := s.wwaiting[1..], wGrants := s.wGrants + [s.wwaiting[0]])
    else
      s
  }

  function RUnlocked(s: RWState, t: Task): RWState
    requires s.readers > 0
  {
    HandToWriter(s.(readers := s.readers - 1, inside := s.inside - multiset{t}))
  }

  function WUnlocked(s: RWState): RWState
    requires s.writer.Held?
  {
    HandToWriter(s.(writer := Nobody, readers := s.readers + |s.rwaiting|, rwaiting := [],
                    inside := s.inside + multiset(s.rwaiting), rGrants := s.rGrants + s.rwaiting))
  }

  function RWNext(s: RWState, c: RWCall): RWState
    requires RWEnabled(s, c)
  {
    match c
    case RLock(t, block) => RLocked(s, t, block)
    case WLock(t, block) => WLocked(s, t, block)
    case RUnlock(t) => RUnlocked(s, t)
    case WUnlock => WUnlocked(s)
  }

  predicate RWPossible(s: RWState, calls: seq<RWCall>)
    decreases |calls|
  {
    calls == [] || (RWEnabled(s, calls[0]) && RWPossible(RWNext(s, calls[0]), calls[1..]))
  }

  function RWRun(s: RWState, calls: seq<RWCall>): RWState
    requires RWPossible(s, calls)
    decreases |calls|
  {
    if calls == [] then s else RWRun(RWNext(s, calls[0]), calls[1..])
  }

  const RW_FREE := RWState(0, Nobody, [], [], multiset{}, [], [], [], [])

  predicate RWInv(s: RWState) {
    RWQueues(s) && s.readers == |s.inside|
  }

  predicate RWQueues(s: RWState) {
    && (s.writer.Held? ==> s.readers == 0)
    && (s.rwaiting != [] ==> s.writer.Held? || s.wwaiting != [])
    && (s.wwaiting != [] ==> s.writer.Held? || s.readers > 0)
    && s.rArrivals == s.rGrants + s.rwaiting
    && s.wArrivals == s.wGrants + s.wwaiting
  }

  lemma RWNextKeepsQueues(s: RWState, c: RWCall)
    requires RWQueues(s) && RWEnabled(s, c)
    ensures RWQueues(RWNext(s, c))
  {
    match c
    case RLock(_, _) =>
    case WLock(_, _) =>
    case RUnlock(_) =>
    case WUnlock =>
  }

  lemma RWNextKeepsCount(s: RWState, c: RWCall)
    requires RWEnabled(s, c) && s.readers == |s.inside|
    ensures RWNext(s, c).readers == |RWNext(s, c).inside|
  {
    match c
    case RLock(t, _) => assert |s.inside + multiset{t}| == |s.inside| + 1;
    case WLock(_, _) =>
    case RUnlock(t) => assert |s.inside - multiset{t}| == |s.inside| - 1;
    case WUnlock => assert |s.inside + multiset(s.rwaiting)| == |s.inside| + |s.rwaiting|;
  }

  lemma RWNextKeepsInv(s: RWState, c: RWCall)
    requires RWInv(s) && RWEnabled(s, c)
    ensures RWInv(RWNext(s, c))
  {
    RWNextKeepsQueues(s, c);
    RWNextKeepsCount(s, c);
  }

  lemma {:induction false} RWRunKeepsInv(s: RWState, calls: seq<RWCall>)
    requires RWInv(s) && RWPossible(s, calls)
    ensures RWInv(RWRun(s, calls))
    decreases |calls|
  {
    if calls != [] {
      RWNextKeepsInv(s, calls[0]);
      RWRunKeepsInv(RWNext(s, calls[0]), calls[1..]);
    }
  }

  /** The task that asks to read in a call and does not give up, and the one that asks to write. */
  function RAsks(s: RWState, c: RWCall): seq<Task> {
    if c.RLock? && (c.block || (s.writer == Nobody && s.wwaiting == [])) then [c.task] else []
  }

  function WAsks(s: RWState, c: RWCall): seq<Task> {
    if c.WLock? && (c.block || (s.writer == Nobody && s.readers == 0)) then [c.task] else []
  }

  /** All those of a run, and all that leave. */
  function RAsked(s: RWState, calls: seq<RWCall>): seq<Task>
    requires RWPossible(s, calls)
    decreases |calls|
  {
    if calls == [] then [] else RAsks(s, calls[0]) + RAsked(RWNext(s, calls[0]), calls[1..])
  }

  function WAsked(s: RWState, calls: seq<RWCall>): seq<Task>
    requires RWPossible(s, calls)
    decreases |calls|
  {
    if calls == [] then [] else WAsks(s, calls[0]) + WAsked(RWNext(s, calls[0]), calls[1..])
  }

  function Left(calls: seq<RWCall>): multiset<Task> {
    if calls == [] then multiset{} else Leaves(calls[0]) + Left(calls[1..])
  }

  lemma RWNextArrivals(s: RWState, c: RWCall)
    requires RWEnabled(s, c)
    ensures RWNext(s, c).rArrivals == s.rArrivals + RAsks(s, c) && RWNext(s, c).wArrivals == s.wArrivals + WAsks(s, c)
  {
  }

  lemma {:induction false} RWRunArrivals(s: RWState, calls: seq<RWCall>)
    requires RWPossible(s, calls)
    ensures RWRun(s, calls).rArrivals == s.rArrivals + RAsked(s, calls)
    ensures RWRun(s, calls).wArrivals == s.wArrivals + WAsked(s, calls)
    decreases |calls|
  {
    if calls != [] {
      RWNextArrivals(s, calls[0]);
      RWRunArrivals(RWNext(s, calls[0]), calls[1..]);
    }
  }

  /** The task that leaves in a call. */
  function Leaves(c: RWCall): multiset<Task> {
    if c.RUnlock? then multiset{c.task} else multiset{}
  }

  /** The readers let in from s to z that are not back out. */
  ghost predicate InsideOf(s: RWState, z: RWState, left: multiset<Task>) {
    z.inside + left + multiset(s.rGrants) == s.inside + multiset(z.rGrants)
  }

  lemma HandToWriterLeavesReaders(s: RWState)
    ensures HandToWriter(s).inside == s.inside && HandToWriter(s).rGrants == s.rGrants
  {
  }

  lemma GrantedGoIn(s: RWState, c: RWCall)
    requires RWEnabled(s, c)
    ensures InsideOf(s, RWNext(s, c), Leaves(c))
  {
    match c
    case RLock(t, _) => assert multiset(s.rGrants + [t]) == multiset(s.rGrants) + multiset{t};
    case WLock(_, _) =>
    case RUnlock(t) =>
      HandToWriterLeavesReaders(s.(readers := s.readers - 1, inside := s.inside - multiset{t}));
      assert s.inside - multiset{t} + multiset{t} == s.inside;
    case WUnlock =>
      HandToWriterLeavesReaders(s.(writer := Nobody, readers := s.readers + |s.rwaiting|, rwaiting := [],
                                   inside := s.inside + multiset(s.rwaiting), rGrants := s.rGrants + s.rwaiting));
      assert multiset(s.rGrants + s.rwaiting) == multiset(s.rGrants) + multiset(s.rwaiting);
  }

  lemma InsideAdds(s: RWState, n: RWState, z: RWState, a: multiset<Task>, b: multiset<Task>)
    requires InsideOf(s, n, a) && InsideOf(n, z, b)
    ensures InsideOf(s, z, a + b)
  {
    forall t ensures (z.inside + (a + b) + multiset(s.rGrants))[t] == (s.inside + multiset(z.rGrants))[t] {
      assert (n.inside + a + multiset(s.rGrants))[t] == (s.inside + multiset(n.rGrants))[t];
      assert (z.inside + b + multiset(n.rGrants))[t] == (n.inside + multiset(z.rGrants))[t];
    }
  }

  lemma {:induction false} RWRunInside(s: RWState, calls: seq<RWCall>)
    requires RWPossible(s, calls)
    ensures InsideOf(s, RWRun(s, calls), Left(calls))
    decreases |calls|
  {
    if calls != [] {
      GrantedGoIn(s, calls[0]);
      RWRunInside(RWNext(s, calls[0]), calls[1..]);
      InsideAdds(s, RWNext(s, calls[0]), RWRun(s, calls), Leaves(calls[0]), Left(calls[1..]));
    }
  }

  /** Over every run: the tasks reading are those let in that have not left, and readers counts them; while a writer
      has the lock nobody is reading, a free lock has both queues empty, readers only wait for a writer that holds
      the lock or waits too, and each side is let in in the order it asked. */
  lemma {:induction false} RWRunIsSafe(calls: seq<RWCall>)
    requires RWPossible(RW_FREE, calls)
    ensures var s := RWRun(RW_FREE, calls);
            && multiset(s.rGrants) == s.inside + Left(calls) && s.readers == |s.inside|
            && (s.writer.Held? ==> s.inside == multiset{})
            && (s.writer == Nobody && s.inside == multiset{} ==> s.rwaiting == [] && s.wwaiting == [])
            && (s.rwaiting != [] ==> s.writer.Held? || s.wwaiting != [])
            && RAsked(RW_FREE, calls) == s.rGrants + s.rwaiting && WAsked(RW_FREE, calls) == s.wGrants + s.wwaiting
  {
    RWRunKeepsInv(RW_FREE, calls);
    RWRunArrivals(RW_FREE, calls);
    RWRunInside(RW_FREE, calls);
    var s := RWRun(RW_FREE, calls);
    assert s.inside + Left(calls) + multiset(RW_FREE.rGrants) == s.inside + Left(calls);
  }

  /** From the time a reader waits to the next wunlock no reader gets in and those who come wait behind. */
  lemma {:induction false} ReadersStayOut(s: RWState, calls: seq<RWCall>)
    requires RWQueues(s) && RWPossible(s, calls) && s.rwaiting != [] && WUnlock !in calls
    ensures var b := RWRun(s, calls); s.rwaiting <= b.rwaiting && b.rGrants == s.rGrants
    decreases |calls|
  {
    if calls != [] {
      assert calls[0] != WUnlock;
      RWNextKeepsQueues(s, calls[0]);
      ReadersStayOut(RWNext(s, calls[0]), calls[1..]);
    }
  }

  /** And that wunlock lets them all in at once, and no writer. */
  lemma {:induction false} NextWUnlockAdmitsAll(s: RWState, calls: seq<RWCall>)
    requires RWInv(s) && RWPossible(s, calls) && s.rwaiting != [] && WUnlock !in calls
    requires RWEnabled(RWRun(s, calls), WUnlock)
    ensures var b := RWRun(s, calls);
            var z := RWNext(b, WUnlock);
            && s.rwaiting <= b.rwaiting && b.rGrants == s.rGrants
            && z.rwaiting == [] && z.rGrants == s.rGrants + b.rwaiting
            && z.inside == multiset(b.rwaiting) && z.writer == Nobody && z.wGrants == b.wGrants
  {
    ReadersStayOut(s, calls);
    RWRunKeepsInv(s, calls);
    assert RWRun(s, calls).inside == multiset{};
  }

  /** The writers a waiting reader has to let pass. */
  function Overtakers(s: RWState): nat {
    if s.writer.Held? then 0 else 1
  }

  lemma OvertakersFall(s: RWState, c: RWCall, r: Task)
    requires RWQueues(s) && RWEnabled(s, c) && r in s.rwaiting && c != WUnlock
    ensures var n := RWNext(s, c);
            RWQueues(n) && r in n.rwaiting && |n.wGrants| + Overtakers(n) <= |s.wGrants| + Overtakers(s)
  {
    RWNextKeepsQueues(s, c);
  }

  /** A waiting reader is overtaken by one writer at most, and by none if one holds the lock: a run that lets more
      writers in from here on has let the reader in before. */
  lemma {:induction false} ReaderOvertakenOnce(s: RWState, calls: seq<RWCall>, r: Task) returns (k: nat)
    requires RWQueues(s) && RWPossible(s, calls) && r in s.rwaiting
    requires |RWRun(s, calls).wGrants| > |s.wGrants| + Overtakers(s)
    ensures k <= |calls| && RWPossible(s, calls[..k])
    ensures var z := RWRun(s, calls[..k]);
            r !in z.rwaiting && r in z.inside && |z.wGrants| <= |s.wGrants| + Overtakers(s)
    decreases |calls|
  {
    var n := RWNext(s, calls[0]);
    if calls[0] == WUnlock {
      k := 1;
      assert calls[..1] == [WUnlock];
      assert RWPossible(n, [WUnlock][1..]);
      assert RWRun(s, [WUnlock]) == n;
    } else {
      OvertakersFall(s, calls[0], r);
      k := ReaderOvertakenOnce(n, calls[1..], r);
      k := k + 1;
      assert calls[..k][1..] == calls[1..][..k - 1];
    }
  }

  class RWLock {
    var readers: nat
    var writer: Owner
    var rwaiting: seq<Task>
    var wwaiting: seq<Task>
    ghost var inside: multiset<Task>
    ghost var rArrivals: seq<Task>
    ghost var rGrants: seq<Task>
    ghost var wArrivals: seq<Task>
    ghost var wGrants: seq<Task>

    constructor ()
      ensures State() == RW_FREE
    {
      readers, writer, rwaiting, wwaiting := 0, Nobody, [], [];
      inside, rArrivals, rGrants, wArrivals, wGrants := multiset{}, [], [], [], [];
    }

    ghost function State(): RWState
      reads this
    {
      RWState(readers, writer, rwaiting, wwaiting, inside, rArrivals, rGrants, wArrivals, wGrants)
    }

    /** _rlock up to taskswitch; there is nothing left to do behind it. */
    method ReadAcquire(self: Task, block: bool) returns (got: bool)
      requires RWInv(State()) && Awake(State(), self)
      modifies this
      ensures State() == RLocked(old(State()), self, block) && RWInv(State())
      ensures got <==> old(writer == Nobody && wwaiting == [])
      ensures readers == old(readers) + (if got then 1 else 0) && writer == old(writer) && wwaiting == old(wwaiting)
      ensures inside == old(inside) + if got then multiset{self} else multiset{}
      ensures rwaiting == old(rwaiting) + if !got && block then [self] else []
    {
      RWNextKeepsInv(State(), RLock(self, block));
      if writer == Nobody && wwaiting == [] {
        readers := readers + 1;
        inside, rArrivals, rGrants := inside + multiset{self}, rArrivals + [self], rGrants + [self];
        return true;
      }
      if !block {
        return false;
      }
      rwaiting, rArrivals := rwaiting + [self], rArrivals + [self];
      return false;
    }

    method WriteAcquire(self: Task, block: bool) returns (got: bool)
      requires RWInv(State()) && Awake(State(), self)
      modifies this
      ensures State() == WLocked(old(State()), self, block) && RWInv(State())
      ensures got <==> old(writer == Nobody && readers == 0)
      ensures writer == (if got then Held(self) else old(writer)) && readers == old(readers) && inside == old(inside)
      ensures wwaiting == old(wwaiting) + (if !got && block then [self] else []) && rwaiting == old(rwaiting)
    {
      RWNextKeepsInv(State(), WLock(self, block));
      if writer == Nobody && readers == 0 {
        writer := Held(self);
        wArrivals, wGrants := wArrivals + [self], wGrants + [self];
        return true;
      }
      if !block {
        return false;
      }
      wwaiting, wArrivals := wwaiting + [self], wArrivals + [self];
      return false;
    }

    method ReadRelease(ghost self: Task)
      requires RWInv(State()) && RWEnabled(State(), RUnlock(self))
      modifies this
      ensures State() == RUnlocked(old(State()), self) && RWInv(State())
      ensures readers == old(readers) - 1 && inside == old(inside) - multiset{self} && rwaiting == old(rwaiting)
      ensures if readers == 0 && old(wwaiting) != [] then
                writer == Held(old(wwaiting)[0]) && wwaiting == old(wwaiting)[1..]
              else
                writer == Nobody && wwaiting == old(wwaiting)
    {
      RWNextKeepsInv(State(), RUnlock(self));
      readers := readers - 1;
      inside := inside - multiset{self};
      HandOver();
    }

    /** The end of both releases. */
    method HandOver()
      modifies this`writer, this`wwaiting, this`wGrants
      ensures State() == HandToWriter(old(State()))
    {
      if readers == 0 && wwaiting != [] {
        writer := Held(wwaiting[0]);
        wGrants := wGrants + [wwaiting[0]];
        wwaiting := wwaiting[1..];
      }
    }

    /** The loop of wunlock. */
    method AdmitReaders()
      requires readers == 0
      modifies this`readers, this`rwaiting, this`inside, this`rGrants
      ensures rwaiting == [] && readers == |old(rwaiting)|
      ensures inside == old(inside) + multiset(old(rwaiting)) && rGrants == old(rGrants) + old(rwaiting)
    {
      ghost var i := 0;
      while rwaiting != []
        invariant i <= |old(rwaiting)| && readers == i && rwaiting == old(rwaiting)[i..]
        invariant rGrants == old(rGrants) + old(rwaiting)[..i] && inside == old(inside)
        decreases |rwaiting|
      {
        readers := readers + 1;
        rGrants := rGrants + [rwaiting[0]];
        rwaiting := rwaiting[1..];
        i := i + 1;
      }
      assert old(rwaiting)[..i] == old(rwaiting);
      inside := inside + multiset(old(rwaiting));
    }

    /** wunlock; its second abort, readers beside the writer, is not reached. */
    method WriteRelease()
      requires RWInv(State()) && writer.Held?
      modifies this
      ensures State() == WUnlocked(old(State())) && RWInv(State())
      ensures rwaiting == [] && inside == multiset(old(rwaiting)) && readers == |old(rwaiting)|
      ensures if old(rwaiting) == [] && old(wwaiting) != [] then
                writer == Held(old(wwaiting)[0]) && wwaiting == old(wwaiting)[1..]
              else
                writer == Nobody && wwaiting == old(wwaiting)
    {
      RWNextKeepsInv(State(), WUnlock);
      writer := Nobody;
      assert readers == 0 && inside == multiset{};
      AdmitReaders();
      HandOver();
    }
  }

  /** A Rendez: the tasks asleep on it and, beside it, the tasks it has made ready, both in order. */
  class Rendez {
    var waiting: seq<Task>
    ghost var readied: seq<Task>

    constructor ()
      ensures waiting == readied == []
    {
      waiting, readied := [], [];
    }

    /** tasksleep up to taskswitch, one step: the task is on the list and the lock is given up. */
    method Sleep(self: Task, l: QLock?)
      requires l != null ==> QInv(l.State()) && l.owner.Held?
      modifies this, l
      ensures waiting == old(waiting) + [self] && readied == old(readied)
      ensures l != null ==> l.State() == QUnlocked(old(l.State())) && QInv(l.State())
    {
      waiting := waiting + [self];
      if l != null {
        l.Release();
      }
    }

    /** tasksleep behind taskswitch: a task that was made ready takes the lock again, or queues for it. */
    method Relock(self: Task, l: QLock?) returns (got: bool)
      requires self in readied && (l != null ==> QInv(l.State()) && QEnabled(l.State(), Lock(self)))
      modifies l
      ensures l == null ==> got
      ensures l != null ==>
        && l.State() == QLocked(old(l.State()), self, true) && QInv(l.State())
        && (got <==> old(l.owner) == Nobody) && (!got ==> self in l.waiting)
    {
      got := true;
      if l != null {
        got := l.Acquire(self, true);
      }
    }

    /** _taskwakeup: everybody, or the first, wakes in the order they went to sleep; the result is how many. */
    method Wakeup(all: bool) returns (i: nat)
      modifies this
      ensures i == (if all then |old(waiting)| else if old(waiting) == [] then 0 else 1)
      ensures waiting == old(waiting)[i..] && readied == old(readied) + old(waiting)[..i]
    {
      i := 0;
      while true
        invariant i <= |old(waiting)| && (!all ==> i <= 1)
        invariant waiting == old(waiting)[i..] && readied == old(readied) + old(waiting)[..i]
        decreases |waiting|
      {
        if i == 1 && !all {
          break;
        }
        if waiting == [] {
          break;
        }
        readied := readied + [waiting[0]];
        waiting := waiting[1..];
        i := i + 1;
      }
    }
  }
}
