/** What the retry machine of Plugin does in a run: the life of a command, the counts on a path, and which path a
    command is sent to. */
module PluginRuns {
  import opened Common
  import opened Plugin

  /** A command as its device sees it. */
  datatype Life = New | InFlight | Failed | Waiting | Retrying | GivenUp | Back

  datatype Event = Start | Finish | Failure | Wait | Pick | Retried | Cancel | GiveBack

  function LifeOf(s: State, c: Cmd): Life {
    if c !in s.place then New else
    match s.place[c]
    case Flight(_, _) => InFlight
    case Blocking(_, _) => Failed
    case Queued => Waiting
    case InHand => Retrying
    case Aborting => GivenUp
    case Done => Back
  }

  /** What step e is in the life of c. */
  function Happens(s: State, e: Step, c: Cmd): Option<Event> {
    match e
    case OfCmd(Issue(b, _)) => if b == c then Some(Start) else None
    case OfCmd(Complete(b)) => if b == c then Some(Finish) else None
    case OfCmd(Fail(b)) => if b == c then Some(Failure) else None
    case OfCmd(Enqueue(b)) => if b == c then Some(Wait) else None
    case OfCmd(Abort(b)) => if b == c then Some(Cancel) else None
    case OfCmd(Aborted(b)) => if b == c then Some(GiveBack) else None
    case OfWorld(Take) => if s.retryQueue != [] && s.retryQueue[0] == c then Some(Pick) else None
    case OfWorld(Reissue) => if s.world == Ready(c) then Some(Retried) else None
    case _ => None
  }

  predicate Legal(l: Life, v: Event) {
    match v
    case Start => l == New
    case Finish => l == InFlight
    case Failure => l == InFlight
    case Wait => l == Failed
    case Pick => l == Waiting
    case Retried => l == Retrying
    case Cancel => l == Waiting
    case GiveBack => l == GivenUp
  }

  function After(v: Event): Life {
    match v
    case Start => InFlight
    case Finish => Back
    case Failure => Failed
    case Wait => Waiting
    case Pick => Retrying
    case Retried => InFlight
    case Cancel => GivenUp
    case GiveBack => Back
  }

  /** How step e changes the number of commands on path p. */
  function Puts(s: State, e: Step, p: Path): int {
    match e
    case OfCmd(Issue(_, d)) => if ActivePath(s, d) == Some(p) then 1 else 0
    case OfCmd(Deref(_, q)) => if q == p then -1 else 0
    case OfWorld(Reissue) =>
      if s.world.Ready? && IsPlaced(s, s.world.c) && ActivePath(s, s.devOf[s.world.c]) == Some(p) then 1 else 0
    case OfPath(IssueDirect(q)) => if q == p then 1 else 0
    case _ => 0
  }

  /** The same for the references that are held for something else. */
  function Grabs(s: State, e: Step, p: Path): int {
    match e
    case OfWorld(Peek) =>
      if s.world.Took? && IsPlaced(s, s.world.c) && ActivePath(s, s.devOf[s.world.c]) == Some(p) then 1 else 0
    case OfWorld(Unpeek(_)) => if s.world.Peeking? && s.world.p == p then -1 else 0
    case OfWorld(Failover(i, _)) =>
      if s.world.Deciding? && IsPlaced(s, s.world.c) && Slot(s, s.devOf[s.world.c], i) == Some(p) then 1 else 0
    case OfWorld(FailedOver) => if s.world.Failing? && s.world.p == p then -1 else 0
    case OfPath(ManagePath(_, d, i)) => if Slot(s, d, i) == Some(p) then 1 else 0
    case OfPath(ManagedPath(_, q)) => if q == p then -1 else 0
    case _ => 0
  }

  /** From s to z path p has got so many commands and so many other references more. */
  ghost predicate Counts(s: State, z: State, p: Path, commands: int, others: int) {
    && At(z.active, p) == At(s.active, p) + commands
    && At(z.refs, p) == At(s.refs, p) + commands + others
    && (p in s.freed ==> p in z.freed)
  }

  /** From s to z c has lived through v, or nothing. */
  ghost predicate Lives(s: State, z: State, c: Cmd, v: Option<Event>) {
    && (v.Some? ==> Legal(LifeOf(s, c), v.value))
    && LifeOf(z, c) == (if v.Some? then After(v.value) else LifeOf(s, c))
    && z.handedBack[c] == s.handedBack[c] + (if v == Some(Finish) || v == Some(GiveBack) then 1 else 0)
    && (c in s.devOf ==> c in z.devOf && z.devOf[c] == s.devOf[c])
  }

  /** Between s and z p has kept its slot, or left it. */
  ghost predicate Kept(s: State, z: State, p: Path, stays: bool) {
    p in s.home ==> p in z.home && z.home[p] == s.home[p] && (InSlot(z, p) <==> InSlot(s, p) && stays)
  }

  /** The retry queue after step e. */
  function QueueAfter(q: seq<Cmd>, e: Step): seq<Cmd> {
    match e
    case OfCmd(Enqueue(c)) => q + [c]
    case OfCmd(Abort(c)) => Without(q, c)
    case OfWorld(Take) => if q == [] then [] else q[1..]
    case _ => q
  }

  /** The open devices after step e. */
  function OpenAfter(open: set<Dev>, e: Step): set<Dev> {
    match e
    case OfPath(Open(d)) => open + {d}
    case OfPath(Close(d)) => open - {d}
    case _ => open
  }

  /** Where the retry world is in its round with a command. */
  datatype Phase = Between | Picked | Looking | Choosing | Switching | Willing

  function PhaseOf(w: World): Phase {
    match w
    case Idle => Between
    case Took(_) => Picked
    case Peeking(_, _) => Looking
    case Deciding(_) => Choosing
    case Failing(_, _) => Switching
    case Ready(_) => Willing
    case Unblocking(_) => Between
  }

  function PhaseAfter(f: Phase, e: Step): Phase {
    match e
    case OfWorld(Take) => Picked
    case OfWorld(Peek) => Looking
    case OfWorld(Unpeek(off)) => if off then Choosing else Willing
    case OfWorld(NoFailover) => Willing
    case OfWorld(Failover(_, _)) => Switching
    case OfWorld(FailedOver) => Willing
    case OfWorld(Reissue) => Between
    case OfWorld(Release) => Between
    case _ => f
  }

  predicate IsUnclaim(e: Step, k: (Dev, nat)) {
    e.OfPath? && e.ps.Unclaim? && (e.ps.d, e.ps.i) == k
  }

  /** What step e from s to z does to the life of command b, to the slot of path p and the counts on it, to the retry
      queue and world, and to the active paths. */
  ghost predicate Effect(s: State, e: Step, z: State, b: Cmd, p: Path) {
    && Lives(s, z, b, Happens(s, e, b))
    && Counts(s, z, p, Puts(s, e, p), Grabs(s, e, p))
    && Kept(s, z, p, p in s.home && !IsUnclaim(e, s.home[p]))
    && (e.OfPath? && e.ps.Claim? ==> InSlot(z, e.ps.p))
    && z.retryQueue == QueueAfter(s.retryQueue, e)
    && z.open == OpenAfter(s.open, e)
    && (if e.OfWorld? then PhaseOf(z.world) == PhaseAfter(PhaseOf(s.world), e) else z.world == s.world)
    && ((e.OfWorld? && e.ws.Failover?) || (e.OfPath? && e.ps.Unclaim?) || z.index == s.index)
  }

  lemma IssueFinds(s: State, z: State, c: Cmd, d: Dev, q: Path, b: Cmd, p: Path)
    requires EnabledCmd(s, Issue(c, d)) && ActivePath(s, d) == Some(q) && c !in s.devOf
    requires z == IssuedTo(s, c, q).(busy := s.busy[d := At(s.busy, d) + 1], devOf := s.devOf[c := d],
                                     pending := s.pending + {(c, d)})
    ensures Effect(s, OfCmd(Issue(c, d)), z, b, p)
  {
  }

  lemma IssueEffect(s: State, c: Cmd, d: Dev, b: Cmd, p: Path)
    requires Inv(s) && EnabledCmd(s, Issue(c, d))
    ensures Effect(s, OfCmd(Issue(c, d)), NextCmd(s, Issue(c, d)), b, p)
  {
    assert KeyOk(s, Key(c, Hand, d, 0, 0, Retry, 0));
    IssueFinds(s, NextCmd(s, Issue(c, d)), c, d, ActivePath(s, d).value, b, p);
  }

  lemma CompleteEffect(s: State, c: Cmd, b: Cmd, p: Path)
    requires Inv(s) && EnabledCmd(s, Complete(c))
    ensures Effect(s, OfCmd(Complete(c)), NextCmd(s, Complete(c)), b, p)
  {
    assert KeyOk(s, Key(c, Hand, 0, 0, 0, Retry, 0));
  }

  lemma FailEffect(s: State, c: Cmd, b: Cmd, p: Path)
    requires Inv(s) && EnabledCmd(s, Fail(c))
    ensures Effect(s, OfCmd(Fail(c)), NextCmd(s, Fail(c)), b, p)
  {
    assert KeyOk(s, Key(c, Hand, 0, 0, 0, Retry, 0));
  }

  lemma EnqueueEffect(s: State, c: Cmd, b: Cmd, p: Path)
    requires Inv(s) && EnabledCmd(s, Enqueue(c))
    ensures Effect(s, OfCmd(Enqueue(c)), NextCmd(s, Enqueue(c)), b, p)
  {
    assert KeyOk(s, Key(c, Hand, 0, 0, 0, Retry, 0));
  }

  lemma AbortEffect(s: State, c: Cmd, b: Cmd, p: Path)
    requires Inv(s) && EnabledCmd(s, Abort(c))
    ensures Effect(s, OfCmd(Abort(c)), NextCmd(s, Abort(c)), b, p)
  {
    assert KeyOk(s, Key(c, Hand, 0, 0, 0, Retry, 0));
  }

  lemma AbortedEffect(s: State, c: Cmd, b: Cmd, p: Path)
    requires Inv(s) && EnabledCmd(s, Aborted(c))
    ensures Effect(s, OfCmd(Aborted(c)), NextCmd(s, Aborted(c)), b, p)
  {
    assert KeyOk(s, Key(c, Hand, 0, 0, 0, Retry, 0));
  }

  lemma DerefEffect(s: State, n: nat, q: Path, b: Cmd, p: Path)
    requires EnabledCmd(s, Deref(n, q))
    ensures Effect(s, OfCmd(Deref(n, q)), NextCmd(s, Deref(n, q)), b, p)
  {
  }

  lemma TakeEffect(s: State, b: Cmd, p: Path)
    requires Inv(s) && EnabledWorld(s, Take)
    ensures Effect(s, OfWorld(Take), NextWorld(s, Take), b, p)
  {
    assert KeyOk(s, Key(s.retryQueue[0], Hand, 0, 0, 0, Retry, 0));
  }

  lemma ReissueEffect(s: State, b: Cmd, p: Path)
    requires Inv(s) && EnabledWorld(s, Reissue)
    ensures Effect(s, OfWorld(Reissue), NextWorld(s, Reissue), b, p)
  {
    assert KeyOk(s, Key(s.world.c, Hand, s.devOf[s.world.c], 0, 0, Retry, 0));
  }

  lemma PeekFinds(s: State, z: State, q: Path, b: Cmd, p: Path)
    requires EnabledWorld(s, Peek) && ActivePath(s, s.devOf[s.world.c]) == Some(q)
    requires z == IncRef(s, Retry, q).(world := Peeking(s.world.c, q))
    ensures Effect(s, OfWorld(Peek), z, b, p)
  {
  }

  lemma PeekEffect(s: State, b: Cmd, p: Path)
    requires Inv(s) && EnabledWorld(s, Peek)
    ensures Effect(s, OfWorld(Peek), NextWorld(s, Peek), b, p)
  {
    var d := s.devOf[s.world.c];
    assert KeyOk(s, Key(s.world.c, Hand, d, 0, 0, Retry, 0));
    PeekFinds(s, NextWorld(s, Peek), ActivePath(s, d).value, b, p);
  }

  lemma UnpeekEffect(s: State, f: bool, b: Cmd, p: Path)
    requires EnabledWorld(s, Unpeek(f))
    ensures Effect(s, OfWorld(Unpeek(f)), NextWorld(s, Unpeek(f)), b, p)
  {
  }

  lemma NoFailoverEffect(s: State, b: Cmd, p: Path)
    requires EnabledWorld(s, NoFailover)
    ensures Effect(s, OfWorld(NoFailover), NextWorld(s, NoFailover), b, p)
  {
  }

  lemma FailedOverEffect(s: State, b: Cmd, p: Path)
    requires EnabledWorld(s, FailedOver)
    ensures Effect(s, OfWorld(FailedOver), NextWorld(s, FailedOver), b, p)
  {
  }

  lemma ReleaseEffect(s: State, b: Cmd, p: Path)
    requires EnabledWorld(s, Release)
    ensures Effect(s, OfWorld(Release), NextWorld(s, Release), b, p)
  {
  }

  lemma FailoverEffect(s: State, i: nat, on: set<Path>, b: Cmd, p: Path)
    requires EnabledWorld(s, Failover(i, on))
    ensures Effect(s, OfWorld(Failover(i, on)), NextWorld(s, Failover(i, on)), b, p)
  {
  }

  lemma OpenEffect(s: State, d: Dev, b: Cmd, p: Path)
    requires EnabledPath(s, Open(d))
    ensures Effect(s, OfPath(Open(d)), NextPath(s, Open(d)), b, p)
  {
  }

  lemma CloseEffect(s: State, d: Dev, b: Cmd, p: Path)
    requires EnabledPath(s, Close(d))
    ensures Effect(s, OfPath(Close(d)), NextPath(s, Close(d)), b, p)
  {
  }

  lemma ManagePathEffect(s: State, k: nat, d: Dev, i: nat, b: Cmd, p: Path)
    requires EnabledPath(s, ManagePath(k, d, i))
    ensures Effect(s, OfPath(ManagePath(k, d, i)), NextPath(s, ManagePath(k, d, i)), b, p)
  {
  }

  lemma UseManagedEffect(s: State, k: nat, q: Path, b: Cmd, p: Path)
    requires EnabledPath(s, UseManaged(k, q))
    ensures Effect(s, OfPath(UseManaged(k, q)), NextPath(s, UseManaged(k, q)), b, p)
  {
    if InSlot(s, q) {
      assert NextPath(s, UseManaged(k, q)) == s;
    } else {
      assert NextPath(s, UseManaged(k, q)) == s.(strays := s.strays + {k});
    }
  }

  lemma ManagedPathEffect(s: State, k: nat, q: Path, b: Cmd, p: Path)
    requires EnabledPath(s, ManagedPath(k, q))
    ensures Effect(s, OfPath(ManagedPath(k, q)), NextPath(s, ManagedPath(k, q)), b, p)
  {
  }

  lemma IssueDirectEffect(s: State, q: Path, b: Cmd, p: Path)
    requires EnabledPath(s, IssueDirect(q))
    ensures Effect(s, OfPath(IssueDirect(q)), NextPath(s, IssueDirect(q)), b, p)
  {
  }

  lemma DestroyEffect(s: State, q: Path, b: Cmd, p: Path)
    requires EnabledPath(s, Destroy(q))
    ensures Effect(s, OfPath(Destroy(q)), NextPath(s, Destroy(q)), b, p)
  {
  }

  lemma ClaimEffect(s: State, d: Dev, i: nat, q: Path, b: Cmd, p: Path)
    requires EnabledPath(s, Claim(d, i, q))
    ensures Effect(s, OfPath(Claim(d, i, q)), NextPath(s, Claim(d, i, q)), b, p)
  {
  }

  lemma UnclaimEffect(s: State, d: Dev, i: nat, j: nat, on: set<Path>, b: Cmd, p: Path)
    requires EnabledPath(s, Unclaim(d, i, j, on))
    ensures Effect(s, OfPath(Unclaim(d, i, j, on)), NextPath(s, Unclaim(d, i, j, on)), b, p)
  {
  }

  lemma CmdStepEffect(s: State, e: CmdStep, b: Cmd, p: Path)
    requires Inv(s) && EnabledCmd(s, e)
    ensures Effect(s, OfCmd(e), NextCmd(s, e), b, p)
  {
    match e
    case Issue(c, d) => IssueEffect(s, c, d, b, p);
    case Complete(c) => CompleteEffect(s, c, b, p);
    case Fail(c) => FailEffect(s, c, b, p);
    case Enqueue(c) => EnqueueEffect(s, c, b, p);
    case Deref(n, q) => DerefEffect(s, n, q, b, p);
    case Abort(c) => AbortEffect(s, c, b, p);
    case Aborted(c) => AbortedEffect(s, c, b, p);
  }

  lemma WorldStepEffect(s: State, e: WorldStep, b: Cmd, p: Path)
    requires Inv(s) && EnabledWorld(s, e)
    ensures Effect(s, OfWorld(e), NextWorld(s, e), b, p)
  {
    match e
    case Take => TakeEffect(s, b, p);
    case Peek => PeekEffect(s, b, p);
    case Unpeek(f) => UnpeekEffect(s, f, b, p);
    case NoFailover => NoFailoverEffect(s, b, p);
    case Failover(i, on) => FailoverEffect(s, i, on, b, p);
    case FailedOver => FailedOverEffect(s, b, p);
    case Reissue => ReissueEffect(s, b, p);
    case Release => ReleaseEffect(s, b, p);
  }

  lemma PathStepEffect(s: State, e: PathStep, b: Cmd, p: Path)
    requires EnabledPath(s, e)
    ensures Effect(s, OfPath(e), NextPath(s, e), b, p)
  {
    match e
    case Claim(d, i, q) => ClaimEffect(s, d, i, q, b, p);
    case Unclaim(d, i, j, on) => UnclaimEffect(s, d, i, j, on, b, p);
    case Open(d) => OpenEffect(s, d, b, p);
    case Close(d) => CloseEffect(s, d, b, p);
    case ManagePath(k, d, i) => ManagePathEffect(s, k, d, i, b, p);
    case UseManaged(k, q) => UseManagedEffect(s, k, q, b, p);
    case ManagedPath(k, q) => ManagedPathEffect(s, k, q, b, p);
    case IssueDirect(q) => IssueDirectEffect(s, q, b, p);
    case Destroy(q) => DestroyEffect(s, q, b, p);
  }

  lemma StepEffect(s: State, e: Step, b: Cmd, p: Path)
    requires Inv(s) && Enabled(s, e)
    ensures Effect(s, e, Next(s, e), b, p)
  {
    match e
    case OfCmd(c) => CmdStepEffect(s, c, b, p);
    case OfWorld(w) => WorldStepEffect(s, w, b, p);
    case OfPath(a) => PathStepEffect(s, a, b, p);
  }

  /** What happens to c in a run. */
  ghost function Trace(s: State, steps: seq<Step>, c: Cmd): seq<Event>
    requires Possible(s, steps)
    decreases |steps|
  {
    if steps == [] then [] else
      (match Happens(s, steps[0], c) case None => [] case Some(v) => [v]) + Trace(Next(s, steps[0]), steps[1..], c)
  }

  /** vs is a life that can follow l and ends as r. */
  predicate IsLife(l: Life, vs: seq<Event>, r: Life)
    decreases |vs|
  {
    if vs == [] then l == r else Legal(l, vs[0]) && IsLife(After(vs[0]), vs[1..], r)
  }

  /** How often a command is handed back in it. */
  function Backs(vs: seq<Event>): nat {
    if vs == [] then 0 else (if After(vs[0]) == Back then 1 else 0) + Backs(vs[1..])
  }

  lemma {:induction false} RunLives(s: State, steps: seq<Step>, c: Cmd)
    requires Inv(s) && Possible(s, steps)
    ensures IsLife(LifeOf(s, c), Trace(s, steps, c), LifeOf(Run(s, steps), c))
    decreases |steps|
  {
    if steps != [] {
      var n := Next(s, steps[0]);
      StepLives(s, steps[0], n, c);
      RunLives(n, steps[1..], c);
      TraceGoesOn(s, steps, n, c);
    }
  }

  lemma BacksOf(vs: seq<Event>, v: Event, rest: seq<Event>)
    requires vs != [] && vs[..1] == [v] && vs[1..] == rest
    ensures Backs(vs) == Backs(rest) + if v == Finish || v == GiveBack then 1 else 0
  {
    assert vs[0] == vs[..1][0];
  }

  lemma BacksGoOn(s: State, steps: seq<Step>, n: State, c: Cmd)
    requires Possible(s, steps) && steps != [] && n == Next(s, steps[0])
    ensures var h := Happens(s, steps[0], c);
            Backs(Trace(s, steps, c))
            == Backs(Trace(n, steps[1..], c)) + if h == Some(Finish) || h == Some(GiveBack) then 1 else 0
  {
    TraceGoesOn(s, steps, n, c);
    var h := Happens(s, steps[0], c);
    if h.Some? {
      BacksOf(Trace(s, steps, c), h.value, Trace(n, steps[1..], c));
    }
  }

  lemma {:induction false} RunBacks(s: State, steps: seq<Step>, c: Cmd)
    requires Inv(s) && Possible(s, steps)
    ensures Run(s, steps).handedBack[c] == s.handedBack[c] + Backs(Trace(s, steps, c))
    decreases |steps|
  {
    if steps != [] {
      var n := Next(s, steps[0]);
      StepLives(s, steps[0], n, c);
      RunBacks(n, steps[1..], c);
      BacksGoOn(s, steps, n, c);
    }
  }

  lemma {:induction false} RunKeepsDevice(s: State, steps: seq<Step>, c: Cmd)
    requires Inv(s) && Possible(s, steps) && c in s.devOf
    ensures c in Run(s, steps).devOf && Run(s, steps).devOf[c] == s.devOf[c]
    decreases |steps|
  {
    if steps != [] {
      StepLives(s, steps[0], Next(s, steps[0]), c);
      RunKeepsDevice(Next(s, steps[0]), steps[1..], c);
    }
  }

  lemma StepLives(s: State, e: Step, z: State, c: Cmd)
    requires Inv(s) && Enabled(s, e) && z == Next(s, e)
    ensures Inv(z) && Lives(s, z, c, Happens(s, e, c))
  {
    StepEffect(s, e, c, 0);
    NextKeepsInv(s, e);
  }

  lemma TraceGoesOn(s: State, steps: seq<Step>, n: State, c: Cmd)
    requires Possible(s, steps) && steps != [] && n == Next(s, steps[0])
    ensures var h, rest := Happens(s, steps[0], c), Trace(n, steps[1..], c);
            && (h.Some? ==> Trace(s, steps, c)[..1] == [h.value] && Trace(s, steps, c)[1..] == rest)
            && (h.None? ==> Trace(s, steps, c) == rest)
  {
  }

  /** The steps take no path out of slot (d, i). */
  ghost predicate NoUnclaim(steps: seq<Step>, d: Dev, i: nat) {
    forall e :: e in steps ==> !IsUnclaim(e, (d, i))
  }

  lemma {:induction false} LeavesSlotOnce(s: State, steps: seq<Step>, p: Path)
    requires Inv(s) && Possible(s, steps) && p in s.home
    ensures var z := Run(s, steps); p in z.home && z.home[p] == s.home[p]
    ensures InSlot(Run(s, steps), p) <==> InSlot(s, p) && NoUnclaim(steps, s.home[p].0, s.home[p].1)
    decreases |steps|
  {
    if steps != [] {
      StepEffect(s, steps[0], 0, p);
      NextKeepsInv(s, steps[0]);
      LeavesSlotOnce(Next(s, steps[0]), steps[1..], p);
      assert forall e :: e in steps <==> e in [steps[0]] || e in steps[1..];
    }
  }

  /** Task management reads its path again after it has dropped the lock of the device. Whatever comes between, it
      gets the path it holds a reference on exactly if the slot was not unclaimed since; the reference keeps that
      path from being freed, but not in its slot. */
  lemma {:induction false} ManagementReadsItsPath(before: seq<Step>, k: nat, d: Dev, i: nat, between: seq<Step>)
    requires Possible(START, before) && Enabled(Run(START, before), OfPath(ManagePath(k, d, i)))
    requires Possible(Next(Run(START, before), OfPath(ManagePath(k, d, i))), between)
    ensures var s := Run(START, before);
            var p, z := s.slots[(d, i)], Run(Next(s, OfPath(ManagePath(k, d, i))), between);
            Enabled(z, OfPath(UseManaged(k, p))) ==>
              && p !in z.freed
              && (NoUnclaim(between, d, i) <==> (d, i) in z.slots && z.slots[(d, i)] == p)
              && Next(z, OfPath(UseManaged(k, p))).strays
                 == if NoUnclaim(between, d, i) then z.strays else z.strays + {k}
  {
    var s := Run(START, before);
    var p, n := s.slots[(d, i)], Next(s, OfPath(ManagePath(k, d, i)));
    StartIsFine();
    RunKeepsInv(START, before);
    NextKeepsInv(s, OfPath(ManagePath(k, d, i)));
    RunKeepsInv(n, between);
    assert KeyOk(s, Key(0, Hand, d, i, 0, Retry, p));
    assert KeyOk(Run(n, between), Key(0, Hand, d, i, 0, Management(k), p));
    LeavesSlotOnce(n, between, p);
  }

  /** A device with paths p and q, open. */
  function TwoPaths(d: Dev, p: Path, q: Path): State {
    START.(slots := map[(d, 0) := p, (d, 1) := q], home := map[p := (d, 0), q := (d, 1)], open := {d})
  }

  lemma ActiveUnclaimed(d: Dev, p: Path, q: Path, k: nat, s: State)
    requires p != q && s == IncRef(TwoPaths(d, p, q), Management(k), p)
    ensures Enabled(s, OfPath(Unclaim(d, 0, 1, {})))
    ensures var z := Next(s, OfPath(Unclaim(d, 0, 1, {})));
            z.slots == map[(d, 1) := q] && z.home == s.home && z.temps == s.temps && z.strays == {}
  {
    assert (d, 1) in s.slots && Slots(s, d)[0] == Some(p) && Slots(s, d)[1] == Some(q);
  }

  lemma PathStrays(d: Dev, p: Path, q: Path, k: nat)
    requires p != q
    ensures var steps := [OfPath(ManagePath(k, d, 0)), OfPath(Unclaim(d, 0, 1, {})), OfPath(UseManaged(k, p))];
            var s := TwoPaths(d, p, q);
            Possible(s, steps) && Run(s, steps).strays == {k} && Run(s, steps).slots == map[(d, 1) := q]
  {
    var t := [OfPath(ManagePath(k, d, 0)), OfPath(Unclaim(d, 0, 1, {})), OfPath(UseManaged(k, p))];
    var s := TwoPaths(d, p, q);
    var s1 := Next(s, t[0]);
    ActiveUnclaimed(d, p, q, k, s1);
    var s2 := Next(s1, t[1]);
    assert s2.home[p] == (d, 0) && !InSlot(s2, p);
    StepsOn(s2, t, 2);
    StepsOn(s1, t, 1);
    StepsOn(s, t, 0);
    assert t[0..] == t;
  }

  lemma TwoPathsClaimed(d: Dev, p: Path, q: Path) returns (s1: State, s2: State)
    requires p != q
    ensures Enabled(START, OfPath(Claim(d, 0, p))) && Next(START, OfPath(Claim(d, 0, p))) == s1
    ensures Enabled(s1, OfPath(Claim(d, 1, q))) && Next(s1, OfPath(Claim(d, 1, q))) == s2
    ensures Enabled(s2, OfPath(Open(d))) && Next(s2, OfPath(Open(d))) == TwoPaths(d, p, q)
  {
    s1 := START.(slots := map[(d, 0) := p], home := map[p := (d, 0)]);
    s2 := TwoPaths(d, p, q).(open := {});
    assert START.slots[(d, 0) := p] == s1.slots && START.home[p := (d, 0)] == s1.home;
    assert s1.slots[(d, 1) := q] == s2.slots && s1.home[q := (d, 1)] == s2.home;
    assert ActivePath(s2, d) == Some(p);
  }

  /** A run in which it does not: the path is unclaimed, in favour of another, before it is read again. */
  lemma ManagementCanStray(d: Dev, p: Path, q: Path, k: nat)
    requires p != q
    ensures var steps := [OfPath(Claim(d, 0, p)), OfPath(Claim(d, 1, q)), OfPath(Open(d)),
                          OfPath(ManagePath(k, d, 0)), OfPath(Unclaim(d, 0, 1, {})), OfPath(UseManaged(k, p))];
            Possible(START, steps) && Run(START, steps).strays == {k} && (d, 0) !in Run(START, steps).slots
  {
    var t := [OfPath(Claim(d, 0, p)), OfPath(Claim(d, 1, q)), OfPath(Open(d)),
              OfPath(ManagePath(k, d, 0)), OfPath(Unclaim(d, 0, 1, {})), OfPath(UseManaged(k, p))];
    var s1, s2 := TwoPathsClaimed(d, p, q);
    PathStrays(d, p, q, k);
    assert t[3..] == [OfPath(ManagePath(k, d, 0)), OfPath(Unclaim(d, 0, 1, {})), OfPath(UseManaged(k, p))];
    StepsOn(s2, t, 2);
    StepsOn(s1, t, 1);
    StepsOn(START, t, 0);
    assert t[0..] == t;
  }

  lemma StepsOn(s: State, steps: seq<Step>, i: nat)
    requires i < |steps| && Enabled(s, steps[i]) && Possible(Next(s, steps[i]), steps[i + 1..])
    ensures Possible(s, steps[i..]) && Run(s, steps[i..]) == Run(Next(s, steps[i]), steps[i + 1..])
  {
    assert steps[i..][1..] == steps[i + 1..];
  }

  /** Every command leads a life in order: it is issued, and as often as it fails it waits, is picked in turn and is
      issued again, until it completes or is cancelled while it waits. It is handed back once for each end, of which
      there is at most one, and exactly one if it is done. */
  lemma EveryCommandOnce(steps: seq<Step>, c: Cmd)
    requires Possible(START, steps)
    ensures var s, vs := Run(START, steps), Trace(START, steps, c);
            && IsLife(New, vs, LifeOf(s, c))
            && s.handedBack[c] == Backs(vs) == if LifeOf(s, c) == Back then 1 else 0
  {
    StartIsFine();
    RunKeepsInv(START, steps);
    RunLives(START, steps, c);
    RunBacks(START, steps, c);
    assert KeyOk(Run(START, steps), Key(c, Hand, 0, 0, 0, Retry, 0));
  }

  /** By how much the steps change the number of commands on p, and of other references. */
  ghost function PutsIn(s: State, steps: seq<Step>, p: Path): int
    requires Possible(s, steps)
    decreases |steps|
  {
    if steps == [] then 0 else Puts(s, steps[0], p) + PutsIn(Next(s, steps[0]), steps[1..], p)
  }

  ghost function GrabsIn(s: State, steps: seq<Step>, p: Path): int
    requires Possible(s, steps)
    decreases |steps|
  {
    if steps == [] then 0 else Grabs(s, steps[0], p) + GrabsIn(Next(s, steps[0]), steps[1..], p)
  }

  lemma {:induction false} RunCounts(s: State, steps: seq<Step>, p: Path)
    requires Inv(s) && Possible(s, steps)
    ensures Counts(s, Run(s, steps), p, PutsIn(s, steps, p), GrabsIn(s, steps, p))
    decreases |steps|
  {
    if steps != [] {
      StepEffect(s, steps[0], 0, p);
      NextKeepsInv(s, steps[0]);
      RunCounts(Next(s, steps[0]), steps[1..], p);
    }
  }

  /** Over every run the counters of a path are what was put on it less what was taken off. */
  lemma ReferencesBalance(steps: seq<Step>, p: Path)
    requires Possible(START, steps)
    ensures var s := Run(START, steps);
            && At(s.active, p) == PutsIn(START, steps, p)
            && At(s.refs, p) == PutsIn(START, steps, p) + GrabsIn(START, steps, p)
  {
    StartIsFine();
    RunCounts(START, steps, p);
  }

  /** Once a path has been destroyed nothing is on it, holds it or finds it in a slot, whatever comes after. */
  lemma DestroyedIsUnused(before: seq<Step>, p: Path, after: seq<Step>)
    requires Possible(START, before) && Enabled(Run(START, before), OfPath(Destroy(p)))
    requires Possible(Next(Run(START, before), OfPath(Destroy(p))), after)
    ensures var z := Run(Next(Run(START, before), OfPath(Destroy(p))), after);
            && At(z.active, p) == At(z.refs, p) == 0
            && (forall c :: c in z.place && (z.place[c].Flight? || z.place[c].Blocking?) ==> z.place[c].p != p)
            && (forall x :: x in z.holds || x in z.ending ==> x.1 != p) && (forall x :: x in z.temps ==> x.1 != p)
            && (forall k :: k in z.slots ==> z.slots[k] != p)
  {
    var s := Run(START, before);
    var n := Next(s, OfPath(Destroy(p)));
    StartIsFine();
    RunKeepsInv(START, before);
    NextKeepsInv(s, OfPath(Destroy(p)));
    RunCounts(n, after, p);
    RunKeepsInv(n, after);
    FreedIsUnused(Run(n, after), p);
  }

  lemma FreedIsUnused(z: State, p: Path)
    requires Inv(z) && p in z.freed
    ensures At(z.active, p) == At(z.refs, p) == 0
    ensures forall c :: c in z.place && (z.place[c].Flight? || z.place[c].Blocking?) ==> z.place[c].p != p
    ensures (forall x :: x in z.holds || x in z.ending ==> x.1 != p) && (forall x :: x in z.temps ==> x.1 != p)
    ensures forall k :: k in z.slots ==> z.slots[k] != p
  {
    forall x | x in z.holds || x in z.ending ensures x.1 != p {
      assert KeyOk(z, Key(0, Hand, 0, 0, x.0, Retry, x.1));
    }
    forall x | x in z.temps ensures x.1 != p {
      assert KeyOk(z, Key(0, Hand, 0, 0, 0, x.0, x.1));
    }
    forall c | c in z.place && (z.place[c].Flight? || z.place[c].Blocking?) ensures z.place[c].p != p {
      assert KeyOk(z, Key(c, Hand, 0, 0, 0, Retry, 0));
      assert (z.place[c].n, z.place[c].p) in z.holds;
    }
    forall k | k in z.slots ensures z.slots[k] != p {
      assert KeyOk(z, Key(0, Hand, k.0, k.1, 0, Retry, p));
    }
    CountIsZero(z.holds, p);
    CountIsZero(z.temps, p);
    assert CountsOk(z, p);
  }

  /** A new command goes to the active path of its device, which there is. */
  lemma IssueGoesToActive(s: State, c: Cmd, d: Dev)
    requires Inv(s) && EnabledCmd(s, Issue(c, d))
    ensures ActivePath(s, d).Some?
    ensures var z, p := NextCmd(s, Issue(c, d)), ActivePath(s, d).value;
            z.place[c] == Flight(s.issues, p) && z.devOf[c] == d && At(z.active, p) == At(s.active, p) + 1
  {
    assert KeyOk(s, Key(c, Hand, d, 0, 0, Retry, 0));
  }

  /** A command that is tried again goes to the path that is active then. */
  lemma ReissueGoesToActive(s: State)
    requires Inv(s) && EnabledWorld(s, Reissue)
    ensures ActivePath(s, s.devOf[s.world.c]).Some?
    ensures var z, p := NextWorld(s, Reissue), ActivePath(s, s.devOf[s.world.c]).value;
            && z.place[s.world.c] == Flight(s.issues, p) && z.devOf == s.devOf
            && At(z.active, p) == At(s.active, p) + 1
  {
    assert KeyOk(s, Key(s.world.c, Hand, s.devOf[s.world.c], 0, 0, Retry, 0));
  }

  /** A failover makes the path in the slot it found the active one of its device, which is another than before, and
      leaves other devices alone. */
  lemma FailoverMovesActive(s: State, i: nat, on: set<Path>, e: Dev)
    requires Inv(s) && EnabledWorld(s, Failover(i, on))
    ensures var d, z := s.devOf[s.world.c], NextWorld(s, Failover(i, on));
            && ActivePath(z, d) == Slot(s, d, i) && ActivePath(z, d).Some? && ActivePath(z, d) != ActivePath(s, d)
            && (e != d ==> ActivePath(z, e) == ActivePath(s, e))
  {
    var d := s.devOf[s.world.c];
    OtherSlotIsFound(s, d, i, on);
    IndexMoves(s, NextWorld(s, Failover(i, on)), d, i, e);
    assert KeyOk(s, Key(0, Hand, d, i, 0, Retry, 0)) && KeyOk(s, Key(0, Hand, d, IndexOf(s, d), 0, Retry, 0));
  }

  lemma IndexMoves(s: State, z: State, d: Dev, i: nat, e: Dev)
    requires z.slots == s.slots && z.index == s.index[d := i]
    ensures ActivePath(z, d) == Slot(s, d, i) && (e != d ==> ActivePath(z, e) == ActivePath(s, e))
  {
  }

  /** And it is on, if any other path of the device is. */
  lemma FailoverFindsOn(s: State, i: nat, on: set<Path>, k: nat)
    requires Inv(s) && EnabledWorld(s, Failover(i, on))
    requires k != IndexOf(s, s.devOf[s.world.c]) && IsAt(Slot(s, s.devOf[s.world.c], k), on)
    ensures IsAt(ActivePath(NextWorld(s, Failover(i, on)), s.devOf[s.world.c]), on)
  {
    var d := s.devOf[s.world.c];
    FailoverMovesActive(s, i, on, d);
    assert KeyOk(s, Key(0, Hand, d, k, 0, Retry, 0)) && KeyOk(s, Key(0, Hand, d, i, 0, Retry, 0));
    assert Slots(s, d)[k] == Slot(s, d, k) && Slots(s, d)[i] == Slot(s, d, i);
    OtherIsFound(Slots(s, d), on, IndexOf(s, d), i, k);
  }

  lemma OtherSlotIsFound(s: State, d: Dev, i: nat, on: set<Path>)
    requires Inv(s) && !OnlyPath(s, d, IndexOf(s, d)) && FailsOverTo(Slots(s, d), on, IndexOf(s, d), i)
    ensures (d, i) in s.slots && i != IndexOf(s, d)
  {
    var k :| k in s.slots && k.0 == d && k.1 != IndexOf(s, d);
    assert k == (d, k.1) && KeyOk(s, Key(0, Hand, d, k.1, 0, Retry, 0));
    assert Slots(s, d)[k.1] == Slot(s, d, k.1);
    OtherIsFound(Slots(s, d), on, IndexOf(s, d), i, k.1);
    assert Slots(s, d)[i] == Slot(s, d, i);
  }

  /** With another path in the device a failover to what ExampleGetFailoverPathIndex finds is always possible. */
  lemma FailoverIsPossible(s: State, i: nat, on: set<Path>)
    requires Inv(s) && s.world.Deciding? && IsPlaced(s, s.world.c)
    requires var d := s.devOf[s.world.c];
             !OnlyPath(s, d, IndexOf(s, d)) && FailsOverTo(Slots(s, d), on, IndexOf(s, d), i)
    ensures EnabledWorld(s, Failover(i, on))
  {
    OtherSlotIsFound(s, s.devOf[s.world.c], i, on);
  }

  /** The retry world never hangs: in every reachable state it has a next step, unless it waits for commands. */
  lemma WorldIsNeverStuck(s: State, on: set<Path>) returns (e: WorldStep)
    requires Inv(s) && !(s.world == Idle && s.retryQueue == [])
    ensures EnabledWorld(s, e)
  {
    if s.retryQueue != [] {
      assert KeyOk(s, Key(s.retryQueue[0], Hand, 0, 0, 0, Retry, 0));
    }
    if InHandOf(s.world).Some? {
      assert KeyOk(s, Key(InHandOf(s.world).value, Hand, 0, 0, 0, Retry, 0));
    }
    match s.world
    case Idle => e := Take;
    case Took(_) => e := Peek;
    case Peeking(_, p) => e := Unpeek(p !in on);
    case Deciding(c) =>
      var d := s.devOf[c];
      if OnlyPath(s, d, IndexOf(s, d)) {
        e := NoFailover;
      } else {
        assert KeyOk(s, Key(0, Hand, d, IndexOf(s, d), 0, Retry, 0)) && KeyOk(s, Key(c, Hand, d, 0, 0, Retry, 0));
        var i := FailoverExists(Slots(s, d), on, IndexOf(s, d));
        FailoverIsPossible(s, i, on);
        e := Failover(i, on);
      }
    case Failing(_, _) => e := FailedOver;
    case Ready(_) => e := Reissue;
    case Unblocking(_) => e := Release;
  }

  /** Nor does a command: until it is back something can happen to it, or the retry world has it in its hand. */
  lemma CommandIsNeverStuck(s: State, c: Cmd) returns (e: CmdStep)
    requires Inv(s) && LifeOf(s, c) != New && LifeOf(s, c) != Back && LifeOf(s, c) != Retrying
    ensures EnabledCmd(s, e) && Happens(s, OfCmd(e), c).Some?
  {
    assert KeyOk(s, Key(c, Hand, 0, 0, 0, Retry, 0));
    match s.place[c]
    case Flight(_, _) => e := Complete(c);
    case Blocking(_, _) => e := Enqueue(c);
    case Queued => e := Abort(c);
    case Aborting => e := Aborted(c);
  }

  /** The steps that give d another active path: a failover for one of its commands, and the unclaim of the active
      path. */
  predicate Switches(s: State, e: Step, d: Dev) {
    match e
    case OfWorld(Failover(_, _)) => s.world.Deciding? && IsPlaced(s, s.world.c) && s.devOf[s.world.c] == d
    case OfPath(Unclaim(b, i, _, _)) => b == d && i == IndexOf(s, d)
    case _ => false
  }

  lemma ActiveStays(s: State, e: Step, d: Dev)
    requires Inv(s) && Enabled(s, e) && ActivePath(s, d).Some? && !Switches(s, e, d)
    ensures ActivePath(Next(s, e), d) == ActivePath(s, d)
  {
    var p := ActivePath(s, d).value;
    StepEffect(s, e, 0, p);
    if e.OfWorld? && e.ws.Failover? {
      FailoverMovesActive(s, e.ws.i, e.ws.on, d);
    } else {
      if e.OfPath? && e.ps.Unclaim? {
        UnclaimKeepsIndex(s, e.ps.d, e.ps.i, e.ps.j, e.ps.on, d);
      }
      ActiveInSlot(s, e, Next(s, e), d, p);
    }
  }

  lemma ActiveInSlot(s: State, e: Step, z: State, d: Dev, p: Path)
    requires Inv(s) && ActivePath(s, d) == Some(p) && Effect(s, e, z, 0, p) && IndexOf(z, d) == IndexOf(s, d)
    requires !IsUnclaim(e, (d, IndexOf(s, d)))
    ensures ActivePath(z, d) == Some(p)
  {
    assert KeyOk(s, Key(0, Hand, d, IndexOf(s, d), 0, Retry, p));
  }

  lemma UnclaimKeepsIndex(s: State, d: Dev, i: nat, j: nat, on: set<Path>, e: Dev)
    requires EnabledPath(s, Unclaim(d, i, j, on)) && ActivePath(s, e).Some? && !(e == d && i == IndexOf(s, e))
    ensures IndexOf(NextPath(s, Unclaim(d, i, j, on)), e) == IndexOf(s, e)
  {
    if e == d {
      assert (d, IndexOf(s, d)) in s.slots;
    }
  }

  /** No step of the run gives d another active path. */
  ghost predicate Steady(s: State, steps: seq<Step>, d: Dev)
    requires Possible(s, steps)
    decreases |steps|
  {
    steps == [] || (!Switches(s, steps[0], d) && Steady(Next(s, steps[0]), steps[1..], d))
  }

  lemma {:induction false} ActiveStaysInRun(s: State, steps: seq<Step>, d: Dev)
    requires Inv(s) && Possible(s, steps) && Steady(s, steps, d) && ActivePath(s, d).Some?
    ensures ActivePath(Run(s, steps), d) == ActivePath(s, d)
    decreases |steps|
  {
    if steps != [] {
      ActiveStays(s, steps[0], d);
      NextKeepsInv(s, steps[0]);
      ActiveStaysInRun(Next(s, steps[0]), steps[1..], d);
    }
  }

  /** A command whose failover is followed by no other switch is tried again on the path the failover found, and not
      on the one that was active. */
  lemma RetriedWhereFailedOver(s: State, i: nat, on: set<Path>, n: State, between: seq<Step>, m: State)
    requires Inv(s) && EnabledWorld(s, Failover(i, on)) && n == NextWorld(s, Failover(i, on))
    requires Possible(n, between) && Steady(n, between, s.devOf[s.world.c]) && m == Run(n, between)
    requires m.world == Ready(s.world.c) && EnabledWorld(m, Reissue)
    ensures var p := Slot(s, s.devOf[s.world.c], i);
            && p.Some? && p != ActivePath(s, s.devOf[s.world.c])
            && NextWorld(m, Reissue).place[s.world.c] == Flight(m.issues, p.value)
  {
    var d := s.devOf[s.world.c];
    FailoverMovesActive(s, i, on, d);
    NextKeepsInv(s, OfWorld(Failover(i, on)));
    ActiveStaysInRun(n, between, d);
    RunKeepsDevice(n, between, s.world.c);
    RunKeepsInv(n, between);
    ReissueGoesToActive(m);
  }

  /** The commands issued to p whose completion has not let go of it, and those of them about to. */
  ghost function OnPath(s: State, p: Path): set<Cmd> {
    set c | c in s.place && (s.place[c].Flight? || s.place[c].Blocking?) && s.place[c].p == p
  }

  ghost function LettingGo(s: State, p: Path): set<nat> {
    set x | x in s.ending && x.1 == p :: x.0
  }

  /** Sets that a map carries one onto the other have the same size. */
  lemma {:induction false} SameSize(cs: set<Cmd>, ns: set<nat>, m: map<Cmd, nat>)
    requires forall c :: c in cs ==> c in m && m[c] in ns
    requires forall n :: n in ns ==> exists c :: c in cs && m[c] == n
    requires forall b, c :: b in cs && c in cs && m[b] == m[c] ==> b == c
    ensures |cs| == |ns|
    decreases |cs|
  {
    if cs == {} {
      assert ns == {};
    } else {
      var c :| c in cs;
      SameSize(cs - {c}, ns - {m[c]}, m);
    }
  }

  /** The command count of a path is exactly the number of commands on it and of those being let go of, commands
      sent to it directly included. */
  lemma ActiveMeansCommands(s: State, p: Path)
    requires Inv(s)
    ensures At(s.active, p) == |OnPath(s, p)| + |LettingGo(s, p)|
  {
    var all := set x | x in s.holds && x.1 == p :: x.0;
    var ns := all - LettingGo(s, p);
    var m := map c | c in OnPath(s, p) :: s.place[c].n;
    forall c | c in OnPath(s, p) ensures m[c] in ns {
      assert KeyOk(s, Key(c, Hand, 0, 0, 0, Retry, 0));
      assert (m[c], p) in s.holds && (m[c], p) !in s.ending;
    }
    forall n | n in ns ensures exists c :: c in OnPath(s, p) && m[c] == n {
      assert (n, p) in s.holds && (n, p) !in s.ending;
      assert KeyOk(s, Key(0, Hand, 0, 0, n, Retry, p));
      assert s.owner[n] in OnPath(s, p) && m[s.owner[n]] == n;
    }
    forall b, c | b in OnPath(s, p) && c in OnPath(s, p) && m[b] == m[c] ensures b == c {
      assert KeyOk(s, Key(b, Hand, 0, 0, 0, Retry, 0)) && KeyOk(s, Key(c, Hand, 0, 0, 0, Retry, 0));
    }
    SameSize(OnPath(s, p), ns, m);
    forall n | n in LettingGo(s, p) ensures n in all {
      assert KeyOk(s, Key(0, Hand, 0, 0, n, Retry, p));
    }
    assert |all| == |ns| + |LettingGo(s, p)|;
    forall n ensures n in all <==> (n, p) in s.holds {}
    CountIsSize(s.holds, all, p);
    assert CountsOk(s, p);
  }

  /** The steps of the retry world in a run. */
  function WorldSteps(steps: seq<Step>): seq<WorldStep> {
    if steps == [] then []
    else (if steps[0].OfWorld? then [steps[0].ws] else []) + WorldSteps(steps[1..])
  }

  /** The ways from phase f to the reissue: the active path is looked at, and if it is off a failover follows or
      there is no other path. */
  predicate Leads(f: Phase, ws: seq<WorldStep>)
    decreases |ws|
  {
    match f
    case Between => false
    case Picked => ws != [] && ws[0] == Peek && Leads(Looking, ws[1..])
    case Looking => ws != [] && ws[0].Unpeek? && Leads(if ws[0].failoverNeeded then Choosing else Willing, ws[1..])
    case Choosing =>
      ws != [] && ((ws[0] == NoFailover && Leads(Willing, ws[1..]))
                   || (ws[0].Failover? && Leads(Switching, ws[1..])))
    case Switching => ws != [] && ws[0] == FailedOver && Leads(Willing, ws[1..])
    case Willing => ws == []
  }

  /** A command is never issued again unlooked at: between the pick and the reissue the retry world has taken
      one of these ways and no other. */
  lemma {:induction false} RetryIsChecked(s: State, steps: seq<Step>)
    requires Inv(s) && Possible(s, steps) && PhaseOf(s.world) != Between
    requires OfWorld(Reissue) !in steps && Enabled(Run(s, steps), OfWorld(Reissue))
    ensures Leads(PhaseOf(s.world), WorldSteps(steps))
    decreases |steps|
  {
    if steps != [] {
      var n := Next(s, steps[0]);
      assert steps[0] in steps;
      StepEffect(s, steps[0], 0, 0);
      NextKeepsInv(s, steps[0]);
      RetryIsChecked(n, steps[1..]);
      var rest := WorldSteps(steps[1..]);
      if steps[0].OfWorld? {
        assert WorldSteps(steps)[0] == steps[0].ws && WorldSteps(steps)[1..] == rest;
      } else {
        assert WorldSteps(steps) == rest;
      }
    }
  }

  /** a is ahead of b. */
  ghost predicate Ahead(q: seq<Cmd>, a: Cmd, b: Cmd) {
    exists i, j :: 0 <= i < j < |q| && q[i] == a && q[j] == b
  }

  lemma {:induction false} WithoutKeepsOrder(q: seq<Cmd>, c: Cmd, a: Cmd, b: Cmd)
    requires Ahead(q, a, b) && a != c && b != c
    ensures Ahead(Without(q, c), a, b)
  {
    var i, j :| 0 <= i < j < |q| && q[i] == a && q[j] == b;
    if q[0] == c {
      assert q[1..][i - 1] == a && q[1..][j - 1] == b;
    } else if i > 0 {
      assert q[1..][i - 1] == a && q[1..][j - 1] == b;
      WithoutKeepsOrder(q[1..], c, a, b);
      var w := Without(q[1..], c);
      var k, l :| 0 <= k < l < |w| && w[k] == a && w[l] == b;
      assert Without(q, c)[k + 1] == a && Without(q, c)[l + 1] == b;
    } else {
      WithoutKeeps(q[1..], c, b, j - 1);
      var w := Without(q[1..], c);
      var l :| 0 <= l < |w| && w[l] == b;
      assert Without(q, c)[0] == a && Without(q, c)[l + 1] == b;
    }
  }

  lemma {:induction false} WithoutKeeps(q: seq<Cmd>, c: Cmd, b: Cmd, j: nat)
    requires j < |q| && q[j] == b && b != c
    ensures b in Without(q, c)
  {
    if q[0] != c && j > 0 { WithoutKeeps(q[1..], c, b, j - 1); }
  }

  /** A step that leaves both in the queue leaves a ahead of b, and new ones come behind. */
  lemma OrderStays(q: seq<Cmd>, e: Step, a: Cmd, b: Cmd)
    requires Ahead(q, a, b) && e != OfCmd(Abort(a)) && e != OfCmd(Abort(b)) && !(e == OfWorld(Take) && q[0] == a)
    ensures Ahead(QueueAfter(q, e), a, b)
  {
    var i, j :| 0 <= i < j < |q| && q[i] == a && q[j] == b;
    match e
    case OfCmd(Enqueue(c)) => assert (q + [c])[i] == a && (q + [c])[j] == b;
    case OfCmd(Abort(c)) => WithoutKeepsOrder(q, c, a, b);
    case OfWorld(Take) => assert q[1..][i - 1] == a && q[1..][j - 1] == b;
    case _ =>
  }

  /** What ends the order of a and b in a step. */
  predicate Parts(s: State, e: Step, a: Cmd, b: Cmd) {
    Happens(s, e, a) == Some(Pick) || Happens(s, e, a) == Some(Cancel) || Happens(s, e, b) == Some(Cancel)
  }

  lemma StepKeepsOrder(s: State, e: Step, a: Cmd, b: Cmd)
    requires Inv(s) && Enabled(s, e) && Ahead(s.retryQueue, a, b) && !Parts(s, e, a, b)
    ensures Ahead(Next(s, e).retryQueue, a, b)
  {
    StepEffect(s, e, a, 0);
    OrderStays(s.retryQueue, e, a, b);
  }

  lemma InTrace(s: State, steps: seq<Step>, n: State, c: Cmd, v: Event)
    requires Possible(s, steps) && steps != [] && n == Next(s, steps[0])
    ensures Happens(s, steps[0], c) == Some(v) || v in Trace(n, steps[1..], c) ==> v in Trace(s, steps, c)
  {
    TraceGoesOn(s, steps, n, c);
    if Happens(s, steps[0], c) == Some(v) {
      assert v in Trace(s, steps, c)[..1];
    }
  }

  /** Commands are tried again in the order they failed: one that is ahead of another stays so until it is picked or
      cancelled, or the other is cancelled. */
  lemma {:induction false} RetriedInOrder(s: State, steps: seq<Step>, a: Cmd, b: Cmd)
    requires Inv(s) && Possible(s, steps) && Ahead(s.retryQueue, a, b)
    ensures || Ahead(Run(s, steps).retryQueue, a, b)
            || Pick in Trace(s, steps, a) || Cancel in Trace(s, steps, a) || Cancel in Trace(s, steps, b)
    decreases |steps|
  {
    if steps != [] {
      var n := Next(s, steps[0]);
      InTrace(s, steps, n, a, Pick);
      InTrace(s, steps, n, a, Cancel);
      InTrace(s, steps, n, b, Cancel);
      if !Parts(s, steps[0], a, b) {
        StepKeepsOrder(s, steps[0], a, b);
        NextKeepsInv(s, steps[0]);
        RetriedInOrder(n, steps[1..], a, b);
      }
    }
  }

  /** The head of the queue is what the retry world takes, so nobody who is behind another. */
  lemma TakenIsFirst(s: State, a: Cmd, b: Cmd)
    requires Inv(s) && EnabledWorld(s, Take) && Ahead(s.retryQueue, a, b)
    ensures Happens(s, OfWorld(Take), b).None?
  {
  }
}
