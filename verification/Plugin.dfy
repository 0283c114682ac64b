/** The retry machine of vmware_kernel/mpp/mp_plugin_example.c: commands issued to the active path of a device, retried
    on another path by the retry world, aborted by task management, while paths are claimed and unclaimed. One step
    of the model is what a context does between two points where another can come in between. */
module Plugin {
  import opened Common

  type Dev = nat
  type Path = nat
  type Cmd = nat

  /** EXAMPLE_MAX_PATHS_PER_DEVICE */
  const MAX_PATHS: nat := 16

  /** Where a command is; n numbers the issues to a path, and each owns the counts it took on that path. */
  datatype Place =
    | Flight(n: nat, p: Path)
    | Blocking(n: nat, p: Path)
    | Queued
    | InHand
    | Aborting
    | Done

  /** What the retry world is at. */
  datatype World =
    | Idle
    | Took(c: Cmd)
    | Peeking(c: Cmd, p: Path)
    | Deciding(c: Cmd)
    | Failing(c: Cmd, p: Path)
    | Ready(c: Cmd)
    | Unblocking(d: Dev)

  datatype Blocker = Hand | Of(c: Cmd)

  datatype Temp = Retry | Management(k: nat)

  /** First what the plugin keeps: block counts, commands of a device, commands and references of a path, the retry
      queue, the paths of a device and which is active, what the retry world is at, and the commands handed back.
      Then what the proof adds: where every command is, the commands that keep a device blocked, the commands a
      device has not got back, the issues that hold a path and those about to let go, the passing references, whose
      issue an issue was, the slot a path was claimed for, and the paths taken out of their device or freed. fault:
      an assert has failed, or a command found no active path. strays: the task managements that went on with what
      is in their path's slot when the path was no longer there. */
  datatype State = State(
    blocked: map<Dev, int>, busy: map<Dev, int>, active: map<Path, int>, refs: map<Path, int>,
    retryQueue: seq<Cmd>, slots: map<(Dev, nat), Path>, index: map<Dev, nat>, open: set<Dev>,
    world: World, handedBack: multiset<Cmd>, devOf: map<Cmd, Dev>, place: map<Cmd, Place>,
    blockers: set<(Blocker, Dev)>, pending: set<(Cmd, Dev)>, holds: set<(nat, Path)>, ending: set<(nat, Path)>,
    temps: set<(Temp, Path)>, issues: nat, owner: map<nat, Cmd>, home: map<Path, (Dev, nat)>,
    draining: set<Path>, freed: set<Path>, strays: set<nat>, fault: bool)

  const START :=
    State(map[], map[], map[], map[], [], map[], map[], {}, Idle, multiset{}, map[], map[], {}, {}, {}, {}, {}, 0,
          map[], map[], {}, {}, {}, false)

  function At(m: map<nat, int>, k: nat): int {
    if k in m then m[k] else 0
  }

  /** How many pairs of s are for d. */
  ghost function CountAt<K>(s: set<(K, nat)>, d: nat): nat {
    |set x | x in s && x.1 == d|
  }

  lemma CountAdds<K>(s: set<(K, nat)>, k: K, d: nat, e: nat)
    requires (k, d) !in s
    ensures CountAt(s + {(k, d)}, e) == CountAt(s, e) + if e == d then 1 else 0
  {
    var was, now := set x | x in s && x.1 == e, set x | x in s + {(k, d)} && x.1 == e;
    assert now == if e == d then was + {(k, d)} else was;
  }

  lemma CountDrops<K>(s: set<(K, nat)>, k: K, d: nat, e: nat)
    requires (k, d) in s
    ensures CountAt(s - {(k, d)}, e) == CountAt(s, e) - if e == d then 1 else 0
  {
    assert s - {(k, d)} + {(k, d)} == s;
    CountAdds(s - {(k, d)}, k, d, e);
  }

  lemma CountIsZero<K>(s: set<(K, nat)>, d: nat)
    ensures CountAt(s, d) == 0 <==> forall x :: x in s ==> x.1 != d
  {
    var t := set x | x in s && x.1 == d;
    if t == {} {
      forall x | x in s ensures x.1 != d {
        assert x !in t;
      }
    } else {
      var x :| x in t;
      assert x in s && x.1 == d;
    }
  }

  predicate IsBlocked(s: State, d: Dev) {
    At(s.blocked, d) > 0
  }

  /** exDev->paths[i] */
  function Slot(s: State, d: Dev, i: nat): Option<Path> {
    if (d, i) in s.slots then Some(s.slots[(d, i)]) else None
  }

  /** exDev->paths */
  function Slots(s: State, d: Dev): (paths: seq<Option<Path>>)
    ensures |paths| == MAX_PATHS && forall i :: 0 <= i < MAX_PATHS ==> paths[i] == Slot(s, d, i)
  {
    seq(MAX_PATHS, i requires 0 <= i < MAX_PATHS => Slot(s, d, i))
  }

  /** exDev->activePathIndex, which is 0 in a new device. */
  function IndexOf(s: State, d: Dev): nat {
    if d in s.index then s.index[d] else 0
  }

  /** exDev->paths[exDev->activePathIndex] */
  function ActivePath(s: State, d: Dev): Option<Path> {
    Slot(s, d, IndexOf(s, d))
  }

  /** The slot p was claimed for still holds p. */
  predicate InSlot(s: State, p: Path) {
    p in s.home && s.home[p] in s.slots && s.slots[s.home[p]] == p
  }

  predicate IsAt(p: Option<Path>, on: set<Path>) {
    p.Some? && p.value in on
  }

  /** The slot k places on from i, going around, and how many places on r is. */
  function Around(i: nat, k: nat, size: nat): nat
    requires i < size && k < size
  {
    if i + k < size then i + k else i + k - size
  }

  function PlacesOn(i: nat, r: nat, size: nat): nat
    requires i < size && r < size
  {
    if i <= r then r - i else r + size - i
  }

  lemma AroundStep(i: nat, k: nat, size: nat)
    requires i < size && k < size
    ensures (Around(i, k, size) + 1) % size == if k + 1 == size then i else Around(i, k + 1, size)
  {
    var a := Around(i, k, size);
    assert a + 1 < size ==> (a + 1) % size == a + 1;
    assert a + 1 == size ==> (a + 1) % size == 0;
  }

  /** r is the next slot around whose path is on; else the next that has a path; else, and only if there is no other
      path, the one there was. */
  predicate FailsOverTo(paths: seq<Option<Path>>, on: set<Path>, original: nat, r: nat) {
    && original < |paths| && r < |paths|
    && (r == original ==> forall j :: 0 < j < |paths| ==> paths[Around(original, j, |paths|)].None?)
    && (r != original ==> paths[r].Some?)
    && (r != original && IsAt(paths[r], on) ==>
          forall j :: 0 < j < PlacesOn(original, r, |paths|) ==> !IsAt(paths[Around(original, j, |paths|)], on))
    && (r != original && !IsAt(paths[r], on) ==>
          && (forall j :: 0 < j < |paths| ==> !IsAt(paths[Around(original, j, |paths|)], on))
          && (forall j :: 0 < j < PlacesOn(original, r, |paths|) ==> paths[Around(original, j, |paths|)].None?))
  }

  lemma AroundIsPlacesOn(i: nat, r: nat, size: nat)
    requires i < size && r < size
    ensures Around(i, PlacesOn(i, r, size), size) == r && (r != i ==> 0 < PlacesOn(i, r, size) < size)
  {
  }

  /** There is one such slot. */
  lemma FailoverIsUnique(paths: seq<Option<Path>>, on: set<Path>, original: nat, q: nat, r: nat)
    requires FailsOverTo(paths, on, original, q) && FailsOverTo(paths, on, original, r)
    ensures q == r
  {
    AroundIsPlacesOn(original, q, |paths|);
    AroundIsPlacesOn(original, r, |paths|);
    var a, b := PlacesOn(original, q, |paths|), PlacesOn(original, r, |paths|);
    assert paths[Around(original, a, |paths|)] == paths[q] && paths[Around(original, b, |paths|)] == paths[r];
  }

  lemma {:induction false} FirstOn(paths: seq<Option<Path>>, on: set<Path>, original: nat, j: nat) returns (a: nat)
    requires original < |paths| && 1 <= j <= |paths|
    ensures j <= a <= |paths| && (a < |paths| ==> IsAt(paths[Around(original, a, |paths|)], on))
    ensures forall k :: j <= k < a ==> !IsAt(paths[Around(original, k, |paths|)], on)
    decreases |paths| - j
  {
    if j == |paths| || IsAt(paths[Around(original, j, |paths|)], on) {
      a := j;
    } else {
      a := FirstOn(paths, on, original, j + 1);
    }
  }

  lemma {:induction false} FirstThere(paths: seq<Option<Path>>, original: nat, j: nat) returns (a: nat)
    requires original < |paths| && 1 <= j <= |paths|
    ensures j <= a <= |paths| && (a < |paths| ==> paths[Around(original, a, |paths|)].Some?)
    ensures forall k :: j <= k < a ==> paths[Around(original, k, |paths|)].None?
    decreases |paths| - j
  {
    if j == |paths| || paths[Around(original, j, |paths|)].Some? {
      a := j;
    } else {
      a := FirstThere(paths, original, j + 1);
    }
  }

  /** And there always is one. */
  lemma FailoverExists(paths: seq<Option<Path>>, on: set<Path>, original: nat) returns (r: nat)
    requires original < |paths|
    ensures FailsOverTo(paths, on, original, r)
  {
    var n := |paths|;
    var a := FirstOn(paths, on, original, 1);
    var b := FirstThere(paths, original, 1);
    r := if a < n then Around(original, a, n) else if b < n then Around(original, b, n) else original;
    assert a < n ==> PlacesOn(original, r, n) == a;
    assert a == n && b < n ==> PlacesOn(original, r, n) == b;
  }

  /** With another path there, it is another slot. */
  lemma OtherIsFound(paths: seq<Option<Path>>, on: set<Path>, original: nat, r: nat, k: nat)
    requires FailsOverTo(paths, on, original, r) && k < |paths| && k != original && paths[k].Some?
    ensures r != original && paths[r].Some? && (paths[k].value in on ==> paths[r].value in on)
  {
    AroundIsPlacesOn(original, k, |paths|);
    assert paths[Around(original, PlacesOn(original, k, |paths|), |paths|)] == paths[k];
  }

  function Block(s: State, c: Cmd, d: Dev): State {
    s.(blocked := s.blocked[d := At(s.blocked, d) + 1], blockers := s.blockers + {(Of(c), d)})
  }

  function Unblock(s: State, b: Blocker, d: Dev): State {
    s.(blocked := s.blocked[d := At(s.blocked, d) - 1], blockers := s.blockers - {(b, d)},
       fault := s.fault || !IsBlocked(s, d))
  }

  function IncRef(s: State, t: Temp, p: Path): State {
    s.(refs := s.refs[p := At(s.refs, p) + 1], temps := s.temps + {(t, p)})
  }

  function DecRef(s: State, t: Temp, p: Path): State {
    s.(refs := s.refs[p := At(s.refs, p) - 1], temps := s.temps - {(t, p)}, fault := s.fault || At(s.refs, p) <= 0)
  }

  /** The counts a command takes on the path it is issued to. */
  function IssuedTo(s: State, c: Cmd, p: Path): State {
    s.(active := s.active[p := At(s.active, p) + 1], refs := s.refs[p := At(s.refs, p) + 1],
       place := s.place[c := Flight(s.issues, p)], holds := s.holds + {(s.issues, p)},
       owner := s.owner[s.issues := c], issues := s.issues + 1)
  }

  /** A command sent to the path itself takes the same counts, and its completion lets go of them and no more. */
  function IssuedDirectly(s: State, p: Path): State {
    s.(active := s.active[p := At(s.active, p) + 1], refs := s.refs[p := At(s.refs, p) + 1],
       holds := s.holds + {(s.issues, p)}, ending := s.ending + {(s.issues, p)}, issues := s.issues + 1)
  }

  /** The end of Example_CompletePathCommand. */
  function LetGo(s: State, n: nat, p: Path): State {
    s.(active := s.active[p := At(s.active, p) - 1], refs := s.refs[p := At(s.refs, p) - 1],
       holds := s.holds - {(n, p)}, ending := s.ending - {(n, p)}, fault := s.fault || At(s.refs, p) <= 0)
  }

  /** ExampleCompleteDeviceCommand */
  function CompletedTo(s: State, c: Cmd, d: Dev): State {
    s.(busy := s.busy[d := At(s.busy, d) - 1], place := s.place[c := Done], pending := s.pending - {(c, d)},
       handedBack := s.handedBack + multiset{c})
  }

  /** What happens to a command outside the retry world: start, completion callback, task management. */
  datatype CmdStep =
    | Issue(c: Cmd, d: Dev)
    | Complete(c: Cmd)
    | Fail(c: Cmd)
    | Enqueue(c: Cmd)
    | Deref(n: nat, p: Path)
    | Abort(c: Cmd)
    | Aborted(c: Cmd)

  datatype WorldStep =
    | Take
    | Peek
    | Unpeek(failoverNeeded: bool)
    | NoFailover
    | Failover(i: nat, on: set<Path>)
    | FailedOver
    | Reissue
    | Release

  datatype PathStep =
    | Claim(d: Dev, i: nat, p: Path)
    | Open(d: Dev)
    | Close(d: Dev)
    | ManagePath(k: nat, d: Dev, i: nat)
    | UseManaged(k: nat, p: Path)
    | ManagedPath(k: nat, p: Path)
    | IssueDirect(p: Path)
    | Unclaim(d: Dev, i: nat, j: nat, on: set<Path>)
    | Destroy(p: Path)

  datatype Step = OfCmd(cs: CmdStep) | OfWorld(ws: WorldStep) | OfPath(ps: PathStep)

  /** An assert at the top of ExampleDevice_AttemptFailover or ExampleRetryCmd fails. */
  predicate AttemptAsserts(s: State, d: Dev) {
    !IsBlocked(s, d) || d !in s.open
  }

  /** The command the retry world has taken from its queue and not yet issued. */
  function InHandOf(w: World): Option<Cmd> {
    match w
    case Idle => None
    case Unblocking(_) => None
    case Took(c) => Some(c)
    case Peeking(c, _) => Some(c)
    case Deciding(c) => Some(c)
    case Failing(c, _) => Some(c)
    case Ready(c) => Some(c)
  }

  predicate IsPlaced(s: State, c: Cmd) {
    c in s.place && c in s.devOf
  }

  /** What the steps need to be possible at all; a device is used while it is open and closed when all its commands
      are back, and it is not left without a path while it is open. on holds the paths whose state is on. */
  predicate EnabledCmd(s: State, e: CmdStep) {
    match e
    case Issue(c, d) => c !in s.place && d in s.open
    case Complete(c) => IsPlaced(s, c) && s.place[c].Flight?
    case Fail(c) => IsPlaced(s, c) && s.place[c].Flight?
    case Enqueue(c) => IsPlaced(s, c) && s.place[c].Blocking?
    case Deref(n, p) => (n, p) in s.ending
    case Abort(c) => IsPlaced(s, c) && c in s.retryQueue
    case Aborted(c) => IsPlaced(s, c) && s.place[c] == Aborting
  }

  predicate EnabledWorld(s: State, e: WorldStep) {
    match e
    case Take => s.world == Idle && s.retryQueue != [] && IsPlaced(s, s.retryQueue[0])
    case Peek => s.world.Took? && IsPlaced(s, s.world.c)
    case Unpeek(_) => s.world.Peeking?
    case NoFailover =>
      s.world.Deciding? && IsPlaced(s, s.world.c)
      && var d := s.devOf[s.world.c]; OnlyPath(s, d, IndexOf(s, d))
    case Failover(i, on) =>
      s.world.Deciding? && IsPlaced(s, s.world.c)
      && var d := s.devOf[s.world.c];
         && !OnlyPath(s, d, IndexOf(s, d)) && (d, i) in s.slots
         && FailsOverTo(Slots(s, d), on, IndexOf(s, d), i)
    case FailedOver => s.world.Failing?
    case Reissue => s.world.Ready? && IsPlaced(s, s.world.c)
    case Release => s.world.Unblocking?
  }

  predicate EnabledPath(s: State, e: PathStep) {
    match e
    case Claim(d, i, p) =>
      i < MAX_PATHS && (d, i) !in s.slots && p !in s.home && forall k: nat :: k < i ==> (d, k) in s.slots
    case Open(d) => ActivePath(s, d).Some?
    case Close(d) => At(s.busy, d) == 0
    case ManagePath(k, d, i) => (d, i) in s.slots && forall x :: x in s.temps ==> x.0 != Management(k)
    case UseManaged(k, p) => (Management(k), p) in s.temps
    case ManagedPath(k, p) => (Management(k), p) in s.temps
    case IssueDirect(p) => InSlot(s, p)
    case Unclaim(d, i, j, on) =>
      && (d, i) in s.slots && (d in s.open ==> !OnlyPath(s, d, i))
      && (IndexOf(s, d) == i ==> FailsOverTo(Slots(s, d), on, i, j))
    case Destroy(p) => p in s.draining && At(s.refs, p) <= 0
  }

  predicate Enabled(s: State, e: Step) {
    match e
    case OfCmd(c) => EnabledCmd(s, c)
    case OfWorld(w) => EnabledWorld(s, w)
    case OfPath(p) => EnabledPath(s, p)
  }

  predicate OnlyPath(s: State, d: Dev, i: nat) {
    forall k :: k in s.slots && k.0 == d ==> k.1 == i
  }

  function Without(q: seq<Cmd>, c: Cmd): seq<Cmd> {
    if q == [] then [] else if q[0] == c then q[1..] else [q[0]] + Without(q[1..], c)
  }

  function NextCmd(s: State, e: CmdStep): State
    requires EnabledCmd(s, e)
  {
    match e
    case Issue(c, d) => Issued(s, c, d)
    case Complete(c) =>
      CompletedTo(s, c, s.devOf[c]).(ending := s.ending + {(s.place[c].n, s.place[c].p)})
    case Fail(c) => Block(s, c, s.devOf[c]).(place := s.place[c := Blocking(s.place[c].n, s.place[c].p)])
    case Enqueue(c) =>
      s.(place := s.place[c := Queued], retryQueue := s.retryQueue + [c],
         ending := s.ending + {(s.place[c].n, s.place[c].p)})
    case Deref(n, p) => LetGo(s, n, p)
    case Abort(c) =>
      Unblock(s, Of(c), s.devOf[c]).(place := s.place[c := Aborting], retryQueue := Without(s.retryQueue, c))
    case Aborted(c) => CompletedTo(s, c, s.devOf[c])
  }

  function NextWorld(s: State, e: WorldStep): State
    requires EnabledWorld(s, e)
  {
    match e
    case Take =>
      var c := s.retryQueue[0];
      s.(retryQueue := s.retryQueue[1..], place := s.place[c := InHand], world := Took(c),
         blockers := s.blockers - {(Of(c), s.devOf[c])} + {(Hand, s.devOf[c])})
    case Peek => Peeked(s, s.world.c, s.devOf[s.world.c])
    case Unpeek(failoverNeeded) =>
      DecRef(s, Retry, s.world.p).(world := if failoverNeeded then Deciding(s.world.c) else Ready(s.world.c))
    case NoFailover =>
      s.(world := Ready(s.world.c), fault := s.fault || AttemptAsserts(s, s.devOf[s.world.c]))
    case Failover(i, _) =>
      var d := s.devOf[s.world.c];
      var p := s.slots[(d, i)];
      IncRef(s, Retry, p).(index := s.index[d := i], world := Failing(s.world.c, p),
                           fault := s.fault || AttemptAsserts(s, d))
    case FailedOver => DecRef(s, Retry, s.world.p).(world := Ready(s.world.c))
    case Reissue =>
      var d := s.devOf[s.world.c];
      var p := ActivePath(s, d);
      if p.None? then s.(fault := true)
      else IssuedTo(s, s.world.c, p.value).(world := Unblocking(d), fault := s.fault || AttemptAsserts(s, d),
                                            busy := s.busy[d := At(s.busy, d) + 1])
    case Release =>
      var d := s.world.d;
      Unblock(s, Hand, d).(world := Idle, busy := s.busy[d := At(s.busy, d) - 1])
  }

  function NextPath(s: State, e: PathStep): State
    requires EnabledPath(s, e)
  {
    match e
    case Claim(d, i, p) =>
      s.(slots := s.slots[(d, i) := p], home := s.home[p := (d, i)])
    case Open(d) => s.(open := s.open + {d})
    case Close(d) => s.(open := s.open - {d})
    case ManagePath(k, d, i) => IncRef(s, Management(k), s.slots[(d, i)])
    case UseManaged(k, p) => if InSlot(s, p) then s else s.(strays := s.strays + {k})
    case ManagedPath(k, p) => DecRef(s, Management(k), p)
    case IssueDirect(p) => IssuedDirectly(s, p)
    // a device goes with its last path
    case Unclaim(d, i, j, _) =>
      s.(slots := s.slots - {(d, i)}, draining := s.draining + {s.slots[(d, i)]},
         index := if OnlyPath(s, d, i) then s.index - {d} else if IndexOf(s, d) == i then s.index[d := j] else s.index)
    case Destroy(p) =>
      s.(draining := s.draining - {p}, freed := s.freed + {p}, fault := s.fault || At(s.active, p) != 0)
  }

  function Next(s: State, e: Step): State
    requires Enabled(s, e)
  {
    match e
    case OfCmd(c) => NextCmd(s, c)
    case OfWorld(w) => NextWorld(s, w)
    case OfPath(p) => NextPath(s, p)
  }

  function Peeked(s: State, c: Cmd, d: Dev): State {
    match ActivePath(s, d)
    case None => s.(fault := true)
    case Some(p) => IncRef(s, Retry, p).(world := Peeking(c, p))
  }

  function Issued(s: State, c: Cmd, d: Dev): State {
    match ActivePath(s, d)
    case None => s.(fault := true)
    case Some(p) =>
      IssuedTo(s, c, p).(busy := s.busy[d := At(s.busy, d) + 1], devOf := s.devOf[c := d],
                         pending := s.pending + {(c, d)})
  }

  ghost predicate CmdOk(s: State, c: Cmd) {
    && (c in s.place <==> c in s.devOf)
    && s.handedBack[c] == (if c in s.place && s.place[c] == Done then 1 else 0)
    && (c in s.retryQueue <==> c in s.place && s.place[c] == Queued)
    && (InHandOf(s.world) == Some(c) <==> c in s.place && s.place[c] == InHand)
    && (c in s.place ==>
        && ((c, s.devOf[c]) in s.pending <==> s.place[c] != Done)
        && ((Of(c), s.devOf[c]) in s.blockers <==> s.place[c].Blocking? || s.place[c] == Queued)
        && (s.place[c] != Done ==> s.devOf[c] in s.open)
        && (s.place[c].Flight? || s.place[c].Blocking? ==> HeldBy(s, c, s.place[c].n, s.place[c].p)))
  }

  /** Issue n of c went to p and its completion has not let go of it. */
  predicate IsOn(s: State, c: Cmd, n: nat, p: Path) {
    c in s.place && (s.place[c] == Flight(n, p) || s.place[c] == Blocking(n, p))
  }

  ghost predicate HeldBy(s: State, c: Cmd, n: nat, p: Path) {
    (n, p) in s.holds && (n, p) !in s.ending && n in s.owner && s.owner[n] == c
  }

  /** The retry world has a command of d in its hand, or has just issued it. */
  predicate InWorld(s: State, d: Dev) {
    var c := InHandOf(s.world);
    s.world == Unblocking(d) || (c.Some? && c.value in s.devOf && s.devOf[c.value] == d)
  }

  ghost predicate BlockerOk(s: State, b: Blocker, d: Dev) {
    (b, d) in s.blockers ==>
      match b
      case Of(c) => c in s.place && c in s.devOf && s.devOf[c] == d
      case Hand => InWorld(s, d)
  }

  ghost predicate PendingOk(s: State, c: Cmd, d: Dev) {
    (c, d) in s.pending ==> c in s.devOf && s.devOf[c] == d
  }

  ghost predicate HoldOk(s: State, n: nat, p: Path) {
    && ((n, p) in s.holds ==> n < s.issues && p !in s.freed && p in s.home)
    && ((n, p) in s.ending ==> (n, p) in s.holds)
    && ((n, p) in s.holds && (n, p) !in s.ending ==> n in s.owner && IsOn(s, s.owner[n], n, p))
    && (n in s.owner ==> n < s.issues)
  }

  ghost predicate TempOk(s: State, t: Temp, p: Path) {
    (t, p) in s.temps ==>
      && p !in s.freed && p in s.home
      && (t == Retry ==> (s.world.Peeking? || s.world.Failing?) && s.world.p == p)
  }

  ghost predicate SlotOk(s: State, d: Dev, i: nat) {
    (d, i) in s.slots ==>
      var p := s.slots[(d, i)];
      i < MAX_PATHS &&
      p in s.home && s.home[p] == (d, i) && p !in s.freed && p !in s.draining
  }

  /** A device that has paths has an active one. */
  ghost predicate DevOk(s: State, d: Dev) {
    && (ActivePath(s, d).None? ==> d !in s.open && d !in s.index && forall i :: (d, i) !in s.slots)
  }

  ghost predicate GoneOk(s: State, p: Path) {
    && (p in s.draining || p in s.freed ==> p in s.home)
    && (p in s.home ==> (InSlot(s, p) <==> p !in s.draining && p !in s.freed))
  }

  /** The counters of device d and path d count what they are for. */
  ghost predicate CountsOk(s: State, d: nat) {
    && At(s.blocked, d) == CountAt(s.blockers, d)
    && At(s.busy, d) == CountAt(s.pending, d) + (if s.world == Unblocking(d) then 1 else 0)
    && At(s.active, d) == CountAt(s.holds, d)
    && At(s.refs, d) == CountAt(s.holds, d) + CountAt(s.temps, d)
  }

  ghost predicate WorldOk(s: State) {
    match s.world
    case Idle => true
    case Unblocking(d) => (Hand, d) in s.blockers
    case _ =>
      && InHandOf(s.world).value in s.devOf && (Hand, s.devOf[InHandOf(s.world).value]) in s.blockers
      && (s.world.Peeking? || s.world.Failing? ==> (Retry, s.world.p) in s.temps)
  }

  /** Everything an invariant is about: a command, a blocker, a device and one of its slots, an issue and a path
      reference, and a path. */
  datatype Key = Key(c: Cmd, b: Blocker, d: Dev, i: nat, n: nat, t: Temp, p: Path)

  ghost predicate KeyOk(s: State, k: Key) {
    CommandsOk(s, k) && RoutesOk(s, k)
  }

  ghost predicate CommandsOk(s: State, k: Key) {
    CmdOk(s, k.c) && BlockerOk(s, k.b, k.d) && PendingOk(s, k.c, k.d) && HoldOk(s, k.n, k.p)
  }

  ghost predicate RoutesOk(s: State, k: Key) {
    TempOk(s, k.t, k.p) && SlotOk(s, k.d, k.i) && DevOk(s, k.d) && GoneOk(s, k.p)
  }

  ghost predicate SameRoutes(s: State, z: State) {
    && z.slots == s.slots && z.index == s.index && z.open == s.open && z.home == s.home
    && z.draining == s.draining && z.freed == s.freed
  }

  ghost predicate SameCommands(s: State, z: State) {
    && z.place == s.place && z.devOf == s.devOf && z.handedBack == s.handedBack && z.retryQueue == s.retryQueue
    && z.pending == s.pending && z.blockers == s.blockers && z.holds == s.holds && z.ending == s.ending
    && z.owner == s.owner && z.issues == s.issues
    && z.open == s.open && z.home == s.home && z.freed == s.freed
    && InHandOf(z.world) == InHandOf(s.world)
    && (z.world == s.world || (!z.world.Unblocking? && !s.world.Unblocking?))
  }

  lemma RoutesStay(s: State, z: State, k: Key)
    requires RoutesOk(s, k) && SameRoutes(s, z)
    ensures SlotOk(z, k.d, k.i) && DevOk(z, k.d) && GoneOk(z, k.p)
  {
  }

  lemma CommandsStay(s: State, z: State, k: Key)
    requires CommandsOk(s, k) && SameCommands(s, z)
    ensures CommandsOk(z, k)
  {
  }

  ghost predicate Inv(s: State) {
    && !s.fault && WorldOk(s)
    && (forall i, j :: 0 <= i < j < |s.retryQueue| ==> s.retryQueue[i] != s.retryQueue[j])
    && (forall k {:trigger KeyOk(s, k)} :: KeyOk(s, k))
    && (forall d {:trigger CountsOk(s, d)} :: CountsOk(s, d))
  }

  lemma {:induction false} WithoutDrops(q: seq<Cmd>, c: Cmd)
    requires forall i, j :: 0 <= i < j < |q| ==> q[i] != q[j]
    ensures forall x :: x in Without(q, c) <==> x in q && x != c
    ensures forall i, j :: 0 <= i < j < |Without(q, c)| ==> Without(q, c)[i] != Without(q, c)[j]
  {
    if q != [] && q[0] != c {
      WithoutDrops(q[1..], c);
      assert q[0] !in q[1..];
      assert forall x :: x in Without(q[1..], c) ==> x != q[0];
    }
  }

  lemma ClaimKeepsInv(s: State, d: Dev, i: nat, p: Path)
    requires Inv(s) && EnabledPath(s, Claim(d, i, p))
    ensures Inv(NextPath(s, Claim(d, i, p)))
  {
    var z := NextPath(s, Claim(d, i, p));
    assert KeyOk(s, Key(0, Hand, d, i, 0, Retry, p));
    forall k ensures KeyOk(z, k) {
      assert KeyOk(s, k);
    }
    forall q ensures CountsOk(z, q) {
      assert CountsOk(s, q);
    }
  }

  lemma OpenKeepsInv(s: State, d: Dev)
    requires Inv(s) && EnabledPath(s, Open(d))
    ensures Inv(NextPath(s, Open(d)))
  {
    var z := NextPath(s, Open(d));
    forall k ensures KeyOk(z, k) {
      assert KeyOk(s, k);
    }
    forall q ensures CountsOk(z, q) {
      assert CountsOk(s, q);
    }
  }

  lemma CloseKeepsInv(s: State, d: Dev)
    requires Inv(s) && EnabledPath(s, Close(d))
    ensures Inv(NextPath(s, Close(d)))
  {
    var z := NextPath(s, Close(d));
    assert KeyOk(s, Key(0, Hand, d, 0, 0, Retry, 0));
    assert CountsOk(s, d);
    CountIsZero(s.pending, d);
    forall k ensures KeyOk(z, k) {
      assert KeyOk(s, k);
      assert k.c in s.place && s.place[k.c] != Done ==> (k.c, s.devOf[k.c]) in s.pending;
    }
    forall q ensures CountsOk(z, q) {
      assert CountsOk(s, q);
    }
  }

  /** z is s after command c of device d has been issued to p. */
  ghost predicate IsIssued(s: State, z: State, c: Cmd, d: Dev, p: Path) {
    && z.place == s.place[c := Flight(s.issues, p)] && z.devOf == s.devOf[c := d]
    && z.holds == s.holds + {(s.issues, p)} && z.ending == s.ending
    && z.owner == s.owner[s.issues := c] && z.issues == s.issues + 1
    && z.retryQueue == s.retryQueue && z.handedBack == s.handedBack && z.blockers == s.blockers && z.open == s.open
    && z.home == s.home && z.freed == s.freed
    && z.pending == s.pending + {(c, d)}
  }

  lemma IssueKeepsHold(s: State, z: State, c: Cmd, d: Dev, p: Path, n: nat, q: Path)
    requires Inv(s) && IsIssued(s, z, c, d, p) && p in s.home && p !in s.freed
    requires c in s.place ==> s.place[c] == InHand
    ensures HoldOk(z, n, q)
  {
    assert KeyOk(s, Key(0, Hand, 0, 0, n, Retry, q));
  }

  lemma IssueKeepsCmd(s: State, z: State, c: Cmd, d: Dev, p: Path, b: Cmd)
    requires Inv(s) && IsIssued(s, z, c, d, p) && b != c
    requires InHandOf(z.world) == (if InHandOf(s.world) == Some(c) then None else InHandOf(s.world))
    ensures CmdOk(z, b)
  {
    assert KeyOk(s, Key(b, Hand, 0, 0, 0, Retry, 0));
    if b in s.place && (s.place[b].Flight? || s.place[b].Blocking?) {
      assert KeyOk(s, Key(0, Hand, 0, 0, s.place[b].n, Retry, s.place[b].p));
    }
  }

  lemma IssueKeepsKey(s: State, z: State, c: Cmd, d: Dev, p: Path, k: Key)
    requires Inv(s) && EnabledCmd(s, Issue(c, d)) && ActivePath(s, d) == Some(p) && z == NextCmd(s, Issue(c, d))
    ensures KeyOk(z, k)
  {
    assert KeyOk(s, Key(c, Of(c), d, 0, 0, Retry, 0));
    assert KeyOk(s, Key(0, Hand, d, IndexOf(s, d), 0, Retry, p));
    assert KeyOk(s, k);
    RoutesStay(s, z, k);
    IssueKeepsHold(s, z, c, d, p, k.n, k.p);
    if k.c != c {
      IssueKeepsCmd(s, z, c, d, p, k.c);
    } else {
      assert KeyOk(s, Key(0, Hand, 0, 0, s.issues, Retry, p));
    }
  }

  lemma IssueKeepsCounts(s: State, z: State, c: Cmd, d: Dev, p: Path, q: nat)
    requires Inv(s) && EnabledCmd(s, Issue(c, d)) && ActivePath(s, d) == Some(p) && z == NextCmd(s, Issue(c, d))
    ensures CountsOk(z, q)
  {
    assert KeyOk(s, Key(c, Hand, d, 0, s.issues, Retry, p));
    assert CountsOk(s, q);
    CountAdds(s.holds, s.issues, p, q);
    CountAdds(s.pending, c, d, q);
  }

  lemma IssueKeepsInv(s: State, c: Cmd, d: Dev)
    requires Inv(s) && EnabledCmd(s, Issue(c, d))
    ensures Inv(NextCmd(s, Issue(c, d)))
  {
    var z := NextCmd(s, Issue(c, d));
    var p := ActivePath(s, d);
    assert KeyOk(s, Key(c, Hand, d, 0, 0, Retry, 0));
    forall k ensures KeyOk(z, k) {
      IssueKeepsKey(s, z, c, d, p.value, k);
    }
    forall q ensures CountsOk(z, q) {
      IssueKeepsCounts(s, z, c, d, p.value, q);
    }
  }

  lemma CompleteKeepsInv(s: State, c: Cmd)
    requires Inv(s) && EnabledCmd(s, Complete(c))
    ensures Inv(NextCmd(s, Complete(c)))
  {
    var z := NextCmd(s, Complete(c));
    var d := s.devOf[c];
    assert KeyOk(s, Key(c, Hand, 0, 0, 0, Retry, 0));
    forall k ensures KeyOk(z, k) {
      assert KeyOk(s, k);
      RoutesStay(s, z, k);
    }
    forall q ensures CountsOk(z, q) {
      assert CountsOk(s, q);
      CountDrops(s.pending, c, d, q);
    }
  }

  lemma FailKeepsInv(s: State, c: Cmd)
    requires Inv(s) && EnabledCmd(s, Fail(c))
    ensures Inv(NextCmd(s, Fail(c)))
  {
    var z := NextCmd(s, Fail(c));
    var d := s.devOf[c];
    assert KeyOk(s, Key(c, Hand, 0, 0, 0, Retry, 0));
    forall k ensures KeyOk(z, k) {
      assert KeyOk(s, k);
      RoutesStay(s, z, k);
    }
    forall q ensures CountsOk(z, q) {
      assert CountsOk(s, q);
      CountAdds(s.blockers, Of(c), d, q);
    }
  }

  lemma EnqueueKeepsInv(s: State, c: Cmd)
    requires Inv(s) && EnabledCmd(s, Enqueue(c))
    ensures Inv(NextCmd(s, Enqueue(c)))
  {
    var z := NextCmd(s, Enqueue(c));
    assert KeyOk(s, Key(c, Hand, 0, 0, 0, Retry, 0));
    forall k ensures KeyOk(z, k) {
      assert KeyOk(s, k);
      RoutesStay(s, z, k);
    }
    forall q ensures CountsOk(z, q) {
      assert CountsOk(s, q);
    }
  }

  lemma DerefKeepsInv(s: State, n: nat, p: Path)
    requires Inv(s) && EnabledCmd(s, Deref(n, p))
    ensures Inv(NextCmd(s, Deref(n, p)))
  {
    var z := NextCmd(s, Deref(n, p));
    assert KeyOk(s, Key(0, Hand, 0, 0, n, Retry, p));
    assert CountsOk(s, p);
    CountIsZero(s.holds, p);
    forall k ensures KeyOk(z, k) {
      assert KeyOk(s, k);
      RoutesStay(s, z, k);
    }
    forall q ensures CountsOk(z, q) {
      assert CountsOk(s, q);
      CountDrops(s.holds, n, p, q);
    }
  }

  lemma TakeKeepsInv(s: State)
    requires Inv(s) && EnabledWorld(s, Take)
    ensures Inv(NextWorld(s, Take))
  {
    var z := NextWorld(s, Take);
    var c := s.retryQueue[0];
    var d := s.devOf[c];
    assert KeyOk(s, Key(c, Hand, d, 0, 0, Retry, 0));
    forall k ensures KeyOk(z, k) {
      assert KeyOk(s, k);
      RoutesStay(s, z, k);
    }
    forall q ensures CountsOk(z, q) {
      assert CountsOk(s, q);
      CountDrops(s.blockers, Of(c), d, q);
      CountAdds(s.blockers - {(Of(c), d)}, Hand, d, q);
    }
  }

  lemma PeekKeepsKey(s: State, z: State, c: Cmd, q: Path, k: Key)
    requires Inv(s) && s.world == Took(c) && q in s.home && q !in s.freed
    requires z == IncRef(s, Retry, q).(world := Peeking(c, q))
    ensures KeyOk(z, k)
  {
    assert KeyOk(s, k);
    RoutesStay(s, z, k);
    CommandsStay(s, z, k);
  }

  lemma PeekKeepsInv(s: State)
    requires Inv(s) && EnabledWorld(s, Peek)
    ensures Inv(NextWorld(s, Peek))
  {
    var z := NextWorld(s, Peek);
    var c := s.world.c;
    var d := s.devOf[c];
    var p := ActivePath(s, d);
    assert KeyOk(s, Key(c, Hand, d, IndexOf(s, d), 0, Retry, 0));
    assert KeyOk(s, Key(0, Hand, 0, 0, 0, Retry, p.value));
    forall k ensures KeyOk(z, k) {
      PeekKeepsKey(s, z, c, p.value, k);
    }
    forall q ensures CountsOk(z, q) {
      assert CountsOk(s, q);
      CountAdds(s.temps, Retry, p.value, q);
    }
  }

  lemma UnpeekKeepsInv(s: State, f: bool)
    requires Inv(s) && EnabledWorld(s, Unpeek(f))
    ensures Inv(NextWorld(s, Unpeek(f)))
  {
    var z := NextWorld(s, Unpeek(f));
    var p := s.world.p;
    assert KeyOk(s, Key(0, Hand, 0, 0, 0, Retry, p));
    assert CountsOk(s, p);
    CountIsZero(s.temps, p);
    forall k ensures KeyOk(z, k) {
      assert KeyOk(s, k);
      RoutesStay(s, z, k);
      CommandsStay(s, z, k);
    }
    forall q ensures CountsOk(z, q) {
      assert CountsOk(s, q);
      CountDrops(s.temps, Retry, p, q);
    }
  }

  lemma NoFailoverKeepsInv(s: State)
    requires Inv(s) && EnabledWorld(s, NoFailover)
    ensures Inv(NextWorld(s, NoFailover))
  {
    var z := NextWorld(s, NoFailover);
    var c := s.world.c;
    var d := s.devOf[c];
    assert KeyOk(s, Key(c, Hand, d, 0, 0, Retry, 0));
    assert CountsOk(s, d);
    CountIsZero(s.blockers, d);
    forall k ensures KeyOk(z, k) {
      assert KeyOk(s, k);
      RoutesStay(s, z, k);
      CommandsStay(s, z, k);
    }
    forall q ensures CountsOk(z, q) {
      assert CountsOk(s, q);
    }
  }

  lemma FailoverKeepsInv(s: State, i: nat, on: set<Path>)
    requires Inv(s) && EnabledWorld(s, Failover(i, on))
    ensures Inv(NextWorld(s, Failover(i, on)))
  {
    var z := NextWorld(s, Failover(i, on));
    var c := s.world.c;
    var d := s.devOf[c];
    var p := s.slots[(d, i)];
    assert KeyOk(s, Key(c, Hand, d, i, 0, Retry, p));
    assert CountsOk(s, d);
    CountIsZero(s.blockers, d);
    forall k ensures KeyOk(z, k) {
      assert KeyOk(s, k);
      CommandsStay(s, z, k);
    }
    forall q ensures CountsOk(z, q) {
      assert CountsOk(s, q);
      CountAdds(s.temps, Retry, p, q);
    }
  }

  lemma FailedOverKeepsInv(s: State)
    requires Inv(s) && EnabledWorld(s, FailedOver)
    ensures Inv(NextWorld(s, FailedOver))
  {
    var z := NextWorld(s, FailedOver);
    var p := s.world.p;
    assert KeyOk(s, Key(0, Hand, 0, 0, 0, Retry, p));
    assert CountsOk(s, p);
    CountIsZero(s.temps, p);
    forall k ensures KeyOk(z, k) {
      assert KeyOk(s, k);
      RoutesStay(s, z, k);
      CommandsStay(s, z, k);
    }
    forall q ensures CountsOk(z, q) {
      assert CountsOk(s, q);
      CountDrops(s.temps, Retry, p, q);
    }
  }

  lemma ReissueKeepsKey(s: State, z: State, c: Cmd, d: Dev, p: Path, k: Key)
    requires Inv(s) && s.world == Ready(c) && EnabledWorld(s, Reissue) && s.devOf[c] == d
    requires ActivePath(s, d) == Some(p)
    requires z == IssuedTo(s, c, p).(world := Unblocking(d), fault := false, busy := s.busy[d := At(s.busy, d) + 1])
    ensures KeyOk(z, k)
  {
    assert KeyOk(s, Key(c, Hand, d, 0, 0, Retry, 0));
    assert KeyOk(s, Key(0, Hand, d, IndexOf(s, d), 0, Retry, p));
    assert KeyOk(s, k);
    RoutesStay(s, z, k);
    assert s.devOf[c := d] == s.devOf && s.pending + {(c, d)} == s.pending;
    IssueKeepsHold(s, z, c, d, p, k.n, k.p);
    if k.c != c {
      IssueKeepsCmd(s, z, c, d, p, k.c);
    } else {
      assert KeyOk(s, Key(0, Hand, 0, 0, s.issues, Retry, p));
    }
  }

  lemma ReissueKeepsCounts(s: State, z: State, c: Cmd, d: Dev, p: Path, q: nat)
    requires Inv(s) && s.world == Ready(c) && EnabledWorld(s, Reissue) && s.devOf[c] == d
    requires ActivePath(s, d) == Some(p)
    requires z == IssuedTo(s, c, p).(world := Unblocking(d), fault := false, busy := s.busy[d := At(s.busy, d) + 1])
    ensures CountsOk(z, q)
  {
    assert KeyOk(s, Key(c, Hand, d, 0, s.issues, Retry, p));
    assert CountsOk(s, q);
    CountAdds(s.holds, s.issues, p, q);
  }

  lemma ReissueKeepsInv(s: State)
    requires Inv(s) && EnabledWorld(s, Reissue)
    ensures Inv(NextWorld(s, Reissue))
  {
    var z := NextWorld(s, Reissue);
    var c := s.world.c;
    var d := s.devOf[c];
    var p := ActivePath(s, d);
    assert KeyOk(s, Key(c, Hand, d, 0, 0, Retry, 0));
    assert CountsOk(s, d);
    CountIsZero(s.blockers, d);
    forall k ensures KeyOk(z, k) {
      ReissueKeepsKey(s, z, c, d, p.value, k);
    }
    forall q ensures CountsOk(z, q) {
      ReissueKeepsCounts(s, z, c, d, p.value, q);
    }
  }

  lemma ReleaseKeepsInv(s: State)
    requires Inv(s) && EnabledWorld(s, Release)
    ensures Inv(NextWorld(s, Release))
  {
    var z := NextWorld(s, Release);
    var d := s.world.d;
    assert KeyOk(s, Key(0, Hand, d, 0, 0, Retry, 0));
    assert CountsOk(s, d);
    CountIsZero(s.blockers, d);
    forall k ensures KeyOk(z, k) {
      assert KeyOk(s, k);
      RoutesStay(s, z, k);
    }
    forall q ensures CountsOk(z, q) {
      assert CountsOk(s, q);
      CountDrops(s.blockers, Hand, d, q);
    }
  }

  lemma AbortKeepsInv(s: State, c: Cmd)
    requires Inv(s) && EnabledCmd(s, Abort(c))
    ensures Inv(NextCmd(s, Abort(c)))
  {
    var z := NextCmd(s, Abort(c));
    var d := s.devOf[c];
    assert KeyOk(s, Key(c, Hand, d, 0, 0, Retry, 0));
    assert CountsOk(s, d);
    CountIsZero(s.blockers, d);
    WithoutDrops(s.retryQueue, c);
    forall k ensures KeyOk(z, k) {
      assert KeyOk(s, k);
      RoutesStay(s, z, k);
    }
    forall q ensures CountsOk(z, q) {
      assert CountsOk(s, q);
      CountDrops(s.blockers, Of(c), d, q);
    }
  }

  lemma AbortedKeepsInv(s: State, c: Cmd)
    requires Inv(s) && EnabledCmd(s, Aborted(c))
    ensures Inv(NextCmd(s, Aborted(c)))
  {
    var z := NextCmd(s, Aborted(c));
    var d := s.devOf[c];
    assert KeyOk(s, Key(c, Hand, 0, 0, 0, Retry, 0));
    forall k ensures KeyOk(z, k) {
      assert KeyOk(s, k);
      RoutesStay(s, z, k);
    }
    forall q ensures CountsOk(z, q) {
      assert CountsOk(s, q);
      CountDrops(s.pending, c, d, q);
    }
  }

  lemma ManagePathKeepsInv(s: State, j: nat, d: Dev, i: nat)
    requires Inv(s) && EnabledPath(s, ManagePath(j, d, i))
    ensures Inv(NextPath(s, ManagePath(j, d, i)))
  {
    var z := NextPath(s, ManagePath(j, d, i));
    var p := s.slots[(d, i)];
    assert KeyOk(s, Key(0, Hand, d, i, 0, Retry, 0));
    forall k ensures KeyOk(z, k) {
      assert KeyOk(s, k);
      RoutesStay(s, z, k);
      CommandsStay(s, z, k);
    }
    forall q ensures CountsOk(z, q) {
      assert CountsOk(s, q);
      CountAdds(s.temps, Management(j), p, q);
    }
  }

  lemma ManagedPathKeepsInv(s: State, j: nat, p: Path)
    requires Inv(s) && EnabledPath(s, ManagedPath(j, p))
    ensures Inv(NextPath(s, ManagedPath(j, p)))
  {
    var z := NextPath(s, ManagedPath(j, p));
    assert KeyOk(s, Key(0, Hand, 0, 0, 0, Retry, p));
    assert CountsOk(s, p);
    CountIsZero(s.temps, p);
    forall k ensures KeyOk(z, k) {
      assert KeyOk(s, k);
      RoutesStay(s, z, k);
      CommandsStay(s, z, k);
    }
    forall q ensures CountsOk(z, q) {
      assert CountsOk(s, q);
      CountDrops(s.temps, Management(j), p, q);
    }
  }

  lemma UseManagedKeepsInv(s: State, j: nat, p: Path)
    requires Inv(s) && EnabledPath(s, UseManaged(j, p))
    ensures Inv(NextPath(s, UseManaged(j, p)))
  {
    if !InSlot(s, p) {
      var z := s.(strays := s.strays + {j});
      forall k ensures KeyOk(z, k) {
        assert KeyOk(s, k);
        RoutesStay(s, z, k);
        CommandsStay(s, z, k);
      }
      forall q ensures CountsOk(z, q) {
        assert CountsOk(s, q);
      }
    }
  }

  lemma IssueDirectKeepsInv(s: State, p: Path)
    requires Inv(s) && EnabledPath(s, IssueDirect(p))
    ensures Inv(NextPath(s, IssueDirect(p)))
  {
    var z := NextPath(s, IssueDirect(p));
    assert KeyOk(s, Key(0, Hand, 0, 0, s.issues, Retry, p));
    forall k ensures KeyOk(z, k) {
      assert KeyOk(s, k);
      RoutesStay(s, z, k);
      assert k.c in s.place && (s.place[k.c].Flight? || s.place[k.c].Blocking?) ==>
        KeyOk(s, Key(0, Hand, 0, 0, s.place[k.c].n, Retry, s.place[k.c].p));
    }
    forall q ensures CountsOk(z, q) {
      assert CountsOk(s, q);
      CountAdds(s.holds, s.issues, p, q);
    }
  }

  lemma UnclaimKeepsActive(s: State, d: Dev, i: nat, j: nat, on: set<Path>)
    requires Inv(s) && EnabledPath(s, Unclaim(d, i, j, on))
    ensures DevOk(NextPath(s, Unclaim(d, i, j, on)), d)
  {
    assert KeyOk(s, Key(0, Hand, d, i, 0, Retry, 0));
    if !OnlyPath(s, d, i) && IndexOf(s, d) == i {
      var k :| k in s.slots && k.0 == d && k.1 != i;
      assert k == (d, k.1) && KeyOk(s, Key(0, Hand, d, k.1, 0, Retry, 0));
      assert Slots(s, d)[k.1] == Slot(s, d, k.1);
      OtherIsFound(Slots(s, d), on, i, j, k.1);
      assert Slots(s, d)[j] == Slot(s, d, j);
    }
  }

  lemma UnclaimKeepsKey(s: State, z: State, d: Dev, i: nat, j: nat, on: set<Path>, k: Key)
    requires Inv(s) && EnabledPath(s, Unclaim(d, i, j, on)) && z == NextPath(s, Unclaim(d, i, j, on)) && DevOk(z, d)
    ensures KeyOk(z, k)
  {
    assert KeyOk(s, Key(0, Hand, d, i, 0, Retry, 0));
    assert KeyOk(s, k);
    CommandsStay(s, z, k);
  }

  lemma UnclaimKeepsInv(s: State, d: Dev, i: nat, j: nat, on: set<Path>)
    requires Inv(s) && EnabledPath(s, Unclaim(d, i, j, on))
    ensures Inv(NextPath(s, Unclaim(d, i, j, on)))
  {
    var z := NextPath(s, Unclaim(d, i, j, on));
    UnclaimKeepsActive(s, d, i, j, on);
    forall k ensures KeyOk(z, k) {
      UnclaimKeepsKey(s, z, d, i, j, on, k);
    }
    forall q ensures CountsOk(z, q) {
      assert CountsOk(s, q);
    }
  }

  lemma DestroyKeepsInv(s: State, p: Path)
    requires Inv(s) && EnabledPath(s, Destroy(p))
    ensures Inv(NextPath(s, Destroy(p)))
  {
    var z := NextPath(s, Destroy(p));
    assert KeyOk(s, Key(0, Hand, 0, 0, 0, Retry, p));
    CountIsZero(s.holds, p);
    assert CountsOk(s, p);
    CountIsZero(s.temps, p);
    forall k ensures KeyOk(z, k) {
      assert KeyOk(s, k);
    }
    forall q ensures CountsOk(z, q) {
      assert CountsOk(s, q);
    }
  }

  lemma CmdStepKeepsInv(s: State, e: CmdStep)
    requires Inv(s) && EnabledCmd(s, e)
    ensures Inv(NextCmd(s, e))
  {
    match e
    case Issue(c, d) => IssueKeepsInv(s, c, d);
    case Complete(c) => CompleteKeepsInv(s, c);
    case Fail(c) => FailKeepsInv(s, c);
    case Enqueue(c) => EnqueueKeepsInv(s, c);
    case Deref(n, p) => DerefKeepsInv(s, n, p);
    case Abort(c) => AbortKeepsInv(s, c);
    case Aborted(c) => AbortedKeepsInv(s, c);
  }

  lemma WorldStepKeepsInv(s: State, e: WorldStep)
    requires Inv(s) && EnabledWorld(s, e)
    ensures Inv(NextWorld(s, e))
  {
    match e
    case Take => TakeKeepsInv(s);
    case Peek => PeekKeepsInv(s);
    case Unpeek(f) => UnpeekKeepsInv(s, f);
    case NoFailover => NoFailoverKeepsInv(s);
    case Failover(i, on) => FailoverKeepsInv(s, i, on);
    case FailedOver => FailedOverKeepsInv(s);
    case Reissue => ReissueKeepsInv(s);
    case Release => ReleaseKeepsInv(s);
  }

  lemma PathStepKeepsInv(s: State, e: PathStep)
    requires Inv(s) && EnabledPath(s, e)
    ensures Inv(NextPath(s, e))
  {
    match e
    case Claim(d, i, p) => ClaimKeepsInv(s, d, i, p);
    case Open(d) => OpenKeepsInv(s, d);
    case Close(d) => CloseKeepsInv(s, d);
    case ManagePath(k, d, i) => ManagePathKeepsInv(s, k, d, i);
    case UseManaged(k, p) => UseManagedKeepsInv(s, k, p);
    case ManagedPath(k, p) => ManagedPathKeepsInv(s, k, p);
    case IssueDirect(p) => IssueDirectKeepsInv(s, p);
    case Unclaim(d, i, j, on) => UnclaimKeepsInv(s, d, i, j, on);
    case Destroy(p) => DestroyKeepsInv(s, p);
  }

  lemma NextKeepsInv(s: State, e: Step)
    requires Inv(s) && Enabled(s, e)
    ensures Inv(Next(s, e))
  {
    match e
    case OfCmd(c) => CmdStepKeepsInv(s, c);
    case OfWorld(w) => WorldStepKeepsInv(s, w);
    case OfPath(p) => PathStepKeepsInv(s, p);
  }

  ghost predicate Possible(s: State, steps: seq<Step>)
    decreases |steps|
  {
    steps == [] || (Enabled(s, steps[0]) && Possible(Next(s, steps[0]), steps[1..]))
  }

  ghost function Run(s: State, steps: seq<Step>): State
    requires Possible(s, steps)
    decreases |steps|
  {
    if steps == [] then s else Run(Next(s, steps[0]), steps[1..])
  }

  lemma {:induction false} RunKeepsInv(s: State, steps: seq<Step>)
    requires Inv(s) && Possible(s, steps)
    ensures Inv(Run(s, steps))
    decreases |steps|
  {
    if steps != [] {
      NextKeepsInv(s, steps[0]);
      RunKeepsInv(Next(s, steps[0]), steps[1..]);
    }
  }

  lemma StartIsFine()
    ensures Inv(START)
  {
    assert forall k :: KeyOk(START, k);
    forall d ensures CountsOk(START, d) {
      CountIsZero(START.blockers, d);
      CountIsZero(START.pending, d);
      CountIsZero(START.holds, d);
      CountIsZero(START.temps, d);
    }
  }

  /** The commands of d in the retry queue or being queued. */
  ghost function ToRetry(s: State, d: Dev): set<Cmd> {
    set c | c in s.place && c in s.devOf && s.devOf[c] == d && (s.place[c].Blocking? || s.place[c] == Queued)
  }

  /** The commands of d that are not back yet. */
  ghost function Outstanding(s: State, d: Dev): set<Cmd> {
    set c | c in s.place && c in s.devOf && s.devOf[c] == d && s.place[c] != Done
  }

  lemma {:induction false} CountIsSize<K>(s: set<(K, nat)>, ks: set<K>, d: nat)
    requires forall k :: k in ks <==> (k, d) in s
    ensures CountAt(s, d) == |ks|
    decreases |ks|
  {
    if ks == {} {
      CountIsZero(s, d);
      assert forall x :: x in s ==> x == (x.0, x.1);
    } else {
      var k :| k in ks;
      CountDrops(s, k, d, d);
      CountIsSize(s - {(k, d)}, ks - {k}, d);
    }
  }

  lemma {:induction false} OfEach(cs: set<Cmd>) returns (bs: set<Blocker>)
    ensures |bs| == |cs| && forall b :: b in bs <==> b.Of? && b.c in cs
    decreases |cs|
  {
    bs := {};
    if cs != {} {
      var c :| c in cs;
      bs := OfEach(cs - {c});
      bs := bs + {Of(c)};
    }
  }

  lemma HandIsInWorld(s: State, d: Dev)
    requires Inv(s)
    ensures (Hand, d) in s.blockers <==> InWorld(s, d)
  {
    assert KeyOk(s, Key(0, Hand, d, 0, 0, Retry, 0));
  }

  lemma CountsMeanCommands(s: State, d: Dev)
    requires Inv(s)
    ensures At(s.blocked, d) == |ToRetry(s, d)| + (if InWorld(s, d) then 1 else 0)
    ensures At(s.busy, d) == |Outstanding(s, d)| + (if s.world == Unblocking(d) then 1 else 0)
  {
    assert CountsOk(s, d);
    forall c ensures c in ToRetry(s, d) <==> (Of(c), d) in s.blockers {
      assert KeyOk(s, Key(c, Of(c), d, 0, 0, Retry, 0));
    }
    forall c ensures c in Outstanding(s, d) <==> (c, d) in s.pending {
      assert KeyOk(s, Key(c, Of(c), d, 0, 0, Retry, 0));
    }
    HandIsInWorld(s, d);
    CountIsSize(s.pending, Outstanding(s, d), d);
    var bs := OfEach(ToRetry(s, d));
    var ks := if InWorld(s, d) then bs + {Hand} else bs;
    forall b ensures b in ks <==> (b, d) in s.blockers {
      if b.Of? {
        assert b.c in ToRetry(s, d) <==> (Of(b.c), d) in s.blockers;
      }
    }
    CountIsSize(s.blockers, ks, d);
  }

  /** Over every run: no assert fails and no command is issued without an active path; the block count of a device
      is the number of its commands in the retry queue, being queued, or in the hand of the retry world; its command
      count is the number of commands it has not got back; and a path is freed only with no command in flight on it,
      of a device or its own, and nobody else on it. */
  lemma {:induction false} RetryMachineIsSafe(steps: seq<Step>, d: Dev, p: Path)
    requires Possible(START, steps)
    ensures var s := Run(START, steps);
            && !s.fault
            && At(s.blocked, d) == |ToRetry(s, d)| + (if InWorld(s, d) then 1 else 0)
            && At(s.busy, d) == |Outstanding(s, d)| + (if s.world == Unblocking(d) then 1 else 0)
            && 0 <= At(s.active, p) <= At(s.refs, p)
            && (p in s.freed ==> forall c :: c in s.place && s.place[c].Flight? ==> s.place[c].p != p)
            && (p in s.freed ==> (forall n :: (n, p) !in s.holds) && forall t :: (t, p) !in s.temps)
  {
    StartIsFine();
    RunKeepsInv(START, steps);
    var s := Run(START, steps);
    CountsMeanCommands(s, d);
    assert CountsOk(s, p);
    forall c | c in s.place && s.place[c].Flight? ensures s.place[c].p !in s.freed {
      assert KeyOk(s, Key(c, Hand, d, 0, s.place[c].n, Retry, s.place[c].p));
    }
    forall n | (n, p) in s.holds ensures p !in s.freed {
      assert KeyOk(s, Key(0, Hand, d, 0, n, Retry, p));
    }
    forall t | (t, p) in s.temps ensures p !in s.freed {
      assert KeyOk(s, Key(0, Hand, d, 0, 0, t, p));
    }
  }

  /** ExampleGetFailoverPathIndex: the next path around that is on; else the next there is; else, and only if there
      is no other path, the one there was. */
  method GetFailoverPathIndex(paths: seq<Option<Path>>, on: set<Path>, original: nat) returns (r: nat)
    requires original < |paths|
    ensures FailsOverTo(paths, on, original, r)
  {
    var max := |paths|;
    var newIndex := max;
    ghost var k := 0;
    ghost var at := 1;
    AroundStep(original, 0, max);
    var i := (original + 1) % max;
    while i != original
      invariant 1 <= at <= max && i == (if at == max then original else Around(original, at, max))
      invariant forall j :: 0 < j < at ==> !IsAt(paths[Around(original, j, max)], on)
      invariant newIndex == max ==> forall j :: 0 < j < at ==> paths[Around(original, j, max)].None?
      invariant newIndex != max ==> 0 < k < at && newIndex == Around(original, k, max) && paths[newIndex].Some?
      invariant newIndex != max ==> forall j :: 0 < j < k ==> paths[Around(original, j, max)].None?
      decreases max - at
    {
      var path := paths[i];
      if path.Some? {
        if path.value in on {
          return i;
        }
        if newIndex == max {
          newIndex := i;
          k := at;
        }
      }
      AroundStep(original, at, max);
      i := (i + 1) % max;
      at := at + 1;
    }
    r := if newIndex < max then newIndex else i;
  }
}
