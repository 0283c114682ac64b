/** One direction of an RPC connection: any number of tasks sending messages under fdlock, with system calls that
    move a few bytes at a time and may put the task to sleep in mid-message (rpc_request and rpc_response of
    iosplitter/rpc/rpc.c). */
module RpcLine {
  import opened Common
  import opened Framing
  import opened Locks

  /** todo holds the message of every task between qlock and qunlock, done how much of the owner's message is
      written, sent the bytes written so far. log lists the messages in the order their senders got the lock,
      begun in the order they asked for it. */
  datatype Line = Line(lock: QState, todo: map<Task, Msg>, done: nat, sent: seq<byte>, log: seq<Msg>,
                       begun: seq<Msg>)

  const L_EMPTY := Line(Q_FREE, map[], 0, [], [], [])

  datatype LineStep =
    | Begin(task: Task, m: Msg)
    | Write(task: Task, k: nat)
    | Wake(task: Task)

  predicate LineEnabled(l: Line, c: LineStep, z: Sizes) {
    match c
    case Begin(t, m) => t !in l.todo && Fits(m, z)
    case Write(t, k) =>
      l.lock.owner == Held(t) && t !in l.lock.woken && t in l.todo && 1 <= k && l.done + k <= |Encode(l.todo[t])|
    case Wake(t) => t in l.lock.woken
  }

  /** Asking for fdlock: the sender gets it or joins the queue. */
  function Began(l: Line, t: Task, m: Msg): Line {
    l.(lock := QLocked(l.lock, t, true), todo := l.todo[t := m], begun := l.begun + [m],
       done := if l.lock.owner == Nobody then 0 else l.done,
       log := if l.lock.owner == Nobody then l.log + [m] else l.log)
  }

  /** The owner t has its last byte out and releases the lock; the first in the queue owns it. */
  function Released(l: Line, t: Task): Line
    requires l.lock.owner.Held?
  {
    var w := l.lock.waiting;
    l.(lock := QUnlocked(l.lock), todo := l.todo - {t}, done := 0,
       log := if w != [] && w[0] in l.todo then l.log + [l.todo[w[0]]] else l.log)
  }

  /** One system call of the owner that moves k bytes, and whatever it does before the next one can put it to
      sleep. */
  function Wrote(l: Line, t: Task, k: nat): Line
    requires l.lock.owner == Held(t) && t in l.todo && l.done + k <= |Encode(l.todo[t])|
  {
    var bytes := Encode(l.todo[t]);
    var n := l.(sent := l.sent + bytes[l.done..l.done + k], done := l.done + k);
    if n.done < |bytes| then n else Released(n, t)
  }

  function LineNext(l: Line, c: LineStep, z: Sizes): Line
    requires LineEnabled(l, c, z)
  {
    match c
    case Begin(t, m) => Began(l, t, m)
    case Write(t, k) => Wrote(l, t, k)
    case Wake(t) => l.(lock := QResumed(l.lock, t))
  }

  /** How many messages are out completely. */
  function Full(l: Line): (n: nat)
    ensures n <= |l.log|
  {
    if l.lock.owner.Held? && l.log != [] then |l.log| - 1 else |l.log|
  }

  /** Every task between qlock and qunlock is the owner or in the queue, and begun is log followed by the messages
      of the queue. */
  ghost predicate TodoInv(owner: Owner, waiting: seq<Task>, todo: map<Task, Msg>, log: seq<Msg>, begun: seq<Msg>) {
    && Distinct(waiting)
    && (forall t :: t in todo <==> t in waiting || owner == Held(t))
    && (owner.Held? ==> owner.task !in waiting)
    && |begun| == |log| + |waiting| && log <= begun
    && (forall i :: 0 <= i < |waiting| ==> waiting[i] in todo && begun[|log| + i] == todo[waiting[i]])
    && (owner.Held? ==> log != [] && log[|log| - 1] == todo[owner.task])
  }

  ghost predicate QueueInv(l: Line) {
    QInv(l.lock) && l.lock.robbed == {} && TodoInv(l.lock.owner, l.lock.waiting, l.todo, l.log, l.begun)
  }

  /** The bytes sent are the messages of log, the last of them up to done if its sender is still at it. */
  ghost predicate SentOk(writing: bool, log: seq<Msg>, done: nat, sent: seq<byte>) {
    if writing && log != [] then
      var m := log[|log| - 1];
      done < |Encode(m)| && sent == EncodeAll(log[..|log| - 1]) + Encode(m)[..done]
    else
      sent == EncodeAll(log)
  }

  ghost predicate AllFit(todo: map<Task, Msg>, log: seq<Msg>, z: Sizes) {
    && (forall t :: t in todo ==> Fits(todo[t], z))
    && (forall i :: 0 <= i < |log| ==> Fits(log[i], z))
  }

  ghost predicate BytesInv(l: Line, z: Sizes) {
    AllFit(l.todo, l.log, z) && SentOk(l.lock.owner.Held?, l.log, l.done, l.sent)
  }

  ghost predicate LineInv(l: Line, z: Sizes) {
    QueueInv(l) && BytesInv(l, z)
  }

  /** A sender joins the queue. */
  lemma JoinedKeepsTodo(o: Owner, w: seq<Task>, todo: map<Task, Msg>, log: seq<Msg>, begun: seq<Msg>, t: Task, m: Msg)
    requires TodoInv(o, w, todo, log, begun) && o.Held? && t !in todo
    ensures TodoInv(o, w + [t], todo[t := m], log, begun + [m])
  {
    forall i | 0 <= i <= |w|
      ensures (w + [t])[i] in todo[t := m] && (begun + [m])[|log| + i] == todo[t := m][(w + [t])[i]]
    {
      assert i < |w| ==> w[i] in todo && begun[|log| + i] == todo[w[i]];
    }
  }

  lemma BeganKeepsQueue(l: Line, t: Task, m: Msg, z: Sizes)
    requires LineInv(l, z) && LineEnabled(l, Begin(t, m), z)
    ensures QueueInv(Began(l, t, m))
  {
    QNextKeepsInv(l.lock, Lock(t));
    if l.lock.owner.Held? {
      JoinedKeepsTodo(l.lock.owner, l.lock.waiting, l.todo, l.log, l.begun, t, m);
    }
  }

  lemma BeganKeepsBytes(l: Line, t: Task, m: Msg, z: Sizes)
    requires LineInv(l, z) && LineEnabled(l, Begin(t, m), z)
    ensures BytesInv(Began(l, t, m), z)
  {
    if l.lock.owner == Nobody {
      NextToSend(l.log, m, l.sent);
    }
  }

  lemma NextToSend(log: seq<Msg>, m: Msg, sent: seq<byte>)
    requires sent == EncodeAll(log)
    ensures SentOk(true, log + [m], 0, sent)
  {
    assert (log + [m])[..|log|] == log;
    assert EncodeAll(log) + Encode(m)[..0] == EncodeAll(log);
  }

  /** The lock goes on to the first in the queue. */
  lemma PassedOnKeepsTodo(owner: Task, w: seq<Task>, todo: map<Task, Msg>, log: seq<Msg>, begun: seq<Msg>)
    requires TodoInv(Held(owner), w, todo, log, begun) && w != []
    ensures w[0] in todo && TodoInv(Held(w[0]), w[1..], todo - {owner}, log + [todo[w[0]]], begun)
  {
    var todo', log' := todo - {owner}, log + [todo[w[0]]];
    assert w[0] in w;
    forall i | 0 <= i < |w| - 1 ensures w[1..][i] in todo' && begun[|log'| + i] == todo'[w[1..][i]] {
      assert w[1..][i] == w[i + 1] && w[i + 1] in w;
      assert begun[|log| + (i + 1)] == todo[w[i + 1]];
    }
    assert begun[|log| + 0] == todo[w[0]];
    forall t ensures t in todo' <==> t in w[1..] || Held(w[0]) == Held(t) {
      assert t in w <==> t == w[0] || t in w[1..];
    }
  }

  lemma ReleasedKeepsQueue(l: Line, n: Line)
    requires QueueInv(l) && l.lock.owner.Held? && l.lock.owner.task !in l.lock.woken && l.lock.waiting == []
    requires n == l.(sent := n.sent, lock := QUnlocked(l.lock), todo := l.todo - {l.lock.owner.task}, done := 0)
    ensures QueueInv(n)
  {
    QNextKeepsInv(l.lock, Unlock);
  }

  lemma WroteKeepsQueue(l: Line, t: Task, k: nat, z: Sizes)
    requires LineInv(l, z) && LineEnabled(l, Write(t, k), z)
    ensures QueueInv(Wrote(l, t, k))
  {
    var n := Wrote(l, t, k);
    if l.done + k == |Encode(l.todo[t])| {
      if l.lock.waiting == [] {
        ReleasedKeepsQueue(l, n);
      } else {
        QNextKeepsInv(l.lock, Unlock);
        PassedOnKeepsTodo(t, l.lock.waiting, l.todo, l.log, l.begun);
      }
    }
  }

  lemma PartGrows(log: seq<Msg>, done: nat, k: nat, sent: seq<byte>)
    requires log != [] && done + k <= |Encode(log[|log| - 1])| && SentOk(true, log, done, sent)
    ensures var bytes := Encode(log[|log| - 1]);
            var out := sent + bytes[done..done + k];
            if done + k < |bytes| then SentOk(true, log, done + k, out) else out == EncodeAll(log)
  {
    var first, m := log[..|log| - 1], log[|log| - 1];
    var bytes := Encode(m);
    AppendIsAssociative(EncodeAll(first), bytes[..done], bytes[done..done + k]);
    assert bytes[..done] + bytes[done..done + k] == bytes[..done + k];
    if done + k == |bytes| {
      EncodeAllAppends(first, m);
      assert first + [m] == log;
      assert bytes[..|bytes|] == bytes;
    }
  }

  lemma WroteKeepsSent(l: Line, t: Task, k: nat, z: Sizes)
    requires LineInv(l, z) && LineEnabled(l, Write(t, k), z)
    ensures var n := Wrote(l, t, k); SentOk(n.lock.owner.Held?, n.log, n.done, n.sent)
  {
    var m := l.todo[t];
    var n := l.(sent := l.sent + Encode(m)[l.done..l.done + k], done := l.done + k);
    PartGrows(l.log, l.done, k, l.sent);
    assert l.log[|l.log| - 1] == m;
    if n.done == |Encode(m)| {
      ReleasedKeepsSent(n, t);
      assert Wrote(l, t, k) == Released(n, t);
    } else {
      assert Wrote(l, t, k) == n && SentOk(true, n.log, n.done, n.sent);
    }
  }

  /** The log is all sent, and if a next sender has the lock it starts at nothing. */
  lemma ReleasedKeepsSent(l: Line, t: Task)
    requires QueueInv(l) && l.lock.owner == Held(t) && l.sent == EncodeAll(l.log)
    ensures var n := Released(l, t); SentOk(n.lock.owner.Held?, n.log, n.done, n.sent)
  {
    if l.lock.waiting != [] {
      NextToSend(l.log, l.todo[l.lock.waiting[0]], l.sent);
    }
  }

  lemma WroteKeepsBytes(l: Line, t: Task, k: nat, z: Sizes)
    requires LineInv(l, z) && LineEnabled(l, Write(t, k), z)
    ensures BytesInv(Wrote(l, t, k), z)
  {
    WroteKeepsSent(l, t, k, z);
  }

  lemma LineNextKeepsInv(l: Line, c: LineStep, z: Sizes)
    requires LineInv(l, z) && LineEnabled(l, c, z)
    ensures LineInv(LineNext(l, c, z), z)
  {
    match c
    case Begin(t, m) => BeganKeepsQueue(l, t, m, z); BeganKeepsBytes(l, t, m, z);
    case Write(t, k) => WroteKeepsQueue(l, t, k, z); WroteKeepsBytes(l, t, k, z);
    case Wake(t) => QNextKeepsInv(l.lock, Resume(t));
  }

  /** What the receive loop of the other end makes of the bytes out so far. */
  lemma LineIsRead(l: Line, z: Sizes)
    requires LineInv(l, z)
    ensures ParseAll(l.sent, z).ms == l.log[..Full(l)] && l.log[..Full(l)] <= l.begun
    ensures l.lock.owner == Nobody ==> ParseAll(l.sent, z) == Parsed(l.begun, [])
  {
    if l.lock.owner.Held? {
      ParseAllReadsBack(l.log[..|l.log| - 1], l.log[|l.log| - 1], l.done, z);
    } else {
      var m := Msg(0, 0, HEADER, 0, 0, [], []);
      var w := Sizes(if z.msg < HEADER then HEADER else z.msg, z.data);
      assert l.lock.waiting == [];
      assert l.log == l.begun;
      if l.log != [] {
        assert Fits(l.log[0], z);
        ParseAllReadsBack(l.log, m, 0, z);
        assert Encode(m)[..0] == [];
        assert l.sent + [] == l.sent;
      }
    }
  }

  predicate LinePossible(l: Line, steps: seq<LineStep>, z: Sizes)
    decreases |steps|
  {
    steps == [] || (LineEnabled(l, steps[0], z) && LinePossible(LineNext(l, steps[0], z), steps[1..], z))
  }

  function LineRun(l: Line, steps: seq<LineStep>, z: Sizes): Line
    requires LinePossible(l, steps, z)
    decreases |steps|
  {
    if steps == [] then l else LineRun(LineNext(l, steps[0], z), steps[1..], z)
  }

  lemma {:induction false} LineRunKeepsInv(l: Line, steps: seq<LineStep>, z: Sizes)
    requires LineInv(l, z) && LinePossible(l, steps, z)
    ensures LineInv(LineRun(l, steps, z), z)
    decreases |steps|
  {
    if steps != [] {
      LineNextKeepsInv(l, steps[0], z);
      LineRunKeepsInv(LineNext(l, steps[0], z), steps[1..], z);
    }
  }

  /** The messages the tasks of a run ask to send. */
  function AskedIn(steps: seq<LineStep>): seq<Msg> {
    if steps == [] then [] else (if steps[0].Begin? then [steps[0].m] else []) + AskedIn(steps[1..])
  }

  lemma {:induction false} RunBegins(l: Line, steps: seq<LineStep>, z: Sizes)
    requires LinePossible(l, steps, z)
    ensures LineRun(l, steps, z).begun == l.begun + AskedIn(steps)
    decreases |steps|
  {
    if steps != [] { RunBegins(LineNext(l, steps[0], z), steps[1..], z); }
  }

  /** Framing, over every run: with any number of senders, short writes and sleeps in mid-message, the other end
      decodes exactly the messages that are out completely, in the order their senders asked for the lock; once
      nobody holds it, that is every message. A sender woken with the lock is its owner. */
  lemma {:induction false} FramingHolds(steps: seq<LineStep>, z: Sizes)
    requires LinePossible(L_EMPTY, steps, z)
    ensures var l := LineRun(L_EMPTY, steps, z);
            && ParseAll(l.sent, z).ms == l.log[..Full(l)] && l.log[..Full(l)] <= AskedIn(steps)
            && (l.lock.owner == Nobody ==> ParseAll(l.sent, z) == Parsed(AskedIn(steps), []))
            && forall t :: t in l.lock.woken ==> l.lock.owner == Held(t)
  {
    LineRunKeepsInv(L_EMPTY, steps, z);
    RunBegins(L_EMPTY, steps, z);
    LineIsRead(LineRun(L_EMPTY, steps, z), z);
  }

  function Writes(t: Task, ks: seq<nat>): (steps: seq<LineStep>)
    ensures |steps| == |ks|
  {
    if ks == [] then [] else [Write(t, ks[0])] + Writes(t, ks[1..])
  }

  /** A send is a run of Write steps: whatever its system calls move, the steps are possible and put the same bytes
      on the line, and the last of them gives up the lock. */
  lemma {:induction false} SendIsWrites(l: Line, t: Task, ks: seq<nat>, z: Sizes)
    requires l.lock.owner == Held(t) && t !in l.lock.woken && t in l.todo && l.done < |Encode(l.todo[t])|
    requires AllMove(ks) && l.done + Total(ks) <= |Encode(l.todo[t])|
    ensures LinePossible(l, Writes(t, ks), z)
    ensures var n, bytes := LineRun(l, Writes(t, ks), z), Encode(l.todo[t]);
            && Adds(n.sent, l.sent, bytes, l.done, Total(ks))
            && if l.done + Total(ks) < |bytes| then
                 n.lock == l.lock && n.done == l.done + Total(ks) && n.todo == l.todo
               else
                 n.lock == QUnlocked(l.lock) && n.todo == l.todo - {t}
    decreases |ks|
  {
    if ks == [] {
      assert Adds(l.sent, l.sent, Encode(l.todo[t]), l.done, 0);
    } else {
      assert ks[0] >= 1 && AllMove(ks[1..]) by {
        assert forall i :: 0 <= i < |ks[1..]| ==> ks[1..][i] == ks[i + 1];
      }
      var n := LineNext(l, Write(t, ks[0]), z);
      assert Writes(t, ks)[1..] == Writes(t, ks[1..]);
      assert Adds(n.sent, l.sent, Encode(l.todo[t]), l.done, ks[0]);
      if l.done + ks[0] < |Encode(l.todo[t])| {
        SendIsWrites(n, t, ks[1..], z);
        var out := LineRun(n, Writes(t, ks[1..]), z).sent;
        AddsOn(out, n.sent, l.sent, Encode(l.todo[t]), l.done, ks[0], Total(ks[1..]));
      } else {
        NothingMoves(ks[1..]);
      }
    }
  }

  /** out is sent followed by the k bytes from place done. */
  ghost predicate Adds(out: seq<byte>, sent: seq<byte>, bytes: seq<byte>, done: nat, k: nat) {
    done + k <= |bytes| && out == sent + bytes[done..done + k]
  }

  lemma AddsOn(c: seq<byte>, b: seq<byte>, a: seq<byte>, bytes: seq<byte>, done: nat, j: nat, k: nat)
    requires Adds(b, a, bytes, done, j) && Adds(c, b, bytes, done + j, k)
    ensures Adds(c, a, bytes, done, j + k)
  {
  }

  lemma NothingMoves(ks: seq<nat>)
    requires AllMove(ks) && Total(ks) == 0
    ensures ks == []
  {
  }

  /** While anybody is sending there is a step, so the line never hangs of itself. */
  lemma LineIsNeverStuck(l: Line, z: Sizes) returns (c: LineStep)
    requires LineInv(l, z) && l.todo != map[]
    ensures LineEnabled(l, c, z) && !c.Begin?
  {
    var t :| t in l.todo;
    assert l.lock.owner.Held?;
    var u := l.lock.owner.task;
    c := if u in l.lock.woken then Wake(u) else Write(u, 1);
  }
}
