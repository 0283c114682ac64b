/** Matching responses to requests (iosplitter/rpc/rpc.c): client tasks calling rpc_request over one line, handler
    tasks of the server calling rpc_response over the other, in any interleaving. */
module RpcCalls {
  import opened Framing
  import opened Locks
  import opened RpcLine

  /** Where a request is on its way, by the task or the position that has it. */
  datatype Place = Sending(t: Task) | Sent(i: nat) | Serving(t: Task) | Replying(t: Task) | Replied(i: nat)

  /** What both ends remember. Client: hash, the tasks in rpc_request with their messages (calls), those of them
      in TASKSLEEP, those woken since, msgp->resp (answers), and how many messages its receive loop has taken
      (returned). Server: how many messages its loop has taken (taken), the handler tasks with their requests
      (served). For the proof: place of every request in the hash, and which response was made to which request
      (replies). fault: an assert has failed or a receive loop has given up. */
  datatype Ends = Ends(hash: map<uint32, Task>, calls: map<Task, Msg>, asleep: set<Task>, woken: set<Task>,
                       answers: map<Task, Msg>, returned: nat, taken: nat, served: map<Task, Msg>,
                       place: map<uint32, Place>, replies: set<(Msg, Msg)>, fault: bool)

  function Called(e: Ends, t: Task, m: Msg): Ends {
    e.(hash := e.hash[m.seqid := t], calls := e.calls[t := m], place := e.place[m.seqid := Sending(t)])
  }

  /** The request is out: without giving up the processor its sender unlocks and sleeps. */
  function WasSent(e: Ends, t: Task, m: Msg, i: nat): Ends {
    e.(asleep := e.asleep + {t}, place := e.place[m.seqid := Sent(i)])
  }

  function Accepted(e: Ends, t: Task, m: Msg): Ends {
    if IsClosed(m) || !IsRequest(m) then
      e.(fault := true)
    else
      e.(taken := e.taken + 1, served := e.served[t := m], place := e.place[m.seqid := Serving(t)])
  }

  function Answered(e: Ends, t: Task, r: Msg): Ends
    requires t in e.served
  {
    e.(served := e.served - {t}, place := e.place[r.seqid := Replying(t)], replies := e.replies + {(e.served[t], r)})
  }

  function WasAnswered(e: Ends, r: Msg, i: nat): Ends {
    e.(place := e.place[r.seqid := Replied(i)])
  }

  /** _rpc_response: an orphan is a fault; a wakeup of a task that is not asleep is lost. */
  function Matched(e: Ends, r: Msg): Ends {
    if IsClosed(r) || IsRequest(r) || r.seqid !in e.hash then
      e.(fault := true)
    else
      var t := e.hash[r.seqid];
      var n := e.(returned := e.returned + 1, hash := e.hash - {r.seqid}, answers := e.answers[t := r],
                  place := e.place - {r.seqid});
      if t in e.asleep then n.(asleep := e.asleep - {t}, woken := e.woken + {t}) else n
  }

  /** The end of rpc_request: msgp->resp must be there. */
  function Returned(e: Ends, t: Task): Ends {
    if t !in e.answers then
      e.(fault := true)
    else
      e.(calls := e.calls - {t}, woken := e.woken - {t}, answers := e.answers - {t})
  }

  /** The messages on their way: senders on the client's and on the server's line, and what is out of each. */
  datatype Nets = Nets(sending: map<Task, Msg>, out: seq<Msg>, replying: map<Task, Msg>, back: seq<Msg>)

  /** The hash holds exactly the requests begun and not yet answered, each of them in one place. */
  ghost predicate IdOk(n: Nets, e: Ends, id: uint32) {
    && (id in e.hash <==> id in e.place)
    && (id in e.hash ==>
        && e.hash[id] in e.calls && e.calls[e.hash[id]].seqid == id && e.hash[id] !in e.woken
        && (e.hash[id] in e.asleep <==> !e.place[id].Sending?)
        && PlaceIs(n, e, id, e.calls[e.hash[id]], e.place[id]))
  }

  ghost predicate PlaceIs(n: Nets, e: Ends, id: uint32, m: Msg, p: Place)
    requires id in e.hash
  {
    match p
    case Sending(t) => t in n.sending && n.sending[t] == m && e.hash[id] == t
    case Sent(i) => e.taken <= i < |n.out| && n.out[i] == m
    case Serving(t) => t in e.served && e.served[t] == m
    case Replying(t) => t in n.replying && n.replying[t].seqid == id && (m, n.replying[t]) in e.replies
    case Replied(i) => e.returned <= i < |n.back| && n.back[i].seqid == id && (m, n.back[i]) in e.replies
  }

  ghost predicate At(e: Ends, id: uint32, p: Place) {
    id in e.place && e.place[id] == p
  }

  ghost predicate IsResponse(r: Msg) {
    !IsRequest(r) && !IsClosed(r)
  }

  /** Every caller waits for its own request, or is awake with the response to it. */
  ghost predicate CallerOk(n: Nets, e: Ends, t: Task) {
    && (t in n.sending ==> At(e, n.sending[t].seqid, Sending(t)) && t in e.calls && t !in e.woken)
    && (t in e.asleep || t in e.woken ==> t in e.calls)
    && (t in e.asleep ==> t !in e.woken)
    && (t in e.answers <==> t in e.woken)
    && (t in e.calls ==> IsRequest(e.calls[t]) && !IsClosed(e.calls[t]))
    && (t in e.calls && t !in e.woken ==> e.calls[t].seqid in e.hash && e.hash[e.calls[t].seqid] == t)
    && (t in e.woken ==> (e.calls[t], e.answers[t]) in e.replies && e.answers[t].seqid == e.calls[t].seqid)
  }

  ghost predicate HandlerOk(n: Nets, e: Ends, t: Task) {
    && (t in e.served ==> At(e, e.served[t].seqid, Serving(t)))
    && (t in n.replying ==> At(e, n.replying[t].seqid, Replying(t)) && IsResponse(n.replying[t]))
  }

  ghost predicate OutOk(n: Nets, e: Ends, i: nat) {
    e.taken <= i < |n.out| ==> At(e, n.out[i].seqid, Sent(i))
  }

  ghost predicate BackOk(n: Nets, e: Ends, i: nat) {
    e.returned <= i < |n.back| ==> At(e, n.back[i].seqid, Replied(i)) && IsResponse(n.back[i])
  }

  ghost predicate EndsInv(n: Nets, e: Ends) {
    && !e.fault && e.taken <= |n.out| && e.returned <= |n.back|
    && (forall id {:trigger IdOk(n, e, id)} :: IdOk(n, e, id))
    && (forall t {:trigger CallerOk(n, e, t)} :: CallerOk(n, e, t))
    && (forall t {:trigger HandlerOk(n, e, t)} :: HandlerOk(n, e, t))
    && (forall i {:trigger OutOk(n, e, i)} :: OutOk(n, e, i))
    && (forall i {:trigger BackOk(n, e, i)} :: BackOk(n, e, i))
  }

  lemma CalledKeepsInv(n: Nets, e: Ends, t: Task, m: Msg)
    requires EndsInv(n, e) && t !in e.calls && m.seqid !in e.hash && IsRequest(m) && !IsClosed(m)
    ensures EndsInv(n.(sending := n.sending[t := m]), Called(e, t, m))
  {
    var n', e' := n.(sending := n.sending[t := m]), Called(e, t, m);
    assert IdOk(n, e, m.seqid) && CallerOk(n, e, t);
    forall id ensures IdOk(n', e', id) {
      assert IdOk(n, e, id);
    }
    forall u ensures CallerOk(n', e', u) {
      assert CallerOk(n, e, u);
    }
    forall u ensures HandlerOk(n', e', u) {
      assert HandlerOk(n, e, u);
    }
    forall i ensures OutOk(n', e', i) {
      assert OutOk(n, e, i);
    }
    forall i ensures BackOk(n', e', i) {
      assert BackOk(n, e, i);
    }
  }

  lemma WasSentKeepsInv(n: Nets, e: Ends, t: Task, m: Msg)
    requires EndsInv(n, e) && t in n.sending && n.sending[t] == m
    ensures EndsInv(n.(sending := n.sending - {t}, out := n.out + [m]), WasSent(e, t, m, |n.out|))
  {
    var n', e' := n.(sending := n.sending - {t}, out := n.out + [m]), WasSent(e, t, m, |n.out|);
    assert IdOk(n, e, m.seqid) && CallerOk(n, e, t);
    forall id ensures IdOk(n', e', id) {
      assert IdOk(n, e, id);
    }
    forall u ensures CallerOk(n', e', u) {
      assert CallerOk(n, e, u);
    }
    forall u ensures HandlerOk(n', e', u) {
      assert HandlerOk(n, e, u);
    }
    forall i ensures OutOk(n', e', i) {
      assert OutOk(n, e, i);
    }
    forall i ensures BackOk(n', e', i) {
      assert BackOk(n, e, i);
    }
  }

  lemma AcceptedKeepsInv(n: Nets, e: Ends, t: Task)
    requires EndsInv(n, e) && e.taken < |n.out| && t !in e.served && t !in n.replying
    ensures EndsInv(n, Accepted(e, t, n.out[e.taken]))
  {
    var n', e' := n, Accepted(e, t, n.out[e.taken]);
    var m := n.out[e.taken];
    assert OutOk(n, e, e.taken) && IdOk(n, e, m.seqid) && CallerOk(n, e, e.hash[m.seqid]);
    forall id ensures IdOk(n', e', id) {
      assert IdOk(n, e, id);
    }
    forall u ensures CallerOk(n', e', u) {
      assert CallerOk(n, e, u);
    }
    forall u ensures HandlerOk(n', e', u) {
      assert HandlerOk(n, e, u);
    }
    forall i ensures OutOk(n', e', i) {
      assert OutOk(n, e, i);
    }
    forall i ensures BackOk(n', e', i) {
      assert BackOk(n, e, i);
    }
  }

  lemma AnsweredKeepsInv(n: Nets, e: Ends, t: Task, r: Msg)
    requires EndsInv(n, e) && t in e.served && t !in n.replying && r.seqid == e.served[t].seqid && IsResponse(r)
    ensures EndsInv(n.(replying := n.replying[t := r]), Answered(e, t, r))
  {
    var n', e' := n.(replying := n.replying[t := r]), Answered(e, t, r);
    assert HandlerOk(n, e, t) && IdOk(n, e, r.seqid);
    forall id ensures IdOk(n', e', id) {
      assert IdOk(n, e, id);
    }
    forall u ensures CallerOk(n', e', u) {
      assert CallerOk(n, e, u);
    }
    forall u ensures HandlerOk(n', e', u) {
      assert HandlerOk(n, e, u);
    }
    forall i ensures OutOk(n', e', i) {
      assert OutOk(n, e, i);
    }
    forall i ensures BackOk(n', e', i) {
      assert BackOk(n, e, i);
    }
  }

  lemma WasAnsweredKeepsInv(n: Nets, e: Ends, t: Task, r: Msg)
    requires EndsInv(n, e) && t in n.replying && n.replying[t] == r
    ensures EndsInv(n.(replying := n.replying - {t}, back := n.back + [r]), WasAnswered(e, r, |n.back|))
  {
    var n', e' := n.(replying := n.replying - {t}, back := n.back + [r]), WasAnswered(e, r, |n.back|);
    assert HandlerOk(n, e, t) && IdOk(n, e, r.seqid);
    forall id ensures IdOk(n', e', id) {
      assert IdOk(n, e, id);
    }
    forall u ensures CallerOk(n', e', u) {
      assert CallerOk(n, e, u);
    }
    forall u ensures HandlerOk(n', e', u) {
      assert HandlerOk(n, e, u);
    }
    forall i ensures OutOk(n', e', i) {
      assert OutOk(n, e, i);
    }
    forall i ensures BackOk(n', e', i) {
      assert BackOk(n, e, i);
    }
  }

  lemma SendingIsOwn(n: Nets, e: Ends, t: Task)
    requires EndsInv(n, e) && t in n.sending
    ensures t in e.calls && At(e, e.calls[t].seqid, Sending(t))
  {
    assert CallerOk(n, e, t) && IdOk(n, e, n.sending[t].seqid);
  }

  lemma SleeperIsNotSending(n: Nets, e: Ends, id: uint32)
    requires EndsInv(n, e) && id in e.hash && id in e.place && !e.place[id].Sending?
    requires e.hash[id] in e.calls && e.calls[e.hash[id]].seqid == id
    ensures e.hash[id] !in n.sending
  {
    if e.hash[id] in n.sending {
      SendingIsOwn(n, e, e.hash[id]);
    }
  }

  lemma MatchedKeepsInv(n: Nets, e: Ends)
    requires EndsInv(n, e) && e.returned < |n.back|
    ensures EndsInv(n, Matched(e, n.back[e.returned]))
  {
    var n', e' := n, Matched(e, n.back[e.returned]);
    var r := n.back[e.returned];
    assert BackOk(n, e, e.returned) && IdOk(n, e, r.seqid) && CallerOk(n, e, e.hash[r.seqid]);
    SleeperIsNotSending(n, e, r.seqid);
    forall id ensures IdOk(n', e', id) {
      assert IdOk(n, e, id);
    }
    forall u ensures CallerOk(n', e', u) {
      assert CallerOk(n, e, u);
    }
    forall u ensures HandlerOk(n', e', u) {
      assert HandlerOk(n, e, u);
    }
    forall i ensures OutOk(n', e', i) {
      assert OutOk(n, e, i);
    }
    forall i ensures BackOk(n', e', i) {
      assert BackOk(n, e, i);
    }
  }

  lemma ReturnedKeepsInv(n: Nets, e: Ends, t: Task)
    requires EndsInv(n, e) && t in e.woken
    ensures EndsInv(n, Returned(e, t))
  {
    var n', e' := n, Returned(e, t);
    assert CallerOk(n, e, t);
    forall id ensures IdOk(n', e', id) {
      assert IdOk(n, e, id);
    }
    forall u ensures CallerOk(n', e', u) {
      assert CallerOk(n, e, u);
    }
    forall u ensures HandlerOk(n', e', u) {
      assert HandlerOk(n, e, u);
    }
    forall i ensures OutOk(n', e', i) {
      assert OutOk(n, e, i);
    }
    forall i ensures BackOk(n', e', i) {
      assert BackOk(n, e, i);
    }
  }

  /** Both ends and the two lines between them. */
  datatype World = World(up: Line, down: Line, e: Ends)

  const START := World(L_EMPTY, L_EMPTY, Ends(map[], map[], {}, {}, map[], 0, 0, map[], map[], {}, false))

  datatype Step =
    | Request(task: Task, m: Msg)
    | WriteUp(task: Task, k: nat)
    | WakeUp(task: Task)
    | TakeRequest(task: Task)
    | Respond(task: Task, m: Msg)
    | WriteDown(task: Task, k: nat)
    | WakeDown(task: Task)
    | TakeResponse
    | Return(task: Task)

  /** A task makes one call at a time and no seqid is used again while it is outstanding. A handler answers under
      the seqid of its request. A receive loop takes a message when all of it has come. */
  predicate Enabled(w: World, c: Step, z: Sizes) {
    match c
    case Request(t, m) =>
      t !in w.e.calls && m.seqid !in w.e.hash && IsRequest(m) && !IsClosed(m) && LineEnabled(w.up, Begin(t, m), z)
    case WriteUp(t, k) => LineEnabled(w.up, Write(t, k), z)
    case WakeUp(t) => LineEnabled(w.up, Wake(t), z)
    case TakeRequest(t) => w.e.taken < |ParseAll(w.up.sent, z).ms| && t !in w.e.served && t !in w.down.todo
    case Respond(t, r) =>
      t in w.e.served && r.seqid == w.e.served[t].seqid && !IsRequest(r) && !IsClosed(r)
      && LineEnabled(w.down, Begin(t, r), z)
    case WriteDown(t, k) => LineEnabled(w.down, Write(t, k), z)
    case WakeDown(t) => LineEnabled(w.down, Wake(t), z)
    case TakeResponse => w.e.returned < |ParseAll(w.down.sent, z).ms|
    case Return(t) => t in w.e.woken
  }

  function Next(w: World, c: Step, z: Sizes): World
    requires Enabled(w, c, z)
  {
    match c
    case Request(t, m) => w.(up := LineNext(w.up, Begin(t, m), z), e := Called(w.e, t, m))
    case WriteUp(t, k) =>
      var up := LineNext(w.up, Write(t, k), z);
      w.(up := up, e := if t in up.todo then w.e else WasSent(w.e, t, w.up.todo[t], Full(w.up)))
    case WakeUp(t) => w.(up := LineNext(w.up, Wake(t), z))
    case TakeRequest(t) => w.(e := Accepted(w.e, t, ParseAll(w.up.sent, z).ms[w.e.taken]))
    case Respond(t, r) => w.(down := LineNext(w.down, Begin(t, r), z), e := Answered(w.e, t, r))
    case WriteDown(t, k) =>
      var down := LineNext(w.down, Write(t, k), z);
      w.(down := down, e := if t in down.todo then w.e else WasAnswered(w.e, w.down.todo[t], Full(w.down)))
    case WakeDown(t) => w.(down := LineNext(w.down, Wake(t), z))
    case TakeResponse => w.(e := Matched(w.e, ParseAll(w.down.sent, z).ms[w.e.returned]))
    case Return(t) => w.(e := Returned(w.e, t))
  }

  ghost function Out(l: Line): seq<Msg> {
    l.log[..Full(l)]
  }

  ghost function NetsOf(w: World): Nets {
    Nets(w.up.todo, Out(w.up), w.down.todo, Out(w.down))
  }

  ghost predicate Inv(w: World, z: Sizes) {
    LineInv(w.up, z) && LineInv(w.down, z) && EndsInv(NetsOf(w), w.e)
  }

  /** What a step of a line is to the messages on it. */
  lemma BeganIsSending(l: Line, t: Task, m: Msg, z: Sizes)
    requires LineInv(l, z) && LineEnabled(l, Begin(t, m), z)
    ensures var n := LineNext(l, Begin(t, m), z); n.todo == l.todo[t := m] && Out(n) == Out(l) && LineInv(n, z)
  {
    LineNextKeepsInv(l, Begin(t, m), z);
  }

  lemma WroteIsSent(l: Line, t: Task, k: nat, z: Sizes)
    requires LineInv(l, z) && LineEnabled(l, Write(t, k), z)
    ensures var n := LineNext(l, Write(t, k), z);
            && LineInv(n, z) && |Out(l)| == Full(l)
            && (t in n.todo ==> n.todo == l.todo && Out(n) == Out(l))
            && (t !in n.todo ==> n.todo == l.todo - {t} && Out(n) == Out(l) + [l.todo[t]])
  {
    LineNextKeepsInv(l, Write(t, k), z);
    WroteTakesOut(l, t, k);
  }

  lemma WroteTakesOut(l: Line, t: Task, k: nat)
    requires l.lock.owner == Held(t) && t in l.todo && l.done + k <= |Encode(l.todo[t])|
    requires l.log != [] && l.log[|l.log| - 1] == l.todo[t]
    requires l.lock.waiting != [] ==> l.lock.waiting[0] in l.todo
    ensures var n := Wrote(l, t, k);
            && (t in n.todo ==> n.todo == l.todo && Out(n) == Out(l))
            && (t !in n.todo ==> n.todo == l.todo - {t} && Out(n) == Out(l) + [l.todo[t]])
  {
    var n := Wrote(l, t, k);
    if l.done + k == |Encode(l.todo[t])| {
      assert l.log[..|l.log| - 1] + [l.log[|l.log| - 1]] == l.log;
      assert n.log[..|l.log|] == l.log;
    }
  }

  lemma WokeIsNothing(l: Line, t: Task, z: Sizes)
    requires LineInv(l, z) && LineEnabled(l, Wake(t), z)
    ensures var n := LineNext(l, Wake(t), z); n.todo == l.todo && Out(n) == Out(l) && LineInv(n, z)
  {
    LineNextKeepsInv(l, Wake(t), z);
  }

  lemma UpKeepsInv(w: World, t: Task, k: nat, z: Sizes)
    requires Inv(w, z) && Enabled(w, WriteUp(t, k), z)
    ensures Inv(Next(w, WriteUp(t, k), z), z)
  {
    WroteIsSent(w.up, t, k, z);
    if t !in Next(w, WriteUp(t, k), z).up.todo {
      WasSentKeepsInv(NetsOf(w), w.e, t, w.up.todo[t]);
    }
  }

  lemma DownKeepsInv(w: World, t: Task, k: nat, z: Sizes)
    requires Inv(w, z) && Enabled(w, WriteDown(t, k), z)
    ensures Inv(Next(w, WriteDown(t, k), z), z)
  {
    WroteIsSent(w.down, t, k, z);
    if t !in Next(w, WriteDown(t, k), z).down.todo {
      WasAnsweredKeepsInv(NetsOf(w), w.e, t, w.down.todo[t]);
    }
  }

  lemma NextKeepsInv(w: World, c: Step, z: Sizes)
    requires Inv(w, z) && Enabled(w, c, z)
    ensures Inv(Next(w, c, z), z)
  {
    var n := NetsOf(w);
    match c
    case Request(t, m) => BeganIsSending(w.up, t, m, z); CalledKeepsInv(n, w.e, t, m);
    case WriteUp(t, k) => UpKeepsInv(w, t, k, z);
    case WakeUp(t) => WokeIsNothing(w.up, t, z);
    case TakeRequest(t) => LineIsRead(w.up, z); AcceptedKeepsInv(n, w.e, t);
    case Respond(t, r) => BeganIsSending(w.down, t, r, z); AnsweredKeepsInv(n, w.e, t, r);
    case WriteDown(t, k) => DownKeepsInv(w, t, k, z);
    case WakeDown(t) => WokeIsNothing(w.down, t, z);
    case TakeResponse => LineIsRead(w.down, z); MatchedKeepsInv(n, w.e);
    case Return(t) => ReturnedKeepsInv(n, w.e, t);
  }

  predicate Possible(w: World, steps: seq<Step>, z: Sizes)
    decreases |steps|
  {
    steps == [] || (Enabled(w, steps[0], z) && Possible(Next(w, steps[0], z), steps[1..], z))
  }

  function Run(w: World, steps: seq<Step>, z: Sizes): World
    requires Possible(w, steps, z)
    decreases |steps|
  {
    if steps == [] then w else Run(Next(w, steps[0], z), steps[1..], z)
  }

  lemma {:induction false} RunKeepsInv(w: World, steps: seq<Step>, z: Sizes)
    requires Inv(w, z) && Possible(w, steps, z)
    ensures Inv(Run(w, steps, z), z)
    decreases |steps|
  {
    if steps != [] {
      NextKeepsInv(w, steps[0], z);
      RunKeepsInv(Next(w, steps[0], z), steps[1..], z);
    }
  }

  lemma StartIsFine(z: Sizes)
    ensures Inv(START, z)
  {
    var n := NetsOf(START);
    assert forall id :: IdOk(n, START.e, id);
    assert forall t :: CallerOk(n, START.e, t);
    assert forall t :: HandlerOk(n, START.e, t);
    assert forall i :: OutOk(n, START.e, i);
    assert forall i :: BackOk(n, START.e, i);
  }

  ghost predicate Matches(e: Ends) {
    && !e.fault
    && (forall t :: t in e.woken ==> t in e.calls && t in e.answers && e.answers[t].seqid == e.calls[t].seqid)
    && (forall t :: t in e.woken ==> (e.calls[t], e.answers[t]) in e.replies)
    && (forall id :: id in e.hash ==>
      e.hash[id] in e.calls && e.hash[id] !in e.woken && e.calls[e.hash[id]].seqid == id)
    && (forall t :: t in e.calls && t !in e.woken ==> e.calls[t].seqid in e.hash && e.hash[e.calls[t].seqid] == t)
  }

  lemma InvMatches(n: Nets, e: Ends)
    requires EndsInv(n, e)
    ensures Matches(e)
  {
    forall t | t in e.calls || t in e.woken
      ensures if t in e.woken then
                && t in e.calls && t in e.answers && e.answers[t].seqid == e.calls[t].seqid
                && (e.calls[t], e.answers[t]) in e.replies
              else
                e.calls[t].seqid in e.hash && e.hash[e.calls[t].seqid] == t
    {
      assert CallerOk(n, e, t);
    }
    forall id | id in e.hash
      ensures e.hash[id] in e.calls && e.hash[id] !in e.woken && e.calls[e.hash[id]].seqid == id
    {
      assert IdOk(n, e, id);
    }
  }

  /** Over every run: no assert fails and no receive loop gives up, so no response is an orphan; a caller wakes with
      the response a handler made to its own request, whatever the order of the responses; the hash holds exactly
      the requests of the callers that are not awake yet. */
  lemma {:induction false} ResponsesMatch(steps: seq<Step>, z: Sizes)
    requires Possible(START, steps, z)
    ensures Matches(Run(START, steps, z).e)
  {
    StartIsFine(z);
    RunKeepsInv(START, steps, z);
    InvMatches(NetsOf(Run(START, steps, z)), Run(START, steps, z).e);
  }

  /** No wakeup is lost: the next response finds its caller asleep and wakes it. */
  lemma NoLostWakeup(n: Nets, e: Ends)
    requires EndsInv(n, e) && e.returned < |n.back|
    ensures var r := n.back[e.returned];
            && r.seqid in e.hash && e.hash[r.seqid] in e.asleep
            && Matched(e, r).woken == e.woken + {e.hash[r.seqid]}
  {
    var r := n.back[e.returned];
    assert BackOk(n, e, e.returned) && IdOk(n, e, r.seqid);
  }

  /** The calls of t begun in a run and not yet returned. */
  function OpenCalls(steps: seq<Step>, t: Task): int {
    if steps == [] then 0
    else
      (match steps[0]
       case Request(u, _) => if u == t then 1 else 0
       case Return(u) => if u == t then -1 else 0
       case _ => 0)
      + OpenCalls(steps[1..], t)
  }

  lemma {:induction false} RunOpensCalls(w: World, steps: seq<Step>, z: Sizes, t: Task)
    requires Inv(w, z) && Possible(w, steps, z)
    ensures (if t in Run(w, steps, z).e.calls then 1 else 0) == (if t in w.e.calls then 1 else 0) + OpenCalls(steps, t)
    decreases |steps|
  {
    if steps != [] {
      NextKeepsInv(w, steps[0], z);
      NextOpensCalls(w, steps[0], z, t);
      RunOpensCalls(Next(w, steps[0], z), steps[1..], z, t);
    }
  }

  lemma NextOpensCalls(w: World, c: Step, z: Sizes, t: Task)
    requires Inv(w, z) && Enabled(w, c, z)
    ensures var n := Next(w, c, z);
            match c
            case Request(u, _) => t in n.e.calls <==> u == t || t in w.e.calls
            case Return(u) => (u == t ==> t in w.e.calls) && (t in n.e.calls <==> u != t && t in w.e.calls)
            case _ => t in n.e.calls <==> t in w.e.calls
  {
    assert CallerOk(NetsOf(w), w.e, t);
  }

  /** Over every run a task is in rpc_request exactly from its call to its return, and it returns once. */
  lemma CallsReturnOnce(steps: seq<Step>, z: Sizes, t: Task)
    requires Possible(START, steps, z)
    ensures OpenCalls(steps, t) == if t in Run(START, steps, z).e.calls then 1 else 0
  {
    StartIsFine(z);
    RunOpensCalls(START, steps, z, t);
  }

  lemma {:induction false} Unused(s: set<Task>) returns (t: Task)
    ensures forall u :: u in s ==> u < t
    decreases |s|
  {
    t := 0;
    if s != {} {
      var u :| u in s;
      var rest := Unused(s - {u});
      t := if u < rest then rest else u + 1;
      assert forall v :: v in s ==> v == u || v in s - {u};
    }
  }

  /** No deadlock: in every reachable state in which a task is in rpc_request, some step other than a new request is
      possible. */
  lemma CallsAreNeverStuck(w: World, z: Sizes) returns (c: Step)
    requires Inv(w, z) && w.e.calls != map[] && z.msg >= HEADER
    ensures Enabled(w, c, z) && !c.Request?
  {
    var t :| t in w.e.calls;
    assert CallerOk(NetsOf(w), w.e, t);
    if w.up.todo != map[] {
      var l := LineIsNeverStuck(w.up, z);
      assert l == if l.Wake? then Wake(l.task) else Write(l.task, l.k);
      c := if l.Wake? then WakeUp(l.task) else WriteUp(l.task, l.k);
    } else if w.down.todo != map[] {
      var l := LineIsNeverStuck(w.down, z);
      assert l == if l.Wake? then Wake(l.task) else Write(l.task, l.k);
      c := if l.Wake? then WakeDown(l.task) else WriteDown(l.task, l.k);
    } else if t in w.e.woken {
      c := Return(t);
    } else {
      c := QuietStep(w, z, t);
    }
  }

  /** The step of a request that is on neither line. */
  lemma QuietStep(w: World, z: Sizes, t: Task) returns (c: Step)
    requires Inv(w, z) && t in w.e.calls && t !in w.e.woken && z.msg >= HEADER
    requires w.up.todo == map[] && w.down.todo == map[]
    ensures Enabled(w, c, z) && !c.Request?
  {
    var id := w.e.calls[t].seqid;
    assert CallerOk(NetsOf(w), w.e, t) && IdOk(NetsOf(w), w.e, id);
    LineIsRead(w.up, z);
    LineIsRead(w.down, z);
    match w.e.place[id]
    case Sent(_) =>
      var u := Unused(w.e.served.Keys);
      c := TakeRequest(u);
    case Serving(u) => c := Respond(u, Msg(id, 0, HEADER, 0, 0, [], []));
    case Replied(_) => c := TakeResponse;
  }
}
