/** Who owns a request message in vmware_kernel/mpp/rpc.c, where threads run in parallel and rpc_async_request does not
    wait for the response: the sender must not use a message that the response handler has given back. */
module KernelRpc {

  type Msg = nat

  datatype Holder = Nobody | Sender(m: Msg) | Worker(m: Msg)

  /** hash holds the messages that wait for a response, unsent the bytes of each request still to be written, sent the
      requests whose sender has returned, peer those the other end has and may answer, answered those whose
      response is with a worker, matched those taken out of the hash, recycled those whose handler has put them
      back into the pool. fault: a response found no request, or a message was used after it was recycled. */
  datatype State = State(lock: Holder, hash: set<Msg>, unsent: map<Msg, nat>, sent: set<Msg>, peer: set<Msg>,
                         answered: set<Msg>, matched: set<Msg>, recycled: set<Msg>, fault: bool)

  const START := State(Nobody, {}, map[], {}, {}, {}, {}, {}, false)

  datatype Step =
    | Begin(m: Msg, size: nat)
    | Write(m: Msg, k: nat)
    | End(m: Msg)
    | Respond(m: Msg)
    | Lock(m: Msg)
    | Unhash(m: Msg)
    | Handle(m: Msg)

  predicate Enabled(s: State, e: Step) {
    match e
    case Begin(m, size) => s.lock == Nobody && m !in s.unsent && size > 0
    case Write(m, k) => s.lock == Sender(m) && m in s.unsent && 1 <= k <= s.unsent[m]
    case End(m) => s.lock == Sender(m) && m in s.unsent && s.unsent[m] == 0
    case Respond(m) => m in s.peer
    case Lock(m) => m in s.answered && s.lock == Nobody
    case Unhash(m) => s.lock == Worker(m)
    case Handle(m) => m in s.matched
  }

  function Next(s: State, e: Step): State
    requires Enabled(s, e)
  {
    match e
    // rpc_async_request: lock and hash_add; each socket_write; unlock
    case Begin(m, size) =>
      s.(lock := Sender(m), hash := s.hash + {m}, unsent := s.unsent[m := size], fault := s.fault || m in s.recycled)
    case Write(m, k) =>
      s.(unsent := s.unsent[m := s.unsent[m] - k], fault := s.fault || m in s.recycled,
         peer := if s.unsent[m] == k then s.peer + {m} else s.peer)
    case End(m) => s.(lock := Nobody, sent := s.sent + {m})
    // the other end answers as soon as it has the whole request
    case Respond(m) => s.(peer := s.peer - {m}, answered := s.answered + {m})
    // _rpc_response: lock; hash_lookup, hash_rem and unlock; resp_handler
    case Lock(m) => s.(lock := Worker(m))
    case Unhash(m) =>
      if m !in s.hash then
        s.(fault := true)
      else
        s.(lock := Nobody, hash := s.hash - {m}, answered := s.answered - {m}, matched := s.matched + {m})
    case Handle(m) => s.(matched := s.matched - {m}, recycled := s.recycled + {m})
  }

  /** A message is with its sender, the other end, a worker or the pool, in this order; it is hashed until a worker
      that has the lock takes it out, and a sender that has not returned has the lock. */
  ghost predicate MsgOk(s: State, m: Msg) {
    && (m in s.hash ==> m in s.unsent)
    && (m in s.unsent && m !in s.sent <==> s.lock == Sender(m))
    && (m in s.sent ==> m in s.unsent && s.unsent[m] == 0)
    && (m in s.peer || m in s.answered ==> m in s.hash && s.unsent[m] == 0)
    && (m in s.matched || m in s.recycled ==> m in s.sent && m !in s.hash)
    && (m in s.unsent && m !in s.hash ==> m in s.matched || m in s.recycled)
    && !(m in s.matched && m in s.recycled) && !(m in s.peer && m in s.answered)
    && (s.lock == Worker(m) ==> m in s.answered)
    && (m in s.unsent && m in s.hash && s.unsent[m] == 0 ==> m in s.peer || m in s.answered)
  }

  ghost predicate Inv(s: State) {
    !s.fault && forall m {:trigger MsgOk(s, m)} :: MsgOk(s, m)
  }

  lemma NextKeepsInv(s: State, e: Step)
    requires Inv(s) && Enabled(s, e)
    ensures Inv(Next(s, e))
  {
    assert MsgOk(s, e.m);
    forall m ensures MsgOk(Next(s, e), m) {
      assert MsgOk(s, m);
    }
  }

  predicate Possible(s: State, steps: seq<Step>)
    decreases |steps|
  {
    steps == [] || (Enabled(s, steps[0]) && Possible(Next(s, steps[0]), steps[1..]))
  }

  function Run(s: State, steps: seq<Step>): State
    requires Possible(s, steps)
    decreases |steps|
  {
    if steps == [] then s else Run(Next(s, steps[0]), steps[1..])
  }

  lemma {:induction false} RunKeepsInv(s: State, steps: seq<Step>)
    requires Inv(s) && Possible(s, steps)
    ensures Inv(Run(s, steps))
    decreases |steps|
  {
    if steps != [] {
      NextKeepsInv(s, steps[0]);
      RunKeepsInv(Next(s, steps[0]), steps[1..]);
    }
  }

  /** Over every run: every response finds its request, even one that comes before the sender has unlocked, and a
      message is recycled, once, only after its sender has returned; until then it is in the hash. */
  lemma {:induction false} SenderOutlivesItsUse(steps: seq<Step>, m: Msg)
    requires Possible(START, steps)
    ensures var s := Run(START, steps);
            && !s.fault
            && (m in s.recycled ==> m in s.sent && m !in s.hash && m !in s.matched)
            && (s.lock == Sender(m) ==> m in s.hash && m !in s.matched && m !in s.recycled)
  {
    assert forall n :: MsgOk(START, n);
    RunKeepsInv(START, steps);
    assert MsgOk(Run(START, steps), m);
  }

  /** What a run has done with request m. */
  datatype Done = Done(begun: bool, size: nat, written: nat, ended: bool, answered: bool, locked: bool, unhashed: bool,
                       handled: bool)

  const UNTOUCHED := Done(false, 0, 0, false, false, false, false, false)

  function DoneBy(r: Done, e: Step, m: Msg): Done {
    if e.m != m then r else
    match e
    case Begin(_, size) => r.(begun := true, size := size)
    case Write(_, k) => r.(written := r.written + k)
    case End(_) => r.(ended := true)
    case Respond(_) => r.(answered := true)
    case Lock(_) => r.(locked := true)
    case Unhash(_) => r.(unhashed := true)
    case Handle(_) => r.(handled := true)
  }

  function DoneIn(r: Done, steps: seq<Step>, m: Msg): Done
    decreases |steps|
  {
    if steps == [] then r else DoneIn(DoneBy(r, steps[0], m), steps[1..], m)
  }

  /** Where m is, by what has been done with it. */
  ghost predicate Agrees(s: State, r: Done, m: Msg) {
    && (m in s.unsent <==> r.begun) && (r.begun ==> r.written <= r.size && s.unsent[m] == r.size - r.written)
    && (m in s.hash <==> r.begun && !r.unhashed)
    && (m in s.sent <==> r.ended) && (s.lock == Sender(m) <==> r.begun && !r.ended)
    && (m in s.peer <==> r.begun && r.written == r.size && !r.answered)
    && (m in s.answered <==> r.answered && !r.unhashed)
    && (s.lock == Worker(m) <==> r.locked && !r.unhashed)
    && (m in s.matched <==> r.unhashed && !r.handled) && (m in s.recycled <==> r.handled)
    && (r.handled ==> r.unhashed) && (r.unhashed ==> r.locked) && (r.locked ==> r.answered) && (r.answered ==> r.begun)
    && (r.begun ==> r.size > 0) && (r.ended ==> r.begun) && (!r.begun ==> r.written == 0)
  }

  lemma StepAgrees(s: State, e: Step, r: Done, m: Msg)
    requires Inv(s) && Enabled(s, e) && Agrees(s, r, m)
    ensures Agrees(Next(s, e), DoneBy(r, e, m), m)
  {
    assert MsgOk(s, e.m) && MsgOk(s, m);
  }

  lemma {:induction false} RunAgrees(s: State, steps: seq<Step>, r: Done, m: Msg)
    requires Inv(s) && Possible(s, steps) && Agrees(s, r, m)
    ensures Agrees(Run(s, steps), DoneIn(r, steps, m), m)
    decreases |steps|
  {
    if steps != [] {
      StepAgrees(s, steps[0], r, m);
      NextKeepsInv(s, steps[0]);
      RunAgrees(Next(s, steps[0]), steps[1..], DoneBy(r, steps[0], m), m);
    }
  }

  /** Over every run: a message is where the steps on it, and no others, have brought it, with as many bytes unsent as
      its writes have left; the other end has it from its last byte on, the hash until a worker takes it out, and
      the pool once it has been handled. */
  lemma WhereItIs(steps: seq<Step>, m: Msg)
    requires Possible(START, steps)
    ensures Agrees(Run(START, steps), DoneIn(UNTOUCHED, steps, m), m)
  {
    assert forall n :: MsgOk(START, n);
    RunAgrees(START, steps, UNTOUCHED, m);
  }

  /** No deadlock: a request that has been begun and not handled can always go on. */
  lemma RequestIsNeverStuck(s: State, r: Done, m: Msg) returns (e: Step)
    requires Inv(s) && Agrees(s, r, m) && r.begun && !(r.handled && r.ended)
    ensures Enabled(s, e) && !e.Begin?
  {
    assert MsgOk(s, m);
    match s.lock
    case Sender(n) =>
      assert MsgOk(s, n);
      e := if s.unsent[n] == 0 then End(n) else Write(n, 1);
    case Worker(n) => e := Unhash(n);
    case Nobody => e := if m in s.matched then Handle(m) else if m in s.peer then Respond(m) else Lock(m);
  }
}
