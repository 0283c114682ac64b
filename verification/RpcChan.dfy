/** The client's end of an RPC channel in place: rpc_request and _rpc_response of iosplitter/rpc/rpc.c over the hash
    table, each method the code a task runs between two points where it can lose the processor. */
module RpcChan {
  import opened Common
  import opened Framing
  import opened Dll
  import opened Hash
  import opened RpcCalls

  type Task = nat

  /** rpc_msg_t of a request: the hash entry it is linked by, who sleeps on it and the response. */
  class Request {
    const entry: Node
    const task: Task
    const m: Msg
    var asleep: bool
    var resp: Option<Msg>

    constructor (task: Task, m: Msg)
      ensures this.task == task && this.m == m && !asleep && resp == None
      ensures fresh(entry) && entry.key == m.seqid && IsRing([entry])
    {
      entry := new Node(m.seqid);
      this.task, this.m, asleep, resp := task, m, false, None;
    }
  }

  ghost predicate HashedOk(contents: map<nat, Node>, h: map<uint32, Task>, request: map<Task, Request>, id: nat) {
    && (id in contents ==> id < 0x1_0000_0000 && id in h)
    && (id < 0x1_0000_0000 && id in h ==>
        id in contents && h[id] in request && contents[id] == request[h[id]].entry)
  }

  /** The hash has exactly the entries of the requests not yet answered. */
  ghost predicate Hashed(contents: map<nat, Node>, h: map<uint32, Task>, request: map<Task, Request>) {
    forall id {:trigger HashedOk(contents, h, request, id)} :: HashedOk(contents, h, request, id)
  }

  lemma HashedOneMore(contents: map<nat, Node>, h: map<uint32, Task>, request: map<Task, Request>, r: Request)
    requires Hashed(contents, h, request) && r.task !in request && r.m.seqid !in h
    ensures Hashed(contents[r.m.seqid := r.entry], h[r.m.seqid := r.task], request[r.task := r])
  {
    var contents', h', request' := contents[r.m.seqid := r.entry], h[r.m.seqid := r.task], request[r.task := r];
    forall id ensures HashedOk(contents', h', request', id) {
      assert HashedOk(contents, h, request, id);
    }
  }

  lemma HashedOneLess(contents: map<nat, Node>, h: map<uint32, Task>, request: map<Task, Request>, gone: uint32)
    requires Hashed(contents, h, request)
    ensures Hashed(contents - {gone}, h - {gone}, request)
  {
    forall id ensures HashedOk(contents - {gone}, h - {gone}, request, id) {
      assert HashedOk(contents, h, request, id);
    }
  }

  class RpcChan {
    const hash: Table
    // the message every entry is a member of
    var messages: map<Node, Request>
    // the same, and what the other end remembers, as values
    ghost var ends: Ends
    // the request of every task in rpc_request
    ghost var request: map<Task, Request>

    /** The request of task t. */
    ghost predicate RequestOk(t: Task)
      reads this`ends, this`request, this`messages, request.Values`asleep, request.Values`resp
    {
      && (t in ends.calls <==> t in request)
      && (t in request ==>
          var r := request[t];
          && r.task == t && r.m == ends.calls[t] && (r.asleep <==> t in ends.asleep)
          && r.resp == (if t in ends.answers then Some(ends.answers[t]) else None)
          && r.entry in messages && messages[r.entry] == r && r.entry.key == r.m.seqid)
    }

    ghost predicate Valid()
      reads this, hash, hash.repr, request.Values`asleep, request.Values`resp
    {
      hash.Valid() && Hashed(hash.contents, ends.hash, request) && (forall t {:trigger RequestOk(t)} :: RequestOk(t))
    }

    /** rpc_chan_init, as far as it concerns the hash. */
    constructor (hashsz: nat)
      requires hashsz > 0
      ensures Valid() && ends == START.e
    {
      hash := new Table(hashsz);
      messages, ends, request := map[], START.e, map[];
    }

    /** rpc_request up to its lock: the message is hashed under its seqid. */
    method Begin(t: Task, m: Msg)
      requires Valid() && t !in ends.calls && m.seqid !in ends.hash
      requires t !in ends.asleep && t !in ends.answers
      modifies this, hash, hash.repr
      ensures Valid() && ends == Called(old(ends), t, m)
      ensures t in request && fresh(request[t]) && request == old(request)[t := request[t]] && request[t].m == m
      ensures hash.contents == old(hash.contents)[m.seqid := request[t].entry]
    {
      var r := new Request(t, m);
      assert HashedOk(hash.contents, ends.hash, request, m.seqid) && RequestOk(t);
      HashedOneMore(hash.contents, ends.hash, request, r);
      hash.Insert(r.entry, hash.Bucket(m.seqid));
      Enter(r);
    }

    /** The rest of the bookkeeping of Begin. */
    method Enter(r: Request)
      requires (forall t {:trigger RequestOk(t)} :: RequestOk(t)) && r.task !in ends.calls
      requires r.task !in ends.asleep && r.task !in ends.answers && !r.asleep && r.resp == None
      requires r.entry !in messages && r.entry.key == r.m.seqid
      modifies this
      ensures forall t {:trigger RequestOk(t)} :: RequestOk(t)
      ensures ends == Called(old(ends), r.task, r.m) && request == old(request)[r.task := r]
    {
      messages := messages[r.entry := r];
      request := request[r.task := r];
      ends := Called(ends, r.task, r.m);
      forall u ensures RequestOk(u) {
        assert old(RequestOk(u));
      }
    }

    /** The end of rpc_request's writing, without giving up the processor: the task sleeps on its message. */
    method Sleep(r: Request, i: nat)
      requires Valid() && r.task in request && request[r.task] == r && r.resp == None
      modifies this`ends, r`asleep
      ensures Valid() && ends == WasSent(old(ends), r.task, r.m, i)
      ensures r.asleep && ends.asleep == old(ends).asleep + {r.task}
    {
      r.asleep := true;
      ends := WasSent(ends, r.task, r.m, i);
      forall u ensures RequestOk(u) {
        assert old(RequestOk(u));
      }
    }

    /** _rpc_response: the request of the response's seqid leaves the hash and its sender wakes with the response;
        an orphan is reported exactly if no request of this seqid waits. */
    method Response(resp: Msg) returns (orphan: bool)
      requires Valid() && IsResponse(resp)
      modifies this`ends, hash, hash.repr, request.Values`asleep, request.Values`resp
      ensures ends == Matched(old(ends), resp) && (orphan <==> resp.seqid !in old(ends.hash))
      ensures !orphan ==> Valid()
      ensures request == old(request)
      ensures !orphan ==>
                && hash.contents == old(hash.contents) - {resp.seqid}
                && old(ends.hash)[resp.seqid] in request
                && var r := request[old(ends.hash)[resp.seqid]]; r.resp == Some(resp) && !r.asleep
      ensures orphan ==> hash.contents == old(hash.contents)
    {
      var b := hash.Bucket(resp.seqid);
      var e := hash.Lookup(b, resp.seqid);
      assert HashedOk(hash.contents, ends.hash, request, resp.seqid);
      if e == null {
        ends := Matched(ends, resp);
        return true;
      }
      assert RequestOk(ends.hash[resp.seqid]);
      var r := messages[e];
      ghost var j := hash.Place(resp.seqid);
      HashedOneLess(hash.contents, ends.hash, request, resp.seqid);
      hash.Remove(e, b, j);
      Wake(r, resp);
      orphan := false;
    }

    /** The end of _rpc_response. */
    method Wake(r: Request, resp: Msg)
      requires (forall t {:trigger RequestOk(t)} :: RequestOk(t)) && IsResponse(resp)
      requires r.task in request && request[r.task] == r && resp.seqid in ends.hash && ends.hash[resp.seqid] == r.task
      modifies this`ends, r`asleep, r`resp
      ensures forall t {:trigger RequestOk(t)} :: RequestOk(t)
      ensures ends == Matched(old(ends), resp) && r.resp == Some(resp) && !r.asleep
    {
      r.resp := Some(resp);
      if r.asleep {
        r.asleep := false;
      }
      ends := Matched(ends, resp);
      forall u ensures RequestOk(u) {
        assert old(RequestOk(u));
      }
    }

    /** rpc_request from the end of its sleep: msgp->resp is there. */
    method Finish(r: Request) returns (resp: Msg)
      requires Valid() && r.task in request && request[r.task] == r && r.task in ends.answers
      requires forall id :: id in ends.hash ==> ends.hash[id] != r.task
      modifies this`ends, this`request
      ensures Valid() && ends == Returned(old(ends), r.task) && resp == old(ends).answers[r.task]
      ensures request == old(request) - {r.task} && old(r.resp) == Some(resp)
    {
      assert RequestOk(r.task);
      assert r.resp.Some?;
      resp := r.resp.value;
      ends := Returned(ends, r.task);
      request := request - {r.task};
      forall u ensures RequestOk(u) {
        assert old(RequestOk(u));
      }
      forall id ensures HashedOk(hash.contents, ends.hash, request, id) {
        assert old(HashedOk(hash.contents, ends.hash, request, id));
      }
    }
  }
}
