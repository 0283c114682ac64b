/** Messages as bytes: what _rpc_receive of iosplitter/rpc/rpc.c makes of what rpc_request and rpc_response write. */
module Framing {

  type byte = b: int | 0 <= b < 256
  type uint16 = n: int | 0 <= n < 0x1_0000
  type uint32 = n: int | 0 <= n < 0x1_0000_0000

  /** The header of rpc_msghdr_t, the caller's own header behind it, and the payload. */
  datatype Msg = Msg(seqid: uint32, kind: uint16, msglen: uint16, payloadlen: uint16, status: uint16,
                     rest: seq<byte>, payload: seq<byte>)

  /** The sizes of the buffers in msgpool and datapool. */
  datatype Sizes = Sizes(msg: nat, data: nat)

  const HEADER := 12

  predicate IsRequest(m: Msg) {
    m.kind % 2 == 1
  }

  predicate IsClosed(m: Msg) {
    m.kind / 2 % 2 == 1
  }

  /** A message the two ends agree on: the lengths are true and fit the buffers of the receiver. */
  predicate Fits(m: Msg, z: Sizes) {
    m.msglen == HEADER + |m.rest| && m.msglen <= z.msg && m.payloadlen == |m.payload| && m.payloadlen <= z.data
  }

  function Le16(n: uint16): (s: seq<byte>)
    ensures |s| == 2 && s[0] as int + 256 * s[1] as int == n
  {
    [n % 256, n / 256]
  }

  function Le32(n: uint32): (s: seq<byte>)
    ensures |s| == 4
    ensures s[0] as int + 0x100 * s[1] as int + 0x1_0000 * s[2] as int + 0x100_0000 * s[3] as int == n
  {
    Le16(n % 0x1_0000) + Le16(n / 0x1_0000)
  }

  function Word(s: seq<byte>, i: nat): uint16
    requires i + 2 <= |s|
  {
    var low: int := s[i];
    var high: int := s[i + 1];
    low + 256 * high
  }

  function DoubleWord(s: seq<byte>, i: nat): uint32
    requires i + 4 <= |s|
  {
    var low: int := Word(s, i);
    var high: int := Word(s, i + 2);
    low + 0x1_0000 * high
  }

  function Header(m: Msg): (s: seq<byte>)
    ensures |s| == HEADER
  {
    Le32(m.seqid) + Le16(m.kind) + Le16(m.msglen) + Le16(m.payloadlen) + Le16(m.status)
  }

  function Encode(m: Msg): seq<byte> {
    Header(m) + m.rest + m.payload
  }

  datatype Parse = Short | Bad | Got(m: Msg, left: seq<byte>)

  /** What _rpc_receive finds at the front of a stream: not yet a whole message, a length it refuses, or a message
      and what is left behind it. */
  function ParseOne(s: seq<byte>, z: Sizes): Parse {
    if |s| < HEADER then
      Short
    else
      var msglen := Word(s, 6);
      var payloadlen := Word(s, 8);
      if msglen > z.msg || msglen < HEADER then
        Bad
      else if |s| < msglen then
        Short
      else if payloadlen > z.data then
        Bad
      else if |s| < msglen + payloadlen then
        Short
      else
        Got(Msg(DoubleWord(s, 0), Word(s, 4), msglen, payloadlen, Word(s, 10),
                s[HEADER..msglen], s[msglen..msglen + payloadlen]),
            s[msglen + payloadlen..])
  }

  lemma HeaderWords(m: Msg, s: seq<byte>)
    requires |s| >= HEADER && s[..HEADER] == Header(m)
    ensures DoubleWord(s, 0) == m.seqid && Word(s, 4) == m.kind && Word(s, 6) == m.msglen
    ensures Word(s, 8) == m.payloadlen && Word(s, 10) == m.status
  {
    var h := Header(m);
    assert forall i :: 0 <= i < HEADER ==> s[i] == h[i];
  }

  lemma WordsMakeHeader(m: Msg, s: seq<byte>)
    requires |s| >= HEADER
    requires DoubleWord(s, 0) == m.seqid && Word(s, 4) == m.kind && Word(s, 6) == m.msglen
    requires Word(s, 8) == m.payloadlen && Word(s, 10) == m.status
    ensures s[..HEADER] == Header(m)
  {
    assert DoubleWord(s, 0) % 0x1_0000 == Word(s, 0) && DoubleWord(s, 0) / 0x1_0000 == Word(s, 2);
    assert s[..HEADER] == (s[0..2] + s[2..4]) + s[4..6] + s[6..8] + s[8..10] + s[10..12];
    WordBytes(s, 0);
    WordBytes(s, 2);
    WordBytes(s, 4);
    WordBytes(s, 6);
    WordBytes(s, 8);
    WordBytes(s, 10);
  }

  lemma WordBytes(s: seq<byte>, i: nat)
    requires i + 2 <= |s|
    ensures Le16(Word(s, i)) == s[i..i + 2]
  {
  }

  /** A whole message is read back, and the bytes behind it are left alone. */
  lemma ParseReadsBack(m: Msg, left: seq<byte>, z: Sizes)
    requires Fits(m, z)
    ensures ParseOne(Encode(m) + left, z) == Got(m, left)
  {
    var s := Encode(m) + left;
    assert s[..HEADER] == Header(m);
    HeaderWords(m, s);
    assert s[HEADER..m.msglen] == m.rest;
    assert s[m.msglen..m.msglen + m.payloadlen] == m.payload;
    assert s[m.msglen + m.payloadlen..] == left;
  }

  /** Part of a message is never taken for one. */
  lemma PartIsShort(m: Msg, k: nat, z: Sizes)
    requires Fits(m, z) && k < |Encode(m)|
    ensures ParseOne(Encode(m)[..k], z) == Short
  {
    var s := Encode(m)[..k];
    if k >= HEADER {
      assert s[..HEADER] == Header(m);
      HeaderWords(m, s);
    }
  }

  /** Whatever is read was sent so: the only bytes that yield m are those of m. */
  lemma GotWasEncoded(s: seq<byte>, z: Sizes)
    requires ParseOne(s, z).Got?
    ensures var p := ParseOne(s, z); Fits(p.m, z) && s == Encode(p.m) + p.left
  {
    var p := ParseOne(s, z);
    WordsMakeHeader(p.m, s);
    var n := p.m.msglen;
    assert s == s[..HEADER] + s[HEADER..n] + s[n..n + p.m.payloadlen] + p.left;
  }

  /** What is refused is not the front of a message that fits, and no such message is its front. */
  lemma BadIsHopeless(s: seq<byte>, z: Sizes, m: Msg)
    requires ParseOne(s, z) == Bad && Fits(m, z)
    ensures !(s <= Encode(m)) && !(Encode(m) <= s)
  {
    if s <= Encode(m) {
      if s == Encode(m) {
        assert Encode(m) + [] == Encode(m);
        ParseReadsBack(m, [], z);
      } else {
        assert Encode(m)[..|s|] == s;
        PartIsShort(m, |s|, z);
      }
    }
    if Encode(m) <= s {
      assert Encode(m) + s[|Encode(m)|..] == s;
      ParseReadsBack(m, s[|Encode(m)|..], z);
    }
  }

  function EncodeAll(ms: seq<Msg>): seq<byte> {
    if ms == [] then [] else Encode(ms[0]) + EncodeAll(ms[1..])
  }

  /** The messages of a stream and what is left behind the last of them. */
  datatype Parsed = Parsed(ms: seq<Msg>, left: seq<byte>)

  function ParseAll(s: seq<byte>, z: Sizes): Parsed
    decreases |s|
  {
    match ParseOne(s, z)
    case Got(m, left) => var p := ParseAll(left, z); Parsed([m] + p.ms, p.left)
    case _ => Parsed([], s)
  }

  lemma ParseAllTakesOne(m: Msg, left: seq<byte>, z: Sizes)
    requires Fits(m, z)
    ensures ParseAll(Encode(m) + left, z) == Parsed([m] + ParseAll(left, z).ms, ParseAll(left, z).left)
  {
    ParseReadsBack(m, left, z);
  }

  lemma ParseAllTakesNone(m: Msg, k: nat, z: Sizes)
    requires Fits(m, z) && k < |Encode(m)|
    ensures ParseAll(Encode(m)[..k], z) == Parsed([], Encode(m)[..k])
  {
    PartIsShort(m, k, z);
  }

  /** A stream of messages, the last one perhaps only partly there, is read back message by message. */
  lemma {:induction false} ParseAllReadsBack(ms: seq<Msg>, m: Msg, k: nat, z: Sizes)
    requires (forall i :: 0 <= i < |ms| ==> Fits(ms[i], z)) && Fits(m, z) && k < |Encode(m)|
    ensures ParseAll(EncodeAll(ms) + Encode(m)[..k], z) == Parsed(ms, Encode(m)[..k])
    decreases |ms|
  {
    if ms == [] {
      ParseAllTakesNone(m, k, z);
      assert EncodeAll(ms) + Encode(m)[..k] == Encode(m)[..k];
    } else {
      ParseAllReadsBack(ms[1..], m, k, z);
      AppendIsAssociative(Encode(ms[0]), EncodeAll(ms[1..]), Encode(m)[..k]);
      ParseAllTakesOne(ms[0], EncodeAll(ms[1..]) + Encode(m)[..k], z);
      assert [ms[0]] + ms[1..] == ms;
    }
  }

  lemma AppendIsAssociative<T>(a: seq<T>, b: seq<T>, c: seq<T>)
    ensures a + (b + c) == (a + b) + c
  {
  }

  lemma {:induction false} EncodeAllAppends(ms: seq<Msg>, m: Msg)
    ensures EncodeAll(ms + [m]) == EncodeAll(ms) + Encode(m)
    decreases |ms|
  {
    if ms == [] {
      assert EncodeAll([m][1..]) == [];
    } else {
      EncodeAllAppends(ms[1..], m);
      assert (ms + [m])[1..] == ms[1..] + [m];
      AppendIsAssociative(Encode(ms[0]), EncodeAll(ms[1..]), Encode(m));
    }
  }

  /** The bytes moved by system calls that move ks[0], ks[1], ... of them. */
  ghost function Total(ks: seq<nat>): nat {
    if ks == [] then 0 else ks[0] + Total(ks[1..])
  }

  ghost predicate AllMove(ks: seq<nat>) {
    forall i :: 0 <= i < |ks| ==> ks[i] >= 1
  }

  lemma {:induction false} TotalAppends(a: seq<nat>, b: seq<nat>)
    ensures Total(a + b) == Total(a) + Total(b)
    decreases |a|
  {
    if a == [] {
      assert a + b == b;
    } else {
      TotalAppends(a[1..], b);
      assert (a + b)[1..] == a[1..] + b;
    }
  }

  /** A descriptor. unread holds the bytes its peer has sent or will send, io what the system calls on it will
      do: move up to that many bytes, say "again" if negative, or report the connection closed if 0 or if there
      is no entry left. */
  class Wire {
    var unread: seq<byte>
    var written: seq<byte>
    var io: seq<int>
    // a read has found the connection closed
    ghost var hung: bool

    constructor (unread: seq<byte>, io: seq<int>)
      ensures this.unread == unread && written == [] && this.io == io && !hung
    {
      this.unread, this.io, written, hung := unread, io, [], false;
    }

    /** One read or write of up to n bytes, of which avail could move. */
    method Transfer(n: nat, avail: nat) returns (res: int)
      requires io != []
      modifies this`io
      ensures io == old(io)[1..]
      ensures res <= n && res <= avail && (n == 0 ==> res <= 0)
    {
      res := io[0];
      io := io[1..];
      if res > 0 {
        res := if n == 0 then 0 else if avail == 0 then -1 else if res <= n && res <= avail then res
                                     else if n <= avail then n else avail;
      }
    }

    /** task_netrw for reading: however the bytes arrive, all n of them or a closed connection. */
    method NetRead(nbytes: nat) returns (ok: bool, buf: seq<byte>)
      modifies this`unread, this`io, this`hung
      ensures |buf| <= nbytes && buf + unread == old(unread)
      ensures hung <==> old(hung) || !ok
      ensures ok <==> |buf| == nbytes > 0
      ensures ok ==> |io| < |old(io)|
      ensures |io| <= |old(io)|
    {
      buf := [];
      var n := nbytes;
      while true
        invariant n == nbytes - |buf| && 0 <= n && (n == 0 ==> nbytes == 0)
        invariant buf + unread == old(unread) && |io| <= |old(io)| && hung == old(hung)
        decreases |io|
      {
        if io == [] {
          hung := true;
          return false, buf;
        }
        var res := Transfer(n, |unread|);
        if res > 0 {
          buf, unread := buf + unread[..res], unread[res..];
          n := n - res;
          if n <= 0 {
            return true, buf;
          }
        } else if res == 0 {
          hung := true;
          return false, buf;
        }
      }
    }

    /** task_netrw for writing; ks says how many bytes each of its system calls moved. */
    method NetWrite(buf: seq<byte>) returns (ok: bool, ghost ks: seq<nat>)
      modifies this`written, this`io
      ensures AllMove(ks) && Total(ks) <= |buf| && written == old(written) + buf[..Total(ks)]
      ensures ok <==> Total(ks) == |buf| > 0
    {
      ks := [];
      var done, n := 0, |buf|;
      while true
        invariant n == |buf| - done && 0 <= n && (n == 0 ==> |buf| == 0)
        invariant 0 <= done <= |buf| && written == old(written) + buf[..done]
        invariant AllMove(ks) && Total(ks) == done
        decreases |io|
      {
        if io == [] {
          return false, ks;
        }
        var res := Transfer(n, n);
        if res > 0 {
          TotalAppends(ks, [res]);
          ks := ks + [res];
          written := written + buf[done..done + res];
          done, n := done + res, n - res;
          if n <= 0 {
            return true, ks;
          }
        } else if res == 0 {
          return false, ks;
        }
      }
    }

    /** The two writes of rpc_request and rpc_response: header and payload, if there is one. */
    method Send(m: Msg) returns (ok: bool, ghost ks: seq<nat>)
      requires m.msglen == HEADER + |m.rest| && m.payloadlen == |m.payload|
      modifies this`written, this`io
      ensures AllMove(ks) && Total(ks) <= |Encode(m)| && written == old(written) + Encode(m)[..Total(ks)]
      ensures ok <==> Total(ks) == |Encode(m)|
    {
      ghost var more: seq<nat>;
      ok, ks := NetWrite(Header(m) + m.rest);
      assert Encode(m)[..Total(ks)] == (Header(m) + m.rest)[..Total(ks)];
      if ok && m.payload != [] {
        ok, more := NetWrite(m.payload);
        TotalAppends(ks, more);
        assert Encode(m)[..Total(ks + more)] == Header(m) + m.rest + m.payload[..Total(more)];
        ks := ks + more;
      }
    }

    /** _rpc_receive: the next message of the stream, or no message at all. */
    method Receive(z: Sizes) returns (ok: bool, m: Msg, ghost taken: seq<byte>)
      modifies this`unread, this`io, this`hung
      ensures taken + unread == old(unread)
      ensures ok ==> ParseOne(taken, z) == Got(m, []) && |io| < |old(io)| && hung == old(hung)
      ensures !ok ==> (hung && ParseOne(taken, z) == Short) || ParseOne(taken, z) == Bad
    {
      ok, m, taken := false, Msg(0, 0, 0, 0, 0, [], []), [];
      var header: seq<byte>, rest: seq<byte>, payload: seq<byte> := [], [], [];
      ok, header := NetRead(HEADER);
      taken := header;
      if !ok {
        return;
      }
      var msglen, payloadlen := Word(header, 6), Word(header, 8);
      if msglen > z.msg || msglen < HEADER {
        ok := false;
        return;
      }
      if msglen > HEADER {
        ok, rest := NetRead(msglen - HEADER);
        taken := header + rest;
        SameWords(header, taken);
        if !ok {
          return;
        }
      }
      if payloadlen > 0 {
        if payloadlen > z.data {
          ok := false;
          return;
        }
        ok, payload := NetRead(payloadlen);
        taken := header + rest + payload;
        SameWords(header, taken);
        if !ok {
          return;
        }
      }
      m := Msg(DoubleWord(header, 0), Word(header, 4), msglen, payloadlen, Word(header, 10), rest, payload);
      assert taken == header + rest + payload;
      WholeMessage(header, rest, payload, z);
    }

    /** rpc_recv_task: whatever the stream holds and however it arrives, the messages handed on, requests to the
        handler and responses to their callers, are in order the messages of the stream; only a closed
        connection, or a message that says so, stops it short of the last. */
    method ReceiveAll(z: Sizes) returns (handled: seq<Msg>, answered: seq<Msg>, ghost ms: seq<Msg>)
      modifies this`unread, this`io, this`hung
      ensures handled == Chosen(ms, true) && answered == Chosen(ms, false)
      ensures var all := ParseAll(old(unread), z).ms;
              && ms <= all
              && (forall i :: 0 <= i < |ms| ==> !IsClosed(all[i]))
              && (hung || ms == all || IsClosed(all[|ms|]))
    {
      handled, answered, ms := [], [], [];
      ghost var goal := ParseAll(unread, z).ms;
      while true
        invariant handled == Chosen(ms, true) && answered == Chosen(ms, false)
        invariant |ms| <= |goal| && ms == goal[..|ms|] && ParseAll(unread, z).ms == goal[|ms|..]
        invariant forall i :: 0 <= i < |ms| ==> !IsClosed(ms[i])
        decreases |io|
      {
        ghost var before := unread;
        var ok, m, taken := Receive(z);
        if !ok {
          if !hung {
            BadStays(before, taken, unread, z);
          }
          return;
        }
        TakenIsFirst(before, taken, m, unread, z);
        Advances(goal, ms, m, ParseAll(unread, z).ms);
        if IsClosed(m) {
          return;
        }
        ChosenAppends(ms, m, true);
        ChosenAppends(ms, m, false);
        ms := ms + [m];
        if IsRequest(m) {
          handled := handled + [m];
        } else {
          answered := answered + [m];
        }
      }
    }
  }

  lemma TakenIsFirst(s: seq<byte>, taken: seq<byte>, m: Msg, left: seq<byte>, z: Sizes)
    requires s == taken + left && ParseOne(taken, z) == Got(m, [])
    ensures ParseAll(s, z).ms == [m] + ParseAll(left, z).ms
  {
    GotWasEncoded(taken, z);
    assert taken == Encode(m);
    ParseAllTakesOne(m, left, z);
  }

  lemma WholeMessage(header: seq<byte>, rest: seq<byte>, payload: seq<byte>, z: Sizes)
    requires |header| == HEADER && |rest| == Word(header, 6) - HEADER && |payload| == Word(header, 8)
    requires Word(header, 6) <= z.msg && Word(header, 8) <= z.data
    ensures ParseOne(header + rest + payload, z)
         == Got(Msg(DoubleWord(header, 0), Word(header, 4), Word(header, 6), Word(header, 8), Word(header, 10),
                    rest, payload), [])
  {
    var s := header + rest + payload;
    assert s[..HEADER] == header;
    assert s[HEADER..HEADER + |rest|] == rest;
    assert s[HEADER + |rest|..HEADER + |rest| + |payload|] == payload;
  }

  lemma Advances(goal: seq<Msg>, ms: seq<Msg>, m: Msg, tail: seq<Msg>)
    requires |ms| <= |goal| && ms == goal[..|ms|] && [m] + tail == goal[|ms|..]
    ensures |ms| < |goal| && goal[|ms|] == m && ms + [m] == goal[..|ms| + 1] && tail == goal[|ms| + 1..]
  {
    assert goal[|ms|..][0] == m;
    assert ([m] + tail)[1..] == tail;
  }

  lemma BadStays(s: seq<byte>, taken: seq<byte>, left: seq<byte>, z: Sizes)
    requires s == taken + left && ParseOne(taken, z) == Bad
    ensures ParseAll(s, z).ms == []
  {
    SameWords(taken[..HEADER], taken);
    SameWords(taken[..HEADER], s);
  }

  lemma SameWords(header: seq<byte>, s: seq<byte>)
    requires |header| == HEADER && header <= s
    ensures forall i {:trigger Word(s, i)} {:trigger Word(header, i)} ::
      0 <= i <= HEADER - 2 ==> Word(s, i) == Word(header, i)
  {
  }

  /** The requests, or the responses, among ms. */
  function Chosen(ms: seq<Msg>, requests: bool): seq<Msg> {
    if ms == [] then [] else (if IsRequest(ms[0]) == requests then [ms[0]] else []) + Chosen(ms[1..], requests)
  }

  lemma {:induction false} ChosenAppends(ms: seq<Msg>, m: Msg, requests: bool)
    ensures Chosen(ms + [m], requests) == Chosen(ms, requests) + (if IsRequest(m) == requests then [m] else [])
    decreases |ms|
  {
    if ms == [] {
      assert Chosen([m][1..], requests) == [];
    } else {
      ChosenAppends(ms[1..], m, requests);
      assert (ms + [m])[1..] == ms[1..] + [m];
    }
  }
}
