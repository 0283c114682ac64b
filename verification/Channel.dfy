/** Channels and alt of iosplitter/libtask/channel.c. */
module Channel {
  import opened Common

  datatype Op = CHANEND | CHANSND | CHANRCV | CHANNOP | CHANNOBLK

  /** A pointer to an Alt: entry i of the array that task was given to chanalt. A task is in at most one
      chanalt, so the two determine the Alt; they are its task and its distance from xalt. */
  datatype AltRef = AltRef(task: nat, i: nat)

  /** p is q without the first k offers of task t. */
  ghost predicate Without(p: seq<AltRef>, q: seq<AltRef>, t: nat, k: nat) {
    Distinct(p) && forall x {:trigger x in p} {:trigger x in q} :: x in p <==> x in q && !(x.task == t && x.i < k)
  }

  lemma Shrinks(p: seq<AltRef>, q: seq<AltRef>, t: nat, k: nat)
    requires Without(p, q, t, k)
    ensures p != [] ==> q != []
    ensures forall i :: 0 <= i < |p| ==> p[i] in q
  {
    forall i | 0 <= i < |p| ensures p[i] in q { assert p[i] in p; }
    if p != [] { assert p[0] in q; }
  }

  class Channel<T(0)> {
    const bufsize: nat
    const buf: array<T>
    var nbuf: nat
    var off: nat
    var asend: seq<AltRef>
    var arecv: seq<AltRef>
    // every value a sender has handed over, and every value a receiver has been given, in order
    ghost var accepted: seq<T>
    ghost var delivered: seq<T>

    constructor (bufsize: nat)
      ensures this.bufsize == bufsize && nbuf == 0 && off == 0 && asend == arecv == []
      ensures accepted == delivered == [] && fresh(buf) && Ring() && Fifo()
    {
      this.bufsize := bufsize;
      buf := new T[bufsize];
      nbuf, off := 0, 0;
      asend, arecv := [], [];
      accepted, delivered := [], [];
    }

    ghost predicate Ring()
      reads this`nbuf, this`off
    {
      buf.Length == bufsize && nbuf <= bufsize && (if bufsize == 0 then off == 0 else off < bufsize)
    }

    /** The buffered values, oldest first. */
    ghost function Contents(): (s: seq<T>)
      requires Ring()
      reads this`nbuf, this`off, buf
      ensures |s| == nbuf
    {
      if off + nbuf <= bufsize then buf[off..off + nbuf] else buf[off..] + buf[..off + nbuf - bufsize]
    }

    /** What went in is what came out followed by what is still inside. */
    ghost predicate Fifo()
      requires Ring()
      reads this`nbuf, this`off, this`accepted, this`delivered, buf
    {
      accepted == delivered + Contents()
    }

    /** The first half of altcopy's buffered case. */
    method TakeHead() returns (x: T)
      requires Ring() && Fifo() && nbuf > 0
      modifies this`nbuf, this`off, this`delivered
      ensures Ring() && Fifo() && nbuf == old(nbuf) - 1
      ensures x == old(Contents())[0] && delivered == old(delivered) + [x]
    {
      ghost var s := Contents();
      x := buf[off];
      assert x == s[0];
      nbuf := nbuf - 1;
      off := off + 1;
      if off == bufsize {
        off := 0;
      }
      delivered := delivered + [x];
      assert Contents() == s[1..];
    }

    lemma ModIsSlot(k: nat)
      requires bufsize > 0 && k < 2 * bufsize
      ensures k % bufsize == if k < bufsize then k else k - bufsize
    {
      if k >= bufsize { assert k == bufsize + (k - bufsize); }
    }

    /** The second half. */
    method PutTail(x: T)
      requires Ring() && Fifo() && nbuf < bufsize
      modifies this`nbuf, this`accepted, buf
      ensures Ring() && Fifo() && nbuf == old(nbuf) + 1
      ensures accepted == old(accepted) + [x]
    {
      ghost var s := Contents();
      ModIsSlot(off + nbuf);
      buf[(off + nbuf) % bufsize] := x;
      nbuf := nbuf + 1;
      accepted := accepted + [x];
      assert Contents() == s + [x];
    }
  }

  /** One offer of an alt. v is the address of the value to send or of the place to receive into; NULL sends
      a zero or drops what is received. */
  datatype Alt<T(0)> = Alt(c: Channel<T>, op: Op, v: Option<nat>)

  /** How chanalt comes back: with the index of the offer it ran, with -1, or not before a partner runs one. */
  datatype Outcome = Done(i: nat) | WouldBlock | Blocked

  /** All the channels of a program and the tasks blocked in chanalt. */
  class World<T(0)> {
    const zero: T
    ghost var chans: set<Channel<T>>
    // the memory that sent and received values live in
    var mem: map<nat, T>
    // the offers of each task inside chanalt, without the entry that ends the array
    var alts: map<nat, seq<Alt<T>>>
    // a[0].xalt - a, once a partner has run one of the task's offers
    var ran: map<nat, nat>
    // the run queue
    var ready: seq<nat>
    // the tasks whose offers stand
    ghost var blocked: set<nat>

    ghost predicate Stands(r: AltRef, c: Channel<T>, op: Op)
      reads this`alts, this`blocked
    {
      && r.task in blocked && r.task in alts && r.i < |alts[r.task]|
      && alts[r.task][r.i].c == c && alts[r.task][r.i].op == op
    }

    ghost predicate QueuesOk(c: Channel<T>)
      reads this`alts, this`blocked, c`asend, c`arecv
    {
      && Distinct(c.asend) && Distinct(c.arecv)
      && (forall x {:trigger x in c.asend} :: x in c.asend ==> Stands(x, c, CHANSND))
      && (forall x {:trigger x in c.arecv} :: x in c.arecv ==> Stands(x, c, CHANRCV))
    }

    /** Two tasks whose offers on c could meet, or a buffer that could serve one, would have done so. */
    ghost predicate Quiet(c: Channel<T>)
      reads c`asend, c`arecv, c`nbuf
    {
      if c.bufsize > 0 then (c.asend != [] ==> c.nbuf == c.bufsize) && (c.arecv != [] ==> c.nbuf == 0)
      else forall i, j :: 0 <= i < |c.asend| && 0 <= j < |c.arecv| ==> c.asend[i].task == c.arecv[j].task
    }

    ghost predicate ChanOk(c: Channel<T>)
      reads this`alts, this`blocked, c`asend, c`arecv, c`nbuf, c`off, c`accepted, c`delivered, c.buf
    {
      c.Ring() && c.Fifo() && QueuesOk(c) && Quiet(c)
    }

    /** Offer i of task t is queued where it belongs. */
    ghost predicate OfferOk(t: nat, i: nat)
      requires t in alts && i < |alts[t]|
      reads this`alts, this`chans, this`mem, chans`asend, chans`arecv
    {
      var a := alts[t][i];
      a.op == CHANNOP ||
      (&& a.c in chans && (a.v.Some? ==> a.v.value in mem)
       && a.op in {CHANSND, CHANRCV}
       && AltRef(t, i) in (if a.op == CHANSND then a.c.asend else a.c.arecv))
    }

    ghost predicate Valid()
      reads this, chans, set c | c in chans :: c.buf
    {
      && (forall c, d {:trigger c.buf, d.buf} :: c in chans && d in chans && c != d ==> c.buf != d.buf)
      && (forall c {:trigger ChanOk(c)} :: c in chans ==> ChanOk(c))
      && blocked <= alts.Keys && ran.Keys == alts.Keys - blocked
      && (forall t, i {:trigger OfferOk(t, i)} :: t in blocked && 0 <= i < |alts[t]| ==> OfferOk(t, i))
      && (forall t :: t in ran ==> ran[t] < |alts[t]|)
    }

    /** A program at its start: the channels are as chancreate leaves them and nobody waits. */
    constructor (zero: T, mem: map<nat, T>, ghost chans: set<Channel<T>>)
      requires forall c :: c in chans ==> c.Ring() && c.Fifo() && c.asend == c.arecv == []
      requires forall c, d {:trigger c.buf, d.buf} :: c in chans && d in chans && c != d ==> c.buf != d.buf
      ensures Valid() && this.zero == zero && this.mem == mem && this.chans == chans
      ensures alts == map[] && ran == map[] && ready == [] && blocked == {}
    {
      this.zero, this.mem, this.chans := zero, mem, chans;
      alts, ran, ready, blocked := map[], map[], [], {};
    }

    ghost method Enter(c: Channel<T>)
      requires Valid() && c !in chans && c.Ring() && c.Fifo() && c.asend == c.arecv == []
      requires forall d :: d in chans ==> d.buf != c.buf
      modifies this`chans
      ensures Valid() && chans == old(chans) + {c}
    {
      assert ChanOk(c);
      ghost var was := chans;
      chans := chans + {c};
      forall d | d in chans ensures ChanOk(d) {
        assert d in was + {c} && old(ChanOk(d));
      }
      forall t, i {:trigger OfferOk(t, i)} | t in blocked && 0 <= i < |alts[t]| ensures OfferOk(t, i) {
        assert old(OfferOk(t, i)) && (alts[t][i].op != CHANNOP ==> alts[t][i].c in was);
      }
    }

    /** chancreate: one more channel, empty and quiet. */
    method Chancreate(bufsize: nat) returns (c: Channel<T>)
      requires Valid()
      modifies this`chans
      ensures Valid() && fresh(c) && fresh(c.buf) && chans == old(chans) + {c} && c.bufsize == bufsize
      ensures c.nbuf == 0 && c.asend == c.arecv == [] && c.accepted == c.delivered == []
    {
      c := new Channel<T>(bufsize);
      Enter(c);
    }

    /** A task writes to its memory, or gets more of it. */
    method Store(v: nat, x: T)
      requires Valid()
      modifies this`mem
      ensures Valid() && mem == old(mem)[v := x]
    {
      mem := mem[v := x];
      forall c | c in chans ensures ChanOk(c) {
        assert old(ChanOk(c));
      }
      forall t, i {:trigger OfferOk(t, i)} | t in blocked && 0 <= i < |alts[t]| ensures OfferOk(t, i) {
        assert old(OfferOk(t, i));
      }
    }

    /** altcanexec. */
    predicate CanExec(a: Alt<T>)
      reads a.c`asend, a.c`arecv, a.c`nbuf
    {
      if a.op == CHANNOP then false
      else if a.c.bufsize == 0 then
        match a.op
        case CHANSND => |a.c.arecv| > 0
        case CHANRCV => |a.c.asend| > 0
        case _ => false
      else
        match a.op
        case CHANSND => a.c.nbuf < a.c.bufsize
        case CHANRCV => a.c.nbuf > 0
        case _ => false
    }

    /** amove. */
    method Move(dst: Option<nat>, x: T)
      modifies this`mem
      ensures mem == if dst.Some? then old(mem)[dst.value := x] else old(mem)
    {
      if dst.Some? {
        mem := mem[dst.value := x];
      }
    }

    /** The value sent from an address; NULL sends a zero. */
    method Fetch(v: Option<nat>) returns (x: T)
      requires v.Some? ==> v.value in mem
      ensures x == if v.Some? then mem[v.value] else zero
    {
      x := zero;
      if v.Some? {
        x := mem[v.value];
      }
    }

    /** altcopy, for a sender, a receiver or both on channel c. */
    method Altcopy(c: Channel<T>, s: Option<Alt<T>>, r: Option<Alt<T>>)
      requires c.Ring() && c.Fifo()
      requires s.Some? ==> s.value.c == c && s.value.op == CHANSND && (s.value.v.Some? ==> s.value.v.value in mem)
      requires r.Some? ==> r.value.c == c && r.value.op == CHANRCV
      requires s.Some? && r.None? ==> c.nbuf < c.bufsize
      requires r.Some? && s.None? ==> c.nbuf > 0
      modifies this`mem, c`nbuf, c`off, c`accepted, c`delivered, c.buf
      ensures c.Ring() && c.Fifo()
      ensures mem.Keys >= old(mem.Keys)
      ensures c.nbuf == old(c.nbuf) + (if s.Some? && r.None? then 1 else 0) - (if r.Some? && s.None? then 1 else 0)
      ensures c.accepted == old(c.accepted)
        + if s.None? then [] else [if s.value.v.Some? then mem[s.value.v.value] else zero]
      ensures c.delivered == old(c.delivered)
        + if r.None? then []
          else [if old(c.nbuf) > 0 then old(c.Contents())[0]
                else if s.value.v.Some? then old(mem)[s.value.v.value] else zero]
      ensures mem == if r.Some? && r.value.v.Some? then old(mem)[r.value.v.value := c.delivered[|c.delivered| - 1]]
        else old(mem)
    {
      if s.None? && r.None? {
        return;
      }
      if s.Some? && r.Some? && c.nbuf == 0 {
        var x := Fetch(s.value.v);
        Move(r.value.v, x);
        c.accepted, c.delivered := c.accepted + [x], c.delivered + [x];
        return;
      }
      if r.Some? {
        var x := c.TakeHead();
        Move(r.value.v, x);
      }
      if s.Some? {
        var x := Fetch(s.value.v);
        c.PutTail(x);
      }
    }

    /** altqueue, for offer i of task t. */
    method Altqueue(t: nat, i: nat)
      requires t in alts && i < |alts[t]| && alts[t][i].op in {CHANSND, CHANRCV}
      modifies alts[t][i].c`asend, alts[t][i].c`arecv
      ensures var c := alts[t][i].c;
        if alts[t][i].op == CHANSND then c.asend == old(c.asend) + [AltRef(t, i)] && c.arecv == old(c.arecv)
        else c.asend == old(c.asend) && c.arecv == old(c.arecv) + [AltRef(t, i)]
    {
      var c := alts[t][i].c;
      if alts[t][i].op == CHANSND {
        c.asend := c.asend + [AltRef(t, i)];
      } else {
        c.arecv := c.arecv + [AltRef(t, i)];
      }
    }

    /** The search and delarray of altdequeue on one queue. */
    method Remove(q: seq<AltRef>, r: AltRef) returns (p: seq<AltRef>)
      requires r in q && Distinct(q)
      ensures Distinct(p)
      ensures forall x :: x in p <==> x in q && x != r
    {
      var i := 0;
      while i < |q|
        invariant 0 <= i <= |q| && r !in q[..i]
      {
        if q[i] == r {
          p := q[i := q[|q| - 1]][..|q| - 1];
          forall x | x in q && x != r ensures x in p {
            var j :| 0 <= j < |q| && q[j] == x;
            assert p[if j == |q| - 1 then i else j] == x;
          }
          return;
        }
        i := i + 1;
      }
      assert false;
    }

    /** altdequeue: the offer is always found, so the abort at the end of the source is never reached. */
    method Altdequeue(t: nat, i: nat)
      requires t in alts && i < |alts[t]| && OfferOk(t, i) && alts[t][i].op in {CHANSND, CHANRCV}
      requires Distinct(alts[t][i].c.asend) && Distinct(alts[t][i].c.arecv)
      modifies alts[t][i].c`asend, alts[t][i].c`arecv
      ensures var c := alts[t][i].c; Distinct(c.asend) && Distinct(c.arecv)
      ensures var c := alts[t][i].c; forall x ::
        x in c.asend <==> x in old(c.asend) && !(x == AltRef(t, i) && alts[t][i].op == CHANSND)
      ensures var c := alts[t][i].c; forall x ::
        x in c.arecv <==> x in old(c.arecv) && !(x == AltRef(t, i) && alts[t][i].op == CHANRCV)
    {
      var c := alts[t][i].c;
      if alts[t][i].op == CHANSND {
        c.asend := Remove(c.asend, AltRef(t, i));
      } else {
        c.arecv := Remove(c.arecv, AltRef(t, i));
      }
    }

    /** altalldequeue: every offer of t leaves its queue. */
    method Altalldequeue(t: nat)
      requires t in alts
      requires forall i {:trigger OfferOk(t, i)} :: 0 <= i < |alts[t]| ==> OfferOk(t, i)
      requires forall c {:trigger QueuesOk(c)} :: c in chans ==> QueuesOk(c)
      modifies chans`asend, chans`arecv
      ensures forall c {:trigger c.asend} {:trigger c.arecv} :: c in chans ==>
        Without(c.asend, old(c.asend), t, |alts[t]|) && Without(c.arecv, old(c.arecv), t, |alts[t]|)
    {
      var n := |alts[t]|;
      var i := 0;
      forall c | c in chans ensures Without(c.asend, c.asend, t, 0) && Without(c.arecv, c.arecv, t, 0) {
        assert QueuesOk(c);
      }
      while i < n
        invariant 0 <= i <= n
        invariant forall c {:trigger c.asend} {:trigger c.arecv} :: c in chans ==>
          Without(c.asend, old(c.asend), t, i) && Without(c.arecv, old(c.arecv), t, i)
      {
        assert old(OfferOk(t, i));
        label L:
        if alts[t][i].op != CHANNOP {
          assert AltRef(t, i) in (if alts[t][i].op == CHANSND then alts[t][i].c.asend else alts[t][i].c.arecv);
          Altdequeue(t, i);
        }
        forall c | c in chans
          ensures Without(c.asend, old(c.asend), t, i + 1) && Without(c.arecv, old(c.arecv), t, i + 1)
        {
          assert old(QueuesOk(c));
          assert Without(old@L(c.asend), old(c.asend), t, i) && Without(old@L(c.arecv), old(c.arecv), t, i);
        }
        i := i + 1;
      }
    }

    /** The queue that offer a could find a partner in. */
    function OtherQueue(a: Alt<T>): seq<AltRef>
      reads a.c`asend, a.c`arecv
    {
      match a.op
      case CHANSND => a.c.arecv
      case CHANRCV => a.c.asend
      case _ => []
    }

    /** An offer a task may be making: on one of the channels, with a buffer in memory. */
    ghost predicate Sound(a: Alt<T>)
      reads this`chans, this`mem
    {
      a.op == CHANNOP || (a.op in {CHANSND, CHANRCV} && a.c in chans && (a.v.Some? ==> a.v.value in mem))
    }

    /** What a transfer on c does: what is at s's address is accepted, and the last value delivered is now where r
        wanted it and nowhere else. With nothing buffered that is what was at the address of s before. */
    twostate predicate Transferred(c: Channel<T>, new s: Option<Alt<T>>, new r: Option<Alt<T>>)
      reads this, c
    {
      && (s.Some? && s.value.v.Some? ==> s.value.v.value in mem && s.value.v.value in old(mem))
      && c.accepted == old(c.accepted) + (if s.None? then [] else
                                            [if s.value.v.Some? then mem[s.value.v.value] else zero])
      && old(c.delivered) <= c.delivered
      && |c.delivered| == |old(c.delivered)| + (if r.Some? then 1 else 0)
      && mem == (if r.Some? && r.value.v.Some? then old(mem)[r.value.v.value := c.delivered[|c.delivered| - 1]]
                 else old(mem))
      && (s.Some? && r.Some? && r.value.v.Some? && old(c.nbuf) == 0 ==>
            mem[r.value.v.value] == if s.value.v.Some? then old(mem)[s.value.v.value] else zero)
    }

    /** altcopy as altexec calls it: with both sides, or alone when the other queue is empty. */
    method Exchange(c: Channel<T>, s: Option<Alt<T>>, r: Option<Alt<T>>)
      requires Valid() && c in chans
      requires s.Some? ==> s.value.c == c && s.value.op == CHANSND && Sound(s.value)
      requires r.Some? ==> r.value.c == c && r.value.op == CHANRCV && Sound(r.value)
      requires s.Some? && r.None? ==> c.nbuf < c.bufsize && c.arecv == []
      requires r.Some? && s.None? ==> c.nbuf > 0 && c.asend == []
      modifies this`mem, c`nbuf, c`off, c`accepted, c`delivered, c.buf
      ensures Valid() && mem.Keys == old(mem.Keys)
      ensures Transferred(c, s, r)
    {
      assert ChanOk(c);
      Altcopy(c, s, r);
      forall d | d in chans ensures ChanOk(d) {
        assert old(ChanOk(d));
        if d != c { assert d.buf != c.buf; }
      }
      forall t, i {:trigger OfferOk(t, i)} | t in blocked && 0 <= i < |alts[t]| ensures OfferOk(t, i) {
        assert old(OfferOk(t, i));
      }
    }

    /** The queues part of Release. */
    method Withdraw(t: nat, i: nat)
      requires t in blocked && t in alts
      requires forall i {:trigger OfferOk(t, i)} :: 0 <= i < |alts[t]| ==> OfferOk(t, i)
      requires forall c {:trigger QueuesOk(c)} :: c in chans ==> QueuesOk(c) && Quiet(c)
      modifies this`ran, this`ready, this`blocked, chans`asend, chans`arecv
      ensures blocked == old(blocked) - {t} && ran == old(ran)[t := i] && ready == old(ready) + [t]
      ensures forall c {:trigger QueuesOk(c)} :: c in chans ==> QueuesOk(c) && Quiet(c)
      ensures forall c {:trigger c.asend} {:trigger c.arecv} :: c in chans ==>
        Without(c.asend, old(c.asend), t, |alts[t]|) && Without(c.arecv, old(c.arecv), t, |alts[t]|)
    {
      Altalldequeue(t);
      ran := ran[t := i];
      ready := ready + [t];
      blocked := blocked - {t};
      forall c | c in chans ensures QueuesOk(c) && Quiet(c) {
        assert old(QueuesOk(c) && Quiet(c));
        Shrinks(c.asend, old(c.asend), t, |alts[t]|);
        Shrinks(c.arecv, old(c.arecv), t, |alts[t]|);
      }
    }

    /** What altexec does to the partner t, whose offer i ran: all its offers are withdrawn and it is ready. */
    method Release(t: nat, i: nat)
      requires Valid() && t in blocked && i < |alts[t]|
      modifies this`ran, this`ready, this`blocked, chans`asend, chans`arecv
      ensures Valid()
      ensures blocked == old(blocked) - {t} && ran == old(ran)[t := i] && ready == old(ready) + [t]
      ensures forall c {:trigger c.asend} {:trigger c.arecv} :: c in chans ==>
        Without(c.asend, old(c.asend), t, |alts[t]|) && Without(c.arecv, old(c.arecv), t, |alts[t]|)
    {
      forall c | c in chans ensures QueuesOk(c) && Quiet(c) {
        assert ChanOk(c);
      }
      Withdraw(t, i);
      forall c | c in chans ensures ChanOk(c) {
        assert old(ChanOk(c));
      }
      forall u, k {:trigger OfferOk(u, k)} | u in blocked && 0 <= k < |alts[u]| ensures OfferOk(u, k) {
        assert old(OfferOk(u, k));
      }
    }

    /** Offer r of a blocked task could be the other half of a. */
    ghost predicate Meets(r: AltRef, a: Alt<T>)
      reads this`alts
    {
      && r.task in alts && r.i < |alts[r.task]|
      && var o := alts[r.task][r.i];
         o.c == a.c && o.op == (if a.op == CHANSND then CHANRCV else CHANSND)
    }

    /** Which of a and its partner's offer is for operation op. */
    ghost function Side(a: Alt<T>, other: Option<AltRef>, op: Op): Option<Alt<T>>
      reads this`alts
    {
      if a.op == op then Some(a)
      else if other.Some? && other.value.task in alts && other.value.i < |alts[other.value.task]|
      then Some(alts[other.value.task][other.value.i])
      else None
    }

    /** What running offer a changes, with the partner's offer other or without one: the sender's value is
        accepted, the receiver is given a value, and a partner's task is released with the index of the offer
        that ran. */
    twostate predicate Executed(a: Alt<T>, new other: Option<AltRef>)
      reads this, a.c, chans
    {
      && a.op in {CHANSND, CHANRCV}
      && Transferred(a.c, Side(a, other, CHANSND), Side(a, other, CHANRCV))
      && chans == old(chans)
      && (forall d {:trigger d.accepted} {:trigger d.delivered} :: d in chans && d != a.c ==>
            d.accepted == old(d.accepted) && d.delivered == old(d.delivered))
      && alts == old(alts)
      && match other
         case None => ran == old(ran) && ready == old(ready) && blocked == old(blocked)
         case Some(r) =>
           && r in old(OtherQueue(a)) && Meets(r, a) && r.task in old(blocked)
           && ran == old(ran)[r.task := r.i] && ready == old(ready) + [r.task] && blocked == old(blocked) - {r.task}
    }

    /** altexec with a partner: both offers run and the partner is released. */
    method Meet(a: Alt<T>, r: AltRef)
      requires Valid() && Sound(a) && a.op in {CHANSND, CHANRCV} && r in OtherQueue(a)
      modifies this`mem, this`ran, this`ready, this`blocked, chans`asend, chans`arecv
      modifies a.c`nbuf, a.c`off, a.c`accepted, a.c`delivered, a.c.buf
      ensures Valid() && mem.Keys == old(mem.Keys) && Executed(a, Some(r))
    {
      assert ChanOk(a.c);
      var o := alts[r.task][r.i];
      assert OfferOk(r.task, r.i);
      if a.op == CHANSND {
        Exchange(a.c, Some(a), Some(o));
      } else {
        Exchange(a.c, Some(o), Some(a));
      }
      Release(r.task, r.i);
      assert Transferred(a.c, Side(a, Some(r), CHANSND), Side(a, Some(r), CHANRCV));
    }

    /** altexec without one: a value goes into the buffer or comes out of it. */
    method Alone(a: Alt<T>)
      requires Valid() && Sound(a) && CanExec(a) && OtherQueue(a) == []
      modifies this`mem, a.c`nbuf, a.c`off, a.c`accepted, a.c`delivered, a.c.buf
      ensures Valid() && mem.Keys == old(mem.Keys) && Executed(a, None)
    {
      if a.op == CHANSND {
        Exchange(a.c, Some(a), None);
      } else {
        Exchange(a.c, None, Some(a));
      }
    }

    /** altexec, which picks any of the partners it finds. */
    method Altexec(a: Alt<T>) returns (other: Option<AltRef>)
      requires Valid() && Sound(a) && CanExec(a)
      modifies this`mem, this`ran, this`ready, this`blocked, chans`asend, chans`arecv
      modifies a.c`nbuf, a.c`off, a.c`accepted, a.c`delivered, a.c.buf
      ensures Valid() && mem.Keys == old(mem.Keys)
      ensures other.None? <==> old(OtherQueue(a)) == []
      ensures Executed(a, other)
      ensures a.op == CHANRCV && a.v.Some? && old(a.c.nbuf) == 0 ==>
        other.Some? && var v := alts[other.value.task][other.value.i].v;
                       mem[a.v.value] == if v.Some? then old(mem)[v.value] else zero
    {
      var q := OtherQueue(a);
      if |q| > 0 {
        var i :| 0 <= i < |q|;
        Meet(a, q[i]);
        other := Some(q[i]);
      } else {
        Alone(a);
        other := None;
      }
    }

    /** p is q with the first k offers of task t that are for operation op on c. */
    ghost predicate Joined(p: seq<AltRef>, q: seq<AltRef>, t: nat, k: nat, c: Channel<T>, op: Op)
      requires t in alts
      reads this`alts
    {
      && Distinct(p)
      && forall x {:trigger x in p} {:trigger x in q} :: x in p <==>
           x in q || (x.task == t && x.i < k && x.i < |alts[t]| && alts[t][x.i].c == c && alts[t][x.i].op == op)
    }

    /** The loop of chanalt that queues all offers of t. */
    method QueueAll(t: nat)
      requires t in alts && t !in blocked
      requires forall i :: 0 <= i < |alts[t]| ==> Sound(alts[t][i])
      requires forall c {:trigger QueuesOk(c)} :: c in chans ==> QueuesOk(c)
      modifies chans`asend, chans`arecv
      ensures forall c {:trigger c.asend} {:trigger c.arecv} :: c in chans ==>
        && Joined(c.asend, old(c.asend), t, |alts[t]|, c, CHANSND)
        && Joined(c.arecv, old(c.arecv), t, |alts[t]|, c, CHANRCV)
    {
      forall c | c in chans
        ensures Joined(c.asend, c.asend, t, 0, c, CHANSND) && Joined(c.arecv, c.arecv, t, 0, c, CHANRCV)
      {
        assert QueuesOk(c);
      }
      var i := 0;
      while i < |alts[t]|
        invariant 0 <= i <= |alts[t]|
        invariant forall c {:trigger c.asend} {:trigger c.arecv} :: c in chans ==>
          && Joined(c.asend, old(c.asend), t, i, c, CHANSND)
          && Joined(c.arecv, old(c.arecv), t, i, c, CHANRCV)
      {
        label L:
        assert Sound(alts[t][i]);
        if alts[t][i].op != CHANNOP {
          assert AltRef(t, i) !in alts[t][i].c.asend && AltRef(t, i) !in alts[t][i].c.arecv by {
            assert old(QueuesOk(alts[t][i].c));
          }
          Altqueue(t, i);
        }
        forall c | c in chans
          ensures Joined(c.asend, old(c.asend), t, i + 1, c, CHANSND)
            && Joined(c.arecv, old(c.arecv), t, i + 1, c, CHANRCV)
        {
          assert Joined(old@L(c.asend), old(c.asend), t, i, c, CHANSND)
            && Joined(old@L(c.arecv), old(c.arecv), t, i, c, CHANRCV);
        }
        i := i + 1;
      }
    }

    /** With these queues on c, none of t's offers could run and no two others could meet. */
    ghost predicate Still(t: nat, c: Channel<T>, s: seq<AltRef>, r: seq<AltRef>)
      requires t in alts
      reads this`alts, c`nbuf
    {
      && (if c.bufsize > 0 then (s != [] ==> c.nbuf == c.bufsize) && (r != [] ==> c.nbuf == 0)
          else forall i, j :: 0 <= i < |s| && 0 <= j < |r| ==> s[i].task == r[j].task)
      && (forall i {:trigger alts[t][i]} :: 0 <= i < |alts[t]| && alts[t][i].c == c ==>
            && (alts[t][i].op == CHANSND ==> if c.bufsize > 0 then c.nbuf == c.bufsize else r == [])
            && (alts[t][i].op == CHANRCV ==> if c.bufsize > 0 then c.nbuf == 0 else s == []))
    }

    lemma JoinedIsQuiet(t: nat, c: Channel<T>, s: seq<AltRef>, r: seq<AltRef>)
      requires t in alts && c in chans && Still(t, c, s, r)
      requires Joined(c.asend, s, t, |alts[t]|, c, CHANSND) && Joined(c.arecv, r, t, |alts[t]|, c, CHANRCV)
      ensures Quiet(c)
    {
      if c.bufsize > 0 {
        if c.asend != [] { assert c.asend[0] in c.asend; }
        if c.arecv != [] { assert c.arecv[0] in c.arecv; }
      } else {
        forall i, j | 0 <= i < |c.asend| && 0 <= j < |c.arecv| ensures c.asend[i].task == c.arecv[j].task {
          assert c.asend[i] in c.asend && c.arecv[j] in c.arecv;
        }
      }
    }

    /** The queues part of Block. */
    method Register(t: nat, a: seq<Alt<T>>)
      requires t !in alts && blocked <= alts.Keys
      requires forall c {:trigger QueuesOk(c)} :: c in chans ==> QueuesOk(c) && Quiet(c) && c.nbuf <= c.bufsize
      requires forall i :: 0 <= i < |a| ==> Sound(a[i]) && !CanExec(a[i])
      modifies this`alts, this`blocked, chans`asend, chans`arecv
      ensures alts == old(alts)[t := a] && blocked == old(blocked) + {t}
      ensures forall c {:trigger QueuesOk(c)} :: c in chans ==> QueuesOk(c) && Quiet(c)
      ensures forall c {:trigger c.asend} {:trigger c.arecv} :: c in chans ==>
        && Joined(c.asend, old(c.asend), t, |a|, c, CHANSND)
        && Joined(c.arecv, old(c.arecv), t, |a|, c, CHANRCV)
    {
      alts := alts[t := a];
      forall c | c in chans ensures QueuesOk(c) && Still(t, c, c.asend, c.arecv) {
        assert old(QueuesOk(c) && Quiet(c));
      }
      QueueAll(t);
      blocked := blocked + {t};
      forall c | c in chans ensures QueuesOk(c) && Quiet(c) {
        assert old(QueuesOk(c));
        JoinedIsQuiet(t, c, old(c.asend), old(c.arecv));
      }
    }

    /** The end of chanalt for a task that has to wait. */
    method Block(t: nat, a: seq<Alt<T>>)
      requires Valid() && t !in alts
      requires forall i :: 0 <= i < |a| ==> Sound(a[i]) && !CanExec(a[i])
      modifies this`alts, this`blocked, chans`asend, chans`arecv
      ensures Valid() && alts == old(alts)[t := a] && blocked == old(blocked) + {t}
      ensures forall c {:trigger c.asend} {:trigger c.arecv} :: c in chans ==>
        && Joined(c.asend, old(c.asend), t, |a|, c, CHANSND)
        && Joined(c.arecv, old(c.arecv), t, |a|, c, CHANRCV)
    {
      forall c | c in chans ensures QueuesOk(c) && Quiet(c) && c.nbuf <= c.bufsize {
        assert ChanOk(c);
      }
      Register(t, a);
      forall c | c in chans ensures ChanOk(c) {
        assert old(ChanOk(c));
      }
      forall u, k {:trigger OfferOk(u, k)} | u in blocked && 0 <= k < |alts[u]| ensures OfferOk(u, k) {
        if u == t {
          assert Sound(a[k]);
        } else {
          assert old(OfferOk(u, k));
        }
      }
    }

    /** How many of the offers i..n can run. */
    ghost function CountCan(a: seq<Alt<T>>, i: nat, n: nat): (k: nat)
      requires i <= n <= |a|
      reads set x | x in a :: x.c
      ensures k == 0 <==> forall j :: i <= j < n ==> !CanExec(a[j])
      decreases n - i
    {
      if i == n then 0 else (if CanExec(a[i]) then 1 else 0) + CountCan(a, i + 1, n)
    }

    lemma CountCanSplit(a: seq<Alt<T>>, i: nat, n: nat)
      requires i < n <= |a|
      ensures CountCan(a, 0, i + 1) == CountCan(a, 0, i) + if CanExec(a[i]) then 1 else 0
    {
      CountCanAppend(a, 0, i);
    }

    lemma {:induction false} CountCanAppend(a: seq<Alt<T>>, k: nat, i: nat)
      requires k <= i < |a|
      ensures CountCan(a, k, i + 1) == CountCan(a, k, i) + if CanExec(a[i]) then 1 else 0
      decreases i - k
    {
      if k < i { CountCanAppend(a, k + 1, i); }
    }

    /** The loop of chanalt that runs the j-th of the offers that can run. */
    method RunNth(a: seq<Alt<T>>, n: nat, j0: nat) returns (i: nat, ghost other: Option<AltRef>)
      requires Valid() && n <= |a| && j0 < CountCan(a, 0, n)
      requires forall i :: 0 <= i < n ==> Sound(a[i])
      modifies this`mem, this`ran, this`ready, this`blocked, chans`asend, chans`arecv
      modifies chans`nbuf, chans`off, chans`accepted, chans`delivered, set c | c in chans :: c.buf
      ensures i < n && old(CanExec(a[i])) && Valid() && Executed(a[i], other)
      ensures other.None? <==> old(OtherQueue(a[i])) == []
    {
      i := 0;
      var j := j0;
      while !(CanExec(a[i]) && j == 0)
        invariant 0 <= i < n && 0 <= j < CountCan(a, i, n)
        decreases n - i
      {
        if CanExec(a[i]) {
          j := j - 1;
        }
        i := i + 1;
      }
      other := Altexec(a[i]);
    }

    /** The first loops of chanalt: where the array ends and how many of its offers can run. */
    method Survey(a: seq<Alt<T>>) returns (n: nat, ncan: nat)
      requires exists n :: 0 <= n < |a| && Ends(a, n)
      ensures n < |a| && Ends(a, n) && ncan == CountCan(a, 0, n)
    {
      n := 0;
      while a[n].op != CHANEND && a[n].op != CHANNOBLK
        invariant 0 <= n < |a| && (forall i :: 0 <= i < n ==> a[i].op != CHANEND && a[i].op != CHANNOBLK)
        decreases |a| - n
      {
        n := n + 1;
      }
      ncan := 0;
      var i := 0;
      while i < n
        invariant 0 <= i <= n && ncan == CountCan(a, 0, i)
        modifies {}
      {
        CountCanSplit(a, i, n);
        if CanExec(a[i]) {
          ncan := ncan + 1;
        }
        i := i + 1;
      }
    }

    /** The end of chanalt when none of the offers can run. */
    method Wait(t: nat, a: seq<Alt<T>>, n: nat) returns (r: Outcome)
      requires Valid() && t !in alts && n < |a| && Ends(a, n)
      requires forall i :: 0 <= i < n ==> Sound(a[i]) && !CanExec(a[i])
      modifies this`alts, this`blocked, chans`asend, chans`arecv
      ensures Valid() && (r.WouldBlock? || r.Blocked?)
      ensures r.WouldBlock? ==> a[n].op == CHANNOBLK && unchanged(this) && forall c :: c in chans ==> unchanged(c)
      ensures r.Blocked? ==>
        a[n].op == CHANEND && alts == old(alts)[t := a[..n]] && blocked == old(blocked) + {t}
    {
      if a[n].op != CHANEND {
        return WouldBlock;
      }
      Block(t, a[..n]);
      r := Blocked;
    }

    /** chanalt, from the call to its return or to its taskswitch. The array ends with CHANEND if the task may
        block and with CHANNOBLK if not; rand() picks any of the offers that can run. */
    method Chanalt(t: nat, a: seq<Alt<T>>) returns (r: Outcome, n: nat, ghost other: Option<AltRef>)
      requires Valid() && t !in alts
      requires exists n :: 0 <= n < |a| && Ends(a, n)
      requires forall n, i :: 0 <= i < n < |a| && Ends(a, n) ==> Sound(a[i])
      modifies this, chans, set c | c in chans :: c.buf
      ensures Valid() && chans == old(chans) && n < |a| && Ends(a, n)
      ensures r.Done? <==> exists i :: 0 <= i < n && old(CanExec(a[i]))
      ensures r.Done? ==>
                && r.i < n && old(CanExec(a[r.i])) && Executed(a[r.i], other)
                && (other.None? <==> old(OtherQueue(a[r.i])) == [])
      ensures r.WouldBlock? ==> a[n].op == CHANNOBLK && unchanged(this) && forall c :: c in chans ==> unchanged(c)
      ensures r.Blocked? ==>
        && a[n].op == CHANEND && alts == old(alts)[t := a[..n]] && blocked == old(blocked) + {t}
        && mem == old(mem) && ran == old(ran) && ready == old(ready)
        && (forall c {:trigger c.accepted} {:trigger c.delivered} :: c in chans ==>
              c.accepted == old(c.accepted) && c.delivered == old(c.delivered))
    {
      var ncan;
      other := None;
      n, ncan := Survey(a);
      if ncan > 0 {
        var j :| 0 <= j < ncan;
        var k;
        k, other := RunNth(a, n, j);
        r := Done(k);
      } else {
        r := Wait(t, a, n);
      }
    }

    /** chanalt ends its array at n. */
    ghost predicate Ends(a: seq<Alt<T>>, n: nat)
      requires n < |a|
    {
      && a[n].op in {CHANEND, CHANNOBLK}
      && (forall i :: 0 <= i < n ==> a[i].op !in {CHANEND, CHANNOBLK})
    }

    /** chanalt from the end of its taskswitch: it returns the index of the offer that a partner ran. */
    method Resume(t: nat) returns (i: nat)
      requires Valid() && t in ran
      modifies this`alts, this`ran
      ensures Valid() && i == old(ran)[t] && i < |old(alts)[t]|
      ensures alts == old(alts) - {t} && ran == old(ran) - {t}
    {
      i := ran[t];
      alts, ran := alts - {t}, ran - {t};
      forall c | c in chans ensures ChanOk(c) {
        assert old(ChanOk(c));
      }
      forall u, k {:trigger OfferOk(u, k)} | u in blocked && 0 <= k < |alts[u]| ensures OfferOk(u, k) {
        assert old(OfferOk(u, k));
      }
    }

    /** No rendezvous is missed: a standing offer that could run could only meet its own task. */
    lemma NoMissedRendezvous(t: nat, i: nat)
      requires Valid() && t in blocked && i < |alts[t]| && CanExec(alts[t][i])
      ensures alts[t][i].c.bufsize == 0
      ensures forall x :: x in OtherQueue(alts[t][i]) ==> x.task == t
    {
      assert OfferOk(t, i);
      var c := alts[t][i].c;
      assert ChanOk(c);
      var me := AltRef(t, i);
      if alts[t][i].op == CHANSND {
        var k :| 0 <= k < |c.asend| && c.asend[k] == me;
        forall x | x in c.arecv ensures x.task == t {
          var j :| 0 <= j < |c.arecv| && c.arecv[j] == x;
        }
      } else {
        var k :| 0 <= k < |c.arecv| && c.arecv[k] == me;
        forall x | x in c.asend ensures x.task == t {
          var j :| 0 <= j < |c.asend| && c.asend[j] == x;
        }
      }
    }

    /** Alts are atomic: once one of t's offers has run, or before any is made, no channel holds an offer of t;
        while t is blocked, every offer it made stands in its queue. */
    lemma AllOffersOrNone(t: nat, c: Channel<T>)
      requires Valid() && c in chans
      ensures t !in blocked ==> forall x :: x in c.asend || x in c.arecv ==> x.task != t
      ensures t in blocked ==> t !in ran && forall i :: 0 <= i < |alts[t]| && alts[t][i].c == c ==>
        && (alts[t][i].op == CHANSND <==> AltRef(t, i) in c.asend)
        && (alts[t][i].op == CHANRCV <==> AltRef(t, i) in c.arecv)
    {
      assert ChanOk(c);
      forall i | t in blocked && 0 <= i < |alts[t]| && alts[t][i].c == c
        ensures (alts[t][i].op == CHANSND <==> AltRef(t, i) in c.asend)
          && (alts[t][i].op == CHANRCV <==> AltRef(t, i) in c.arecv)
      {
        assert OfferOk(t, i);
      }
    }
  }
}
