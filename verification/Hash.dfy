/** The hash table of iosplitter/common/hash.c: buckets of circular lists, as rpc.c uses it. */
module Hash {
  import opened Common
  import opened Dll

  /** The entries of bucket b, and under which keys the table has them. */
  ghost predicate RingKeys(rings: seq<seq<Node>>, contents: map<nat, Node>, b: nat)
    requires b < |rings|
  {
    var r := rings[b];
    forall i {:trigger r[i]} :: 0 < i < |r| ==>
      r[i].key in contents && contents[r[i].key] == r[i] && r[i].key % |rings| == b
  }

  ghost predicate Listed(rings: seq<seq<Node>>, contents: map<nat, Node>, k: nat)
    requires 0 < |rings|
  {
    k in contents ==>
      var r := rings[k % |rings|];
      contents[k].key == k && exists i :: 0 < i < |r| && r[i] == contents[k]
  }

  /** The buckets together hold exactly the entries of contents, each in the bucket of its key. */
  ghost predicate KeysOk(rings: seq<seq<Node>>, contents: map<nat, Node>) {
    && 0 < |rings|
    && (forall b {:trigger RingKeys(rings, contents, b)} :: 0 <= b < |rings| ==> RingKeys(rings, contents, b))
    && (forall k {:trigger Listed(rings, contents, k)} :: Listed(rings, contents, k))
  }

  lemma InsertKeepsKeys(rings: seq<seq<Node>>, contents: map<nat, Node>, b: nat, n: Node)
    requires KeysOk(rings, contents) && b < |rings| && n.key !in contents && b == n.key % |rings| && rings[b] != []
    ensures KeysOk(rings[b := rings[b] + [n]], contents[n.key := n])
  {
    var rings', contents' := rings[b := rings[b] + [n]], contents[n.key := n];
    forall c | 0 <= c < |rings'| ensures RingKeys(rings', contents', c) {
      assert RingKeys(rings, contents, c);
    }
    forall k: nat ensures Listed(rings', contents', k) {
      assert Listed(rings, contents, k);
      if k == n.key {
        assert rings'[b][|rings[b]|] == n;
      } else if k in contents {
        var r := rings[k % |rings|];
        var i :| 0 < i < |r| && r[i] == contents[k];
        assert rings'[k % |rings|][i] == contents[k];
      }
    }
  }

  lemma RemoveKeepsKeys(rings: seq<seq<Node>>, contents: map<nat, Node>, b: nat, j: nat)
    requires KeysOk(rings, contents) && b < |rings| && 0 < j < |rings[b]| && Distinct(rings[b])
    ensures KeysOk(rings[b := rings[b][..j] + rings[b][j + 1..]], contents - {rings[b][j].key})
  {
    var r, n := rings[b], rings[b][j];
    var r' := r[..j] + r[j + 1..];
    var rings', contents' := rings[b := r'], contents - {n.key};
    assert RingKeys(rings, contents, b);
    forall i | 0 <= i < |r'| ensures r'[i] == if i < j then r[i] else r[i + 1] {}
    forall c | 0 <= c < |rings'| ensures RingKeys(rings', contents', c) {
      assert RingKeys(rings, contents, c);
    }
    forall k: nat ensures Listed(rings', contents', k) {
      assert Listed(rings, contents, k);
      if k in contents' {
        var q := rings[k % |rings|];
        var i :| 0 < i < |q| && q[i] == contents[k];
        assert k % |rings| == b ==> i != j;
        assert rings'[k % |rings|][if k % |rings| == b && i > j then i - 1 else i] == contents[k];
      }
    }
  }

  /** r is the ring of bucket b. */
  ghost predicate BucketOk(r: seq<Node>, head: Node, b: nat)
    reads r
  {
    && IsRing(r) && r[0] == head
    && (forall n :: n in r ==> n.at == b)
    && (forall i {:trigger r[i]} :: 0 < i < |r| ==> r[i].bucket == b)
  }

  /** Rings of different buckets share no node. */
  lemma Apart(r: seq<Node>, head: Node, b: nat, q: seq<Node>, h: Node, c: nat)
    requires BucketOk(r, head, b) && BucketOk(q, h, c) && b != c
    ensures forall i, j {:trigger r[i], q[j]} :: 0 <= i < |r| && 0 <= j < |q| ==> r[i] != q[j]
  {
    forall i, j | 0 <= i < |r| && 0 <= j < |q| ensures r[i] != q[j] {
      assert r[i] in r && q[j] in q;
    }
  }

  lemma Without(r: seq<Node>, j: nat)
    requires 0 < j < |r| && Distinct(r)
    ensures var t := r[..j] + r[j + 1..];
            && t[0] == r[0]
            && (forall i {:trigger t[i]} :: 0 <= i < |t| ==> t[i] == if i < j then r[i] else r[i + 1])
            && (forall n :: n in t <==> n in r && n != r[j])
  {
    var t := r[..j] + r[j + 1..];
    forall n | n in r && n != r[j] ensures n in t {
      var i :| 0 <= i < |r| && r[i] == n;
      assert n == t[if i < j then i else i - 1];
    }
  }

  /** The rings still cover exactly the nodes of the table, with one node taken out. */
  lemma Partition(rings: seq<seq<Node>>, repr: set<Node>, b: nat, j: nat)
    requires b < |rings| && 0 < j < |rings[b]| && Distinct(rings[b]) && rings[b][j].at == -1
    requires forall c {:trigger rings[c]} :: 0 <= c < |rings| ==> forall n :: n in rings[c] ==> n in repr
    requires forall c {:trigger rings[c]} :: 0 <= c < |rings| && c != b ==> forall n :: n in rings[c] ==> n.at == c
    requires forall n {:trigger n.at} :: n in repr && n != rings[b][j] ==> 0 <= n.at < |rings| && n in rings[n.at]
    ensures var rings', repr' := rings[b := rings[b][..j] + rings[b][j + 1..]], repr - {rings[b][j]};
            && (forall c {:trigger rings'[c]} :: 0 <= c < |rings| ==> forall n :: n in rings'[c] ==> n in repr')
            && (forall n {:trigger n.at} :: n in repr' ==> 0 <= n.at < |rings| && n in rings'[n.at])
  {
    Without(rings[b], j);
  }

  lemma BucketWithout(r: seq<Node>, j: nat, head: Node, b: nat)
    requires 0 < j < |r| && r[0] == head && Distinct(r) && IsRing(r[..j] + r[j + 1..])
    requires forall i {:trigger r[i]} :: 0 <= i < |r| && i != j ==> r[i].at == b && (i > 0 ==> r[i].bucket == b)
    ensures BucketOk(r[..j] + r[j + 1..], head, b)
  {
    Without(r, j);
  }

  class Table {
    var buckets: seq<Node>
    var count: int
    ghost var rings: seq<seq<Node>>
    ghost var repr: set<Node>
    // what the table refines: the entry of every seqid
    ghost var contents: map<nat, Node>

    /** The pointers: one ring for each bucket, and no two of them share a node. */
    ghost predicate RingsOk()
      reads this`buckets, this`rings, this`repr, repr
    {
      && 0 < |buckets| == |rings|
      && (forall b {:trigger rings[b]} :: 0 <= b < |rings| ==>
          (forall n :: n in rings[b] ==> n in repr) && BucketOk(rings[b], buckets[b], b))
      && (forall n {:trigger n.at} :: n in repr ==> 0 <= n.at < |buckets| && n in rings[n.at])
    }

    ghost predicate Valid()
      reads this, repr
    {
      RingsOk() && KeysOk(rings, contents) && count == |contents|
    }

    /** get_bucket of rpc.c */
    function Bucket(key: nat): nat
      requires buckets != []
      reads this`buckets
    {
      key % |buckets|
    }

    method LinkIn(entry: Node, bucket: nat)
      requires RingsOk() && entry !in repr && bucket < |buckets|
      modifies this`rings, this`repr, rings[bucket]`next, rings[bucket]`prev, entry
      ensures RingsOk() && repr == old(repr) + {entry} && old(rings[bucket]) != []
      ensures rings == old(rings)[bucket := old(rings[bucket]) + [entry]]
    {
      forall b | 0 <= b < |rings| && b != bucket
        ensures forall i, j {:trigger rings[b][i], rings[bucket][j]} ::
          0 <= i < |rings[b]| && 0 <= j < |rings[bucket]| ==> rings[b][i] != rings[bucket][j]
      {
        Apart(rings[b], buckets[b], b, rings[bucket], buckets[bucket], bucket);
      }
      AddTo(entry, buckets[bucket], bucket, rings[bucket]);
      forall b | 0 <= b < |rings| && b != bucket ensures BucketOk(rings[b], buckets[b], b) {
        assert old(BucketOk(rings[b], buckets[b], b));
      }
      rings := rings[bucket := rings[bucket] + [entry]];
      repr := repr + {entry};
    }

    static method AddTo(entry: Node, head: Node, bucket: nat, ghost r: seq<Node>)
      requires BucketOk(r, head, bucket) && entry !in r
      modifies r`next, r`prev, entry
      ensures BucketOk(r + [entry], head, bucket)
    {
      Add(head, entry, r);
      entry.bucket := bucket;
      entry.at := bucket;
    }

    /** hash_add: the table refines a map. */
    method Insert(entry: Node, bucket: nat)
      requires Valid() && entry !in repr && entry.key !in contents && bucket == Bucket(entry.key)
      modifies this`count, this`rings, this`repr, this`contents, repr`next, repr`prev, entry
      ensures Valid() && contents == old(contents)[entry.key := entry] && repr == old(repr) + {entry}
    {
      assert BucketOk(rings[bucket], buckets[bucket], bucket);
      LinkIn(entry, bucket);
      InsertKeepsKeys(old(rings), old(contents), bucket, entry);
      contents := contents[entry.key := entry];
      count := count + 1;
    }

    method LinkOut(entry: Node, ghost b: nat, ghost j: nat)
      requires RingsOk() && b < |rings| && 0 < j < |rings[b]| && rings[b][j] == entry
      modifies this`rings, this`repr, rings[b]`next, rings[b]`prev, entry`at
      ensures RingsOk() && repr == old(repr) - {entry} && IsRing([entry])
      ensures rings == old(rings)[b := old(rings[b])[..j] + old(rings[b])[j + 1..]]
    {
      Unlink(entry, b, j);
      Partition(rings, repr, b, j);
      rings := rings[b := rings[b][..j] + rings[b][j + 1..]];
      repr := repr - {entry};
    }

    method Unlink(entry: Node, ghost b: nat, ghost j: nat)
      requires RingsOk() && b < |rings| && 0 < j < |rings[b]| && rings[b][j] == entry
      modifies rings[b]`next, rings[b]`prev, entry`at
      ensures BucketOk(rings[b][..j] + rings[b][j + 1..], buckets[b], b) && IsRing([entry]) && entry.at == -1
      ensures forall c {:trigger rings[c]} :: 0 <= c < |rings| && c != b ==> BucketOk(rings[c], buckets[c], c)
      ensures Distinct(rings[b]) && forall n :: n in repr ==> n == entry || n.at == old(n.at)
    {
      forall c | 0 <= c < |rings| && c != b
        ensures forall i, k {:trigger rings[c][i], rings[b][k]} ::
          0 <= i < |rings[c]| && 0 <= k < |rings[b]| ==> rings[c][i] != rings[b][k]
      {
        Apart(rings[c], buckets[c], c, rings[b], buckets[b], b);
      }
      RemFrom(entry, buckets[b], b, rings[b], j);
      forall c | 0 <= c < |rings| && c != b ensures BucketOk(rings[c], buckets[c], c) {
        assert old(BucketOk(rings[c], buckets[c], c));
      }
    }

    static method RemFrom(entry: Node, ghost head: Node, ghost b: nat, ghost r: seq<Node>, ghost j: nat)
      requires BucketOk(r, head, b) && 0 < j < |r| && r[j] == entry
      modifies r`next, r`prev, entry`at
      ensures BucketOk(r[..j] + r[j + 1..], head, b) && IsRing([entry]) && entry.at == -1
    {
      assert entry.next == r[j - 1] && entry.prev == r[if j == |r| - 1 then 0 else j + 1];
      Rem(entry, r, j);
      entry.at := -1;
      BucketWithout(r, j, head, b);
    }

    /** hash_rem, of the entry at place j of bucket b; an entry that is not linked is left alone. */
    method Remove(entry: Node, ghost b: nat, ghost j: nat)
      requires Valid()
      requires if entry in repr then b < |rings| && 0 < j < |rings[b]| && rings[b][j] == entry else IsRing([entry])
      modifies this`count, this`rings, this`repr, this`contents, repr`next, repr`prev, entry`at
      ensures Valid() && IsRing([entry]) && entry !in repr && repr == old(repr) - {entry}
      ensures if entry in old(repr) then
                && entry.key in old(contents) && old(contents)[entry.key] == entry
                && contents == old(contents) - {entry.key}
                && rings == old(rings)[b := old(rings[b])[..j] + old(rings[b])[j + 1..]]
              else
                contents == old(contents) && rings == old(rings)
    {
      assert [entry][0] == entry;
      if entry in repr {
        Linked(entry, b, j);
      }
      if entry.next != entry {
        LinkOut(entry, b, j);
        RemoveKeepsKeys(old(rings), old(contents), b, j);
        contents := contents - {entry.key};
        count := count - 1;
      }
    }

    lemma Linked(entry: Node, b: nat, j: nat)
      requires Valid() && b < |rings| && 0 < j < |rings[b]| && rings[b][j] == entry
      ensures Distinct(rings[b]) && entry.next != entry && (forall n :: n in rings[b] ==> n in repr)
      ensures entry.key in contents && contents[entry.key] == entry
      ensures entry !in buckets
    {
      assert RingKeys(rings, contents, b);
      assert BucketOk(rings[b], buckets[b], b);
      assert rings[b][j - 1] == entry.next;
      forall c | 0 <= c < |buckets| ensures buckets[c] != entry {
        assert BucketOk(rings[c], buckets[c], c);
        assert rings[c][0] in rings[c] && rings[b][j] in rings[b];
      }
    }

    /** An entry of the table is linked into the bucket of its key. */
    lemma Place(key: nat) returns (j: nat)
      requires Valid() && key in contents
      ensures var b := Bucket(key); 0 < j < |rings[b]| && rings[b][j] == contents[key] && contents[key] in repr
      ensures contents[key].key == key
    {
      assert Listed(rings, contents, key);
      j :| 0 < j < |rings[Bucket(key)]| && rings[Bucket(key)][j] == contents[key];
      assert rings[Bucket(key)][j] in rings[Bucket(key)];
    }

    /** hash_lookup, going through the bucket from the newest entry on. */
    method Lookup(bucket: nat, key: nat) returns (e: Node?)
      requires Valid() && bucket == Bucket(key)
      ensures e == if key in contents then contents[key] else null
    {
      var h := buckets[bucket];
      var t := h.next;
      ghost var r := rings[bucket];
      assert BucketOk(r, h, bucket) && RingKeys(rings, contents, bucket) && Listed(rings, contents, key);
      ghost var i := |r| - 1;
      while t != h
        invariant 0 <= i < |r| && t == r[i]
        invariant forall j :: i < j < |r| ==> r[j].key != key
        decreases i
        modifies {}
      {
        if t.key == key {
          return t;
        }
        t := t.next;
        i := i - 1;
      }
      return null;
    }

    /** hash_init */
    constructor (no_buckets: nat)
      requires no_buckets > 0
      ensures Valid() && contents == map[] && |buckets| == no_buckets && fresh(repr)
    {
      buckets, count := [], 0;
      rings, repr, contents := [], {}, map[];
      new;
      var i := 0;
      while i < no_buckets
        invariant 0 <= i <= no_buckets && |buckets| == |rings| == i && fresh(repr) && count == 0 && contents == map[]
        invariant forall b {:trigger rings[b]} :: 0 <= b < i ==>
          rings[b] == [buckets[b]] && buckets[b] in repr && BucketOk(rings[b], buckets[b], b)
        invariant forall n {:trigger n.at} :: n in repr ==> 0 <= n.at < i && n in rings[n.at]
        modifies this
      {
        var t := new Node(0);
        t.at := i;
        buckets, rings, repr := buckets + [t], rings + [[t]], repr + {t};
        i := i + 1;
      }
      assert forall b {:trigger RingKeys(rings, contents, b)} :: 0 <= b < |rings| ==> RingKeys(rings, contents, b);
      assert forall k: nat {:trigger Listed(rings, contents, k)} :: Listed(rings, contents, k);
    }

    /** hash_cleanup: every entry is unlinked and called back once. */
    method Cleanup() returns (called: seq<Node>)
      requires Valid()
      modifies this`count, this`rings, this`repr, this`contents, repr`next, repr`prev, repr`at
      ensures Valid() && count == 0 && contents == map[]
      ensures AllCalled(called, contents, old(contents))
    {
      called := [];
      var i := 0;
      while i < |buckets|
        invariant 0 <= i <= |buckets| && Valid() && repr <= old(repr)
        invariant forall b {:trigger rings[b]} :: 0 <= b < i ==> |rings[b]| == 1
        invariant AllCalled(called, contents, old(contents))
      {
        called := CleanBucket(i, called, old(contents));
        i := i + 1;
      }
      assert forall k: nat :: k in contents ==> Listed(rings, contents, k);
    }

    method CleanBucket(i: nat, before: seq<Node>, ghost was: map<nat, Node>) returns (called: seq<Node>)
      requires Valid() && i < |buckets| && AllCalled(before, contents, was)
      modifies this`count, this`rings, this`repr, this`contents, repr`next, repr`prev, repr`at
      ensures Valid() && repr <= old(repr) && AllCalled(called, contents, was)
      ensures |rings[i]| == 1 && forall b {:trigger rings[b]} ::
        0 <= b < |rings| && b != i ==> rings[b] == old(rings)[b]
    {
      called := before;
      var h := buckets[i];
      var t := h.prev;
      assert BucketOk(rings[i], h, i);
      while t != h
        invariant Valid() && repr <= old(repr) && AllCalled(called, contents, was)
        invariant t == if |rings[i]| == 1 then h else rings[i][1]
        invariant forall b {:trigger rings[b]} :: 0 <= b < |rings| && b != i ==> rings[b] == old(rings)[b]
        decreases |rings[i]|
      {
        var d := t;
        t := t.prev;
        Linked(d, i, 1);
        CallsOne(called, contents, was, d);
        Remove(d, i, 1);
        called := called + [d];
        assert BucketOk(rings[i], h, i);
      }
    }
  }

  /** called holds, once each, the entries of was that are not in now. */
  ghost predicate AllCalled(called: seq<Node>, now: map<nat, Node>, was: map<nat, Node>) {
    && Distinct(called) && |called| + |now| == |was|
    && (forall n :: n in called ==> n.key !in now && n.key in was && was[n.key] == n)
    && (forall k :: k in now ==> k in was && was[k] == now[k])
  }

  lemma CallsOne(called: seq<Node>, now: map<nat, Node>, was: map<nat, Node>, d: Node)
    requires AllCalled(called, now, was) && d.key in now && now[d.key] == d
    ensures AllCalled(called + [d], now - {d.key}, was)
  {
    assert d !in called;
  }
}
