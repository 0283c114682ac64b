/** rb_insert_fixup and rb_insert of iosplitter/common/range_lock.c. */
module RbInsert {
  import opened RbTree
  import opened RbBalance
  import opened RbSearch

  function GrandParent(n: Node): (g: Node?)
    reads n`parent, Opt(n.parent)`parent
  {
    if n.parent == null then null else n.parent.parent
  }

  function Uncle(n: Node): (u: Node?)
    reads n`parent, Opt(n.parent)`parent, Opt(GrandParent(n))
  {
    var g := GrandParent(n);
    if g == null then null else if g.left == n.parent then g.right else g.left
  }

  method PaintFamily(root: Root, p: Node, u: Node, g: Node)
    requires p in root.repr && u in root.repr && g in root.repr && p != u && p != g && u != g
    modifies root.repr`color, root.repr`bh
    ensures forall m {:trigger m.color} :: m in root.repr ==>
      m.color == if m == p || m == u then BLACK else if m == g then RED else old(m.color)
    ensures forall m {:trigger m.bh} :: m in root.repr ==>
      m.bh == if m == p || m == u then old(m.bh) + 1 else old(m.bh)
  {
    p.color := BLACK;
    u.color := BLACK;
    g.color := RED;
    p.bh, u.bh := p.bh + 1, u.bh + 1;
  }

  /** The case of a red uncle: the violation moves two levels up. */
  method Recolour(root: Root, z: Node, p: Node, u: Node, g: Node)
    requires Structure(root) && NearlyRb(root, z, null, null)
    requires z in root.repr && p == z.parent && p in root.repr && g == p.parent && g in root.repr
    requires p != u && u in root.repr && u.parent == g
    requires p.color == RED && u.color == RED
    modifies root.repr`color, root.repr`bh
    ensures Structure(root) && NearlyRb(root, g, null, null) && g.color == RED
  {
    assert NodeOk(root, z) && NodeOk(root, p) && NodeOk(root, g) && NodeOk(root, u);
    assert BhOk(g, null, null) && BhOk(u, null, null) && BhOk(p, null, null);
    assert RedOk(u);
    assert RedOk(p);
    PaintFamily(root, p, u, g);
    forall n | n in root.repr && NodeOk(root, n) ensures BhOk(n, null, null) {
      assert old(NodeOk(root, n));
      assert old(BhOk(n, null, null));
    }
    forall n | n in root.repr && NodeOk(root, n) && n != g ensures RedOk(n) {
      assert old(NodeOk(root, n));
      if n != z { assert old(RedOk(n)); }
    }
  }

  /** The last statement of rb_insert_fixup. */
  method BlackenRoot(root: Root, ghost z: Node)
    requires Structure(root) && NearlyRb(root, z, null, null)
    requires z in root.repr && (z.parent != null ==> RedOk(z))
    modifies root.repr`color, root.repr`bh
    ensures Structure(root) && NearlyRb(root, null, null, null)
  {
    var r := root.node;
    assert NodeOk(root, z) && NodeOk(root, r);
    assert BhOk(r, null, null);
    PaintBlack(root, r);
    forall n | n in root.repr && NodeOk(root, n) ensures BhOk(n, null, null) {
      assert old(NodeOk(root, n));
      assert old(BhOk(n, null, null));
    }
    forall n | n in root.repr && NodeOk(root, n) ensures RedOk(n) {
      assert old(NodeOk(root, n));
      if n != z { assert old(RedOk(n)); }
    }
  }

  /** The last step of a round with a black uncle, p being a left child and z its left child: p turns black
      and takes its parent's place. */
  method LiftOutLeft(root: Root, z: Node, p: Node)
    requires Structure(root) && NearlyRb(root, z, null, null)
    requires z in root.repr && NodeOk(root, z) && p in root.repr && p == z.parent && p.left == z
    requires p.color == z.color == RED
    requires p.parent != null && p.parent.left == p && !IsRed(p.parent.right)
    modifies root`node, root.repr`left, root.repr`right, root.repr`parent, root.repr`lo, root.repr`hi, root.repr`color,
      root.repr`bh
    ensures Structure(root) && NearlyRb(root, null, null, null) && z.parent == p && p.color == BLACK
  {
    var g := p.parent;
    assert NodeOk(root, p);
    assert p.right != null ==> NodeOk(root, p.right) && RedOk(p.right);
    PaintLift(root, p, g, z, null, null);
    LiftLeft(root, p, g, null, null);
    assert NodeOk(root, p);
  }

  /** One round of the loop of rb_insert_fixup with a black uncle, p being a left child. */
  method RotateOutLeft(root: Root, z0: Node, p0: Node) returns (z: Node, p: Node?)
    requires Structure(root) && NearlyRb(root, z0, null, null)
    requires z0 in root.repr && p0 in root.repr && p0 == z0.parent && p0.color == z0.color == RED
    requires p0.parent != null && p0.parent.left == p0 && !IsRed(p0.parent.right)
    modifies root`node, root.repr`left, root.repr`right, root.repr`parent, root.repr`lo, root.repr`hi, root.repr`color,
      root.repr`bh
    ensures Structure(root) && NearlyRb(root, null, null, null)
    ensures z in root.repr && p == z.parent && p != null && p.color == BLACK
  {
    z, p := z0, p0;
    assert NodeOk(root, z) && NodeOk(root, p) && NodeOk(root, p.parent);
    if p.right == z {
      z := p;
      RotateRedLeft(root, z, z0);
      assert NodeOk(root, z);
    }
    p := z.parent;
    LiftOutLeft(root, z, p);
  }

  /** The last step of a round with a black uncle, p being a right child and z its right child: p turns black
      and takes its parent's place. */
  method LiftOutRight(root: Root, z: Node, p: Node)
    requires Structure(root) && NearlyRb(root, z, null, null)
    requires z in root.repr && NodeOk(root, z) && p in root.repr && p == z.parent && p.right == z
    requires p.color == z.color == RED
    requires p.parent != null && p.parent.right == p && !IsRed(p.parent.left)
    modifies root`node, root.repr`left, root.repr`right, root.repr`parent, root.repr`lo, root.repr`hi, root.repr`color,
      root.repr`bh
    ensures Structure(root) && NearlyRb(root, null, null, null) && z.parent == p && p.color == BLACK
  {
    var g := p.parent;
    assert NodeOk(root, p);
    assert p.left != null ==> NodeOk(root, p.left) && RedOk(p.left);
    PaintLift(root, p, g, z, null, null);
    LiftRight(root, p, g, null, null);
    assert NodeOk(root, p);
  }

  /** One round of the loop of rb_insert_fixup with a black uncle, p being a right child. */
  method RotateOutRight(root: Root, z0: Node, p0: Node) returns (z: Node, p: Node?)
    requires Structure(root) && NearlyRb(root, z0, null, null)
    requires z0 in root.repr && p0 in root.repr && p0 == z0.parent && p0.color == z0.color == RED
    requires p0.parent != null && p0.parent.right == p0 && !IsRed(p0.parent.left)
    modifies root`node, root.repr`left, root.repr`right, root.repr`parent, root.repr`lo, root.repr`hi, root.repr`color,
      root.repr`bh
    ensures Structure(root) && NearlyRb(root, null, null, null)
    ensures z in root.repr && p == z.parent && p != null && p.color == BLACK
  {
    z, p := z0, p0;
    assert NodeOk(root, z) && NodeOk(root, p) && NodeOk(root, p.parent);
    if p.left == z {
      z := p;
      RotateRedRight(root, z, z0);
      assert NodeOk(root, z);
    }
    p := z.parent;
    LiftOutRight(root, z, p);
  }

  /** One round of the loop of rb_insert_fixup: the violation moves up, or p turns black. */
  method Round(root: Root, z0: Node, p0: Node) returns (z: Node, p: Node?)
    requires Structure(root) && NearlyRb(root, z0, null, null)
    requires z0 in root.repr && NodeOk(root, z0) && p0 == z0.parent && p0.color == z0.color == RED
    modifies root`node, root.repr`left, root.repr`right, root.repr`parent, root.repr`lo, root.repr`hi, root.repr`color,
      root.repr`bh
    ensures Structure(root) && NearlyRb(root, z, null, null) && z in root.repr && p == z.parent
    ensures z.hi - z.lo > old(z0.hi - z0.lo) || (p != null && p.color == BLACK)
  {
    var u := Uncle(z0);
    var g := GrandParent(z0);
    assert NodeOk(root, p0);
    assert p0.parent != null ==> NodeOk(root, p0.parent);
    assert g != null;
    assert u != null ==> NodeOk(root, u);
    if u != null && u.color == RED {
      Recolour(root, z0, p0, u, g);
      z := g;
      p := z.parent;
    } else if p0 == g.left {
      z, p := RotateOutLeft(root, z0, p0);
    } else {
      z, p := RotateOutRight(root, z0, p0);
    }
  }

  /** rb_insert_fixup, called on a fresh red leaf. */
  method InsertFixup(root: Root, node: Node)
    requires Structure(root) && NearlyRb(root, node, null, null) && node in root.repr && node.color == RED
    modifies root`node, root.repr`left, root.repr`right, root.repr`parent, root.repr`lo, root.repr`hi, root.repr`color,
      root.repr`bh
    ensures Structure(root) && NearlyRb(root, null, null, null)
  {
    var z := node;
    var p := node.parent;
    while p != null && p.color == RED && z.color == RED
      invariant Structure(root) && z in root.repr && p == z.parent && NearlyRb(root, z, null, null)
      decreases if p != null && p.color == RED && z.color == RED then 1 + |root.nodes| - (z.hi - z.lo) else 0
    {
      assert NodeOk(root, z);
      z, p := Round(root, z, p);
      assert NodeOk(root, z);
    }
    assert NodeOk(root, z);
    BlackenRoot(root, z);
  }

  /** The number v once position k has been opened: of an index or an upper end, and of a lower end. */
  ghost function Up(k: int, v: int): int {
    if v >= k then v + 1 else v
  }

  ghost function LowUp(k: int, v: int): int {
    if v > k then v + 1 else v
  }

  ghost method Renumber(root: Root, k: int)
    modifies root.repr`idx, root.repr`lo, root.repr`hi
    ensures forall m {:trigger m.idx} :: m in root.repr ==> m.idx == Up(k, old(m.idx))
    ensures forall m {:trigger m.lo} :: m in root.repr ==> m.lo == LowUp(k, old(m.lo))
    ensures forall m {:trigger m.hi} :: m in root.repr ==> m.hi == Up(k, old(m.hi))
  {
    forall m | m in root.repr { m.idx := Up(k, m.idx); }
    forall m | m in root.repr { m.lo := LowUp(k, m.lo); }
    forall m | m in root.repr { m.hi := Up(k, m.hi); }
  }

  /** Hangs the fresh leaf n on its parent t. */
  method LinkLeaf(root: Root, n: Node, t: Node?)
    requires n != t
    modifies root`node, root`count, n`parent, n`color, Opt(t)`left, Opt(t)`right
    ensures root.node == if t == null then n else old(root.node)
    ensures root.count == old(root.count) + 1
    ensures n.parent == t && n.color == RED
    ensures t != null ==> if n.start < t.start then t.left == n && t.right == old(t.right)
      else t.left == old(t.left) && t.right == n
  {
    n.parent := t;
    n.color := RED;
    if t == null {
      root.node := n;
    } else {
      if n.start < t.start {
        t.left := n;
      } else {
        t.right := n;
      }
    }
    root.count := root.count + 1;
  }

  /** Of the two NULL slots that could stand between two neighbours of the sequence only one exists. */
  lemma {:induction false} OneSlot(root: Root, n: Node, k: int)
    requires Structure(root) && n in root.repr && NodeOk(root, n) && n.lo < k < n.hi
    requires root.nodes[k - 1].right == null
    ensures root.nodes[k].left != null
    decreases n.hi - n.lo
  {
    if n.idx < k - 1 {
      assert NodeOk(root, n.right);
      OneSlot(root, n.right, k);
    } else if k < n.idx {
      assert NodeOk(root, n.left);
      OneSlot(root, n.left, k);
    }
  }

  /** k is the slot of the in-order sequence that t's missing child on s's side stands for. */
  ghost predicate FreeSlot(root: Root, t: Node?, k: int, s: nat)
    reads root, root.repr
  {
    if t == null then root.node == null && k == 0
    else t in root.repr && if s < t.start then t.left == null && k == t.idx else t.right == null && k == t.idx + 1
  }

  /** Field by field, what hanging n below t changes in a node m of the tree. */
  twostate predicate HungAt(new n: Node, t: Node?, k: int, m: Node)
    reads m, n
  {
    && m.left == (if m == t && n.start < t.start then n else old(m.left))
    && m.right == (if m == t && !(n.start < t.start) then n else old(m.right))
    && m.idx == Up(k, old(m.idx)) && m.lo == LowUp(k, old(m.lo)) && m.hi == Up(k, old(m.hi))
  }

  twostate predicate Hung(root: Root, new n: Node, t: Node?, k: int)
    requires 0 <= k <= |old(root.nodes)|
    reads root, n, root.repr
  {
    && root.repr == old(root.repr) + {n} && |root.nodes| == |old(root.nodes)| + 1
    && (forall i {:trigger root.nodes[i]} :: 0 <= i < |root.nodes| ==>
          root.nodes[i] == if i < k then old(root.nodes)[i] else if i == k then n else old(root.nodes)[i - 1])
    && root.node == (if t == null then n else old(root.node)) && root.count == old(root.count) + 1
    && n.parent == t && n.color == RED && n.bh == 0 && n.idx == n.lo == k && n.hi == k + 1
    && (forall m {:trigger HungAt(n, t, k, m)} :: m in old(root.repr) ==> HungAt(n, t, k, m))
  }

  method HangLeaf(root: Root, n: Node, t: Node?, ghost k: int)
    requires n !in root.repr && 0 <= k <= |root.nodes| && (t != null ==> t in root.repr)
    modifies root, n`parent, n`color, n`idx, n`lo, n`hi, n`bh, root.repr`left, root.repr`right, root.repr`idx,
      root.repr`lo, root.repr`hi
    ensures Hung(root, n, t, k)
  {
    Renumber(root, k);
    LinkLeaf(root, n, t);
    n.idx, n.lo, n.hi, n.bh := k, k, k + 1, 0;
    root.repr := root.repr + {n};
    root.nodes := root.nodes[..k] + [n] + root.nodes[k..];
  }

  method HangInOrder(root: Root, n: Node, t: Node?, ghost k: int)
    requires Rooted(root) && (t == null ==> root.node == null)
    requires n !in root.repr && 0 <= k <= |root.nodes| && (t != null ==> t in root.repr)
    modifies root, n`parent, n`color, n`idx, n`lo, n`hi, n`bh, root.repr`left, root.repr`right, root.repr`idx,
      root.repr`lo, root.repr`hi
    ensures Hung(root, n, t, k) && Rooted(root)
  {
    HangLeaf(root, n, t, k);
    assert root.node != n ==> HungAt(n, t, k, root.node);
    forall i | 0 <= i < |root.nodes| ensures root.nodes[i] in root.repr && root.nodes[i].idx == i {
      assert root.nodes[i] != n ==> root.nodes[i] in old(root.repr) && HungAt(n, t, k, root.nodes[i]);
    }
  }

  method AttachShifted(root: Root, n: Node, t: Node?, ghost k: int)
    requires Structure(root) && n !in root.repr && 0 <= k <= |root.nodes| && FreeSlot(root, t, k, n.start)
    requires n.left == null && n.right == null
    requires 0 < k < |root.nodes| && root.nodes[k - 1].right == null ==> root.nodes[k].left != null
    modifies root, n`parent, n`color, n`idx, n`lo, n`hi, n`bh, root.repr`left, root.repr`right, root.repr`idx,
      root.repr`lo, root.repr`hi
    ensures Hung(root, n, t, k) && Structure(root)
  {
    assert t != null ==> NodeOk(root, t);
    HangInOrder(root, n, t, k);
    assert t != null ==> HungAt(n, t, k, t);
    forall m | m in root.repr ensures NodeOk(root, m) {
      if m != n {
        assert old(NodeOk(root, m)) && HungAt(n, t, k, m);
        assert m.left != null && m.left != n ==> m.left in old(root.repr) && HungAt(n, t, k, m.left);
        assert m.right != null && m.right != n ==> m.right in old(root.repr) && HungAt(n, t, k, m.right);
        assert m.parent != null ==> m.parent in old(root.repr) && HungAt(n, t, k, m.parent);
      }
    }
  }

  /** The leaf hung on a red-black tree: only the colours of n and its parent may clash. */
  method AttachRed(root: Root, n: Node, t: Node?, ghost k: int)
    requires Structure(root) && ColoursOk(root)
    requires n !in root.repr && 0 <= k <= |root.nodes| && FreeSlot(root, t, k, n.start)
    requires n.left == null && n.right == null
    requires 0 < k < |root.nodes| && root.nodes[k - 1].right == null ==> root.nodes[k].left != null
    modifies root, n`parent, n`color, n`idx, n`lo, n`hi, n`bh, root.repr`left, root.repr`right, root.repr`idx,
      root.repr`lo, root.repr`hi
    ensures Hung(root, n, t, k) && Structure(root) && NearlyRb(root, n, null, null)
  {
    assert t != null ==> NodeOk(root, t) && BhOk(t, null, null);
    AttachShifted(root, n, t, k);
    assert t != null ==> HungAt(n, t, k, t);
    forall m | m in root.repr && NodeOk(root, m) ensures BhOk(m, null, null) {
      if m != n {
        assert old(NodeOk(root, m)) && HungAt(n, t, k, m);
        assert old(BhOk(m, null, null));
      }
    }
    forall m | m in root.repr && NodeOk(root, m) && m != n ensures RedOk(m) {
      assert old(NodeOk(root, m)) && HungAt(n, t, k, m);
      assert old(RedOk(m));
    }
  }

  lemma NoSecondSlot(root: Root, k: int)
    requires Structure(root) && 0 <= k <= |root.nodes|
    ensures 0 < k < |root.nodes| && root.nodes[k - 1].right == null ==> root.nodes[k].left != null
  {
    if 0 < k < |root.nodes| && root.nodes[k - 1].right == null {
      assert NodeOk(root, root.node);
      OneSlot(root, root.node, k);
    }
  }

  /** Putting an interval into its slot keeps the sequence sorted. */
  lemma AscendingInsert(a: seq<Node>, n: Node, k: int, b: seq<Node>)
    requires 0 <= k <= |a| && Ascending(a) && n.start <= n.end
    requires forall i :: 0 <= i < k ==> a[i].end < n.start
    requires forall i :: k <= i < |a| ==> n.end < a[i].start
    requires b == a[..k] + [n] + a[k..]
    ensures Ascending(b)
  {
    forall i {:trigger b[i]} | 0 <= i < |b| ensures b[i] == if i < k then a[i] else if i == k then n else a[i - 1] {}
  }

  /** No stored interval overlaps s..e. */
  ghost predicate Free(root: Root, s: nat, e: nat)
    reads root`repr, root.repr`start, root.repr`end
  {
    forall m {:trigger Overlaps(m, s, e)} :: m in root.repr ==> !Overlaps(m, s, e)
  }

  /** The loop of rb_insert: an overlapping node n if there is one, else the place of s..e below t. */
  method FindPlace(root: Root, s: nat, e: nat) returns (n: Node?, t: Node?, ghost k: int)
    requires Valid(root) && s <= e
    ensures n != null ==> n in root.repr && Overlaps(n, s, e)
    ensures n == null ==>
      && 0 <= k <= |root.nodes| && FreeSlot(root, t, k, s)
      && (forall i :: 0 <= i < k ==> root.nodes[i].end < s)
      && (forall i :: k <= i < |root.nodes| ==> e < root.nodes[i].start)
  {
    n, t, k := root.node, null, 0;
    ghost var hi := |root.nodes|;
    assert n != null ==> NodeOk(root, n);
    while n != null
      invariant 0 <= k <= hi <= |root.nodes|
      invariant n != null ==> n in root.repr && NodeOk(root, n) && n.lo == k && n.hi == hi
      invariant n == null ==> k == hi && FreeSlot(root, t, k, s)
      invariant forall i :: 0 <= i < k ==> root.nodes[i].end < s
      invariant forall i :: hi <= i < |root.nodes| ==> e < root.nodes[i].start
      decreases hi - k, n != null
    {
      t := n;
      assert root.nodes[n.idx] == n;
      if CheckOverlap(n.start, n.end, s, e) {
        return;
      }
      assert !(Within(n.start, n.start, n.end) && Within(n.start, s, e));
      assert !(Within(s, n.start, n.end) && Within(s, s, e));
      if n.start > s {
        assert n.end > e;
        hi := n.idx;
        n := n.left;
      } else {
        assert n.end < s;
        k := n.idx + 1;
        n := n.right;
      }
      assert n != null ==> NodeOk(root, n);
    }
  }

  lemma NoneOverlaps(root: Root, k: int, s: nat, e: nat)
    requires Structure(root) && 0 <= k <= |root.nodes| && s <= e && Sorted(root)
    requires forall i :: 0 <= i < k ==> root.nodes[i].end < s
    requires forall i :: k <= i < |root.nodes| ==> e < root.nodes[i].start
    ensures Free(root, s, e)
  {
    forall m | m in root.repr ensures !Overlaps(m, s, e) {
      assert NodeOk(root, m);
      assert root.nodes[m.idx] == m;
    }
  }

  /** rb_insert once the place is known. */
  method AddAt(root: Root, n: Node, t: Node?, ghost k: int)
    requires Valid(root) && n !in root.repr && n.left == null && n.right == null && n.start <= n.end
    requires 0 <= k <= |root.nodes| && FreeSlot(root, t, k, n.start)
    requires forall i :: 0 <= i < k ==> root.nodes[i].end < n.start
    requires forall i :: k <= i < |root.nodes| ==> n.end < root.nodes[i].start
    modifies root, n`parent, n`color, n`idx, n`lo, n`hi, n`bh, n`left, n`right
    modifies root.repr`left, root.repr`right, root.repr`idx, root.repr`lo, root.repr`hi, root.repr`parent,
      root.repr`color, root.repr`bh
    ensures Valid(root)
    ensures root.repr == old(root.repr) + {n}
    ensures root.nodes == old(root.nodes)[..k] + [n] + old(root.nodes)[k..]
  {
    NoSecondSlot(root, k);
    ghost var a := root.nodes;
    AttachRed(root, n, t, k);
    assert root.nodes == a[..k] + [n] + a[k..];
    InsertFixup(root, n);
    AscendingInsert(a, n, k, root.nodes);
  }

  method AddNew(root: Root, s: nat, e: nat, t: Node?, ghost k: int) returns (r: Node)
    requires Valid(root) && s <= e && 0 <= k <= |root.nodes| && FreeSlot(root, t, k, s)
    requires forall i :: 0 <= i < k ==> root.nodes[i].end < s
    requires forall i :: k <= i < |root.nodes| ==> e < root.nodes[i].start
    modifies root
    modifies root.repr`left, root.repr`right, root.repr`idx, root.repr`lo, root.repr`hi, root.repr`parent,
      root.repr`color, root.repr`bh
    ensures Valid(root) && fresh(r) && r.waiting == [] && r.start == s && r.end == e
    ensures root.repr == old(root.repr) + {r}
    ensures root.nodes == old(root.nodes)[..k] + [r] + old(root.nodes)[k..]
  {
    r := new Node();
    r.start := s;
    r.end := e;
    AddAt(root, r, t, k);
  }

  /** rb_insert: if a stored interval overlaps, its node is returned and nothing changes; otherwise a new
      node joins the tree at its place in the order. */
  method Insert(root: Root, s0: nat, e0: nat) returns (r: Node)
    requires Valid(root)
    modifies root
    modifies root.repr`left, root.repr`right, root.repr`idx, root.repr`lo, root.repr`hi, root.repr`parent,
      root.repr`color, root.repr`bh
    ensures Valid(root)
    ensures !old(Free(root, s0, e0)) ==>
      r in old(root.repr) && Overlaps(r, s0, e0) && root.repr == old(root.repr) && root.nodes == old(root.nodes)
    ensures old(Free(root, s0, e0)) ==>
      && fresh(r) && root.repr == old(root.repr) + {r} && r.waiting == []
      && r.start == (if s0 > e0 then e0 else s0) && r.end == (if s0 > e0 then s0 else e0)
      && exists k :: 0 <= k <= |old(root.nodes)| && root.nodes == old(root.nodes)[..k] + [r] + old(root.nodes)[k..]
  {
    var s, e := s0, e0;
    if s > e {
      s, e := e, s;
    }
    assert s <= e;
    var n, t, k := FindPlace(root, s, e);
    if n != null {
      assert Overlaps(n, s0, e0);
      return n;
    }
    NoneOverlaps(root, k, s, e);
    OrderIrrelevant(root, s0, e0);
    r := AddNew(root, s, e, t, k);
  }

  lemma OrderIrrelevant(root: Root, s: nat, e: nat)
    ensures Free(root, s, e) == Free(root, e, s)
  {
    forall m | m in root.repr ensures Overlaps(m, s, e) == Overlaps(m, e, s) {}
  }
}
