/** rb_transplant and rb_delete of iosplitter/common/range_lock.c. */
module RbDelete {
  import opened RbTree
  import opened RbSearch
  import opened RbDeleteFixup

  /** rb_transplant: v takes u's place below u's parent. */
  method Transplant(root: Root, u: Node, v: Node?)
    requires if u.parent == null then root.node == u else u.parent.left == u || u.parent.right == u
    requires u != v
    modifies root`node, Opt(u.parent)`left, Opt(u.parent)`right, Opt(v)`parent
    ensures root.node == if old(u.parent) == null then v else old(root.node)
    ensures var p := old(u.parent); p != null ==>
      if old(p.left) == u then p.left == v && p.right == old(p.right) else p.left == old(p.left) && p.right == v
    ensures v != null ==> v.parent == old(u.parent)
  {
    if u.parent == null {
      assert root.node == u;
      root.node := v;
    } else if u == u.parent.left {
      u.parent.left := v;
    } else {
      u.parent.right := v;
    }
    if v != null {
      v.parent := u.parent;
    }
  }

  /** The number v once position d has been closed. */
  ghost function Shift(d: int, v: int): int {
    if v > d then v - 1 else v
  }

  /** Renumbers the remaining nodes. */
  ghost method Renumber(root: Root, d: int)
    modifies root.repr`idx, root.repr`lo, root.repr`hi
    ensures forall m {:trigger m.idx} :: m in root.repr ==> m.idx == Shift(d, old(m.idx))
    ensures forall m {:trigger m.lo} :: m in root.repr ==> m.lo == Shift(d, old(m.lo))
    ensures forall m {:trigger m.hi} :: m in root.repr ==> m.hi == Shift(d, old(m.hi))
  {
    forall m | m in root.repr { m.idx := Shift(d, m.idx); }
    forall m | m in root.repr { m.lo := Shift(d, m.lo); }
    forall m | m in root.repr { m.hi := Shift(d, m.hi); }
  }

  /** Field by field, what splicing z out changes in node m; x is z's only child or NULL. */
  twostate predicate SplicedAt(z: Node, x: Node?, m: Node)
    reads m
  {
    && m.left == (if m == old(z.parent) && old(m.left) == z then x else old(m.left))
    && m.right == (if m == old(z.parent) && old(m.left) != z then x else old(m.right))
    && m.parent == (if m == x then old(z.parent) else old(m.parent))
    && m.idx == Shift(old(z.idx), old(m.idx))
    && m.lo == Shift(old(z.idx), old(m.lo))
    && m.hi == Shift(old(z.idx), old(m.hi))
  }

  twostate predicate Spliced(root: Root, z: Node, x: Node?)
    requires z in old(root.repr)
    reads root, root.repr
  {
    && root.repr == old(root.repr) - {z} && |root.nodes| == |old(root.nodes)| - 1
    && (forall i {:trigger root.nodes[i]} :: 0 <= i < |root.nodes| ==>
          root.nodes[i] == old(root.nodes)[if i < old(z.idx) then i else i + 1])
    && root.node == (if old(z.parent) == null then x else old(root.node))
    && (forall m {:trigger SplicedAt(z, x, m)} :: m in root.repr ==> SplicedAt(z, x, m))
  }

  method Splice(root: Root, z: Node, x: Node?)
    requires z in root.repr && 0 <= z.idx < |root.nodes| && x != z && z.parent != z && (x != null ==> x in root.repr)
    requires if z.parent == null then root.node == z
             else z.parent in root.repr && (z.parent.left == z || z.parent.right == z)
    modifies root, root.repr`left, root.repr`right, root.repr`parent, root.repr`idx, root.repr`lo, root.repr`hi
    ensures Spliced(root, z, x) && root.count == old(root.count)
    ensures unchanged(z)
  {
    ghost var d := z.idx;
    Transplant(root, z, x);
    root.repr := root.repr - {z};
    root.nodes := root.nodes[..d] + root.nodes[d + 1..];
    Renumber(root, d);
  }

  method SpliceInOrder(root: Root, z: Node, x: Node?)
    requires Structure(root) && z in root.repr && NodeOk(root, z)
    requires if z.left == null then x == z.right else z.right == null && x == z.left
    modifies root, root.repr`left, root.repr`right, root.repr`parent, root.repr`idx, root.repr`lo, root.repr`hi
    ensures Spliced(root, z, x) && root.count == old(root.count) && unchanged(z) && Rooted(root)
  {
    assert z.parent != null ==> NodeOk(root, z.parent);
    assert x != null ==> NodeOk(root, x);
    if z.parent == null && x == null {
      forall m | m in root.repr ensures m == z { assert NodeOk(root, m); }
    }
    Splice(root, z, x);
    assert root.node != null ==> SplicedAt(z, x, root.node);
    forall i | 0 <= i < |root.nodes| ensures root.nodes[i] in root.repr && root.nodes[i].idx == i {
      assert old(root.nodes)[if i < old(z.idx) then i else i + 1] != z;
      assert SplicedAt(z, x, root.nodes[i]);
    }
  }

  method SpliceChildren(root: Root, z: Node, x: Node?)
    requires Structure(root) && z in root.repr && NodeOk(root, z)
    requires if z.left == null then x == z.right else z.right == null && x == z.left
    modifies root, root.repr`left, root.repr`right, root.repr`parent, root.repr`idx, root.repr`lo, root.repr`hi
    ensures Spliced(root, z, x) && root.count == old(root.count) && unchanged(z) && Rooted(root)
    ensures forall m {:trigger LeftOk(root, m)} :: m in root.repr ==> LeftOk(root, m)
    ensures forall m {:trigger RightOk(root, m)} :: m in root.repr ==> RightOk(root, m)
  {
    assert z.parent != null ==> NodeOk(root, z.parent);
    assert x != null ==> NodeOk(root, x);
    SpliceInOrder(root, z, x);
    forall m | m in root.repr ensures LeftOk(root, m) {
      assert old(NodeOk(root, m)) && SplicedAt(z, x, m);
      assert m.left != null ==> m.left in root.repr && SplicedAt(z, x, m.left);
    }
    forall m | m in root.repr ensures RightOk(root, m) {
      assert old(NodeOk(root, m)) && SplicedAt(z, x, m);
      assert m.right != null ==> m.right in root.repr && SplicedAt(z, x, m.right);
    }
  }

  method SpliceOut(root: Root, z: Node, x: Node?)
    requires Structure(root) && z in root.repr && NodeOk(root, z)
    requires if z.left == null then x == z.right else z.right == null && x == z.left
    modifies root, root.repr`left, root.repr`right, root.repr`parent, root.repr`idx, root.repr`lo, root.repr`hi
    ensures Spliced(root, z, x) && root.count == old(root.count) && unchanged(z) && Structure(root)
  {
    assert z.parent != null ==> NodeOk(root, z.parent);
    assert x != null ==> NodeOk(root, x);
    SpliceChildren(root, z, x);
    forall m | m in root.repr ensures NodeOk(root, m) {
      assert LeftOk(root, m) && RightOk(root, m);
      assert old(NodeOk(root, m)) && SplicedAt(z, x, m);
      assert old(root.nodes[m.idx]) == m;
      assert m.parent != null ==> m.parent in root.repr && SplicedAt(z, x, m.parent);
    }
  }

  method TakeOutCounts(root: Root, z: Node, x: Node?)
    requires Structure(root) && ColoursOk(root) && z in root.repr && NodeOk(root, z)
    requires if z.left == null then x == z.right else z.right == null && x == z.left
    modifies root, root.repr`left, root.repr`right, root.repr`parent, root.repr`idx, root.repr`lo, root.repr`hi
    ensures Spliced(root, z, x) && root.count == old(root.count) && unchanged(z) && Structure(root)
    ensures root.node != null ==> if z.color == BLACK then BhsOk(root, x, z.parent) else BhsOk(root, null, null)
  {
    ghost var p := z.parent;
    assert BhOk(z, null, null) && RedOk(z);
    assert p != null ==> NodeOk(root, p) && BhOk(p, null, null);
    assert x != null ==> NodeOk(root, x) && BhOk(x, null, null) && RedOk(x);
    SpliceOut(root, z, x);
    forall m | m in root.repr && NodeOk(root, m)
      ensures if z.color == BLACK then BhOk(m, x, p) else BhOk(m, null, null)
    {
      assert old(NodeOk(root, m)) && SplicedAt(z, x, m) && (m.parent != null ==> SplicedAt(z, x, m.parent));
      assert old(BhOk(m, null, null));
    }
  }

  /** A node with at most one child taken out of a red-black tree. If it was black, the paths through its
      child are one black node short. */
  method TakeOut(root: Root, z: Node, x: Node?)
    requires Structure(root) && ColoursOk(root) && z in root.repr && NodeOk(root, z)
    requires if z.left == null then x == z.right else z.right == null && x == z.left
    modifies root, root.repr`left, root.repr`right, root.repr`parent, root.repr`idx, root.repr`lo, root.repr`hi
    ensures Spliced(root, z, x) && root.count == old(root.count) && unchanged(z) && Structure(root)
    ensures root.node != null ==>
      if z.color == BLACK then NearlyRb(root, x, x, z.parent) else NearlyRb(root, null, null, null)
    ensures x != null ==> x in root.repr && x.parent == z.parent
    ensures z.parent != null ==> z.parent in root.repr
  {
    ghost var p := z.parent;
    assert BhOk(z, null, null) && RedOk(z);
    assert p != null ==> NodeOk(root, p) && BhOk(p, null, null);
    assert x != null ==> NodeOk(root, x) && BhOk(x, null, null) && RedOk(x);
    TakeOutCounts(root, z, x);
    assert root.node != null ==> SplicedAt(z, x, root.node);
    assert x != null ==> SplicedAt(z, x, x);
    assert p != null ==> p in root.repr && SplicedAt(z, x, p);
    forall m | m in root.repr && NodeOk(root, m) && (m != x || z.color == RED) ensures RedOk(m) {
      assert old(NodeOk(root, m)) && SplicedAt(z, x, m) && (m.parent != null ==> SplicedAt(z, x, m.parent));
      assert old(RedOk(m));
    }
  }

  /** Field by field, what moving y, the leftmost node of z's right subtree, into z's place changes in node m. */
  twostate predicate MovedAt(z: Node, y: Node, x: Node?, m: Node)
    reads m
  {
    var p, py, d := old(z.parent), old(y.parent), old(z.idx) + 1;
    && m.left == (if m == y then old(z.left) else if m == py then x else if m == p && old(m.left) == z then y
                  else old(m.left))
    && m.right == (if m == y then (if py == z then x else old(z.right))
                   else if m == p && old(m.left) != z then y else old(m.right))
    && m.parent == (if m == y then p else if m == x then (if py == z then y else py)
                    else if m == old(z.left) || m == old(z.right) then y else old(m.parent))
    && m.color == (if m == y then old(z.color) else old(m.color))
    && m.bh == (if m == y then old(z.bh) else old(m.bh))
    && m.idx == (if m == y then Shift(d, old(z.idx)) else Shift(d, old(m.idx)))
    && m.lo == (if m == y then Shift(d, old(z.lo)) else Shift(d, old(m.lo)))
    && m.hi == (if m == y then Shift(d, old(z.hi)) else Shift(d, old(m.hi)))
  }

  twostate predicate MovedUp(root: Root, z: Node, y: Node, x: Node?)
    requires z in old(root.repr) && y in old(root.repr)
    reads root, root.repr
  {
    && root.repr == old(root.repr) - {z} && |root.nodes| == |old(root.nodes)| - 1
    && (forall i {:trigger root.nodes[i]} :: 0 <= i < |root.nodes| ==>
          root.nodes[i] == old(root.nodes)[if i < old(z.idx) then i else i + 1])
    && root.node == (if old(z.parent) == null then y else old(root.node))
    && (forall m {:trigger MovedAt(z, y, x, m)} :: m in root.repr ==> MovedAt(z, y, x, m))
  }

  /** The pointers around z and its successor y, before they move. */
  ghost predicate Succeeds(root: Root, z: Node, y: Node, x: Node?)
    reads root, root.repr
  {
    && z in root.repr && y in root.repr && z != y && z.left != null && z.right != null
    && z.left in root.repr && z.right in root.repr && y.parent in root.repr
    && y.left == null && y.right == x && (x != null ==> x in root.repr && x.parent == y)
    && (if y.parent == z then z.right == y else z.right != y && y.parent.left == y && y.parent.right != y)
    && z.left.parent == z && z.right.parent == z
    && (if z.parent == null then root.node == z
        else z.parent in root.repr && (z.parent.left == z || z.parent.right == z))
    && (z.parent != null ==> z.parent !in {z, y, z.left, z.right, y.parent} && z.parent != x)
    && y.parent !in {y, x, z.left} && z.left !in {y, z, x, z.right} && z.right !in {z, x} && x !in {y, z}
  }

  method MoveLinks(root: Root, z: Node, y: Node, x: Node?) returns (p: Node)
    requires Succeeds(root, z, y, x)
    modifies root`node, root.repr`left, root.repr`right, root.repr`parent, root.repr`color
    ensures p == if old(y.parent) == z then y else old(y.parent)
    ensures root.node == if old(z.parent) == null then y else old(root.node)
    ensures forall m {:trigger m.left} :: m in root.repr && m != z ==>
      m.left == if m == y then old(z.left) else if m == old(y.parent) then x
                else if m == old(z.parent) && old(m.left) == z then y else old(m.left)
    ensures forall m {:trigger m.right} :: m in root.repr && m != z ==>
      m.right == if m == y then (if old(y.parent) == z then x else old(z.right))
                 else if m == old(z.parent) && old(m.left) != z then y else old(m.right)
    ensures forall m {:trigger m.parent} :: m in root.repr && m != z ==>
      m.parent == if m == y then old(z.parent)
                  else if m == x then (if old(y.parent) == z then y else old(y.parent))
                  else if m == old(z.left) || m == old(z.right) then y
                  else old(m.parent)
    ensures forall m {:trigger m.color} :: m in root.repr ==> m.color == if m == y then old(z.color) else old(m.color)
  {
    p := y.parent;
    if y.parent == z {
      assert z.right == y;
      if x != null {
        assert x.parent == y;
        x.parent := y;
      }
      p := y;
    } else {
      Transplant(root, y, y.right);
      y.right := z.right;
      y.right.parent := y;
    }
    Transplant(root, z, y);
    y.left := z.left;
    y.left.parent := y;
    y.color := z.color;
  }

  lemma SuccessorPlace(root: Root, z: Node, y: Node)
    requires Structure(root) && z in root.repr && y in root.repr && z.left != null && z.right != null
    requires NodeOk(root, z) && NodeOk(root, y) && y.left == null && y.idx == z.idx + 1
      && z.right.lo <= y.idx < z.right.hi
    ensures Succeeds(root, z, y, y.right)
    ensures NodeOk(root, y.parent) && NodeOk(root, z.left) && NodeOk(root, z.right)
    ensures y.right != null ==> NodeOk(root, y.right)
    ensures z.parent != null ==> NodeOk(root, z.parent)
  {
    assert NodeOk(root, z.left) && NodeOk(root, z.right);
    assert y.right != null ==> NodeOk(root, y.right);
    assert z.parent != null ==> NodeOk(root, z.parent);
    assert y.parent != null ==> NodeOk(root, y.parent);
  }

  /** y takes z's numbers and z leaves. */
  ghost method TakePlace(root: Root, z: Node, y: Node)
    requires z in root.repr && y in root.repr && y != z && 0 <= z.idx < |root.nodes|
    modifies root`repr, root`nodes, root.repr`bh, root.repr`idx, root.repr`lo, root.repr`hi
    ensures root.repr == old(root.repr) - {z} && |root.nodes| == |old(root.nodes)| - 1
    ensures forall i {:trigger root.nodes[i]} :: 0 <= i < |root.nodes| ==>
      root.nodes[i] == old(root.nodes)[if i < old(z.idx) then i else i + 1]
    ensures forall m {:trigger m.bh} :: m in root.repr ==> m.bh == if m == y then old(z.bh) else old(m.bh)
    ensures forall m {:trigger m.idx} :: m in root.repr ==>
      m.idx == if m == y then Shift(old(z.idx) + 1, old(z.idx)) else Shift(old(z.idx) + 1, old(m.idx))
    ensures forall m {:trigger m.lo} :: m in root.repr ==>
      m.lo == if m == y then Shift(old(z.idx) + 1, old(z.lo)) else Shift(old(z.idx) + 1, old(m.lo))
    ensures forall m {:trigger m.hi} :: m in root.repr ==>
      m.hi == if m == y then Shift(old(z.idx) + 1, old(z.hi)) else Shift(old(z.idx) + 1, old(m.hi))
  {
    var k := z.idx;
    y.idx, y.lo, y.hi, y.bh := z.idx, z.lo, z.hi, z.bh;
    root.repr := root.repr - {z};
    root.nodes := root.nodes[..k] + root.nodes[k + 1..];
    Renumber(root, k + 1);
  }

  method MoveUp(root: Root, z: Node, y: Node, x: Node?) returns (p: Node)
    requires Succeeds(root, z, y, x) && 0 <= z.idx < |root.nodes| - 1 && root.nodes[z.idx + 1] == y
    modifies root, root.repr`left, root.repr`right, root.repr`parent, root.repr`color, root.repr`bh, root.repr`idx,
      root.repr`lo, root.repr`hi
    ensures MovedUp(root, z, y, x) && root.count == old(root.count)
    ensures p == if old(y.parent) == z then y else old(y.parent)
  {
    p := MoveLinks(root, z, y, x);
    TakePlace(root, z, y);
  }

  method MoveUpInOrder(root: Root, z: Node, y: Node, x: Node?) returns (p: Node)
    requires Rooted(root) && Succeeds(root, z, y, x) && 0 <= z.idx < |root.nodes| - 1
    requires root.nodes[z.idx + 1] == y && root.nodes[z.idx] == z
    modifies root, root.repr`left, root.repr`right, root.repr`parent, root.repr`color, root.repr`bh, root.repr`idx,
      root.repr`lo, root.repr`hi
    ensures MovedUp(root, z, y, x) && root.count == old(root.count) && Rooted(root)
    ensures p == if old(y.parent) == z then y else old(y.parent)
  {
    p := MoveUp(root, z, y, x);
    assert MovedAt(z, y, x, y) && (root.node != y ==> MovedAt(z, y, x, root.node));
    forall i | 0 <= i < |root.nodes| ensures root.nodes[i] in root.repr && root.nodes[i].idx == i {
      assert MovedAt(z, y, x, root.nodes[i]);
    }
  }

  method MoveUpLeft(root: Root, z: Node, y: Node, x: Node?) returns (p: Node)
    requires Structure(root) && Succeeds(root, z, y, x) && NodeOk(root, z) && NodeOk(root, y)
    requires y.idx == z.idx + 1
    modifies root, root.repr`left, root.repr`right, root.repr`parent, root.repr`color, root.repr`bh, root.repr`idx,
      root.repr`lo, root.repr`hi
    ensures MovedUp(root, z, y, x) && root.count == old(root.count) && Rooted(root)
    ensures p == if old(y.parent) == z then y else old(y.parent)
    ensures forall m {:trigger LeftOk(root, m)} :: m in root.repr ==> LeftOk(root, m)
  {
    assert NodeOk(root, z.left) && NodeOk(root, z.right) && NodeOk(root, y.parent);
    assert x != null ==> NodeOk(root, x);
    assert z.parent != null ==> NodeOk(root, z.parent);
    p := MoveUpInOrder(root, z, y, x);
    forall m | m in root.repr ensures LeftOk(root, m) {
      assert old(NodeOk(root, m)) && MovedAt(z, y, x, m);
      assert m.left != null ==> m.left in root.repr && MovedAt(z, y, x, m.left);
    }
  }

  method MoveUpRight(root: Root, z: Node, y: Node, x: Node?) returns (p: Node)
    requires Structure(root) && Succeeds(root, z, y, x) && NodeOk(root, z) && NodeOk(root, y)
    requires y.idx == z.idx + 1
    modifies root, root.repr`left, root.repr`right, root.repr`parent, root.repr`color, root.repr`bh, root.repr`idx,
      root.repr`lo, root.repr`hi
    ensures MovedUp(root, z, y, x) && root.count == old(root.count) && Rooted(root)
    ensures p == if old(y.parent) == z then y else old(y.parent)
    ensures forall m {:trigger LeftOk(root, m)} :: m in root.repr ==> LeftOk(root, m)
    ensures forall m {:trigger RightOk(root, m)} :: m in root.repr ==> RightOk(root, m)
  {
    assert NodeOk(root, z.left) && NodeOk(root, z.right) && NodeOk(root, y.parent);
    assert x != null ==> NodeOk(root, x);
    assert z.parent != null ==> NodeOk(root, z.parent);
    p := MoveUpLeft(root, z, y, x);
    forall m | m in root.repr ensures RightOk(root, m) {
      assert old(NodeOk(root, m)) && MovedAt(z, y, x, m);
      assert m.right != null ==> m.right in root.repr && MovedAt(z, y, x, m.right);
    }
  }

  method MoveUpPlaces(root: Root, z: Node, y: Node, x: Node?) returns (p: Node)
    requires Structure(root) && Succeeds(root, z, y, x) && NodeOk(root, z) && NodeOk(root, y)
    requires y.idx == z.idx + 1
    modifies root, root.repr`left, root.repr`right, root.repr`parent, root.repr`color, root.repr`bh, root.repr`idx,
      root.repr`lo, root.repr`hi
    ensures MovedUp(root, z, y, x) && root.count == old(root.count) && Rooted(root)
    ensures p == if old(y.parent) == z then y else old(y.parent)
    ensures forall m {:trigger LeftOk(root, m)} :: m in root.repr ==> LeftOk(root, m)
    ensures forall m {:trigger RightOk(root, m)} :: m in root.repr ==> RightOk(root, m)
    ensures forall m {:trigger PlaceOk(root, m)} :: m in root.repr ==> PlaceOk(root, m)
  {
    assert NodeOk(root, y.parent);
    p := MoveUpRight(root, z, y, x);
    forall m | m in root.repr ensures PlaceOk(root, m) {
      assert old(NodeOk(root, m)) && MovedAt(z, y, x, m);
      assert old(root.nodes[m.idx]) == m;
    }
  }

  method MoveUpInTree(root: Root, z: Node, y: Node, x: Node?) returns (p: Node)
    requires Structure(root) && Succeeds(root, z, y, x) && NodeOk(root, z) && NodeOk(root, y)
    requires y.idx == z.idx + 1
    modifies root, root.repr`left, root.repr`right, root.repr`parent, root.repr`color, root.repr`bh, root.repr`idx,
      root.repr`lo, root.repr`hi
    ensures MovedUp(root, z, y, x) && root.count == old(root.count) && Structure(root)
    ensures p == if old(y.parent) == z then y else old(y.parent)
  {
    assert NodeOk(root, z.left) && NodeOk(root, z.right) && NodeOk(root, y.parent);
    assert x != null ==> NodeOk(root, x);
    assert z.parent != null ==> NodeOk(root, z.parent);
    p := MoveUpPlaces(root, z, y, x);
    forall m | m in root.repr ensures NodeOk(root, m) {
      assert PlaceOk(root, m) && LeftOk(root, m) && RightOk(root, m);
      assert old(NodeOk(root, m)) && MovedAt(z, y, x, m);
      assert m.parent != null ==> m.parent in root.repr && MovedAt(z, y, x, m.parent);
    }
  }

  method TakeOutInnerCounts(root: Root, z: Node, y: Node, x: Node?) returns (p: Node)
    requires Structure(root) && ColoursOk(root) && Succeeds(root, z, y, x) && NodeOk(root, z) && NodeOk(root, y)
    requires y.idx == z.idx + 1
    modifies root, root.repr`left, root.repr`right, root.repr`parent, root.repr`color, root.repr`bh, root.repr`idx,
      root.repr`lo, root.repr`hi
    ensures MovedUp(root, z, y, x) && root.count == old(root.count) && Structure(root)
    ensures p == if old(y.parent) == z then y else old(y.parent)
    ensures if old(y.color) == BLACK then BhsOk(root, x, p) else BhsOk(root, null, null)
  {
    assert NodeOk(root, z.left) && NodeOk(root, z.right) && NodeOk(root, y.parent);
    assert x != null ==> NodeOk(root, x) && BhOk(x, null, null) && RedOk(x);
    assert z.parent != null ==> NodeOk(root, z.parent) && BhOk(z.parent, null, null);
    assert BhOk(z, null, null) && BhOk(y, null, null) && BhOk(y.parent, null, null) && RedOk(y);
    assert BhOk(z.left, null, null) && BhOk(z.right, null, null);
    p := MoveUpInTree(root, z, y, x);
    forall m | m in root.repr && NodeOk(root, m)
      ensures if old(y.color) == BLACK then BhOk(m, x, p) else BhOk(m, null, null)
    {
      assert MovedAt(z, y, x, m) && (m.parent != null ==> MovedAt(z, y, x, m.parent));
      assert old(NodeOk(root, m));
      assert old(BhOk(m, null, null));
    }
  }

  /** The same for a node with two children: its successor y moves into its place, colour included, and what
      is missing is missing where y was. */
  method TakeOutInner(root: Root, z: Node, y: Node, x: Node?) returns (p: Node)
    requires Structure(root) && ColoursOk(root) && Succeeds(root, z, y, x) && NodeOk(root, z) && NodeOk(root, y)
    requires y.idx == z.idx + 1
    modifies root, root.repr`left, root.repr`right, root.repr`parent, root.repr`color, root.repr`bh, root.repr`idx,
      root.repr`lo, root.repr`hi
    ensures MovedUp(root, z, y, x) && root.count == old(root.count) && Structure(root)
    ensures if old(y.color) == BLACK then NearlyRb(root, x, x, p) else NearlyRb(root, null, null, null)
    ensures x != null ==> x in root.repr && x.parent == p
    ensures p in root.repr
  {
    assert NodeOk(root, z.left) && NodeOk(root, z.right) && NodeOk(root, y.parent);
    assert x != null ==> NodeOk(root, x) && BhOk(x, null, null) && RedOk(x);
    assert BhOk(y, null, null) && BhOk(y.parent, null, null) && RedOk(z) && RedOk(y);
    assert RedOk(z.left) && RedOk(z.right);
    p := TakeOutInnerCounts(root, z, y, x);
    assert MovedAt(z, y, x, y) && MovedAt(z, y, x, root.node) && MovedAt(z, y, x, p);
    assert x != null ==> MovedAt(z, y, x, x);
    forall m | m in root.repr && NodeOk(root, m) && (m != x || old(y.color) == RED) ensures RedOk(m) {
      assert MovedAt(z, y, x, m) && (m.parent != null ==> MovedAt(z, y, x, m.parent));
      assert old(NodeOk(root, m));
      assert old(RedOk(m));
    }
  }

  lemma AscendingRemove(a: seq<Node>, d: int, b: seq<Node>)
    requires 0 <= d < |a| && Ascending(a) && |b| == |a| - 1
    requires forall i {:trigger b[i]} :: 0 <= i < |b| ==> b[i] == a[if i < d then i else i + 1]
    ensures Ascending(b) && b == a[..d] + a[d + 1..]
  {
  }

  /** rb_delete when z has at most one child, x. */
  method DeleteOuter(root: Root, z: Node, x: Node?)
    requires Structure(root) && ColoursOk(root) && z in root.repr
    requires if z.left == null then x == z.right else z.right == null && x == z.left
    modifies root, root.repr`left, root.repr`right, root.repr`parent, root.repr`idx, root.repr`lo, root.repr`hi,
      root.repr`color, root.repr`bh
    ensures Structure(root) && ColoursOk(root) && root.count == old(root.count)
    ensures root.repr == old(root.repr) - {z} && |root.nodes| == |old(root.nodes)| - 1
      && 0 <= old(z.idx) < |old(root.nodes)|
    ensures forall i {:trigger root.nodes[i]} :: 0 <= i < |root.nodes| ==>
      root.nodes[i] == old(root.nodes)[if i < old(z.idx) then i else i + 1]
  {
    assert NodeOk(root, z);
    var p := z.parent;
    var color := z.color;
    TakeOut(root, z, x);
    if color == BLACK {
      DeleteFixup(root, x, p);
    }
  }

  /** rb_delete when z has two children. */
  method DeleteInner(root: Root, z: Node)
    requires Structure(root) && ColoursOk(root) && z in root.repr && z.left != null && z.right != null
    modifies root, root.repr`left, root.repr`right, root.repr`parent, root.repr`idx, root.repr`lo, root.repr`hi,
      root.repr`color, root.repr`bh
    ensures Structure(root) && ColoursOk(root) && root.count == old(root.count)
    ensures root.repr == old(root.repr) - {z} && |root.nodes| == |old(root.nodes)| - 1
      && 0 <= old(z.idx) < |old(root.nodes)|
    ensures forall i {:trigger root.nodes[i]} :: 0 <= i < |root.nodes| ==>
      root.nodes[i] == old(root.nodes)[if i < old(z.idx) then i else i + 1]
  {
    assert NodeOk(root, z) && NodeOk(root, z.right);
    var y := Minimum(root, z.right);
    assert NodeOk(root, y);
    var x := y.right;
    var color := y.color;
    SuccessorPlace(root, z, y);
    var p := TakeOutInner(root, z, y, x);
    if color == BLACK {
      DeleteFixup(root, x, p);
    }
  }

  /** The three cases of rb_delete. */
  method Unlink(root: Root, z: Node)
    requires Structure(root) && ColoursOk(root) && z in root.repr
    modifies root, root.repr`left, root.repr`right, root.repr`parent, root.repr`idx, root.repr`lo, root.repr`hi,
      root.repr`color, root.repr`bh
    ensures Structure(root) && ColoursOk(root) && root.count == old(root.count)
    ensures root.repr == old(root.repr) - {z} && |root.nodes| == |old(root.nodes)| - 1
      && 0 <= old(z.idx) < |old(root.nodes)|
    ensures forall i {:trigger root.nodes[i]} :: 0 <= i < |root.nodes| ==>
      root.nodes[i] == old(root.nodes)[if i < old(z.idx) then i else i + 1]
  {
    if z.left == null {
      DeleteOuter(root, z, z.right);
    } else if z.right == null {
      DeleteOuter(root, z, z.left);
    } else {
      DeleteInner(root, z);
    }
  }

  /** rb_delete: the tree keeps exactly the other intervals. */
  method Delete(root: Root, node: Node)
    requires Valid(root) && node in root.repr
    modifies root, root.repr`left, root.repr`right, root.repr`parent, root.repr`idx, root.repr`lo, root.repr`hi,
      root.repr`color, root.repr`bh
    ensures Valid(root)
    ensures root.repr == old(root.repr) - {node}
    ensures 0 <= old(node.idx) < |old(root.nodes)| && old(root.nodes)[old(node.idx)] == node
    ensures root.nodes == old(root.nodes)[..old(node.idx)] + old(root.nodes)[old(node.idx) + 1..]
  {
    assert NodeOk(root, node);
    ghost var a, d := root.nodes, node.idx;
    Unlink(root, node);
    AscendingRemove(a, d, root.nodes);
    root.count := root.count - 1;
  }
}
