/** The recolourings and rotations shared by rb_insert_fixup and rb_delete_fixup
    (iosplitter/common/range_lock.c). */
module RbBalance {
  import opened RbTree

  /** The state between recolouring p and its parent g and the rotation that lifts p over g. */
  ghost predicate Lifting(root: Root, p: Node, g: Node, x: Node?, q: Node?)
    reads root, root.repr
  {
    && p in root.repr && g in root.repr && p.parent == g && p != x && p != q && g != x
    && p.color == BLACK && g.color == RED && p.bh == g.bh + 1 && 0 <= g.bh
    && root.node in root.repr && (IsRed(root.node) ==> root.node == g)
    && (x == null && q in root.repr ==> (q.left == null) != (q.right == null))
    && (forall n {:trigger BhOk(n, x, q)} :: n in root.repr && NodeOk(root, n) && n != p && n != g ==> BhOk(n, x, q))
    && (forall n {:trigger RedOk(n)} ::
      n in root.repr && NodeOk(root, n) && n != p && n != g && (x == null || n.parent != x) ==> RedOk(n))
    && (g.parent != null && g.parent in root.repr ==> g.parent.bh == p.bh + Weight(g.parent.color))
    && (g.left == null || g.right == null ==> g.bh == if x == null && g == q then 1 else 0)
    && (p.left == null || p.right == null ==> p.bh == 1)
  }

  twostate predicate Painted(root: Root, p: Node, g: Node)
    reads root, root.repr
  {
    && root.repr == old(root.repr)
    && (forall m {:trigger m.color} :: m in root.repr ==>
          m.color == if m == p then BLACK else if m == g then RED else old(m.color))
    && (forall m {:trigger m.bh} :: m in root.repr ==>
          m.bh == if m == p then old(m.bh) + 1 else if m == g then old(m.bh) - 1 else old(m.bh))
  }

  method PaintSwap(root: Root, p: Node, g: Node)
    requires p in root.repr && g in root.repr && p != g
    modifies root.repr`color, root.repr`bh
    ensures Painted(root, p, g)
  {
    p.color := BLACK;
    g.color := RED;
    p.bh, g.bh := p.bh + 1, g.bh - 1;
  }

  method PaintReds(root: Root, p: Node, g: Node, ghost z: Node?, ghost x: Node?, ghost q: Node?)
    requires Structure(root) && NearlyRb(root, z, x, q)
    requires p in root.repr && g in root.repr && g == p.parent && p != z && p != x && p != q && g != x
    requires z != null ==> z.parent == p
    requires p.color == RED && !IsRed(if g.left == p then g.right else g.left)
    modifies root.repr`color, root.repr`bh
    ensures Painted(root, p, g)
    ensures forall n {:trigger RedOk(n)} ::
      n in root.repr && NodeOk(root, n) && n != p && n != g && (x == null || n.parent != x) ==> RedOk(n)
  {
    assert NodeOk(root, p) && NodeOk(root, g);
    ghost var u := if g.left == p then g.right else g.left;
    PaintSwap(root, p, g);
    forall n | n in root.repr && NodeOk(root, n) && n != p && n != g && (x == null || n.parent != x) ensures RedOk(n) {
      assert old(NodeOk(root, n));
      if n != z { assert old(RedOk(n)); }
    }
  }

  method PaintLift(root: Root, p: Node, g: Node, ghost z: Node?, ghost x: Node?, ghost q: Node?)
    requires Structure(root) && NearlyRb(root, z, x, q)
    requires p in root.repr && g in root.repr && g == p.parent && p != z && p != x && p != q && g != x
    requires z != null ==> z.parent == p
    requires p.color == RED && !IsRed(if g.left == p then g.right else g.left)
    modifies root.repr`color, root.repr`bh
    ensures Structure(root) && Lifting(root, p, g, x, q)
    ensures forall m {:trigger m.color} :: m in root.repr && m != p && m != g ==> m.color == old(m.color)
  {
    assert NodeOk(root, p) && NodeOk(root, g);
    assert BhOk(p, x, q) && BhOk(g, x, q);
    assert RedOk(p);
    PaintReds(root, p, g, z, x, q);
    forall n | n in root.repr && NodeOk(root, n) && n != p && n != g ensures BhOk(n, x, q) {
      assert old(NodeOk(root, n));
      assert old(BhOk(n, x, q));
    }
  }

  /** p has climbed over its parent g to below top, g's parent before, and p's inner child has become g's. */
  twostate predicate Climbed(p: Node, g: Node, top: Node?)
    reads p, g, Opt(top)
  {
    && p.parent == top && g.parent == p
    && (if old(g.left) == p then
          p.left == old(p.left) && p.right == g && g.left == old(p.right) && g.right == old(g.right)
        else
          p.right == old(p.right) && p.left == g && g.right == old(p.left) && g.left == old(g.left))
    && (top != null ==>
          if old(top.left) == g then top.left == p && top.right == old(top.right)
          else top.left == old(top.left) && top.right == p)
  }

  method LiftLeftCounts(root: Root, p: Node, g: Node, ghost x: Node?, ghost q: Node?)
    requires Structure(root) && Lifting(root, p, g, x, q) && g.left == p && !IsRed(p.right)
    modifies root`node, root.repr`left, root.repr`right, root.repr`parent, root.repr`lo, root.repr`hi
    ensures Structure(root) && BhsOk(root, x, q)
    ensures RotatedRight(root, g, p, old(g.parent))
  {
    assert NodeOk(root, p) && NodeOk(root, g);
    ghost var b, top := p.right, g.parent;
    assert b != null ==> NodeOk(root, b) && BhOk(b, x, q);
    RotateRight(root, g);
    forall n | n in root.repr && NodeOk(root, n) ensures BhOk(n, x, q) {
      assert old(NodeOk(root, n)) && RotatedRightAt(g, p, top, n);
      assert n.parent != null ==> n.parent in root.repr && RotatedRightAt(g, p, top, n.parent);
      if n != p && n != g { assert old(BhOk(n, x, q)); }
    }
  }

  method LiftLeft(root: Root, p: Node, g: Node, ghost x: Node?, ghost q: Node?)
    requires Structure(root) && Lifting(root, p, g, x, q) && g.left == p && !IsRed(p.right)
    modifies root`node, root.repr`left, root.repr`right, root.repr`parent, root.repr`lo, root.repr`hi
    ensures Structure(root) && NearlyRb(root, null, x, q)
    ensures Climbed(p, g, old(g.parent))
  {
    assert NodeOk(root, p) && NodeOk(root, g);
    ghost var b, top := p.right, g.parent;
    assert b != null ==> NodeOk(root, b);
    LiftLeftCounts(root, p, g, x, q);
    assert (top != null ==> RotatedRightAt(g, p, top, top)) && RotatedRightAt(g, p, top, g);
    assert RotatedRightAt(g, p, top, p) && RotatedRightAt(g, p, top, root.node);
    assert q in root.repr ==> RotatedRightAt(g, p, top, q);
    forall n | n in root.repr && NodeOk(root, n) && (x == null || n.parent != x) ensures RedOk(n) {
      assert old(NodeOk(root, n)) && RotatedRightAt(g, p, top, n);
      if n != p && n != g { assert old(RedOk(n)); }
    }
  }

  method LiftRightCounts(root: Root, p: Node, g: Node, ghost x: Node?, ghost q: Node?)
    requires Structure(root) && Lifting(root, p, g, x, q) && g.right == p && !IsRed(p.left)
    modifies root`node, root.repr`left, root.repr`right, root.repr`parent, root.repr`lo, root.repr`hi
    ensures Structure(root) && BhsOk(root, x, q)
    ensures RotatedLeft(root, g, p, old(g.parent))
  {
    assert NodeOk(root, p) && NodeOk(root, g);
    ghost var b, top := p.left, g.parent;
    assert b != null ==> NodeOk(root, b) && BhOk(b, x, q);
    RotateLeft(root, g);
    forall n | n in root.repr && NodeOk(root, n) ensures BhOk(n, x, q) {
      assert old(NodeOk(root, n)) && RotatedLeftAt(g, p, top, n);
      assert n.parent != null ==> n.parent in root.repr && RotatedLeftAt(g, p, top, n.parent);
      if n != p && n != g { assert old(BhOk(n, x, q)); }
    }
  }

  method LiftRight(root: Root, p: Node, g: Node, ghost x: Node?, ghost q: Node?)
    requires Structure(root) && Lifting(root, p, g, x, q) && g.right == p && !IsRed(p.left)
    modifies root`node, root.repr`left, root.repr`right, root.repr`parent, root.repr`lo, root.repr`hi
    ensures Structure(root) && NearlyRb(root, null, x, q)
    ensures Climbed(p, g, old(g.parent))
  {
    assert NodeOk(root, p) && NodeOk(root, g);
    ghost var b, top := p.left, g.parent;
    assert b != null ==> NodeOk(root, b);
    LiftRightCounts(root, p, g, x, q);
    assert (top != null ==> RotatedLeftAt(g, p, top, top)) && RotatedLeftAt(g, p, top, g);
    assert RotatedLeftAt(g, p, top, p) && RotatedLeftAt(g, p, top, root.node);
    assert q in root.repr ==> RotatedLeftAt(g, p, top, q);
    forall n | n in root.repr && NodeOk(root, n) && (x == null || n.parent != x) ensures RedOk(n) {
      assert old(NodeOk(root, n)) && RotatedLeftAt(g, p, top, n);
      if n != p && n != g { assert old(RedOk(n)); }
    }
  }

  /** rotate_left at a red node whose right child z is red too: the two change places. */
  method RotateRedLeft(root: Root, p: Node, z: Node)
    requires Structure(root) && NearlyRb(root, z, null, null)
    requires p in root.repr && z in root.repr && p.right == z && p.color == z.color == RED
    modifies root`node, root.repr`left, root.repr`right, root.repr`parent, root.repr`lo, root.repr`hi
    ensures Structure(root) && NearlyRb(root, p, null, null)
    ensures Climbed(z, p, old(p.parent))
  {
    assert NodeOk(root, p) && NodeOk(root, z);
    assert BhOk(p, null, null) && BhOk(z, null, null);
    ghost var b := z.left;
    assert b != null ==> NodeOk(root, b) && BhOk(b, null, null) && RedOk(b);
    assert RedOk(p);
    ghost var top := p.parent;
    RotateLeft(root, p);
    assert RotatedLeftAt(p, z, top, p) && RotatedLeftAt(p, z, top, z) && RotatedLeftAt(p, z, top, root.node);
    assert (b != null ==> RotatedLeftAt(p, z, top, b)) && (top != null ==> RotatedLeftAt(p, z, top, top));
    forall n | n in root.repr && NodeOk(root, n) ensures BhOk(n, null, null) {
      assert old(NodeOk(root, n)) && RotatedLeftAt(p, z, top, n);
      assert n.parent != null ==> n.parent in root.repr && RotatedLeftAt(p, z, top, n.parent);
      assert old(BhOk(n, null, null));
    }
    forall n | n in root.repr && NodeOk(root, n) && n != p ensures RedOk(n) {
      assert old(NodeOk(root, n)) && RotatedLeftAt(p, z, top, n);
      assert n.parent != null ==> n.parent in root.repr && RotatedLeftAt(p, z, top, n.parent);
      if n != z { assert old(RedOk(n)); }
    }
  }

  /** rotate_right at a red node whose left child z is red too: the two change places. */
  method RotateRedRight(root: Root, p: Node, z: Node)
    requires Structure(root) && NearlyRb(root, z, null, null)
    requires p in root.repr && z in root.repr && p.left == z && p.color == z.color == RED
    modifies root`node, root.repr`left, root.repr`right, root.repr`parent, root.repr`lo, root.repr`hi
    ensures Structure(root) && NearlyRb(root, p, null, null)
    ensures Climbed(z, p, old(p.parent))
  {
    assert NodeOk(root, p) && NodeOk(root, z);
    assert BhOk(p, null, null) && BhOk(z, null, null);
    ghost var b := z.right;
    assert b != null ==> NodeOk(root, b) && BhOk(b, null, null) && RedOk(b);
    assert RedOk(p);
    ghost var top := p.parent;
    RotateRight(root, p);
    assert RotatedRightAt(p, z, top, p) && RotatedRightAt(p, z, top, z) && RotatedRightAt(p, z, top, root.node);
    assert (b != null ==> RotatedRightAt(p, z, top, b)) && (top != null ==> RotatedRightAt(p, z, top, top));
    forall n | n in root.repr && NodeOk(root, n) ensures BhOk(n, null, null) {
      assert old(NodeOk(root, n)) && RotatedRightAt(p, z, top, n);
      assert n.parent != null ==> n.parent in root.repr && RotatedRightAt(p, z, top, n.parent);
      assert old(BhOk(n, null, null));
    }
    forall n | n in root.repr && NodeOk(root, n) && n != p ensures RedOk(n) {
      assert old(NodeOk(root, n)) && RotatedRightAt(p, z, top, n);
      assert n.parent != null ==> n.parent in root.repr && RotatedRightAt(p, z, top, n.parent);
      if n != z { assert old(RedOk(n)); }
    }
  }

  method PaintBlack(root: Root, x: Node)
    requires x in root.repr
    modifies root.repr`color, root.repr`bh
    ensures forall m {:trigger m.color} :: m in root.repr ==> m.color == if m == x then BLACK else old(m.color)
    ensures forall m {:trigger m.bh} ::
      m in root.repr ==> m.bh == if m == x && old(x.color) == RED then old(m.bh) + 1 else old(m.bh)
  {
    x.bh := if x.color == RED then x.bh + 1 else x.bh;
    x.color := BLACK;
  }
}
