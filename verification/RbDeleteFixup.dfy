/** rb_delete_fixup of iosplitter/common/range_lock.c. In all of it x, a child of q or NULL, is where the
    paths are one black node short. */
module RbDeleteFixup {
  import opened RbTree
  import opened RbBalance

  lemma BlackIsNoException(root: Root, x: Node?, q: Node?)
    requires NearlyRb(root, x, x, q) && !IsRed(x)
    ensures NearlyRb(root, null, x, q)
  {
    forall n | n in root.repr && NodeOk(root, n) && (x == null || n.parent != x) ensures RedOk(n) {
    }
  }

  lemma RootIsNoException(root: Root, x: Node)
    requires Structure(root) && NearlyRb(root, null, null, null) && root.node == x
    ensures NearlyRb(root, x, x, null)
  {
    forall n | n in root.repr && NodeOk(root, n) ensures BhOk(n, x, null) {
      assert BhOk(n, null, null);
    }
    forall n | n in root.repr && NodeOk(root, n) ensures RedOk(n) {}
  }

  method PaintPush(root: Root, ghost q: Node, w: Node)
    requires q in root.repr && w in root.repr && q != w
    modifies root.repr`color, root.repr`bh
    ensures forall m {:trigger m.color} :: m in root.repr ==> m.color == if m == w then RED else old(m.color)
    ensures forall m {:trigger m.bh} :: m in root.repr ==> m.bh == if m == w || m == q then old(m.bh) - 1 else old(m.bh)
  {
    w.color := RED;
    w.bh, q.bh := w.bh - 1, q.bh - 1;
  }

  method PushUpCounts(root: Root, ghost x: Node?, q: Node, w: Node)
    requires Structure(root) && NearlyRb(root, null, x, q)
    requires q in root.repr && w in root.repr && w.parent == q && w != x && w.color == BLACK
    requires (q.left == x && q.right == w) || (q.left == w && q.right == x)
    requires !IsRed(w.left) && !IsRed(w.right) && !IsRed(x)
    modifies root.repr`color, root.repr`bh
    ensures Structure(root) && BhsOk(root, q, q.parent)
    ensures forall m {:trigger m.color} :: m in root.repr ==> m.color == if m == w then RED else old(m.color)
  {
    assert NodeOk(root, q) && NodeOk(root, w);
    assert BhOk(q, x, q) && BhOk(w, x, q);
    assert w.left != null ==> NodeOk(root, w.left) && BhOk(w.left, x, q);
    assert w.right != null ==> NodeOk(root, w.right) && BhOk(w.right, x, q);
    assert x != null ==> NodeOk(root, x) && BhOk(x, x, q);
    PaintPush(root, q, w);
    forall n | n in root.repr && NodeOk(root, n) ensures BhOk(n, q, q.parent) {
      assert old(NodeOk(root, n));
      assert old(BhOk(n, x, q));
    }
  }

  /** Both children of the sibling w are black: w turns red and the shortage moves up to q. */
  method PushUp(root: Root, ghost x: Node?, q: Node, w: Node)
    requires Structure(root) && NearlyRb(root, null, x, q)
    requires q in root.repr && w in root.repr && w.parent == q && w != x && w.color == BLACK
    requires (q.left == x && q.right == w) || (q.left == w && q.right == x)
    requires !IsRed(w.left) && !IsRed(w.right) && !IsRed(x)
    modifies root.repr`color, root.repr`bh
    ensures Structure(root) && NearlyRb(root, q, q, q.parent) && q.color == old(q.color)
  {
    assert NodeOk(root, q) && NodeOk(root, w);
    PushUpCounts(root, x, q, w);
    forall n | n in root.repr && NodeOk(root, n) && n != q && n.parent != q ensures RedOk(n) {
      assert old(NodeOk(root, n));
      assert old(RedOk(n));
    }
  }

  /** The counts around q and w between the recolouring that ends the fixup and the rotation that lifts w
      over q; l is w's inner child. */
  ghost predicate CuringCounts(root: Root, q: Node, w: Node, l: Node?)
    reads root, root.repr
  {
    && q in root.repr && w in root.repr && w.parent == q && (l == null || l in root.repr)
    && root.node in root.repr && !IsRed(root.node)
    && q.color == BLACK && 0 <= q.bh && w.bh == q.bh + Weight(w.color)
    && (q.parent == null ==> w.color == BLACK)
    && (q.parent != null && q.parent in root.repr ==>
          q.parent.bh == w.bh + Weight(q.parent.color) && !(w.color == RED && q.parent.color == RED))
    && (if l == null then q.bh == 1
        else 0 <= l.bh && q.bh == l.bh + 1 && (l.left == null || l.right == null ==> l.bh == Weight(l.color)))
    && (q.left == null || q.right == null ==> q.bh == 1)
  }

  ghost predicate Curing(root: Root, q: Node, w: Node, l: Node?)
    reads root, root.repr
  {
    && CuringCounts(root, q, w, l)
    && (forall n {:trigger BhOk(n, null, null)} ::
          n in root.repr && NodeOk(root, n) && n != q && n != w && n != l ==> BhOk(n, null, null))
    && (forall n {:trigger RedOk(n)} :: n in root.repr && NodeOk(root, n) && n != l && n != w ==> RedOk(n))
  }

  /** What the sibling w of x, its inner child l and its red outer child r have to do with each other. */
  ghost predicate Family(root: Root, x: Node?, q: Node, w: Node, l: Node?, r: Node)
    reads root, root.repr
  {
    && q in root.repr && w in root.repr && w.parent == q && w != x && w.color == BLACK
    && ((q.left == x && q.right == w) || (q.left == w && q.right == x))
    && r in root.repr && r.parent == w && r.color == RED && l != r
    && ((w.left == l && w.right == r) || (w.left == r && w.right == l))
    && !IsRed(if x in root.repr then x else null)
  }

  twostate predicate CurePainted(root: Root, q: Node, w: Node, r: Node)
    reads root, root.repr
  {
    && root.repr == old(root.repr) && q in root.repr && w in root.repr && r in root.repr
    && (forall m {:trigger m.color} :: m in root.repr ==>
      m.color == if m == w then old(q.color) else if m == q || m == r then BLACK else old(m.color))
    && (forall m {:trigger m.bh} :: m in root.repr ==>
      m.bh == if m == w then old(q.bh) else if m == q then old(w.bh) else if m == r then old(m.bh) + 1 else old(m.bh))
  }

  method PaintCureNodes(root: Root, q: Node, w: Node, r: Node)
    requires q in root.repr && w in root.repr && r in root.repr && q != w && q != r && w != r
    modifies root.repr`color, root.repr`bh
    ensures CurePainted(root, q, w, r)
  {
    w.color := q.color;
    q.color := BLACK;
    r.color := BLACK;
    w.bh, q.bh, r.bh := q.bh, w.bh, r.bh + 1;
  }

  method PaintCureCounts(root: Root, ghost x: Node?, q: Node, w: Node, ghost l: Node?, r: Node)
    requires Structure(root) && NearlyRb(root, null, x, q) && Family(root, x, q, w, l, r)
    modifies root.repr`color, root.repr`bh
    ensures CurePainted(root, q, w, r) && CuringCounts(root, q, w, l)
  {
    assert NodeOk(root, q) && NodeOk(root, w) && NodeOk(root, r);
    assert BhOk(q, x, q) && BhOk(w, x, q) && BhOk(r, x, q) && RedOk(q);
    assert l != null ==> NodeOk(root, l) && BhOk(l, x, q);
    assert x != null ==> NodeOk(root, x) && BhOk(x, x, q);
    assert q.parent != null ==> NodeOk(root, q.parent) && BhOk(q.parent, x, q);
    PaintCureNodes(root, q, w, r);
  }

  method PaintCure(root: Root, ghost x: Node?, q: Node, w: Node, ghost l: Node?, r: Node)
    requires Structure(root) && NearlyRb(root, null, x, q) && Family(root, x, q, w, l, r)
    modifies root.repr`color, root.repr`bh
    ensures Curing(root, q, w, l)
  {
    assert NodeOk(root, q) && NodeOk(root, w) && NodeOk(root, r);
    assert BhOk(q, x, q) && BhOk(w, x, q);
    assert x != null ==> NodeOk(root, x) && BhOk(x, x, q);
    PaintCureCounts(root, x, q, w, l, r);
    forall n | n in root.repr && NodeOk(root, n) && n != q && n != w && n != l ensures BhOk(n, null, null) {
      assert old(NodeOk(root, n));
      assert old(BhOk(n, x, q));
    }
    forall n | n in root.repr && NodeOk(root, n) && n != l && n != w ensures RedOk(n) {
      assert old(NodeOk(root, n));
      if x == null || n.parent != x { assert old(RedOk(n)); }
    }
  }

  method CureLeft(root: Root, q: Node, w: Node)
    requires Structure(root) && w in root.repr && q.right == w && w.right != null && Curing(root, q, w, w.left)
    modifies root`node, root.repr`left, root.repr`right, root.repr`parent, root.repr`lo, root.repr`hi
    ensures Structure(root) && NearlyRb(root, null, null, null)
  {
    ghost var l := w.left;
    assert NodeOk(root, q) && NodeOk(root, w) && NodeOk(root, w.right);
    assert BhOk(w.right, null, null) && RedOk(w.right);
    assert l != null ==> NodeOk(root, l);
    ghost var top := q.parent;
    RotateLeft(root, q);
    assert RotatedLeftAt(q, w, top, q) && RotatedLeftAt(q, w, top, w) && RotatedLeftAt(q, w, top, root.node);
    assert l != null ==> RotatedLeftAt(q, w, top, l);
    forall n | n in root.repr && NodeOk(root, n) ensures BhOk(n, null, null) {
      assert old(NodeOk(root, n)) && RotatedLeftAt(q, w, top, n);
      assert n.parent != null ==> n.parent in root.repr && RotatedLeftAt(q, w, top, n.parent);
      if n != w && n != q && n != l { assert old(BhOk(n, null, null)); }
    }
    forall n | n in root.repr && NodeOk(root, n) ensures RedOk(n) {
      assert old(NodeOk(root, n)) && RotatedLeftAt(q, w, top, n);
      assert n.parent != null ==> n.parent in root.repr && RotatedLeftAt(q, w, top, n.parent);
      if n != w && n != l { assert old(RedOk(n)); }
    }
  }

  method CureRight(root: Root, q: Node, w: Node)
    requires Structure(root) && w in root.repr && q.left == w && w.left != null && Curing(root, q, w, w.right)
    modifies root`node, root.repr`left, root.repr`right, root.repr`parent, root.repr`lo, root.repr`hi
    ensures Structure(root) && NearlyRb(root, null, null, null)
  {
    ghost var l := w.right;
    assert NodeOk(root, q) && NodeOk(root, w) && NodeOk(root, w.left);
    assert BhOk(w.left, null, null) && RedOk(w.left);
    assert l != null ==> NodeOk(root, l);
    ghost var top := q.parent;
    RotateRight(root, q);
    assert RotatedRightAt(q, w, top, q) && RotatedRightAt(q, w, top, w) && RotatedRightAt(q, w, top, root.node);
    assert l != null ==> RotatedRightAt(q, w, top, l);
    forall n | n in root.repr && NodeOk(root, n) ensures BhOk(n, null, null) {
      assert old(NodeOk(root, n)) && RotatedRightAt(q, w, top, n);
      assert n.parent != null ==> n.parent in root.repr && RotatedRightAt(q, w, top, n.parent);
      if n != w && n != q && n != l { assert old(BhOk(n, null, null)); }
    }
    forall n | n in root.repr && NodeOk(root, n) ensures RedOk(n) {
      assert old(NodeOk(root, n)) && RotatedRightAt(q, w, top, n);
      assert n.parent != null ==> n.parent in root.repr && RotatedRightAt(q, w, top, n.parent);
      if n != w && n != l { assert old(RedOk(n)); }
    }
  }

  /** The last statements of rb_delete_fixup. */
  method Blacken(root: Root, x: Node, ghost q: Node?)
    requires Structure(root) && NearlyRb(root, x, x, q) && x in root.repr && x.parent == q
    requires root.node == x || x.color == RED
    modifies root.repr`color, root.repr`bh
    ensures Structure(root) && NearlyRb(root, null, null, null)
  {
    assert NodeOk(root, x) && BhOk(x, x, q);
    assert q != null ==> NodeOk(root, q);
    PaintBlack(root, x);
    assert root.node.color == BLACK;
    forall n | n in root.repr && NodeOk(root, n) ensures BhOk(n, null, null) {
      assert old(NodeOk(root, n));
      assert old(BhOk(n, x, q));
    }
    forall n | n in root.repr && NodeOk(root, n) ensures RedOk(n) {
      assert old(NodeOk(root, n));
      if n != x && n.parent != x { assert old(RedOk(n)); }
    }
  }

  /** A red sibling of a left child: one rotation, and the new sibling is black. */
  method RedSiblingLeft(root: Root, ghost x: Node?, q: Node, w0: Node) returns (w: Node)
    requires Structure(root) && NearlyRb(root, null, x, q)
    requires q in root.repr && w0 in root.repr && q.left == x && q.right == w0 && w0.color == RED && !IsRed(x)
    modifies root`node, root.repr`left, root.repr`right, root.repr`parent, root.repr`lo, root.repr`hi, root.repr`color,
      root.repr`bh
    ensures Structure(root) && NearlyRb(root, null, x, q)
    ensures w in root.repr && q.left == x && q.right == w && w.color == BLACK && q.color == RED && !IsRed(x)
  {
    w := w0;
    assert NodeOk(root, q) && NodeOk(root, w) && BhOk(w, x, q) && BhOk(q, x, q) && RedOk(w);
    assert x != null ==> NodeOk(root, x) && BhOk(x, x, q);
    assert w.left != null ==> NodeOk(root, w.left) && RedOk(w.left);
    PaintLift(root, w, q, null, x, q);
    LiftRight(root, w, q, x, q);
    w := q.right;
    assert NodeOk(root, q);
  }

  /** A black sibling whose only red child is the inner one: one rotation brings a red child outside. */
  method NearNephewLeft(root: Root, ghost x: Node?, q: Node, w0: Node) returns (w: Node)
    requires Structure(root) && NearlyRb(root, null, x, q)
    requires q in root.repr && w0 in root.repr && q.left == x && q.right == w0 && w0.color == BLACK && !IsRed(x)
    requires IsRed(w0.left) && !IsRed(w0.right)
    modifies root`node, root.repr`left, root.repr`right, root.repr`parent, root.repr`lo, root.repr`hi, root.repr`color,
      root.repr`bh
    ensures Structure(root) && NearlyRb(root, null, x, q)
    ensures w in root.repr && q.left == x && q.right == w && w.color == BLACK && IsRed(w.right) && !IsRed(x)
  {
    w := w0;
    assert NodeOk(root, q) && NodeOk(root, w) && NodeOk(root, w.left);
    assert x != null ==> NodeOk(root, x);
    assert w.left.right != null ==> NodeOk(root, w.left.right) && RedOk(w.left.right);
    PaintLift(root, w.left, w, null, x, q);
    LiftLeft(root, w.left, w, x, q);
    w := q.right;
    assert NodeOk(root, q);
  }

  /** A black sibling with a red outer child: one rotation and the tree is red-black. */
  method FarNephewLeft(root: Root, ghost x: Node?, q: Node, w: Node)
    requires Structure(root) && NearlyRb(root, null, x, q)
    requires q in root.repr && w in root.repr && q.left == x && q.right == w && w.color == BLACK && !IsRed(x)
    requires IsRed(w.right)
    modifies root`node, root.repr`left, root.repr`right, root.repr`parent, root.repr`lo, root.repr`hi, root.repr`color,
      root.repr`bh
    ensures Structure(root) && NearlyRb(root, null, null, null)
  {
    assert NodeOk(root, q) && NodeOk(root, w) && NodeOk(root, w.right);
    assert w.left != null ==> NodeOk(root, w.left);
    PaintCure(root, x, q, w, w.left, w.right);
    CureLeft(root, q, w);
  }

  /** A black sibling with a red child: at most two rotations and the tree is red-black. */
  method CloseLeft(root: Root, ghost x: Node?, q: Node, w0: Node)
    requires Structure(root) && NearlyRb(root, null, x, q)
    requires q in root.repr && w0 in root.repr && q.left == x && q.right == w0 && w0.color == BLACK && !IsRed(x)
    requires IsRed(w0.left) || IsRed(w0.right)
    modifies root`node, root.repr`left, root.repr`right, root.repr`parent, root.repr`lo, root.repr`hi, root.repr`color,
      root.repr`bh
    ensures Structure(root) && NearlyRb(root, null, null, null)
  {
    var w := w0;
    if w.right == null || w.right.color == BLACK {
      w := NearNephewLeft(root, x, q, w);
    }
    FarNephewLeft(root, x, q, w);
  }

  /** One round of the loop for a left child x. */
  method RoundLeft(root: Root, x0: Node?, q: Node) returns (x: Node)
    requires Structure(root) && NearlyRb(root, x0, x0, q)
    requires q in root.repr && q.left == x0 && !IsRed(x0) && NodeOk(root, q)
    modifies root`node, root.repr`left, root.repr`right, root.repr`parent, root.repr`lo, root.repr`hi, root.repr`color,
      root.repr`bh
    ensures Structure(root) && x in root.repr && NearlyRb(root, x, x, x.parent)
    ensures x == root.node || x.color == RED || (x == q && q.lo == old(q.lo) && q.hi == old(q.hi))
  {
    BlackIsNoException(root, x0, q);
    assert BhOk(q, x0, q);
    assert x0 != null ==> NodeOk(root, x0) && BhOk(x0, x0, q);
    var w := q.right;
    assert w != null && NodeOk(root, w);
    if w.color == RED {
      w := RedSiblingLeft(root, x0, q, w);
    }
    if (w.left == null || w.left.color == BLACK) && (w.right == null || w.right.color == BLACK) {
      assert NodeOk(root, q) && NodeOk(root, w);
      PushUp(root, x0, q, w);
      x := q;
    } else {
      CloseLeft(root, x0, q, w);
      x := root.node;
      RootIsNoException(root, x);
    }
  }

  /** A red sibling of a right child: one rotation, and the new sibling is black. */
  method RedSiblingRight(root: Root, ghost x: Node?, q: Node, w0: Node) returns (w: Node)
    requires Structure(root) && NearlyRb(root, null, x, q)
    requires q in root.repr && w0 in root.repr && q.right == x && q.left == w0 && w0.color == RED && !IsRed(x)
    modifies root`node, root.repr`right, root.repr`left, root.repr`parent, root.repr`lo, root.repr`hi, root.repr`color,
      root.repr`bh
    ensures Structure(root) && NearlyRb(root, null, x, q)
    ensures w in root.repr && q.right == x && q.left == w && w.color == BLACK && q.color == RED && !IsRed(x)
  {
    w := w0;
    assert NodeOk(root, q) && NodeOk(root, w) && BhOk(w, x, q) && BhOk(q, x, q) && RedOk(w);
    assert x != null ==> NodeOk(root, x) && BhOk(x, x, q);
    assert w.right != null ==> NodeOk(root, w.right) && RedOk(w.right);
    PaintLift(root, w, q, null, x, q);
    LiftLeft(root, w, q, x, q);
    w := q.left;
    assert NodeOk(root, q);
  }

  /** A black sibling whose only red child is the inner one: one rotation brings a red child outside. */
  method NearNephewRight(root: Root, ghost x: Node?, q: Node, w0: Node) returns (w: Node)
    requires Structure(root) && NearlyRb(root, null, x, q)
    requires q in root.repr && w0 in root.repr && q.right == x && q.left == w0 && w0.color == BLACK && !IsRed(x)
    requires IsRed(w0.right) && !IsRed(w0.left)
    modifies root`node, root.repr`right, root.repr`left, root.repr`parent, root.repr`lo, root.repr`hi, root.repr`color,
      root.repr`bh
    ensures Structure(root) && NearlyRb(root, null, x, q)
    ensures w in root.repr && q.right == x && q.left == w && w.color == BLACK && IsRed(w.left) && !IsRed(x)
  {
    w := w0;
    assert NodeOk(root, q) && NodeOk(root, w) && NodeOk(root, w.right);
    assert x != null ==> NodeOk(root, x);
    assert w.right.left != null ==> NodeOk(root, w.right.left) && RedOk(w.right.left);
    PaintLift(root, w.right, w, null, x, q);
    LiftRight(root, w.right, w, x, q);
    w := q.left;
    assert NodeOk(root, q);
  }

  /** A black sibling with a red outer child: one rotation and the tree is red-black. */
  method FarNephewRight(root: Root, ghost x: Node?, q: Node, w: Node)
    requires Structure(root) && NearlyRb(root, null, x, q)
    requires q in root.repr && w in root.repr && q.right == x && q.left == w && w.color == BLACK && !IsRed(x)
    requires IsRed(w.left)
    modifies root`node, root.repr`left, root.repr`right, root.repr`parent, root.repr`lo, root.repr`hi, root.repr`color,
      root.repr`bh
    ensures Structure(root) && NearlyRb(root, null, null, null)
  {
    assert NodeOk(root, q) && NodeOk(root, w) && NodeOk(root, w.left);
    assert w.right != null ==> NodeOk(root, w.right);
    PaintCure(root, x, q, w, w.right, w.left);
    CureRight(root, q, w);
  }

  /** A black sibling with a red child: at most two rotations and the tree is red-black. */
  method CloseRight(root: Root, ghost x: Node?, q: Node, w0: Node)
    requires Structure(root) && NearlyRb(root, null, x, q)
    requires q in root.repr && w0 in root.repr && q.right == x && q.left == w0 && w0.color == BLACK && !IsRed(x)
    requires IsRed(w0.right) || IsRed(w0.left)
    modifies root`node, root.repr`left, root.repr`right, root.repr`parent, root.repr`lo, root.repr`hi, root.repr`color,
      root.repr`bh
    ensures Structure(root) && NearlyRb(root, null, null, null)
  {
    var w := w0;
    if w.left == null || w.left.color == BLACK {
      w := NearNephewRight(root, x, q, w);
    }
    FarNephewRight(root, x, q, w);
  }

  /** One round of the loop for a right child x. */
  method RoundRight(root: Root, x0: Node?, q: Node) returns (x: Node)
    requires Structure(root) && NearlyRb(root, x0, x0, q)
    requires q in root.repr && q.right == x0 && !IsRed(x0) && NodeOk(root, q)
    modifies root`node, root.repr`right, root.repr`left, root.repr`parent, root.repr`lo, root.repr`hi, root.repr`color,
      root.repr`bh
    ensures Structure(root) && x in root.repr && NearlyRb(root, x, x, x.parent)
    ensures x == root.node || x.color == RED || (x == q && q.lo == old(q.lo) && q.hi == old(q.hi))
  {
    BlackIsNoException(root, x0, q);
    assert BhOk(q, x0, q);
    assert x0 != null ==> NodeOk(root, x0) && BhOk(x0, x0, q);
    var w := q.left;
    assert w != null && NodeOk(root, w);
    if w.color == RED {
      w := RedSiblingRight(root, x0, q, w);
    }
    if (w.right == null || w.right.color == BLACK) && (w.left == null || w.left.color == BLACK) {
      assert NodeOk(root, q) && NodeOk(root, w);
      PushUp(root, x0, q, w);
      x := q;
    } else {
      CloseRight(root, x0, q, w);
      x := root.node;
      RootIsNoException(root, x);
    }
  }

  /** rb_delete_fixup, called on what a deletion leaves: the tree is red-black again. */
  method DeleteFixup(root: Root, node: Node?, parent0: Node?)
    requires Structure(root) && (root.node == null || NearlyRb(root, node, node, parent0))
    requires parent0 != null ==> parent0 in root.repr
    requires node != null ==> node in root.repr && node.parent == parent0
    requires node == null && parent0 != null ==> parent0.left == null || parent0.right == null
    modifies root`node, root.repr`left, root.repr`right, root.repr`parent, root.repr`lo, root.repr`hi, root.repr`color,
      root.repr`bh
    ensures Structure(root) && ColoursOk(root)
  {
    if root.node == null {
      return;
    }
    if node == null && parent0 == null {
      return;
    }
    var parent := parent0;
    var x := node;
    ghost var q := parent0;
    while root.node != x && (x == null || x.color == BLACK)
      invariant Structure(root) && NearlyRb(root, x, x, q)
      invariant q != null ==> q in root.repr
      invariant x == null ==> q == parent && q != null && (q.left == null || q.right == null)
      invariant x != null ==> x in root.repr && x.parent == q
      decreases if root.node != x && (x == null || x.color == BLACK)
                then 1 + |root.nodes| - (if x == null then 0 else x.hi - x.lo) else 0
    {
      if x != null {
        parent := x.parent;
        assert NodeOk(root, x);
      }
      assert NodeOk(root, parent);
      if x == parent.left {
        x := RoundLeft(root, x, parent);
      } else {
        x := RoundRight(root, x, parent);
      }
      q := x.parent;
      assert NodeOk(root, x);
    }
    Blacken(root, x, q);
  }
}
