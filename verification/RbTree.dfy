/** The red-black interval tree of iosplitter/common/range_lock.c as a heap structure: nodes, roots,
    what a well-formed tree is, and the two rotations.

    Every condition on the tree is local: it speaks of one node and the nodes one link away. What makes
    that enough is a ghost numbering. Root.nodes lists the nodes in order, Node.idx is a node's place in
    that list, and lo..hi is the stretch of the list its subtree holds. */
module RbTree {

  datatype Color = BLACK | RED

  class Node {
    var parent: Node?
    var left: Node?
    var right: Node?
    var color: Color
    var start: nat
    var end: nat
    var refcount: int
    // rendez.waiting: the tasks asleep on this node, first come first
    var waiting: seq<nat>
    ghost var idx: int
    ghost var lo: int
    ghost var hi: int
    // the number of black nodes on every path from this node (included) down to a leaf
    ghost var bh: int

    constructor ()
      ensures parent == null && left == null && right == null && color == RED
      ensures start == 0 && end == 0 && waiting == []
    {
      parent, left, right := null, null, null;
      color := RED;
      start, end := 0, 0;
      waiting := [];
    }
  }

  class Root {
    var node: Node?
    var count: nat
    ghost var repr: set<Node>
    ghost var nodes: seq<Node>

    constructor ()
      ensures node == null && count == 0 && repr == {} && nodes == []
    {
      node, count := null, 0;
      repr, nodes := {}, [];
    }
  }

  ghost predicate LeftOk(root: Root, n: Node)
    requires n in root.repr
    reads root`repr, root.repr`parent, root.repr`left, root.repr`idx, root.repr`lo, root.repr`hi
  {
    if n.left == null then n.lo == n.idx
    else n.left in root.repr && n.left.parent == n && n.left.lo == n.lo && n.left.hi == n.idx
  }

  ghost predicate RightOk(root: Root, n: Node)
    requires n in root.repr
    reads root`repr, root.repr`parent, root.repr`right, root.repr`idx, root.repr`lo, root.repr`hi
  {
    if n.right == null then n.hi == n.idx + 1
    else n.right in root.repr && n.right.parent == n && n.right.lo == n.idx + 1 && n.right.hi == n.hi
  }

  ghost predicate PlaceOk(root: Root, n: Node)
    reads root`nodes, n`idx, n`lo, n`hi
  {
    0 <= n.lo <= n.idx < n.hi <= |root.nodes| && root.nodes[n.idx] == n
  }

  /** What the shape of the tree asks of one node. */
  ghost predicate NodeOk(root: Root, n: Node)
    requires n in root.repr
    reads root`repr, root`node, root`nodes, root.repr`parent, root.repr`left, root.repr`right, root.repr`idx,
      root.repr`lo, root.repr`hi
  {
    && PlaceOk(root, n)
    && LeftOk(root, n)
    && RightOk(root, n)
    && (if n.parent == null then n == root.node
        else n.parent in root.repr && (n.parent.left == n || n.parent.right == n))
  }

  ghost predicate Indexed(root: Root)
    reads root`repr, root`nodes, root.repr`idx
  {
    forall i :: 0 <= i < |root.nodes| ==> root.nodes[i] in root.repr && root.nodes[i].idx == i
  }

  ghost predicate Rooted(root: Root)
    reads root`repr, root`node, root`nodes, root.repr`parent, root.repr`left, root.repr`right, root.repr`idx,
      root.repr`lo, root.repr`hi
  {
    && (root.node == null ==> root.repr == {} && root.nodes == [])
    && (root.node != null ==>
          root.node in root.repr && root.node.parent == null && root.node.lo == 0 && root.node.hi == |root.nodes|)
    && Indexed(root)
  }

  /** The pointers form a binary tree over repr whose in-order sequence is nodes. */
  ghost predicate Structure(root: Root)
    reads root`repr, root`node, root`nodes, root.repr`parent, root.repr`left, root.repr`right, root.repr`idx,
      root.repr`lo, root.repr`hi
  {
    && Rooted(root)
    && (forall n {:trigger NodeOk(root, n)} :: n in root.repr ==> NodeOk(root, n))
  }

  ghost function Opt(n: Node?): set<Node> {
    if n == null then {} else {n}
  }

  ghost function Weight(c: Color): int {
    if c == BLACK then 1 else 0
  }

  predicate IsRed(n: Node?)
    reads Opt(n)`color
  {
    n != null && n.color == RED
  }

  /** The black count of n, checked against its parent and, where n has a NULL child, against that leaf.
      x, a child of q or NULL, is where a deletion has left a path one black node short. */
  ghost predicate BhOk(n: Node, x: Node?, q: Node?)
    reads n`parent, n`left, n`right, n`color, n`bh, Opt(n.parent)`color, Opt(n.parent)`bh
  {
    && 0 <= n.bh
    && (n.parent != null ==> n.parent.bh == n.bh + Weight(n.parent.color) + if n == x then 1 else 0)
    && (n.left == null || n.right == null ==> n.bh == Weight(n.color) + if x == null && n == q then 1 else 0)
  }

  /** n and its parent are not both red. */
  ghost predicate RedOk(n: Node)
    reads n`parent, n`color, Opt(n.parent)`color
  {
    !(n.color == RED && IsRed(n.parent))
  }

  ghost predicate BhsOk(root: Root, x: Node?, q: Node?)
    reads root`repr, root`node, root`nodes, root.repr`parent, root.repr`left, root.repr`right, root.repr`idx,
      root.repr`lo, root.repr`hi, root.repr`color, root.repr`bh
  {
    forall n {:trigger BhOk(n, x, q)} :: n in root.repr && NodeOk(root, n) ==> BhOk(n, x, q)
  }

  /** No node but z has a red parent, children of x aside. */
  ghost predicate RedsOk(root: Root, z: Node?, x: Node?)
    reads root`repr, root`node, root`nodes, root.repr`parent, root.repr`left, root.repr`right, root.repr`idx,
      root.repr`lo, root.repr`hi, root.repr`color, root.repr`bh
  {
    forall n {:trigger RedOk(n)} ::
      n in root.repr && NodeOk(root, n) && n != z && (x == null || n.parent != x) ==> RedOk(n)
  }

  /** A non-empty red-black tree, except that z may be a red root or a red child of a red node, and that the
      paths through x, or through q's missing child if x is NULL, may be one black node short. */
  ghost predicate NearlyRb(root: Root, z: Node?, x: Node?, q: Node?)
    reads root`repr, root`node, root`nodes, root.repr`parent, root.repr`left, root.repr`right, root.repr`idx,
      root.repr`lo, root.repr`hi, root.repr`color, root.repr`bh
  {
    && root.node in root.repr
    && (IsRed(root.node) ==> root.node == z)
    && (x == null && q in root.repr ==> (q.left == null) != (q.right == null))
    && BhsOk(root, x, q)
    && RedsOk(root, z, x)
  }

  ghost predicate ColoursOk(root: Root)
    reads root`repr, root`node, root`nodes, root.repr`parent, root.repr`left, root.repr`right, root.repr`idx,
      root.repr`lo, root.repr`hi, root.repr`color, root.repr`bh
  {
    root.node == null || NearlyRb(root, null, null, null)
  }

  /** Field by field, what a left rotation at node changes in m; nr is node's right child, np its parent. */
  twostate predicate RotatedLeftAt(node: Node, nr: Node, np: Node?, m: Node)
    reads m
  {
    && m.left == (if m == nr then node else if m == np && old(m.left) == node then nr else old(m.left))
    && m.right == (if m == node then old(nr.left) else if m == np && old(m.left) != node then nr else old(m.right))
    && m.parent == (if m == node then nr else if m == nr then np else if m == old(nr.left) then node
                    else old(m.parent))
    && m.lo == (if m == nr then old(node.lo) else old(m.lo))
    && m.hi == (if m == node then old(nr.idx) else old(m.hi))
  }

  twostate predicate RotatedLeft(root: Root, node: Node, nr: Node, np: Node?)
    reads root, root.repr
  {
    && root.repr == old(root.repr)
    && root.node == (if np == null then nr else old(root.node))
    && (forall m {:trigger RotatedLeftAt(node, nr, np, m)} :: m in root.repr ==> RotatedLeftAt(node, nr, np, m))
  }

  /** The same for a right rotation; nl is node's left child. */
  twostate predicate RotatedRightAt(node: Node, nl: Node, np: Node?, m: Node)
    reads m
  {
    && m.left == (if m == node then old(nl.right) else if m == np && old(m.left) == node then nl else old(m.left))
    && m.right == (if m == nl then node else if m == np && old(m.left) != node then nl else old(m.right))
    && m.parent == (if m == node then nl else if m == nl then np else if m == old(nl.right) then node
                    else old(m.parent))
    && m.lo == (if m == node then old(nl.idx) + 1 else old(m.lo))
    && m.hi == (if m == nl then old(node.hi) else old(m.hi))
  }

  twostate predicate RotatedRight(root: Root, node: Node, nl: Node, np: Node?)
    reads root, root.repr
  {
    && root.repr == old(root.repr)
    && root.node == (if np == null then nl else old(root.node))
    && (forall m {:trigger RotatedRightAt(node, nl, np, m)} :: m in root.repr ==> RotatedRightAt(node, nl, np, m))
  }

  /** The assignments of rotate_left. */
  method RelinkLeft(root: Root, node: Node)
    requires node in root.repr && node.right != null && node.right in root.repr
    requires node.right != node && node.parent != node && node.parent != node.right
    requires node.parent != null ==> node.parent in root.repr
    requires node.right.left != null ==>
      node.right.left in root.repr && node.right.left !in {node, node.right} && node.right.left != node.parent
    requires node.right.parent == node && (node.parent == null ==> root.node == node)
    modifies root`node, root.repr`left, root.repr`right, root.repr`parent, root.repr`lo, root.repr`hi
    ensures RotatedLeft(root, node, old(node.right), old(node.parent))
  {
    var nr := node.right;
    var np := node.parent;
    assert nr.parent == node;
    node.right := nr.left;
    nr.left := node;
    if np == null {
      assert root.node == node;
      root.node := nr;
    } else {
      if np.left == node {
        np.left := nr;
      } else {
        np.right := nr;
      }
    }
    node.parent := nr;
    nr.parent := np;
    if node.right != null {
      node.right.parent := node;
    }
    nr.lo := node.lo;
    node.hi := nr.idx;
  }

  method TurnLeft(root: Root, node: Node)
    requires Structure(root) && node in root.repr && node.right != null && NodeOk(root, node)
    modifies root`node, root.repr`left, root.repr`right, root.repr`parent, root.repr`lo, root.repr`hi
    ensures RotatedLeft(root, node, old(node.right), old(node.parent))
    ensures forall n {:trigger LeftOk(root, n)} :: n in root.repr ==> LeftOk(root, n)
    ensures forall n {:trigger RightOk(root, n)} :: n in root.repr ==> RightOk(root, n)
  {
    ghost var c, p := node.right, node.parent;
    assert NodeOk(root, c);
    assert c.left != null ==> NodeOk(root, c.left);
    assert p != null ==> NodeOk(root, p);
    RelinkLeft(root, node);
    forall n | n in root.repr ensures LeftOk(root, n) {
      assert old(NodeOk(root, n)) && RotatedLeftAt(node, c, p, n);
      assert n.left != null ==> n.left in root.repr && RotatedLeftAt(node, c, p, n.left);
    }
    forall n | n in root.repr ensures RightOk(root, n) {
      assert old(NodeOk(root, n)) && RotatedLeftAt(node, c, p, n);
      assert n.right != null ==> n.right in root.repr && RotatedLeftAt(node, c, p, n.right);
    }
  }

  /** rotate_left: the tree keeps its in-order sequence, its colours and its black counts. */
  method RotateLeft(root: Root, node: Node)
    requires Structure(root) && node in root.repr && node.right != null
    modifies root`node, root.repr`left, root.repr`right, root.repr`parent, root.repr`lo, root.repr`hi
    ensures Structure(root)
    ensures RotatedLeft(root, node, old(node.right), old(node.parent))
  {
    assert NodeOk(root, node);
    assert NodeOk(root, node.right);
    assert node.right.left != null ==> NodeOk(root, node.right.left);
    assert node.parent != null ==> NodeOk(root, node.parent);
    ghost var c, p := node.right, node.parent;
    TurnLeft(root, node);
    assert RotatedLeftAt(node, c, p, root.node);
    forall n | n in root.repr ensures NodeOk(root, n) {
      assert LeftOk(root, n) && RightOk(root, n);
      assert old(NodeOk(root, n)) && RotatedLeftAt(node, c, p, n);
      assert n.parent != null ==> n.parent in root.repr && RotatedLeftAt(node, c, p, n.parent);
    }
  }

  /** The assignments of rotate_right. */
  method RelinkRight(root: Root, node: Node)
    requires node in root.repr && node.left != null && node.left in root.repr
    requires node.left != node && node.parent != node && node.parent != node.left
    requires node.parent != null ==> node.parent in root.repr
    requires node.left.right != null ==>
      node.left.right in root.repr && node.left.right !in {node, node.left} && node.left.right != node.parent
    requires node.left.parent == node && (node.parent == null ==> root.node == node)
    modifies root`node, root.repr`left, root.repr`right, root.repr`parent, root.repr`lo, root.repr`hi
    ensures RotatedRight(root, node, old(node.left), old(node.parent))
  {
    var nl := node.left;
    var np := node.parent;
    assert nl.parent == node;
    node.left := nl.right;
    nl.right := node;
    if np == null {
      assert root.node == node;
      root.node := nl;
    } else {
      if np.left == node {
        np.left := nl;
      } else {
        np.right := nl;
      }
    }
    node.parent := nl;
    nl.parent := np;
    if node.left != null {
      node.left.parent := node;
    }
    nl.hi := node.hi;
    node.lo := nl.idx + 1;
  }

  method TurnRight(root: Root, node: Node)
    requires Structure(root) && node in root.repr && node.left != null && NodeOk(root, node)
    modifies root`node, root.repr`left, root.repr`right, root.repr`parent, root.repr`lo, root.repr`hi
    ensures RotatedRight(root, node, old(node.left), old(node.parent))
    ensures forall n {:trigger LeftOk(root, n)} :: n in root.repr ==> LeftOk(root, n)
    ensures forall n {:trigger RightOk(root, n)} :: n in root.repr ==> RightOk(root, n)
  {
    ghost var c, p := node.left, node.parent;
    assert NodeOk(root, c);
    assert c.right != null ==> NodeOk(root, c.right);
    assert p != null ==> NodeOk(root, p);
    RelinkRight(root, node);
    forall n | n in root.repr ensures LeftOk(root, n) {
      assert old(NodeOk(root, n)) && RotatedRightAt(node, c, p, n);
      assert n.left != null ==> n.left in root.repr && RotatedRightAt(node, c, p, n.left);
    }
    forall n | n in root.repr ensures RightOk(root, n) {
      assert old(NodeOk(root, n)) && RotatedRightAt(node, c, p, n);
      assert n.right != null ==> n.right in root.repr && RotatedRightAt(node, c, p, n.right);
    }
  }

  method RotateRight(root: Root, node: Node)
    requires Structure(root) && node in root.repr && node.left != null
    modifies root`node, root.repr`left, root.repr`right, root.repr`parent, root.repr`lo, root.repr`hi
    ensures Structure(root)
    ensures RotatedRight(root, node, old(node.left), old(node.parent))
  {
    assert NodeOk(root, node);
    assert NodeOk(root, node.left);
    assert node.left.right != null ==> NodeOk(root, node.left.right);
    assert node.parent != null ==> NodeOk(root, node.parent);
    ghost var c, p := node.left, node.parent;
    TurnRight(root, node);
    assert RotatedRightAt(node, c, p, root.node);
    forall n | n in root.repr ensures NodeOk(root, n) {
      assert LeftOk(root, n) && RightOk(root, n);
      assert old(NodeOk(root, n)) && RotatedRightAt(node, c, p, n);
      assert n.parent != null ==> n.parent in root.repr && RotatedRightAt(node, c, p, n.parent);
    }
  }
}
