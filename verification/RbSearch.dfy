/** check_overlap, rb_minimum and rb_search of iosplitter/common/range_lock.c, and what a valid tree holds. */
module RbSearch {
  import opened RbTree

  /** k lies in the closed interval with end points a and b, given in either order. */
  predicate Within(k: nat, a: nat, b: nat) {
    a <= k <= b || b <= k <= a
  }

  /** check_overlap: the two closed intervals share a point. */
  function CheckOverlap(a: nat, b: nat, c: nat, d: nat): (r: bool)
    ensures r <==> exists k :: Within(k, a, b) && Within(k, c, d)
  {
    var (s1, e1) := if a > b then (b, a) else (a, b);
    var (s2, e2) := if c > d then (d, c) else (c, d);
    var r := (s2 <= s1 <= e2) || (s2 <= e1 <= e2) || (s1 <= s2 <= e1) || (s1 <= e2 <= e1);
    assert r ==> var k := if s1 <= s2 then s2 else s1; Within(k, a, b) && Within(k, c, d);
    r
  }

  /** Intervals that are well formed, pairwise disjoint and in ascending order. */
  ghost predicate Ascending(a: seq<Node>)
    reads a`start, a`end
  {
    && (forall i :: 0 <= i < |a| ==> a[i].start <= a[i].end)
    && (forall i, j :: 0 <= i < j < |a| ==> a[i].end < a[j].start)
  }

  ghost predicate Sorted(root: Root)
    reads root`nodes, root.nodes`start, root.nodes`end
  {
    Ascending(root.nodes)
  }

  ghost predicate Valid(root: Root)
    reads root`repr, root`node, root`count, root`nodes, root.repr`parent, root.repr`left, root.repr`right,
      root.repr`idx, root.repr`lo, root.repr`hi, root.repr`color, root.repr`bh
    reads root.nodes`start, root.nodes`end
  {
    Structure(root) && ColoursOk(root) && Sorted(root) && root.count == |root.nodes|
  }

  /** rb_minimum, for a node of the tree. */
  method Minimum(root: Root, node: Node) returns (n: Node)
    requires Structure(root) && node in root.repr
    ensures n in root.repr && n.left == null && n.idx == node.lo && node.lo <= n.idx < node.hi
  {
    n := node;
    assert NodeOk(root, n);
    while n.left != null
      invariant n in root.repr && n.lo == node.lo && NodeOk(root, n) && n.hi <= node.hi
      decreases n.hi - n.lo
    {
      n := n.left;
      assert NodeOk(root, n);
    }
  }

  /** __rb_search, called with s <= e. */
  function SearchFrom(root: Root, n: Node?, s: nat, e: nat): (r: Node?)
    requires Structure(root) && Sorted(root) && s <= e
    requires n != null ==> n in root.repr && NodeOk(root, n)
    reads root, root.repr, root.nodes
    decreases if n == null then 0 else n.hi - n.lo
  {
    if n == null then null
    else if CheckOverlap(n.start, n.end, s, e) then n
    else if n.start > e then
      assert n.left != null ==> NodeOk(root, n.left);
      SearchFrom(root, n.left, s, e)
    else
      // The source tests n->end < s here and has assert(0) for the other case.
      assert n.end < s by {
        assert root.nodes[n.idx] == n;
        assert Within(n.start, n.start, n.end);
        assert Within(s, s, e);
      }
      assert n.right != null ==> NodeOk(root, n.right);
      SearchFrom(root, n.right, s, e)
  }

  /** rb_search. */
  function Search(root: Root, s: nat, e: nat): (r: Node?)
    requires Valid(root)
    reads root, root.repr, root.nodes
  {
    if root.node == null then null
    else
      assert NodeOk(root, root.node);
      if s > e then SearchFrom(root, root.node, e, s) else SearchFrom(root, root.node, s, e)
  }

  ghost predicate Overlaps(n: Node, s: nat, e: nat)
    reads n`start, n`end
  {
    CheckOverlap(n.start, n.end, s, e)
  }

  lemma {:induction false} SearchFromFinds(root: Root, n: Node?, s: nat, e: nat)
    requires Structure(root) && Sorted(root) && s <= e
    requires n != null ==> n in root.repr && NodeOk(root, n)
    ensures var r := SearchFrom(root, n, s, e);
      if r != null then n != null && r in root.repr && n.lo <= r.idx < n.hi && Overlaps(r, s, e)
      else n == null || forall i :: n.lo <= i < n.hi ==> !Overlaps(root.nodes[i], s, e)
    decreases if n == null then 0 else n.hi - n.lo
  {
    if n != null && !CheckOverlap(n.start, n.end, s, e) {
      assert root.nodes[n.idx] == n;
      if n.start > e {
        assert n.left != null ==> NodeOk(root, n.left);
        SearchFromFinds(root, n.left, s, e);
        forall i | n.idx < i < n.hi ensures !Overlaps(root.nodes[i], s, e) {
          assert root.nodes[n.idx].end < root.nodes[i].start;
        }
      } else {
        assert n.right != null ==> NodeOk(root, n.right);
        SearchFromFinds(root, n.right, s, e);
        forall i | n.lo <= i < n.idx ensures !Overlaps(root.nodes[i], s, e) {
          assert root.nodes[i].end < root.nodes[n.idx].start;
        }
      }
    }
  }

  /** A search returns a stored node that overlaps, and NULL exactly when no stored node does. */
  lemma SearchFinds(root: Root, s: nat, e: nat)
    requires Valid(root)
    ensures var r := Search(root, s, e);
      && (r != null ==> r in root.repr && Overlaps(r, s, e))
      && (r == null <==> forall n :: n in root.repr ==> !Overlaps(n, s, e))
  {
    var a, b := if s > e then e else s, if s > e then s else e;
    if root.node != null {
      assert NodeOk(root, root.node);
      SearchFromFinds(root, root.node, a, b);
      forall n | n in root.repr ensures Overlaps(n, s, e) == Overlaps(n, a, b) && 0 <= n.idx < |root.nodes|
        && root.nodes[n.idx] == n {
        assert NodeOk(root, n);
      }
    }
  }

  /** The number of nodes a search looks at. */
  ghost function Visits(root: Root, n: Node?, s: nat, e: nat): (v: nat)
    requires Structure(root) && Sorted(root) && s <= e
    requires n != null ==> n in root.repr && NodeOk(root, n)
    reads root, root.repr, root.nodes
    decreases if n == null then 0 else n.hi - n.lo
  {
    if n == null then 0
    else if CheckOverlap(n.start, n.end, s, e) then 1
    else if n.start > e then
      assert n.left != null ==> NodeOk(root, n.left);
      1 + Visits(root, n.left, s, e)
    else
      assert n.right != null ==> NodeOk(root, n.right);
      1 + Visits(root, n.right, s, e)
  }

  ghost function Pow2(n: nat): (p: nat)
    ensures p >= 1
  {
    if n == 0 then 1 else 2 * Pow2(n - 1)
  }

  lemma {:induction false} Pow2Monotone(m: nat, n: nat)
    requires m <= n
    ensures Pow2(m) <= Pow2(n)
  {
    if m < n { Pow2Monotone(m, n - 1); }
  }

  lemma {:induction false} Pow2Double(n: nat)
    ensures Pow2(2 * n) == Pow2(n) * Pow2(n)
  {
    if n > 0 { Pow2Double(n - 1); assert Pow2(2 * n) == 2 * Pow2(2 * n - 1) == 4 * Pow2(2 * (n - 1)); }
  }

  /** A subtree of black count b has at least 2^b - 1 nodes, and a search in it passes at most b black nodes. */
  lemma {:induction false} SubtreeBounds(root: Root, n: Node, s: nat, e: nat)
    requires Structure(root) && Sorted(root) && s <= e
    requires NearlyRb(root, null, null, null) && n in root.repr && NodeOk(root, n)
    ensures 0 <= n.bh && Pow2(n.bh) <= n.hi - n.lo + 1
    ensures Visits(root, n, s, e) <= 2 * n.bh + if n.color == RED then 1 else 0
    decreases n.hi - n.lo
  {
    assert BhOk(n, null, null);
    if n.left != null {
      assert NodeOk(root, n.left) && BhOk(n.left, null, null) && RedOk(n.left);
      SubtreeBounds(root, n.left, s, e);
    }
    if n.right != null {
      assert NodeOk(root, n.right) && BhOk(n.right, null, null) && RedOk(n.right);
      SubtreeBounds(root, n.right, s, e);
    }
  }

  /** The number of nodes rb_search looks at. */
  ghost function SearchVisits(root: Root, s: nat, e: nat): (v: nat)
    requires Valid(root)
    reads root, root.repr, root.nodes
  {
    if root.node == null then 0
    else
      assert NodeOk(root, root.node);
      if s > e then Visits(root, root.node, e, s) else Visits(root, root.node, s, e)
  }

  /** A search visits at most 2 * log2(count + 1) nodes. */
  lemma SearchIsLogarithmic(root: Root, s: nat, e: nat)
    requires Valid(root)
    ensures Pow2(SearchVisits(root, s, e)) <= (root.count + 1) * (root.count + 1)
  {
    if root.node != null {
      var n := root.node;
      assert NodeOk(root, n);
      SubtreeBounds(root, n, if s > e then e else s, if s > e then s else e);
      Pow2Monotone(SearchVisits(root, s, e), 2 * n.bh);
      Pow2Double(n.bh);
      Squares(Pow2(n.bh), root.count + 1);
    }
  }

  lemma Squares(a: nat, b: nat)
    requires a <= b
    ensures a * a <= b * b
  {
    assert a * a <= a * b <= b * b;
  }

  /** The in-order walk of the subtree at n. */
  ghost function InOrder(root: Root, n: Node?): (w: seq<Node>)
    requires Structure(root)
    requires n != null ==> n in root.repr && NodeOk(root, n)
    reads root, root.repr
    decreases if n == null then 0 else n.hi - n.lo
  {
    if n == null then []
    else
      assert n.left != null ==> NodeOk(root, n.left);
      assert n.right != null ==> NodeOk(root, n.right);
      InOrder(root, n.left) + [n] + InOrder(root, n.right)
  }

  lemma {:induction false} InOrderIsSlice(root: Root, n: Node)
    requires Structure(root) && n in root.repr && NodeOk(root, n)
    ensures InOrder(root, n) == root.nodes[n.lo..n.hi]
    decreases n.hi - n.lo
  {
    if n.left != null { assert NodeOk(root, n.left); InOrderIsSlice(root, n.left); }
    if n.right != null { assert NodeOk(root, n.right); InOrderIsSlice(root, n.right); }
    SliceAt(root.nodes, n.lo, n.idx, n.hi);
  }

  lemma SliceAt<T>(a: seq<T>, lo: int, i: int, hi: int)
    requires 0 <= lo <= i < hi <= |a|
    ensures a[lo..hi] == a[lo..i] + [a[i]] + a[i + 1..hi]
  {
  }

  /** The ghost list nodes is the in-order walk of the pointers. */
  lemma NodesAreInOrder(root: Root)
    requires Structure(root)
    ensures root.node != null ==> root.node in root.repr && NodeOk(root, root.node)
    ensures InOrder(root, root.node) == root.nodes
  {
    if root.node != null {
      assert NodeOk(root, root.node);
      InOrderIsSlice(root, root.node);
    }
  }
}
