/** The textbook reading of a valid tree: a binary tree, its in-order listing, its colour rules and
    its height. */
module RbShape {
  import opened Config
  import opened RbModel
  import opened RbInsert
  import opened RbErase

  datatype Shape = Leaf | Branch(left: Shape, node: RbNode, red: bool, right: Shape)

  /** What one sees below `n` by following the child links. */
  ghost function ShapeOf(t: Tree, n: RbNode?): Shape
    requires Linked(t) && (n != null ==> n in t.at)
    decreases if n == null then 0 else t.at[n].hi - t.at[n].lo
  {
    if n == null then Leaf
    else
      assert LinksOk(t, n);
      Branch(ShapeOf(t, t.at[n].left), n, t.at[n].red, ShapeOf(t, t.at[n].right))
  }

  ghost function InOrder(s: Shape): seq<RbNode> {
    match s
    case Leaf => []
    case Branch(l, n, _, r) => InOrder(l) + [n] + InOrder(r)
  }

  /** Every path down from the top of `s` to a leaf has `k` black nodes. */
  ghost predicate EvenlyBlack(s: Shape, k: int) {
    match s
    case Leaf => k == 0
    case Branch(l, _, red, r) => EvenlyBlack(l, k - Own(red)) && EvenlyBlack(r, k - Own(red))
  }

  ghost predicate TopRed(s: Shape) {
    s.Branch? && s.red
  }

  ghost predicate NoRedPair(s: Shape) {
    s.Branch? ==>
      && (s.red ==> !TopRed(s.left) && !TopRed(s.right))
      && NoRedPair(s.left) && NoRedPair(s.right)
  }

  ghost function Height(s: Shape): nat {
    match s
    case Leaf => 0
    case Branch(l, _, _, r) => 1 + if Height(l) > Height(r) then Height(l) else Height(r)
  }

  /** Reading a subtree in order lists the nodes of its interval. */
  lemma {:induction false} InOrderIsInterval(t: Tree, n: RbNode)
    requires Linked(t) && n in t.at
    ensures 0 <= t.at[n].lo <= t.at[n].hi <= |t.nodes|
    ensures InOrder(ShapeOf(t, n)) == t.nodes[t.at[n].lo..t.at[n].hi]
    decreases t.at[n].hi - t.at[n].lo
  {
    assert LinksOk(t, n) && PosOk(t, n);
    var c := t.at[n];
    if c.left != null {
      InOrderIsInterval(t, c.left);
    }
    if c.right != null {
      InOrderIsInterval(t, c.right);
    }
    assert t.nodes[c.lo..c.hi] == t.nodes[c.lo..c.pos] + [n] + t.nodes[c.pos + 1..c.hi];
  }

  lemma {:induction false} SubtreeColours(t: Tree, n: RbNode)
    requires Valid(t) && n in t.at
    ensures EvenlyBlack(ShapeOf(t, n), t.at[n].bh) && NoRedPair(ShapeOf(t, n))
    decreases t.at[n].hi - t.at[n].lo
  {
    assert LinksOk(t, n) && BlackOk(t, n);
    var c := t.at[n];
    if c.left != null {
      SubtreeColours(t, c.left);
      assert RedOk(t, c.left);
    }
    if c.right != null {
      SubtreeColours(t, c.right);
      assert RedOk(t, c.right);
    }
  }

  /** A valid tree is a red-black tree in the textbook sense, and its in-order listing is `nodes`. */
  lemma ValidIsRedBlack(t: Tree)
    requires Valid(t)
    ensures t.root != null ==> t.root in t.at
    ensures InOrder(ShapeOf(t, t.root)) == t.nodes
    ensures NoRedPair(ShapeOf(t, t.root)) && !TopRed(ShapeOf(t, t.root))
    ensures EvenlyBlack(ShapeOf(t, t.root), Bh(t, t.root))
  {
    if t.root != null {
      InOrderIsInterval(t, t.root);
      SubtreeColours(t, t.root);
    }
  }

  lemma {:induction false} BlackBound(s: Shape, k: int)
    requires EvenlyBlack(s, k) && NoRedPair(s)
    ensures k >= 0 && Pow2(k) <= |InOrder(s)| + 1
    ensures Height(s) <= 2 * k + if TopRed(s) then 1 else 0
  {
    if s.Branch? {
      BlackBound(s.left, k - Own(s.red));
      BlackBound(s.right, k - Own(s.red));
    }
  }

  /** The height is at most twice the binary logarithm of the number of nodes plus one. */
  lemma HeightIsLogarithmic(t: Tree)
    requires Valid(t)
    ensures t.root != null ==> t.root in t.at
    ensures exists k: nat :: Height(ShapeOf(t, t.root)) <= 2 * k && Pow2(k) <= |t.nodes| + 1
  {
    ValidIsRedBlack(t);
    BlackBound(ShapeOf(t, t.root), Bh(t, t.root));
    assert Height(ShapeOf(t, t.root)) <= 2 * Bh(t, t.root) && Pow2(Bh(t, t.root)) <= |t.nodes| + 1;
  }
}
