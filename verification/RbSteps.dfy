/** Single link assignments, and what the sequences of them in `rbtree.c` add up to. */
module RbSteps {
  import opened RbModel
  import opened RbInsert
  import opened RbErase

  ghost function WithLeft(t: Tree, m: RbNode, x: RbNode?): Tree
    requires m in t.at
  {
    t.(at := t.at[m := t.at[m].(left := x)])
  }

  ghost function WithRight(t: Tree, m: RbNode, x: RbNode?): Tree
    requires m in t.at
  {
    t.(at := t.at[m := t.at[m].(right := x)])
  }

  ghost function WithParent(t: Tree, m: RbNode, x: RbNode?): Tree
    requires m in t.at
  {
    t.(at := t.at[m := t.at[m].(parent := x)])
  }

  /** `x` replaces `was` in the slot below `parent`, or at the root. */
  ghost function WithSlot(t: Tree, parent: RbNode?, was: RbNode, x: RbNode?): Tree
    requires parent != null ==> parent in t.at
  {
    if parent == null then t.(root := x)
    else if t.at[parent].left == was then WithLeft(t, parent, x)
    else WithRight(t, parent, x)
  }

  /** The same, looking at the right-hand slot first. */
  ghost function WithSlotRightFirst(t: Tree, parent: RbNode?, was: RbNode, x: RbNode?): Tree
    requires parent != null ==> parent in t.at
  {
    if parent == null then t.(root := x)
    else if t.at[parent].right == was then WithRight(t, parent, x)
    else WithLeft(t, parent, x)
  }

  /** Only the slot below `parent` changes. */
  lemma SlotCell(t: Tree, parent: RbNode?, was: RbNode, x: RbNode?, m: RbNode)
    requires (parent != null ==> parent in t.at) && m in t.at
    ensures var u := WithSlot(t, parent, was, x);
      var onLeft := t.at[m].left == was;
      && u.at.Keys == t.at.Keys
      && u.at[m].left == (if m == parent && onLeft then x else t.at[m].left)
      && u.at[m].right == (if m == parent && !onLeft then x else t.at[m].right)
      && u.at[m].parent == t.at[m].parent && u.at[m].red == t.at[m].red
  {
  }

  lemma SlotCellRightFirst(t: Tree, parent: RbNode?, was: RbNode, x: RbNode?, m: RbNode)
    requires (parent != null ==> parent in t.at) && m in t.at
    ensures var u := WithSlotRightFirst(t, parent, was, x);
      var onRight := t.at[m].right == was;
      && u.at.Keys == t.at.Keys
      && u.at[m].left == (if m == parent && !onRight then x else t.at[m].left)
      && u.at[m].right == (if m == parent && onRight then x else t.at[m].right)
      && u.at[m].parent == t.at[m].parent && u.at[m].red == t.at[m].red
  {
  }

  ghost predicate SameCell(c: Cell, d: Cell) {
    c.left == d.left && c.right == d.right && c.parent == d.parent && c.red == d.red
  }

  /** Every node of `u` has in `t` the links and the colour it has in `u`. */
  ghost predicate Agrees(t: Tree, u: Tree) {
    t.root == u.root && u.at.Keys <= t.at.Keys
    && forall m {:trigger t.at[m]} {:trigger u.at[m]} :: m in u.at ==> SameCell(t.at[m], u.at[m])
  }

  // ----- Rotation -----

  /** The assignments of a left rotation up to the slot above it. */
  ghost function HalfLeft(t: Tree, n: RbNode, r: RbNode): Tree
    requires Turnable(t, n, r)
  {
    var inner := t.at[r].left;
    var t1 := WithRight(t, n, inner);
    var t2 := if inner != null then WithParent(t1, inner, n) else t1;
    var t3 := WithLeft(t2, r, n);
    WithParent(t3, r, t.at[n].parent)
  }

  ghost predicate HalfLeftCell(t: Tree, n: RbNode, r: RbNode, m: RbNode, u: Tree)
    requires m in t.at && m in u.at && n in t.at && r in t.at
  {
    var c, d := t.at[m], u.at[m];
    && d.red == c.red
    && d.left == (if m == r then n else c.left)
    && d.right == (if m == n then t.at[r].left else c.right)
    && d.parent == (if m == r then t.at[n].parent else if m == t.at[r].left then n else c.parent)
  }

  lemma HalfLeftCells(t: Tree, n: RbNode, r: RbNode, m: RbNode)
    requires m in t.at && LinksOk(t, m) && Turnable(t, n, r)
    ensures HalfLeftCell(t, n, r, m, HalfLeft(t, n, r))
  {
  }

  lemma RotatedLeftLinkCell(t: Tree, n: RbNode, r: RbNode, m: RbNode)
    requires m in t.at && LinksOk(t, m) && Turnable(t, n, r)
    ensures var c, d, p := t.at[m], RotatedLeft(t, n).at[m], t.at[n].parent;
      && d.red == c.red
      && d.left == (if m == r then n else if m == p && c.left == n then r else c.left)
      && d.right == (if m == n then t.at[r].left else if m == p && c.left != n then r else c.right)
      && d.parent == (if m == n then r else if m == r then p else if m == t.at[r].left then n else c.parent)
  {
  }

  lemma LeftStepsCell(t: Tree, n: RbNode, r: RbNode, u: Tree, m: RbNode)
    requires m in t.at && LinksOk(t, m) && Turnable(t, n, r) && u.at.Keys == t.at.Keys
    requires HalfLeftCell(t, n, r, m, u) && (t.at[n].parent != null ==> HalfLeftCell(t, n, r, t.at[n].parent, u))
    ensures SameCell(WithParent(WithSlot(u, t.at[n].parent, n, r), n, r).at[m], RotatedLeft(t, n).at[m])
  {
    RotatedLeftLinkCell(t, n, r, m);
  }

  ghost function LeftRotationSteps(t: Tree, n: RbNode, r: RbNode): Tree
    requires Turnable(t, n, r)
  {
    WithParent(WithSlot(HalfLeft(t, n, r), t.at[n].parent, n, r), n, r)
  }

  lemma LeftStepsAt(t: Tree, n: RbNode, r: RbNode, m: RbNode)
    requires Linked(t) && m in t.at && Turnable(t, n, r)
    ensures SameCell(LeftRotationSteps(t, n, r).at[m], RotatedLeft(t, n).at[m])
  {
    assert LinksOk(t, m);
    if t.at[n].parent != null {
      HalfLeftCells(t, n, r, t.at[n].parent);
    }
    HalfLeftCells(t, n, r, m);
    LeftStepsCell(t, n, r, HalfLeft(t, n, r), m);
  }

  /** The assignments of `__rb_rotate_left` make a left rotation. */
  lemma LeftSteps(t: Tree, n: RbNode, r: RbNode)
    requires Linked(t) && n in t.at && t.at[n].right == r && r in t.at
    ensures Turnable(t, n, r) && Agrees(LeftRotationSteps(t, n, r), RotatedLeft(t, n))
  {
    LinkedTurnable(t, n);
    forall m | m in t.at
      ensures SameCell(LeftRotationSteps(t, n, r).at[m], RotatedLeft(t, n).at[m])
    {
      LeftStepsAt(t, n, r, m);
    }
  }

  ghost predicate TurnableRight(t: Tree, n: RbNode, l: RbNode) {
    && n in t.at && l in t.at && t.at[n].left == l
    && LinksOk(t, n) && LinksOk(t, l)
    && (t.at[n].parent != null ==> t.at[n].parent in t.at && LinksOk(t, t.at[n].parent))
  }

  lemma LinkedTurnableRight(t: Tree, n: RbNode)
    requires Linked(t) && n in t.at && t.at[n].left != null
    ensures t.at[n].left in t.at && TurnableRight(t, n, t.at[n].left)
  {
    assert LinksOk(t, n);
    assert LinksOk(t, t.at[n].left);
    if t.at[n].parent != null {
      assert LinksOk(t, t.at[n].parent);
    }
  }

  ghost function HalfRight(t: Tree, n: RbNode, l: RbNode): Tree
    requires TurnableRight(t, n, l)
  {
    var inner := t.at[l].right;
    var t1 := WithLeft(t, n, inner);
    var t2 := if inner != null then WithParent(t1, inner, n) else t1;
    var t3 := WithRight(t2, l, n);
    WithParent(t3, l, t.at[n].parent)
  }

  ghost predicate HalfRightCell(t: Tree, n: RbNode, l: RbNode, m: RbNode, u: Tree)
    requires m in t.at && m in u.at && n in t.at && l in t.at
  {
    var c, d := t.at[m], u.at[m];
    && d.red == c.red
    && d.right == (if m == l then n else c.right)
    && d.left == (if m == n then t.at[l].right else c.left)
    && d.parent == (if m == l then t.at[n].parent else if m == t.at[l].right then n else c.parent)
  }

  lemma HalfRightCells(t: Tree, n: RbNode, l: RbNode, m: RbNode)
    requires m in t.at && LinksOk(t, m) && TurnableRight(t, n, l)
    ensures HalfRightCell(t, n, l, m, HalfRight(t, n, l))
  {
  }

  lemma RotatedRightLinkCell(t: Tree, n: RbNode, l: RbNode, m: RbNode)
    requires m in t.at && LinksOk(t, m) && TurnableRight(t, n, l)
    ensures var c, d, p := t.at[m], RotatedRight(t, n).at[m], t.at[n].parent;
      && d.red == c.red
      && d.right == (if m == l then n else if m == p && c.right == n then l else c.right)
      && d.left == (if m == n then t.at[l].right else if m == p && c.right != n then l else c.left)
      && d.parent == (if m == n then l else if m == l then p else if m == t.at[l].right then n else c.parent)
  {
    MirrorLinksOk(t, m);
    MirrorLinksOk(t, n);
    MirrorLinksOk(t, l);
    if t.at[n].parent != null {
      MirrorLinksOk(t, t.at[n].parent);
    }
    RotatedLeftLinkCell(Mirror(t), n, l, m);
  }

  lemma RightStepsCell(t: Tree, n: RbNode, l: RbNode, u: Tree, m: RbNode)
    requires m in t.at && LinksOk(t, m) && TurnableRight(t, n, l) && u.at.Keys == t.at.Keys
    requires HalfRightCell(t, n, l, m, u) && (t.at[n].parent != null ==> HalfRightCell(t, n, l, t.at[n].parent, u))
    ensures SameCell(WithParent(WithSlotRightFirst(u, t.at[n].parent, n, l), n, l).at[m], RotatedRight(t, n).at[m])
  {
    hide RotatedRight, WithSlotRightFirst;
    RotatedRightLinkCell(t, n, l, m);
    SlotCellRightFirst(u, t.at[n].parent, n, l, m);
    SlotCellRightFirst(u, t.at[n].parent, n, l, n);
  }

  ghost function RightRotationSteps(t: Tree, n: RbNode, l: RbNode): Tree
    requires TurnableRight(t, n, l)
  {
    WithParent(WithSlotRightFirst(HalfRight(t, n, l), t.at[n].parent, n, l), n, l)
  }

  lemma RightStepsAt(t: Tree, n: RbNode, l: RbNode, m: RbNode)
    requires Linked(t) && m in t.at && TurnableRight(t, n, l)
    ensures SameCell(RightRotationSteps(t, n, l).at[m], RotatedRight(t, n).at[m])
  {
    assert LinksOk(t, m);
    if t.at[n].parent != null {
      HalfRightCells(t, n, l, t.at[n].parent);
    }
    HalfRightCells(t, n, l, m);
    RightStepsCell(t, n, l, HalfRight(t, n, l), m);
  }

  lemma RightStepsRoot(t: Tree, n: RbNode, l: RbNode)
    requires Linked(t) && TurnableRight(t, n, l)
    ensures var u, v := RightRotationSteps(t, n, l), RotatedRight(t, n);
      u.root == v.root && u.at.Keys == t.at.Keys == v.at.Keys
  {
  }

  /** The assignments of `__rb_rotate_right` make a right rotation. */
  lemma RightSteps(t: Tree, n: RbNode, l: RbNode)
    requires Linked(t) && n in t.at && t.at[n].left == l && l in t.at
    ensures TurnableRight(t, n, l) && Agrees(RightRotationSteps(t, n, l), RotatedRight(t, n))
  {
    LinkedTurnableRight(t, n);
    RightStepsRoot(t, n, l);
    hide SameCell, LinksOk, RotatedRight, RightRotationSteps, Indexed, RootOk;
    forall m | m in t.at
      ensures SameCell(RightRotationSteps(t, n, l).at[m], RotatedRight(t, n).at[m])
    {
      RightStepsAt(t, n, l, m);
    }
  }

  // ----- Linking -----

  /** Linking a leaf changes one slot. */
  lemma LinkedCells(t: Tree, n: RbNode, p: RbNode, m: RbNode)
    requires p in t.at && PosOk(t, p) && n !in t.at && (m in t.at || m == n)
    ensures m == n ==> SameCell(LinkedLeft(t, n, p).at[n], Cell(null, null, p, true, 0, 0, 0, 0))
    ensures m == n ==> SameCell(LinkedRight(t, n, p).at[n], Cell(null, null, p, true, 0, 0, 0, 0))
    ensures m != n ==> SameCell(LinkedLeft(t, n, p).at[m], if m == p then t.at[m].(left := n) else t.at[m])
    ensures m != n ==> SameCell(LinkedRight(t, n, p).at[m], if m == p then t.at[m].(right := n) else t.at[m])
  {
  }

  // ----- Unlinking -----

  ghost predicate AtMostOneChild(t: Tree, n: RbNode) {
    && n in t.at && LinksOk(t, n) && PosOk(t, n)
    && (t.at[n].left == null || t.at[n].right == null)
  }

  /** The assignments by which the only child of `n` takes its slot. */
  ghost function SpliceSteps(t: Tree, n: RbNode): (u: Tree)
    requires AtMostOneChild(t, n)
    ensures u.at.Keys == t.at.Keys
  {
    var child, parent := OnlyChild(t, n), t.at[n].parent;
    var t1 := if child != null then WithParent(t, child, parent) else t;
    WithSlot(t1, parent, n, child)
  }

  lemma SpliceStepsCell(t: Tree, n: RbNode, m: RbNode)
    requires AtMostOneChild(t, n) && m in t.at && LinksOk(t, m) && m != n
    requires t.at[n].parent != null ==> LinksOk(t, t.at[n].parent)
    ensures SameCell(SpliceSteps(t, n).at[m], Spliced(t, n).at[m])
  {
    hide Spliced, WithSlot;
    SplicedCells(t, n, m);
    var child, p := OnlyChild(t, n), t.at[n].parent;
    SlotCell(if child != null then WithParent(t, child, p) else t, p, n, child, m);
  }

  lemma SpliceStepsAgree(t: Tree, n: RbNode)
    requires Linked(t) && AtMostOneChild(t, n)
    ensures Agrees(SpliceSteps(t, n), Spliced(t, n))
  {
    var p := t.at[n].parent;
    if p != null {
      assert LinksOk(t, p);
    }
    forall m | m in t.at && m != n
      ensures SameCell(SpliceSteps(t, n).at[m], Spliced(t, n).at[m])
    {
      assert LinksOk(t, m);
      SpliceStepsCell(t, n, m);
    }
  }

  ghost function WithCellOf(t: Tree, s: RbNode, n: RbNode): Tree
    requires n in t.at && s in t.at
  {
    var c := t.at[n];
    t.(at := t.at[s := t.at[s].(left := c.left, right := c.right, parent := c.parent, red := c.red)])
  }

  /** The assignments by which `s` takes the place, the links and the colour of `n`. */
  ghost function ReplaceSteps(t: Tree, n: RbNode, s: RbNode): Tree
    requires n in t.at && s in t.at && t.at[n].left in t.at
    requires t.at[n].parent != null ==> t.at[n].parent in t.at
    requires t.at[n].right != null ==> t.at[n].right in t.at
  {
    var c := t.at[n];
    var t1 := WithCellOf(t, s, n);
    var t2 := WithSlot(t1, c.parent, n, s);
    var t3 := WithParent(t2, c.left, s);
    if c.right != null then WithParent(t3, c.right, s) else t3
  }

  ghost predicate ReplaceReady(t: Tree, n: RbNode, s: RbNode) {
    && n in t.at && s in t.at && s != n && t.at[n].left in t.at && t.at[n].left != s && t.at[n].right != s
    && t.at[n].left != t.at[n].right && t.at[n].parent != s && t.at[n].parent != n
    && (t.at[n].parent != null ==> t.at[n].parent in t.at)
    && (t.at[n].right != null ==> t.at[n].right in t.at)
  }

  /** After the successor `s` of `n` is spliced out, it can take the place of `n`. */
  lemma InnerReady(t: Tree, u: Tree, n: RbNode, s: RbNode)
    requires Linked(t) && Successor(t, n, s) && PosOk(t, s) && Agrees(u, Spliced(t, s)) && s in u.at
    ensures ReplaceReady(u, n, s) && n in Spliced(t, s).at && Spliced(t, s).at[n].left != null
  {
    SpliceKeepsLinks(t, s);
    var v := Spliced(t, s);
    assert LinksOk(t, n) && LinksOk(t, s);
    SplicedCells(t, s, n);
    assert LinksOk(v, n) && SameCell(u.at[n], v.at[n]);
    if v.at[n].left != null {
      assert LinksOk(v, v.at[n].left);
    }
  }

  lemma ReplaceStepsSelf(t: Tree, n: RbNode, s: RbNode)
    requires ReplaceReady(t, n, s)
    ensures SameCell(ReplaceSteps(t, n, s).at[s], t.at[n])
  {
  }

  lemma ReplaceStepsOther(t: Tree, n: RbNode, s: RbNode, m: RbNode)
    requires ReplaceReady(t, n, s) && m in t.at && m != n && m != s
    ensures var c, d, p := t.at[m], ReplaceSteps(t, n, s).at[m], t.at[n].parent;
      && d.red == c.red
      && d.left == (if m == p && c.left == n then s else c.left)
      && d.right == (if m == p && c.left != n then s else c.right)
      && d.parent == (if m == t.at[n].left || m == t.at[n].right then s else c.parent)
  {
  }

  lemma ReplaceStepsCell(t: Tree, v: Tree, n: RbNode, s: RbNode, m: RbNode)
    requires Agrees(t, v) && n in v.at && s in t.at && s !in v.at && LinksOk(v, n) && PosOk(v, n)
    requires v.at[n].left != null && m in v.at && LinksOk(v, m)
    requires v.at[n].parent != null ==> LinksOk(v, v.at[n].parent)
    ensures Sub(m, n, s) in Replaced(v, n, s).at && SameCell(t.at[n], v.at[n])
    ensures SameCell(ReplaceSteps(t, n, s).at[Sub(m, n, s)], Replaced(v, n, s).at[Sub(m, n, s)])
  {
    ReplacedCells(v, n, s, m);
    assert SameCell(t.at[m], v.at[m]) && SameCell(t.at[n], v.at[n]);
    if m == n {
      ReplaceStepsSelf(t, n, s);
    } else {
      ReplaceStepsOther(t, n, s, m);
    }
  }

  lemma ReplaceStepsAgree(t: Tree, v: Tree, n: RbNode, s: RbNode)
    requires Agrees(t, v) && Linked(v) && n in v.at && s in t.at && s !in v.at && v.at[n].left != null
    ensures SameCell(t.at[n], v.at[n]) && LinksOk(v, n) && PosOk(v, n)
    ensures Agrees(ReplaceSteps(t, n, s), Replaced(v, n, s))
  {
    assert PosOk(v, n) && LinksOk(v, n) && SameCell(t.at[n], v.at[n]);
    var w, u := ReplaceSteps(t, n, s), Replaced(v, n, s);
    if v.at[n].parent != null {
      assert LinksOk(v, v.at[n].parent);
    }
    forall m | m in u.at
      ensures SameCell(w.at[m], u.at[m])
    {
      var m0: RbNode := if m == s then n else m;
      assert LinksOk(v, m0);
      ReplaceStepsCell(t, v, n, s, m0);
    }
  }

  /** Splicing out the successor and giving it the place of `n` takes out `n`. */
  lemma InnerSteps(t: Tree, u: Tree, n: RbNode, s: RbNode)
    requires Valid(t) && Successor(t, n, s) && PosOk(t, s) && Agrees(u, Spliced(t, s)) && s in u.at
    ensures ReplaceReady(u, n, s) && Agrees(ReplaceSteps(u, n, s), WithoutInner(t, n, s))
    ensures PosOk(t, n) && WithoutInner(t, n, s).at.Keys == t.at.Keys - {n}
    ensures WithoutInner(t, n, s).nodes == t.nodes[..t.at[n].pos] + t.nodes[t.at[n].pos + 1..]
    ensures if t.at[s].red then Valid(WithoutInner(t, n, s))
            else EraseInv(WithoutInner(t, n, s), t.at[s].right, if t.at[s].parent == n then s else t.at[s].parent)
  {
    hide ReplaceSteps, Spliced, Replaced, Agrees;
    InnerReady(t, u, n, s);
    SpliceKeepsLinks(t, s);
    ReplaceStepsAgree(u, Spliced(t, s), n, s);
    WithoutInnerNodes(t, n, s);
    EraseInnerNode(t, n, s);
  }

  lemma Overwritten<K, V>(m: map<K, V>, k: K, a: V, b: V)
    ensures m[k := a][k := b] == m[k := b] && m[k := a][k] == a
  {
  }

  /** Copying colour, parent and children one by one copies the links of `n` to `s`. */
  lemma CellSteps(t: Tree, s: RbNode, n: RbNode)
    requires n in t.at && s in t.at
    ensures var c := t.at[n];
      WithLeft(WithRight(WithParent(Painted(t, s, c.red, t.at[s].bh), s, c.parent), s, c.right), s, c.left)
      == WithCellOf(t, s, n)
  {
    var c, c0 := t.at[n], t.at[s];
    var c1 := c0.(red := c.red);
    var c2 := c1.(parent := c.parent);
    var c3 := c2.(right := c.right);
    Overwritten(t.at, s, c1, c2);
    Overwritten(t.at, s, c2, c3);
    Overwritten(t.at, s, c3, c3.(left := c.left));
  }
}
