/** Inserting: a red leaf is linked, and `rb_insert_color` mends the tree, step by step. */
module RbInsert {
  import opened RbModel

  // ----- Linking a red leaf -----

  /** The first node of an empty tree. */
  ghost function LinkedRoot(n: RbNode): Tree {
    Tree(n, [n], map[n := Cell(null, null, null, true, 0, 0, 1, 0)])
  }

  ghost function LinkLeftCell(c: Cell, k: int, n: RbNode, m: RbNode, p: RbNode): Cell {
    c.(left := if m == p then n else c.left,
       pos := if c.pos >= k then c.pos + 1 else c.pos,
       lo := if c.lo > k then c.lo + 1 else c.lo,
       hi := if c.hi > k then c.hi + 1 else c.hi)
  }

  /** `n` becomes the left child of `p`, and stands just before it. */
  ghost function LinkedLeft(t: Tree, n: RbNode, p: RbNode): (u: Tree)
    requires p in t.at && 0 <= t.at[p].pos < |t.nodes|
    ensures u.at.Keys == t.at.Keys + {n} && u.root == t.root
    ensures u.nodes == t.nodes[..t.at[p].pos] + [n] + t.nodes[t.at[p].pos..]
  {
    var k := t.at[p].pos;
    var at := map m | m in t.at.Keys + {n} ::
      if m == n then Cell(null, null, p, true, k, k, k + 1, 0) else LinkLeftCell(t.at[m], k, n, m, p);
    Tree(t.root, t.nodes[..k] + [n] + t.nodes[k..], at)
  }

  /** `n` becomes the right child of `p`, and stands just after it. */
  ghost function LinkedRight(t: Tree, n: RbNode, p: RbNode): (u: Tree)
    requires p in t.at && 0 <= t.at[p].pos < |t.nodes|
    ensures u.at.Keys == t.at.Keys + {n} && u.root == t.root
    ensures u.nodes == t.nodes[..t.at[p].pos + 1] + [n] + t.nodes[t.at[p].pos + 1..]
  {
    var v := LinkedLeft(Mirror(t), n, p);
    var k := t.at[p].pos + 1;
    assert Reversed(v.nodes) == t.nodes[..k] + [n] + t.nodes[k..];
    Mirror(v)
  }

  lemma LinkLeftIndexed(t: Tree, n: RbNode, p: RbNode)
    requires Indexed(t) && p in t.at && n !in t.at
    ensures PosOk(t, p) && Indexed(LinkedLeft(t, n, p))
  {
    assert PosOk(t, p);
    var u := LinkedLeft(t, n, p);
    forall m | m in u.at
      ensures PosOk(u, m)
    {
      assert m != n ==> PosOk(t, m);
    }
    var k := t.at[p].pos;
    forall i | 0 <= i < |u.nodes|
      ensures u.nodes[i] in u.at && u.at[u.nodes[i]].pos == i
    {
      assert i < k ==> u.nodes[i] == t.nodes[i];
      assert i > k ==> u.nodes[i] == t.nodes[i - 1];
    }
  }

  lemma LinkLeftLinksOk(t: Tree, n: RbNode, p: RbNode, m: RbNode)
    requires p in t.at && t.at[p].left == null && n !in t.at && PosOk(t, p) && LinksOk(t, p)
    requires m in t.at && LinksOk(t, m) && PosOk(t, m)
    ensures LinksOk(LinkedLeft(t, n, p), m)
  {
    var u, k := LinkedLeft(t, n, p), t.at[p].pos;
    assert u.at[m] == LinkLeftCell(t.at[m], k, n, m, p);
    assert m != p ==> t.at[m].pos != k;
  }

  /** The new leaf is the only fault. */
  lemma LinkLeft(t: Tree, n: RbNode, p: RbNode)
    requires Valid(t) && p in t.at && t.at[p].left == null && n !in t.at
    ensures PosOk(t, p) && InsertInv(LinkedLeft(t, n, p), n)
  {
    LinkLeftIndexed(t, n, p);
    assert LinksOk(t, p);
    var u := LinkedLeft(t, n, p);
    if t.root != null {
      assert u.at[t.root] == LinkLeftCell(t.at[t.root], t.at[p].pos, n, t.root, p);
    }
    NonEmpty(t, p);
    forall m | m in u.at
      ensures LinksOk(u, m) && BlackOk(u, m) && (m != n ==> RedOk(u, m))
    {
      if m != n {
        assert LinksOk(t, m) && PosOk(t, m) && BlackOk(t, m) && RedOk(t, m);
        LinkLeftLinksOk(t, n, p, m);
        LinkLeftColours(t, n, p, m);
      }
    }
  }

  lemma LinkLeftColours(t: Tree, n: RbNode, p: RbNode, m: RbNode)
    requires p in t.at && t.at[p].left == null && n !in t.at && PosOk(t, p)
    requires m in t.at && LinksOk(t, m) && BlackOk(t, m) && RedOk(t, m)
    ensures BlackOk(LinkedLeft(t, n, p), m) && RedOk(LinkedLeft(t, n, p), m)
  {
    var u := LinkedLeft(t, n, p);
    forall k | k in t.at
      ensures Bh(u, k) == Bh(t, k) && IsRed(u, k) == IsRed(t, k)
    {
    }
  }

  lemma LinkRight(t: Tree, n: RbNode, p: RbNode)
    requires Valid(t) && p in t.at && t.at[p].right == null && n !in t.at
    ensures PosOk(t, p) && InsertInv(LinkedRight(t, n, p), n)
  {
    assert PosOk(t, p);
    MirrorValid(t);
    LinkLeft(Mirror(t), n, p);
    MirrorInsertInv(LinkedLeft(Mirror(t), n, p), n);
  }

  lemma LinkRoot(t: Tree, n: RbNode)
    requires Valid(t) && t.root == null
    ensures InsertInv(LinkedRoot(n), n) && t.at == map[]
  {
    forall m | m in t.at
      ensures false
    {
      NonEmpty(t, m);
    }
  }

  // ----- rb_insert_color, step by step -----

  /** The tree is valid but for `x`, which is red and may be the root or have a red parent. */
  ghost predicate InsertInv(t: Tree, x: RbNode) {
    && Linked(t)
    && x in t.at && t.at[x].red
    && (forall m {:trigger BlackOk(t, m)} :: m in t.at ==> BlackOk(t, m))
    && (forall m {:trigger RedOk(t, m)} :: m in t.at && m != x ==> RedOk(t, m))
    && (IsRed(t, t.root) ==> t.root == x)
  }

  lemma MirrorInsertInv(t: Tree, x: RbNode)
    requires InsertInv(t, x)
    ensures InsertInv(Mirror(t), x)
  {
    MirrorLinked(t);
    var u := Mirror(t);
    forall m | m in u.at
      ensures BlackOk(u, m) && (m != x ==> RedOk(u, m))
    {
      MirrorColours(t, m);
      assert BlackOk(t, m) && (m != x ==> RedOk(t, m));
    }
  }

  /** Under a red parent there is a black grandparent. */
  lemma InsertGrandparent(t: Tree, x: RbNode)
    requires InsertInv(t, x) && IsRed(t, t.at[x].parent)
    ensures var p := t.at[x].parent; var g := t.at[p].parent;
      && p != x && g != null && g in t.at && g != p && g != x && !t.at[g].red && t.at[g].bh >= 1
      && (t.at[p].left == x || t.at[p].right == x) && (t.at[g].left == p || t.at[g].right == p)
      && LinksOk(t, x) && LinksOk(t, p) && LinksOk(t, g)
  {
    var p := t.at[x].parent;
    assert LinksOk(t, x) && LinksOk(t, p);
    var g := t.at[p].parent;
    assert p != t.root;
    assert LinksOk(t, g) && RedOk(t, p) && BlackOk(t, g);
  }

  /** Both children of `g` turn black and `g` red. */
  ghost function Recoloured(t: Tree, g: RbNode): (u: Tree)
    requires g in t.at && t.at[g].left in t.at && t.at[g].right in t.at
    ensures u.at.Keys == t.at.Keys && u.nodes == t.nodes && u.root == t.root
  {
    var l, r := t.at[g].left, t.at[g].right;
    var t1 := Painted(t, l, false, t.at[l].bh + 1);
    var t2 := Painted(t1, r, false, t1.at[r].bh + 1);
    Painted(t2, g, true, t2.at[g].bh)
  }

  lemma RecolouredCell(t: Tree, g: RbNode, m: RbNode)
    requires g in t.at && m in t.at && t.at[g].left in t.at && t.at[g].right in t.at
    requires t.at[g].left != t.at[g].right && g != t.at[g].left && g != t.at[g].right
    ensures Recoloured(t, g).at[m] ==
      if m == g then t.at[m].(red := true)
      else if m == t.at[g].left || m == t.at[g].right then t.at[m].(red := false, bh := t.at[m].bh + 1)
      else t.at[m]
  {
  }

  lemma RecolouredNode(t: Tree, g: RbNode, m: RbNode)
    requires Linked(t) && g in t.at && m in t.at && !t.at[g].red
    requires IsRed(t, t.at[g].left) && IsRed(t, t.at[g].right)
    requires BlackOk(t, m)
    ensures var u := Recoloured(t, g); BlackOk(u, m) && (RedOk(t, m) && m != g ==> RedOk(u, m))
  {
    hide Recoloured;
    assert LinksOk(t, g) && LinksOk(t, m);
    var l, r, u := t.at[g].left, t.at[g].right, Recoloured(t, g);
    assert LinksOk(t, l) && LinksOk(t, r);
    forall k | k in t.at
      ensures u.at[k] == (if k == g then t.at[k].(red := true)
                          else if k == l || k == r then t.at[k].(red := false, bh := t.at[k].bh + 1)
                          else t.at[k])
    {
      RecolouredCell(t, g, k);
    }
  }

  /** Red uncle: recolouring moves the fault to the grandparent. */
  lemma InsertRecolour(t: Tree, x: RbNode, g: RbNode)
    requires InsertInv(t, x) && IsRed(t, t.at[x].parent) && g == t.at[t.at[x].parent].parent && g in t.at
    requires IsRed(t, t.at[g].left) && IsRed(t, t.at[g].right)
    ensures InsertInv(Recoloured(t, g), g)
    ensures t.at[g].hi - t.at[g].lo > t.at[x].hi - t.at[x].lo
  {
    InsertGrandparent(t, x);
    var u := Recoloured(t, g);
    RecolourKeepsLinks(t, g);
    RecolouredCell(t, g, g);
    if t.root != null {
      RecolouredCell(t, g, t.root);
    }
    forall m | m in u.at
      ensures BlackOk(u, m) && (m != g ==> RedOk(u, m))
    {
      assert BlackOk(t, m) && (m != x ==> RedOk(t, m));
      RecolouredNode(t, g, m);
      RecolouredCell(t, g, m);
      RecolouredCell(t, g, t.at[x].parent);
    }
  }

  lemma ChildrenApart(t: Tree, g: RbNode)
    requires Linked(t) && g in t.at && t.at[g].left != null && t.at[g].right != null
    ensures t.at[g].left in t.at && t.at[g].right in t.at
    ensures t.at[g].left != t.at[g].right && g != t.at[g].left && g != t.at[g].right
  {
    assert LinksOk(t, g);
    assert LinksOk(t, t.at[g].left) && LinksOk(t, t.at[g].right);
  }

  lemma RecolourKeepsLinks(t: Tree, g: RbNode)
    requires Linked(t) && g in t.at && t.at[g].left != null && t.at[g].right != null
    ensures t.at[g].left in t.at && t.at[g].right in t.at && Linked(Recoloured(t, g))
    ensures t.at[g].left != t.at[g].right && g != t.at[g].left && g != t.at[g].right
  {
    hide LinksOk, Linked, Painted;
    ChildrenApart(t, g);
    var l, r := t.at[g].left, t.at[g].right;
    PaintKeepsLinks(t, l, false, t.at[l].bh + 1);
    var t1 := Painted(t, l, false, t.at[l].bh + 1);
    PaintKeepsLinks(t1, r, false, t1.at[r].bh + 1);
    var t2 := Painted(t1, r, false, t1.at[r].bh + 1);
    PaintKeepsLinks(t2, g, true, t2.at[g].bh);
  }

  /** Inner child: turning at the red parent makes the parent the outer child. */
  lemma InsertInner(t: Tree, x: RbNode, p: RbNode)
    requires InsertInv(t, x) && p == t.at[x].parent && IsRed(t, p) && t.at[p].right == x
    ensures x != p && RotatedLeft(t, p) == TurnedLeft(t, p, true, t.at[p].bh)
    ensures var u := RotatedLeft(t, p);
      && InsertInv(u, p) && u.at[p].parent == x && u.at[x].left == p && IsRed(u, x)
      && u.at[x].parent == t.at[p].parent
  {
    InsertGrandparent(t, x);
    LinkedTurnable(t, p);
    assert BlackOk(t, p) && BlackOk(t, x);
    var u := RotatedLeft(t, p);
    assert Painted(Painted(t, x, true, t.at[p].bh), p, true, t.at[p].bh).at == t.at;
    TurnedLeftCells(t, p, true, t.at[p].bh);
    TurnedLeftColours(t, p, true, t.at[p].bh);
    RotateLeftKeepsOrder(t, p);
    forall m | m in u.at
      ensures BlackOk(u, m) && (m != p ==> RedOk(u, m))
    {
      assert LinksOk(t, m) && BlackOk(t, m) && (m != x ==> RedOk(t, m)) && RedOk(t, p);
      TurnedLeftBlackOk(t, p, true, t.at[p].bh, m);
      TurnedLeftRedOk(t, p, true, t.at[p].bh, m);
    }
  }

  ghost predicate OuterChild(t: Tree, x: RbNode, p: RbNode, g: RbNode) {
    && InsertInv(t, x) && p == t.at[x].parent && IsRed(t, p) && t.at[p].right == x
    && g in t.at && t.at[p].parent == g && t.at[g].right == p && !IsRed(t, t.at[g].left)
    && p != g && t.at[g].bh >= 1
  }

  lemma InsertOuterNode(t: Tree, x: RbNode, p: RbNode, g: RbNode, m: RbNode)
    requires OuterChild(t, x, p, g) && m in t.at
    ensures var u := TurnedLeft(t, g, true, t.at[g].bh - 1); BlackOk(u, m) && (m != x ==> RedOk(u, m))
  {
    InsertOuterBlack(t, x, p, g, m);
    if m != x {
      InsertOuterRed(t, x, p, g, m);
    }
  }

  lemma InsertOuterBlack(t: Tree, x: RbNode, p: RbNode, g: RbNode, m: RbNode)
    requires OuterChild(t, x, p, g) && m in t.at
    ensures BlackOk(TurnedLeft(t, g, true, t.at[g].bh - 1), m)
  {
    InsertGrandparent(t, x);
    LinkedTurnable(t, g);
    hide TurnedLeft, RedOk;
    assert BlackOk(t, p) && BlackOk(t, x) && BlackOk(t, g);
    assert LinksOk(t, m) && BlackOk(t, m);
    TurnedLeftBlackOk(t, g, true, t.at[g].bh - 1, m);
  }

  lemma InsertOuterRed(t: Tree, x: RbNode, p: RbNode, g: RbNode, m: RbNode)
    requires OuterChild(t, x, p, g) && m in t.at && m != x
    ensures RedOk(TurnedLeft(t, g, true, t.at[g].bh - 1), m)
  {
    InsertGrandparent(t, x);
    LinkedTurnable(t, g);
    hide TurnedLeft, BlackOk;
    assert LinksOk(t, m) && RedOk(t, m) && RedOk(t, g);
    TurnedLeftRedOk(t, g, true, t.at[g].bh - 1, m);
  }

  /** Outer child: turning at the grandparent mends the tree. */
  lemma InsertOuter(t: Tree, x: RbNode, p: RbNode, g: RbNode)
    requires InsertInv(t, x) && p == t.at[x].parent && IsRed(t, p) && t.at[p].right == x
    requires g in t.at && t.at[p].parent == g && t.at[g].right == p && !IsRed(t, t.at[g].left)
    ensures p != g && t.at[g].bh >= 1
    ensures var u := TurnedLeft(t, g, true, t.at[g].bh - 1);
      InsertInv(u, x) && u.at[x].parent == p && !IsRed(u, p)
  {
    InsertGrandparent(t, x);
    LinkedTurnable(t, g);
    var bh := t.at[g].bh - 1;
    var u := TurnedLeft(t, g, true, bh);
    TurnedLeftCells(t, g, true, bh);
    TurnedLeftOther(t, g, true, bh, x);
    TurnedLeftColours(t, g, true, bh);
    TurnKeepsLinks(t, g, true, bh);
    forall m | m in u.at
      ensures BlackOk(u, m) && (m != x ==> RedOk(u, m))
    {
      InsertOuterNode(t, x, p, g, m);
    }
  }

  lemma MirrorPainted(t: Tree, m: RbNode, red: bool, bh: nat)
    requires m in t.at
    ensures Mirror(Painted(t, m, red, bh)) == Painted(Mirror(t), m, red, bh)
  {
    assert Mirror(Painted(t, m, red, bh)).at == Painted(Mirror(t), m, red, bh).at;
  }

  lemma PaintTwiceKeepsLinks(t: Tree, r: RbNode, red0: bool, bh0: nat, n: RbNode, red: bool, bh: nat)
    requires Linked(t) && n in t.at && r in t.at
    ensures Linked(Painted(Painted(t, r, red0, bh0), n, red, bh))
  {
    PaintKeepsLinks(t, r, red0, bh0);
    PaintKeepsLinks(Painted(t, r, red0, bh0), n, red, bh);
  }

  /** The right-hand form of a turn is recolouring around a right rotation. */
  lemma TurnedRightSteps(t: Tree, n: RbNode, red: bool, bh: nat)
    requires n in t.at && t.at[n].left in t.at && t.at[n].left != n
    ensures var l := t.at[n].left;
      TurnedRight(t, n, red, bh) == RotatedRight(Painted(Painted(t, l, t.at[n].red, t.at[n].bh), n, red, bh), n)
  {
    var l := t.at[n].left;
    MirrorPainted(t, l, t.at[n].red, t.at[n].bh);
    MirrorPainted(Painted(t, l, t.at[n].red, t.at[n].bh), n, red, bh);
  }

  /** `x` has a red parent `p`, itself the left child of `g`. */
  ghost predicate FaultLeft(t: Tree, x: RbNode, p: RbNode, g: RbNode) {
    && InsertInv(t, x) && p == t.at[x].parent && IsRed(t, p)
    && g in t.at && t.at[p].parent == g && t.at[g].left == p && p != g && t.at[g].bh >= 1 && !t.at[g].red
  }

  ghost predicate FaultRight(t: Tree, x: RbNode, p: RbNode, g: RbNode) {
    && InsertInv(t, x) && p == t.at[x].parent && IsRed(t, p)
    && g in t.at && t.at[p].parent == g && t.at[g].right == p && p != g && t.at[g].bh >= 1 && !t.at[g].red
  }

  lemma InsertFault(t: Tree, x: RbNode)
    requires InsertInv(t, x) && IsRed(t, t.at[x].parent)
    ensures var p := t.at[x].parent; var g := t.at[p].parent;
      && g != null && (t.at[p].left == x || t.at[p].right == x)
      && (FaultLeft(t, x, p, g) || FaultRight(t, x, p, g))
  {
    InsertGrandparent(t, x);
  }

  lemma InsertInnerLeft(t: Tree, x: RbNode, p: RbNode, g: RbNode)
    requires FaultLeft(t, x, p, g) && !IsRed(t, t.at[g].right) && t.at[p].right == x
    ensures var u := RotatedLeft(t, p);
      FaultLeft(u, p, x, g) && u.at[x].left == p && !IsRed(u, u.at[g].right)
  {
    InsertInner(t, x, p);
    InsertGrandparent(t, x);
    LinkedTurnable(t, p);
    TurnedLeftOther(t, p, true, t.at[p].bh, g);
    TurnedLeftColours(t, p, true, t.at[p].bh);
    InsertGrandparent(RotatedLeft(t, p), p);
  }

  lemma InsertInnerOfRight(t: Tree, x: RbNode, p: RbNode, g: RbNode)
    requires FaultRight(t, x, p, g) && !IsRed(t, t.at[g].left) && t.at[p].left == x
    ensures var u := RotatedRight(t, p);
      FaultRight(u, p, x, g) && u.at[x].right == p && !IsRed(u, u.at[g].left)
  {
    MirrorInsertInv(t, x);
    InsertInnerLeft(Mirror(t), x, p, g);
    MirrorInsertInv(RotatedLeft(Mirror(t), p), p);
  }

  lemma InsertTopRight(t: Tree, x: RbNode, p: RbNode, g: RbNode)
    requires FaultRight(t, x, p, g) && !IsRed(t, t.at[g].left) && t.at[p].right == x
    ensures var u := TurnedLeft(t, g, true, t.at[g].bh - 1);
      InsertInv(u, x) && !IsRed(u, u.at[x].parent)
  {
    InsertGrandparent(t, x);
    InsertOuter(t, x, p, g);
  }

  lemma MirrorFault(t: Tree, x: RbNode, p: RbNode, g: RbNode)
    requires FaultLeft(t, x, p, g) && !IsRed(t, t.at[g].right) && t.at[p].left == x
    ensures FaultRight(Mirror(t), x, p, g) && !IsRed(Mirror(t), Mirror(t).at[g].left) && Mirror(t).at[p].right == x
  {
    MirrorInsertInv(t, x);
  }

  lemma InsertTopLeft(t: Tree, x: RbNode, p: RbNode, g: RbNode)
    requires FaultLeft(t, x, p, g) && !IsRed(t, t.at[g].right) && t.at[p].left == x
    ensures var u := TurnedRight(t, g, true, t.at[g].bh - 1);
      InsertInv(u, x) && !IsRed(u, u.at[x].parent)
  {
    MirrorFault(t, x, p, g);
    InsertTopRight(Mirror(t), x, p, g);
    MirrorInsertInv(TurnedLeft(Mirror(t), g, true, t.at[g].bh - 1), x);
  }

  /** Painting the uncle, then the parent, then the grandparent. */
  lemma RecolourSteps(t: Tree, g: RbNode, p: RbNode, u: RbNode)
    requires g in t.at && p in t.at && u in t.at && p != u && g != p && g != u
    requires (t.at[g].left == p && t.at[g].right == u) || (t.at[g].left == u && t.at[g].right == p)
    ensures Painted(Painted(Painted(t, u, false, t.at[u].bh + 1), p, false, t.at[p].bh + 1), g, true, t.at[g].bh)
      == Recoloured(t, g)
  {
    var v := Painted(Painted(Painted(t, u, false, t.at[u].bh + 1), p, false, t.at[p].bh + 1), g, true, t.at[g].bh);
    forall m | m in t.at
      ensures v.at[m] == Recoloured(t, g).at[m]
    {
      RecolouredCell(t, g, m);
    }
    assert v.at == Recoloured(t, g).at;
  }

  /** `x` painted black. */
  ghost function Blackened(t: Tree, x: RbNode): (u: Tree)
    requires x in t.at
    ensures u.at.Keys == t.at.Keys && u.nodes == t.nodes && u.root == t.root
  {
    Painted(t, x, false, if t.at[x].red then t.at[x].bh + 1 else t.at[x].bh)
  }

  /** Once `x` has no red parent, a black root makes the tree valid. */
  lemma InsertFinish(t: Tree, x: RbNode)
    requires InsertInv(t, x) && !IsRed(t, t.at[x].parent)
    ensures t.root != null && t.root in t.at && Valid(Blackened(t, t.root))
  {
    NonEmpty(t, x);
    assert LinksOk(t, x) && LinksOk(t, t.root);
    var u := Blackened(t, t.root);
    PaintKeepsLinks(t, t.root, false, if t.at[t.root].red then t.at[t.root].bh + 1 else t.at[t.root].bh);
    forall m | m in u.at
      ensures BlackOk(u, m) && RedOk(u, m)
    {
      assert BlackOk(t, m) && LinksOk(t, m) && (m != x ==> RedOk(t, m));
    }
  }
}
