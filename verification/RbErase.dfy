/** Erasing: a node is unlinked, and `__rb_erase_color` mends the tree, step by step. */
module RbErase {
  import opened RbModel
  import opened RbInsert

  // ----- __rb_erase_color, step by step -----

  /** The side of `p` holding `x` is one black node short, and `p` does not show it. */
  ghost predicate Short(t: Tree, p: RbNode, x: RbNode?, o: RbNode?)
    requires p in t.at
  {
    && ((t.at[p].left == x && t.at[p].right == o) || (t.at[p].right == x && t.at[p].left == o))
    && Bh(t, o) == Bh(t, x) + 1 && t.at[p].bh == Bh(t, o) + Own(t.at[p].red)
  }

  ghost predicate ShortSide(t: Tree, p: RbNode?, x: RbNode?) {
    if p == null then x == t.root
    else p in t.at && (Short(t, p, x, t.at[p].right) || Short(t, p, x, t.at[p].left))
  }

  /** The tree is valid but for one missing black node on the side of `p` that holds `x`, and for
      `x` itself, which may be red above or below another red node. */
  ghost predicate EraseInv(t: Tree, x: RbNode?, p: RbNode?) {
    && Linked(t)
    && (x != null ==> x in t.at && t.at[x].parent == p)
    && ShortSide(t, p, x)
    && (forall m {:trigger BlackOk(t, m)} :: m in t.at && m != p ==> BlackOk(t, m))
    && (forall m {:trigger RedOk(t, m)} :: m in t.at && m != x && (x == null || t.at[m].parent != x) ==> RedOk(t, m))
    && (IsRed(t, t.root) ==> t.root == x)
  }

  lemma MirrorEraseInv(t: Tree, x: RbNode?, p: RbNode?)
    requires EraseInv(t, x, p)
    ensures EraseInv(Mirror(t), x, p)
  {
    MirrorLinked(t);
    var u := Mirror(t);
    forall k: RbNode?
      ensures Bh(u, k) == Bh(t, k) && IsRed(u, k) == IsRed(t, k)
    {
    }
    forall m | m in u.at
      ensures BlackOk(u, m) == BlackOk(t, m) && RedOk(u, m) == RedOk(t, m)
    {
      MirrorColours(t, m);
    }
  }

  /** Where the loop goes on: `x` is black or nil, and is not the root. */
  ghost predicate EraseAt(t: Tree, x: RbNode?, p: RbNode, o: RbNode) {
    && EraseInv(t, x, p) && !IsRed(t, x)
    && p in t.at && o in t.at && o != p && o != x && p != x
    && Short(t, p, x, o) && t.at[o].parent == p
    && LinksOk(t, p) && LinksOk(t, o)
    && BlackOk(t, o)
  }

  /** The sibling exists. */
  lemma EraseSibling(t: Tree, x: RbNode?, p: RbNode?)
    requires EraseInv(t, x, p) && !IsRed(t, x) && x != t.root
    ensures p != null && p in t.at
    ensures t.at[p].left == x ==> t.at[p].right != null && EraseAt(t, x, p, t.at[p].right)
    ensures t.at[p].left != x ==> t.at[p].right == x && t.at[p].left != null && EraseAt(t, x, p, t.at[p].left)
  {
    assert LinksOk(t, p);
    var o := if t.at[p].left == x then t.at[p].right else t.at[p].left;
    assert o != null;
    assert LinksOk(t, o) && BlackOk(t, o);
    if x != null {
      assert LinksOk(t, x);
    }
  }

  /** Every node but `x`, its parent and its children obeys the colour rule, and these do too when
      `x` is black. */
  lemma EraseRedOk(t: Tree, x: RbNode?, p: RbNode, o: RbNode, m: RbNode)
    requires EraseAt(t, x, p, o) && m in t.at
    ensures RedOk(t, m) && LinksOk(t, m)
  {
    assert LinksOk(t, m);
    if m == x || (x != null && t.at[m].parent == x) {
      assert !IsRed(t, x);
    }
  }

  lemma EraseParentBlack(t: Tree, x: RbNode?, p: RbNode, o: RbNode)
    requires EraseAt(t, x, p, o) && IsRed(t, o)
    ensures !t.at[p].red && t.at[p].bh >= 1
  {
    EraseRedOk(t, x, p, o, o);
  }

  lemma EraseSiblingBlack(t: Tree, x: RbNode?, p: RbNode, o: RbNode)
    requires EraseAt(t, x, p, o) && !IsRed(t, o)
    ensures t.at[o].bh >= 1 && t.at[p].bh >= 1
    ensures t.at[o].left != o && t.at[o].right != o && t.at[o].left != p && t.at[o].right != p
    ensures t.at[o].left != null ==> t.at[o].left in t.at
    ensures t.at[o].right != null ==> t.at[o].right in t.at
  {
    assert LinksOk(t, o) && LinksOk(t, p);
  }

  lemma EraseTurnBlackOk(t: Tree, x: RbNode?, p: RbNode, o: RbNode, m: RbNode)
    requires EraseAt(t, x, p, o) && t.at[p].right == o && IsRed(t, o) && !t.at[p].red && m in t.at && m != p
    requires t.at[p].bh >= 1
    ensures BlackOk(TurnedLeft(t, p, true, t.at[p].bh - 1), m)
  {
    LinkedTurnable(t, p);
    hide TurnedLeft, RedOk;
    assert LinksOk(t, m) && BlackOk(t, m);
    TurnedLeftBlackOk(t, p, true, t.at[p].bh - 1, m);
  }

  lemma EraseTurnRedOk(t: Tree, x: RbNode?, p: RbNode, o: RbNode, m: RbNode)
    requires EraseAt(t, x, p, o) && t.at[p].left == x && t.at[p].right == o && IsRed(t, o) && !t.at[p].red && m in t.at
    requires t.at[p].bh >= 1
    ensures RedOk(TurnedLeft(t, p, true, t.at[p].bh - 1), m)
  {
    LinkedTurnable(t, p);
    EraseRedOk(t, x, p, o, m);
    if t.at[o].left != null {
      EraseRedOk(t, x, p, o, t.at[o].left);
    }
    TurnedLeftRedOk(t, p, true, t.at[p].bh - 1, m);
  }

  /** Red sibling: a turn at the parent makes the sibling black and the parent red. */
  lemma EraseTurn(t: Tree, x: RbNode?, p: RbNode, o: RbNode)
    requires EraseAt(t, x, p, o) && t.at[p].left == x && t.at[p].right == o && IsRed(t, o)
    ensures t.at[p].bh >= 1 && !t.at[p].red
    ensures var u := TurnedLeft(t, p, true, t.at[p].bh - 1);
      && u.at[p].left == x && u.at[p].right == t.at[o].left && t.at[o].left != null && t.at[o].left in t.at
      && EraseAt(u, x, p, t.at[o].left) && u.at[p].red && !IsRed(u, t.at[o].left)
  {
    LinkedTurnable(t, p);
    EraseRedOk(t, x, p, o, o);
    var l, bh := t.at[o].left, t.at[p].bh - 1;
    var u := TurnedLeft(t, p, true, bh);
    assert l != null;
    assert LinksOk(t, l);
    EraseRedOk(t, x, p, o, l);
    TurnKeepsLinks(t, p, true, bh);
    TurnedLeftCells(t, p, true, bh);
    TurnedLeftColours(t, p, true, bh);
    TurnedLeftOther(t, p, true, bh, l);
    if x != null {
      TurnedLeftOther(t, p, true, bh, x);
    }
    forall m | m in u.at
      ensures (m != p ==> BlackOk(u, m)) && RedOk(u, m)
    {
      EraseTurnRedOk(t, x, p, o, m);
      if m != p {
        EraseTurnBlackOk(t, x, p, o, m);
      }
    }
    assert LinksOk(u, p) && LinksOk(u, l) && BlackOk(u, l);
    assert Short(u, p, x, l);
  }

  ghost function MovedUp(t: Tree, p: RbNode, o: RbNode): (u: Tree)
    requires p in t.at && o in t.at && t.at[o].bh >= 1 && t.at[p].bh >= 1
    ensures u.at.Keys == t.at.Keys && u.nodes == t.nodes && u.root == t.root
  {
    var t1 := Painted(t, o, true, t.at[o].bh - 1);
    Painted(t1, p, t1.at[p].red, t.at[p].bh - 1)
  }

  lemma MovedUpCells(t: Tree, p: RbNode, o: RbNode)
    requires p in t.at && o in t.at && o != p && t.at[o].bh >= 1 && t.at[p].bh >= 1
    ensures var u := MovedUp(t, p, o);
      && u.at[o] == t.at[o].(red := true, bh := t.at[o].bh - 1)
      && u.at[p] == t.at[p].(bh := t.at[p].bh - 1)
      && (forall k {:trigger u.at[k]} :: k in t.at && k != o && k != p ==> u.at[k] == t.at[k])
  {
  }

  lemma MovedUpLinks(t: Tree, p: RbNode, o: RbNode)
    requires Linked(t) && p in t.at && o in t.at && t.at[o].bh >= 1 && t.at[p].bh >= 1
    ensures Linked(MovedUp(t, p, o))
  {
    var t1 := Painted(t, o, true, t.at[o].bh - 1);
    PaintKeepsLinks(t, o, true, t.at[o].bh - 1);
    PaintKeepsLinks(t1, p, t1.at[p].red, t.at[p].bh - 1);
  }

  lemma MovedUpBlackOk(t: Tree, x: RbNode?, p: RbNode, o: RbNode, m: RbNode)
    requires EraseAt(t, x, p, o) && !IsRed(t, o) && t.at[o].bh >= 1 && t.at[p].bh >= 1
    requires m in t.at && m != t.at[p].parent
    ensures BlackOk(MovedUp(t, p, o), m)
  {
    MovedUpCells(t, p, o);
    assert LinksOk(t, m);
    assert m != p ==> BlackOk(t, m);
  }

  lemma MovedUpRedOk(t: Tree, x: RbNode?, p: RbNode, o: RbNode, m: RbNode)
    requires EraseAt(t, x, p, o) && !IsRed(t, t.at[o].left) && !IsRed(t, t.at[o].right)
    requires t.at[o].bh >= 1 && t.at[p].bh >= 1
    requires m in t.at && m != p && t.at[m].parent != p
    ensures RedOk(MovedUp(t, p, o), m)
  {
    MovedUpCells(t, p, o);
    EraseRedOk(t, x, p, o, m);
  }

  /** Black sibling with black children: painting it red moves the shortage up. */
  lemma EraseMoveUp(t: Tree, x: RbNode?, p: RbNode, o: RbNode)
    requires EraseAt(t, x, p, o) && !IsRed(t, o) && !IsRed(t, t.at[o].left) && !IsRed(t, t.at[o].right)
    ensures t.at[o].bh >= 1 && t.at[p].bh >= 1
    ensures EraseInv(MovedUp(t, p, o), p, t.at[p].parent)
  {
    var u := MovedUp(t, p, o);
    MovedUpLinks(t, p, o);
    MovedUpCells(t, p, o);
    EraseMoveUpShort(t, x, p, o);
    forall m | m in u.at && m != t.at[p].parent
      ensures BlackOk(u, m)
    {
      MovedUpBlackOk(t, x, p, o, m);
    }
    forall m | m in u.at && m != p && t.at[m].parent != p
      ensures RedOk(u, m)
    {
      MovedUpRedOk(t, x, p, o, m);
    }
  }

  lemma EraseMoveUpShort(t: Tree, x: RbNode?, p: RbNode, o: RbNode)
    requires EraseAt(t, x, p, o) && !IsRed(t, o) && t.at[o].bh >= 1 && t.at[p].bh >= 1
    ensures ShortSide(MovedUp(t, p, o), t.at[p].parent, p)
  {
    MovedUpCells(t, p, o);
    var g := t.at[p].parent;
    if g != null {
      assert LinksOk(t, g) && BlackOk(t, g);
    }
  }

  ghost predicate InnerRedRight(t: Tree, x: RbNode?, p: RbNode, o: RbNode, q: RbNode) {
    && EraseAt(t, x, p, o) && t.at[p].right == x && t.at[p].left == o && !IsRed(t, o)
    && t.at[o].right == q && IsRed(t, q) && !IsRed(t, t.at[o].left)
  }

  ghost predicate StraightRight(u: Tree, x: RbNode?, p: RbNode, o: RbNode, q: RbNode) {
    && p in u.at && q in u.at
    && u.at[p].right == x && u.at[p].left == q && EraseAt(u, x, p, q) && !IsRed(u, q)
    && u.at[q].left == o && IsRed(u, o)
  }

  lemma EraseInnerLinks(t: Tree, x: RbNode?, p: RbNode, o: RbNode, q: RbNode)
    requires InnerRedRight(t, x, p, o, q)
    ensures t.at[o].bh >= 1 && q in t.at && q != o
    ensures var u := TurnedLeft(t, o, true, t.at[o].bh - 1);
      && Linked(u) && u.at[p].right == x && u.at[p].left == q && u.at[q].left == o && u.at[q].parent == p
      && (x != null ==> u.at[x].parent == p)
      && !IsRed(u, q) && IsRed(u, o) && !IsRed(u, x) && !IsRed(u, u.root)
      && Short(u, p, x, q)
  {
    LinkedTurnable(t, o);
    var bh := t.at[o].bh - 1;
    TurnKeepsLinks(t, o, true, bh);
    TurnedLeftCells(t, o, true, bh);
    TurnedLeftColours(t, o, true, bh);
    TurnedLeftOther(t, o, true, bh, p);
    if x != null {
      assert LinksOk(t, x);
      TurnedLeftOther(t, o, true, bh, x);
    }
  }

  /** Black sibling whose inner child alone is red, on the right-hand side: a turn at the sibling
      makes the red child the outer one. */
  lemma EraseInner(t: Tree, x: RbNode?, p: RbNode, o: RbNode, q: RbNode)
    requires InnerRedRight(t, x, p, o, q)
    ensures t.at[o].bh >= 1 && q in t.at && q != o
    ensures StraightRight(TurnedLeft(t, o, true, t.at[o].bh - 1), x, p, o, q)
  {
    EraseInnerLinks(t, x, p, o, q);
    var u := TurnedLeft(t, o, true, t.at[o].bh - 1);
    forall m | m in u.at
      ensures (m != p ==> BlackOk(u, m)) && RedOk(u, m)
    {
      EraseInnerRedOk(t, x, p, o, q, m);
      if m != p {
        EraseInnerBlackOk(t, x, p, o, q, m);
      }
    }
    assert LinksOk(u, p) && LinksOk(u, q) && BlackOk(u, q);
  }

  lemma EraseInnerBlackOk(t: Tree, x: RbNode?, p: RbNode, o: RbNode, q: RbNode, m: RbNode)
    requires EraseAt(t, x, p, o) && !IsRed(t, o) && t.at[o].right == q && IsRed(t, q) && m in t.at && m != p
    requires t.at[o].bh >= 1 && q != o
    ensures BlackOk(TurnedLeft(t, o, true, t.at[o].bh - 1), m)
  {
    LinkedTurnable(t, o);
    hide TurnedLeft, RedOk;
    assert LinksOk(t, m) && BlackOk(t, m) && BlackOk(t, q);
    TurnedLeftBlackOk(t, o, true, t.at[o].bh - 1, m);
  }

  lemma EraseInnerRedOk(t: Tree, x: RbNode?, p: RbNode, o: RbNode, q: RbNode, m: RbNode)
    requires EraseAt(t, x, p, o) && !IsRed(t, o) && t.at[o].right == q && IsRed(t, q) && m in t.at
    requires !IsRed(t, t.at[o].left) && t.at[o].bh >= 1 && q != o
    ensures RedOk(TurnedLeft(t, o, true, t.at[o].bh - 1), m)
  {
    LinkedTurnable(t, o);
    EraseRedOk(t, x, p, o, m);
    EraseRedOk(t, x, p, o, o);
    if t.at[q].left != null {
      EraseRedOk(t, x, p, o, t.at[q].left);
    }
    TurnedLeftRedOk(t, o, true, t.at[o].bh - 1, m);
  }

  /** Black sibling whose outer child is red: a turn at the parent mends the tree. */
  ghost function Mended(t: Tree, p: RbNode, o: RbNode, q: RbNode): (u: Tree)
    requires p in t.at && o in t.at && q in t.at && t.at[p].right == o && o != p && q != p
  {
    TurnedLeft(Painted(t, q, false, t.at[q].bh + 1), p, false, t.at[o].bh)
  }

  ghost predicate OuterRed(t: Tree, x: RbNode?, p: RbNode, o: RbNode, q: RbNode) {
    && EraseAt(t, x, p, o) && t.at[p].left == x && t.at[p].right == o && !IsRed(t, o)
    && q in t.at && t.at[o].right == q && IsRed(t, q) && q != p && q != o
  }

  lemma PaintedColours(t: Tree, q: RbNode, red: bool, bh: nat)
    requires q in t.at
    ensures var u := Painted(t, q, red, bh);
      && Bh(u, q) == bh && IsRed(u, q) == red && u.at[q] == t.at[q].(red := red, bh := bh)
      && (forall k: RbNode? {:trigger Bh(u, k)} {:trigger IsRed(u, k)} ::
            k != q ==> Bh(u, k) == Bh(t, k) && IsRed(u, k) == IsRed(t, k))
      && (forall k {:trigger u.at[k]} :: k in t.at && k != q ==> u.at[k] == t.at[k])
  {
  }

  lemma MendedTurnable(t: Tree, x: RbNode?, p: RbNode, o: RbNode, q: RbNode)
    requires OuterRed(t, x, p, o, q)
    ensures var t1 := Painted(t, q, false, t.at[q].bh + 1);
      t1.at[p] == t.at[p] && t1.at[o] == t.at[o] && Linked(t1) && Turnable(t1, p, o)
  {
    PaintKeepsLinks(t, q, false, t.at[q].bh + 1);
    LinkedTurnable(Painted(t, q, false, t.at[q].bh + 1), p);
  }

  lemma MendedPaint(t: Tree, x: RbNode?, p: RbNode, o: RbNode, q: RbNode, m: RbNode)
    requires OuterRed(t, x, p, o, q) && m in t.at && m != p && m != o
    ensures var t1 := Painted(t, q, false, t.at[q].bh + 1);
      BlackOk(t1, m) && LinksOk(t1, m) && Turnable(t1, p, o)
  {
    MendedTurnable(t, x, p, o, q);
    assert LinksOk(t, q) && LinksOk(t, m) && BlackOk(t, m);
    PaintedColours(t, q, false, t.at[q].bh + 1);
  }

  lemma MendedSides(t: Tree, x: RbNode?, p: RbNode, o: RbNode, q: RbNode)
    requires OuterRed(t, x, p, o, q)
    ensures BlackOk(Mended(t, p, o, q), p) && BlackOk(Mended(t, p, o, q), o)
  {
    hide TurnedLeft;
    var t1 := Painted(t, q, false, t.at[q].bh + 1);
    MendedTurnable(t, x, p, o, q);
    PaintedColours(t, q, false, t.at[q].bh + 1);
    TurnedLeftBlackOk(t1, p, false, t.at[o].bh, p);
    TurnedLeftBlackOk(t1, p, false, t.at[o].bh, o);
  }

  lemma MendedBlackOk(t: Tree, x: RbNode?, p: RbNode, o: RbNode, q: RbNode, m: RbNode)
    requires OuterRed(t, x, p, o, q) && m in t.at
    ensures BlackOk(Mended(t, p, o, q), m)
  {
    hide BlackOk, LinksOk, EraseAt, TurnedLeft, Painted, Turnable;
    if m == p || m == o {
      MendedSides(t, x, p, o, q);
    } else {
      MendedPaint(t, x, p, o, q, m);
      TurnedLeftAway(Painted(t, q, false, t.at[q].bh + 1), p, o, false, t.at[o].bh, m);
    }
  }

  lemma MendedRedOk(t: Tree, x: RbNode?, p: RbNode, o: RbNode, q: RbNode, m: RbNode)
    requires OuterRed(t, x, p, o, q) && m in t.at
    ensures RedOk(Mended(t, p, o, q), m)
  {
    hide TurnedLeft;
    var t1 := Painted(t, q, false, t.at[q].bh + 1);
    EraseRedOk(t, x, p, o, q);
    EraseRedOk(t, x, p, o, m);
    EraseRedOk(t, x, p, o, p);
    MendedTurnable(t, x, p, o, q);
    PaintedColours(t, q, false, t.at[q].bh + 1);
    assert LinksOk(t1, m);
    TurnedLeftRedOk(t1, p, false, t.at[o].bh, m);
  }

  lemma MendedRoot(t: Tree, x: RbNode?, p: RbNode, o: RbNode, q: RbNode)
    requires OuterRed(t, x, p, o, q)
    ensures var u := Mended(t, p, o, q); Linked(u) && !IsRed(u, u.root)
  {
    hide TurnedLeft;
    var t1 := Painted(t, q, false, t.at[q].bh + 1);
    MendedTurnable(t, x, p, o, q);
    PaintedColours(t, q, false, t.at[q].bh + 1);
    TurnKeepsLinks(t1, p, false, t.at[o].bh);
    TurnedLeftCells(t1, p, false, t.at[o].bh);
    TurnedLeftColours(t1, p, false, t.at[o].bh);
  }

  lemma EraseOuter(t: Tree, x: RbNode?, p: RbNode, o: RbNode, q: RbNode)
    requires OuterRed(t, x, p, o, q)
    ensures Valid(Mended(t, p, o, q))
  {
    MendedRoot(t, x, p, o, q);
    MendedTurnable(t, x, p, o, q);
    var u := Mended(t, p, o, q);
    forall m | m in u.at
      ensures BlackOk(u, m) && RedOk(u, m)
    {
      MendedBlackOk(t, x, p, o, q, m);
      MendedRedOk(t, x, p, o, q, m);
    }
  }

  lemma MirrorEraseAt(t: Tree, x: RbNode?, p: RbNode, o: RbNode)
    requires EraseAt(t, x, p, o)
    ensures EraseAt(Mirror(t), x, p, o)
  {
    MirrorEraseInv(t, x, p);
    MirrorLinksOk(t, p);
    MirrorLinksOk(t, o);
    MirrorColours(t, o);
  }

  /** The mirror image of `EraseTurn`. */
  lemma EraseTurnRight(t: Tree, x: RbNode?, p: RbNode, o: RbNode)
    requires EraseAt(t, x, p, o) && t.at[p].right == x && t.at[p].left == o && IsRed(t, o)
    ensures t.at[p].bh >= 1 && !t.at[p].red
    ensures var u := TurnedRight(t, p, true, t.at[p].bh - 1);
      && u.at[p].right == x && u.at[p].left == t.at[o].right && t.at[o].right != null && t.at[o].right in t.at
      && EraseAt(u, x, p, t.at[o].right) && u.at[p].red && !IsRed(u, t.at[o].right)
  {
    hide TurnedLeft, BlackOk, RedOk, Short;
    MirrorEraseAt(t, x, p, o);
    EraseTurn(Mirror(t), x, p, o);
    MirrorEraseAt(TurnedLeft(Mirror(t), p, true, t.at[p].bh - 1), x, p, t.at[o].right);
  }

  ghost predicate InnerRedLeft(t: Tree, x: RbNode?, p: RbNode, o: RbNode, q: RbNode) {
    && EraseAt(t, x, p, o) && t.at[p].left == x && t.at[p].right == o && !IsRed(t, o)
    && t.at[o].left == q && IsRed(t, q) && !IsRed(t, t.at[o].right)
  }

  ghost predicate StraightLeft(u: Tree, x: RbNode?, p: RbNode, o: RbNode, q: RbNode) {
    && p in u.at && q in u.at
    && u.at[p].left == x && u.at[p].right == q && EraseAt(u, x, p, q) && !IsRed(u, q)
    && u.at[q].right == o && IsRed(u, o)
  }

  lemma MirrorInner(t: Tree, x: RbNode?, p: RbNode, o: RbNode, q: RbNode)
    requires InnerRedLeft(t, x, p, o, q)
    ensures InnerRedRight(Mirror(t), x, p, o, q)
  {
    MirrorEraseAt(t, x, p, o);
  }

  lemma MirrorStraight(u: Tree, x: RbNode?, p: RbNode, o: RbNode, q: RbNode)
    requires StraightRight(u, x, p, o, q)
    ensures StraightLeft(Mirror(u), x, p, o, q)
  {
    MirrorEraseAt(u, x, p, q);
  }

  /** The mirror image of `EraseInner`. */
  lemma EraseInnerLeft(t: Tree, x: RbNode?, p: RbNode, o: RbNode, q: RbNode)
    requires InnerRedLeft(t, x, p, o, q)
    ensures t.at[o].bh >= 1 && q in t.at && q != o
    ensures StraightLeft(TurnedRight(t, o, true, t.at[o].bh - 1), x, p, o, q)
  {
    hide TurnedLeft, BlackOk, RedOk, Short;
    MirrorInner(t, x, p, o, q);
    EraseInner(Mirror(t), x, p, o, q);
    MirrorStraight(TurnedLeft(Mirror(t), o, true, t.at[o].bh - 1), x, p, o, q);
  }

  ghost predicate OuterRedRight(t: Tree, x: RbNode?, p: RbNode, o: RbNode, q: RbNode) {
    && EraseAt(t, x, p, o) && t.at[p].right == x && t.at[p].left == o && !IsRed(t, o)
    && q in t.at && t.at[o].left == q && IsRed(t, q) && q != p && q != o
  }

  ghost function MendedRight(t: Tree, p: RbNode, o: RbNode, q: RbNode): (u: Tree)
    requires p in t.at && o in t.at && q in t.at && t.at[p].left == o && o != p && q != p
  {
    TurnedRight(Painted(t, q, false, t.at[q].bh + 1), p, false, t.at[o].bh)
  }

  lemma MirrorOuter(t: Tree, x: RbNode?, p: RbNode, o: RbNode, q: RbNode)
    requires OuterRedRight(t, x, p, o, q)
    ensures OuterRed(Mirror(t), x, p, o, q)
  {
    MirrorEraseAt(t, x, p, o);
  }

  lemma MirrorMended(t: Tree, p: RbNode, o: RbNode, q: RbNode)
    requires p in t.at && o in t.at && q in t.at && t.at[p].left == o && o != p && q != p
    ensures MendedRight(t, p, o, q) == Mirror(Mended(Mirror(t), p, o, q))
  {
    var t1, m := Painted(t, q, false, t.at[q].bh + 1), Mirror(t);
    assert m.at[q].bh == t.at[q].bh && m.at[o].bh == t.at[o].bh;
    assert Mirror(t1) == Painted(m, q, false, m.at[q].bh + 1) by {
      MirrorPainted(t, q, false, t.at[q].bh + 1);
    }
    MendedIsTurn(m, Mirror(t1), p, o, q);
  }

  lemma MendedIsTurn(m: Tree, t2: Tree, p: RbNode, o: RbNode, q: RbNode)
    requires p in m.at && o in m.at && q in m.at && m.at[p].right == o && o != p && q != p
    requires t2 == Painted(m, q, false, m.at[q].bh + 1)
    ensures p in t2.at && t2.at[p].right in t2.at && t2.at[p].right != p
    ensures Mended(m, p, o, q) == TurnedLeft(t2, p, false, m.at[o].bh)
  {
  }

  /** The mirror image of `EraseOuter`. */
  lemma EraseOuterRight(t: Tree, x: RbNode?, p: RbNode, o: RbNode, q: RbNode)
    requires OuterRedRight(t, x, p, o, q)
    ensures Valid(MendedRight(t, p, o, q))
  {
    MirrorOuter(t, x, p, o, q);
    EraseOuter(Mirror(t), x, p, o, q);
    MirrorValid(Mended(Mirror(t), p, o, q));
    MirrorMended(t, p, o, q);
  }

  lemma BlackenedRoot(t: Tree)
    requires Valid(t) && t.root != null
    ensures t.root in t.at && Valid(Blackened(t, t.root))
  {
    assert Blackened(t, t.root).at == t.at;
  }

  /** The end of the loop: a red `x` takes the missing black, and a root needs none. */
  lemma EraseFinish(t: Tree, x: RbNode?, p: RbNode?)
    requires EraseInv(t, x, p) && (IsRed(t, x) || x == t.root)
    ensures x == null ==> Valid(t)
    ensures x != null ==> x in t.at && Valid(Blackened(t, x))
  {
    if x == null {
      assert p == null by {
        if p != null {
          NonEmpty(t, p);
        }
      }
    } else {
      assert LinksOk(t, x);
      var u := Blackened(t, x);
      var bh := if t.at[x].red then t.at[x].bh + 1 else t.at[x].bh;
      PaintKeepsLinks(t, x, false, bh);
      PaintedColours(t, x, false, bh);
      forall m | m in u.at
        ensures BlackOk(u, m) && RedOk(u, m)
      {
        EraseFinishNode(t, x, p, m);
      }
    }
  }

  lemma EraseFinishNode(t: Tree, x: RbNode, p: RbNode?, m: RbNode)
    requires EraseInv(t, x, p) && (IsRed(t, x) || x == t.root) && m in t.at
    ensures BlackOk(Blackened(t, x), m) && RedOk(Blackened(t, x), m)
  {
    EraseFinishBlack(t, x, p, m);
    assert m != x && t.at[m].parent != x ==> RedOk(t, m);
  }

  lemma EraseFinishBlack(t: Tree, x: RbNode, p: RbNode?, m: RbNode)
    requires EraseInv(t, x, p) && (IsRed(t, x) || x == t.root) && m in t.at
    ensures BlackOk(Blackened(t, x), m)
  {
    hide RedOk;
    assert LinksOk(t, x) && LinksOk(t, m);
    assert m != p ==> BlackOk(t, m);
    if p != null {
      assert LinksOk(t, p);
    }
  }

  // ----- Unlinking -----

  ghost function SplicedCell(c: Cell, k: int, n: RbNode, child: RbNode?, up: RbNode?, m: RbNode): Cell {
    c.(left := if c.left == n then child else c.left,
       right := if c.right == n then child else c.right,
       parent := if m == child then up else c.parent,
       pos := if c.pos > k then c.pos - 1 else c.pos,
       lo := if c.lo > k then c.lo - 1 else c.lo,
       hi := if c.hi > k then c.hi - 1 else c.hi)
  }

  ghost function OnlyChild(t: Tree, n: RbNode): RbNode?
    requires n in t.at
  {
    if t.at[n].left == null then t.at[n].right else t.at[n].left
  }

  /** A node with at most one child makes way for it. */
  ghost function Spliced(t: Tree, n: RbNode): (u: Tree)
    requires n in t.at && 0 <= t.at[n].pos < |t.nodes|
    ensures u.at.Keys == t.at.Keys - {n}
    ensures u.nodes == t.nodes[..t.at[n].pos] + t.nodes[t.at[n].pos + 1..]
  {
    var c, child := t.at[n], OnlyChild(t, n);
    Tree(if t.root == n then child else t.root,
         t.nodes[..c.pos] + t.nodes[c.pos + 1..],
         map m | m in t.at.Keys - {n} :: SplicedCell(t.at[m], c.pos, n, child, c.parent, m))
  }

  lemma SpliceIndexed(t: Tree, n: RbNode)
    requires Indexed(t) && n in t.at
    ensures PosOk(t, n) && Indexed(Spliced(t, n))
  {
    assert PosOk(t, n);
    var u, k := Spliced(t, n), t.at[n].pos;
    forall m | m in u.at
      ensures PosOk(u, m)
    {
      assert PosOk(t, m);
    }
    forall i | 0 <= i < |u.nodes|
      ensures u.nodes[i] in u.at && u.at[u.nodes[i]].pos == i
    {
      assert u.nodes[i] == t.nodes[if i < k then i else i + 1];
    }
  }

  lemma SpliceLinksOk(t: Tree, n: RbNode, m: RbNode)
    requires n in t.at && LinksOk(t, n) && PosOk(t, n)
    requires t.at[n].left == null || t.at[n].right == null
    requires m in t.at && m != n && LinksOk(t, m) && t.at[m].pos != t.at[n].pos
    requires t.at[n].parent != null ==> LinksOk(t, t.at[n].parent)
    ensures LinksOk(Spliced(t, n), m)
  {
    hide Spliced;
    var c := t.at[n];
    SplicedAt(t, n, m);
    SplicedAt(t, n, t.at[m].left);
    SplicedAt(t, n, t.at[m].right);
    SplicedAt(t, n, t.at[m].parent);
    SplicedAt(t, n, c.parent);
    SplicedAt(t, n, c.left);
    SplicedAt(t, n, c.right);
  }

  lemma SplicedAt(t: Tree, n: RbNode, k: RbNode?)
    requires n in t.at && 0 <= t.at[n].pos < |t.nodes|
    ensures var c := t.at[n];
      k != null && k in t.at && k != n ==>
        && k in Spliced(t, n).at
        && Spliced(t, n).at[k] == SplicedCell(t.at[k], c.pos, n, OnlyChild(t, n), c.parent, k)
    ensures Spliced(t, n).root == if t.root == n then OnlyChild(t, n) else t.root
  {
  }

  lemma SpliceKeepsLinks(t: Tree, n: RbNode)
    requires Linked(t) && n in t.at && (t.at[n].left == null || t.at[n].right == null)
    ensures PosOk(t, n) && Linked(Spliced(t, n))
  {
    SpliceIndexed(t, n);
    var u := Spliced(t, n);
    assert LinksOk(t, n);
    forall m | m in u.at
      ensures LinksOk(u, m)
    {
      assert LinksOk(t, m) && PosOk(t, m);
      if t.at[n].parent != null {
        assert LinksOk(t, t.at[n].parent);
      }
      SpliceLinksOk(t, n, m);
    }
    SpliceRoot(t, n);
  }

  lemma SpliceRoot(t: Tree, n: RbNode)
    requires RootOk(t) && n in t.at && PosOk(t, n) && (t.at[n].left == null || t.at[n].right == null)
    requires LinksOk(t, n)
    requires forall m {:trigger LinksOk(t, m)} :: m in t.at ==> LinksOk(t, m)
    ensures RootOk(Spliced(t, n))
  {
    var child := OnlyChild(t, n);
    if child != null {
      assert LinksOk(t, child);
    }
    if t.root != null {
      assert LinksOk(t, t.root);
    }
  }

  lemma SplicedColours(t: Tree, n: RbNode)
    requires n in t.at && PosOk(t, n)
    ensures forall k: RbNode? {:trigger Bh(Spliced(t, n), k)} {:trigger IsRed(Spliced(t, n), k)} :: k != n ==>
      Bh(Spliced(t, n), k) == Bh(t, k) && IsRed(Spliced(t, n), k) == IsRed(t, k)
  {
  }

  lemma SplicedCells(t: Tree, n: RbNode, m: RbNode)
    requires n in t.at && PosOk(t, n) && m in t.at && m != n
    ensures var c, d, child := t.at[m], Spliced(t, n).at[m], OnlyChild(t, n);
      && d.left == (if c.left == n then child else c.left)
      && d.right == (if c.right == n then child else c.right)
      && d.parent == (if m == child then t.at[n].parent else c.parent)
      && d.red == c.red && d.bh == c.bh
  {
  }

  lemma SplicedBlackOk(t: Tree, n: RbNode, m: RbNode)
    requires n in t.at && PosOk(t, n) && LinksOk(t, n) && BlackOk(t, n)
    requires t.at[n].left == null || t.at[n].right == null
    requires m in t.at && m != n && LinksOk(t, m) && BlackOk(t, m)
    ensures m != t.at[n].parent || t.at[n].red ==> BlackOk(Spliced(t, n), m)
    ensures m == t.at[n].parent && !t.at[n].red ==>
      Short(Spliced(t, n), m, OnlyChild(t, n), Spliced(t, n).at[m].left)
      || Short(Spliced(t, n), m, OnlyChild(t, n), Spliced(t, n).at[m].right)
  {
    SplicedCells(t, n, m);
    SplicedColours(t, n);
  }

  lemma SplicedRedOk(t: Tree, n: RbNode, m: RbNode)
    requires n in t.at && PosOk(t, n) && LinksOk(t, n) && RedOk(t, n) && m in t.at && m != n
    requires LinksOk(t, m) && RedOk(t, m)
    requires t.at[n].left == null || t.at[n].right == null
    ensures m != OnlyChild(t, n) || t.at[n].red ==> RedOk(Spliced(t, n), m)
  {
    SplicedCells(t, n, m);
    SplicedColours(t, n);
  }

  /** Taking out a red node leaves a valid tree; taking out a black one leaves its parent short. */
  lemma SpliceErase(t: Tree, n: RbNode)
    requires Valid(t) && n in t.at && (t.at[n].left == null || t.at[n].right == null)
    ensures PosOk(t, n)
    ensures if t.at[n].red then Valid(Spliced(t, n)) else EraseInv(Spliced(t, n), OnlyChild(t, n), t.at[n].parent)
  {
    SpliceKeepsLinks(t, n);
    assert LinksOk(t, n) && BlackOk(t, n) && RedOk(t, n);
    var u, child := Spliced(t, n), OnlyChild(t, n);
    SplicedColours(t, n);
    if child != null {
      assert LinksOk(t, child) && RedOk(t, child);
      SplicedCells(t, n, child);
    }
    forall m | m in u.at
      ensures m != t.at[n].parent || t.at[n].red ==> BlackOk(u, m)
      ensures m != child || t.at[n].red ==> RedOk(u, m)
    {
      assert LinksOk(t, m) && BlackOk(t, m) && RedOk(t, m);
      SplicedBlackOk(t, n, m);
      SplicedRedOk(t, n, m);
    }
    var p := t.at[n].parent;
    if p != null {
      assert LinksOk(t, p) && BlackOk(t, p);
      SplicedBlackOk(t, n, p);
    }
  }

  ghost function Sub(k: RbNode?, n: RbNode, s: RbNode): RbNode? {
    if k == n then s else k
  }

  /** `s`, from outside the tree, takes the place of `n`. */
  ghost function Replaced(t: Tree, n: RbNode, s: RbNode): (u: Tree)
    requires n in t.at && s !in t.at && 0 <= t.at[n].pos < |t.nodes|
    ensures u.at.Keys == t.at.Keys - {n} + {s} && u.nodes == t.nodes[t.at[n].pos := s]
  {
    Tree(Sub(t.root, n, s), t.nodes[t.at[n].pos := s],
         map m | m in t.at.Keys - {n} + {s} ::
           var c := t.at[if m == s then n else m];
           c.(left := Sub(c.left, n, s), right := Sub(c.right, n, s), parent := Sub(c.parent, n, s)))
  }

  lemma ReplacedCells(t: Tree, n: RbNode, s: RbNode, m: RbNode)
    requires n in t.at && s !in t.at && PosOk(t, n) && m in t.at
    ensures var u, m' := Replaced(t, n, s), Sub(m, n, s);
      m' in u.at && var c := t.at[m];
      u.at[m'] == c.(left := Sub(c.left, n, s), right := Sub(c.right, n, s), parent := Sub(c.parent, n, s))
  {
  }

  lemma ReplaceLinksOk(t: Tree, n: RbNode, s: RbNode, m: RbNode)
    requires Linked(t) && n in t.at && s !in t.at && PosOk(t, n) && m in t.at
    ensures Sub(m, n, s) in Replaced(t, n, s).at && LinksOk(Replaced(t, n, s), Sub(m, n, s))
  {
    assert LinksOk(t, m);
    ReplacedCells(t, n, s, m);
    if t.at[m].left != null {
      ReplacedCells(t, n, s, t.at[m].left);
    }
    if t.at[m].right != null {
      ReplacedCells(t, n, s, t.at[m].right);
    }
    if t.at[m].parent != null {
      ReplacedCells(t, n, s, t.at[m].parent);
    }
  }

  lemma ReplaceIndexed(t: Tree, n: RbNode, s: RbNode)
    requires Indexed(t) && n in t.at && s !in t.at && PosOk(t, n)
    ensures Indexed(Replaced(t, n, s))
  {
    var u := Replaced(t, n, s);
    forall m | m in u.at
      ensures PosOk(u, m)
    {
      assert PosOk(t, if m == s then n else m);
    }
    forall i | 0 <= i < |u.nodes|
      ensures u.nodes[i] in u.at && u.at[u.nodes[i]].pos == i
    {
      assert t.nodes[i] in t.at;
    }
  }

  lemma ReplaceKeepsLinks(t: Tree, n: RbNode, s: RbNode)
    requires Linked(t) && n in t.at && s !in t.at
    ensures PosOk(t, n) && Linked(Replaced(t, n, s))
  {
    assert PosOk(t, n);
    var u := Replaced(t, n, s);
    ReplaceIndexed(t, n, s);
    forall m | m in u.at
      ensures LinksOk(u, m)
    {
      ReplaceLinksOk(t, n, s, if m == s then n else m);
    }
    NonEmpty(t, n);
    ReplacedCells(t, n, s, t.root);
  }

  lemma ReplacedColours(t: Tree, n: RbNode, s: RbNode, k: RbNode?)
    requires n in t.at && s !in t.at && PosOk(t, n) && (k != null ==> k in t.at)
    ensures Bh(Replaced(t, n, s), Sub(k, n, s)) == Bh(t, k)
    ensures IsRed(Replaced(t, n, s), Sub(k, n, s)) == IsRed(t, k)
  {
  }

  lemma ReplaceColours(t: Tree, n: RbNode, s: RbNode, m: RbNode)
    requires Linked(t) && n in t.at && s !in t.at && PosOk(t, n) && m in t.at
    ensures var u, m' := Replaced(t, n, s), Sub(m, n, s);
      m' in u.at && BlackOk(u, m') == BlackOk(t, m) && RedOk(u, m') == RedOk(t, m)
  {
    assert LinksOk(t, m);
    ReplacedCells(t, n, s, m);
    ReplacedColours(t, n, s, m);
    ReplacedColours(t, n, s, t.at[m].left);
    ReplacedColours(t, n, s, t.at[m].right);
    ReplacedColours(t, n, s, t.at[m].parent);
  }

  /** Putting one node in the place of another keeps the tree as it was. */
  lemma ReplaceKeeps(t: Tree, n: RbNode, s: RbNode)
    requires Linked(t) && n in t.at && s !in t.at
    ensures PosOk(t, n)
    ensures Valid(t) ==> Valid(Replaced(t, n, s))
    ensures forall x, p :: EraseInv(t, x, p) && x != n ==> EraseInv(Replaced(t, n, s), x, Sub(p, n, s))
  {
    ReplaceKeepsLinks(t, n, s);
    var u := Replaced(t, n, s);
    ReplacedColours(t, n, s, t.root);
    if Valid(t) {
      forall m | m in u.at
        ensures BlackOk(u, m) && RedOk(u, m)
      {
        var m0: RbNode := if m == s then n else m;
        assert BlackOk(t, m0) && RedOk(t, m0);
        ReplaceColours(t, n, s, m0);
      }
    }
    forall x, p | EraseInv(t, x, p) && x != n
      ensures EraseInv(u, x, Sub(p, n, s))
    {
      ReplaceEraseInv(t, n, s, x, p);
    }
  }

  lemma ReplaceEraseInv(t: Tree, n: RbNode, s: RbNode, x: RbNode?, p: RbNode?)
    requires EraseInv(t, x, p) && n in t.at && s !in t.at && x != n
    ensures PosOk(t, n) && EraseInv(Replaced(t, n, s), x, Sub(p, n, s))
  {
    ReplaceKeepsLinks(t, n, s);
    var u := Replaced(t, n, s);
    ReplacedColours(t, n, s, t.root);
    if x != null {
      ReplacedCells(t, n, s, x);
    }
    ReplaceShort(t, n, s, x, p);
    forall m | m in u.at
      ensures m != Sub(p, n, s) ==> BlackOk(u, m)
      ensures m != x && (x == null || u.at[m].parent != x) ==> RedOk(u, m)
    {
      var m0: RbNode := if m == s then n else m;
      assert m0 != p ==> BlackOk(t, m0);
      assert m0 != x && (x == null || t.at[m0].parent != x) ==> RedOk(t, m0);
      ReplacedCells(t, n, s, m0);
      ReplaceColours(t, n, s, m0);
    }
  }

  lemma ReplaceShort(t: Tree, n: RbNode, s: RbNode, x: RbNode?, p: RbNode?)
    requires Linked(t) && n in t.at && s !in t.at && x != n && PosOk(t, n) && (x != null ==> x in t.at)
    requires ShortSide(t, p, x)
    ensures ShortSide(Replaced(t, n, s), Sub(p, n, s), x)
  {
    if p != null {
      assert LinksOk(t, p);
      ReplacedCells(t, n, s, p);
      ReplacedColours(t, n, s, t.at[p].left);
      ReplacedColours(t, n, s, t.at[p].right);
      ReplacedColours(t, n, s, x);
    }
  }

  /** The node after a node with a right child: leftmost below that child. */
  ghost predicate Successor(t: Tree, n: RbNode, s: RbNode) {
    && n in t.at && s in t.at && s != n && t.at[n].left != null && t.at[n].right != null
    && t.at[s].pos == t.at[n].pos + 1 && t.at[s].left == null && t.at[s].parent != null
  }

  /** Taking out the successor and putting it in the place of `n` takes out `n`. */
  ghost function WithoutInner(t: Tree, n: RbNode, s: RbNode): Tree
    requires Linked(t) && Successor(t, n, s)
  {
    SpliceKeepsLinks(t, s);
    assert PosOk(t, n) && PosOk(t, s);
    Replaced(Spliced(t, s), n, s)
  }

  lemma WithoutInnerNodes(t: Tree, n: RbNode, s: RbNode)
    requires Linked(t) && Successor(t, n, s)
    ensures PosOk(t, n)
    ensures WithoutInner(t, n, s).nodes == t.nodes[..t.at[n].pos] + t.nodes[t.at[n].pos + 1..]
    ensures WithoutInner(t, n, s).at.Keys == t.at.Keys - {n}
  {
    assert PosOk(t, n) && PosOk(t, s);
    SpliceKeepsLinks(t, s);
  }

  lemma EraseInnerNode(t: Tree, n: RbNode, s: RbNode)
    requires Valid(t) && Successor(t, n, s)
    ensures var u, p := WithoutInner(t, n, s), t.at[s].parent;
      if t.at[s].red then Valid(u) else EraseInv(u, t.at[s].right, if p == n then s else p)
  {
    SpliceErase(t, s);
    SpliceKeepsLinks(t, s);
    assert LinksOk(t, s) && LinksOk(t, n);
    var v := Spliced(t, s);
    ReplaceKeeps(v, n, s);
  }
}
