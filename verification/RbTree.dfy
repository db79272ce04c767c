/** `rbtree.c` and `linux_rbtree.h`: the tree operations, in place. */
module RbTree {
  import opened RbModel
  import opened RbInsert
  import opened RbErase
  import opened RbSteps

  /** `struct rb_root`. */
  class RbRoot {
    var node: RbNode?
    ghost var t: Tree  // the links of the linked nodes

    /** The objects carry exactly the links that `t` describes. */
    ghost predicate Mirrors()
      reads this, t.at.Keys
    {
      node == t.root && forall m {:trigger Mirrored(m)} :: m in t.at ==> Mirrored(m)
    }

    ghost predicate Mirrored(m: RbNode)
      requires m in t.at
      reads this, m
    {
      && m.left == t.at[m].left && m.right == t.at[m].right
      && m.parent == t.at[m].parent && m.red == t.at[m].red
    }

    ghost predicate Valid()
      reads this, t.at.Keys
    {
      Mirrors() && RbModel.Valid(t)
    }

    /** `RB_ROOT`. */
    constructor ()
      ensures Valid() && t.nodes == [] && t.at == map[]
    {
      node, t := null, Tree(null, [], map[]);
    }

    // ----- Single assignments -----

    method SetLeft(m: RbNode, x: RbNode?)
      requires m in t.at && Mirrors()
      modifies this`t, m`left
      ensures Mirrors() && t == WithLeft(old(t), m, x)
    {
      m.left := x;
      t := WithLeft(t, m, x);
      assert forall k {:trigger Mirrored(k)} :: k in t.at ==> old(Mirrored(k)) ==> Mirrored(k);
    }

    method SetRight(m: RbNode, x: RbNode?)
      requires m in t.at && Mirrors()
      modifies this`t, m`right
      ensures Mirrors() && t == WithRight(old(t), m, x)
    {
      m.right := x;
      t := WithRight(t, m, x);
      assert forall k {:trigger Mirrored(k)} :: k in t.at ==> old(Mirrored(k)) ==> Mirrored(k);
    }

    /** `rb_set_parent`. */
    method SetParent(m: RbNode, x: RbNode?)
      requires m in t.at && Mirrors()
      modifies this`t, m`parent
      ensures Mirrors() && t == WithParent(old(t), m, x)
    {
      m.parent := x;
      t := WithParent(t, m, x);
      assert forall k {:trigger Mirrored(k)} :: k in t.at ==> old(Mirrored(k)) ==> Mirrored(k);
    }

    method SetRoot(x: RbNode?)
      requires Mirrors()
      modifies this
      ensures Mirrors() && t == old(t).(root := x)
    {
      node := x;
      t := t.(root := x);
      assert forall k {:trigger Mirrored(k)} :: k in t.at ==> old(Mirrored(k)) ==> Mirrored(k);
    }

    /** `rb_set_color`, with the black height the node then has. */
    method SetColour(m: RbNode, red: bool, ghost bh: nat)
      requires m in t.at && Mirrors()
      modifies this`t, m`red
      ensures Mirrors() && t == Painted(old(t), m, red, bh)
    {
      m.red := red;
      t := Painted(t, m, red, bh);
      assert forall k {:trigger Mirrored(k)} :: k in t.at ==> old(Mirrored(k)) ==> Mirrored(k);
    }

    /** Another description of the same links. */
    ghost method Redescribe(u: Tree)
      requires Mirrors() && Agrees(t, u)
      modifies this`t
      ensures Mirrors() && t == u
    {
      t := u;
      forall k | k in t.at
        ensures Mirrored(k)
      {
        assert old(Mirrored(k)) && SameCell(old(t).at[k], u.at[k]);
      }
    }

    // ----- Rotations -----

    /** `__rb_rotate_left`. */
    method RotateLeft(n: RbNode)
      requires Mirrors() && Linked(t) && n in t.at && t.at[n].right != null
      modifies this, t.at.Keys`left, t.at.Keys`right, t.at.Keys`parent
      ensures old(t.at[n].right in t.at)
      ensures Mirrors() && t == RotatedLeft(old(t), n) && Linked(t)
    {
      LinkedTurnable(t, n);
      RotateLeftKeepsOrder(t, n);
      LeftSteps(t, n, t.at[n].right);
      assert Mirrored(n);
      var right := n.right;
      var parent := n.parent;
      assert Mirrored(right);
      var inner := right.left;
      SetRight(n, inner);
      if inner != null {
        SetParent(inner, n);
      }
      SetLeft(right, n);
      SetParent(right, parent);
      if parent != null {
        assert Mirrored(parent);
        if n == parent.left {
          SetLeft(parent, right);
        } else {
          SetRight(parent, right);
        }
      } else {
        SetRoot(right);
      }
      SetParent(n, right);
      Redescribe(RotatedLeft(old(t), n));
    }

    /** `__rb_rotate_right`. */
    method RotateRight(n: RbNode)
      requires Mirrors() && Linked(t) && n in t.at && t.at[n].left != null
      modifies this, t.at.Keys`left, t.at.Keys`right, t.at.Keys`parent
      ensures old(t.at[n].left in t.at)
      ensures Mirrors() && t == RotatedRight(old(t), n) && Linked(t)
    {
      LinkedTurnableRight(t, n);
      RotateRightKeepsOrder(t, n);
      RightSteps(t, n, t.at[n].left);
      assert Mirrored(n);
      var left := n.left;
      var parent := n.parent;
      assert Mirrored(left);
      var inner := left.right;
      SetLeft(n, inner);
      if inner != null {
        SetParent(inner, n);
      }
      SetRight(left, n);
      SetParent(left, parent);
      if parent != null {
        assert Mirrored(parent);
        if n == parent.right {
          SetRight(parent, left);
        } else {
          SetLeft(parent, left);
        }
      } else {
        SetRoot(left);
      }
      SetParent(n, left);
      Redescribe(RotatedRight(old(t), n));
    }

    /** Recolouring the right child `r` like `n`, and `n`, then `__rb_rotate_left(n)`. */
    method TurnLeft(n: RbNode, r: RbNode, rred: bool, nred: bool, ghost bh: nat)
      requires Mirrors() && Linked(t) && n in t.at && r in t.at && t.at[n].right == r && r != n && rred == t.at[n].red
      modifies this, t.at.Keys`left, t.at.Keys`right, t.at.Keys`parent, t.at.Keys`red
      ensures Mirrors() && t == TurnedLeft(old(t), n, nred, bh)
    {
      ghost var t0 := t;
      SetColour(r, rred, t0.at[n].bh);
      SetColour(n, nred, bh);
      PaintTwiceKeepsLinks(t0, r, rred, t0.at[n].bh, n, nred, bh);
      RotateLeft(n);
    }

    /** Recolouring the left child `l` like `n`, and `n`, then `__rb_rotate_right(n)`. */
    method TurnRight(n: RbNode, l: RbNode, lred: bool, nred: bool, ghost bh: nat)
      requires Mirrors() && Linked(t) && n in t.at && l in t.at && t.at[n].left == l && l != n && lred == t.at[n].red
      modifies this, t.at.Keys`left, t.at.Keys`right, t.at.Keys`parent, t.at.Keys`red
      ensures Mirrors() && t == TurnedRight(old(t), n, nred, bh)
    {
      ghost var t0 := t;
      SetColour(l, lred, t0.at[n].bh);
      SetColour(n, nred, bh);
      PaintTwiceKeepsLinks(t0, l, lred, t0.at[n].bh, n, nred, bh);
      RotateRight(n);
      TurnedRightSteps(t0, n, nred, bh);
    }

    // ----- Insertion -----

    /** How far the loop can still move up from `x`. */
    ghost function RoomAbove(x: RbNode): int
      reads this
    {
      if x in t.at && IsRed(t, t.at[x].parent) then 1 + |t.nodes| - (t.at[x].hi - t.at[x].lo) else 0
    }

    /** The parent of a linked node is linked, and looks as described. */
    lemma ParentLinked(x: RbNode)
      requires Mirrors() && Linked(t) && x in t.at
      ensures Mirrored(x) && PosOk(t, x) && LinksOk(t, x)
      ensures x.parent != null ==> x.parent in t.at && Mirrored(x.parent)
      ensures x.parent == null <==> x == node
      ensures RoomAbove(x) >= 0
    {
      assert Mirrored(x) && PosOk(t, x) && LinksOk(t, x);
      if x.parent != null {
        assert Mirrored(x.parent);
      }
    }

    /** Red uncle: the recolouring that moves the fault up. */
    method RecolourUp(parent: RbNode, gparent: RbNode, uncle: RbNode)
      requires Mirrors() && gparent in t.at && parent in t.at && uncle in t.at
      requires parent != uncle && gparent != parent && gparent != uncle
      requires (t.at[gparent].left == parent && t.at[gparent].right == uncle)
        || (t.at[gparent].right == parent && t.at[gparent].left == uncle)
      modifies this`t, t.at.Keys`red
      ensures Mirrors() && t == Recoloured(old(t), gparent)
    {
      ghost var t0 := t;
      SetColour(uncle, false, t0.at[uncle].bh + 1);
      SetColour(parent, false, t0.at[parent].bh + 1);
      SetColour(gparent, true, t0.at[gparent].bh);
      RecolourSteps(t0, gparent, parent, uncle);
    }

    /** Parent on the left, `x` on its right: a turn at the parent puts them in line. */
    method InsertLeftInline(x: RbNode, parent: RbNode, ghost gparent: RbNode)
      requires Mirrors() && FaultLeft(t, x, parent, gparent) && !IsRed(t, t.at[gparent].right) && t.at[parent].right == x
      modifies this, t.at.Keys`left, t.at.Keys`right, t.at.Keys`parent, t.at.Keys`red
      ensures t.nodes == old(t.nodes) && t.at.Keys == old(t.at.Keys)
      ensures Mirrors() && FaultLeft(t, parent, x, gparent) && !IsRed(t, t.at[gparent].right) && t.at[x].left == parent
    {
      ghost var t0 := t;
      RotateLeft(parent);
      InsertInnerLeft(t0, x, parent, gparent);
    }

    /** Parent on the left, `x` in line with it: a turn at the grandparent mends the tree. */
    method InsertTopLeftTurn(ghost x: RbNode, parent: RbNode, gparent: RbNode)
      requires Mirrors() && FaultLeft(t, x, parent, gparent) && !IsRed(t, t.at[gparent].right) && t.at[parent].left == x
      modifies this, t.at.Keys`left, t.at.Keys`right, t.at.Keys`parent, t.at.Keys`red
      ensures Mirrors() && InsertInv(t, x) && !IsRed(t, t.at[x].parent)
      ensures t.nodes == old(t.nodes) && t.at.Keys == old(t.at.Keys)
    {
      ghost var t0 := t;
      hide TurnedRight;
      TurnRight(gparent, parent, false, true, t0.at[gparent].bh - 1);
      InsertTopLeft(t0, x, parent, gparent);
    }

    /** Parent on the left, no red uncle: the round that ends the loop. */
    method InsertTurnLeft(x: RbNode, parent: RbNode, gparent: RbNode) returns (node': RbNode)
      requires Mirrors() && FaultLeft(t, x, parent, gparent) && !IsRed(t, t.at[gparent].right)
      modifies this, t.at.Keys`left, t.at.Keys`right, t.at.Keys`parent, t.at.Keys`red
      ensures Mirrors() && InsertInv(t, node') && !IsRed(t, t.at[node'].parent)
      ensures t.nodes == old(t.nodes) && t.at.Keys == old(t.at.Keys)
    {
      var n, p := x, parent;
      assert Mirrored(p);
      InsertFault(t, x);
      if p.right == n {
        InsertLeftInline(n, p, gparent);
        p, n := n, p;
      }
      InsertTopLeftTurn(n, p, gparent);
      node' := n;
    }

    /** Parent on the right, `x` on its left: a turn at the parent puts them in line. */
    method InsertRightInline(x: RbNode, parent: RbNode, ghost gparent: RbNode)
      requires Mirrors() && FaultRight(t, x, parent, gparent) && !IsRed(t, t.at[gparent].left) && t.at[parent].left == x
      modifies this, t.at.Keys`left, t.at.Keys`right, t.at.Keys`parent, t.at.Keys`red
      ensures t.nodes == old(t.nodes) && t.at.Keys == old(t.at.Keys)
      ensures Mirrors() && FaultRight(t, parent, x, gparent) && !IsRed(t, t.at[gparent].left) && t.at[x].right == parent
    {
      ghost var t0 := t;
      RotateRight(parent);
      InsertInnerOfRight(t0, x, parent, gparent);
    }

    /** Parent on the right, `x` in line with it: a turn at the grandparent mends the tree. */
    method InsertTopRightTurn(ghost x: RbNode, parent: RbNode, gparent: RbNode)
      requires Mirrors() && FaultRight(t, x, parent, gparent) && !IsRed(t, t.at[gparent].left) && t.at[parent].right == x
      modifies this, t.at.Keys`left, t.at.Keys`right, t.at.Keys`parent, t.at.Keys`red
      ensures Mirrors() && InsertInv(t, x) && !IsRed(t, t.at[x].parent)
      ensures t.nodes == old(t.nodes) && t.at.Keys == old(t.at.Keys)
    {
      ghost var t0 := t;
      hide TurnedLeft;
      TurnLeft(gparent, parent, false, true, t0.at[gparent].bh - 1);
      InsertTopRight(t0, x, parent, gparent);
    }

    /** Parent on the right, no red uncle: the round that ends the loop. */
    method InsertTurnRight(x: RbNode, parent: RbNode, gparent: RbNode) returns (node': RbNode)
      requires Mirrors() && FaultRight(t, x, parent, gparent) && !IsRed(t, t.at[gparent].left)
      modifies this, t.at.Keys`left, t.at.Keys`right, t.at.Keys`parent, t.at.Keys`red
      ensures Mirrors() && InsertInv(t, node') && !IsRed(t, t.at[node'].parent)
      ensures t.nodes == old(t.nodes) && t.at.Keys == old(t.at.Keys)
    {
      var n, p := x, parent;
      assert Mirrored(p);
      InsertFault(t, x);
      if p.left == n {
        InsertRightInline(n, p, gparent);
        p, n := n, p;
      }
      InsertTopRightTurn(n, p, gparent);
      node' := n;
    }

    /** A red uncle: the fault moves to the grandparent. */
    method InsertUp(ghost x: RbNode, parent: RbNode, gparent: RbNode, uncle: RbNode)
      requires Mirrors() && (FaultLeft(t, x, parent, gparent) || FaultRight(t, x, parent, gparent))
      requires uncle == (if parent == t.at[gparent].left then t.at[gparent].right else t.at[gparent].left)
      requires IsRed(t, uncle)
      modifies this`t, t.at.Keys`red
      ensures Mirrors() && InsertInv(t, gparent) && RoomAbove(gparent) < old(RoomAbove(x))
      ensures t.nodes == old(t.nodes) && t.at.Keys == old(t.at.Keys)
    {
      ghost var t0 := t;
      ParentLinked(gparent);
      InsertRecolour(t, x, gparent);
      RecolourKeepsLinks(t, gparent);
      hide InsertInv, LinksOk, BlackOk, RedOk, Recoloured, Linked;
      RecolourUp(parent, gparent, uncle);
      RecolouredCell(t0, gparent, gparent);
    }

    /** One round of the loop of `rb_insert_color`. */
    method InsertRound(x: RbNode, parent: RbNode) returns (node': RbNode)
      requires Mirrors() && InsertInv(t, x) && parent == t.at[x].parent && IsRed(t, parent)
      modifies this, t.at.Keys`left, t.at.Keys`right, t.at.Keys`parent, t.at.Keys`red
      ensures Mirrors() && InsertInv(t, node') && RoomAbove(node') < old(RoomAbove(x))
      ensures t.nodes == old(t.nodes) && t.at.Keys == old(t.at.Keys)
    {
      InsertFault(t, x);
      ParentLinked(x);
      var gparent := parent.parent;
      ParentLinked(parent);
      ParentLinked(gparent);
      var uncle := if parent == gparent.left then gparent.right else gparent.left;
      assert uncle != null ==> Mirrored(uncle);
      hide InsertInv, LinksOk, BlackOk, RedOk, Recoloured, Linked;
      if uncle != null && uncle.red {
        InsertUp(x, parent, gparent, uncle);
        node' := gparent;
      } else if parent == gparent.left {
        node' := InsertTurnLeft(x, parent, gparent);
      } else {
        node' := InsertTurnRight(x, parent, gparent);
      }
    }

    /** `rb_insert_color`: a linked red leaf may break the colour rules; the tree is valid again
        afterwards, with the same nodes in the same order. */
    method InsertColor(x: RbNode)
      requires Mirrors() && InsertInv(t, x)
      modifies this, t.at.Keys`left, t.at.Keys`right, t.at.Keys`parent, t.at.Keys`red
      ensures Valid() && t.nodes == old(t.nodes) && t.at.Keys == old(t.at.Keys)
    {
      var n: RbNode := x;
      ParentLinked(n);
      while n.parent != null && n.parent.red
        invariant Mirrors() && InsertInv(t, n)
        invariant n.parent == t.at[n].parent && RoomAbove(n) >= 0
        invariant n.parent != null ==> n.parent in t.at && n.parent.red == IsRed(t, n.parent)
        invariant t.nodes == old(t.nodes) && t.at.Keys == old(t.at.Keys)
        decreases RoomAbove(n)
      {
        n := InsertRound(n, n.parent);
        ParentLinked(n);
      }
      InsertFinish(t, n);
      SetColour(node, false, if IsRed(t, node) then t.at[node].bh + 1 else t.at[node].bh);
    }

    // ----- Balancing after removal -----

    /** How far the loop of `__rb_erase_color` can still move up from the slot of `x` below `p`. */
    ghost function RoomBelow(x: RbNode?, p: RbNode?): int
      reads this
    {
      if IsRed(t, x) || x == t.root || p == null || p !in t.at then 0
      else 1 + |t.nodes| - (t.at[p].hi - t.at[p].lo)
    }

    /** `rb_set_red(other)`, and the shortage is the parent's. */
    method MoveUp(p: RbNode, o: RbNode)
      requires Mirrors() && p in t.at && o in t.at && o != p && t.at[o].bh >= 1 && t.at[p].bh >= 1
      modifies this`t, t.at.Keys`red
      ensures Mirrors() && t == MovedUp(old(t), p, o)
    {
      ghost var t0 := t;
      SetColour(o, true, t0.at[o].bh - 1);
      Redescribe(MovedUp(t0, p, o));
    }

    /** `x` on the left, red sibling: afterwards the sibling is black. */
    method TurnSiblingLeft(ghost x: RbNode?, p: RbNode, o: RbNode) returns (other: RbNode)
      requires Mirrors() && EraseAt(t, x, p, o) && t.at[p].left == x && t.at[p].right == o && IsRed(t, o)
      modifies this, t.at.Keys`left, t.at.Keys`right, t.at.Keys`parent, t.at.Keys`red
      ensures Mirrors() && EraseAt(t, x, p, other) && t.at[p].left == x && t.at[p].right == other && !IsRed(t, other)
      ensures t.at[p].red && t.nodes == old(t.nodes) && t.at.Keys == old(t.at.Keys)
    {
      ghost var t0 := t;
      hide TurnedLeft;
      EraseParentBlack(t, x, p, o);
      TurnLeft(p, o, false, true, t0.at[p].bh - 1);
      EraseTurn(t0, x, p, o);
      assert Mirrored(p);
      other := p.right;
    }

    /** `x` on the left, black sibling with a red child on the inner side only. */
    method EraseLeftInline(ghost x: RbNode?, p: RbNode, o: RbNode, q: RbNode)
      requires Mirrors() && InnerRedLeft(t, x, p, o, q)
      modifies this, t.at.Keys`left, t.at.Keys`right, t.at.Keys`parent, t.at.Keys`red
      ensures Mirrors() && StraightLeft(t, x, p, o, q)
      ensures t.nodes == old(t.nodes) && t.at.Keys == old(t.at.Keys)
    {
      ghost var t0 := t;
      hide TurnedRight;
      EraseSiblingBlack(t, x, p, o);
      TurnRight(o, q, false, true, t0.at[o].bh - 1);
      EraseInnerLeft(t0, x, p, o, q);
    }

    /** `x` on the left, black sibling with a red child on the outer side: the last turn. */
    method EraseLastLeft(ghost x: RbNode?, p: RbNode, o: RbNode, q: RbNode)
      requires Mirrors() && OuterRed(t, x, p, o, q)
      modifies this, t.at.Keys`left, t.at.Keys`right, t.at.Keys`parent, t.at.Keys`red
      ensures Valid()
      ensures t.nodes == old(t.nodes) && t.at.Keys == old(t.at.Keys)
    {
      ghost var t0 := t;
      hide TurnedLeft;
      assert Mirrored(p);
      SetColour(q, false, t0.at[q].bh + 1);
      PaintKeepsLinks(t0, q, false, t0.at[q].bh + 1);
      TurnLeft(p, o, p.red, false, t0.at[o].bh);
      EraseOuter(t0, x, p, o, q);
    }

    /** `x` on the right, red sibling: afterwards the sibling is black. */
    method TurnSiblingRight(ghost x: RbNode?, p: RbNode, o: RbNode) returns (other: RbNode)
      requires Mirrors() && EraseAt(t, x, p, o) && t.at[p].right == x && t.at[p].left == o && IsRed(t, o)
      modifies this, t.at.Keys`left, t.at.Keys`right, t.at.Keys`parent, t.at.Keys`red
      ensures Mirrors() && EraseAt(t, x, p, other) && t.at[p].right == x && t.at[p].left == other && !IsRed(t, other)
      ensures t.at[p].red && t.nodes == old(t.nodes) && t.at.Keys == old(t.at.Keys)
    {
      ghost var t0 := t;
      hide TurnedRight;
      EraseParentBlack(t, x, p, o);
      TurnRight(p, o, false, true, t0.at[p].bh - 1);
      EraseTurnRight(t0, x, p, o);
      assert Mirrored(p);
      other := p.left;
    }

    /** `x` on the right, black sibling with a red child on the inner side only. */
    method EraseRightInline(ghost x: RbNode?, p: RbNode, o: RbNode, q: RbNode)
      requires Mirrors() && InnerRedRight(t, x, p, o, q)
      modifies this, t.at.Keys`left, t.at.Keys`right, t.at.Keys`parent, t.at.Keys`red
      ensures Mirrors() && StraightRight(t, x, p, o, q)
      ensures t.nodes == old(t.nodes) && t.at.Keys == old(t.at.Keys)
    {
      ghost var t0 := t;
      hide TurnedLeft;
      EraseSiblingBlack(t, x, p, o);
      TurnLeft(o, q, false, true, t0.at[o].bh - 1);
      EraseInner(t0, x, p, o, q);
    }

    /** `x` on the right, black sibling with a red child on the outer side: the last turn. */
    method EraseLastRight(ghost x: RbNode?, p: RbNode, o: RbNode, q: RbNode)
      requires Mirrors() && OuterRedRight(t, x, p, o, q)
      modifies this, t.at.Keys`left, t.at.Keys`right, t.at.Keys`parent, t.at.Keys`red
      ensures Valid()
      ensures t.nodes == old(t.nodes) && t.at.Keys == old(t.at.Keys)
    {
      ghost var t0 := t;
      hide TurnedRight;
      assert Mirrored(p);
      SetColour(q, false, t0.at[q].bh + 1);
      PaintKeepsLinks(t0, q, false, t0.at[q].bh + 1);
      TurnRight(p, o, p.red, false, t0.at[o].bh);
      EraseOuterRight(t0, x, p, o, q);
    }

    /** The sibling and its children look as described. */
    lemma EraseNephews(x: RbNode?, p: RbNode, o: RbNode)
      requires Mirrors() && EraseAt(t, x, p, o) && !IsRed(t, o)
      ensures Mirrored(p) && Mirrored(o) && t.at[o].bh >= 1 && t.at[p].bh >= 1
      ensures o.left != o && o.right != o && o.left != p && o.right != p
      ensures o.left != null ==> o.left in t.at && Mirrored(o.left)
      ensures o.right != null ==> o.right in t.at && Mirrored(o.right)
    {
      EraseSiblingBlack(t, x, p, o);
      assert Mirrored(p) && Mirrored(o);
      assert o.left != null ==> Mirrored(o.left);
      assert o.right != null ==> Mirrored(o.right);
    }

    /** Black sibling with black children: the shortage moves up. */
    method EraseMove(ghost x: RbNode?, p: RbNode, o: RbNode)
      requires Mirrors() && EraseAt(t, x, p, o) && !IsRed(t, o)
      requires !IsRed(t, t.at[o].left) && !IsRed(t, t.at[o].right)
      modifies this`t, t.at.Keys`red
      ensures t.nodes == old(t.nodes) && t.at.Keys == old(t.at.Keys)
      ensures Mirrors() && EraseInv(t, p, p.parent)
      ensures RoomBelow(p, p.parent) < 1 + |t.nodes| - (old(t.at[p].hi) - old(t.at[p].lo))
      ensures old(t.at[p].red) ==> RoomBelow(p, p.parent) == 0
    {
      hide MovedUp;
      EraseSiblingBlack(t, x, p, o);
      ghost var t0 := t;
      MoveUp(p, o);
      EraseMoveUp(t0, x, p, o);
      MovedUpCells(t0, p, o);
      ParentLinked(p);
      assert p.parent != null ==> PosOk(t, p.parent) && LinksOk(t, p.parent);
    }

    /** One round of the loop of `__rb_erase_color`, with `x` on the left. */
    method EraseRoundLeft(x: RbNode?, p: RbNode, other: RbNode) returns (done: bool, x': RbNode?, p': RbNode?)
      requires Mirrors() && EraseAt(t, x, p, other) && t.at[p].left == x && t.at[p].right == other && x != t.root
      modifies this, t.at.Keys`left, t.at.Keys`right, t.at.Keys`parent, t.at.Keys`red
      ensures t.nodes == old(t.nodes) && t.at.Keys == old(t.at.Keys)
      ensures done ==> Valid() && x' == node
      ensures !done ==> Mirrors() && EraseInv(t, x', p') && RoomBelow(x', p') < old(RoomBelow(x, p))
    {
      var o := other;
      assert PosOk(t, p) && Mirrored(o);
      hide BlackOk, LinksOk, RedOk, Linked, Short, EraseInv;
      if o.red {
        o := TurnSiblingLeft(x, p, o);
      }
      EraseNephews(x, p, o);
      if (o.left == null || !o.left.red) && (o.right == null || !o.right.red) {
        EraseMove(x, p, o);
        x', p', done := p, p.parent, false;
      } else {
        if o.right == null || !o.right.red {
          EraseLeftInline(x, p, o, o.left);
          assert Mirrored(p);
          o := p.right;
          EraseNephews(x, p, o);
        }
        EraseLastLeft(x, p, o, o.right);
        x', p', done := node, null, true;
      }
    }

    /** One round of the loop of `__rb_erase_color`, with `x` on the right. */
    method EraseRoundRight(x: RbNode?, p: RbNode, other: RbNode) returns (done: bool, x': RbNode?, p': RbNode?)
      requires Mirrors() && EraseAt(t, x, p, other) && t.at[p].right == x && t.at[p].left == other && x != t.root
      modifies this, t.at.Keys`left, t.at.Keys`right, t.at.Keys`parent, t.at.Keys`red
      ensures t.nodes == old(t.nodes) && t.at.Keys == old(t.at.Keys)
      ensures done ==> Valid() && x' == node
      ensures !done ==> Mirrors() && EraseInv(t, x', p') && RoomBelow(x', p') < old(RoomBelow(x, p))
    {
      var o := other;
      assert PosOk(t, p) && Mirrored(o);
      hide BlackOk, LinksOk, RedOk, Linked, Short, EraseInv;
      if o.red {
        o := TurnSiblingRight(x, p, o);
      }
      EraseNephews(x, p, o);
      if (o.left == null || !o.left.red) && (o.right == null || !o.right.red) {
        EraseMove(x, p, o);
        x', p', done := p, p.parent, false;
      } else {
        if o.left == null || !o.left.red {
          EraseRightInline(x, p, o, o.right);
          assert Mirrored(p);
          o := p.left;
          EraseNephews(x, p, o);
        }
        EraseLastRight(x, p, o, o.left);
        x', p', done := node, null, true;
      }
    }

    /** One round of the loop of `__rb_erase_color`. */
    method EraseRound(x: RbNode?, p: RbNode?) returns (done: bool, x': RbNode?, p': RbNode?)
      requires Mirrors() && EraseInv(t, x, p) && !IsRed(t, x) && x != t.root
      modifies this, t.at.Keys`left, t.at.Keys`right, t.at.Keys`parent, t.at.Keys`red
      ensures t.nodes == old(t.nodes) && t.at.Keys == old(t.at.Keys)
      ensures done ==> Valid() && x' == node
      ensures !done ==> Mirrors() && EraseInv(t, x', p') && RoomBelow(x', p') < old(RoomBelow(x, p))
    {
      EraseSibling(t, x, p);
      assert Mirrored(p);
      if p.left == x {
        done, x', p' := EraseRoundLeft(x, p, p.right);
      } else {
        done, x', p' := EraseRoundRight(x, p, p.left);
      }
    }

    lemma RoomBelowNat(x: RbNode?, p: RbNode?)
      requires Linked(t)
      ensures RoomBelow(x, p) >= 0
    {
      if p != null && p in t.at {
        assert PosOk(t, p);
      }
    }

    /** `__rb_erase_color`: one black node is missing on the side of `p` that holds `x`; the tree is
        valid again afterwards, with the same nodes in the same order. */
    method EraseColor(x: RbNode?, p: RbNode?)
      requires Mirrors() && EraseInv(t, x, p)
      modifies this, t.at.Keys`left, t.at.Keys`right, t.at.Keys`parent, t.at.Keys`red
      ensures Valid() && t.nodes == old(t.nodes) && t.at.Keys == old(t.at.Keys)
    {
      var n, parent, done := x, p, false;
      assert n != null ==> Mirrored(n);
      while !done && (n == null || !n.red) && n != node
        invariant t.nodes == old(t.nodes) && t.at.Keys == old(t.at.Keys)
        invariant done ==> Valid() && n == node
        invariant !done ==> Mirrors() && EraseInv(t, n, parent)
        invariant n != null ==> n in t.at && n.red == t.at[n].red
        decreases !done, RoomBelow(n, parent)
      {
        RoomBelowNat(n, parent);
        done, n, parent := EraseRound(n, parent);
        assert n != null ==> n in t.at && Mirrored(n);
        if !done {
          RoomBelowNat(n, parent);
        }
      }
      if !done {
        EraseFinish(t, n, parent);
      } else if n != null {
        BlackenedRoot(t);
      }
      if n != null {
        SetColour(n, false, if t.at[n].red then t.at[n].bh + 1 else t.at[n].bh);
      }
    }

    // ----- Removal -----

    /** The only child of `n` takes its slot. */
    method SpliceOut(n: RbNode, child: RbNode?)
      requires Mirrors() && Linked(t) && AtMostOneChild(t, n) && child == OnlyChild(t, n)
      modifies this, t.at.Keys`left, t.at.Keys`right, t.at.Keys`parent
      ensures Mirrors() && t == SpliceSteps(old(t), n)
    {
      ParentLinked(n);
      var parent := n.parent;
      if child != null {
        SetParent(child, parent);
      }
      if parent != null {
        assert Mirrored(parent);
        if parent.left == n {
          SetLeft(parent, child);
        } else {
          SetRight(parent, child);
        }
      } else {
        SetRoot(child);
      }
    }

    /** `s` gets the colour and the links of `n`. */
    method CopyLinks(n: RbNode, s: RbNode)
      requires Mirrors() && n in t.at && s in t.at && s != n
      modifies this`t, s`left, s`right, s`parent, s`red
      ensures Mirrors() && t == WithCellOf(old(t), s, n)
    {
      assert Mirrored(n);
      ghost var t0 := t;
      SetColour(s, n.red, t0.at[s].bh);
      SetParent(s, n.parent);
      SetRight(s, n.right);
      SetLeft(s, n.left);
      CellSteps(t0, s, n);
    }

    /** `s` gets the colour, the links and the place of `n`. */
    method TakePlace(n: RbNode, s: RbNode)
      requires Mirrors() && ReplaceReady(t, n, s)
      modifies this, t.at.Keys`left, t.at.Keys`right, t.at.Keys`parent, t.at.Keys`red
      ensures Mirrors() && t == ReplaceSteps(old(t), n, s)
    {
      assert Mirrored(n);
      var parent, left, right := n.parent, n.left, n.right;
      CopyLinks(n, s);
      if parent != null {
        assert Mirrored(parent);
        if parent.left == n {
          SetLeft(parent, s);
        } else {
          SetRight(parent, s);
        }
      } else {
        SetRoot(s);
      }
      SetParent(left, s);
      if right != null {
        SetParent(right, s);
      }
    }

    /** The leftmost node below the right child of `n` is the next one in order. */
    method LeftmostRight(n: RbNode) returns (s: RbNode)
      requires Mirrors() && Linked(t) && n in t.at && t.at[n].right != null
      ensures s in t.at && s != n && t.at[s].pos == t.at[n].pos + 1 && t.at[s].left == null && t.at[s].parent != null
    {
      assert Mirrored(n) && LinksOk(t, n);
      s := n.right;
      assert Mirrored(s) && LinksOk(t, s);
      while s.left != null
        invariant s in t.at && Mirrored(s) && LinksOk(t, s)
        invariant t.at[s].lo == t.at[n].pos + 1 && t.at[s].parent != null
        decreases t.at[s].pos - t.at[n].pos
      {
        s := s.left;
        assert Mirrored(s) && LinksOk(t, s);
      }
    }

    /** The node with two children makes way for its successor. */
    method UnlinkInner(victim: RbNode) returns (child: RbNode?, parent: RbNode, red: bool)
      requires Valid() && victim in t.at && t.at[victim].left != null && t.at[victim].right != null
      modifies this, t.at.Keys`left, t.at.Keys`right, t.at.Keys`parent, t.at.Keys`red
      ensures Mirrors() && old(PosOk(t, victim)) && t.at.Keys == old(t.at.Keys) - {victim}
      ensures t.nodes == old(t.nodes[..t.at[victim].pos] + t.nodes[t.at[victim].pos + 1..])
      ensures if red then Valid() else EraseInv(t, child, parent)
    {
      hide SpliceSteps, ReplaceSteps, Spliced, WithoutInner, Agrees, ReplaceReady;
      var s := LeftmostRight(victim);
      assert Mirrored(s) && LinksOk(t, s) && LinksOk(t, victim) && PosOk(t, victim) && PosOk(t, s);
      ghost var t0 := t;
      child, parent, red := s.right, s.parent, s.red;
      SpliceOut(s, child);
      SpliceStepsAgree(t0, s);
      InnerSteps(t0, t, victim, s);
      if parent == victim {
        parent := s;
      }
      TakePlace(victim, s);
      Redescribe(WithoutInner(t0, victim, s));
    }

    /** `rb_erase`: the tree stays valid and keeps all its other nodes, in order. */
    method Erase(n: RbNode)
      requires Valid() && n in t.at
      modifies this, t.at.Keys`left, t.at.Keys`right, t.at.Keys`parent, t.at.Keys`red
      ensures Valid() && old(PosOk(t, n)) && t.at.Keys == old(t.at.Keys) - {n}
      ensures t.nodes == old(t.nodes[..t.at[n].pos] + t.nodes[t.at[n].pos + 1..])
    {
      assert Mirrored(n) && LinksOk(t, n) && PosOk(t, n);
      hide SpliceSteps, Spliced, Agrees, EraseInv, WithoutInner;
      var child, parent, red;
      if n.left != null && n.right != null {
        child, parent, red := UnlinkInner(n);
      } else {
        child := if n.left == null then n.right else n.left;
        parent, red := n.parent, n.red;
        ghost var t0 := t;
        SpliceOut(n, child);
        SpliceStepsAgree(t0, n);
        Redescribe(Spliced(t0, n));
        SpliceErase(t0, n);
      }
      if !red {
        EraseColor(child, parent);
      }
    }

    // ----- Linking -----

    /** `rb_link_node`: a fresh red leaf in an empty slot below `p`, or in an empty tree. */
    method LinkNode(n: RbNode, p: RbNode?, onLeft: bool)
      requires Valid() && n !in t.at
      requires if p == null then node == null
               else p in t.at && (if onLeft then t.at[p].left else t.at[p].right) == null
      modifies this, n`left, n`right, n`parent, n`red
      modifies if p == null then {} else {p}`left
      modifies if p == null then {} else {p}`right
      ensures Mirrors() && InsertInv(t, n)
      ensures p == null ==> old(t.at) == map[] && t == LinkedRoot(n)
      ensures p != null ==> old(PosOk(t, p)) && t == if onLeft then LinkedLeft(old(t), n, p) else LinkedRight(old(t), n, p)
    {
      hide LinkedLeft, LinkedRight;
      ghost var t0 := t;
      assert p != null ==> Mirrored(p);
      n.parent, n.red, n.left, n.right := p, true, null, null;
      if p == null {
        node := n;
        LinkRoot(t0, n);
        t := LinkedRoot(n);
      } else {
        if onLeft {
          p.left := n;
          LinkLeft(t0, n, p);
          t := LinkedLeft(t0, n, p);
        } else {
          p.right := n;
          LinkRight(t0, n, p);
          t := LinkedRight(t0, n, p);
        }
        forall m | m in t.at
          ensures Mirrored(m)
        {
          LinkedCells(t0, n, p, m);
          assert m != n ==> old(Mirrored(m));
        }
      }
    }

    /** `rb_link_node` and `rb_insert_color`: the new node stands just before or just after `p`. */
    method Link(n: RbNode, p: RbNode?, onLeft: bool, ghost k: nat)
      requires Valid() && n !in t.at
      requires if p == null then node == null && k == 0
               else p in t.at && (if onLeft then t.at[p].left else t.at[p].right) == null
                    && k == t.at[p].pos + if onLeft then 0 else 1
      modifies this, t.at.Keys`left, t.at.Keys`right, t.at.Keys`parent, t.at.Keys`red, n`left, n`right, n`parent, n`red
      ensures Valid() && t.at.Keys == old(t.at.Keys) + {n}
      ensures k <= old(|t.nodes|) && t.nodes == old(t.nodes)[..k] + [n] + old(t.nodes)[k..]
    {
      hide LinkedLeft, LinkedRight, InsertInv;
      LinkNode(n, p, onLeft);
      InsertColor(n);
    }

    // ----- Walking -----

    /** `rb_first`. */
    method First() returns (n: RbNode?)
      requires Mirrors() && Linked(t)
      ensures n == if t.nodes == [] then null else t.nodes[0]
    {
      n := node;
      if n == null {
        return;
      }
      assert Mirrored(n) && LinksOk(t, n);
      while n.left != null
        invariant n != null && n in t.at && Mirrored(n) && LinksOk(t, n) && t.at[n].lo == 0
        decreases if n == null then 0 else t.at[n].pos
      {
        n := n.left;
        assert Mirrored(n) && LinksOk(t, n);
      }
      assert PosOk(t, n);
    }

    /** `rb_last`. */
    method Last() returns (n: RbNode?)
      requires Mirrors() && Linked(t)
      ensures n == if t.nodes == [] then null else t.nodes[|t.nodes| - 1]
    {
      n := node;
      if n == null {
        return;
      }
      assert Mirrored(n) && LinksOk(t, n);
      while n.right != null
        invariant n != null && n in t.at && Mirrored(n) && LinksOk(t, n) && t.at[n].hi == |t.nodes|
        decreases if n == null then 0 else |t.nodes| - t.at[n].pos
      {
        n := n.right;
        assert Mirrored(n) && LinksOk(t, n);
      }
      assert PosOk(t, n);
    }

    /** `rb_next`: nothing follows a node that is in no tree. */
    method Next(n: RbNode) returns (next: RbNode?)
      requires Mirrors() && Linked(t) && (n in t.at || n.parent == n)
      ensures n !in t.at ==> next == null
      ensures n in t.at ==> next == NextNode(t, n)
    {
      if n in t.at {
        ParentLinked(n);
      }
      if n.parent == n {
        return null;
      }
      if n.right != null {
        next := n.right;
        assert Mirrored(next) && LinksOk(t, next);
        while next.left != null
          invariant next != null && next in t.at && Mirrored(next) && LinksOk(t, next)
          invariant t.at[next].lo == t.at[n].pos + 1
          decreases if next == null then 0 else t.at[next].pos
        {
          next := next.left;
          assert Mirrored(next) && LinksOk(t, next);
        }
        assert PosOk(t, next);
        return;
      }
      var m := n;
      next := m.parent;
      while next != null && m == next.right
        invariant m in t.at && Mirrored(m) && LinksOk(t, m) && next == m.parent
        invariant next != null ==> next in t.at && Mirrored(next)
        invariant t.at[m].hi == t.at[n].pos + 1 && (next == null <==> m == node)
        decreases t.at[m].pos
      {
        assert LinksOk(t, next) && PosOk(t, next);
        m := next;
        ParentLinked(m);
        next := m.parent;
      }
      if next != null {
        assert LinksOk(t, next) && PosOk(t, next);
      }
    }

    /** `rb_prev`: nothing precedes a node that is in no tree. */
    method Prev(n: RbNode) returns (prev: RbNode?)
      requires Mirrors() && Linked(t) && (n in t.at || n.parent == n)
      ensures n !in t.at ==> prev == null
      ensures n in t.at ==> prev == PrevNode(t, n)
    {
      if n in t.at {
        ParentLinked(n);
      }
      if n.parent == n {
        return null;
      }
      if n.left != null {
        prev := n.left;
        assert Mirrored(prev) && LinksOk(t, prev);
        while prev.right != null
          invariant prev != null && prev in t.at && Mirrored(prev) && LinksOk(t, prev)
          invariant t.at[prev].hi == t.at[n].pos
          decreases if prev == null then 0 else |t.nodes| - t.at[prev].pos
        {
          prev := prev.right;
          assert Mirrored(prev) && LinksOk(t, prev);
        }
        assert PosOk(t, prev);
        return;
      }
      var m := n;
      prev := m.parent;
      while prev != null && m == prev.left
        invariant m in t.at && Mirrored(m) && LinksOk(t, m) && PosOk(t, m) && prev == m.parent
        invariant prev != null ==> prev in t.at && Mirrored(prev)
        invariant t.at[m].lo == t.at[n].pos && (prev == null <==> m == node)
        decreases |t.nodes| - t.at[m].pos
      {
        assert LinksOk(t, prev) && PosOk(t, prev);
        m := prev;
        ParentLinked(m);
        prev := m.parent;
      }
      if prev != null {
        assert LinksOk(t, prev) && PosOk(t, prev);
      }
    }
  }
}
