/** Red-black trees as values: the links of a set of nodes, what makes them a valid tree, and
    what each step of linking, unlinking and balancing does to them. */
module RbModel {
  import opened Timevals

  /** `struct rb_node`, standing for the whole alarm block that embeds it: `tv` is the block's
      deadline.  A block that is in no tree has itself as its parent. */
  class RbNode {
    var left: RbNode?
    var right: RbNode?
    var parent: RbNode?
    var red: bool
    var tv: Timeval

    constructor ()
      ensures parent == this && tv == Timeval(0, 0)
    {
      left, right, red := null, null, true;
      tv := Timeval(0, 0);
      new;
      parent := this;
    }
  }

  /** The links of one node, with its in-order position, the in-order interval [lo, hi) of the
      subtree below it, and the number of black nodes on the paths from it down to a leaf. */
  datatype Cell = Cell(left: RbNode?, right: RbNode?, parent: RbNode?, red: bool,
                       pos: int, lo: int, hi: int, bh: nat)

  /** A tree: its root, its nodes in order, and the links of every node. */
  datatype Tree = Tree(root: RbNode?, nodes: seq<RbNode>, at: map<RbNode, Cell>)

  // ----- What a valid tree is -----

  ghost predicate PosOk(t: Tree, m: RbNode)
    requires m in t.at
  {
    0 <= t.at[m].pos < |t.nodes| && t.nodes[t.at[m].pos] == m && 0 <= t.at[m].lo && t.at[m].hi <= |t.nodes|
  }

  /** `nodes` lists every node of the tree, each once and at its position. */
  ghost predicate Indexed(t: Tree) {
    && (forall i {:trigger t.nodes[i]} :: 0 <= i < |t.nodes| ==> t.nodes[i] in t.at && t.at[t.nodes[i]].pos == i)
    && (forall m {:trigger PosOk(t, m)} :: m in t.at ==> PosOk(t, m))
  }

  ghost predicate LeftOk(t: Tree, m: RbNode)
    requires m in t.at
  {
    var c := t.at[m];
    if c.left == null then c.lo == c.pos
    else c.left in t.at && var d := t.at[c.left]; d.parent == m && d.lo == c.lo && d.hi == c.pos
  }

  ghost predicate RightOk(t: Tree, m: RbNode)
    requires m in t.at
  {
    var c := t.at[m];
    if c.right == null then c.hi == c.pos + 1
    else c.right in t.at && var d := t.at[c.right]; d.parent == m && d.lo == c.pos + 1 && d.hi == c.hi
  }

  ghost predicate UpOk(t: Tree, m: RbNode)
    requires m in t.at
  {
    var c := t.at[m];
    if c.parent == null then m == t.root
    else c.parent in t.at && var d := t.at[c.parent]; d.left == m || d.right == m
  }

  ghost predicate LinksOk(t: Tree, m: RbNode)
    requires m in t.at
  {
    t.at[m].lo <= t.at[m].pos < t.at[m].hi && LeftOk(t, m) && RightOk(t, m) && UpOk(t, m)
  }

  ghost predicate RootOk(t: Tree) {
    if t.root == null then t.nodes == []
    else t.root in t.at && var c := t.at[t.root]; c.parent == null && c.lo == 0 && c.hi == |t.nodes|
  }

  /** Parent and child links agree, and reading the tree in order gives `nodes`. */
  ghost predicate Linked(t: Tree) {
    Indexed(t) && RootOk(t) && forall m {:trigger LinksOk(t, m)} :: m in t.at ==> LinksOk(t, m)
  }

  ghost function Bh(t: Tree, n: RbNode?): nat {
    if n == null || n !in t.at then 0 else t.at[n].bh
  }

  ghost predicate IsRed(t: Tree, n: RbNode?) {
    n != null && n in t.at && t.at[n].red
  }

  ghost function Own(red: bool): nat {
    if red then 0 else 1
  }

  /** Both sides of `m` have the same number of black nodes. */
  ghost predicate BlackOk(t: Tree, m: RbNode)
    requires m in t.at
  {
    var c := t.at[m];
    c.bh == Bh(t, c.left) + Own(c.red) && c.bh == Bh(t, c.right) + Own(c.red)
  }

  /** `m` is not a red child of a red parent. */
  ghost predicate RedOk(t: Tree, m: RbNode)
    requires m in t.at
  {
    IsRed(t, m) ==> !IsRed(t, t.at[m].parent)
  }

  ghost predicate Valid(t: Tree) {
    && Linked(t)
    && (forall m {:trigger BlackOk(t, m)} :: m in t.at ==> BlackOk(t, m))
    && (forall m {:trigger RedOk(t, m)} :: m in t.at ==> RedOk(t, m))
    && !IsRed(t, t.root)
  }

  lemma NonEmpty(t: Tree, m: RbNode)
    requires Linked(t) && m in t.at
    ensures t.root != null
  {
    assert PosOk(t, m);
  }

  // ----- Left and right exchanged -----

  ghost function Reversed(s: seq<RbNode>): (r: seq<RbNode>)
    ensures |r| == |s| && forall i :: 0 <= i < |s| ==> r[i] == s[|s| - 1 - i]
  {
    seq(|s|, i requires 0 <= i < |s| => s[|s| - 1 - i])
  }

  ghost function MirrorCell(c: Cell, n: nat): Cell {
    Cell(c.right, c.left, c.parent, c.red, n - 1 - c.pos, n - c.hi, n - c.lo, c.bh)
  }

  /** The tree with left and right exchanged everywhere. */
  ghost function Mirror(t: Tree): (u: Tree)
    ensures u.at.Keys == t.at.Keys
  {
    Tree(t.root, Reversed(t.nodes), map m | m in t.at :: MirrorCell(t.at[m], |t.nodes|))
  }

  lemma MirrorTwice(t: Tree)
    ensures Mirror(Mirror(t)) == t
  {
    assert Reversed(Reversed(t.nodes)) == t.nodes;
    assert Mirror(Mirror(t)).at == t.at;
  }

  lemma MirrorIndexed(t: Tree)
    requires Indexed(t)
    ensures Indexed(Mirror(t))
  {
    forall m | m in t.at
      ensures PosOk(Mirror(t), m)
    {
      assert PosOk(t, m);
    }
  }

  lemma MirrorLinksOk(t: Tree, m: RbNode)
    requires m in t.at && LinksOk(t, m)
    ensures LinksOk(Mirror(t), m)
  {
  }

  lemma MirrorLinked(t: Tree)
    requires Linked(t)
    ensures Linked(Mirror(t))
  {
    var u := Mirror(t);
    MirrorIndexed(t);
    forall m | m in u.at
      ensures LinksOk(u, m)
    {
      assert LinksOk(t, m);
      MirrorLinksOk(t, m);
    }
  }

  lemma MirrorColours(t: Tree, m: RbNode)
    requires m in t.at
    ensures BlackOk(Mirror(t), m) == BlackOk(t, m)
    ensures RedOk(Mirror(t), m) == RedOk(t, m)
  {
    forall n: RbNode?
      ensures Bh(Mirror(t), n) == Bh(t, n) && IsRed(Mirror(t), n) == IsRed(t, n)
    {
    }
  }

  lemma MirrorValid(t: Tree)
    requires Valid(t)
    ensures Valid(Mirror(t))
  {
    MirrorLinked(t);
    forall m | m in t.at
      ensures BlackOk(Mirror(t), m) && RedOk(Mirror(t), m)
    {
      MirrorColours(t, m);
      assert BlackOk(t, m) && RedOk(t, m);
    }
  }

  // ----- Rotations -----

  ghost function RotatedLeftCell(t: Tree, n: RbNode, r: RbNode, m: RbNode): Cell
    requires n in t.at && r in t.at && m in t.at
  {
    var c := t.at[m];
    if m == n then c.(parent := r, right := t.at[r].left, hi := t.at[r].pos)
    else if m == r then c.(left := n, parent := t.at[n].parent, lo := t.at[n].lo, hi := t.at[n].hi)
    else c.(left := if c.left == n then r else c.left,
            right := if c.right == n then r else c.right,
            parent := if m == t.at[r].left then n else c.parent)
  }

  ghost function RotatedLeft(t: Tree, n: RbNode): (u: Tree)
    requires n in t.at && t.at[n].right in t.at
    ensures u.nodes == t.nodes && u.at.Keys == t.at.Keys
  {
    var r := t.at[n].right;
    t.(root := if t.root == n then r else t.root,
       at := map m | m in t.at :: RotatedLeftCell(t, n, r, m))
  }

  ghost function RotatedRight(t: Tree, n: RbNode): (u: Tree)
    requires n in t.at && t.at[n].left in t.at
    ensures u.nodes == t.nodes && u.at.Keys == t.at.Keys
  {
    assert Reversed(Reversed(t.nodes)) == t.nodes;
    Mirror(RotatedLeft(Mirror(t), n))
  }

  /** `n`, its right child `r` and its parent have consistent links. */
  ghost predicate Turnable(t: Tree, n: RbNode, r: RbNode) {
    && n in t.at && r in t.at && t.at[n].right == r
    && LinksOk(t, n) && LinksOk(t, r)
    && (t.at[n].parent != null ==> t.at[n].parent in t.at && LinksOk(t, t.at[n].parent))
  }

  lemma RotatedLeftLeftOk(t: Tree, n: RbNode, r: RbNode, m: RbNode)
    requires Turnable(t, n, r) && m in t.at && LinksOk(t, m)
    ensures LeftOk(RotatedLeft(t, n), m)
  {
  }

  lemma RotatedLeftRightOk(t: Tree, n: RbNode, r: RbNode, m: RbNode)
    requires Turnable(t, n, r) && m in t.at && LinksOk(t, m)
    ensures RightOk(RotatedLeft(t, n), m)
  {
  }

  lemma RotatedLeftUpOk(t: Tree, n: RbNode, r: RbNode, m: RbNode)
    requires Turnable(t, n, r) && m in t.at && LinksOk(t, m)
    ensures UpOk(RotatedLeft(t, n), m)
  {
  }

  lemma RotatedLeftFrame(t: Tree, n: RbNode, r: RbNode)
    requires Turnable(t, n, r) && Indexed(t) && RootOk(t)
    ensures Indexed(RotatedLeft(t, n)) && RootOk(RotatedLeft(t, n))
  {
    var u := RotatedLeft(t, n);
    forall m | m in t.at
      ensures PosOk(u, m)
    {
      assert PosOk(t, m) && PosOk(t, n) && PosOk(t, r);
    }
  }

  lemma RotatedLeftLinks(t: Tree, n: RbNode, r: RbNode)
    requires Turnable(t, n, r) && forall m {:trigger LinksOk(t, m)} :: m in t.at ==> LinksOk(t, m)
    ensures forall m {:trigger LinksOk(RotatedLeft(t, n), m)} :: m in t.at ==> LinksOk(RotatedLeft(t, n), m)
  {
    forall m | m in t.at
      ensures LinksOk(RotatedLeft(t, n), m)
    {
      assert LinksOk(t, m);
      RotatedLeftLeftOk(t, n, r, m);
      RotatedLeftRightOk(t, n, r, m);
      RotatedLeftUpOk(t, n, r, m);
    }
  }

  lemma LinkedTurnable(t: Tree, n: RbNode)
    requires Linked(t) && n in t.at && t.at[n].right != null
    ensures t.at[n].right in t.at && Turnable(t, n, t.at[n].right)
  {
    assert LinksOk(t, n);
    assert LinksOk(t, t.at[n].right);
    if t.at[n].parent != null {
      assert LinksOk(t, t.at[n].parent);
    }
  }

  /** A left rotation keeps the links consistent and the in-order sequence unchanged. */
  lemma RotateLeftKeepsOrder(t: Tree, n: RbNode)
    requires Linked(t) && n in t.at && t.at[n].right != null
    ensures t.at[n].right in t.at && Linked(RotatedLeft(t, n)) && RotatedLeft(t, n).nodes == t.nodes
  {
    LinkedTurnable(t, n);
    var r := t.at[n].right;
    RotatedLeftFrame(t, n, r);
    RotatedLeftLinks(t, n, r);
  }

  /** A right rotation keeps the links consistent and the in-order sequence unchanged. */
  lemma RotateRightKeepsOrder(t: Tree, n: RbNode)
    requires Linked(t) && n in t.at && t.at[n].left != null
    ensures t.at[n].left in t.at && Linked(RotatedRight(t, n)) && RotatedRight(t, n).nodes == t.nodes
  {
    MirrorLinked(t);
    RotateLeftKeepsOrder(Mirror(t), n);
    MirrorLinked(RotatedLeft(Mirror(t), n));
    MirrorTwice(t);
  }

  // ----- Recolouring, and recolouring around a rotation -----

  ghost function Painted(t: Tree, m: RbNode, red: bool, bh: nat): (u: Tree)
    requires m in t.at
    ensures u.at.Keys == t.at.Keys && u.nodes == t.nodes && u.root == t.root
  {
    t.(at := t.at[m := t.at[m].(red := red, bh := bh)])
  }

  lemma PaintKeepsLinksOk(t: Tree, n: RbNode, red: bool, bh: nat, m: RbNode)
    requires Linked(t) && n in t.at && m in t.at
    ensures LinksOk(Painted(t, n, red, bh), m) && PosOk(Painted(t, n, red, bh), m)
  {
    assert LinksOk(t, m) && PosOk(t, m);
  }

  lemma PaintKeepsLinks(t: Tree, n: RbNode, red: bool, bh: nat)
    requires Linked(t) && n in t.at
    ensures Linked(Painted(t, n, red, bh))
  {
    var u := Painted(t, n, red, bh);
    forall m | m in u.at
      ensures LinksOk(u, m) && PosOk(u, m)
    {
      PaintKeepsLinksOk(t, n, red, bh, m);
    }
  }

  /** A left rotation at `n` in which the new top takes the colour of `n`, and `n` gets a new one. */
  ghost function TurnedLeft(t: Tree, n: RbNode, red: bool, bh: nat): (u: Tree)
    requires n in t.at && t.at[n].right in t.at && t.at[n].right != n
    ensures u.nodes == t.nodes && u.at.Keys == t.at.Keys
  {
    RotatedLeft(Painted(Painted(t, t.at[n].right, t.at[n].red, t.at[n].bh), n, red, bh), n)
  }

  ghost function TurnedRight(t: Tree, n: RbNode, red: bool, bh: nat): (u: Tree)
    requires n in t.at && t.at[n].left in t.at && t.at[n].left != n
    ensures u.nodes == t.nodes && u.at.Keys == t.at.Keys
  {
    assert Reversed(Reversed(t.nodes)) == t.nodes;
    Mirror(TurnedLeft(Mirror(t), n, red, bh))
  }

  lemma TurnKeepsLinks(t: Tree, n: RbNode, red: bool, bh: nat)
    requires Linked(t) && n in t.at && t.at[n].right != null
    ensures t.at[n].right in t.at && t.at[n].right != n
    ensures Linked(TurnedLeft(t, n, red, bh))
  {
    LinkedTurnable(t, n);
    var t1 := Painted(t, t.at[n].right, t.at[n].red, t.at[n].bh);
    PaintKeepsLinks(t, t.at[n].right, t.at[n].red, t.at[n].bh);
    PaintKeepsLinks(t1, n, red, bh);
    RotateLeftKeepsOrder(Painted(t1, n, red, bh), n);
  }

  /** The links a turn changes, spelled out. */
  lemma TurnedLeftCells(t: Tree, n: RbNode, red: bool, bh: nat)
    requires n in t.at && t.at[n].right in t.at && Turnable(t, n, t.at[n].right)
    ensures t.at[n].right != n
    ensures var r, u := t.at[n].right, TurnedLeft(t, n, red, bh);
      && u.root == (if t.root == n then r else t.root)
      && u.at[n] == t.at[n].(right := t.at[r].left, parent := r, hi := t.at[r].pos, red := red, bh := bh)
      && u.at[r] == t.at[r].(left := n, parent := t.at[n].parent, lo := t.at[n].lo, hi := t.at[n].hi,
                             red := t.at[n].red, bh := t.at[n].bh)
  {
  }

  lemma TurnedLeftOther(t: Tree, n: RbNode, red: bool, bh: nat, m: RbNode)
    requires n in t.at && t.at[n].right in t.at && Turnable(t, n, t.at[n].right) && m in t.at
    requires m != n && m != t.at[n].right
    ensures t.at[n].right != n
    ensures var r, u := t.at[n].right, TurnedLeft(t, n, red, bh);
      u.at[m] == t.at[m].(
        left := if t.at[m].left == n then r else t.at[m].left,
        right := if t.at[m].right == n then r else t.at[m].right,
        parent := if m == t.at[r].left then n else t.at[m].parent)
  {
  }

  /** After a turn, the balance of a node is told by the tree before it. */
  lemma TurnedLeftBlackOk(t: Tree, n: RbNode, red: bool, bh: nat, m: RbNode)
    requires n in t.at && t.at[n].right in t.at && Turnable(t, n, t.at[n].right)
    requires m in t.at && LinksOk(t, m)
    ensures t.at[n].right != n
    ensures var r, u := t.at[n].right, TurnedLeft(t, n, red, bh);
      if m == n then BlackOk(u, n) <==> bh == Bh(t, t.at[n].left) + Own(red) && bh == Bh(t, t.at[r].left) + Own(red)
      else if m == r then
        BlackOk(u, r) <==> t.at[n].bh == bh + Own(t.at[n].red)
                           && t.at[n].bh == Bh(t, t.at[r].right) + Own(t.at[n].red)
      else BlackOk(u, m) <==> BlackOk(t, m)
  {
    hide TurnedLeft;
    var r, u := t.at[n].right, TurnedLeft(t, n, red, bh);
    TurnedLeftCells(t, n, red, bh);
    if m != n && m != r {
      TurnedLeftOther(t, n, red, bh, m);
    }
    TurnedLeftColours(t, n, red, bh);
  }

  lemma TurnedLeftAway(t: Tree, n: RbNode, r: RbNode, red: bool, bh: nat, m: RbNode)
    requires Turnable(t, n, r) && m in t.at && LinksOk(t, m) && BlackOk(t, m) && m != n && m != r
    ensures r != n && BlackOk(TurnedLeft(t, n, red, bh), m)
  {
    TurnedLeftBlackOk(t, n, red, bh, m);
  }

  lemma TurnedLeftColours(t: Tree, n: RbNode, red: bool, bh: nat)
    requires n in t.at && t.at[n].right in t.at && Turnable(t, n, t.at[n].right)
    ensures t.at[n].right != n
    ensures var r, u := t.at[n].right, TurnedLeft(t, n, red, bh);
      && IsRed(u, n) == red && IsRed(u, r) == IsRed(t, n) && Bh(u, n) == bh && Bh(u, r) == Bh(t, n)
      && forall k: RbNode? {:trigger Bh(u, k)} {:trigger IsRed(u, k)} ::
           k != n && k != r ==> Bh(u, k) == Bh(t, k) && IsRed(u, k) == IsRed(t, k)
  {
    var r, u := t.at[n].right, TurnedLeft(t, n, red, bh);
    TurnedLeftCells(t, n, red, bh);
    forall k: RbNode? | k != n && k != r
      ensures Bh(u, k) == Bh(t, k) && IsRed(u, k) == IsRed(t, k)
    {
      if k != null && k in t.at {
        TurnedLeftOther(t, n, red, bh, k);
      }
    }
  }

  /** After a turn, the colour rule of a node is told by the tree before it. */
  lemma TurnedLeftRedOk(t: Tree, n: RbNode, red: bool, bh: nat, m: RbNode)
    requires n in t.at && t.at[n].right in t.at && Turnable(t, n, t.at[n].right)
    requires m in t.at && LinksOk(t, m)
    ensures t.at[n].right != n
    ensures var r, u := t.at[n].right, TurnedLeft(t, n, red, bh);
      RedOk(u, m) <==>
        (if m == n then red ==> !IsRed(t, n)
         else if m == r then RedOk(t, n)
         else if m == t.at[r].left || t.at[m].parent == n then IsRed(t, m) ==> !red
         else if t.at[m].parent == r then IsRed(t, m) ==> !IsRed(t, n)
         else RedOk(t, m))
  {
    TurnedLeftCells(t, n, red, bh);
    if m != n && m != t.at[n].right {
      TurnedLeftOther(t, n, red, bh, m);
    }
    TurnedLeftColours(t, n, red, bh);
  }

  // ----- Neighbours -----

  ghost function NextNode(t: Tree, n: RbNode): RbNode?
    requires Indexed(t) && n in t.at
  {
    assert PosOk(t, n);
    if t.at[n].pos + 1 < |t.nodes| then t.nodes[t.at[n].pos + 1] else null
  }

  ghost function PrevNode(t: Tree, n: RbNode): RbNode?
    requires Indexed(t) && n in t.at
  {
    assert PosOk(t, n);
    if t.at[n].pos > 0 then t.nodes[t.at[n].pos - 1] else null
  }

  /** Going on and coming back leads to the node one started from. */
  lemma PrevInvertsNext(t: Tree, n: RbNode, m: RbNode)
    requires Indexed(t) && n in t.at && m in t.at
    ensures NextNode(t, n) == m <==> PrevNode(t, m) == n
  {
    assert PosOk(t, n) && PosOk(t, m);
  }
}
