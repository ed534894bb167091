/** The red-black tree of tree.h on the heap.

  The methods are the macros, one for each branch of their loops, working on
  nodes with parent links.  Ghost arguments say where the focus of the loop is
  in the tree that the heap spells; lemmas about memories (`Mem`) carry that
  tree across each group of writes.
 */
module RBTree {
  import opened Entries
  import opened RBShape

  ghost function MemOf(s: set<Node>): Mem
    reads s
  {
    map n | n in s :: CellOf(n)
  }

  ghost function CellOf(n: Node): Cell
    reads n
  {
    Cell(n.key, n.left, n.right, n.parent, n.color)
  }

  /** A parent's cell after its link to `from` is pointed at `to`. */
  ghost function Redirect(c: Cell, from: Node, to: Node?): Cell {
    if c.left == from then c.(left := to) else c.(right := to)
  }

  lemma TurnedLeft(t: Tree, p: Node?, m: Mem, m': Mem)
    requires t.Bin? && t.right.Bin? && Distinct(t) && Linked(t, p, m)
    requires var x, r := t.node, t.right;
      && x in m' && m'[x] == Cell(t.key, Top(t.left), Top(r.left), r.node, t.color)
      && r.node in m' && m'[r.node] == Cell(r.key, x, Top(r.right), p, r.color)
      && Linked(r.left, x, m')
      && Same(Nodes(t.left) + Nodes(r.right), m, m')
    ensures Linked(RotL(t), p, m')
  {
    assert Linked(t.right, t.node, m);
    Frame(t.left, t.node, m, m');
    Frame(t.right.right, t.right.node, m, m');
  }

  lemma TurnedRight(t: Tree, p: Node?, m: Mem, m': Mem)
    requires t.Bin? && t.left.Bin? && Distinct(t) && Linked(t, p, m)
    requires var x, r := t.node, t.left;
      && x in m' && m'[x] == Cell(t.key, Top(r.right), Top(t.right), r.node, t.color)
      && r.node in m' && m'[r.node] == Cell(r.key, Top(r.left), x, p, r.color)
      && Linked(r.right, x, m')
      && Same(Nodes(t.right) + Nodes(r.left), m, m')
    ensures Linked(RotR(t), p, m')
  {
    assert Linked(t.left, t.node, m);
    Frame(t.right, t.node, m, m');
    Frame(t.left.left, t.left.node, m, m');
  }

  lemma Reparented(t: Tree, p: Node?, p': Node?, m: Mem, m': Mem)
    requires Linked(t, p, m) && Distinct(t)
    requires t.Bin? ==> t.node in m' && m'[t.node] == m[t.node].(parent := p') && Same(Nodes(t) - {t.node}, m, m')
    ensures Linked(t, p', m')
  {
    if t.Bin? {
      Frame(t.left, t.node, m, m');
      Frame(t.right, t.node, m, m');
    }
  }

  lemma Relinked(z: Ctx, old_: Node?, new_: Node?, m: Mem, m': Mem)
    requires LinkedC(z, old_, m) && DistinctC(z)
    requires z.Step? ==> z.node in m' && m'[z.node] == StepCell(z, new_) && Same(NodesC(z) - {z.node}, m, m')
    ensures LinkedC(z, new_, m')
  {
    if z.Step? {
      Frame(z.sib, z.node, m, m');
      FrameC(z.up, z.node, m, m');
    }
  }

  lemma RotatedLeft(z: Ctx, t: Tree, m: Mem, m': Mem)
    requires t.Bin? && t.right.Bin? && Stored(z, t, m)
    requires var x, r := t.node, t.right;
      && x in m' && m'[x] == Cell(t.key, Top(t.left), Top(r.left), r.node, t.color)
      && r.node in m' && m'[r.node] == Cell(r.key, x, Top(r.right), Up(z), r.color)
      && (r.left.Bin? ==> var b := r.left.node; b in m' && b in m && m'[b] == m[b].(parent := x))
      && (z.Step? ==> z.node in m' && m'[z.node] == StepCell(z, r.node))
      && forall n :: n in m && n != x && n != r.node && n != Top(r.left) && n != Up(z) ==> n in m' && m'[n] == m[n]
    ensures Stored(z, RotL(t), m')
  {
    var b := t.right.left;
    assert Distinct(t.right) && Linked(t.right, t.node, m) && Linked(b, t.right.node, m);
    assert b.Bin? ==> b.node in Nodes(b);
    assert Nodes(RotL(t)) == Nodes(t);
    Reparented(b, t.right.node, t.node, m, m');
    TurnedLeft(t, Up(z), m, m');
    Relinked(z, t.node, t.right.node, m, m');
  }

  /** What a left rotation reads and writes are different cells. */
  lemma OpenRight(z: Ctx, t: Tree, m: Mem)
    requires t.Bin? && t.right.Bin? && Stored(z, t, m)
    ensures var x, r := t.node, t.right;
      && x in m && m[x] == Cell(t.key, Top(t.left), r.node, Up(z), t.color)
      && r.node in m && m[r.node] == Cell(r.key, Top(r.left), Top(r.right), x, r.color)
      && (r.left.Bin? ==> r.left.node in m && r.left.node in Nodes(t))
      && (z.Step? ==> z.node in m && m[z.node] == StepCell(z, x) && Top(z.sib) != x)
      && x != r.node && Top(r.left) != x && Top(r.left) != r.node
      && Up(z) != x && Up(z) != r.node && (z.Step? ==> Up(z) != Top(r.left))
      && x in Nodes(t) && r.node in Nodes(t) && Nodes(RotL(t)) == Nodes(t)
  {
    assert Distinct(t.right) && Linked(t.right, t.node, m) && Linked(t.right.left, t.right.node, m);
    assert t.right.left.Bin? ==> t.right.left.node in Nodes(t.right.left);
    assert z.Step? && z.sib.Bin? ==> z.sib.node in Nodes(z.sib);
  }

  lemma RotatedRight(z: Ctx, t: Tree, m: Mem, m': Mem)
    requires t.Bin? && t.left.Bin? && Stored(z, t, m)
    requires var x, r := t.node, t.left;
      && x in m' && m'[x] == Cell(t.key, Top(r.right), Top(t.right), r.node, t.color)
      && r.node in m' && m'[r.node] == Cell(r.key, Top(r.left), x, Up(z), r.color)
      && (r.right.Bin? ==> var b := r.right.node; b in m' && b in m && m'[b] == m[b].(parent := x))
      && (z.Step? ==> z.node in m' && m'[z.node] == StepCell(z, r.node))
      && forall n :: n in m && n != x && n != r.node && n != Top(r.right) && n != Up(z) ==> n in m' && m'[n] == m[n]
    ensures Stored(z, RotR(t), m')
  {
    var b := t.left.right;
    assert Distinct(t.left) && Linked(t.left, t.node, m) && Linked(b, t.left.node, m);
    assert b.Bin? ==> b.node in Nodes(b);
    assert Nodes(RotR(t)) == Nodes(t);
    Reparented(b, t.left.node, t.node, m, m');
    TurnedRight(t, Up(z), m, m');
    Relinked(z, t.node, t.left.node, m, m');
  }

  lemma OpenLeft(z: Ctx, t: Tree, m: Mem)
    requires t.Bin? && t.left.Bin? && Stored(z, t, m)
    ensures var x, r := t.node, t.left;
      && x in m && m[x] == Cell(t.key, r.node, Top(t.right), Up(z), t.color)
      && r.node in m && m[r.node] == Cell(r.key, Top(r.left), Top(r.right), x, r.color)
      && (r.right.Bin? ==> r.right.node in m && r.right.node in Nodes(t))
      && (z.Step? ==> z.node in m && m[z.node] == StepCell(z, x) && Top(z.sib) != x)
      && x != r.node && Top(r.right) != x && Top(r.right) != r.node
      && Up(z) != x && Up(z) != r.node && (z.Step? ==> Up(z) != Top(r.right))
      && x in Nodes(t) && r.node in Nodes(t) && Nodes(RotR(t)) == Nodes(t)
  {
    assert Distinct(t.left) && Linked(t.left, t.node, m) && Linked(t.left.right, t.left.node, m);
    assert t.left.right.Bin? ==> t.left.right.node in Nodes(t.left.right);
    assert z.Step? && z.sib.Bin? ==> z.sib.node in Nodes(z.sib);
  }

  lemma Painted(z: Ctx, t: Tree, c: Color, m: Mem, m': Mem)
    requires t.Bin? && Stored(z, t, m)
    requires t.node in m' && t.node in m && m'[t.node] == m[t.node].(color := c)
    requires forall n :: n in m && n != t.node ==> n in m' && m'[n] == m[n]
    ensures Stored(z, Paint(t, c), m')
  {
    Frame(t.left, t.node, m, m');
    Frame(t.right, t.node, m, m');
    FrameC(z, t.node, m, m');
  }

  /** Linking a fresh red leaf into an empty place. */
  lemma Attached(z: Ctx, n: Node, k: int, m: Mem, m': Mem)
    requires Stored(z, Leaf, m) && n !in NodesC(z)
    requires n in m' && m'[n] == Cell(k, null, null, Up(z), Red)
    requires z.Step? ==> z.node in m' && m'[z.node] == StepCell(z, n)
    requires forall x :: x in m && x != n && x != Up(z) ==> x in m' && m'[x] == m[x]
    ensures Stored(z, Bin(Leaf, n, k, Red, Leaf), m')
  {
    Relinked(z, null, n, m, m');
  }

  ghost function OnlyChild(t: Tree): Tree
    requires t.Bin?
  {
    if t.left.Leaf? then t.right else t.left
  }

  /** Linking the only child of an element in its place. */
  lemma Spliced(z: Ctx, t: Tree, m: Mem, m': Mem)
    requires t.Bin? && Stored(z, t, m) && (t.left.Leaf? || t.right.Leaf?)
    requires var c := OnlyChild(t);
      && (c.Bin? ==> c.node in m' && c.node in m && m'[c.node] == m[c.node].(parent := Up(z)))
      && (z.Step? ==> z.node in m' && m'[z.node] == StepCell(z, Top(c)))
      && forall x :: x in Nodes(c) + NodesC(z) && x != Top(c) && x != Up(z) ==> x in m && x in m' && m'[x] == m[x]
    ensures Stored(z, OnlyChild(t), m')
  {
    var c := OnlyChild(t);
    assert c.Bin? ==> c.node in Nodes(c);
    Reparented(c, t.node, Up(z), m, m');
    Relinked(z, t.node, Top(c), m, m');
  }

  lemma OpenSplice(z: Ctx, t: Tree, m: Mem)
    requires t.Bin? && Stored(z, t, m) && (t.left.Leaf? || t.right.Leaf?)
    ensures var c := OnlyChild(t);
      && t.node in Nodes(t) && t.node !in Nodes(c) + NodesC(z) && Nodes(t) == Nodes(c) + {t.node}
      && (c.Bin? ==> c.node in Nodes(c) && c.node in m && c.node !in NodesC(z))
      && (z.Step? ==> z.node in m && m[z.node] == StepCell(z, t.node) && Top(z.sib) != t.node)
  {
    assert z.Step? && z.sib.Bin? ==> z.sib.node in Nodes(z.sib);
    assert Linked(OnlyChild(t), t.node, m);
  }

  lemma OpenReplace(z: Ctx, t: Tree, m: Mem)
    requires t.Bin? && t.left.Bin? && Stored(z, t, m)
    ensures t.node in m && m[t.node] == Cell(t.key, Top(t.left), Top(t.right), Up(z), t.color)
    ensures t.left.node in m && t.node in Nodes(t) && t.left.node in Nodes(t) && t.left.node != t.node
    ensures t.right.Bin? ==> t.right.node in m && t.right.node in Nodes(t) && t.right.node != t.node && t.left.node != t.right.node
    ensures z.Step? ==> z.node in m && m[z.node] == StepCell(z, t.node) && Top(z.sib) != t.node
    ensures z.Step? ==> z.node !in Nodes(t)
  {
    assert z.Step? && z.sib.Bin? ==> z.sib.node in Nodes(z.sib);
    assert Linked(t.left, t.node, m) && Linked(t.right, t.node, m);
    assert t.left.node in Nodes(t.left) && (t.right.Bin? ==> t.right.node in Nodes(t.right));
  }

  /** Letting the unlinked element `n` take the place of the focus's root. */
  lemma Replaced(z: Ctx, t: Tree, n: Node, k: int, m: Mem, m': Mem)
    requires t.Bin? && t.left.Bin? && Stored(z, t, m) && n !in Nodes(t) + NodesC(z)
    requires n in m' && m'[n] == Cell(k, Top(t.left), Top(t.right), Up(z), t.color)
    requires t.left.node in m' && t.left.node in m && m'[t.left.node] == m[t.left.node].(parent := n)
    requires t.right.Bin? ==> var r := t.right.node; r in m' && r in m && m'[r] == m[r].(parent := n)
    requires z.Step? ==> z.node in m' && m'[z.node] == StepCell(z, n)
    requires forall x :: x in Nodes(t) + NodesC(z) && x != t.node && x != Top(t.left) && x != Top(t.right) && x != Up(z)
               ==> x in m && x in m' && m'[x] == m[x]
    ensures Stored(z, t.(node := n, key := k), m')
  {
    assert t.left.node in Nodes(t.left) && (t.right.Bin? ==> t.right.node in Nodes(t.right));
    Reparented(t.left, t.node, n, m, m');
    Reparented(t.right, t.node, n, m, m');
    Relinked(z, t.node, n, m, m');
  }

  class Head {
    var root: Node?
    ghost var shape: Tree
    ghost var bh: nat
    ghost var Repr: set<Node>

    ghost predicate Valid()
      reads this, Repr
    {
      Repr == Nodes(shape) && At(Root, shape) && RB(shape, bh) && !IsRed(shape) && Sorted(Inorder(shape))
    }

    /** The elements in key order. */
    ghost function Contents(): seq<Entry<Node>>
      reads this
    {
      Inorder(shape)
    }

    constructor ()
      ensures Valid() && Contents() == [] && Repr == {}
    {
      root, shape, bh, Repr := null, Leaf, 0, {};
    }

    /** The heap below `root` is the tree `t` in the context `z`. */
    ghost predicate At(z: Ctx, t: Tree)
      reads `root, Nodes(t) + NodesC(z)
    {
      root == TopOf(z, Top(t)) && Stored(z, t, MemOf(Nodes(t) + NodesC(z)))
    }

    /** Point the parent's link to `from`, or the root, at `to`. */
    method Relink(parent: Node?, from: Node, to: Node?)
      modifies `root, parent
      ensures parent != null ==> CellOf(parent) == old(Redirect(CellOf(parent), from, to))
      ensures root == if parent == null then to else old(root)
    {
      if parent != null {
        if parent.left == from {
          parent.left := to;
        } else {
          parent.right := to;
        }
      } else {
        root := to;
      }
    }

    method Reparent(child: Node?, parent: Node?)
      modifies child
      ensures child != null ==> CellOf(child) == old(CellOf(child)).(parent := parent)
    {
      if child != null {
        child.parent := parent;
      }
    }

    /** RB_ROTATE_LEFT on the links alone. */
    method TurnLeft(x: Node) returns (y: Node)
      requires x.right != null && x.right != x && x.right.left != x && x.right.left != x.right
      requires x.parent != x && x.parent != x.right && (x.parent != null ==> x.parent != x.right.left)
      modifies `root, x, x.right, x.right.left, x.parent
      ensures y == old(x.right)
      ensures CellOf(x) == old(CellOf(x)).(right := old(x.right.left), parent := y)
      ensures CellOf(y) == old(CellOf(x.right)).(left := x, parent := old(x.parent))
      ensures old(y.left) != null ==> CellOf(old(y.left)) == old(CellOf(y.left)).(parent := x)
      ensures old(x.parent) != null ==> CellOf(old(x.parent)) == old(Redirect(CellOf(x.parent), x, y))
      ensures root == if old(x.parent) == null then y else old(root)
    {
      y := x.right;
      x.right := y.left;
      Reparent(y.left, x);
      y.parent := x.parent;
      Relink(x.parent, x, y);
      y.left := x;
      x.parent := y;
    }

    method RotateLeft(x: Node, ghost z: Ctx, ghost t: Tree) returns (y: Node)
      requires t.Bin? && t.right.Bin? && t.node == x && At(z, t)
      modifies `root, Nodes(t) + NodesC(z)
      ensures y == RotL(t).node && At(z, RotL(t)) && Holding(z, RotL(t)) == Holding(z, t)
    {
      ghost var s := Nodes(t) + NodesC(z);
      ghost var m := MemOf(s);
      OpenRight(z, t, m);
      RotLInorder(t);
      y := TurnLeft(x);
      RotatedLeft(z, t, m, MemOf(s));
    }

    /** RB_ROTATE_RIGHT on the links alone. */
    method TurnRight(x: Node) returns (y: Node)
      requires x.left != null && x.left != x && x.left.right != x && x.left.right != x.left
      requires x.parent != x && x.parent != x.left && (x.parent != null ==> x.parent != x.left.right)
      modifies `root, x, x.left, x.left.right, x.parent
      ensures y == old(x.left)
      ensures CellOf(x) == old(CellOf(x)).(left := old(x.left.right), parent := y)
      ensures CellOf(y) == old(CellOf(x.left)).(right := x, parent := old(x.parent))
      ensures old(y.right) != null ==> CellOf(old(y.right)) == old(CellOf(y.right)).(parent := x)
      ensures old(x.parent) != null ==> CellOf(old(x.parent)) == old(Redirect(CellOf(x.parent), x, y))
      ensures root == if old(x.parent) == null then y else old(root)
    {
      y := x.left;
      x.left := y.right;
      Reparent(y.right, x);
      y.parent := x.parent;
      Relink(x.parent, x, y);
      y.right := x;
      x.parent := y;
    }

    method RotateRight(x: Node, ghost z: Ctx, ghost t: Tree) returns (y: Node)
      requires t.Bin? && t.left.Bin? && t.node == x && At(z, t)
      modifies `root, Nodes(t) + NodesC(z)
      ensures y == RotR(t).node && At(z, RotR(t)) && Holding(z, RotR(t)) == Holding(z, t)
    {
      ghost var s := Nodes(t) + NodesC(z);
      ghost var m := MemOf(s);
      OpenLeft(z, t, m);
      RotRInorder(t);
      y := TurnRight(x);
      RotatedRight(z, t, m, MemOf(s));
    }

    /** Moving the focus between a node and its parent changes nothing. */
    lemma Zoom(z: Ctx, t: Tree)
      requires z.Step? && (At(z, t) || At(z.up, Join(z, t)))
      ensures At(z, t) && At(z.up, Join(z, t)) && Holding(z, t) == Holding(z.up, Join(z, t))
    {
      JoinWhole(z, t);
    }

    lemma {:induction false} ZoomOut(z: Ctx, t: Tree)
      requires At(z, t)
      ensures At(Root, Plug(z, t)) && Holding(Root, Plug(z, t)) == Holding(z, t) && root == Top(Plug(z, t))
    {
      hide Holding;
      if z.Step? {
        Zoom(z, t);
        ZoomOut(z.up, Join(z, t));
      }
    }

    method SetColor(n: Node, c: Color, ghost z: Ctx, ghost t: Tree)
      requires t.Bin? && t.node == n && At(z, t)
      modifies n`color
      ensures At(z, Paint(t, c)) && Holding(z, Paint(t, c)) == Holding(z, t)
    {
      ghost var m := MemOf(Nodes(t) + NodesC(z));
      n.color := c;
      Painted(z, t, c, m, MemOf(Nodes(t) + NodesC(z)));
    }

    method SetColorLeft(n: Node, c: Color, ghost z: Ctx, ghost t: Tree)
      requires t.Bin? && t.left.Bin? && t.left.node == n && At(z, t)
      modifies n`color
      ensures At(z, t.(left := Paint(t.left, c))) && Holding(z, t.(left := Paint(t.left, c))) == Holding(z, t)
    {
      Zoom(GoLeft(z, t), t.left);
      SetColor(n, c, GoLeft(z, t), t.left);
      Zoom(GoLeft(z, t), Paint(t.left, c));
    }

    method SetColorRight(n: Node, c: Color, ghost z: Ctx, ghost t: Tree)
      requires t.Bin? && t.right.Bin? && t.right.node == n && At(z, t)
      modifies n`color
      ensures At(z, t.(right := Paint(t.right, c))) && Holding(z, t.(right := Paint(t.right, c))) == Holding(z, t)
    {
      Zoom(GoRight(z, t), t.right);
      SetColor(n, c, GoRight(z, t), t.right);
      Zoom(GoRight(z, t), Paint(t.right, c));
    }

    /** What following pointers from the focus finds. */
    lemma See(z: Ctx, t: Tree)
      requires At(z, t) && t.Bin?
      ensures CellOf(t.node) == Cell(t.key, Top(t.left), Top(t.right), Up(z), t.color)
      ensures t.left.Bin? ==> var l := t.left; CellOf(l.node) == Cell(l.key, Top(l.left), Top(l.right), t.node, l.color)
      ensures t.right.Bin? ==> var r := t.right; CellOf(r.node) == Cell(r.key, Top(r.left), Top(r.right), t.node, r.color)
      ensures t.node in Nodes(t) && (t.left.Bin? ==> t.left.node in Nodes(t)) && (t.right.Bin? ==> t.right.node in Nodes(t))
      ensures t.left.Bin? ==> Top(t.left) != Top(t.right)
      ensures t.node !in Nodes(t.left) + Nodes(t.right) + NodesC(z)
    {
      var m := MemOf(Nodes(t) + NodesC(z));
      assert Linked(t.left, t.node, m) && Linked(t.right, t.node, m);
    }

    ghost predicate SeenChildren(t: Tree)
      requires t.Bin?
      reads Nodes(t.left) + Nodes(t.right)
    {
      && (t.left.Bin? ==> t.left.node in Nodes(t.left) && t.left.node.color == t.left.color)
      && (t.right.Bin? ==> t.right.node in Nodes(t.right) && t.right.node.color == t.right.color)
      && (t.left.Bin? ==> Top(t.left) != Top(t.right))
    }

    /** The colours of the focus's grandchildren. */
    lemma SeeGrandchildren(z: Ctx, t: Tree)
      requires At(z, t) && t.Bin?
      ensures t.left.Bin? ==> Nodes(t.left.left) + Nodes(t.left.right) <= Nodes(t) && SeenChildren(t.left)
      ensures t.right.Bin? ==> Nodes(t.right.left) + Nodes(t.right.right) <= Nodes(t) && SeenChildren(t.right)
    {
      hide Holding, At;
      Zoom(GoLeft(z, t), t.left);
      Zoom(GoRight(z, t), t.right);
      if t.left.Bin? { See(GoLeft(z, t), t.left); }
      if t.right.Bin? { See(GoRight(z, t), t.right); }
    }

    /** One round of RB_INSERT_COLOR with the parent on the left of the grandparent. */
    method InsertFixLeft(e: Node, p: Node, gparent: Node, ghost z: Ctx, ghost g0: Tree, ghost h: nat)
        returns (elm: Node, ghost z': Ctx, ghost t': Tree, ghost h': nat)
      requires At(z, g0) && RedRedLeft(g0, h) && Fits(z, h + 1, Black)
      requires gparent == g0.node && p == g0.left.node
      requires e == if IsRed(g0.left.left) then g0.left.left.node else g0.left.right.node
      modifies `root, Nodes(g0) + NodesC(z)
      ensures At(z', t') && Holding(z', t') == Holding(z, g0)
      ensures IsRed(t') && t'.node == elm && RB(t', h') && Fits(z', h', Black) && Depth(z') <= Depth(z) + 1
    {
      hide At, RB, Fits, Whole, Nodes, NodesC, Distinct;
      var parent := p;
      ghost var g := g0;
      See(z, g);
      SeeGrandchildren(z, g);
      elm := e;
      var tmp := gparent.right;
      if tmp != null && tmp.color == Red {
        RecoloredRB(g, h);
        SetColorRight(tmp, Black, z, g);
        g := g.(right := Paint(g.right, Black));
        SetColorLeft(parent, Black, z, g);
        g := g.(left := Paint(g.left, Black));
        SetColor(gparent, Red, z, g);
        elm, z', t', h' := gparent, z, Paint(g, Red), h + 1;
        return;
      }
      if parent.right == elm {
        Zoom(GoLeft(z, g), g.left);
        tmp := RotateLeft(parent, GoLeft(z, g), g.left);
        Zoom(GoLeft(z, g), RotL(g.left));
        InnerLeftRB(g, h);
        g := g.(left := RotL(g.left));
        tmp := parent;
        parent := elm;
        elm := tmp;
      }
      OuterLeftRB(z, g, h);
      See(z, g);
      SetColorLeft(parent, Black, z, g);
      SetColor(gparent, Red, z, g.(left := Paint(g.left, Black)));
      tmp := RotateRight(gparent, z, Paint(g.(left := Paint(g.left, Black)), Red));
      g := OuterLeft(g);
      Zoom(GoLeft(z, g), g.left);
      z', t', h' := GoLeft(z, g), g.left, h;
    }

    /** One round of RB_INSERT_COLOR with the parent on the right of the grandparent. */
    method InsertFixRight(e: Node, p: Node, gparent: Node, ghost z: Ctx, ghost g0: Tree, ghost h: nat)
        returns (elm: Node, ghost z': Ctx, ghost t': Tree, ghost h': nat)
      requires At(z, g0) && RedRedRight(g0, h) && Fits(z, h + 1, Black)
      requires gparent == g0.node && p == g0.right.node
      requires e == if IsRed(g0.right.right) then g0.right.right.node else g0.right.left.node
      modifies `root, Nodes(g0) + NodesC(z)
      ensures At(z', t') && Holding(z', t') == Holding(z, g0)
      ensures IsRed(t') && t'.node == elm && RB(t', h') && Fits(z', h', Black) && Depth(z') <= Depth(z) + 1
    {
      hide At, RB, Fits, Whole, Nodes, NodesC, Distinct;
      var parent := p;
      ghost var g := g0;
      See(z, g);
      SeeGrandchildren(z, g);
      elm := e;
      var tmp := gparent.left;
      if tmp != null && tmp.color == Red {
        RecoloredRB(g, h);
        SetColorLeft(tmp, Black, z, g);
        g := g.(left := Paint(g.left, Black));
        SetColorRight(parent, Black, z, g);
        g := g.(right := Paint(g.right, Black));
        SetColor(gparent, Red, z, g);
        elm, z', t', h' := gparent, z, Paint(g, Red), h + 1;
        return;
      }
      if parent.left == elm {
        Zoom(GoRight(z, g), g.right);
        tmp := RotateRight(parent, GoRight(z, g), g.right);
        Zoom(GoRight(z, g), RotR(g.right));
        InnerRightRB(g, h);
        g := g.(right := RotR(g.right));
        tmp := parent;
        parent := elm;
        elm := tmp;
      }
      OuterRightRB(z, g, h);
      See(z, g);
      SetColorRight(parent, Black, z, g);
      SetColor(gparent, Red, z, g.(right := Paint(g.right, Black)));
      tmp := RotateLeft(gparent, z, Paint(g.(right := Paint(g.right, Black)), Red));
      g := OuterRight(g);
      Zoom(GoRight(z, g), g.right);
      z', t', h' := GoRight(z, g), g.right, h;
    }

    /** RB_INSERT_COLOR: `elm` has just been linked in as a red leaf. */
    method InsertColor(e: Node, ghost z0: Ctx, ghost t0: Tree, ghost h0: nat) returns (ghost t': Tree, ghost h': nat)
      requires At(z0, t0) && IsRed(t0) && t0.node == e && RB(t0, h0) && Fits(z0, h0, Black)
      modifies `root, Nodes(t0) + NodesC(z0)
      ensures At(Root, t') && RB(t', h') && !IsRed(t') && Holding(Root, t') == Holding(z0, t0)
    {
      hide At, RB, Fits, Whole, Nodes, NodesC, Distinct;
      var elm := e;
      ghost var z, t, h := z0, t0, h0;
      while elm.parent != null && elm.parent.color == Red
        invariant At(z, t) && Holding(z, t) == Holding(z0, t0)
        invariant IsRed(t) && t.node == elm && RB(t, h) && Fits(z, h, Black)
        decreases Depth(z)
      {
        See(z, t);
        Zoom(z, t);
        See(z.up, Join(z, t));
        var parent := elm.parent;
        Grandparent(z, t, h);
        assert Depth(z) == 2 + Depth(z.up.up);
        var gparent := parent.parent;
        ghost var g := Join(z.up, Join(z, t));
        Zoom(z.up, Join(z, t));
        See(z.up.up, g);
        if parent == gparent.left {
          elm, z, t, h := InsertFixLeft(elm, parent, gparent, z.up.up, g, h);
        } else {
          elm, z, t, h := InsertFixRight(elm, parent, gparent, z.up.up, g, h);
        }
      }
      See(z, t);
      if z.Step? {
        Zoom(z, t);
        See(z.up, Join(z, t));
      }
      h' := BlackenedRB(z, t, h);
      ZoomOut(z, t);
      See(Root, Plug(z, t));
      SetColor(root, Black, Root, Plug(z, t));
      t' := Paint(Plug(z, t), Black);
    }

    /** Case 1 of RB_REMOVE_COLOR: the sibling of the short left side is red. */
    method LiftRedSiblingLeft(parent: Node, tmp: Node, ghost z: Ctx, ghost p: Tree, ghost h: nat)
      requires At(z, p) && ShortLeft(p, h) && IsRed(p.right) && Fits(z, HeightAbove(p, h), p.color)
      requires parent == p.node && tmp == p.right.node
      modifies `root, Nodes(p) + NodesC(z)
      ensures var q := LiftRedLeft(p);
        && At(GoLeft(z, q), q.left) && Holding(GoLeft(z, q), q.left) == Holding(z, p)
        && ShortLeft(q.left, h) && q.left.color == Red && q.left.node == parent && q.left.left == p.left
        && Fits(GoLeft(z, q), HeightAbove(q.left, h), Red)
    {
      hide At, RB, Fits, Whole, Nodes, NodesC, Distinct;
      See(z, p);
      LiftedRedLeft(z, p, h);
      SetColorRight(tmp, Black, z, p);
      SetColor(parent, Red, z, p.(right := Paint(p.right, Black)));
      var y := RotateLeft(parent, z, Paint(p.(right := Paint(p.right, Black)), Red));
      ghost var q := LiftRedLeft(p);
      Zoom(GoLeft(z, q), q.left);
    }

    /** Case 3: the sibling's red child is the inner one. */
    method TurnOutSiblingLeft(tmp: Node, ghost z: Ctx, ghost p: Tree, ghost h: nat)
      requires At(z, p) && ShortLeft(p, h) && !IsRed(p.right) && IsRed(p.right.left) && !IsRed(p.right.right)
      requires tmp == p.right.node
      modifies `root, Nodes(p) + NodesC(z)
      ensures var q := p.(right := TurnOutLeft(p.right));
        At(z, q) && Holding(z, q) == Holding(z, p) && ShortLeft(q, h) && q.right.Bin? && !IsRed(q.right) && IsRed(q.right.right)
    {
      hide At, RB, Fits, Whole, Nodes, NodesC, Distinct;
      ghost var z', s := GoRight(z, p), p.right;
      BigEnough(p.right, h);
      TurnedOutLeft(p, h);
      Zoom(z', s);
      See(z', s);
      var oleft := tmp.left;
      if oleft != null {
        SetColorLeft(oleft, Black, z', s);
      }
      SetColor(tmp, Red, z', s.(left := Paint(s.left, Black)));
      oleft := RotateRight(tmp, z', Paint(s.(left := Paint(s.left, Black)), Red));
      Zoom(z', TurnOutLeft(s));
    }

    /** Case 4: the sibling's outer child is red; the lack is repaid. */
    method RepayLeftSide(parent: Node, tmp: Node, ghost z: Ctx, ghost p: Tree, ghost h: nat)
      requires At(z, p) && ShortLeft(p, h) && !IsRed(p.right) && IsRed(p.right.right)
      requires parent == p.node && tmp == p.right.node
      modifies `root, Nodes(p) + NodesC(z)
      ensures var q := RepayLeft(p);
        At(z, q) && Holding(z, q) == Holding(z, p) && RB(q, HeightAbove(p, h)) && q.Bin? && q.color == p.color
    {
      hide At, RB, Fits, Whole, Nodes, NodesC, Distinct;
      BigEnough(p.right, h);
      RepaidLeft(p, h);
      See(z, p);
      SetColorRight(tmp, parent.color, z, p);
      ghost var q := p.(right := Paint(p.right, p.color));
      SetColor(parent, Black, z, q);
      q := Paint(q, Black);
      ghost var z', s := GoRight(z, q), q.right;
      Zoom(z', s);
      See(z', s);
      if tmp.right != null {
        SetColorRight(tmp.right, Black, z', s);
      }
      s := s.(right := Paint(s.right, Black));
      Zoom(z', s);
      q := q.(right := s);
      var y := RotateLeft(parent, z, q);
    }

    /** Cases 2 to 4 of RB_REMOVE_COLOR: the sibling of the short left side is black. */
    method FixBlackSiblingLeft(p: Node, sibling: Node, ghost z: Ctx, ghost t0: Tree, ghost h: nat)
        returns (elm: Node?, parent: Node?, done: bool, ghost t: Tree, ghost h': nat)
      requires At(z, t0) && ShortLeft(t0, h) && !IsRed(t0.right) && Fits(z, HeightAbove(t0, h), t0.color)
      requires p == t0.node && sibling == Top(t0.right)
      modifies `root, Nodes(t0) + NodesC(z)
      ensures At(z, t) && Holding(z, t) == Holding(z, t0) && t.Bin? && t.color == t0.color
      ensures done ==> RB(t, h') && Fits(z, h', t.color) && elm == root
      ensures !done ==> AlmostRB(t, h') && Fits(z, h' + 1, Black) && elm == t.node && parent == Up(z)
    {
      hide At, RB, AlmostRB, Fits, Whole, Nodes, NodesC, Distinct, RepayLeft, TurnOutLeft;
      parent, t := p, t0;
      var tmp := sibling;
      BigEnough(t.right, h);
      See(z, t);
      SeeGrandchildren(z, t);
      if (tmp.left == null || tmp.left.color == Black) && (tmp.right == null || tmp.right.color == Black) {
        SunkLeft(z, t, h);
        SetColorRight(tmp, Red, z, t);
        h', t := HeightAbove(t, h) - 1, t.(right := Paint(t.right, Red));
        See(z, t);
        elm := parent;
        parent := elm.parent;
        done := false;
      } else {
        if tmp.right == null || tmp.right.color == Black {
          TurnOutSiblingLeft(tmp, z, t, h);
          t := t.(right := TurnOutLeft(t.right));
          See(z, t);
          tmp := parent.right;
        }
        RepayLeftSide(parent, tmp, z, t, h);
        h', t := HeightAbove(t, h), RepayLeft(t);
        elm := root;
        done := true;
      }
    }

    /** One round of RB_REMOVE_COLOR with the focus on the left of its parent. */
    method RemoveFixLeft(p: Node, ghost z0: Ctx, ghost t0: Tree, ghost h: nat)
        returns (elm: Node?, parent: Node?, done: bool, ghost z: Ctx, ghost t: Tree, ghost h': nat)
      requires At(z0, t0) && ShortLeft(t0, h) && Fits(z0, HeightAbove(t0, h), t0.color) && p == t0.node
      modifies `root, Nodes(t0) + NodesC(z0)
      ensures At(z, t) && Holding(z, t) == Holding(z0, t0) && t.Bin?
      ensures done ==> RB(t, h') && Fits(z, h', t.color) && elm == root
      ensures !done ==> AlmostRB(t, h') && Fits(z, h' + 1, Black) && elm == t.node && parent == Up(z)
      ensures Depth(z) <= Depth(z0) + (if IsRed(t) then 1 else 0)
    {
      hide At, RB, AlmostRB, Fits, Whole, Nodes, NodesC, Distinct;
      z, t := z0, t0;
      See(z, t);
      BigEnough(t.right, h);
      var tmp := p.right;
      if tmp.color == Red {
        LiftRedSiblingLeft(p, tmp, z, t, h);
        z, t := GoLeft(z, LiftRedLeft(t)), LiftRedLeft(t).left;
        See(z, t);
        BigEnough(t.right, h);
        tmp := p.right;
      }
      elm, parent, done, t, h' := FixBlackSiblingLeft(p, tmp, z, t, h);
    }

    /** Case 1 of RB_REMOVE_COLOR: the sibling of the short right side is red. */
    method LiftRedSiblingRight(parent: Node, tmp: Node, ghost z: Ctx, ghost p: Tree, ghost h: nat)
      requires At(z, p) && ShortRight(p, h) && IsRed(p.left) && Fits(z, HeightAbove(p, h), p.color)
      requires parent == p.node && tmp == p.left.node
      modifies `root, Nodes(p) + NodesC(z)
      ensures var q := LiftRedRight(p);
        && At(GoRight(z, q), q.right) && Holding(GoRight(z, q), q.right) == Holding(z, p)
        && ShortRight(q.right, h) && q.right.color == Red && q.right.node == parent && q.right.right == p.right
        && Fits(GoRight(z, q), HeightAbove(q.right, h), Red)
    {
      hide At, RB, Fits, Whole, Nodes, NodesC, Distinct;
      See(z, p);
      LiftedRedRight(z, p, h);
      SetColorLeft(tmp, Black, z, p);
      SetColor(parent, Red, z, p.(left := Paint(p.left, Black)));
      var y := RotateRight(parent, z, Paint(p.(left := Paint(p.left, Black)), Red));
      ghost var q := LiftRedRight(p);
      Zoom(GoRight(z, q), q.right);
    }

    /** Case 3: the sibling's red child is the inner one. */
    method TurnOutSiblingRight(tmp: Node, ghost z: Ctx, ghost p: Tree, ghost h: nat)
      requires At(z, p) && ShortRight(p, h) && !IsRed(p.left) && IsRed(p.left.right) && !IsRed(p.left.left)
      requires tmp == p.left.node
      modifies `root, Nodes(p) + NodesC(z)
      ensures var q := p.(left := TurnOutRight(p.left));
        At(z, q) && Holding(z, q) == Holding(z, p) && ShortRight(q, h) && q.left.Bin? && !IsRed(q.left) && IsRed(q.left.left)
    {
      hide At, RB, Fits, Whole, Nodes, NodesC, Distinct;
      ghost var z', s := GoLeft(z, p), p.left;
      BigEnough(p.left, h);
      TurnedOutRight(p, h);
      Zoom(z', s);
      See(z', s);
      var oright := tmp.right;
      if oright != null {
        SetColorRight(oright, Black, z', s);
      }
      SetColor(tmp, Red, z', s.(right := Paint(s.right, Black)));
      oright := RotateLeft(tmp, z', Paint(s.(right := Paint(s.right, Black)), Red));
      Zoom(z', TurnOutRight(s));
    }

    /** Case 4: the sibling's outer child is red; the lack is repaid. */
    method RepayRightSide(parent: Node, tmp: Node, ghost z: Ctx, ghost p: Tree, ghost h: nat)
      requires At(z, p) && ShortRight(p, h) && !IsRed(p.left) && IsRed(p.left.left)
      requires parent == p.node && tmp == p.left.node
      modifies `root, Nodes(p) + NodesC(z)
      ensures var q := RepayRight(p);
        At(z, q) && Holding(z, q) == Holding(z, p) && RB(q, HeightAbove(p, h)) && q.Bin? && q.color == p.color
    {
      hide At, RB, Fits, Whole, Nodes, NodesC, Distinct;
      BigEnough(p.left, h);
      RepaidRight(p, h);
      See(z, p);
      SetColorLeft(tmp, parent.color, z, p);
      ghost var q := p.(left := Paint(p.left, p.color));
      SetColor(parent, Black, z, q);
      q := Paint(q, Black);
      ghost var z', s := GoLeft(z, q), q.left;
      Zoom(z', s);
      See(z', s);
      if tmp.left != null {
        SetColorLeft(tmp.left, Black, z', s);
      }
      s := s.(left := Paint(s.left, Black));
      Zoom(z', s);
      q := q.(left := s);
      var y := RotateRight(parent, z, q);
    }

    /** Cases 2 to 4 of RB_REMOVE_COLOR: the sibling of the short right side is black. */
    method FixBlackSiblingRight(p: Node, sibling: Node, ghost z: Ctx, ghost t0: Tree, ghost h: nat)
        returns (elm: Node?, parent: Node?, done: bool, ghost t: Tree, ghost h': nat)
      requires At(z, t0) && ShortRight(t0, h) && !IsRed(t0.left) && Fits(z, HeightAbove(t0, h), t0.color)
      requires p == t0.node && sibling == Top(t0.left)
      modifies `root, Nodes(t0) + NodesC(z)
      ensures At(z, t) && Holding(z, t) == Holding(z, t0) && t.Bin? && t.color == t0.color
      ensures done ==> RB(t, h') && Fits(z, h', t.color) && elm == root
      ensures !done ==> AlmostRB(t, h') && Fits(z, h' + 1, Black) && elm == t.node && parent == Up(z)
    {
      hide At, RB, AlmostRB, Fits, Whole, Nodes, NodesC, Distinct, RepayRight, TurnOutRight;
      parent, t := p, t0;
      var tmp := sibling;
      BigEnough(t.left, h);
      See(z, t);
      SeeGrandchildren(z, t);
      if (tmp.right == null || tmp.right.color == Black) && (tmp.left == null || tmp.left.color == Black) {
        SunkRight(z, t, h);
        SetColorLeft(tmp, Red, z, t);
        h', t := HeightAbove(t, h) - 1, t.(left := Paint(t.left, Red));
        See(z, t);
        elm := parent;
        parent := elm.parent;
        done := false;
      } else {
        if tmp.left == null || tmp.left.color == Black {
          TurnOutSiblingRight(tmp, z, t, h);
          t := t.(left := TurnOutRight(t.left));
          See(z, t);
          tmp := parent.left;
        }
        RepayRightSide(parent, tmp, z, t, h);
        h', t := HeightAbove(t, h), RepayRight(t);
        elm := root;
        done := true;
      }
    }

    /** One round of RB_REMOVE_COLOR with the focus on the right of its parent. */
    method RemoveFixRight(p: Node, ghost z0: Ctx, ghost t0: Tree, ghost h: nat)
        returns (elm: Node?, parent: Node?, done: bool, ghost z: Ctx, ghost t: Tree, ghost h': nat)
      requires At(z0, t0) && ShortRight(t0, h) && Fits(z0, HeightAbove(t0, h), t0.color) && p == t0.node
      modifies `root, Nodes(t0) + NodesC(z0)
      ensures At(z, t) && Holding(z, t) == Holding(z0, t0) && t.Bin?
      ensures done ==> RB(t, h') && Fits(z, h', t.color) && elm == root
      ensures !done ==> AlmostRB(t, h') && Fits(z, h' + 1, Black) && elm == t.node && parent == Up(z)
      ensures Depth(z) <= Depth(z0) + (if IsRed(t) then 1 else 0)
    {
      hide At, RB, AlmostRB, Fits, Whole, Nodes, NodesC, Distinct;
      z, t := z0, t0;
      See(z, t);
      BigEnough(t.left, h);
      var tmp := p.left;
      if tmp.color == Red {
        LiftRedSiblingRight(p, tmp, z, t, h);
        z, t := GoRight(z, LiftRedRight(t)), LiftRedRight(t).right;
        See(z, t);
        BigEnough(t.left, h);
        tmp := p.left;
      }
      elm, parent, done, t, h' := FixBlackSiblingRight(p, tmp, z, t, h);
    }

    /** The root is the focus exactly when nothing lies above it. */
    lemma AtRoot(z: Ctx, t: Tree)
      requires At(z, t)
      ensures root == Top(t) <==> z.Root?
    {
      if z.Step? {
        TopOfCtx(z, Top(t));
        assert t.Bin? ==> t.node in Nodes(t);
      }
    }

    /** RB_REMOVE_COLOR: the subtree at the focus lacks one black node. */
    method RemoveColor(p: Node?, e: Node?, ghost z0: Ctx, ghost t0: Tree, ghost h0: nat)
        returns (ghost t': Tree, ghost h': nat)
      requires At(z0, t0) && AlmostRB(t0, h0) && Fits(z0, h0 + 1, Black) && e == Top(t0) && p == Up(z0)
      modifies `root, Nodes(t0) + NodesC(z0)
      ensures At(Root, t') && RB(t', h') && !IsRed(t') && Holding(Root, t') == Holding(z0, t0)
    {
      hide At, RB, AlmostRB, Fits, Whole, Nodes, NodesC, Distinct;
      var elm, parent := e, p;
      ghost var z, t, h := z0, t0, h0;
      var done := false;
      while (elm == null || elm.color == Black) && elm != root
        invariant !done && At(z, t) && Holding(z, t) == Holding(z0, t0)
        invariant AlmostRB(t, h) && Fits(z, h + 1, Black) && elm == Top(t) && parent == Up(z)
        decreases 2 * Depth(z) + (if IsRed(t) then 0 else 1)
      {
        AtRoot(z, t);
        if t.Bin? { See(z, t); }
        Zoom(z, t);
        ShortSide(z, t, h);
        See(z.up, Join(z, t));
        assert Depth(z) == 1 + Depth(z.up);
        if parent.left == elm {
          elm, parent, done, z, t, h := RemoveFixLeft(parent, z.up, Join(z, t), h);
        } else {
          elm, parent, done, z, t, h := RemoveFixRight(parent, z.up, Join(z, t), h);
        }
        if done {
          break;
        }
      }
      if done {
        h' := PlugRB(z, t, h);
        PlugBin(z, t);
        ZoomOut(z, t);
        z, t := Root, Plug(z, t);
        See(z, t);
      } else {
        AtRoot(z, t);
        if t.Bin? { See(z, t); }
        h' := Repainted(z, t, h);
      }
      if elm != null {
        SetColor(elm, Black, z, t);
        t := Paint(t, Black);
      }
      ZoomOut(z, t);
      t' := Plug(z, t);
    }

    // ------------------------------------------------------------- operations

    /** The focus of a search for `k`: everything before it is smaller, everything after it larger. */
    ghost predicate Searching(z: Ctx, t: Tree, h: nat, k: int)
      reads this, Nodes(t) + NodesC(z)
    {
      && At(z, t) && Holding(z, t) == Holding(Root, shape)
      && RB(t, h) && Fits(z, h, ColorOf(t)) && Between(z, k)
      && Depth(z) + Height(t) <= Height(shape)
    }

    lemma StartSearch(k: int)
      requires Valid()
      ensures Searching(Root, shape, bh, k)
    {
    }

    lemma Descend(z: Ctx, t: Tree, h: nat, k: int) returns (h': nat)
      requires Valid() && Searching(z, t, h, k) && t.Bin?
      ensures t.node.key == t.key && t.node.left == Top(t.left) && t.node.right == Top(t.right)
      ensures t.node in Repr
      ensures k < t.key ==> Searching(GoLeft(z, t), t.left, h', k)
      ensures k > t.key ==> Searching(GoRight(z, t), t.right, h', k)
    {
      hide At, RB, Fits, Between;
      See(z, t);
      h' := FitsDown(z, t, h);
      assert Whole(Root, shape) == Inorder(shape) && Nodes(t) <= Holding(Root, shape).1;
      BetweenDown(z, t, k);
      Zoom(GoLeft(z, t), t.left);
      Zoom(GoRight(z, t), t.right);
    }

    /** The end of an unsuccessful search: RB_SET and the link from the parent. */
    method Attach(elm: Node, parent: Node?, comp: int, ghost z: Ctx)
      requires At(z, Leaf) && elm !in NodesC(z) && parent == Up(z)
      requires z.Step? ==> (comp < 0 <==> z.side == L)
      modifies `root, NodesC(z), elm
      ensures At(z, Bin(Leaf, elm, elm.key, Red, Leaf)) && elm.key == old(elm.key)
    {
      ghost var m := MemOf(NodesC(z) + {elm});
      assert Stored(z, Leaf, m) by {
        FrameC(z, null, MemOf(Nodes(Leaf) + NodesC(z)), m);
      }
      elm.parent := parent;
      elm.left, elm.right := null, null;
      elm.color := Red;
      if parent != null {
        if comp < 0 {
          parent.left := elm;
        } else {
          parent.right := elm;
        }
      } else {
        root := elm;
      }
      ghost var t := Bin(Leaf, elm, elm.key, Red, Leaf);
      assert Nodes(t) + NodesC(z) == NodesC(z) + {elm};
      Attached(z, elm, elm.key, m, MemOf(Nodes(t) + NodesC(z)));
    }

    /** The search loop of RB_INSERT, of at most 2 lg (n + 1) steps. */
    method Search(key: int) returns (tmp: Node?, parent: Node?, comp: int, ghost z: Ctx, ghost t: Tree, ghost h: nat, ghost steps: nat)
      requires Valid()
      ensures Pow2(steps) <= (|Contents()| + 1) * (|Contents()| + 1)
      ensures Searching(z, t, h, key) && tmp == Top(t) && parent == Up(z)
      ensures z.Step? ==> (comp < 0 <==> z.side == L)
      ensures t.Bin? ==> t.key == key
    {
      hide At, RB, Fits, Between, Pow2;
      StartSearch(key);
      AtRoot(Root, shape);
      z, t, h, steps := Root, shape, bh, 0;
      tmp, parent, comp := root, null, 0;
      while tmp != null
        invariant Searching(z, t, h, key) && tmp == Top(t) && parent == Up(z) && steps == Depth(z)
        invariant z.Step? ==> (comp < 0 <==> z.side == L)
        decreases t
      {
        ghost var h' := Descend(z, t, h, key);
        steps := steps + 1;
        var c := Cmp(key, tmp.key);
        if c < 0 {
          parent, comp := tmp, c;
          tmp := tmp.left;
          z, t, h := GoLeft(z, t), t.left, h';
        } else if c > 0 {
          parent, comp := tmp, c;
          tmp := tmp.right;
          z, t, h := GoRight(z, t), t.right, h';
        } else {
          StepBound(steps);
          return;
        }
      }
      StepBound(steps);
    }

    lemma KeysKept(i: nat)
      requires Valid() && i < |Contents()|
      ensures Contents()[i].node in Repr && Contents()[i].node.key == Contents()[i].key
    {
      KeysStored(shape, null, MemOf(Nodes(shape) + NodesC(Root)), i);
    }

    /** Every node of the tree has its entry. */
    lemma HasEntry(n: Node) returns (i: nat)
      requires Valid() && n in Repr
      ensures i < |Contents()| && Contents()[i] == Entry(n, n.key)
    {
      hide At, RB, Fits, Inorder;
      var z, t, h := LocateElement(n);
      EntryAt(z, t);
      i := |Before(z)| + |Inorder(t.left)|;
      KeysKept(i);
    }

    /** RB_INSERT: an element with an equal key, which is `elm` itself if that is
        in the tree, is returned and nothing changes; otherwise `elm` is added at
        its place in key order, and only there. */
    method Insert(elm: Node) returns (found: Node?, ghost i: nat)
      requires Valid()
      modifies this, Repr, elm
      ensures elm in old(Repr) ==> found == elm
      ensures Valid() && elm.key == old(elm.key)
      ensures found != null ==> i < |Contents()| && Contents()[i] == Entry(found, elm.key)
      ensures found != null ==> unchanged(this) && unchanged(elm) && MemOf(Repr) == old(MemOf(Repr))
      ensures found == null ==>
        && i <= |old(Contents())|
        && Repr == old(Repr) + {elm}
        && Contents() == old(Contents())[..i] + [Entry(elm, elm.key)] + old(Contents())[i..]
        && (forall j :: 0 <= j < |old(Contents())| ==> old(Contents())[j].key != elm.key)
    {
      hide At, RB, Fits, Between, Sorted, Whole, Inorder, NodesC;
      ghost var k := elm.key;
      var tmp, parent, comp, z, t, h, _ := Search(elm.key);
      RootHolding(shape);
      if tmp != null {
        EntryAt(z, t);
        i := |Before(z)| + |Inorder(t.left)|;
        if elm in Repr {
          ghost var j := HasEntry(elm);
          SortedUnique(Contents(), i, j);
        }
        return tmp, i;
      }
      found, i := null, |Before(z)|;
      if elm in Repr {
        ghost var j := HasEntry(elm);
        SplitByKey(z, k);
        assert false;
      }
      InsertedSorted(z, elm, k);
      EmptyPlace(z, h);
      assert NodesC(z) == Repr;
      Attach(elm, parent, comp, z);
      shape, bh := InsertColor(elm, z, Bin(Leaf, elm, k, Red, Leaf), 0);
      Repr := Repr + {elm};
      RootHolding(shape);
      KeysKept(i);
    }

    // ---------------------------------------------------------------- lookups

    /** RB_FIND: the element with the given key, in at most 2 lg (n + 1) steps. */
    method Find(key: int) returns (tmp: Node?, ghost steps: nat)
      requires Valid()
      ensures tmp != null ==> Entry(tmp, key) in Contents()
      ensures tmp == null ==> forall i :: 0 <= i < |Contents()| ==> Contents()[i].key != key
      ensures Pow2(steps) <= (|Contents()| + 1) * (|Contents()| + 1)
    {
      hide At, RB, Fits, Between, Sorted, Pow2, Whole, Inorder, NodesC, Nodes;
      ghost var z, t, h := Root, shape, bh;
      StartSearch(key);
      AtRoot(Root, shape);
      RootHolding(shape);
      tmp, steps := root, 0;
      while tmp != null
        invariant Searching(z, t, h, key) && tmp == Top(t) && steps == Depth(z)
        decreases t
      {
        ghost var h' := Descend(z, t, h, key);
        steps := steps + 1;
        var comp := Cmp(key, tmp.key);
        if comp < 0 {
          tmp := tmp.left;
          z, t, h := GoLeft(z, t), t.left, h';
        } else if comp > 0 {
          tmp := tmp.right;
          z, t, h := GoRight(z, t), t.right, h';
        } else {
          EntryAt(z, t);
          StepBound(steps);
          return;
        }
      }
      SplitByKey(z, key);
      StepBound(steps);
    }

    lemma StepBound(steps: nat)
      requires Valid() && steps <= Height(shape)
      ensures Pow2(steps) <= (|Contents()| + 1) * (|Contents()| + 1)
    {
      HeightBound(shape, bh);
      Pow2Grows(steps, Height(shape));
    }

    /** RB_NFIND: the first element whose key is not below the given one. */
    method NFind(key: int) returns (res: Node?, ghost i: nat)
      requires Valid()
      ensures i <= |Contents()| && res == NodeAt(Contents(), i)
      ensures forall j :: 0 <= j < i ==> Contents()[j].key < key
      ensures forall j :: i <= j < |Contents()| ==> key <= Contents()[j].key
      ensures res == null ==> forall j :: 0 <= j < |Contents()| ==> Contents()[j].key < key
      ensures res != null ==>
        && key <= res.key && Entry(res, res.key) in Contents()
        && forall j :: 0 <= j < |Contents()| && key <= Contents()[j].key ==> res.key <= Contents()[j].key
    {
      hide At, RB, Fits, Between, Sorted, Whole, Inorder, NodesC, Nodes, NextOf, NodeAt;
      ghost var z, t, h := Root, shape, bh;
      StartSearch(key);
      AtRoot(Root, shape);
      RootHolding(shape);
      NeighboursIndex(Root, Leaf);
      var tmp := root;
      res := null;
      while tmp != null
        invariant Searching(z, t, h, key) && tmp == Top(t) && res == NextOf(z)
        decreases t
      {
        ghost var h' := Descend(z, t, h, key);
        Neighbours(z, t);
        var comp := Cmp(key, tmp.key);
        if comp < 0 {
          res := tmp;
          tmp := tmp.left;
          z, t, h := GoLeft(z, t), t.left, h';
        } else if comp > 0 {
          tmp := tmp.right;
          z, t, h := GoRight(z, t), t.right, h';
        } else {
          SplitAtKey(z, t);
          i := |Before(z)| + |Inorder(t.left)|;
          LeastFrom(key, i);
          return tmp, i;
        }
      }
      SplitByKey(z, key);
      i := |Before(z)|;
      LeastFrom(key, i);
    }

    /** The element where the keys reach `key` is the least one not below it. */
    lemma LeastFrom(key: int, i: nat)
      requires Valid() && i <= |Contents()|
      requires forall j :: 0 <= j < i ==> Contents()[j].key < key
      requires forall j :: i <= j < |Contents()| ==> key <= Contents()[j].key
      ensures var n := NodeAt(Contents(), i);
        && (n == null ==> i == |Contents()|)
        && (n != null ==>
              && key <= n.key && Entry(n, n.key) in Contents()
              && forall j :: 0 <= j < |Contents()| && key <= Contents()[j].key ==> n.key <= Contents()[j].key)
    {
      hide At, RB, Inorder;
      if i < |Contents()| {
        KeysKept(i);
        assert Contents()[i] == Entry(Contents()[i].node, Contents()[i].key);
      }
    }

    /** RB_MINMAX: the least element for a negative argument, else the greatest. */
    method MinMax(val: int) returns (parent: Node?, ghost steps: nat)
      requires Valid()
      ensures parent == if val < 0 then NodeAt(Contents(), 0) else NodeAt(Contents(), |Contents()| - 1)
      ensures Pow2(steps) <= (|Contents()| + 1) * (|Contents()| + 1)
    {
      hide At, RB, Fits, Sorted, Pow2, Whole, Inorder, NodesC, Nodes, NodeAt;
      ghost var z, t, side := Root, shape, if val < 0 then L else R;
      AtRoot(Root, shape);
      RootHolding(shape);
      var tmp := root;
      parent, steps := null, 0;
      while tmp != null
        invariant At(z, t) && Holding(z, t) == Holding(Root, shape) && tmp == Top(t) && parent == Up(z)
        invariant Edge(z, side) && steps == Depth(z) && Depth(z) + Height(t) <= Height(shape)
        decreases t
      {
        See(z, t);
        Zoom(GoLeft(z, t), t.left);
        Zoom(GoRight(z, t), t.right);
        parent := tmp;
        steps := steps + 1;
        if val < 0 {
          tmp := tmp.left;
          z, t := GoLeft(z, t), t.left;
        } else {
          tmp := tmp.right;
          z, t := GoRight(z, t), t.right;
        }
      }
      EdgeEnds(z, side);
      StepBound(steps);
    }

    /** Every element is the root of some focus. */
    lemma {:induction false} Locate(z: Ctx, t: Tree, h: nat, n: Node) returns (z': Ctx, t': Tree, h': nat)
      requires At(z, t) && RB(t, h) && Fits(z, h, ColorOf(t)) && n in Nodes(t)
      ensures At(z', t') && t'.Bin? && t'.node == n && Holding(z', t') == Holding(z, t)
      ensures RB(t', h') && Fits(z', h', ColorOf(t'))
      decreases t
    {
      hide At, RB, Fits, Holding;
      if t.node == n {
        return z, t, h;
      }
      h' := FitsDown(z, t, h);
      Zoom(GoLeft(z, t), t.left);
      Zoom(GoRight(z, t), t.right);
      if n in Nodes(t.left) {
        z', t', h' := Locate(GoLeft(z, t), t.left, h', n);
      } else {
        z', t', h' := Locate(GoRight(z, t), t.right, h', n);
      }
    }

    lemma LocateElement(n: Node) returns (z: Ctx, t: Tree, h: nat)
      requires Valid() && n in Repr
      ensures At(z, t) && t.Bin? && t.node == n && RB(t, h) && Fits(z, h, ColorOf(t))
      ensures Whole(z, t) == Contents() && Nodes(t) + NodesC(z) == Repr
    {
      RootHolding(shape);
      z, t, h := Locate(Root, shape, bh, n);
    }

    /** A focus on some element of this tree. */
    ghost predicate Walk(z: Ctx, t: Tree)
      reads this, Nodes(t) + NodesC(z)
    {
      At(z, t) && t.Bin? && Holding(z, t) == (Contents(), Repr)
    }

    /** What the parent pointer of the focus finds. */
    ghost predicate SeenParent(z: Ctx, t: Tree)
      requires t.Bin?
      reads t.node, NodesC(z)
    {
      && t.node.parent == Up(z)
      && (z.Step? ==> z.node in NodesC(z) && (z.side == L <==> z.node.left == t.node) && (z.side == R <==> z.node.right == t.node))
    }

    lemma SeeParent(z: Ctx, t: Tree)
      requires At(z, t) && t.Bin?
      ensures SeenParent(z, t)
    {
      hide At;
      See(z, t);
      if z.Step? {
        Zoom(z, t);
        See(z.up, Join(z, t));
      }
    }

    lemma LocateIndex(n: Node, i: nat) returns (z: Ctx, t: Tree)
      requires Valid() && NodeAt(Contents(), i) == n
      ensures Walk(z, t) && t.node == n && i == |Before(z)| + |Inorder(t.left)|
    {
      hide At, RB, Fits, Whole, Inorder, Before;
      KeysKept(i);
      var h;
      z, t, h := LocateElement(n);
      EntryAt(z, t);
      var j := |Before(z)| + |Inorder(t.left)|;
      KeysKept(j);
      SortedUnique(Contents(), i, j);
    }

    /** RB_NEXT: the element that follows in key order. */
    method Next(e: Node, ghost i: nat) returns (elm: Node?)
      requires Valid() && NodeAt(Contents(), i) == e
      ensures elm == NodeAt(Contents(), i + 1)
    {
      hide At, RB, Fits, Sorted, Valid, Whole, Inorder, Before, NodesC, Nodes, NodeAt, NextOf, PrevOf;
      ghost var z, t := LocateIndex(e, i);
      See(z, t);
      FirstBelow(z, t);
      elm := e;
      if elm.right != null {
        elm := elm.right;
        Zoom(GoRight(z, t), t.right);
        z, t := GoRight(z, t), t.right;
        See(z, t);
        while elm.left != null
          invariant Walk(z, t) && elm == t.node && elm.left == Top(t.left) && |Before(z)| == i + 1
          decreases t
        {
          elm := elm.left;
          FirstBelow(z, t);
          Zoom(GoLeft(z, t), t.left);
          z, t := GoLeft(z, t), t.left;
          See(z, t);
        }
        FirstBelow(z, t);
      } else {
        SeeParent(z, t);
        if elm.parent != null && elm == elm.parent.left {
          elm := elm.parent;
        } else {
          while elm.parent != null && elm == elm.parent.right
            invariant Walk(z, t) && elm == t.node && SeenParent(z, t) && |Before(z)| + |Inorder(t)| == i + 1
            decreases z
          {
            elm := elm.parent;
            Climb(z, t);
            Zoom(z, t);
            z, t := z.up, Join(z, t);
            SeeParent(z, t);
          }
          elm := elm.parent;
        }
        if z.Step? { Climb(z, t); }
        NeighboursIndex(z, t);
        RootHolding(shape);
      }
    }

    /** RB_PREV: the element that precedes in key order. */
    method Prev(e: Node, ghost i: nat) returns (elm: Node?)
      requires Valid() && NodeAt(Contents(), i) == e
      ensures elm == NodeAt(Contents(), i - 1)
    {
      hide At, RB, Fits, Sorted, Valid, Whole, Inorder, Before, NodesC, Nodes, NodeAt, PrevOf, NextOf;
      ghost var z, t := LocateIndex(e, i);
      See(z, t);
      FirstBelow(z, t);
      elm := e;
      if elm.left != null {
        elm := elm.left;
        Zoom(GoLeft(z, t), t.left);
        z, t := GoLeft(z, t), t.left;
        See(z, t);
        while elm.right != null
          invariant Walk(z, t) && elm == t.node && elm.right == Top(t.right) && |Before(z)| + |Inorder(t)| == i
          decreases t
        {
          elm := elm.right;
          FirstBelow(z, t);
          Zoom(GoRight(z, t), t.right);
          z, t := GoRight(z, t), t.right;
          See(z, t);
        }
        FirstBelow(z, t);
      } else {
        SeeParent(z, t);
        if elm.parent != null && elm == elm.parent.right {
          elm := elm.parent;
        } else {
          while elm.parent != null && elm == elm.parent.left
            invariant Walk(z, t) && elm == t.node && SeenParent(z, t) && |Before(z)| == i
            decreases z
          {
            elm := elm.parent;
            Climb(z, t);
            Zoom(z, t);
            z, t := z.up, Join(z, t);
            SeeParent(z, t);
          }
          elm := elm.parent;
        }
        if z.Step? { Climb(z, t); }
        NeighboursIndex(z, t);
        RootHolding(shape);
      }
    }

    /** RB_FOREACH: every element once, in increasing key order, then the end. */
    method Foreach() returns (visited: seq<Node>)
      requires Valid()
      ensures |visited| == |Contents()| && forall i :: 0 <= i < |visited| ==> visited[i] == Contents()[i].node
    {
      hide Valid, Inorder;
      visited := [];
      var x, _ := MinMax(-1);
      while x != null
        invariant Valid() && x == NodeAt(Contents(), |visited|) && |visited| <= |Contents()|
        invariant forall i :: 0 <= i < |visited| ==> visited[i] == Contents()[i].node
        decreases |Contents()| - |visited|
      {
        ghost var i := |visited|;
        visited := visited + [x];
        x := Next(x, i);
      }
    }

    /** RB_PREV undoes RB_NEXT. */
    method NextThenPrev(e: Node, ghost i: nat) returns (back: Node?)
      requires Valid() && NodeAt(Contents(), i) == e && i + 1 < |Contents()|
      ensures back == e
    {
      var next := Next(e, i);
      back := Prev(next, i + 1);
    }

    // ---------------------------------------------------------------- removal

    /** Lines shared by both removal paths: link `child` where `elm` hangs. */
    method Bypass(elm: Node, child: Node?, parent: Node?)
      requires elm != parent && elm != child && (child != null ==> child != parent)
      modifies `root, child, parent
      ensures child != null ==> CellOf(child) == old(CellOf(child)).(parent := parent)
      ensures parent != null ==> CellOf(parent) == old(Redirect(CellOf(parent), elm, child))
      ensures root == if parent == null then child else old(root)
    {
      Reparent(child, parent);
      Relink(parent, elm, child);
    }

    /** Take `elm`, which has at most the one child `child`, out of its place. */
    method Unlink(elm: Node, child: Node?, parent: Node?, ghost z: Ctx, ghost t: Tree)
      requires t.Bin? && t.node == elm && At(z, t) && (t.left.Leaf? || t.right.Leaf?)
      requires child == Top(OnlyChild(t)) && parent == Up(z)
      modifies `root, Nodes(t) + NodesC(z)
      ensures At(z, OnlyChild(t)) && elm !in Nodes(OnlyChild(t)) + NodesC(z) && Nodes(t) == Nodes(OnlyChild(t)) + {elm}
      ensures CellOf(elm) == old(CellOf(elm))
    {
      ghost var c := OnlyChild(t);
      ghost var m := MemOf(Nodes(t) + NodesC(z));
      OpenSplice(z, t, m);
      Bypass(elm, child, parent);
      Spliced(z, t, m, MemOf(Nodes(c) + NodesC(z)));
    }

    /** Copy the links of `old'` to `elm` and point its neighbours at `elm`. */
    method Swap(old': Node, elm: Node)
      requires old'.left != null && elm != old' && elm != old'.left && elm != old'.right && elm != old'.parent
      requires old'.parent != old' && old'.left != old' && old'.right != old'
      requires old'.parent != old'.left && old'.left != old'.right && (old'.parent != null ==> old'.parent != old'.right)
      modifies `root, elm, old'.left, old'.right, old'.parent
      ensures CellOf(elm) == old(CellOf(old')).(key := old(elm.key))
      ensures CellOf(old'.left) == old(CellOf(old'.left)).(parent := elm)
      ensures old'.right != null ==> CellOf(old'.right) == old(CellOf(old'.right)).(parent := elm)
      ensures old'.parent != null ==> CellOf(old'.parent) == old(Redirect(CellOf(old'.parent), old', elm))
      ensures root == if old'.parent == null then elm else old(root)
    {
      elm.left, elm.right, elm.parent, elm.color := old'.left, old'.right, old'.parent, old'.color;
      Relink(old'.parent, old', elm);
      old'.left.parent := elm;
      Reparent(old'.right, elm);
    }

    /** Let the unlinked `elm` take the place of `old'`. */
    method TakePlace(old': Node, elm: Node, ghost z: Ctx, ghost t: Tree)
      requires t.Bin? && t.left.Bin? && t.node == old' && At(z, t) && elm !in Nodes(t) + NodesC(z)
      modifies `root, Nodes(t) + NodesC(z), elm
      ensures At(z, t.(node := elm, key := elm.key)) && elm.key == old(elm.key) && old'.key == old(old'.key)
    {
      ghost var m := MemOf(Nodes(t) + NodesC(z));
      OpenReplace(z, t, m);
      Swap(old', elm);
      ghost var t' := t.(node := elm, key := elm.key);
      Replaced(z, t, elm, elm.key, m, MemOf(Nodes(t') + NodesC(z)));
    }

    lemma {:induction false} ZoomMin(z: Ctx, t: Tree, c: Tree)
      requires t.Bin? && (At(z, PlugMin(t, c)) || At(MinCtx(z, t), c))
      ensures At(z, PlugMin(t, c)) && At(MinCtx(z, t), c) && Holding(z, PlugMin(t, c)) == Holding(MinCtx(z, t), c)
      decreases t
    {
      hide At, Holding;
      if t.left.Bin? {
        var z', t' := GoLeft(z, t), PlugMin(t.left, c);
        assert Join(z', t') == PlugMin(t, c);
        if At(z, PlugMin(t, c)) {
          Zoom(z', t');
        }
        ZoomMin(z', t.left, c);
        Zoom(z', t');
      }
    }

    /** The walk to the least element of the right subtree. */
    method Successor(old': Node, ghost z: Ctx, ghost t: Tree) returns (elm: Node)
      requires At(z, t) && t.Bin? && t.right.Bin? && old' == t.node
      ensures elm == MinTree(t.right).node
      ensures At(MinCtx(GoRight(z, t), t.right), MinTree(t.right))
      ensures Holding(MinCtx(GoRight(z, t), t.right), MinTree(t.right)) == Holding(z, t)
    {
      hide At, Holding;
      ghost var zm, tm := GoRight(z, t), t.right;
      See(z, t);
      Zoom(zm, tm);
      See(zm, tm);
      elm := old'.right;
      while elm.left != null
        invariant At(zm, tm) && tm.Bin? && tm.node == elm && tm.node.left == Top(tm.left)
        invariant MinCtx(zm, tm) == MinCtx(GoRight(z, t), t.right) && MinTree(tm) == MinTree(t.right)
        invariant Holding(zm, tm) == Holding(z, t)
        decreases tm
      {
        elm := elm.left;
        Zoom(GoLeft(zm, tm), tm.left);
        zm, tm := GoLeft(zm, tm), tm.left;
        See(zm, tm);
      }
    }

    /** RB_REMOVE of an element with two children: its successor takes its place. */
    method RemoveInner(old': Node, ghost z: Ctx, ghost t: Tree, ghost h: nat)
        returns (child: Node?, parent: Node?, color: Color, ghost zc: Ctx, ghost c: Tree, ghost hc: nat)
      requires At(z, t) && t.Bin? && t.left.Bin? && t.right.Bin? && t.node == old' && RB(t, h) && Fits(z, h, ColorOf(t))
      modifies `root, Nodes(t) + NodesC(z)
      ensures At(zc, c) && child == Top(c) && parent == Up(zc)
      ensures old'.key == old(old'.key)
      ensures Whole(zc, c) == Whole(z, Promote(t)) && Nodes(c) + NodesC(zc) == Nodes(t) + NodesC(z) - {old'}
      ensures Fits(zc, hc, Black)
      ensures if color == Black then hc > 0 && AlmostRB(c, hc - 1) else RB(c, hc) && !IsRed(c)
    {
      hide At, RB, AlmostRB, Fits, Whole;
      ghost var r := t.right;
      ghost var zm, tm := MinCtx(GoRight(z, t), r), MinTree(r);
      See(z, t);
      PromotedNodes(z, t);
      var elm := Successor(old', z, t);
      See(zm, tm);
      MinLeft(r);
      MinFirst(r);
      child, parent, color := elm.right, elm.parent, elm.color;
      Unlink(elm, child, parent, zm, tm);
      c := tm.right;
      ZoomMin(GoRight(z, t), r, c);
      Zoom(GoRight(z, t), DropMin(r));
      if r.left.Bin? { UpMin(GoRight(z, t), GoRight(z, Promote(t)), r); }
      if elm.parent == old' {
        parent := elm;
      }
      See(z, t.(right := DropMin(r)));
      TakePlace(old', elm, z, t.(right := DropMin(r)));
      zc := MinCtx(GoRight(z, Promote(t)), r);
      Zoom(GoRight(z, Promote(t)), DropMin(r));
      ZoomMin(GoRight(z, Promote(t)), r, c);
      hc := FitsPromoted(z, t, h);
      SplicedRB(zc, tm, hc);
    }

    /** RB_REMOVE before the colours are repaired. */
    method Detach(elm: Node, ghost z: Ctx, ghost t: Tree, ghost h: nat)
        returns (child: Node?, parent: Node?, color: Color, ghost zc: Ctx, ghost c: Tree, ghost hc: nat)
      requires At(z, t) && t.Bin? && t.node == elm && RB(t, h) && Fits(z, h, ColorOf(t))
      modifies `root, Nodes(t) + NodesC(z)
      ensures At(zc, c) && child == Top(c) && parent == Up(zc)
      ensures Nodes(c) + NodesC(zc) == Nodes(t) + NodesC(z) - {elm} && elm.key == old(elm.key)
      ensures var w, i := Whole(z, t), |Before(z)| + |Inorder(t.left)|;
        i < |w| && w[i].node == elm && Whole(zc, c) == w[..i] + w[i + 1..]
      ensures Fits(zc, hc, Black)
      ensures if color == Black then hc > 0 && AlmostRB(c, hc - 1) else RB(c, hc) && !IsRed(c)
    {
      hide At, RB, AlmostRB, Fits, Whole;
      See(z, t);
      if elm.left != null && elm.right != null {
        PromotedWhole(z, t);
        child, parent, color, zc, c, hc := RemoveInner(elm, z, t, h);
      } else {
        SplicedWhole(z, t);
        SplicedRB(z, t, h);
        child := if elm.left == null then elm.right else elm.left;
        parent, color := elm.parent, elm.color;
        Unlink(elm, child, parent, z, t);
        zc, c, hc := z, OnlyChild(t), h;
      }
    }

    /** RB_REMOVE: exactly `elm` is taken out, and the tree is whole again. */
    method Remove(elm: Node) returns (removed: Node, ghost i: nat)
      requires Valid() && elm in Repr
      modifies this, Repr
      ensures Valid() && removed == elm && Repr == old(Repr) - {elm} && elm.key == old(elm.key)
      ensures i < |old(Contents())| && old(Contents())[i].node == elm
      ensures Contents() == old(Contents())[..i] + old(Contents())[i + 1..]
    {
      hide At, RB, AlmostRB, Fits, Sorted, Whole, Inorder, Nodes, NodesC;
      removed := elm;
      ghost var z, t, h := LocateElement(elm);
      i := |Before(z)| + |Inorder(t.left)|;
      var child, parent, color, zc, c, hc := Detach(elm, z, t, h);
      SortedRemove(old(Contents()), i);
      if color == Black {
        shape, bh := RemoveColor(parent, child, zc, c, hc - 1);
      } else {
        bh := PlugRB(zc, c, hc);
        ZoomOut(zc, c);
        shape := Plug(zc, c);
      }
      Repr := Repr - {elm};
      RootHolding(shape);
    }
  }
}
