/** The top-down splay tree of tree.h, on the heap.

  While a splay runs, the tree is in three parts: the subtree still to be
  searched, and two spines of nodes already known to be below and above the key.
  The last node of each spine has one link that is about to be overwritten.
 */
module Splay {
  import opened Entries

  class Node {
    var key: int
    var left: Node?
    var right: Node?

    constructor (key: int)
      ensures this.key == key && left == null && right == null
    {
      this.key, left, right := key, null, null;
    }
  }

  datatype Tree = Leaf | Bin(left: Tree, node: Node, key: int, right: Tree)

  /** A spine from the dummy node to its last node, each node with the subtree
      that hangs off the spine. */
  datatype Spine = Empty | Snoc(front: Spine, node: Node, key: int, sub: Tree)

  datatype Cell = Cell(key: int, left: Node?, right: Node?)

  type Mem = map<Node, Cell>

  ghost function Top(t: Tree): Node? { if t.Leaf? then null else t.node }

  ghost function Nodes(t: Tree): set<Node> { if t.Leaf? then {} else {t.node} + Nodes(t.left) + Nodes(t.right) }

  ghost function NodesS(z: Spine): set<Node> { if z.Empty? then {} else {z.node} + Nodes(z.sub) + NodesS(z.front) }

  ghost predicate Distinct(t: Tree) {
    t.Bin? ==>
      && t.node !in Nodes(t.left) && t.node !in Nodes(t.right) && Nodes(t.left) !! Nodes(t.right)
      && Distinct(t.left) && Distinct(t.right)
  }

  ghost predicate DistinctS(z: Spine) {
    z.Snoc? ==>
      && z.node !in Nodes(z.sub) && z.node !in NodesS(z.front) && Nodes(z.sub) !! NodesS(z.front)
      && Distinct(z.sub) && DistinctS(z.front)
  }

  ghost function Inorder(t: Tree): seq<Entry<Node>> {
    if t.Leaf? then [] else Inorder(t.left) + [Entry(t.node, t.key)] + Inorder(t.right)
  }

  /** The nodes of the left spine, all below the key, and of the right spine. */
  ghost function Below(z: Spine): seq<Entry<Node>> {
    if z.Empty? then [] else Below(z.front) + (Inorder(z.sub) + [Entry(z.node, z.key)])
  }

  ghost function Above(z: Spine): seq<Entry<Node>> {
    if z.Empty? then [] else ([Entry(z.node, z.key)] + Inorder(z.sub)) + Above(z.front)
  }

  ghost function Whole(l: Spine, t: Tree, r: Spine): seq<Entry<Node>> { Below(l) + Inorder(t) + Above(r) }

  ghost function Last(z: Spine, dummy: Node): Node { if z.Empty? then dummy else z.node }

  ghost predicate Linked(t: Tree, m: Mem) {
    t.Bin? ==>
      t.node in m && m[t.node] == Cell(t.key, Top(t.left), Top(t.right)) && Linked(t.left, m) && Linked(t.right, m)
  }

  /** The left spine hangs on right links from the dummy; the last right link is free. */
  ghost predicate LinkedL(z: Spine, d: Node, m: Mem) {
    d in m &&
    (z.Snoc? ==>
       && z.node in m && m[z.node].key == z.key && m[z.node].left == Top(z.sub) && Linked(z.sub, m)
       && LinkedL(z.front, d, m) && Last(z.front, d) in m && m[Last(z.front, d)].right == z.node)
  }

  ghost predicate LinkedR(z: Spine, d: Node, m: Mem) {
    d in m &&
    (z.Snoc? ==>
       && z.node in m && m[z.node].key == z.key && m[z.node].right == Top(z.sub) && Linked(z.sub, m)
       && LinkedR(z.front, d, m) && Last(z.front, d) in m && m[Last(z.front, d)].left == z.node)
  }

  ghost predicate Apart(l: Spine, t: Tree, r: Spine, d: Node) {
    && DistinctS(l) && Distinct(t) && DistinctS(r)
    && NodesS(l) !! Nodes(t) && NodesS(r) !! NodesS(l) + Nodes(t)
    && d !in NodesS(l) + Nodes(t) + NodesS(r)
  }

  ghost predicate Stored(l: Spine, t: Tree, r: Spine, d: Node, m: Mem) {
    Apart(l, t, r, d) && LinkedL(l, d, m) && Linked(t, m) && LinkedR(r, d, m)
  }

  lemma {:induction false} Frame(t: Tree, m: Mem, m': Mem)
    requires Linked(t, m) && Same(Nodes(t), m, m')
    ensures Linked(t, m')
  {
    if t.Bin? {
      Frame(t.left, m, m');
      Frame(t.right, m, m');
    }
  }

  /** Of the left spine only the free last right link may change. */
  ghost predicate KeepL(z: Spine, d: Node, m: Mem, m': Mem) {
    && d in m && d in m' && (z.Snoc? ==> m'[d].right == m[d].right)
    && forall n :: n in NodesS(z) && n in m ==> n in m' && (if n == Last(z, d) then m'[n] == m[n].(right := m'[n].right) else m'[n] == m[n])
  }

  ghost predicate KeepR(z: Spine, d: Node, m: Mem, m': Mem) {
    && d in m && d in m' && (z.Snoc? ==> m'[d].left == m[d].left)
    && forall n :: n in NodesS(z) && n in m ==> n in m' && (if n == Last(z, d) then m'[n] == m[n].(left := m'[n].left) else m'[n] == m[n])
  }

  lemma {:induction false} FrameL(z: Spine, d: Node, m: Mem, m': Mem)
    requires LinkedL(z, d, m) && DistinctS(z) && d !in NodesS(z) && KeepL(z, d, m, m')
    ensures LinkedL(z, d, m')
  {
    if z.Snoc? {
      Frame(z.sub, m, m');
      assert z.front.Snoc? ==> z.front.node in NodesS(z.front);
      FrameL(z.front, d, m, m');
    }
  }

  lemma {:induction false} FrameR(z: Spine, d: Node, m: Mem, m': Mem)
    requires LinkedR(z, d, m) && DistinctS(z) && d !in NodesS(z) && KeepR(z, d, m, m')
    ensures LinkedR(z, d, m')
  {
    if z.Snoc? {
      Frame(z.sub, m, m');
      assert z.front.Snoc? ==> z.front.node in NodesS(z.front);
      FrameR(z.front, d, m, m');
    }
  }

  // ---------------------------------------------------------------- rotations

  ghost function RotR(t: Tree): Tree
    requires t.Bin? && t.left.Bin?
  {
    var x := t.left;
    Bin(x.left, x.node, x.key, Bin(x.right, t.node, t.key, t.right))
  }

  ghost function RotL(t: Tree): Tree
    requires t.Bin? && t.right.Bin?
  {
    var x := t.right;
    Bin(Bin(t.left, t.node, t.key, x.left), x.node, x.key, x.right)
  }

  lemma RotLInorder(t: Tree)
    requires t.Bin? && t.right.Bin?
    ensures Inorder(RotL(t)) == Inorder(t) && Nodes(RotL(t)) == Nodes(t) && (Distinct(t) <==> Distinct(RotL(t)))
  {
    var x := t.right;
    assert (Inorder(t.left) + [Entry(t.node, t.key)] + Inorder(x.left)) + [Entry(x.node, x.key)] + Inorder(x.right)
        == Inorder(t.left) + [Entry(t.node, t.key)] + (Inorder(x.left) + [Entry(x.node, x.key)] + Inorder(x.right));
  }

  lemma RotRInorder(t: Tree)
    requires t.Bin? && t.left.Bin?
    ensures Inorder(RotR(t)) == Inorder(t) && Nodes(RotR(t)) == Nodes(t) && (Distinct(t) <==> Distinct(RotR(t)))
  {
    RotLInorder(RotR(t));
  }

  lemma RotatedR(l: Spine, t: Tree, r: Spine, d: Node, m: Mem)
    requires t.Bin? && t.left.Bin? && Stored(l, t, r, d, m)
    ensures var x := t.left;
      && t.node in m && x.node in m && t.node != x.node
      && m[t.node] == Cell(t.key, x.node, Top(t.right)) && m[x.node] == Cell(x.key, Top(x.left), Top(x.right))
      && Stored(l, RotR(t), r, d, m[t.node := Cell(t.key, Top(x.right), Top(t.right))][x.node := Cell(x.key, Top(x.left), t.node)])
  {
    var x := t.left;
    assert Linked(x, m) && Distinct(x);
    var m' := m[t.node := Cell(t.key, Top(x.right), Top(t.right))][x.node := Cell(x.key, Top(x.left), t.node)];
    RotRInorder(t);
    Frame(x.left, m, m');
    Frame(x.right, m, m');
    Frame(t.right, m, m');
    FrameL(l, d, m, m');
    FrameR(r, d, m, m');
  }

  lemma RotatedL(l: Spine, t: Tree, r: Spine, d: Node, m: Mem)
    requires t.Bin? && t.right.Bin? && Stored(l, t, r, d, m)
    ensures var x := t.right;
      && t.node in m && x.node in m && t.node != x.node
      && m[t.node] == Cell(t.key, Top(t.left), x.node) && m[x.node] == Cell(x.key, Top(x.left), Top(x.right))
      && Stored(l, RotL(t), r, d, m[t.node := Cell(t.key, Top(t.left), Top(x.left))][x.node := Cell(x.key, t.node, Top(x.right))])
  {
    var x := t.right;
    assert Linked(x, m) && Distinct(x);
    var m' := m[t.node := Cell(t.key, Top(t.left), Top(x.left))][x.node := Cell(x.key, t.node, Top(x.right))];
    RotLInorder(t);
    Frame(x.left, m, m');
    Frame(x.right, m, m');
    Frame(t.left, m, m');
    FrameL(l, d, m, m');
    FrameR(r, d, m, m');
  }

  /** The root and its right part join the right spine; its left part is searched on. */
  ghost function PushR(r: Spine, t: Tree): Spine
    requires t.Bin?
  {
    Snoc(r, t.node, t.key, t.right)
  }

  ghost function PushL(l: Spine, t: Tree): Spine
    requires t.Bin?
  {
    Snoc(l, t.node, t.key, t.left)
  }

  lemma PushRWhole(l: Spine, t: Tree, r: Spine)
    requires t.Bin?
    ensures Whole(l, t.left, PushR(r, t)) == Whole(l, t, r)
    ensures NodesS(l) + Nodes(t.left) + NodesS(PushR(r, t)) == NodesS(l) + Nodes(t) + NodesS(r)
  {
    var e := [Entry(t.node, t.key)];
    assert Below(l) + (Inorder(t.left) + e + Inorder(t.right)) + Above(r)
        == Below(l) + Inorder(t.left) + ((e + Inorder(t.right)) + Above(r));
  }

  lemma PushLWhole(l: Spine, t: Tree, r: Spine)
    requires t.Bin?
    ensures Whole(PushL(l, t), t.right, r) == Whole(l, t, r)
    ensures NodesS(PushL(l, t)) + Nodes(t.right) + NodesS(r) == NodesS(l) + Nodes(t) + NodesS(r)
  {
    var e := [Entry(t.node, t.key)];
    assert Below(l) + (Inorder(t.left) + e + Inorder(t.right)) + Above(r)
        == (Below(l) + (Inorder(t.left) + e)) + Inorder(t.right) + Above(r);
  }

  lemma PushedR(l: Spine, t: Tree, r: Spine, d: Node, m: Mem)
    requires t.Bin? && Stored(l, t, r, d, m)
    ensures Last(r, d) in m && t.node in m && m[t.node].left == Top(t.left) && Last(r, d) != t.node
    ensures Stored(l, t.left, PushR(r, t), d, m[Last(r, d) := m[Last(r, d)].(left := t.node)])
  {
    var n := Last(r, d);
    assert r.Snoc? ==> r.node in NodesS(r);
    assert l.Snoc? ==> l.node in NodesS(l);
    var m' := m[n := m[n].(left := t.node)];
    Frame(t.left, m, m');
    Frame(t.right, m, m');
    FrameL(l, d, m, m');
    FrameR(r, d, m, m');
  }

  lemma PushedL(l: Spine, t: Tree, r: Spine, d: Node, m: Mem)
    requires t.Bin? && Stored(l, t, r, d, m)
    ensures Last(l, d) in m && t.node in m && m[t.node].right == Top(t.right) && Last(l, d) != t.node
    ensures Stored(PushL(l, t), t.right, r, d, m[Last(l, d) := m[Last(l, d)].(right := t.node)])
  {
    var n := Last(l, d);
    assert r.Snoc? ==> r.node in NodesS(r);
    assert l.Snoc? ==> l.node in NodesS(l);
    var m' := m[n := m[n].(right := t.node)];
    Frame(t.left, m, m');
    Frame(t.right, m, m');
    FrameL(l, d, m, m');
    FrameR(r, d, m, m');
  }

  // ----------------------------------------------------------------- assembly

  ghost function CloseL(z: Spine, x: Tree): Tree
    decreases z
  {
    if z.Empty? then x else CloseL(z.front, Bin(z.sub, z.node, z.key, x))
  }

  ghost function CloseR(z: Spine, x: Tree): Tree
    decreases z
  {
    if z.Empty? then x else CloseR(z.front, Bin(x, z.node, z.key, z.sub))
  }

  lemma {:induction false} ClosedL(z: Spine, x: Tree)
    requires DistinctS(z) && Distinct(x) && NodesS(z) !! Nodes(x)
    ensures Inorder(CloseL(z, x)) == Below(z) + Inorder(x) && Nodes(CloseL(z, x)) == NodesS(z) + Nodes(x)
    ensures Distinct(CloseL(z, x))
    decreases z
  {
    ClosedOrderL(z, x);
    if z.Snoc? {
      ClosedL(z.front, Bin(z.sub, z.node, z.key, x));
    }
  }

  lemma {:induction false} ClosedOrderL(z: Spine, x: Tree)
    ensures Inorder(CloseL(z, x)) == Below(z) + Inorder(x)
    decreases z
  {
    if z.Snoc? {
      ClosedOrderL(z.front, Bin(z.sub, z.node, z.key, x));
      assert Below(z.front) + (Inorder(z.sub) + [Entry(z.node, z.key)] + Inorder(x)) == Below(z) + Inorder(x);
    } else {
      assert Below(z) + Inorder(x) == Inorder(x);
    }
  }

  lemma {:induction false} ClosedR(z: Spine, x: Tree)
    requires DistinctS(z) && Distinct(x) && NodesS(z) !! Nodes(x)
    ensures Inorder(CloseR(z, x)) == Inorder(x) + Above(z) && Nodes(CloseR(z, x)) == NodesS(z) + Nodes(x)
    ensures Distinct(CloseR(z, x))
    decreases z
  {
    ClosedOrderR(z, x);
    if z.Snoc? {
      ClosedR(z.front, Bin(x, z.node, z.key, z.sub));
    }
  }

  lemma {:induction false} ClosedOrderR(z: Spine, x: Tree)
    ensures Inorder(CloseR(z, x)) == Inorder(x) + Above(z)
    decreases z
  {
    if z.Snoc? {
      ClosedOrderR(z.front, Bin(x, z.node, z.key, z.sub));
      assert (Inorder(x) + [Entry(z.node, z.key)] + Inorder(z.sub)) + Above(z.front) == Inorder(x) + Above(z);
    } else {
      assert Inorder(x) + Above(z) == Inorder(x);
    }
  }

  /** Filling the free link of a spine makes it a tree under the dummy. */
  lemma {:induction false} LinkCloseL(z: Spine, x: Tree, d: Node, m: Mem)
    requires LinkedL(z, d, m) && Linked(x, m) && Last(z, d) in m && m[Last(z, d)].right == Top(x)
    ensures Linked(CloseL(z, x), m) && m[d].right == Top(CloseL(z, x))
    decreases z
  {
    if z.Snoc? {
      LinkCloseL(z.front, Bin(z.sub, z.node, z.key, x), d, m);
    }
  }

  lemma {:induction false} LinkCloseR(z: Spine, x: Tree, d: Node, m: Mem)
    requires LinkedR(z, d, m) && Linked(x, m) && Last(z, d) in m && m[Last(z, d)].left == Top(x)
    ensures Linked(CloseR(z, x), m) && m[d].left == Top(CloseR(z, x))
    decreases z
  {
    if z.Snoc? {
      LinkCloseR(z.front, Bin(x, z.node, z.key, z.sub), d, m);
    }
  }

  ghost function Assemble(l: Spine, t: Tree, r: Spine): Tree
    requires t.Bin?
  {
    Bin(CloseL(l, t.left), t.node, t.key, CloseR(r, t.right))
  }

  lemma AssembledWhole(l: Spine, t: Tree, r: Spine, d: Node)
    requires t.Bin? && Apart(l, t, r, d)
    ensures var t' := Assemble(l, t, r);
      && Inorder(t') == Whole(l, t, r) && Nodes(t') == NodesS(l) + Nodes(t) + NodesS(r) && Distinct(t')
      && Inorder(t'.left) == Below(l) + Inorder(t.left) && Inorder(t'.right) == Inorder(t.right) + Above(r)
  {
    hide Below, Above, CloseL, CloseR, Distinct, Nodes, NodesS;
    AssembledNodes(l, t, r, d);
    ClosedOrderL(l, t.left);
    ClosedOrderR(r, t.right);
    Regroup(Below(l), Inorder(t.left), [Entry(t.node, t.key)], Inorder(t.right), Above(r));
  }

  lemma AssembledNodes(l: Spine, t: Tree, r: Spine, d: Node)
    requires t.Bin? && Apart(l, t, r, d)
    ensures var t' := Assemble(l, t, r); Nodes(t') == NodesS(l) + Nodes(t) + NodesS(r) && Distinct(t')
  {
    hide Below, Above, CloseL, CloseR, Inorder;
    ClosedL(l, t.left);
    ClosedR(r, t.right);
  }

  lemma Regroup(a: seq<Entry<Node>>, b: seq<Entry<Node>>, e: seq<Entry<Node>>, c: seq<Entry<Node>>, d: seq<Entry<Node>>)
    ensures (a + b) + e + (c + d) == a + (b + e + c) + d
  {
  }

  /** The memory after the first two writes of SPLAY_ASSEMBLE. */
  ghost function Filled(l: Spine, t: Tree, r: Spine, d: Node, m: Mem): Mem
    requires t.Bin? && Last(l, d) in m && Last(r, d) in m
  {
    var m1 := m[Last(l, d) := m[Last(l, d)].(right := Top(t.left))];
    m1[Last(r, d) := m1[Last(r, d)].(left := Top(t.right))]
  }

  lemma LastIn(l: Spine, t: Tree, r: Spine, d: Node, m: Mem)
    requires Stored(l, t, r, d, m)
    ensures d in m && Last(l, d) in m && Last(r, d) in m
    ensures t.Bin? ==> t.node in m && m[t.node] == Cell(t.key, Top(t.left), Top(t.right))
    ensures t.Bin? ==> Last(l, d) != t.node && Last(r, d) != t.node && d != t.node && t.node in Nodes(t)
    ensures (l.Snoc? ==> l.node in NodesS(l)) && (r.Snoc? ==> r.node in NodesS(r))
    ensures Last(l, d) == Last(r, d) ==> l.Empty? && r.Empty?
  {
    assert r.Snoc? ==> r.node in NodesS(r);
    assert l.Snoc? ==> l.node in NodesS(l);
  }

  lemma FilledStored(l: Spine, t: Tree, r: Spine, d: Node, m: Mem)
    requires t.Bin? && Stored(l, t, r, d, m) && Last(l, d) in m && Last(r, d) in m
    ensures var m' := Filled(l, t, r, d, m);
      && LinkedL(l, d, m') && LinkedR(r, d, m') && Linked(t.left, m') && Linked(t.right, m')
      && m'[Last(l, d)].right == Top(t.left) && m'[Last(r, d)].left == Top(t.right)
  {
    LastIn(l, t, r, d, m);
    var m' := Filled(l, t, r, d, m);
    Frame(t.left, m, m');
    Frame(t.right, m, m');
    FrameL(l, d, m, m');
    FrameR(r, d, m, m');
  }

  lemma Assembled(l: Spine, t: Tree, r: Spine, d: Node, m: Mem, m': Mem)
    requires t.Bin? && Stored(l, t, r, d, m) && Last(l, d) in m && Last(r, d) in m && d in m
    requires var f := Filled(l, t, r, d, m);
      && t.node in m' && m'[t.node] == Cell(t.key, f[d].right, f[d].left)
      && forall n :: n in NodesS(l) + Nodes(t) + NodesS(r) && n != t.node && n in f ==> n in m' && m'[n] == f[n]
    ensures Linked(Assemble(l, t, r), m')
  {
    hide Inorder, Below, Above, CloseL, CloseR;
    var f := Filled(l, t, r, d, m);
    FilledStored(l, t, r, d, m);
    LinkCloseL(l, t.left, d, f);
    LinkCloseR(r, t.right, d, f);
    ClosedL(l, t.left);
    ClosedR(r, t.right);
    Frame(CloseL(l, t.left), f, m');
    Frame(CloseR(r, t.right), f, m');
  }

  // --------------------------------------------------------------------- keys

  /** In a sorted tree a key below the root is below the root's right part too. */
  lemma RootSplits(l: Spine, t: Tree, r: Spine, key: int)
    requires t.Bin? && Sorted(Whole(l, t, r))
    ensures key < t.key && AllAbove(key, Above(r)) ==> AllAbove(key, Above(PushR(r, t)))
    ensures t.key < key && AllBelow(Below(l), key) ==> AllBelow(Below(PushL(l, t)), key)
  {
    var w, b := Whole(l, t, r), |Below(l)| + |Inorder(t.left)|;
    assert w[b] == Entry(t.node, t.key);
    if key < t.key {
      var a := Above(PushR(r, t));
      assert a == w[b..];
      forall i | 0 <= i < |a| ensures key < a[i].key { assert a[i] == w[b + i]; }
    }
    if t.key < key {
      var a := Below(PushL(l, t));
      assert a == w[..b + 1];
      forall i | 0 <= i < |a| ensures a[i].key < key { assert a[i] == w[i]; }
    }
  }

  // --------------------------------------------------------------------- heap

  ghost function CellOf(n: Node): Cell
    reads n
  {
    Cell(n.key, n.left, n.right)
  }

  ghost function MemOf(s: set<Node>): Mem
    reads s
  {
    map n | n in s :: CellOf(n)
  }

  class Head {
    var root: Node?
    ghost var shape: Tree
    ghost var Repr: set<Node>

    ghost predicate Valid()
      reads this, Repr
    {
      && Repr == Nodes(shape) && root == Top(shape) && Distinct(shape) && Linked(shape, MemOf(Repr))
      && Sorted(Inorder(shape))
    }

    ghost function Contents(): seq<Entry<Node>>
      reads this
    {
      Inorder(shape)
    }

    constructor ()
      ensures Valid() && Contents() == [] && Repr == {}
    {
      root, shape, Repr := null, Leaf, {};
    }

    /** The three parts of a tree while it is splayed for `key`. */
    ghost predicate Splaying(l: Spine, t: Tree, r: Spine, d: Node, key: int, s: set<Node>)
      reads `root, s
    {
      && t.Bin? && root == t.node && s == NodesS(l) + Nodes(t) + NodesS(r) + {d} && Stored(l, t, r, d, MemOf(s))
      && Sorted(Whole(l, t, r)) && AllBelow(Below(l), key) && AllAbove(key, Above(r))
    }

    /** SPLAY_ROTATE_RIGHT */
    method RotateRight(tmp: Node, ghost l: Spine, ghost t: Tree, ghost r: Spine, ghost d: Node, ghost key: int, ghost s: set<Node>)
      requires Splaying(l, t, r, d, key, s) && t.left.Bin? && tmp == t.left.node
      modifies `root, s
      ensures Splaying(l, RotR(t), r, d, key, s) && Whole(l, RotR(t), r) == Whole(l, t, r)
    {
      hide Stored, Sorted, Inorder, Below, Above, Nodes, NodesS, AllBelow, AllAbove;
      ghost var m: Mem := MemOf(s);
      RotatedR(l, t, r, d, m);
      RotRInorder(t);
      root.left := tmp.right;
      tmp.right := root;
      root := tmp;
      assert MemOf(s) == m[t.node := Cell(t.key, Top(t.left.right), Top(t.right))][tmp := Cell(t.left.key, Top(t.left.left), t.node)];
    }

    /** SPLAY_LINKLEFT */
    method LinkLeft(tmp: Node, ghost l: Spine, ghost t: Tree, ghost r: Spine, ghost d: Node, ghost key: int, ghost s: set<Node>)
        returns (right: Node)
      requires Splaying(l, t, r, d, key, s) && t.left.Bin? && tmp == Last(r, d) && key < t.key
      modifies `root, s
      ensures root == t.left.node && Splaying(l, t.left, PushR(r, t), d, key, s) && Whole(l, t.left, PushR(r, t)) == Whole(l, t, r)
      ensures right == t.node
    {
      hide Stored, Sorted, Inorder, Below, Above, Nodes, NodesS, AllBelow, AllAbove;
      ghost var m: Mem := MemOf(s);
      PushedR(l, t, r, d, m);
      PushRWhole(l, t, r);
      RootSplits(l, t, r, key);
      tmp.left := root;
      right := root;
      root := root.left;
      assert MemOf(s) == m[tmp := m[tmp].(left := t.node)];
    }

    /** SPLAY_ROTATE_LEFT */
    method RotateLeft(tmp: Node, ghost l: Spine, ghost t: Tree, ghost r: Spine, ghost d: Node, ghost key: int, ghost s: set<Node>)
      requires Splaying(l, t, r, d, key, s) && t.right.Bin? && tmp == t.right.node
      modifies `root, s
      ensures Splaying(l, RotL(t), r, d, key, s) && Whole(l, RotL(t), r) == Whole(l, t, r)
    {
      hide Stored, Sorted, Inorder, Below, Above, Nodes, NodesS, AllBelow, AllAbove;
      ghost var m: Mem := MemOf(s);
      RotatedL(l, t, r, d, m);
      RotLInorder(t);
      root.right := tmp.left;
      tmp.left := root;
      root := tmp;
      assert MemOf(s) == m[t.node := Cell(t.key, Top(t.left), Top(t.right.left))][tmp := Cell(t.right.key, t.node, Top(t.right.right))];
    }

    /** SPLAY_LINKRIGHT */
    method LinkRight(tmp: Node, ghost l: Spine, ghost t: Tree, ghost r: Spine, ghost d: Node, ghost key: int, ghost s: set<Node>)
        returns (left: Node)
      requires Splaying(l, t, r, d, key, s) && t.right.Bin? && tmp == Last(l, d) && t.key < key
      modifies `root, s
      ensures root == t.right.node && Splaying(PushL(l, t), t.right, r, d, key, s) && Whole(PushL(l, t), t.right, r) == Whole(l, t, r)
      ensures left == t.node
    {
      hide Stored, Sorted, Inorder, Below, Above, Nodes, NodesS, AllBelow, AllAbove;
      ghost var m: Mem := MemOf(s);
      PushedL(l, t, r, d, m);
      PushLWhole(l, t, r);
      RootSplits(l, t, r, key);
      tmp.right := root;
      left := root;
      root := root.right;
      assert MemOf(s) == m[tmp := m[tmp].(right := t.node)];
    }

    /** SPLAY_ASSEMBLE, and the end of the splay. */
    method Finish(node: Node, left: Node, right: Node, ghost l: Spine, ghost t: Tree, ghost r: Spine, ghost key: int, ghost s: set<Node>)
      requires t.Bin? && Splaying(l, t, r, node, key, s) && left == Last(l, node) && right == Last(r, node) && s - {node} == Repr
      modifies this, s
      ensures Valid() && Repr == old(Repr) && shape == Assemble(l, t, r)
    {
      hide Stored, Sorted, Inorder, Below, Above, AllBelow, AllAbove, Nodes, NodesS, Distinct, Linked, CloseL, CloseR, Apart, Whole;
      ghost var m: Mem := MemOf(s);
      LastIn(l, t, r, node, m);
      NodesOfParts(l, t, r, node, m);
      AssembledWhole(l, t, r, node);
      left.right := root.left;
      right.left := root.right;
      root.left := node.right;
      root.right := node.left;
      shape := Assemble(l, t, r);
      Assembled(l, t, r, node, m, MemOf(Repr));
    }

    /** SPLAY: the entries stay; the root is the one with the key, if there is
        one, or else a neighbour of the key's place. */
    method Splay(key: int)
      requires Valid() && root != null
      modifies this, Repr
      ensures Valid() && Repr == old(Repr) && Contents() == old(Contents()) && shape.Bin?
      ensures key < shape.key ==> AllBelow(Inorder(shape.left), key)
      ensures key > shape.key ==> AllAbove(key, Inorder(shape.right))
    {
      hide Stored, Sorted, Inorder, Below, Above, AllBelow, AllAbove, Nodes, NodesS, Linked, Whole, Valid, Splaying, Distinct;
      var node := new Node(0);
      var left, right := node, node;
      ghost var l, t, r, s := Empty, shape, Empty, Repr + {node};
      StartSplay(node, key);
      while Cmp(key, root.key) != 0
        invariant Splaying(l, t, r, node, key, s) && t.Bin? && root == t.node && Whole(l, t, r) == old(Contents())
        invariant left == Last(l, node) && right == Last(r, node)
        invariant this.Repr == old(Repr) && s == Repr + {node}
        decreases t
      {
        var comp := Cmp(key, root.key);
        SeeRoot(l, t, r, node, key, s);
        if comp < 0 {
          var tmp := root.left;
          if tmp == null {
            break;
          }
          if Cmp(key, tmp.key) < 0 {
            RotateRight(tmp, l, t, r, node, key, s);
            t := RotR(t);
            SeeRoot(l, t, r, node, key, s);
            if root.left == null {
              break;
            }
          }
          right := LinkLeft(right, l, t, r, node, key, s);
          t, r := t.left, PushR(r, t);
        } else {
          var tmp := root.right;
          if tmp == null {
            break;
          }
          if Cmp(key, tmp.key) > 0 {
            RotateLeft(tmp, l, t, r, node, key, s);
            t := RotL(t);
            SeeRoot(l, t, r, node, key, s);
            if root.right == null {
              break;
            }
          }
          left := LinkRight(left, l, t, r, node, key, s);
          l, t := PushL(l, t), t.right;
        }
      }
      SeeRoot(l, t, r, node, key, s);
      EndSplay(l, t, r, node, key, s);
      Finish(node, left, right, l, t, r, key, s);
    }

    lemma StartSplay(node: Node, key: int)
      requires Valid() && root != null && node !in Repr
      ensures shape.Bin? && root == shape.node
      ensures Splaying(Empty, shape, Empty, node, key, Repr + {node}) && Whole(Empty, shape, Empty) == Contents()
    {
      Frame(shape, MemOf(Repr), MemOf(Repr + {node}));
      assert Whole(Empty, shape, Empty) == Inorder(shape);
    }

    lemma SeeRoot(l: Spine, t: Tree, r: Spine, d: Node, key: int, s: set<Node>)
      requires Splaying(l, t, r, d, key, s)
      ensures t.Bin? && root == t.node && CellOf(t.node) == Cell(t.key, Top(t.left), Top(t.right))
      ensures t.left.Bin? ==> t.left.node.key == t.left.key
      ensures t.right.Bin? ==> t.right.node.key == t.right.key
    {
      assert Linked(t.left, MemOf(s)) && Linked(t.right, MemOf(s));
    }

    /** Where a splay ends: nothing lies between the key and the root. */
    lemma EndSplay(l: Spine, t: Tree, r: Spine, d: Node, key: int, s: set<Node>)
      requires Splaying(l, t, r, d, key, s)
      ensures var t' := Assemble(l, t, r);
        && Inorder(t') == Whole(l, t, r)
        && (t.left.Leaf? ==> AllBelow(Inorder(t'.left), key))
        && (t.right.Leaf? ==> AllAbove(key, Inorder(t'.right)))
    {
      AssembledWhole(l, t, r, d);
    }

    /** SPLAY_FIND */
    method Find(key: int) returns (found: Node?)
      requires Valid()
      modifies this, Repr
      ensures Valid() && Repr == old(Repr) && Contents() == old(Contents())
      ensures found != null ==> Entry(found, key) in Contents() && root == found
      ensures found == null ==> forall i :: 0 <= i < |Contents()| ==> Contents()[i].key != key
    {
      if root == null {
        return null;
      }
      Splay(key);
      RootFacts();
      SplayedAway(shape, key);
      if Cmp(key, root.key) == 0 {
        return root;
      }
      return null;
    }

    /** Every key lies on the same side of `key`: above it when `comp` is
        negative, below it when `comp` is positive. */
    ghost predicate Outside(w: seq<Entry<Node>>, key: int, comp: int) {
      if comp < 0 then AllAbove(key, w) else AllBelow(w, key)
    }

    /** SPLAY_MINMAX, which the two macros call with -1 and 1 (with 0 its loop
        would not end): the entries stay and the first or last comes up. */
    method SplayMinMax(comp: int)
      requires Valid() && root != null && comp != 0
      modifies this, Repr
      ensures Valid() && Repr == old(Repr) && Contents() == old(Contents()) && |Contents()| > 0
      ensures root == if comp < 0 then Contents()[0].node else Contents()[|Contents()| - 1].node
    {
      hide Stored, Sorted, Inorder, Below, Above, AllBelow, AllAbove, Nodes, NodesS, Linked, Whole, Valid, Splaying, Distinct, Outside;
      var node := new Node(0);
      var left, right := node, node;
      ghost var key := Beyond(comp);
      ghost var l, t, r, s := Empty, shape, Empty, Repr + {node};
      StartSplay(node, key);
      while true
        invariant Splaying(l, t, r, node, key, s) && t.Bin? && root == t.node && Whole(l, t, r) == old(Contents())
        invariant left == Last(l, node) && right == Last(r, node)
        invariant this.Repr == old(Repr) && s == Repr + {node}
        decreases t
      {
        SeeRoot(l, t, r, node, key, s);
        if comp < 0 {
          var tmp := root.left;
          if tmp == null {
            break;
          }
          RotateRight(tmp, l, t, r, node, key, s);
          t := RotR(t);
          SeeRoot(l, t, r, node, key, s);
          if root.left == null {
            break;
          }
          OutsideRoot(l, t, r, key, comp);
          right := LinkLeft(right, l, t, r, node, key, s);
          t, r := t.left, PushR(r, t);
        } else {
          var tmp := root.right;
          if tmp == null {
            break;
          }
          RotateLeft(tmp, l, t, r, node, key, s);
          t := RotL(t);
          SeeRoot(l, t, r, node, key, s);
          if root.right == null {
            break;
          }
          OutsideRoot(l, t, r, key, comp);
          left := LinkRight(left, l, t, r, node, key, s);
          l, t := PushL(l, t), t.right;
        }
      }
      EndSplay(l, t, r, node, key, s);
      Finish(node, left, right, l, t, r, key, s);
      EndRoot(key, comp);
    }

    /** A key beyond all keys on the side that `comp` names. */
    lemma Beyond(comp: int) returns (key: int)
      requires Valid() && root != null
      ensures Outside(Contents(), key, comp)
    {
      var w := Contents();
      var n := |Inorder(shape.left)|;
      assert w[n] == Entry(shape.node, shape.key);
      key := if comp < 0 then w[0].key - 1 else w[|w| - 1].key + 1;
    }

    lemma OutsideRoot(l: Spine, t: Tree, r: Spine, key: int, comp: int)
      requires t.Bin? && Outside(Whole(l, t, r), key, comp)
      ensures if comp < 0 then key < t.key else t.key < key
    {
      assert Whole(l, t, r)[|Below(l)| + |Inorder(t.left)|] == Entry(t.node, t.key);
    }

    /** When nothing lies between the root and such a key, the root is first, or last. */
    lemma EndRoot(key: int, comp: int)
      requires Valid() && shape.Bin? && Outside(Contents(), key, comp)
      requires if comp < 0 then AllBelow(Inorder(shape.left), key) else AllAbove(key, Inorder(shape.right))
      ensures |Contents()| > 0
      ensures root == if comp < 0 then Contents()[0].node else Contents()[|Contents()| - 1].node
    {
      var a, b, w := Inorder(shape.left), Inorder(shape.right), Contents();
      assert w[|a|] == Entry(root, shape.key);
      Sides(a, Entry(root, shape.key), b, key);
      Between(if comp < 0 then a else b, key);
    }

    /** SPLAY_MIN and SPLAY_MAX */
    method MinMax(comp: int) returns (found: Node?)
      requires Valid() && comp != 0
      modifies this, Repr
      ensures Valid() && Repr == old(Repr) && Contents() == old(Contents())
      ensures found == if Contents() == [] then null else if comp < 0 then Contents()[0].node else Contents()[|Contents()| - 1].node
    {
      if root == null {
        EmptyFacts();
        return null;
      }
      SplayMinMax(comp);
      return root;
    }

    /** SPLAY_NEXT: the element after the i-th. */
    method Next(e: Node, ghost i: nat) returns (elm: Node?)
      requires Valid() && i < |Contents()| && Contents()[i].node == e
      modifies this, Repr
      ensures Valid() && Repr == old(Repr) && Contents() == old(Contents())
      ensures elm == if i + 1 < |Contents()| then Contents()[i + 1].node else null
    {
      hide Sorted, Inorder, Distinct, AllBelow, AllAbove, Linked, Nodes, Valid;
      Occupied(i);
      ghost var key := e.key;
      Splay(e.key);
      Splayed(i, key);
      if e.right == null {
        return null;
      }
      elm := Leftmost(e.right, shape.right);
    }

    method Leftmost(e: Node, ghost t: Tree) returns (elm: Node)
      requires t.Bin? && e == t.node && Linked(t, MemOf(Repr))
      ensures Inorder(t) != [] && elm == Inorder(t)[0].node
    {
      hide Inorder, Linked;
      elm := e;
      ghost var t' := t;
      TopFacts(t, MemOf(Repr));
      while elm.left != null
        invariant t'.Bin? && elm == t'.node && Linked(t', MemOf(Repr)) && Inorder(t') != [] && Inorder(t') <= Inorder(t)
        decreases t'
      {
        TopFacts(t', MemOf(Repr));
        elm := elm.left;
        t' := t'.left;
        TopFacts(t', MemOf(Repr));
      }
      TopFacts(t', MemOf(Repr));
    }

    lemma Occupied(i: nat)
      requires Valid() && i < |Contents()|
      ensures root != null && Contents()[i].node in Repr && Contents()[i].node.key == Contents()[i].key
    {
      EntryStored(shape, MemOf(Repr), i);
    }

    /** After a splay for the key of the i-th element. */
    lemma Splayed(i: nat, key: int)
      requires Valid() && shape.Bin? && i < |Contents()| && Contents()[i].key == key
      requires (key < shape.key ==> AllBelow(Inorder(shape.left), key)) && (key > shape.key ==> AllAbove(key, Inorder(shape.right)))
      ensures root == Contents()[i].node && root.right == Top(shape.right) && Linked(shape.right, MemOf(Repr))
      ensures Inorder(shape.right) == Contents()[i + 1..] && (shape.right.Leaf? ==> i + 1 == |Contents()|)
    {
      SplayedAway(shape, key);
      CutRoot(shape);
      var n := |Inorder(shape.left)|;
      assert Contents()[n].key == key && Contents()[i].key == key;
      assert n == i;
    }

    /** SPLAY_FOREACH: every element once, in key order, although every step
        rearranges the tree. */
    method Foreach() returns (visited: seq<Node>)
      requires Valid()
      modifies this, Repr
      ensures Valid() && Repr == old(Repr) && Contents() == old(Contents())
      ensures |visited| == |Contents()| && forall i :: 0 <= i < |visited| ==> visited[i] == Contents()[i].node
    {
      hide Valid;
      visited := [];
      var x := MinMax(-1);
      while x != null
        invariant Valid() && Repr == old(Repr) && Contents() == old(Contents()) && |visited| <= |Contents()|
        invariant x == if |visited| < |Contents()| then Contents()[|visited|].node else null
        invariant forall i :: 0 <= i < |visited| ==> visited[i] == Contents()[i].node
        decreases |Contents()| - |visited|
      {
        ghost var i := |visited|;
        visited := visited + [x];
        x := Next(x, i);
      }
    }

    lemma RootFacts()
      requires Valid() && shape.Bin?
      ensures root == shape.node && CellOf(root) == Cell(shape.key, Top(shape.left), Top(shape.right)) && root in Repr
      ensures Contents() == Inorder(shape.left) + [Entry(root, shape.key)] + Inorder(shape.right)
      ensures Nodes(shape.left) <= Repr && Nodes(shape.right) <= Repr
    {
    }

    /** SPLAY_INSERT */
    method Insert(elm: Node) returns (found: Node?, ghost i: nat)
      requires Valid()
      modifies this, Repr, elm
      ensures Valid() && elm.key == old(elm.key)
      ensures elm in old(Repr) ==> found == elm
      ensures found != null ==> Contents() == old(Contents()) && Entry(found, elm.key) in Contents() && Repr == old(Repr)
      ensures found == null ==>
        && i <= |old(Contents())| && Repr == old(Repr) + {elm}
        && Contents() == old(Contents())[..i] + [Entry(elm, elm.key)] + old(Contents())[i..]
    {
      hide Sorted, Inorder, Distinct, AllBelow, AllAbove, Linked, Nodes, UnderLeft, UnderRight;
      if root == null {
        EmptyFacts();
        elm.left, elm.right := null, null;
        InsertedFirst(elm, elm.key);
        i, shape := 0, Bin(Leaf, elm, elm.key, Leaf);
        LinkLeaf(elm, elm.key, MemOf({elm}));
        assert Repr + {elm} == {elm};
      } else {
        ghost var k, j := elm.key, if elm in Repr then HasEntry(elm) else 0;
        Splay(elm.key);
        if elm in Repr { IsRoot(elm, k, j); }
        RootFacts();
        ghost var t, m := shape, MemOf(Repr);
        var comp := Cmp(elm.key, root.key);
        if comp < 0 {
          SplitBelow(t, elm, elm.key);
          elm.left := root.left;
          elm.right := root;
          root.left := null;
          LinkUnderLeft(t, elm, elm.key, m, MemOf(Repr + {elm}));
          i, shape := |Inorder(t.left)|, UnderLeft(t, elm, elm.key);
        } else if comp > 0 {
          SplitAbove(t, elm, elm.key);
          elm.right := root.right;
          elm.left := root;
          root.right := null;
          LinkUnderRight(t, elm, elm.key, m, MemOf(Repr + {elm}));
          i, shape := |Inorder(t.left)| + 1, UnderRight(t, elm, elm.key);
        } else {
          return root, 0;
        }
        UnderTop(t, elm, elm.key);
      }
      root := elm;
      Repr := Repr + {elm};
      return null, i;
    }

    /** Every node of the tree has its entry. */
    ghost function HasEntry(n: Node): (i: nat)
      requires Valid() && n in Repr
      reads this, Repr
      ensures i < |Contents()| && Contents()[i] == Entry(n, n.key)
    {
      NodeEntry(shape, MemOf(Repr), n);
      var i: nat :| i < |Contents()| && Contents()[i] == Entry(n, n.key);
      i
    }

    /** After a splay for the key of an element that element is the root. */
    lemma IsRoot(n: Node, k: int, j: nat)
      requires Valid() && shape.Bin? && j < |Contents()| && Contents()[j] == Entry(n, k)
      requires (k < shape.key ==> AllBelow(Inorder(shape.left), k)) && (k > shape.key ==> AllAbove(k, Inorder(shape.right)))
      ensures root == n && n.key == k
    {
      hide Sorted, Inorder, AllBelow, AllAbove, Linked, Distinct, Nodes;
      Occupied(j);
      SplayedAway(shape, k);
      CutRoot(shape);
      SortedUnique(Contents(), j, |Inorder(shape.left)|);
    }

    lemma EmptyFacts()
      requires Valid() && root == null
      ensures shape == Leaf && Repr == {} && Contents() == []
    {
    }

    /** SPLAY_REMOVE: the left part is splayed for the same key, which leaves its
        root without a right child, so that the right part can hang there. */
    method Remove(key: int) returns (removed: Node?, ghost i: nat)
      requires Valid()
      modifies this, Repr
      ensures Valid()
      ensures removed == null ==>
        Contents() == old(Contents()) && forall j :: 0 <= j < |Contents()| ==> Contents()[j].key != key
      ensures removed != null ==>
        && i < |old(Contents())| && old(Contents())[i] == Entry(removed, key) && Repr == old(Repr) - {removed}
        && Contents() == old(Contents())[..i] + old(Contents())[i + 1..]
    {
      hide Sorted, Inorder, Distinct, AllBelow, AllAbove, Linked, Nodes;
      if root == null {
        EmptyFacts();
        return null, 0;
      }
      Splay(key);
      RootFacts();
      SplayedAway(shape, key);
      if Cmp(key, root.key) != 0 {
        return null, 0;
      }
      removed, i := TakeRoot();
    }

    /** The part of SPLAY_REMOVE after the element has come to the root. */
    method TakeRoot() returns (removed: Node, ghost i: nat)
      requires Valid() && shape.Bin?
      modifies this, Repr
      ensures Valid() && i < |old(Contents())| && old(Contents())[i] == Entry(removed, old(shape.key))
      ensures Repr == old(Repr) - {removed} && Contents() == old(Contents())[..i] + old(Contents())[i + 1..]
    {
      hide Sorted, Inorder, Distinct, AllBelow, AllAbove, Linked, Nodes;
      ghost var t, m, key := shape, MemOf(Repr), shape.key;
      RootFacts();
      CutRoot(t);
      Parts(t, m);
      removed, i := root, |Inorder(t.left)|;
      if root.left == null {
        EmptyLeft(t);
        root := root.right;
        shape, Repr := t.right, Nodes(t.right);
        Frame(t.right, m, MemOf(Repr));
      } else {
        var tmp := root.right;
        root := root.left;
        shape, Repr := t.left, Nodes(t.left);
        Frame(t.left, m, MemOf(Repr));
        Frame(t.right, m, MemOf(Nodes(t.right)));
        ghost var b := MemOf(Nodes(t.right));
        Splay(removed.key);
        assert MemOf(Nodes(t.right)) == b;
        Hang(t, tmp, key);
      }
    }

    /** The last write of SPLAY_REMOVE. */
    method Hang(ghost t: Tree, tmp: Node?, ghost key: int)
      requires Valid() && shape.Bin? && t.Bin? && Distinct(t) && tmp == Top(t.right) && Repr == Nodes(t.left)
      requires Linked(t.right, MemOf(Nodes(t.right))) && Contents() == Inorder(t.left)
      requires Sorted(Inorder(t.left) + Inorder(t.right)) && AllBelow(Inorder(t.left), key)
      requires key > shape.key ==> AllAbove(key, Inorder(shape.right))
      modifies this, Repr
      ensures Valid() && Contents() == Inorder(t.left) + Inorder(t.right) && Repr == Nodes(t.left) + Nodes(t.right)
    {
      ApartParts(t);
      hide Sorted, AllBelow, AllAbove, Inorder, Linked, Distinct, Nodes;
      RootFacts();
      NoRightChild(shape, key);
      ghost var b := t.right;
      ghost var m1, m2 := MemOf(Repr), MemOf(Nodes(b));
      HungTree(shape, b);
      root.right := tmp;
      LinkHung(shape, b, m1, m2, MemOf(Repr + Nodes(b)));
      shape := shape.(right := b);
      Repr := Repr + Nodes(b);
    }
  }

  lemma InsertedFirst(n: Node, k: int)
    ensures var t' := Bin(Leaf, n, k, Leaf); Inorder(t') == [Entry(n, k)] && Sorted(Inorder(t')) && Distinct(t') && Nodes(t') == {n}
    ensures Inorder(Leaf) == []
  {
  }

  ghost function UnderLeft(t: Tree, n: Node, k: int): Tree
    requires t.Bin?
  {
    Bin(t.left, n, k, Bin(Leaf, t.node, t.key, t.right))
  }

  ghost function UnderRight(t: Tree, n: Node, k: int): Tree
    requires t.Bin?
  {
    Bin(Bin(t.left, t.node, t.key, Leaf), n, k, t.right)
  }

  lemma AboveCons(k: int, e: Entry<Node>, c: seq<Entry<Node>>)
    requires k < e.key && AllAbove(e.key, c)
    ensures AllAbove(k, [e] + c)
  {
  }

  lemma BelowSnoc(a: seq<Entry<Node>>, e: Entry<Node>, k: int)
    requires e.key < k && AllBelow(a, e.key)
    ensures AllBelow(a + [e], k)
  {
  }

  lemma SplitSeq(a: seq<Entry<Node>>, e: Entry<Node>, c: seq<Entry<Node>>)
    ensures var w := a + [e] + c;
      && w == a + ([e] + c) && w[..|a|] == a && w[|a|..] == [e] + c
      && w[..|a| + 1] == a + [e] && w[|a| + 1..] == c
  {
  }

  /** A new root between the left part and the old root. */
  lemma SplitBelow(t: Tree, n: Node, k: int)
    requires t.Bin? && Sorted(Inorder(t)) && Distinct(t) && n !in Nodes(t) && k < t.key && AllBelow(Inorder(t.left), k)
    ensures var t', w, i := UnderLeft(t, n, k), Inorder(t), |Inorder(t.left)|;
      && i <= |w| && Inorder(t') == w[..i] + [Entry(n, k)] + w[i..] && Sorted(Inorder(t'))
      && Distinct(t') && Nodes(t') == Nodes(t) + {n}
  {
    hide Sorted, AllBelow, AllAbove, Distinct, Nodes;
    var a, c, e, w := Inorder(t.left), Inorder(t.right), Entry(t.node, t.key), Inorder(t);
    CutSeq(a, e, c);
    SplitSeq(a, e, c);
    assert Inorder(Bin(Leaf, t.node, t.key, t.right)) == [e] + c;
    AboveCons(k, e, c);
    SortedInsert(a, Entry(n, k), [e] + c);
    SplitBelowNodes(t, n, k);
  }

  lemma SplitBelowNodes(t: Tree, n: Node, k: int)
    requires t.Bin? && Distinct(t) && n !in Nodes(t)
    ensures Distinct(UnderLeft(t, n, k)) && Nodes(UnderLeft(t, n, k)) == Nodes(t) + {n}
  {
    assert Distinct(Bin(Leaf, t.node, t.key, t.right));
  }

  lemma SplitAbove(t: Tree, n: Node, k: int)
    requires t.Bin? && Sorted(Inorder(t)) && Distinct(t) && n !in Nodes(t) && t.key < k && AllAbove(k, Inorder(t.right))
    ensures var t', w, i := UnderRight(t, n, k), Inorder(t), |Inorder(t.left)| + 1;
      && i <= |w| && Inorder(t') == w[..i] + [Entry(n, k)] + w[i..] && Sorted(Inorder(t'))
      && Distinct(t') && Nodes(t') == Nodes(t) + {n}
  {
    hide Sorted, AllBelow, AllAbove, Distinct, Nodes;
    var a, c, e, w := Inorder(t.left), Inorder(t.right), Entry(t.node, t.key), Inorder(t);
    CutSeq(a, e, c);
    SplitSeq(a, e, c);
    assert Inorder(Bin(t.left, t.node, t.key, Leaf)) == a + [e];
    BelowSnoc(a, e, k);
    SortedInsert(a + [e], Entry(n, k), c);
    SplitAboveNodes(t, n, k);
  }

  lemma SplitAboveNodes(t: Tree, n: Node, k: int)
    requires t.Bin? && Distinct(t) && n !in Nodes(t)
    ensures Distinct(UnderRight(t, n, k)) && Nodes(UnderRight(t, n, k)) == Nodes(t) + {n}
  {
    assert Distinct(Bin(t.left, t.node, t.key, Leaf));
  }

  lemma UnderTop(t: Tree, n: Node, k: int)
    requires t.Bin?
    ensures Top(UnderLeft(t, n, k)) == n && Top(UnderRight(t, n, k)) == n
  {
  }

  lemma LinkLeaf(n: Node, k: int, m: Mem)
    requires n in m && m[n] == Cell(k, null, null)
    ensures Linked(Bin(Leaf, n, k, Leaf), m)
  {
  }

  lemma LinkUnderLeft(t: Tree, n: Node, k: int, m: Mem, m': Mem)
    requires t.Bin? && Linked(t, m) && Distinct(t) && n !in Nodes(t)
    requires n in m' && m'[n] == Cell(k, Top(t.left), t.node) && t.node in m' && m'[t.node] == Cell(t.key, null, Top(t.right))
    requires forall x :: x in m && x != n && x != t.node ==> x in m' && m'[x] == m[x]
    ensures Linked(UnderLeft(t, n, k), m')
  {
    Frame(t.left, m, m');
    Frame(t.right, m, m');
  }

  lemma LinkUnderRight(t: Tree, n: Node, k: int, m: Mem, m': Mem)
    requires t.Bin? && Linked(t, m) && Distinct(t) && n !in Nodes(t)
    requires n in m' && m'[n] == Cell(k, t.node, Top(t.right)) && t.node in m' && m'[t.node] == Cell(t.key, Top(t.left), null)
    requires forall x :: x in m && x != n && x != t.node ==> x in m' && m'[x] == m[x]
    ensures Linked(UnderRight(t, n, k), m')
  {
    Frame(t.left, m, m');
    Frame(t.right, m, m');
  }

  /** After a splay the key is at the root or nowhere. */
  lemma SplayedAway(t: Tree, key: int)
    requires t.Bin? && Sorted(Inorder(t))
    requires (key < t.key ==> AllBelow(Inorder(t.left), key)) && (key > t.key ==> AllAbove(key, Inorder(t.right)))
    ensures key != t.key ==> forall i :: 0 <= i < |Inorder(t)| ==> Inorder(t)[i].key != key
    ensures Entry(t.node, t.key) in Inorder(t)
  {
    var w, a, b := Inorder(t), Inorder(t.left), Inorder(t.right);
    var n := |a|;
    assert w[n] == Entry(t.node, t.key);
    forall i | 0 <= i < |w| ensures (i < n ==> w[i] == a[i]) && (i > n ==> w[i] == b[i - n - 1]) {}
  }

  lemma Sides(a: seq<Entry<Node>>, e: Entry<Node>, b: seq<Entry<Node>>, key: int)
    ensures AllAbove(key, a + [e] + b) ==> AllAbove(key, a)
    ensures AllBelow(a + [e] + b, key) ==> AllBelow(b, key)
  {
    var w := a + [e] + b;
    assert forall i :: 0 <= i < |a| ==> a[i] == w[i];
    assert forall i :: 0 <= i < |b| ==> b[i] == w[i + |a| + 1];
  }

  lemma Between(a: seq<Entry<Node>>, key: int)
    requires AllBelow(a, key) && AllAbove(key, a)
    ensures a == []
  {
    FirstAbove(key, a);
    FirstBelow(a, 0, a, key);
  }

  lemma {:induction false} EntryStored(t: Tree, m: Mem, i: nat)
    requires Linked(t, m) && i < |Inorder(t)|
    ensures var e := Inorder(t)[i]; t.Bin? && e.node in Nodes(t) && e.node in m && m[e.node].key == e.key
  {
    var n := |Inorder(t.left)|;
    if i < n {
      EntryStored(t.left, m, i);
    } else if i > n {
      EntryStored(t.right, m, i - n - 1);
    }
  }

  lemma {:induction false} NodeEntry(t: Tree, m: Mem, n: Node)
    requires Linked(t, m) && n in Nodes(t)
    ensures n in m && exists i: nat :: i < |Inorder(t)| && Inorder(t)[i] == Entry(n, m[n].key)
  {
    var l := |Inorder(t.left)|;
    if n == t.node {
      assert Inorder(t)[l] == Entry(n, m[n].key);
    } else if n in Nodes(t.left) {
      NodeEntry(t.left, m, n);
      var i: nat :| i < l && Inorder(t.left)[i] == Entry(n, m[n].key);
      assert Inorder(t)[i] == Entry(n, m[n].key);
    } else {
      NodeEntry(t.right, m, n);
      var i: nat :| i < |Inorder(t.right)| && Inorder(t.right)[i] == Entry(n, m[n].key);
      assert Inorder(t)[l + 1 + i] == Entry(n, m[n].key);
    }
  }

  lemma TopFacts(t: Tree, m: Mem)
    requires t.Bin? && Linked(t, m)
    ensures t.node in m && m[t.node] == Cell(t.key, Top(t.left), Top(t.right)) && Linked(t.left, m)
    ensures Inorder(t) != [] && Inorder(t.left) <= Inorder(t) && (t.left.Leaf? ==> Inorder(t)[0].node == t.node)
  {
    assert Inorder(t) == Inorder(t.left) + ([Entry(t.node, t.key)] + Inorder(t.right));
  }

  lemma SortedCut(w: seq<Entry<Node>>, n: nat)
    requires Sorted(w) && n < |w|
    ensures Sorted(w[..n]) && Sorted(w[n + 1..]) && Sorted(w[..n] + w[n + 1..])
    ensures AllBelow(w[..n], w[n].key) && AllAbove(w[n].key, w[n + 1..])
  {
  }

  lemma CutSeq(a: seq<Entry<Node>>, e: Entry<Node>, b: seq<Entry<Node>>)
    requires Sorted(a + [e] + b)
    ensures var w := a + [e] + b; w[|a|] == e && w[..|a|] == a && w[|a| + 1..] == b
    ensures Sorted(a) && Sorted(b) && Sorted(a + b) && AllBelow(a, e.key) && AllAbove(e.key, b)
  {
    hide Sorted, AllBelow, AllAbove;
    var w := a + [e] + b;
    assert w[|a|] == e && w[..|a|] == a && w[|a| + 1..] == b;
    SortedCut(w, |a|);
  }

  lemma CutRoot(t: Tree)
    requires t.Bin? && Sorted(Inorder(t)) && Distinct(t)
    ensures var w, i := Inorder(t), |Inorder(t.left)|;
      && i < |w| && w[i] == Entry(t.node, t.key) && w[..i] == Inorder(t.left) && w[i + 1..] == Inorder(t.right)
      && Sorted(Inorder(t.left)) && Sorted(Inorder(t.right)) && Sorted(Inorder(t.left) + Inorder(t.right))
      && AllBelow(Inorder(t.left), t.key) && AllAbove(t.key, Inorder(t.right))
      && Nodes(t.left) + Nodes(t.right) == Nodes(t) - {t.node}
  {
    hide Sorted, AllBelow, AllAbove;
    CutSeq(Inorder(t.left), Entry(t.node, t.key), Inorder(t.right));
  }

  lemma Parts(t: Tree, m: Mem)
    requires t.Bin? && Distinct(t) && Linked(t, m)
    ensures Distinct(t.left) && Distinct(t.right) && Linked(t.left, m) && Linked(t.right, m) && Nodes(t.left) !! Nodes(t.right)
    ensures t.node in m && m[t.node] == Cell(t.key, Top(t.left), Top(t.right))
  {
  }

  lemma ApartParts(t: Tree)
    requires t.Bin? && Distinct(t)
    ensures Distinct(t.right) && Nodes(t.left) !! Nodes(t.right)
  {
  }

  /** A tree without a right part takes one. */
  lemma HungTree(t: Tree, b: Tree)
    requires t.Bin? && t.right.Leaf? && Distinct(t) && Distinct(b) && Nodes(t) !! Nodes(b)
    ensures var t' := t.(right := b);
      Distinct(t') && Nodes(t') == Nodes(t) + Nodes(b) && Inorder(t') == Inorder(t) + Inorder(b)
  {
  }

  lemma LinkHung(t: Tree, b: Tree, m: Mem, mb: Mem, m': Mem)
    requires t.Bin? && t.right.Leaf? && Linked(t, m) && Linked(b, mb) && Distinct(t) && Nodes(t) !! Nodes(b)
    requires t.node in m' && m'[t.node] == Cell(t.key, Top(t.left), Top(b))
    requires (forall n :: n in m && n != t.node ==> n in m' && m'[n] == m[n]) && Same(Nodes(b), mb, m')
    ensures Linked(t.(right := b), m')
  {
    Frame(t.left, m, m');
    Frame(b, mb, m');
  }

  lemma EmptyLeft(t: Tree)
    requires t.Bin? && t.left.Leaf?
    ensures Inorder(t.left) == [] && Inorder(t.left) + Inorder(t.right) == Inorder(t.right) && Nodes(t.left) == {}
  {
  }

  lemma RightPart(t: Tree)
    requires t.Bin?
    ensures var w, n := Inorder(t), |Inorder(t.left)|;
      w[n] == Entry(t.node, t.key) && forall i :: 0 <= i < |Inorder(t.right)| ==> Inorder(t.right)[i] == w[n + 1 + i]
    ensures t.right.Bin? ==> |Inorder(t.right)| > 0
  {
  }

  lemma NoRightChild(t: Tree, key: int)
    requires t.Bin? && AllBelow(Inorder(t), key) && (key > t.key ==> AllAbove(key, Inorder(t.right)))
    ensures t.right.Leaf? && Inorder(t) == Inorder(t.left) + [Entry(t.node, t.key)]
  {
    RightPart(t);
    FirstAbove(key, Inorder(t.right));
    FirstBelow(Inorder(t), |Inorder(t.left)| + 1, Inorder(t.right), key);
  }

  lemma FirstAbove(k: int, b: seq<Entry<Node>>)
    requires AllAbove(k, b)
    ensures b != [] ==> k < b[0].key
  {
  }

  lemma FirstBelow(w: seq<Entry<Node>>, n: nat, b: seq<Entry<Node>>, k: int)
    requires AllBelow(w, k) && n + |b| <= |w| && forall i :: 0 <= i < |b| ==> b[i] == w[n + i]
    ensures b != [] ==> b[0].key < k
  {
  }

  lemma NodesOfParts(l: Spine, t: Tree, r: Spine, d: Node, m: Mem)
    requires Stored(l, t, r, d, m)
    ensures Apart(l, t, r, d) && NodesS(l) + Nodes(t) + NodesS(r) + {d} - {d} == NodesS(l) + Nodes(t) + NodesS(r)
  {
  }
}
