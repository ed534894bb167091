/** The mathematical side of the red-black tree of tree.h.

  A tree is split at a focus into the subtree below it (`Tree`) and the path
  above it (`Ctx`, a zipper).  Every loop of tree.h that walks a pointer down
  or up is a walk of such a focus, and every rotation or recolouring changes
  the tree only near it.
 */
module RBShape {
  import opened Entries

  datatype Color = Black | Red
  datatype Side = L | R

  /** One intrusive tree element: RB_ENTRY plus the field the comparator reads.
      `elm` names the structure that the entry is part of. */
  class Node {
    const elm: nat
    var key: int
    var left: Node?
    var right: Node?
    var parent: Node?
    var color: Color

    constructor (elm: nat, key: int)
      ensures this.elm == elm && this.key == key
    {
      this.elm, this.key := elm, key;
      left, right, parent, color := null, null, null, Red;
    }
  }

  datatype Tree =
    | Leaf
    | Bin(left: Tree, node: Node, key: int, color: Color, right: Tree)

  /** The path from a focus to the root: on which side of its parent the focus
      hangs, the parent itself, and the parent's other subtree. */
  datatype Ctx =
    | Root
    | Step(side: Side, up: Ctx, node: Node, key: int, color: Color, sib: Tree)

  ghost function Top(t: Tree): Node? { if t.Leaf? then null else t.node }

  ghost function Up(z: Ctx): Node? { if z.Root? then null else z.node }

  /** The root pointer of the whole tree when the focus is `hole`. */
  ghost function TopOf(z: Ctx, hole: Node?): Node? {
    if z.Root? then hole else TopOf(z.up, z.node)
  }

  ghost function Nodes(t: Tree): set<Node> {
    if t.Leaf? then {} else {t.node} + Nodes(t.left) + Nodes(t.right)
  }

  ghost function NodesC(z: Ctx): set<Node> {
    if z.Root? then {} else {z.node} + Nodes(z.sib) + NodesC(z.up)
  }

  /** No element occurs twice. */
  ghost predicate Distinct(t: Tree) {
    t.Bin? ==>
      && t.node !in Nodes(t.left) && t.node !in Nodes(t.right)
      && Nodes(t.left) !! Nodes(t.right)
      && Distinct(t.left) && Distinct(t.right)
  }

  ghost predicate DistinctC(z: Ctx) {
    z.Step? ==>
      && z.node !in Nodes(z.sib) && z.node !in NodesC(z.up)
      && Nodes(z.sib) !! NodesC(z.up)
      && Distinct(z.sib) && DistinctC(z.up)
  }

  ghost function Inorder(t: Tree): seq<Entry<Node>> {
    if t.Leaf? then [] else Inorder(t.left) + [Entry(t.node, t.key)] + Inorder(t.right)
  }

  /** What lies before and after the focus in key order. */
  ghost function Before(z: Ctx): seq<Entry<Node>> {
    match z
    case Root => []
    case Step(L, up, _, _, _, _) => Before(up)
    case Step(R, up, n, k, _, sib) => Before(up) + (Inorder(sib) + [Entry(n, k)])
  }

  ghost function After(z: Ctx): seq<Entry<Node>> {
    match z
    case Root => []
    case Step(L, up, n, k, _, sib) => ([Entry(n, k)] + Inorder(sib)) + After(up)
    case Step(R, up, _, _, _, _) => After(up)
  }

  ghost function Whole(z: Ctx, t: Tree): seq<Entry<Node>> { Before(z) + Inorder(t) + After(z) }

  /** What a focused tree holds: its entries in key order and its elements. */
  ghost function Holding(z: Ctx, t: Tree): (seq<Entry<Node>>, set<Node>) {
    (Whole(z, t), Nodes(t) + NodesC(z))
  }

  /** One step up: the parent's subtree with `t` at the focus. */
  ghost function Join(z: Ctx, t: Tree): Tree
    requires z.Step?
  {
    if z.side == L then Bin(t, z.node, z.key, z.color, z.sib)
    else Bin(z.sib, z.node, z.key, z.color, t)
  }

  ghost function Plug(z: Ctx, t: Tree): Tree {
    if z.Root? then t else Plug(z.up, Join(z, t))
  }

  ghost function GoLeft(z: Ctx, t: Tree): Ctx
    requires t.Bin?
  {
    Step(L, z, t.node, t.key, t.color, t.right)
  }

  ghost function GoRight(z: Ctx, t: Tree): Ctx
    requires t.Bin?
  {
    Step(R, z, t.node, t.key, t.color, t.left)
  }

  // ----------------------------------------------------------------- memory

  /** The contents of one element's fields. */
  datatype Cell = Cell(key: int, left: Node?, right: Node?, parent: Node?, color: Color)

  type Mem = map<Node, Cell>

  /** The memory stores exactly the subtree `t` below the parent pointer `p`. */
  ghost predicate Linked(t: Tree, p: Node?, m: Mem) {
    t.Bin? ==>
      && t.node in m
      && m[t.node] == Cell(t.key, Top(t.left), Top(t.right), p, t.color)
      && Linked(t.left, t.node, m) && Linked(t.right, t.node, m)
  }

  ghost function StepCell(z: Ctx, hole: Node?): Cell
    requires z.Step?
  {
    if z.side == L then Cell(z.key, hole, Top(z.sib), Up(z.up), z.color)
    else Cell(z.key, Top(z.sib), hole, Up(z.up), z.color)
  }

  /** The memory stores exactly the path `z` above the focus pointer `hole`. */
  ghost predicate LinkedC(z: Ctx, hole: Node?, m: Mem) {
    z.Step? ==>
      && z.node in m
      && m[z.node] == StepCell(z, hole)
      && Linked(z.sib, z.node, m) && LinkedC(z.up, z.node, m)
  }

  ghost predicate Apart(z: Ctx, t: Tree) {
    Distinct(t) && DistinctC(z) && Nodes(t) !! NodesC(z)
  }

  /** The memory stores the tree `t` in the context `z` and nothing twice. */
  ghost predicate Stored(z: Ctx, t: Tree, m: Mem) {
    Apart(z, t) && Linked(t, Up(z), m) && LinkedC(z, Top(t), m)
  }

  lemma {:induction false} Frame(t: Tree, p: Node?, m: Mem, m': Mem)
    requires Linked(t, p, m) && Same(Nodes(t), m, m')
    ensures Linked(t, p, m')
  {
    if t.Bin? {
      Frame(t.left, t.node, m, m');
      Frame(t.right, t.node, m, m');
    }
  }

  lemma {:induction false} FrameC(z: Ctx, hole: Node?, m: Mem, m': Mem)
    requires LinkedC(z, hole, m) && Same(NodesC(z), m, m')
    ensures LinkedC(z, hole, m')
  {
    if z.Step? {
      Frame(z.sib, z.node, m, m');
      FrameC(z.up, z.node, m, m');
    }
  }

  // ---------------------------------------------------------------- colours

  ghost predicate IsRed(t: Tree) { t.Bin? && t.color == Red }

  /** `t` is a red-black tree of black height `h`; its root may be red. */
  ghost predicate RB(t: Tree, h: nat) {
    match t
    case Leaf => h == 0
    case Bin(l, _, _, Red, r) => RB(l, h) && RB(r, h) && !IsRed(l) && !IsRed(r)
    case Bin(l, _, _, Black, r) => h > 0 && RB(l, h - 1) && RB(r, h - 1)
  }

  /** Like RB, but a red root may have red children. */
  ghost predicate AlmostRB(t: Tree, h: nat) {
    match t
    case Leaf => h == 0
    case Bin(l, _, _, Red, r) => RB(l, h) && RB(r, h)
    case Bin(l, _, _, Black, r) => h > 0 && RB(l, h - 1) && RB(r, h - 1)
  }

  /** Putting a red-black tree of black height `h` and root colour `c` at the
      focus gives a red-black tree with a black root. */
  ghost predicate Fits(z: Ctx, h: nat, c: Color) {
    match z
    case Root => c == Black
    case Step(_, up, _, _, fc, sib) =>
      && RB(sib, h)
      && (fc == Red ==> c == Black && !IsRed(sib))
      && Fits(up, if fc == Black then h + 1 else h, fc)
  }

  ghost function ColorOf(t: Tree): Color { if IsRed(t) then Red else Black }

  ghost function Paint(t: Tree, c: Color): Tree
    requires t.Bin?
  {
    t.(color := c)
  }

  // -------------------------------------------------------------- rotations

  ghost function RotL(t: Tree): Tree
    requires t.Bin? && t.right.Bin?
  {
    var r := t.right;
    Bin(Bin(t.left, t.node, t.key, t.color, r.left), r.node, r.key, r.color, r.right)
  }

  ghost function RotR(t: Tree): Tree
    requires t.Bin? && t.left.Bin?
  {
    var l := t.left;
    Bin(l.left, l.node, l.key, l.color, Bin(l.right, t.node, t.key, t.color, t.right))
  }

  ghost function Depth(z: Ctx): nat { if z.Root? then 0 else 1 + Depth(z.up) }

  // ----------------------------------------------------------------- lemmas

  /** The focus does not change what the tree contains. */
  lemma {:induction false} PlugWhole(z: Ctx, t: Tree)
    ensures Inorder(Plug(z, t)) == Whole(z, t)
    ensures Nodes(Plug(z, t)) == Nodes(t) + NodesC(z)
  {
    if z.Root? {
      assert Whole(z, t) == Inorder(t);
    } else {
      PlugWhole(z.up, Join(z, t));
      JoinWhole(z, t);
    }
  }

  lemma JoinWhole(z: Ctx, t: Tree)
    requires z.Step?
    ensures Holding(z.up, Join(z, t)) == Holding(z, t)
  {
    var e := [Entry(z.node, z.key)];
    assert Nodes(Join(z, t)) + NodesC(z.up) == Nodes(t) + NodesC(z);
    if z.side == L {
      assert Before(z.up) + (Inorder(t) + e + Inorder(z.sib)) + After(z.up)
          == Before(z.up) + Inorder(t) + ((e + Inorder(z.sib)) + After(z.up));
    } else {
      assert Before(z.up) + (Inorder(z.sib) + e + Inorder(t)) + After(z.up)
          == (Before(z.up) + (Inorder(z.sib) + e)) + Inorder(t) + After(z.up);
    }
  }

  /** Rotations keep the in-order sequence and the elements. */
  lemma RotLInorder(t: Tree)
    requires t.Bin? && t.right.Bin?
    ensures Inorder(RotL(t)) == Inorder(t) && Nodes(RotL(t)) == Nodes(t)
  {
    var r := t.right;
    Regroup(Inorder(t.left) + [Entry(t.node, t.key)], Inorder(r.left), [Entry(r.node, r.key)], Inorder(r.right));
  }

  lemma Regroup(a: seq<Entry<Node>>, b: seq<Entry<Node>>, c: seq<Entry<Node>>, d: seq<Entry<Node>>)
    ensures (a + b) + c + d == a + (b + c + d)
  {
  }

  lemma RotRInorder(t: Tree)
    requires t.Bin? && t.left.Bin?
    ensures Inorder(RotR(t)) == Inorder(t) && Nodes(RotR(t)) == Nodes(t)
  {
    RotLInorder(RotR(t));
  }

  /** A focus that fits is plugged into a red-black tree with a black root. */
  lemma {:induction false} PlugRB(z: Ctx, t: Tree, h: nat) returns (h': nat)
    requires RB(t, h) && Fits(z, h, ColorOf(t))
    ensures RB(Plug(z, t), h') && !IsRed(Plug(z, t))
  {
    if z.Root? {
      h' := h;
    } else {
      h' := PlugRB(z.up, Join(z, t), if z.color == Black then h + 1 else h);
    }
  }

  // ------------------------------------------------------------ insert colour

  /** `g` is the grandparent's subtree above a red focus with a red parent on
      its left; only the edge between those two reds is wrong. */
  ghost predicate RedRedLeft(g: Tree, h: nat) {
    && g.Bin? && g.color == Black && RB(g.right, h)
    && g.left.Bin? && g.left.color == Red && RB(g.left.left, h) && RB(g.left.right, h)
    && (IsRed(g.left.left) != IsRed(g.left.right))
  }

  ghost predicate RedRedRight(g: Tree, h: nat) {
    && g.Bin? && g.color == Black && RB(g.left, h)
    && g.right.Bin? && g.right.color == Red && RB(g.right.left, h) && RB(g.right.right, h)
    && (IsRed(g.right.left) != IsRed(g.right.right))
  }

  /** Above a red focus with a red parent there is a black grandparent. */
  lemma Grandparent(z: Ctx, t: Tree, h: nat)
    requires RB(t, h) && IsRed(t) && Fits(z, h, Black) && z.Step? && z.color == Red
    ensures z.up.Step? && Fits(z.up.up, h + 1, Black)
    ensures var g := Join(z.up, Join(z, t)); if z.up.side == L then RedRedLeft(g, h) else RedRedRight(g, h)
  {
  }

  /** Both reds lie on the outer left path: blacken the parent, redden and
      rotate the grandparent. */
  ghost function OuterLeft(g: Tree): Tree
    requires g.Bin? && g.left.Bin?
  {
    RotR(Paint(g.(left := Paint(g.left, Black)), Red))
  }

  ghost function OuterRight(g: Tree): Tree
    requires g.Bin? && g.right.Bin?
  {
    RotL(Paint(g.(right := Paint(g.right, Black)), Red))
  }

  lemma RecoloredRB(g: Tree, h: nat)
    requires RedRedLeft(g, h) || RedRedRight(g, h)
    requires IsRed(g.left) && IsRed(g.right)
    ensures RB(Bin(Paint(g.left, Black), g.node, g.key, Red, Paint(g.right, Black)), h + 1)
  {
  }

  lemma InnerLeftRB(g: Tree, h: nat)
    requires RedRedLeft(g, h) && IsRed(g.left.right)
    ensures RedRedLeft(g.(left := RotL(g.left)), h) && IsRed(RotL(g.left).left)
  {
  }

  lemma InnerRightRB(g: Tree, h: nat)
    requires RedRedRight(g, h) && IsRed(g.right.left)
    ensures RedRedRight(g.(right := RotR(g.right)), h) && IsRed(RotR(g.right).right)
  {
  }

  lemma OuterLeftRB(z: Ctx, g: Tree, h: nat)
    requires RedRedLeft(g, h) && IsRed(g.left.left) && !IsRed(g.right) && Fits(z, h + 1, Black)
    ensures var g' := OuterLeft(g);
      g'.left == g.left.left && g'.color == Black && RB(g'.left, h) && Fits(GoLeft(z, g'), h, Black)
  {
  }

  lemma OuterRightRB(z: Ctx, g: Tree, h: nat)
    requires RedRedRight(g, h) && IsRed(g.right.right) && !IsRed(g.left) && Fits(z, h + 1, Black)
    ensures var g' := OuterRight(g);
      g'.right == g.right.right && g'.color == Black && RB(g'.right, h) && Fits(GoRight(z, g'), h, Black)
  {
  }

  /** Blackening the root ends RB_INSERT_COLOR. */
  lemma BlackenedRB(z: Ctx, t: Tree, h: nat) returns (h': nat)
    requires IsRed(t) && RB(t, h) && Fits(z, h, Black) && (z.Step? ==> z.color == Black)
    ensures Plug(z, t).Bin? && RB(Paint(Plug(z, t), Black), h')
  {
    if z.Root? {
      h' := h + 1;
    } else {
      h' := PlugRB(z, t, h);
      PlugBin(z, t);
    }
  }

  lemma {:induction false} PlugBin(z: Ctx, t: Tree)
    requires t.Bin?
    ensures Plug(z, t).Bin? && Plug(z, t).node == TopOf(z, t.node)
  {
    if z.Step? {
      PlugBin(z.up, Join(z, t));
    }
  }

  // ------------------------------------------------------------ remove colour

  ghost function HeightAbove(p: Tree, h: nat): nat { if p.Bin? && p.color == Black then h + 2 else h + 1 }

  /** The left subtree of `p` lacks one black node; all else is in order. */
  ghost predicate ShortLeft(p: Tree, h: nat) {
    && p.Bin? && RB(p.left, h) && !IsRed(p.left) && RB(p.right, h + 1)
    && (p.color == Red ==> !IsRed(p.right))
  }

  /** Case 1: a red sibling is rotated up, so that the sibling becomes black. */
  ghost function LiftRedLeft(p: Tree): Tree
    requires p.Bin? && p.right.Bin?
  {
    RotL(Paint(p.(right := Paint(p.right, Black)), Red))
  }

  lemma LiftedRedLeft(z: Ctx, p: Tree, h: nat)
    requires ShortLeft(p, h) && IsRed(p.right) && Fits(z, HeightAbove(p, h), p.color)
    ensures var q := LiftRedLeft(p);
      && ShortLeft(q.left, h) && q.left.color == Red && q.left.node == p.node && q.left.left == p.left
      && Fits(GoLeft(z, q), HeightAbove(q.left, h), Red)
  {
  }

  /** Case 2: a black sibling with black children turns red; the lack moves up. */
  lemma SunkLeft(z: Ctx, p: Tree, h: nat)
    requires ShortLeft(p, h) && !IsRed(p.right) && !IsRed(p.right.left) && !IsRed(p.right.right)
    requires Fits(z, HeightAbove(p, h), p.color)
    ensures AlmostRB(p.(right := Paint(p.right, Red)), HeightAbove(p, h) - 1) && Fits(z, HeightAbove(p, h), Black)
  {
    FitsBlack(z, HeightAbove(p, h), p.color);
  }

  /** Case 3: the sibling's red child moves to the outside. */
  ghost function TurnOutLeft(s: Tree): Tree
    requires s.Bin? && s.left.Bin?
  {
    RotR(Paint(s.(left := Paint(s.left, Black)), Red))
  }

  lemma TurnedOutLeft(p: Tree, h: nat)
    requires ShortLeft(p, h) && !IsRed(p.right) && IsRed(p.right.left) && !IsRed(p.right.right)
    ensures var s := TurnOutLeft(p.right); s.color == Black && IsRed(s.right) && ShortLeft(p.(right := s), h)
  {
    assert RB(p.right.left, h);
  }

  /** Case 4: the sibling's outer red child pays for the missing black node. */
  ghost function RepayLeft(p: Tree): Tree
    requires p.Bin? && p.right.Bin? && p.right.right.Bin?
  {
    var s := Paint(p.right, p.color);
    RotL(Bin(p.left, p.node, p.key, Black, s.(right := Paint(s.right, Black))))
  }

  lemma RepaidLeft(p: Tree, h: nat)
    requires ShortLeft(p, h) && !IsRed(p.right) && IsRed(p.right.right)
    ensures RB(RepayLeft(p), HeightAbove(p, h)) && RepayLeft(p).color == p.color
  {
    assert RB(p.right.right, h);
  }

  /** The right subtree of `p` lacks one black node; all else is in order. */
  ghost predicate ShortRight(p: Tree, h: nat) {
    && p.Bin? && RB(p.right, h) && !IsRed(p.right) && RB(p.left, h + 1)
    && (p.color == Red ==> !IsRed(p.left))
  }

  /** Case 1: a red sibling is rotated up, so that the sibling becomes black. */
  ghost function LiftRedRight(p: Tree): Tree
    requires p.Bin? && p.left.Bin?
  {
    RotR(Paint(p.(left := Paint(p.left, Black)), Red))
  }

  lemma LiftedRedRight(z: Ctx, p: Tree, h: nat)
    requires ShortRight(p, h) && IsRed(p.left) && Fits(z, HeightAbove(p, h), p.color)
    ensures var q := LiftRedRight(p);
      && ShortRight(q.right, h) && q.right.color == Red && q.right.node == p.node && q.right.right == p.right
      && Fits(GoRight(z, q), HeightAbove(q.right, h), Red)
  {
  }

  /** Case 2: a black sibling with black children turns red; the lack moves up. */
  lemma SunkRight(z: Ctx, p: Tree, h: nat)
    requires ShortRight(p, h) && !IsRed(p.left) && !IsRed(p.left.right) && !IsRed(p.left.left)
    requires Fits(z, HeightAbove(p, h), p.color)
    ensures AlmostRB(p.(left := Paint(p.left, Red)), HeightAbove(p, h) - 1) && Fits(z, HeightAbove(p, h), Black)
  {
    FitsBlack(z, HeightAbove(p, h), p.color);
  }

  /** Case 3: the sibling's red child moves to the outside. */
  ghost function TurnOutRight(s: Tree): Tree
    requires s.Bin? && s.right.Bin?
  {
    RotL(Paint(s.(right := Paint(s.right, Black)), Red))
  }

  lemma TurnedOutRight(p: Tree, h: nat)
    requires ShortRight(p, h) && !IsRed(p.left) && IsRed(p.left.right) && !IsRed(p.left.left)
    ensures var s := TurnOutRight(p.left); s.color == Black && IsRed(s.left) && ShortRight(p.(left := s), h)
  {
    assert RB(p.left.right, h);
  }

  /** Case 4: the sibling's outer red child pays for the missing black node. */
  ghost function RepayRight(p: Tree): Tree
    requires p.Bin? && p.left.Bin? && p.left.left.Bin?
  {
    var s := Paint(p.left, p.color);
    RotR(Bin(s.(left := Paint(s.left, Black)), p.node, p.key, Black, p.right))
  }

  lemma RepaidRight(p: Tree, h: nat)
    requires ShortRight(p, h) && !IsRed(p.left) && IsRed(p.left.left)
    ensures RB(RepayRight(p), HeightAbove(p, h)) && RepayRight(p).color == p.color
  {
    assert RB(p.left.left, h);
  }


  lemma FitsBlack(z: Ctx, h: nat, c: Color)
    requires Fits(z, h, c)
    ensures Fits(z, h, Black)
  {
  }

  /** The sibling of a short side is never null. */
  lemma BigEnough(t: Tree, h: nat)
    requires RB(t, h + 1)
    ensures t.Bin?
  {
  }

  /** A short focus below a parent is a short side of the parent's subtree. */
  lemma ShortSide(z: Ctx, t: Tree, h: nat)
    requires z.Step? && AlmostRB(t, h) && !IsRed(t) && Fits(z, h + 1, Black)
    ensures var p := Join(z, t);
      && (if z.side == L then ShortLeft(p, h) else ShortRight(p, h))
      && Fits(z.up, HeightAbove(p, h), p.color) && z.sib.Bin?
  {
  }

  /** The final blackening of RB_REMOVE_COLOR. */
  lemma Repainted(z: Ctx, t: Tree, h: nat) returns (h': nat)
    requires AlmostRB(t, h) && Fits(z, h + 1, Black) && (IsRed(t) || z.Root?)
    ensures var t' := if t.Bin? then Paint(t, Black) else t; RB(Plug(z, t'), h') && !IsRed(Plug(z, t'))
  {
    if IsRed(t) {
      h' := PlugRB(z, Paint(t, Black), h + 1);
    } else {
      h' := h;
    }
  }

  lemma {:induction false} TopOfCtx(z: Ctx, hole: Node?)
    requires z.Step?
    ensures TopOf(z, hole) != null && TopOf(z, hole) in NodesC(z)
  {
    if z.up.Step? {
      TopOfCtx(z.up, z.node);
    }
  }

  // -------------------------------------------------------------- descending

  /** A subtree of the focus is again a red-black tree that fits its place. */
  lemma FitsDown(z: Ctx, t: Tree, h: nat) returns (h': nat)
    requires t.Bin? && RB(t, h) && Fits(z, h, ColorOf(t))
    ensures RB(t.left, h') && Fits(GoLeft(z, t), h', ColorOf(t.left))
    ensures RB(t.right, h') && Fits(GoRight(z, t), h', ColorOf(t.right))
  {
    h' := if t.color == Black then h - 1 else h;
  }

  ghost predicate Between(z: Ctx, k: int) { AllBelow(Before(z), k) && AllAbove(k, After(z)) }

  lemma BetweenDown(z: Ctx, t: Tree, k: int)
    requires t.Bin? && Sorted(Whole(z, t)) && Between(z, k)
    ensures k < t.key ==> Between(GoLeft(z, t), k)
    ensures t.key < k ==> Between(GoRight(z, t), k)
  {
    var b, e := |Before(z)| + |Inorder(t.left)|, Entry(t.node, t.key);
    var w := Whole(z, t);
    assert w[b] == e;
    if k < t.key {
      var a := After(GoLeft(z, t));
      assert a == w[b..];
      forall i | 0 <= i < |a| ensures k < a[i].key {
        assert a[i] == w[b + i];
      }
    }
    if t.key < k {
      var a := Before(GoRight(z, t));
      assert a == w[..b + 1];
      forall i | 0 <= i < |a| ensures a[i].key < k {
        assert a[i] == w[i];
      }
    }
  }

  // --------------------------------------------------- the least element below

  ghost function MinCtx(z: Ctx, t: Tree): Ctx
    requires t.Bin?
    decreases t
  {
    if t.left.Leaf? then z else MinCtx(GoLeft(z, t), t.left)
  }

  ghost function MinTree(t: Tree): (m: Tree)
    requires t.Bin?
    ensures m.Bin?
  {
    if t.left.Leaf? then t else MinTree(t.left)
  }

  /** `t` with the subtree at its least element replaced by `c`. */
  ghost function PlugMin(t: Tree, c: Tree): Tree
    requires t.Bin?
  {
    if t.left.Leaf? then c else t.(left := PlugMin(t.left, c))
  }

  ghost function DropMin(t: Tree): Tree
    requires t.Bin?
  {
    PlugMin(t, MinTree(t).right)
  }

  lemma {:induction false} MinFirst(t: Tree)
    requires t.Bin?
    ensures var m := MinTree(t); Inorder(t) == [Entry(m.node, m.key)] + Inorder(DropMin(t))
    ensures Nodes(t) == {MinTree(t).node} + Nodes(DropMin(t))
  {
    if t.left.Bin? {
      MinFirst(t.left);
    }
  }

  lemma {:induction false} FitsMin(z: Ctx, t: Tree, h: nat) returns (h': nat)
    requires t.Bin? && RB(t, h) && Fits(z, h, ColorOf(t))
    ensures RB(MinTree(t), h') && Fits(MinCtx(z, t), h', MinTree(t).color)
    decreases t
  {
    h' := h;
    if t.left.Bin? {
      h' := FitsDown(z, t, h);
      h' := FitsMin(GoLeft(z, t), t.left, h');
    }
  }

  /** Removing `old`, whose right subtree is not empty, by letting the least
      element of that subtree take its place. */
  ghost function Promote(t: Tree): Tree
    requires t.Bin? && t.right.Bin?
  {
    var m := MinTree(t.right);
    t.(node := m.node, key := m.key, right := DropMin(t.right))
  }

  lemma PromotedWhole(z: Ctx, t: Tree)
    requires t.Bin? && t.right.Bin?
    ensures var w, i := Whole(z, t), |Before(z)| + |Inorder(t.left)|;
      i < |w| && w[i].node == t.node && Whole(z, Promote(t)) == w[..i] + w[i + 1..]
  {
    var m := MinTree(t.right);
    MinFirst(t.right);
    CutOut(Before(z), Inorder(t.left), Entry(t.node, t.key), [Entry(m.node, m.key)] + Inorder(DropMin(t.right)), After(z));
    assert Inorder(t.left) + [Entry(m.node, m.key)] + Inorder(DropMin(t.right))
        == Inorder(t.left) + ([Entry(m.node, m.key)] + Inorder(DropMin(t.right)));
  }

  lemma CutOut(b: seq<Entry<Node>>, l: seq<Entry<Node>>, o: Entry<Node>, r: seq<Entry<Node>>, a: seq<Entry<Node>>)
    ensures var w, i := b + (l + [o] + r) + a, |b| + |l|;
      w[i] == o && b + (l + r) + a == w[..i] + w[i + 1..]
  {
    var w, i := b + (l + [o] + r) + a, |b| + |l|;
    assert w[..i] == b + l && w[i + 1..] == r + a;
  }

  lemma SplicedWhole(z: Ctx, t: Tree)
    requires t.Bin? && (t.left.Leaf? || t.right.Leaf?)
    ensures var c := if t.left.Leaf? then t.right else t.left;
      var w, i := Whole(z, t), |Before(z)| + |Inorder(t.left)|;
      i < |w| && w[i].node == t.node && Whole(z, c) == w[..i] + w[i + 1..]
  {
    hide Before, After, Inorder;
    CutOut(Before(z), Inorder(t.left), Entry(t.node, t.key), Inorder(t.right), After(z));
    SplicedOrder(t);
  }

  lemma SplicedOrder(t: Tree)
    requires t.Bin? && (t.left.Leaf? || t.right.Leaf?)
    ensures Inorder(t) == Inorder(t.left) + [Entry(t.node, t.key)] + Inorder(t.right)
    ensures Inorder(if t.left.Leaf? then t.right else t.left) == Inorder(t.left) + Inorder(t.right)
  {
  }

  lemma SortedRemove(w: seq<Entry<Node>>, i: nat)
    requires Sorted(w) && i < |w|
    ensures Sorted(w[..i] + w[i + 1..])
  {
  }

  /** Taking out an element with at most one child. */
  lemma SplicedRB(z: Ctx, t: Tree, h: nat)
    requires t.Bin? && RB(t, h) && Fits(z, h, t.color) && (t.left.Leaf? || t.right.Leaf?)
    ensures var c := if t.left.Leaf? then t.right else t.left;
      && Fits(z, h, Black)
      && (if t.color == Black then h > 0 && AlmostRB(c, h - 1) else RB(c, h) && !IsRed(c))
  {
    FitsBlack(z, h, t.color);
  }

  lemma InsertedSorted(z: Ctx, n: Node, k: int)
    requires Sorted(Whole(z, Leaf)) && Between(z, k)
    ensures var w, e, b := Whole(z, Leaf), Entry(n, k), |Before(z)|;
      && b <= |w| && Whole(z, Bin(Leaf, n, k, Red, Leaf)) == w[..b] + [e] + w[b..]
      && Sorted(w[..b] + [e] + w[b..]) && (forall i :: 0 <= i < |w| ==> w[i].key != k)
  {
    hide Sorted;
    var w, b, e := Whole(z, Leaf), |Before(z)|, Entry(n, k);
    assert Before(z) + [] + After(z) == Before(z) + After(z);
    assert w[..b] == Before(z) && w[b..] == After(z);
    SortedInsert(Before(z), e, After(z));
    assert [] + [e] + [] == [e];
  }

  /** The stored keys are the listed ones. */
  lemma {:induction false} KeysStored(t: Tree, p: Node?, m: Mem, i: nat)
    requires Linked(t, p, m) && i < |Inorder(t)|
    ensures Inorder(t)[i].node in m && m[Inorder(t)[i].node].key == Inorder(t)[i].key
  {
    var l := |Inorder(t.left)|;
    if i < l {
      KeysStored(t.left, t.node, m, i);
    } else if i > l {
      KeysStored(t.right, t.node, m, i - l - 1);
    }
  }

  lemma EntryAt(z: Ctx, t: Tree)
    requires t.Bin?
    ensures var i := |Before(z)| + |Inorder(t.left)|; i < |Whole(z, t)| && Whole(z, t)[i] == Entry(t.node, t.key)
  {
  }

  /** A red leaf belongs at the end of every search path. */
  lemma EmptyPlace(z: Ctx, h: nat)
    requires RB(Leaf, h) && Fits(z, h, Black)
    ensures Fits(z, 0, Black) && forall n: Node, k: int :: RB(Bin(Leaf, n, k, Red, Leaf), 0)
  {
  }

  /** The parent of the least element is found inside the subtree, unless the
      least element is the subtree's root. */
  lemma {:induction false} UpMin(z: Ctx, z': Ctx, t: Tree)
    requires t.Bin? && t.left.Bin?
    ensures Up(MinCtx(z, t)) == Up(MinCtx(z', t)) && Up(MinCtx(z, t)) != null && Up(MinCtx(z, t)) in Nodes(t)
    decreases t
  {
    if t.left.left.Bin? {
      UpMin(GoLeft(z, t), GoLeft(z', t), t.left);
    }
  }

  /** Colours and heights do not depend on which element takes the place. */
  lemma FitsPromoted(z: Ctx, t: Tree, h: nat) returns (h': nat)
    requires t.Bin? && t.right.Bin? && RB(t, h) && Fits(z, h, ColorOf(t))
    ensures RB(MinTree(t.right), h') && Fits(MinCtx(GoRight(z, Promote(t)), t.right), h', MinTree(t.right).color)
  {
    h' := FitsDown(z, t, h);
    h' := FitsMin(GoRight(z, Promote(t)), t.right, h');
  }

  lemma {:induction false} MinLeft(t: Tree)
    requires t.Bin?
    ensures MinTree(t).left.Leaf?
  {
    if t.left.Bin? { MinLeft(t.left); }
  }

  lemma PromotedNodes(z: Ctx, t: Tree)
    requires t.Bin? && t.right.Bin? && t.node !in Nodes(t.left) + Nodes(t.right) + NodesC(z)
    ensures Nodes(Promote(t)) + NodesC(z) == Nodes(t) + NodesC(z) - {t.node}
  {
    MinFirst(t.right);
  }

  lemma RootHolding(t: Tree)
    ensures Holding(Root, t) == (Inorder(t), Nodes(t)) && Whole(Root, t) == Inorder(t) && NodesC(Root) == {}
    ensures NextOf(Root) == null && PrevOf(Root) == null
  {
    assert Whole(Root, t) == Inorder(t);
    assert Nodes(t) + NodesC(Root) == Nodes(t);
  }

  // ------------------------------------------------------------------ height

  ghost function Height(t: Tree): nat {
    if t.Leaf? then 0 else 1 + if Height(t.left) < Height(t.right) then Height(t.right) else Height(t.left)
  }

  ghost function Pow2(n: nat): nat { if n == 0 then 1 else 2 * Pow2(n - 1) }

  lemma {:induction false} HeightByBlack(t: Tree, h: nat)
    requires RB(t, h)
    ensures Height(t) <= 2 * h + (if IsRed(t) then 1 else 0)
  {
    if t.Bin? {
      var h' := if t.color == Black then h - 1 else h;
      HeightByBlack(t.left, h');
      HeightByBlack(t.right, h');
    }
  }

  lemma {:induction false} SizeByBlack(t: Tree, h: nat)
    requires RB(t, h)
    ensures Pow2(h) <= |Inorder(t)| + 1
  {
    if t.Bin? {
      var h' := if t.color == Black then h - 1 else h;
      SizeByBlack(t.left, h');
      SizeByBlack(t.right, h');
    }
  }

  lemma {:induction false} Pow2Double(h: nat)
    ensures Pow2(2 * h) == Pow2(h) * Pow2(h)
  {
    if h > 0 {
      Pow2Double(h - 1);
      assert Pow2(2 * h) == 4 * Pow2(2 * (h - 1)) by { assert Pow2(2 * h) == 2 * Pow2(2 * h - 1); }
    }
  }

  lemma {:induction false} Pow2Grows(a: nat, b: nat)
    requires a <= b
    ensures Pow2(a) <= Pow2(b)
  {
    if a < b { Pow2Grows(a, b - 1); }
  }

  /** The height of a red-black tree of n elements is at most 2 lg (n + 1). */
  lemma HeightBound(t: Tree, h: nat)
    requires RB(t, h) && !IsRed(t)
    ensures var n := |Inorder(t)|; Pow2(Height(t)) <= (n + 1) * (n + 1)
  {
    var n := |Inorder(t)|;
    HeightByBlack(t, h);
    SizeByBlack(t, h);
    Pow2Grows(Height(t), 2 * h);
    Pow2Double(h);
    assert Pow2(h) * Pow2(h) <= (n + 1) * (n + 1) by { SquareGrows(Pow2(h), n + 1); }
  }

  lemma SquareGrows(a: nat, b: nat)
    requires a <= b
    ensures a * a <= b * b
  {
    assert a * a <= a * b <= b * b;
  }

  // ---------------------------------------------------------------- look-ups

  /** The element after, and the one before, everything below the focus. */
  ghost function NextOf(z: Ctx): Node? { if After(z) == [] then null else After(z)[0].node }

  ghost function PrevOf(z: Ctx): Node? { if Before(z) == [] then null else Before(z)[|Before(z)| - 1].node }

  ghost function NodeAt(w: seq<Entry<Node>>, i: int): Node? { if 0 <= i < |w| then w[i].node else null }

  lemma Neighbours(z: Ctx, t: Tree)
    requires t.Bin?
    ensures NextOf(GoLeft(z, t)) == t.node && NextOf(GoRight(z, t)) == NextOf(z)
    ensures PrevOf(GoRight(z, t)) == t.node && PrevOf(GoLeft(z, t)) == PrevOf(z)
  {
  }

  lemma NeighboursIndex(z: Ctx, t: Tree)
    ensures var w, b := Whole(z, t), |Before(z)|;
      NodeAt(w, b + |Inorder(t)|) == NextOf(z) && NodeAt(w, b - 1) == PrevOf(z)
  {
  }

  /** Where a search for `k` that ends in an empty place stands. */
  lemma SplitByKey(z: Ctx, k: int)
    requires Between(z, k)
    ensures var w, b := Whole(z, Leaf), |Before(z)|;
      && b <= |w| && (forall i :: 0 <= i < b ==> w[i].key < k) && (forall i :: b <= i < |w| ==> k < w[i].key)
      && NodeAt(w, b) == NextOf(z)
  {
    var w, b := Whole(z, Leaf), |Before(z)|;
    forall i | b <= i < |w| ensures k < w[i].key { assert w[i] == After(z)[i - b]; }
  }

  lemma SplitAtKey(z: Ctx, t: Tree)
    requires t.Bin? && Sorted(Whole(z, t))
    ensures var w, i := Whole(z, t), |Before(z)| + |Inorder(t.left)|;
      && i < |w| && NodeAt(w, i) == t.node
      && (forall j :: 0 <= j < i ==> w[j].key < t.key) && (forall j :: i <= j < |w| ==> t.key <= w[j].key)
  {
    EntryAt(z, t);
  }

  /** The path `z` has only turned to the given side. */
  ghost predicate Edge(z: Ctx, side: Side) { z.Step? ==> z.side == side && Edge(z.up, side) }

  lemma {:induction false} EdgeEnds(z: Ctx, side: Side)
    requires Edge(z, side)
    ensures var w := Whole(z, Leaf);
      && (w == [] <==> z.Root?)
      && Up(z) == (if side == L then NodeAt(w, 0) else NodeAt(w, |w| - 1))
      && (if side == L then Before(z) == [] else After(z) == [])
  {
    if z.Step? {
      EdgeEnds(z.up, side);
    }
  }

  /** Where the focus begins and ends in the key order, one step up. */
  lemma Climb(z: Ctx, t: Tree)
    requires z.Step?
    ensures z.side == R ==> |Before(z.up)| + |Inorder(Join(z, t))| == |Before(z)| + |Inorder(t)| && PrevOf(z) == z.node
    ensures z.side == L ==> |Before(z.up)| == |Before(z)| && NextOf(z) == z.node
  {
  }

  lemma FirstBelow(z: Ctx, t: Tree)
    requires t.Bin?
    ensures t.left.Leaf? ==> NodeAt(Whole(z, t), |Before(z)|) == t.node
    ensures t.right.Leaf? ==> NodeAt(Whole(z, t), |Before(z)| + |Inorder(t)| - 1) == t.node
    ensures |Before(GoLeft(z, t))| == |Before(z)|
    ensures |Before(GoRight(z, t))| + |Inorder(t.right)| == |Before(z)| + |Inorder(t)|
    ensures |Before(GoRight(z, t))| == |Before(z)| + |Inorder(t.left)| + 1
    ensures t.left.Leaf? ==> |Inorder(t.left)| == 0
    ensures t.right.Leaf? ==> |Inorder(t)| == |Inorder(t.left)| + 1
  {
    EntryAt(z, t);
  }
}
