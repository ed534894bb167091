/** The meaning of the timer wheel: every pending timer node counts down, and
    fires on the tick that finds it at zero. */
module Countdowns {

  datatype Countdown = Countdown(ut: int, remaining: nat)

  ghost function TickAll<N>(m: map<N, Countdown>): map<N, Countdown> {
    map n | n in m && m[n].remaining > 0 :: m[n].(remaining := m[n].remaining - 1)
  }

  ghost function Fired<N>(m: map<N, Countdown>): set<N> {
    set n | n in m && m[n].remaining == 0
  }

  // ------------------------------------------------------------ whole runs

  datatype Op<N> = OnTick | OnAdd(node: N, len: nat, ut: int)

  ghost function Apply<N>(m: map<N, Countdown>, op: Op<N>): map<N, Countdown> {
    match op
    case OnTick => TickAll(m)
    case OnAdd(n, len, ut) => m[n := Countdown(ut, len)]
  }

  ghost function Run<N>(m: map<N, Countdown>, ops: seq<Op<N>>): map<N, Countdown> {
    if ops == [] then m else Apply(Run(m, ops[..|ops| - 1]), ops[|ops| - 1])
  }

  ghost function Ticks<N>(ops: seq<Op<N>>): nat {
    if ops == [] then 0 else Ticks(ops[..|ops| - 1]) + if ops[|ops| - 1].OnTick? then 1 else 0
  }

  /** The node `n` fires at step `i` of the run. */
  ghost predicate FiresAt<N>(m: map<N, Countdown>, ops: seq<Op<N>>, n: N, i: nat)
    requires i < |ops|
  {
    ops[i].OnTick? && n in Fired(Run(m, ops[..i]))
  }

  ghost predicate NeverAdded<N(!new)>(ops: seq<Op<N>>, n: N) {
    forall i :: 0 <= i < |ops| && ops[i].OnAdd? ==> ops[i].node != n
  }

  /** While fewer than len + 1 ticks have passed the node is pending with the
      rest of its time; afterwards it is gone. */
  lemma {:induction false} Remaining<N(!new)>(m: map<N, Countdown>, ops: seq<Op<N>>, n: N)
    requires n in m && NeverAdded(ops, n)
    ensures var r, t := Run(m, ops), Ticks(ops);
      if t <= m[n].remaining then n in r && r[n] == m[n].(remaining := m[n].remaining - t) else n !in r
  {
    if ops != [] {
      var front := ops[..|ops| - 1];
      assert forall i :: 0 <= i < |front| ==> front[i] == ops[i];
      Remaining(m, front, n);
    }
  }

  /** A node added with any len >= 0 fires on the (len + 1)-th following tick,
      and on no other step of any run. */
  lemma FiresOnce<N(!new)>(m: map<N, Countdown>, n: N, len: nat, ut: int, ops: seq<Op<N>>, i: nat)
    requires NeverAdded(ops, n) && i < |ops|
    ensures FiresAt(Apply(m, OnAdd(n, len, ut)), ops, n, i) <==> ops[i].OnTick? && Ticks(ops[..i + 1]) == len + 1
  {
    assert ops[..i + 1][..i] == ops[..i];
    Remaining(Apply(m, OnAdd(n, len, ut)), ops[..i], n);
  }
}

module TimerWheel {
  import opened Countdowns

  const TIME_WHEEL_SIZE := 10

  class TimerNode {
    var next: TimerNode?
    var rotation: int
    const ut: int

    constructor (ut: int, rotation: int, next: TimerNode?)
      ensures this.ut == ut && this.rotation == rotation && this.next == next
    {
      this.ut, this.rotation, this.next := ut, rotation, next;
    }
  }

  /** What is stored in a node, and the slot whose list it is on. */
  datatype Cell = Cell(ut: int, rotation: nat, next: TimerNode?, pos: nat)

  type Cells = map<TimerNode, Cell>

  ghost function LastOf(l: seq<TimerNode>): TimerNode? { if l == [] then null else l[|l| - 1] }

  ghost function NodeAt(l: seq<TimerNode>, i: nat): TimerNode? { if i < |l| then l[i] else null }

  ghost predicate Distinct(l: seq<TimerNode>) { forall i, j :: 0 <= i < j < |l| ==> l[i] != l[j] }

  /** The element with index `j` is stored in slot `s` and points to the next one. */
  ghost predicate Points(l: seq<TimerNode>, j: nat, s: nat, m: Cells)
    requires j < |l|
  {
    l[j] in m && m[l[j]].pos == s && m[l[j]].next == NodeAt(l, j + 1)
  }

  /** `l` is the list, all of slot `s`, that the next pointers spell from `head`. */
  ghost predicate Chain(l: seq<TimerNode>, head: TimerNode?, s: nat, m: Cells) {
    head == NodeAt(l, 0) && Distinct(l) && forall j :: 0 <= j < |l| ==> Points(l, j, s, m)
  }

  ghost predicate WellFormed(lists: seq<seq<TimerNode>>, heads: seq<TimerNode?>, m: Cells) {
    && |lists| == |heads| == TIME_WHEEL_SIZE
    && (forall n :: n in m ==> m[n].pos < TIME_WHEEL_SIZE && n in lists[m[n].pos])
    && (forall s :: 0 <= s < TIME_WHEEL_SIZE ==> Chain(lists[s], heads[s], s, m))
  }

  /** The coroutines of fired nodes that asked to be signalled. */
  ghost function Signalled(fired: seq<TimerNode>, armed: set<int>): seq<int> {
    if fired == [] then []
    else
      var n := fired[|fired| - 1];
      Signalled(fired[..|fired| - 1], armed) + if n.ut in armed then [n.ut] else []
  }

  /** Ticks until the wheel stands at slot `pos` with `rotation` rounds used up. */
  ghost function Wait(pos: nat, current: nat, rotation: nat): nat
    requires pos < TIME_WHEEL_SIZE && current < TIME_WHEEL_SIZE
  {
    (if current <= pos then pos - current else pos + TIME_WHEEL_SIZE - current) + TIME_WHEEL_SIZE * rotation
  }

  lemma WaitOfNew(len: nat, current: nat)
    requires current < TIME_WHEEL_SIZE
    ensures Wait((len + current) % TIME_WHEEL_SIZE, current, len / TIME_WHEEL_SIZE) == len
  {
    var q, r := len / TIME_WHEEL_SIZE, len % TIME_WHEEL_SIZE;
    assert len + current == TIME_WHEEL_SIZE * q + (r + current);
    if r + current >= TIME_WHEEL_SIZE {
      assert len + current == TIME_WHEEL_SIZE * (q + 1) + (r + current - TIME_WHEEL_SIZE);
    }
  }

  lemma WaitAfterTick(pos: nat, current: nat, rotation: nat)
    requires pos < TIME_WHEEL_SIZE && current < TIME_WHEEL_SIZE
    ensures var c := (current + 1) % TIME_WHEEL_SIZE;
      && (pos != current ==> 0 < Wait(pos, current, rotation) && Wait(pos, c, rotation) == Wait(pos, current, rotation) - 1)
      && (pos == current && rotation > 0 ==>
            0 < Wait(pos, current, rotation) && Wait(pos, c, rotation - 1) == Wait(pos, current, rotation) - 1)
      && (pos == current && rotation == 0 ==> Wait(pos, current, rotation) == 0)
  {
  }

  /** Every node with the number of ticks it still has to wait. */
  ghost function Waits(m: Cells, current: nat): map<TimerNode, Countdown>
    requires current < TIME_WHEEL_SIZE
  {
    map n | n in m && m[n].pos < TIME_WHEEL_SIZE :: Countdown(m[n].ut, Wait(m[n].pos, current, m[n].rotation))
  }

  /** add_timer on the stored data. */
  lemma Added(lists: seq<seq<TimerNode>>, heads: seq<TimerNode?>, m: Cells, current: nat, n: TimerNode, len: nat, ut: int)
    requires WellFormed(lists, heads, m) && n !in m && current < TIME_WHEEL_SIZE
    ensures var s := (len + current) % TIME_WHEEL_SIZE;
      var m' := m[n := Cell(ut, len / TIME_WHEEL_SIZE, heads[s], s)];
      && WellFormed(lists[s := [n] + lists[s]], heads[s := n], m')
      && Waits(m', current) == Waits(m, current)[n := Countdown(ut, len)]
  {
    var s := (len + current) % TIME_WHEEL_SIZE;
    var m' := m[n := Cell(ut, len / TIME_WHEEL_SIZE, heads[s], s)];
    WaitOfNew(len, current);
    ChainCons(lists[s], heads[s], s, m, n, m');
    forall s' | 0 <= s' < TIME_WHEEL_SIZE && s' != s ensures Chain(lists[s'], heads[s'], s', m') {
      ChainFrame(lists[s'], heads[s'], s', m, m');
    }
  }

  lemma ChainFrame(l: seq<TimerNode>, head: TimerNode?, s: nat, m: Cells, m': Cells)
    requires Chain(l, head, s, m) && forall n :: n in m && m[n].pos == s ==> n in m' && m'[n] == m[n]
    ensures Chain(l, head, s, m')
  {
    forall j | 0 <= j < |l| ensures Points(l, j, s, m') {
      assert Points(l, j, s, m);
    }
  }

  lemma ChainCons(l: seq<TimerNode>, head: TimerNode?, s: nat, m: Cells, n: TimerNode, m': Cells)
    requires Chain(l, head, s, m) && n !in m && n in m' && m'[n].pos == s && m'[n].next == head
    requires forall x :: x in m ==> x in m' && m'[x] == m[x]
    ensures Chain([n] + l, n, s, m')
  {
    var l' := [n] + l;
    forall j | 0 <= j < |l'| ensures Points(l', j, s, m') {
      if j > 0 { assert Points(l, j - 1, s, m); }
    }
    forall i, j | 0 <= i < j < |l'| ensures l'[i] != l'[j] {
      assert Points(l, j - 1, s, m);
    }
  }

  // --------------------------------------------------------- one tick's sweep

  /** How far the sweep of slot `s` has come from the cells `m0`: the `fired`
      nodes are gone, the `kept` ones have used up one rotation, the rest wait. */
  ghost predicate Swept(m0: Cells, m: Cells, s: nat, kept: seq<TimerNode>, fired: seq<TimerNode>) {
    && (forall n :: n in m0 ==> n in m || n in fired) && (forall n :: n in m ==> n in m0)
    && (forall n :: n in fired ==> n !in m && n in m0 && m0[n].pos == s && m0[n].rotation == 0)
    && (forall n :: n in kept ==> n in m)
    && (forall n :: n in m && n in m0 ==>
          && m[n].ut == m0[n].ut && m[n].pos == m0[n].pos
          && m0[n].rotation == m[n].rotation + (if n in kept then 1 else 0))
  }

  lemma SweptKeep(m0: Cells, m: Cells, s: nat, kept: seq<TimerNode>, fired: seq<TimerNode>, c: TimerNode)
    requires Swept(m0, m, s, kept, fired) && c in m && c !in kept && m[c].rotation > 0
    ensures Swept(m0, m[c := m[c].(rotation := m[c].rotation - 1)], s, kept + [c], fired)
  {
  }

  lemma SweptDrop(m0: Cells, m: Cells, s: nat, kept: seq<TimerNode>, fired: seq<TimerNode>, c: TimerNode, m': Cells)
    requires Swept(m0, m, s, kept, fired) && c in m && c !in kept && m[c].pos == s && m[c].rotation == 0
    requires m'.Keys == m.Keys - {c} && forall n :: n in m' && n in m ==> m'[n] == m[n].(next := m'[n].next)
    ensures Swept(m0, m', s, kept, fired + [c])
  {
    assert forall n :: n in m' <==> n in m && n != c;
  }

  /** The sweep of a whole slot is one tick of every countdown. */
  lemma SweptAll(m0: Cells, m: Cells, s: nat, kept: seq<TimerNode>, fired: seq<TimerNode>)
    requires Swept(m0, m, s, kept, fired) && s < TIME_WHEEL_SIZE
    requires forall n :: n in m && m[n].pos == s ==> n in kept
    requires forall n :: n in kept ==> n in m && m[n].pos == s
    ensures Waits(m, (s + 1) % TIME_WHEEL_SIZE) == TickAll(Waits(m0, s))
    ensures (set n | n in fired) == Fired(Waits(m0, s))
  {
    hide Wait;
    forall n | n in m0 && m0[n].pos < TIME_WHEEL_SIZE
      ensures Wait(m0[n].pos, s, m0[n].rotation) == 0 <==> n in fired
      ensures n in m ==> Wait(m0[n].pos, s, m0[n].rotation) - 1 == Wait(m[n].pos, (s + 1) % TIME_WHEEL_SIZE, m[n].rotation)
    {
      WaitAfterTick(m0[n].pos, s, m0[n].rotation);
    }
  }

  lemma WellFormedKeep(lists: seq<seq<TimerNode>>, heads: seq<TimerNode?>, m: Cells, c: TimerNode)
    requires WellFormed(lists, heads, m) && c in m && m[c].rotation > 0
    ensures WellFormed(lists, heads, m[c := m[c].(rotation := m[c].rotation - 1)])
  {
    var m' := m[c := m[c].(rotation := m[c].rotation - 1)];
    forall s | 0 <= s < TIME_WHEEL_SIZE ensures Chain(lists[s], heads[s], s, m') {
      forall j | 0 <= j < |lists[s]| ensures Points(lists[s], j, s, m') {
        assert Points(lists[s], j, s, m);
      }
    }
  }

  /** Unlinking the node after `prev`, or the head of the list when `prev` is null. */
  ghost function Without(m: Cells, prev: TimerNode?, c: TimerNode): Cells
    requires c in m && (prev != null ==> prev in m)
  {
    (if prev == null then m else m[prev := m[prev].(next := m[c].next)]) - {c}
  }

  /** Unlinking the element with index `k`. */
  lemma ChainCut(l: seq<TimerNode>, k: nat, head: TimerNode?, s: nat, m: Cells)
    requires k < |l| && Chain(l, head, s, m)
    ensures var c, prev := l[k], if k == 0 then null else l[k - 1];
      && c in m && (prev != null ==> prev in m && prev != c)
      && Chain(l[..k] + l[k + 1..], if k == 0 then m[c].next else head, s, Without(m, prev, c))
  {
    var c, prev, l' := l[k], if k == 0 then null else l[k - 1], l[..k] + l[k + 1..];
    assert Points(l, k, s, m) && (k > 0 ==> Points(l, k - 1, s, m));
    var m' := Without(m, prev, c);
    forall j | 0 <= j < |l'| ensures Points(l', j, s, m') {
      var i := if j < k then j else j + 1;
      assert Points(l, i, s, m) && l'[j] == l[i] != c;
    }
    forall i, j | 0 <= i < j < |l'| ensures l'[i] != l'[j] {
      assert l'[i] == l[if i < k then i else i + 1] && l'[j] == l[if j < k then j else j + 1];
    }
  }

  lemma StillIn(kept: seq<TimerNode>, rest: seq<TimerNode>, n: TimerNode)
    requires rest != [] && n in kept + rest && n != rest[0]
    ensures n in kept + rest[1..]
  {
    assert rest == [rest[0]] + rest[1..];
  }

  lemma WellFormedDrop(lists: seq<seq<TimerNode>>, heads: seq<TimerNode?>, m: Cells,
                       s: nat, kept: seq<TimerNode>, rest: seq<TimerNode>)
    requires WellFormed(lists, heads, m) && s < TIME_WHEEL_SIZE && lists[s] == kept + rest && rest != []
    ensures var c, prev := rest[0], LastOf(kept);
      && c in m && m[c].pos == s && (prev != null ==> prev in m && prev != c)
      && WellFormed(lists[s := kept + rest[1..]], if prev == null then heads[s := m[c].next] else heads, Without(m, prev, c))
  {
    hide Distinct;
    var c, prev := rest[0], LastOf(kept);
    var l, k := lists[s], |kept|;
    assert l[k] == c && (kept != [] ==> l[k - 1] == prev) && l[..k] == kept && l[k + 1..] == rest[1..];
    assert Points(l, k, s, m) && (k > 0 ==> Points(l, k - 1, s, m));
    ChainCut(l, k, heads[s], s, m);
    var m' := Without(m, prev, c);
    forall s' | 0 <= s' < TIME_WHEEL_SIZE && s' != s ensures Chain(lists[s'], heads[s'], s', m') {
      ChainFrame(lists[s'], heads[s'], s', m, m');
    }
    forall n | n in m' && m'[n].pos == s ensures n in kept + rest[1..] {
      StillIn(kept, rest, n);
    }
  }

  class Wheel {
    const slot: array<TimerNode?>
    var current: nat
    ghost var lists: seq<seq<TimerNode>>
    ghost var cells: Cells

    ghost predicate Valid()
      reads this, slot, cells.Keys
    {
      && current < TIME_WHEEL_SIZE == |lists| == slot.Length && WellFormed(lists, slot[..], cells)
      && (forall n :: n in cells ==> n.ut == cells[n].ut && n.rotation == cells[n].rotation && n.next == cells[n].next)
    }

    ghost function Pending(): map<TimerNode, Countdown>
      requires Valid()
      reads this, slot, cells.Keys
    {
      Waits(cells, current)
    }

    constructor ()
      ensures Valid() && Pending() == map[] && fresh(slot) && cells == map[]
    {
      slot := new TimerNode?[TIME_WHEEL_SIZE](_ => null);
      current := 0;
      lists := seq(TIME_WHEEL_SIZE, _ => []);
      cells := map[];
    }

    /** add_timer: one more countdown of `len`, and no other change. */
    method AddTimer(len: int, ut: int) returns (node: TimerNode)
      requires Valid() && len >= 0
      modifies this, slot
      ensures Valid() && fresh(node) && cells.Keys == old(cells.Keys) + {node} && current == old(current)
      ensures Pending() == old(Pending())[node := Countdown(ut, len)]
    {
      hide WellFormed, Waits;
      var pos := (len + current) % TIME_WHEEL_SIZE;
      node := new TimerNode(ut, len / TIME_WHEEL_SIZE, slot[pos]);
      Added(lists, slot[..], cells, current, node, len, ut);
      lists := lists[pos := [node] + lists[pos]];
      cells := cells[node := Cell(ut, len / TIME_WHEEL_SIZE, slot[pos], pos)];
      ghost var heads := slot[..];
      slot[pos] := node;
      assert slot[..] == heads[pos := node];
    }

    /** The cursor passes a node that has rounds left. */
    method KeepNode(curr: TimerNode, ghost kept: seq<TimerNode>, ghost rest: seq<TimerNode>,
                    ghost m0: Cells, ghost fired: seq<TimerNode>)
      requires Valid() && lists[current] == kept + rest && NodeAt(rest, 0) == curr && curr.rotation > 0
      requires Swept(m0, cells, current, kept, fired)
      modifies `cells, curr`rotation
      ensures Valid() && cells.Keys == old(cells.Keys)
      ensures Swept(m0, cells, current, kept + [curr], fired)
    {
      hide WellFormed, Waits, Swept;
      SeeChain(lists, slot[..], cells, current, kept, rest);
      SweptKeep(m0, cells, current, kept, fired, curr);
      WellFormedKeep(lists, slot[..], cells, curr);
      curr.rotation := curr.rotation - 1;
      cells := cells[curr := cells[curr].(rotation := curr.rotation)];
    }

    /** The cursor, which stands after `prev`, unlinks a node that has none left. */
    method DropNode(prev: TimerNode?, curr: TimerNode, ghost kept: seq<TimerNode>, ghost rest: seq<TimerNode>,
                    ghost m0: Cells, ghost fired: seq<TimerNode>)
      requires Valid() && lists[current] == kept + rest && NodeAt(rest, 0) == curr && curr.rotation == 0
      requires Swept(m0, cells, current, kept, fired) && prev == LastOf(kept)
      modifies `cells, `lists, slot, prev
      ensures Valid() && cells.Keys <= old(cells.Keys) && curr !in fired
      ensures Swept(m0, cells, current, kept, fired + [curr]) && lists[current] == kept + rest[1..]
    {
      hide WellFormed, Waits, Swept;
      SeeChain(lists, slot[..], cells, current, kept, rest);
      WellFormedDrop(lists, slot[..], cells, current, kept, rest);
      SweptDrop(m0, cells, current, kept, fired, curr, Without(cells, prev, curr));
      FiredOnce(m0, cells, current, kept, fired, curr);
      lists := lists[current := kept + rest[1..]];
      cells := Without(cells, prev, curr);
      ghost var heads := slot[..];
      if prev == null {
        slot[current] := curr.next;
        assert slot[..] == heads[current := curr.next];
      } else {
        prev.next := curr.next;
      }
    }

    /** tick: every countdown at zero fires, once, and every other loses one. */
    method Tick(armed: set<int>) returns (signals: seq<int>, ghost fired: seq<TimerNode>)
      requires Valid()
      modifies this, slot, cells.Keys
      ensures Valid() && current == (old(current) + 1) % TIME_WHEEL_SIZE && cells.Keys <= old(cells.Keys)
      ensures Pending() == TickAll(old(Pending()))
      ensures (set n | n in fired) == Fired(old(Pending())) && Distinct(fired)
      ensures signals == Signalled(fired, armed)
    {
      hide WellFormed, Waits, Swept, Distinct, Fired, TickAll;
      DistinctEmpty();
      ghost var m0, kept: seq<TimerNode>, rest := cells, [], lists[current];
      assert kept + rest == lists[current];
      signals, fired := [], [];
      SweptStart(m0, current);
      SeeChain(lists, slot[..], cells, current, kept, rest);
      var prev: TimerNode? := null;
      var curr := slot[current];
      while curr != null
        invariant Valid() && current == old(current) && lists[current] == kept + rest && cells.Keys <= m0.Keys
        invariant Swept(m0, cells, current, kept, fired)
        invariant prev == LastOf(kept) && curr == NodeAt(rest, 0)
        invariant signals == Signalled(fired, armed) && Distinct(fired)
        decreases |rest|
      {
        SeeChain(lists, slot[..], cells, current, kept, rest);
        if curr.rotation > 0 {
          KeepNode(curr, kept, rest, m0, fired);
          assert kept + rest == (kept + [curr]) + rest[1..];
          kept := kept + [curr];
          prev := curr;
        } else {
          if curr.ut in armed {
            signals := signals + [curr.ut];
          }
          DropNode(prev, curr, kept, rest, m0, fired);
          DistinctSnoc(fired, curr);
          fired := fired + [curr];
        }
        rest := rest[1..];
        SeeChain(lists, slot[..], cells, current, kept, rest);
        curr := if prev == null then slot[current] else prev.next;
      }
      SweepEnds(lists, slot[..], cells, current, kept, rest);
      SweptAll(m0, cells, current, kept, fired);
      current := (current + 1) % TIME_WHEEL_SIZE;
    }
  }

  lemma DistinctSnoc(l: seq<TimerNode>, n: TimerNode)
    requires Distinct(l) && n !in l
    ensures Distinct(l + [n])
  {
  }

  lemma DistinctEmpty()
    ensures Distinct([])
  {
  }

  lemma SweptStart(m: Cells, s: nat)
    ensures Swept(m, m, s, [], [])
  {
  }

  lemma FiredOnce(m0: Cells, m: Cells, s: nat, kept: seq<TimerNode>, fired: seq<TimerNode>, c: TimerNode)
    requires Swept(m0, m, s, kept, fired) && c in m
    ensures c !in fired
  {
  }

  /** What the cursor finds in slot `s` after `kept` nodes. */
  lemma SeeChain(lists: seq<seq<TimerNode>>, heads: seq<TimerNode?>, m: Cells, s: nat, kept: seq<TimerNode>, rest: seq<TimerNode>)
    requires WellFormed(lists, heads, m) && s < TIME_WHEEL_SIZE && |lists| == |heads| == TIME_WHEEL_SIZE
    requires lists[s] == kept + rest
    ensures var p := LastOf(kept); if p == null then heads[s] == NodeAt(rest, 0) else p in m && m[p].next == NodeAt(rest, 0)
    ensures rest != [] ==> rest[0] in m && rest[0] !in kept
  {
    var l := lists[s];
    assert Chain(l, heads[s], s, m);
    assert rest != [] ==> Points(l, |kept|, s, m);
    assert kept != [] ==> Points(l, |kept| - 1, s, m);
    assert forall j :: 0 <= j < |kept| ==> l[j] == kept[j];
    assert rest != [] ==> l[|kept|] == rest[0];
    assert kept != [] ==> l[|kept| - 1] == kept[|kept| - 1] && NodeAt(l, |kept|) == NodeAt(rest, 0);
  }

  lemma SweepEnds(lists: seq<seq<TimerNode>>, heads: seq<TimerNode?>, m: Cells, s: nat, kept: seq<TimerNode>, rest: seq<TimerNode>)
    requires WellFormed(lists, heads, m) && s < TIME_WHEEL_SIZE && |lists| == TIME_WHEEL_SIZE
    requires lists[s] == kept + rest && NodeAt(rest, 0) == null
    ensures forall n :: n in m && m[n].pos == s ==> n in kept
    ensures forall n :: n in kept ==> n in m && m[n].pos == s
  {
    assert lists[s] == kept && Chain(kept, heads[s], s, m);
    forall n | n in kept ensures n in m && m[n].pos == s {
      var j :| 0 <= j < |kept| && kept[j] == n;
      assert Points(kept, j, s, m);
    }
  }
}

/** The wheel as the scheduler uses it: the pending timer nodes have numbers. */
module Timers {
  import opened Countdowns
  import opened TimerWheel

  class TimerSet {
    const wheel: Wheel
    ghost var number: map<TimerNode, nat>
    ghost var pending: map<nat, Countdown>
    ghost var next: nat
    ghost var Repr: set<object>

    ghost predicate Valid()
      reads this, Repr
    {
      && this in Repr && wheel in Repr && wheel.slot in Repr && wheel.cells.Keys <= Repr
      && wheel.Valid() && Numbered(wheel.Pending(), number, pending) && forall j :: j in pending ==> j < next
    }

    constructor ()
      ensures Valid() && pending == map[] && next == 0 && fresh(Repr)
    {
      var w := new Wheel();
      wheel, number, pending, next, Repr := w, map[], map[], 0, {this, w, w.slot};
    }

    /** add_timer, with the length that _uthread_resume gives it. */
    method Add(ut: int)
      requires Valid()
      modifies Repr
      ensures Valid() && old(Repr) <= Repr && fresh(Repr - old(Repr))
      ensures pending == old(pending)[old(next) := Countdown(ut, 1)] && next == old(next) + 1
    {
      hide Wheel.Valid, Numbered;
      var node := wheel.AddTimer(1, ut);
      NumberedAdd(old(wheel.Pending()), number, pending, node, next, Countdown(ut, 1));
      number, pending := number[node := next], pending[next := Countdown(ut, 1)];
      next, Repr := next + 1, Repr + {node};
    }

    /** tick: who is signalled is who is armed and has a node that is due. */
    method Tick(armed: set<int>) returns (signals: seq<int>)
      requires Valid()
      modifies Repr
      ensures Valid() && Repr == old(Repr) && next == old(next)
      ensures pending == TickAll(old(pending))
      ensures forall u :: u in signals <==> u in armed && exists j :: j in old(pending) && old(pending)[j] == Countdown(u, 0)
    {
      hide Wheel.Valid, Numbered, TickAll, Fired, Signalled;
      ghost var m, fired := wheel.Pending(), [];
      PendingUt(wheel);
      signals, fired := wheel.Tick(armed);
      NumberedTick(m, number, pending);
      forall u ensures u in signals <==> u in armed && exists j :: j in pending && pending[j] == Countdown(u, 0) {
        WhoIsSignalled(fired, armed, u);
        DueNumbers(m, number, pending, fired, u);
      }
      number, pending := StillNumbered(m, number), TickAll(pending);
    }
  }

  /** `pending` is `m` under the numbers of its nodes. */
  ghost predicate Numbered(m: map<TimerNode, Countdown>, number: map<TimerNode, nat>, pending: map<nat, Countdown>) {
    && number.Keys == m.Keys && number.Values == pending.Keys
    && (forall n :: n in number && n in m && number[n] in pending ==> pending[number[n]] == m[n])
    && (forall n, n' :: n in number && n' in number && number[n] == number[n'] ==> n == n')
  }

  lemma PendingUt(wheel: Wheel)
    requires wheel.Valid()
    ensures forall n :: n in wheel.Pending() ==> wheel.Pending()[n].ut == n.ut
  {
  }

  /** The numbers of the nodes that a tick leaves. */
  ghost function StillNumbered(m: map<TimerNode, Countdown>, number: map<TimerNode, nat>): map<TimerNode, nat> {
    map n | n in number && n in m && m[n].remaining > 0 :: number[n]
  }

  lemma NumberedTick(m: map<TimerNode, Countdown>, number: map<TimerNode, nat>, pending: map<nat, Countdown>)
    requires Numbered(m, number, pending)
    ensures Numbered(TickAll(m), StillNumbered(m, number), TickAll(pending)) && TickAll(pending).Keys <= pending.Keys
  {
    var number' := StillNumbered(m, number);
    forall n | n in number' ensures number'[n] in TickAll(pending) && number'[n] in number'.Values {
      assert number[n] in number.Values;
    }
    forall j | j in TickAll(pending) ensures j in number'.Values {
      assert j in number.Values;
      var n :| n in number && number[n] == j;
      assert number'[n] == j;
    }
  }

  lemma {:induction false} WhoIsSignalled(fired: seq<TimerNode>, armed: set<int>, u: int)
    ensures u in Signalled(fired, armed) <==> u in armed && exists n :: n in fired && n.ut == u
  {
    if fired != [] {
      var front, n := fired[..|fired| - 1], fired[|fired| - 1];
      WhoIsSignalled(front, armed, u);
      assert fired == front + [n];
    }
  }

  lemma DueNumbers(m: map<TimerNode, Countdown>, number: map<TimerNode, nat>, pending: map<nat, Countdown>,
                   fired: seq<TimerNode>, u: int)
    requires Numbered(m, number, pending) && (set n | n in fired) == Fired(m) && forall n :: n in m ==> m[n].ut == n.ut
    ensures (exists n :: n in fired && n.ut == u) <==> exists j :: j in pending && pending[j] == Countdown(u, 0)
  {
    assert forall n :: n in fired <==> n in Fired(m);
    if n :| n in fired && n.ut == u {
      assert number[n] in number.Values && pending[number[n]] == m[n] == Countdown(u, 0);
    }
    if j :| j in pending && pending[j] == Countdown(u, 0) {
      assert j in number.Values;
      var n :| n in number && number[n] == j;
      assert n in fired && n.ut == u;
    }
  }

  lemma NumberedAdd(m: map<TimerNode, Countdown>, number: map<TimerNode, nat>, pending: map<nat, Countdown>,
                    node: TimerNode, j: nat, c: Countdown)
    requires Numbered(m, number, pending) && node !in m && j !in pending
    ensures Numbered(m[node := c], number[node := j], pending[j := c])
  {
    var number' := number[node := j];
    forall n | n in number ensures number[n] in number'.Values && number[n] in pending {
      assert number'[n] == number[n] && number[n] in number.Values;
    }
    assert number'[node] == j;
  }
}
