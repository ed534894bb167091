/** What both kinds of tree are about: entries in key order.  An entry is an
    element with the key that it was filed under. */
module Entries {

  datatype Entry<+N> = Entry(node: N, key: int)

  /** The two comparators of the runtime, on the keys they compare. */
  function Cmp(a: int, b: int): (c: int)
    ensures c < 0 <==> a < b
    ensures c == 0 <==> a == b
  {
    if a < b then -1 else if a == b then 0 else 1
  }

  ghost predicate Sorted<N>(s: seq<Entry<N>>) { forall i, j :: 0 <= i < j < |s| ==> s[i].key < s[j].key }

  ghost predicate AllBelow<N>(s: seq<Entry<N>>, k: int) { forall i :: 0 <= i < |s| ==> s[i].key < k }

  ghost predicate AllAbove<N>(k: int, s: seq<Entry<N>>) { forall i :: 0 <= i < |s| ==> k < s[i].key }

  lemma SortedInsert<N>(b: seq<Entry<N>>, e: Entry<N>, a: seq<Entry<N>>)
    requires Sorted(b + a) && AllBelow(b, e.key) && AllAbove(e.key, a)
    ensures Sorted(b + [e] + a) && forall i :: 0 <= i < |b + a| ==> (b + a)[i].key != e.key
  {
    var w, w', n := b + a, b + [e] + a, |b|;
    forall i | 0 <= i < |w|
      ensures (i < n ==> w[i] == w'[i] && w[i].key < e.key) && (n <= i ==> w[i] == w'[i + 1] && e.key < w[i].key)
    {
      if n <= i { assert w[i] == a[i - n]; }
    }
    forall i, j | 0 <= i < j < |w'| ensures w'[i].key < w'[j].key {
      var i', j' := if i < n then i else i - 1, if j < n then j else j - 1;
      assert i != n ==> w'[i] == w[i'];
      assert j != n ==> w'[j] == w[j'];
    }
  }

  lemma {:induction false} SortedUnique<N>(w: seq<Entry<N>>, i: nat, j: nat)
    requires Sorted(w) && i < |w| && j < |w| && w[i].key == w[j].key
    ensures i == j
  {
  }

  /** The two memories hold the same for the nodes of `s`. */
  ghost predicate Same<N, C>(s: set<N>, m: map<N, C>, m': map<N, C>) {
    forall n :: n in s && n in m ==> n in m' && m'[n] == m[n]
  }
}
