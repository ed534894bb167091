/** One of p's two trees together with the field that every coroutine has for
    it: an entry (sleep_node or wait_node) with its key (wakeup_time_usec or
    fd_wait).  Seen from outside it is a map from key to coroutine, and a key
    field for each coroutine, linked or not. */
module EntryTrees {
  import opened Wrappers
  import opened Entries
  import opened RBShape
  import opened RBTree
  import TreeMap

  class EntryTree {
    const head: Head
    var entry: map<nat, Node>
    ghost var bound: map<int, nat>
    ghost var keys: map<nat, int>
    ghost var Repr: set<object>

    /** The tree is a red-black tree in key order, its nodes are entries of
        coroutines, and it holds exactly the bindings of `bound`, each under the
        coroutine's own key field. */
    ghost predicate Valid()
      reads this, Repr
    {
      && this in Repr && head in Repr && head.Repr <= Repr && entry.Values <= Repr
      && head.Valid() && Sorted(head.Contents()) && head.Repr <= entry.Values
      && keys.Keys == entry.Keys
      && (forall u :: u in entry ==> entry[u].elm == u && entry[u].key == keys[u])
      && (forall k :: k in bound ==> bound[k] in keys && keys[bound[k]] == k)
      && TreeMap.AsMap(head.Contents()) == EntriesOf(bound, entry)
    }

    constructor ()
      ensures Valid() && entry == map[] && bound == map[] && keys == map[] && fresh(Repr)
    {
      head := new Head();
      entry, bound, keys, Repr := map[], map[], map[], {this, head};
    }

    lemma Linked(u: nat)
      requires Valid() && u in entry
      ensures entry[u] in head.Repr <==> keys[u] in bound && bound[keys[u]] == u
      ensures u in bound.Values <==> keys[u] in bound && bound[keys[u]] == u
    {
      hide Head.Valid, TreeMap.AsMap;
      TreeMap.SeeKeys(head);
      TreeMap.Members(head.Contents(), keys[u], entry[u]);
      assert keys[u] in bound ==> bound[keys[u]] in bound.Values;
      if u in bound.Values {
        HasKey(bound, u);
      }
    }

    /** The tree and the map of its bindings. */
    lemma SeeTree()
      requires Valid()
      ensures head.Valid() && Sorted(head.Contents()) && head.Repr <= Repr
      ensures forall u, k :: k in bound && bound[k] == u <==> u in entry && keys[u] == k && Entry(entry[u], k) in head.Contents()
    {
      hide Head.Valid, TreeMap.AsMap;
      forall u, k
        ensures k in bound && bound[k] == u <==> u in entry && keys[u] == k && Entry(entry[u], k) in head.Contents()
      {
        if u in entry {
          TreeMap.Members(head.Contents(), k, entry[u]);
        }
      }
    }

    lemma SeeEntries()
      requires Valid()
      ensures keys.Keys == entry.Keys
    {
    }

    lemma SameKeys()
      requires Valid()
      ensures EntriesOf(bound, entry).Keys == bound.Keys && (bound == map[] <==> EntriesOf(bound, entry) == map[])
    {
      hide Head.Valid, TreeMap.AsMap;
      assert forall k :: k in bound <==> k in EntriesOf(bound, entry);
    }

    /** A new coroutine with its entry, linked nowhere. */
    method Add(u: nat, key: int)
      requires Valid() && u !in entry
      modifies this
      ensures Valid() && old(Repr) <= Repr && fresh(Repr - old(Repr))
      ensures bound == old(bound) && keys == old(keys)[u := key]
    {
      hide Head.Valid, TreeMap.AsMap;
      var n := new Node(u, key);
      ghost var before := entry;
      assert EntriesOf(bound, before[u := n]) == EntriesOf(bound, before) by { SameKeys(); }
      entry, keys, Repr := entry[u := n], keys[u := key], Repr + {n};
      assert before.Values <= entry.Values by {
        forall v | v in before ensures before[v] in entry.Values { assert entry[v] == before[v]; }
      }
    }

    /** Writing the key field, which is allowed only while it is no key of the tree. */
    method SetKey(u: nat, key: int)
      requires Valid() && u in entry && u !in bound.Values
      modifies Repr
      ensures Valid() && Repr == old(Repr) && entry == old(entry)
      ensures bound == old(bound) && keys == old(keys)[u := key]
    {
      hide Head.Valid, TreeMap.AsMap;
      Linked(u);
      entry[u].key := key;
      keys := keys[u := key];
    }

    /** RB_INSERT: the coroutine that holds the key already, or none and then
        the new one is bound. */
    method Insert(u: nat) returns (found: Option<nat>)
      requires Valid() && u in entry
      modifies Repr
      ensures Valid() && Repr == old(Repr) && entry == old(entry) && keys == old(keys)
      ensures found == if keys[u] in old(bound) then Some(old(bound)[keys[u]]) else None
      ensures bound == if found.None? then old(bound)[keys[u] := u] else old(bound)
    {
      hide Head.Valid, TreeMap.AsMap;
      var n := TreeMap.Insert(head, entry[u]);
      if n != null {
        return Some(n.elm);
      }
      bound := bound[keys[u] := u];
      return None;
    }

    /** RB_REMOVE of a coroutine that is in the tree. */
    method Remove(u: nat)
      requires Valid() && u in entry && keys[u] in bound && bound[keys[u]] == u
      modifies Repr
      ensures Valid() && Repr == old(Repr) && entry == old(entry) && keys == old(keys)
      ensures bound == old(bound) - {keys[u]} && u !in bound.Values
    {
      hide Head.Valid, TreeMap.AsMap;
      Linked(u);
      TreeMap.Remove(head, entry[u]);
      bound := bound - {keys[u]};
      Linked(u);
    }

    /** RB_FIND */
    method Find(key: int) returns (found: Option<nat>)
      requires Valid()
      ensures found == if key in bound then Some(bound[key]) else None
      ensures found.Some? ==> found.value in entry && keys[found.value] == key
    {
      hide Head.Valid, TreeMap.AsMap;
      var n := TreeMap.Find(head, key);
      return if n == null then None else Some(n.elm);
    }

    /** RB_MIN */
    method Min() returns (found: Option<nat>)
      requires Valid()
      ensures found.None? <==> bound == map[]
      ensures found.Some? ==>
        && found.value in entry && keys[found.value] in bound && bound[keys[found.value]] == found.value
        && forall k :: k in bound ==> keys[found.value] <= k
    {
      hide Head.Valid, TreeMap.AsMap;
      SameKeys();
      var n := TreeMap.Min(head);
      if n == null {
        return None;
      }
      return Some(n.elm);
    }
  }

  lemma HasKey(m: map<int, nat>, u: nat)
    requires u in m.Values
    ensures exists k :: k in m && m[k] == u
  {
    if forall k :: k in m ==> m[k] != u {
      assert false;
    }
  }

  /** The entries of the coroutines that a map names. */
  ghost function EntriesOf(bound: map<int, nat>, entry: map<nat, Node>): map<int, Node>
  {
    map k | k in bound && bound[k] in entry :: entry[bound[k]]
  }
}
