/** The red-black tree as a map from key to node, which is how the scheduler's
    state machine sees its two trees. */
module TreeMap {
  import opened Entries
  import opened RBShape
  import opened RBTree

  /** The map that the contents of a tree stand for. */
  ghost function AsMap(c: seq<Entry<Node>>): map<int, Node>
    requires Sorted(c)
  {
    map i | 0 <= i < |c| :: c[i].key := c[i].node
  }

  lemma Members(c: seq<Entry<Node>>, k: int, n: Node)
    requires Sorted(c)
    ensures Entry(n, k) in c <==> k in AsMap(c) && AsMap(c)[k] == n
  {
    if k in AsMap(c) {
      var i :| 0 <= i < |c| && c[i].key == k && c[i].node == AsMap(c)[k];
    }
  }

  /** Contents with the entries of a map stand for that map. */
  lemma Stands(c: seq<Entry<Node>>, m: map<int, Node>)
    requires Sorted(c) && forall k, n :: Entry(n, k) in c <==> k in m && m[k] == n
    ensures AsMap(c) == m
  {
    hide AsMap;
    forall k | k in AsMap(c) || k in m
      ensures k in AsMap(c) && k in m && AsMap(c)[k] == m[k]
    {
      if k in m {
        Members(c, k, m[k]);
      }
      if k in AsMap(c) {
        Members(c, k, AsMap(c)[k]);
      }
    }
  }

  lemma InsertBinds(c: seq<Entry<Node>>, i: nat, e: Entry<Node>)
    requires i <= |c| && Sorted(c) && Sorted(c[..i] + [e] + c[i..])
    requires forall j :: 0 <= j < |c| ==> c[j].key != e.key
    ensures e.key !in AsMap(c) && AsMap(c[..i] + [e] + c[i..]) == AsMap(c)[e.key := e.node]
  {
    var m := AsMap(c)[e.key := e.node];
    var c' := c[..i] + [e] + c[i..];
    assert c == c[..i] + c[i..];
    forall k, n
      ensures Entry(n, k) in c' <==> k in m && m[k] == n
    {
      Members(c, k, n);
      assert Entry(n, k) in c' <==> Entry(n, k) in c || Entry(n, k) == e;
    }
    Stands(c', m);
  }

  lemma RemoveUnbinds(c: seq<Entry<Node>>, i: nat)
    requires i < |c| && Sorted(c) && Sorted(c[..i] + c[i + 1..])
    ensures c[i].key in AsMap(c) && AsMap(c)[c[i].key] == c[i].node
    ensures AsMap(c[..i] + c[i + 1..]) == AsMap(c) - {c[i].key}
  {
    hide AsMap;
    CutOne(c, i);
    InsertBinds(c[..i] + c[i + 1..], i, c[i]);
  }

  lemma CutOne(c: seq<Entry<Node>>, i: nat)
    requires i < |c| && Sorted(c)
    ensures var c' := c[..i] + c[i + 1..];
      |c'| == |c| - 1 && c'[..i] + [c[i]] + c'[i..] == c && forall j :: 0 <= j < |c'| ==> c'[j].key != c[i].key
  {
    var c' := c[..i] + c[i + 1..];
    assert c'[..i] == c[..i] && c'[i..] == c[i + 1..];
    forall j | 0 <= j < |c'| ensures c'[j].key != c[i].key {
      assert c'[j] == c[if j < i then j else j + 1];
    }
  }

  /** The entries of a tree are its nodes with their keys. */
  lemma SeeKeys(tree: Head)
    requires tree.Valid()
    ensures forall e :: e in tree.Contents() ==> e.node in tree.Repr && e.node.key == e.key
    ensures forall n :: n in tree.Repr ==> Entry(n, n.key) in tree.Contents()
  {
    hide Head.Valid;
    forall e | e in tree.Contents() ensures e.node in tree.Repr && e.node.key == e.key {
      var i :| 0 <= i < |tree.Contents()| && tree.Contents()[i] == e;
      tree.KeysKept(i);
    }
    forall n | n in tree.Repr ensures Entry(n, n.key) in tree.Contents() {
      var i := tree.HasEntry(n);
    }
  }

  /** RB_INSERT as an update of the map. */
  method Insert(tree: Head, elm: Node) returns (found: Node?)
    requires tree.Valid()
    modifies tree, tree.Repr, elm
    ensures tree.Valid() && tree.Repr == if found == null then old(tree.Repr) + {elm} else old(tree.Repr)
    ensures elm.key == old(elm.key) && forall n :: n in tree.Repr ==> n.key == old(n.key)
    ensures Sorted(tree.Contents()) && Sorted(old(tree.Contents()))
    ensures found != null <==> elm.key in AsMap(old(tree.Contents()))
    ensures found != null ==> found == AsMap(old(tree.Contents()))[elm.key]
    ensures AsMap(tree.Contents()) ==
      if found != null then AsMap(old(tree.Contents())) else AsMap(old(tree.Contents()))[elm.key := elm]
  {
    hide Head.At, RB, Inorder, AsMap;
    ghost var c, i := tree.Contents(), 0;
    SeeKeys(tree);
    found, i := tree.Insert(elm);
    SeeKeys(tree);
    hide Sorted;
    if found == null {
      InsertBinds(c, i, Entry(elm, elm.key));
    } else {
      Members(c, elm.key, found);
    }
  }

  /** RB_REMOVE as an update of the map. */
  method Remove(tree: Head, elm: Node)
    requires tree.Valid() && elm in tree.Repr
    modifies tree, tree.Repr
    ensures tree.Valid() && tree.Repr == old(tree.Repr) - {elm}
    ensures forall n :: n in old(tree.Repr) ==> n.key == old(n.key)
    ensures Sorted(tree.Contents()) && Sorted(old(tree.Contents()))
    ensures old(elm.key) in AsMap(old(tree.Contents())) && AsMap(old(tree.Contents()))[old(elm.key)] == elm
    ensures AsMap(tree.Contents()) == AsMap(old(tree.Contents())) - {old(elm.key)}
  {
    hide Head.At, RB, Inorder, AsMap;
    ghost var c, i := tree.Contents(), 0;
    SeeKeys(tree);
    var removed;
    removed, i := tree.Remove(elm);
    SeeKeys(tree);
    hide Sorted;
    RemoveUnbinds(c, i);
  }

  /** RB_FIND as a lookup. */
  method Find(tree: Head, key: int) returns (n: Node?)
    requires tree.Valid()
    ensures Sorted(tree.Contents())
    ensures n == if key in AsMap(tree.Contents()) then AsMap(tree.Contents())[key] else null
  {
    hide Head.At, RB, Inorder, AsMap;
    ghost var steps;
    n, steps := tree.Find(key);
    if n != null {
      Members(tree.Contents(), key, n);
    } else if key in AsMap(tree.Contents()) {
      Members(tree.Contents(), key, AsMap(tree.Contents())[key]);
    }
  }

  /** RB_MIN as the least key. */
  method Min(tree: Head) returns (n: Node?)
    requires tree.Valid()
    ensures Sorted(tree.Contents())
    ensures n == null <==> AsMap(tree.Contents()) == map[]
    ensures n != null ==> n.key in AsMap(tree.Contents()) && AsMap(tree.Contents())[n.key] == n
                          && forall k :: k in AsMap(tree.Contents()) ==> n.key <= k
  {
    hide RB;
    ghost var steps;
    n, steps := tree.MinMax(-1);
    ghost var c := tree.Contents();
    if n != null {
      tree.KeysKept(0);
      Members(c, n.key, n);
    } else {
      assert c == [];
    }
  }
}
