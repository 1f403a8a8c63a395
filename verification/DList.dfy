/** The doubly linked list with a head, a tail and a counter that the C sources spell out
  * once per list: cached users and channels, route entries, connections, seen signatures. */
module DList {
  import opened Basics

  class Node<T> {
    var data: T
    var next: Node?<T>
    var prev: Node?<T>

    constructor (d: T)
      ensures data == d && next == null && prev == null
    {
      data := d;
      next := null;
      prev := null;
    }
  }

  /** The data of a run of nodes. */
  ghost function DataOf<T>(nodes: seq<Node<T>>): (r: seq<T>)
    reads nodes
    ensures |r| == |nodes| && forall k :: 0 <= k < |r| ==> r[k] == nodes[k].data
  {
    seq(|nodes|, k requires 0 <= k < |nodes| reads nodes => nodes[k].data)
  }

  function Elements<T>(s: seq<T>): set<T> { set x | x in s }

  lemma ElementsGrow<T>(s: seq<T>, x: T)
    ensures Elements(s + [x]) == Elements(s) + {x}
    ensures Elements([x] + s) == Elements(s) + {x}
  {
  }

  lemma ElementsShrink<T>(s: seq<T>, k: nat)
    requires k < |s| && forall i, j :: 0 <= i < j < |s| ==> s[i] != s[j]
    ensures Elements(RemoveAt(s, k)) == Elements(s) - {s[k]}
  {
    forall x | x in s && x != s[k] ensures x in RemoveAt(s, k) {
      var i :| 0 <= i < |s| && s[i] == x;
      assert RemoveAt(s, k)[if i < k then i else i - 1] == x;
    }
  }

  class List<T> {
    var first: Node?<T>
    var last: Node?<T>
    var count: nat
    ghost var nodes: seq<Node<T>>
    ghost var members: set<Node<T>>

    /** Head, tail, counter and every pair of links agree with one sequence of distinct nodes. */
    ghost predicate Valid()
      reads this, nodes, members
    {
      && members == Elements(nodes)
      && count == |nodes|
      && Chained(nodes)
      && (forall i, j :: 0 <= i < j < |nodes| ==> nodes[i] != nodes[j])
    }

    /** Head, tail and links run through the nodes in order. */
    ghost predicate Chained(s: seq<Node<T>>)
      reads this`first, this`last, s
    {
      && (s == [] ==> first == null && last == null)
      && (s != [] ==> first == s[0] && last == s[|s| - 1] && first.prev == null && last.next == null)
      && (forall i {:trigger s[i].next} :: 0 <= i < |s| - 1 ==> s[i].next == s[i + 1])
      && (forall i {:trigger s[i].prev} :: 0 < i < |s| ==> s[i].prev == s[i - 1])
    }

    lemma Facts()
      requires Valid()
      ensures count == |nodes| && forall i :: 0 <= i < |nodes| ==> nodes[i] in members
    {
    }

    constructor ()
      ensures Valid() && nodes == [] && members == {}
    {
      first, last, count, nodes, members := null, null, 0, [], {};
    }

    method Append(n: Node<T>)
      requires Valid() && n !in members
      modifies this, members, n
      ensures Valid() && nodes == old(nodes) + [n] && members == old(members) + {n}
      ensures n.data == old(n.data)
      ensures forall m :: m in old(members) ==> m.data == old(m.data)
    {
      n.next := null;
      n.prev := last;
      if last == null {
        first, last := n, n;
      } else {
        last.next := n;
        last := n;
      }
      count := count + 1;
      ElementsGrow(nodes, n);
      nodes, members := nodes + [n], members + {n};
    }

    method PushFront(n: Node<T>)
      requires Valid() && n !in members
      modifies this, members, n
      ensures Valid() && nodes == [n] + old(nodes) && members == old(members) + {n}
      ensures n.data == old(n.data)
      ensures forall m :: m in old(members) ==> m.data == old(m.data)
    {
      n.prev := null;
      n.next := first;
      if count == 0 {
        last := n;
      } else {
        first.prev := n;
      }
      first := n;
      count := count + 1;
      ElementsGrow(nodes, n);
      nodes, members := [n] + nodes, members + {n};
    }

    /** Unlinks a member; its own links are left dangling, as in the source. */
    method Remove(n: Node<T>, ghost k: nat)
      requires Valid() && k < |nodes| && nodes[k] == n
      modifies this, members
      ensures Valid() && nodes == RemoveAt(old(nodes), k) && members == old(members) - {n}
      ensures forall m :: m in old(members) ==> m.data == old(m.data)
    {
      ElementsShrink(nodes, k);
      if count == 1 {
        first, last := null, null;
      } else {
        Bridge(n, k);
      }
      hide Elements, List.Chained;
      count := count - 1;
      nodes, members := RemoveAt(nodes, k), members - {n};
    }

    /** The three cases in which something is left. */
    method Bridge(n: Node<T>, ghost k: nat)
      requires Valid() && k < |nodes| && nodes[k] == n && |nodes| > 1
      modifies this`first, this`last, members
      ensures Chained(RemoveAt(nodes, k))
      ensures forall m :: m in members ==> m.data == old(m.data)
    {
      ghost var rest := RemoveAt(nodes, k);
      assert forall i :: 0 <= i < |rest| ==> rest[i] == nodes[if i < k then i else i + 1];
      assert n == nodes[0] <==> k == 0;
      if n == first {
        first := first.next;
        first.prev := null;
      } else if n == last {
        last := last.prev;
        last.next := null;
      } else {
        Skip(n, k);
      }
    }

    /** The neighbours of an inner node are linked to each other. */
    method Skip(n: Node<T>, ghost k: nat)
      requires Valid() && 0 < k < |nodes| - 1 && nodes[k] == n
      modifies members
      ensures Chained(RemoveAt(nodes, k))
      ensures forall m :: m in members ==> m.data == old(m.data)
    {
      Facts();
      hide Elements;
      ghost var rest := RemoveAt(nodes, k);
      assert forall i :: 0 <= i < |rest| ==> rest[i] == nodes[if i < k then i else i + 1];
      assert n.prev == nodes[k - 1] && n.next == nodes[k + 1];
      n.prev.next := n.next;
      n.next.prev := n.prev;
    }
  }
}
