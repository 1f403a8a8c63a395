/** How a tree of routers grows: a net joins at one router, its announcement floods, and when the
  * flood has died down every table of the larger tree is exact again. */
module RouterGrowth {
  import opened Basics
  import opened Messages
  import opened RouteModel
  import opened RouteTheory
  import opened RouterTree

  /** A net on its own. */
  lemma SingletonExact(id: NetId)
    ensures Exact(map[id := []])
  {
  }

  // ---------------------------------------------------------------- the tables of the larger tree

  /** A leaf joins a tree at one of its nets, over a link with a handle at either end; it is told of
    * all the other nets in the table exchange. */
  datatype Join = Join(net: Net, at: NetId, leaf: NetId, upLink: nat, downLink: nat, others: seq<NetId>) {
    ghost predicate Ok() {
      && Exact(net) && at in net && leaf !in net
      && leaf != NULL_NET && leaf != BROADCAST_NET && BROADCAST_NET !in net
      && (forall x :: x in others <==> x in net && x != at)
    }

    function LeafTable(): Table { [Route(Qnet(upLink, at), others)] }

    function AtTable(): Table
      requires at in net
    {
      net[at] + [Route(Qnet(downLink, leaf), [])]
    }

    /** The tables once the leaf is known everywhere. */
    function Grown(): Net
      requires at in net
    {
      (map r | r in net :: if r == at then AtTable() else Extend(net[r], at, leaf))[leaf := LeafTable()]
    }
  }

  /** The connection that leads to `at` also leads to the new leaf. */
  function Extend(t: Table, at: NetId, leaf: NetId): (r: Table)
    ensures |r| == |t|
    ensures forall k :: 0 <= k < |t| ==>
      r[k] == if at in Via(t[k]) then t[k].(branches := t[k].branches + [leaf]) else t[k]
  {
    if t == [] then []
    else [if at in Via(t[0]) then t[0].(branches := t[0].branches + [leaf]) else t[0]] + Extend(t[1..], at, leaf)
  }

  // ---------------------------------------------------------------- counting in the larger tree

  lemma ViaExtend(r: Route, leaf: NetId)
    ensures Via(r.(branches := r.branches + [leaf])) == Via(r) + {leaf}
  {
  }

  lemma {:induction false} LeadExtend(t: Table, at: NetId, leaf: NetId, except: Option<NetId>, x: NetId)
    requires forall k :: 0 <= k < |t| ==> leaf !in Via(t[k])
    ensures Leading(Extend(t, at, leaf), except, x) == Leading(t, except, if x == leaf then at else x)
  {
    if t != [] {
      LeadExtend(t[1..], at, leaf, except, x);
      assert Extend(t, at, leaf)[1..] == Extend(t[1..], at, leaf);
      ViaExtend(t[0], leaf);
    }
  }

  lemma {:induction false} LeadSnoc(t: Table, r: Route, except: Option<NetId>, x: NetId)
    ensures Leading(t + [r], except, x) == Leading(t, except, x) + Bit(except != Some(r.conn.id) && x in Via(r))
  {
    if t == [] {
      assert [] + [r] == [r] && [r][1..] == [];
    } else {
      assert (t + [r])[1..] == t[1..] + [r];
      LeadSnoc(t[1..], r, except, x);
    }
  }

  lemma OutsiderUnknown(net: Net, r: NetId, leaf: NetId)
    requires Exact(net) && r in net && leaf !in net
    ensures forall k :: 0 <= k < |net[r]| ==> leaf !in Via(net[r][k])
  {
    forall k | 0 <= k < |net[r]| ensures leaf !in Via(net[r][k]) {
      if leaf in Via(net[r][k]) { LeadHas(net[r], None, k, leaf); }
    }
  }

  /** At `at` the leaf itself is gained; elsewhere the leaf is wherever `at` is. */
  lemma LeadGrown(j: Join, r: NetId, except: Option<NetId>, x: NetId)
    requires j.Ok() && r in j.net && except != Some(j.leaf)
    ensures Leading(j.Grown()[r], except, x)
         == if r == j.at then Leading(j.net[r], except, x) + Bit(x == j.leaf)
            else Leading(j.net[r], except, if x == j.leaf then j.at else x)
  {
    if r == j.at {
      LeadSnoc(j.net[r], Route(Qnet(j.downLink, j.leaf), []), except, x);
    } else {
      OutsiderUnknown(j.net, r, j.leaf);
      LeadExtend(j.net[r], j.at, j.leaf, except, x);
    }
  }

  lemma LeadLeaf(j: Join, except: Option<NetId>, x: NetId)
    requires j.Ok()
    ensures Leading(j.LeafTable(), except, x) == Bit(except != Some(j.at) && x in j.net)
  {
    assert j.LeafTable()[1..] == [];
    assert x in Via(j.LeafTable()[0]) <==> x in j.net;
  }

  // ---------------------------------------------------------------- edges of the larger tree

  lemma {:induction false} ExtendNeighbour(t: Table, at: NetId, leaf: NetId, n: NetId)
    ensures FindNeighbour(Extend(t, at, leaf), n) == FindNeighbour(t, n)
  {
    if t != [] {
      ExtendNeighbour(t[1..], at, leaf, n);
      assert Extend(t, at, leaf)[1..] == Extend(t[1..], at, leaf);
    }
  }

  lemma {:induction false} SnocNeighbour(t: Table, r: Route, n: NetId)
    ensures FindNeighbour(t + [r], n)
         == if FindNeighbour(t, n) < |t| then FindNeighbour(t, n) else if r.conn.id == n then |t| else |t| + 1
  {
    if t == [] {
      assert [] + [r] == [r] && [r][1..] == [];
    } else {
      assert (t + [r])[1..] == t[1..] + [r];
      SnocNeighbour(t[1..], r, n);
    }
  }

  lemma NeighbourInside(net: Net, r: NetId, n: NetId)
    requires Exact(net) && r in net && FindNeighbour(net[r], n) < |net[r]|
    ensures Edge(net, r, n)
  {
    EntryIsEdge(net, r, FindNeighbour(net[r], n));
  }

  lemma EdgeFromLeaf(j: Join, n: NetId)
    requires j.Ok()
    ensures Edge(j.Grown(), j.leaf, n) <==> n == j.at
    ensures n == j.at ==> Beyond(j.Grown(), j.leaf, n) == j.net.Keys
  {
    assert j.LeafTable()[1..] == [];
    assert Via(j.LeafTable()[0]) == j.net.Keys;
  }

  lemma EdgeFromAt(j: Join, n: NetId)
    requires j.Ok()
    ensures Edge(j.Grown(), j.at, n) <==> Edge(j.net, j.at, n) || n == j.leaf
    ensures Edge(j.net, j.at, n) ==> n != j.leaf && Beyond(j.Grown(), j.at, n) == Beyond(j.net, j.at, n)
    ensures n == j.leaf ==> Beyond(j.Grown(), j.at, n) == {j.leaf}
  {
    var t := j.net[j.at];
    SnocNeighbour(t, Route(Qnet(j.downLink, j.leaf), []), n);
    if FindNeighbour(t, n) < |t| { NeighbourInside(j.net, j.at, n); }
  }

  lemma EdgeElsewhere(j: Join, r: NetId, n: NetId)
    requires j.Ok() && r in j.net && r != j.at
    ensures Edge(j.Grown(), r, n) <==> Edge(j.net, r, n)
    ensures Edge(j.net, r, n) ==>
      Beyond(j.Grown(), r, n) == Beyond(j.net, r, n) + if j.at in Beyond(j.net, r, n) then {j.leaf} else {}
  {
    var t := j.net[r];
    ExtendNeighbour(t, j.at, j.leaf, n);
    if FindNeighbour(t, n) < |t| {
      NeighbourInside(j.net, r, n);
      ViaExtend(t[FindNeighbour(t, n)], j.leaf);
    }
  }

  // ---------------------------------------------------------------- exactness of the larger tree

  lemma ExtendIds(t: Table, at: NetId, leaf: NetId)
    requires DistinctIds(t)
    ensures DistinctIds(Extend(t, at, leaf))
  {
    hide Extend, Via;
  }

  lemma SnocIds(t: Table, r: Route)
    requires DistinctIds(t) && forall k :: 0 <= k < |t| ==> t[k].conn.id != r.conn.id
    ensures DistinctIds(t + [r])
  {
  }

  lemma GrownIds(j: Join, r: NetId)
    requires j.Ok() && r in j.Grown()
    ensures DistinctIds(j.Grown()[r])
  {
    hide DistinctIds, Edge, Extend, Via, Leading;
    if r == j.leaf {
      OneId(j.LeafTable());
    } else if r == j.at {
      forall k | 0 <= k < |j.net[r]| ensures j.net[r][k].conn.id != j.leaf {
        EntryIsEdge(j.net, r, k);
        EdgeInside(j.net, r, j.net[r][k].conn.id);
      }
      SnocIds(j.net[r], Route(Qnet(j.downLink, j.leaf), []));
    } else {
      ExtendIds(j.net[r], j.at, j.leaf);
    }
  }

  lemma OneId(t: Table)
    requires |t| == 1
    ensures DistinctIds(t)
  {
  }

  lemma EdgeInside(net: Net, r: NetId, n: NetId)
    requires Edge(net, r, n)
    ensures r in net && n in net
  {
  }

  lemma GrownMutual(j: Join, r: NetId, k: nat)
    requires j.Ok() && r in j.Grown() && k < |j.Grown()[r]|
    ensures Edge(j.Grown(), j.Grown()[r][k].conn.id, r)
  {
    var n := j.Grown()[r][k].conn.id;
    if r == j.leaf {
      EdgeFromAt(j, r);
    } else if r == j.at && n == j.leaf {
      EdgeFromLeaf(j, r);
    } else {
      assert n == j.net[r][k].conn.id;
      EntryIsEdge(j.net, r, k);
      assert Edge(j.net, n, r);
      if n == j.at { EdgeFromAt(j, r); } else { EdgeElsewhere(j, n, r); }
    }
  }

  lemma GrownReaches(j: Join, r: NetId, x: NetId)
    requires j.Ok() && r in j.Grown()
    ensures Leading(j.Grown()[r], None, x) == Bit(x in j.Grown() && x != r)
  {
    if r == j.leaf {
      LeadLeaf(j, None, x);
    } else {
      LeadGrown(j, r, None, x);
      assert Leading(j.net[r], None, x) == Bit(x in j.net && x != r);
      assert Leading(j.net[r], None, j.at) == Bit(j.at != r);
    }
  }

  /** Old edges. */
  lemma GrownBeyondOld(j: Join, r: NetId, n: NetId, x: NetId)
    requires j.Ok() && Edge(j.net, r, n)
    ensures Edge(j.Grown(), r, n)
    ensures Bit(x in Beyond(j.Grown(), r, n)) == Bit(x == n) + Leading(j.Grown()[n], Some(r), x)
  {
    if r == j.at { EdgeFromAt(j, n); } else { EdgeElsewhere(j, r, n); }
    LeadGrown(j, n, Some(r), x);
    assert Bit(x in Beyond(j.net, r, n)) == Bit(x == n) + Leading(j.net[n], Some(r), x);
    assert Bit(j.at in Beyond(j.net, r, n)) == Bit(j.at == n) + Leading(j.net[n], Some(r), j.at);
    assert Leading(j.net[r], None, j.at) == Bit(j.at != r);
    assert Leading(j.net[r], None, j.leaf) == 0;
    LeadSplit(j.net[r], FindNeighbour(j.net[r], n), j.at);
    LeadSplit(j.net[r], FindNeighbour(j.net[r], n), j.leaf);
  }

  /** The two directions of the new edge. */
  lemma GrownBeyondNew(j: Join, x: NetId)
    requires j.Ok()
    ensures Edge(j.Grown(), j.at, j.leaf) && Edge(j.Grown(), j.leaf, j.at)
    ensures Bit(x in Beyond(j.Grown(), j.at, j.leaf)) == Bit(x == j.leaf) + Leading(j.Grown()[j.leaf], Some(j.at), x)
    ensures Bit(x in Beyond(j.Grown(), j.leaf, j.at)) == Bit(x == j.at) + Leading(j.Grown()[j.at], Some(j.leaf), x)
  {
    EdgeFromAt(j, j.leaf);
    EdgeFromLeaf(j, j.at);
    LeadLeaf(j, Some(j.at), x);
    var t := j.net[j.at];
    LeadSnoc(t, Route(Qnet(j.downLink, j.leaf), []), Some(j.leaf), x);
    forall k | 0 <= k < |t| ensures t[k].conn.id != j.leaf {
      EntryIsEdge(j.net, j.at, k);
    }
    LeadAll(t, j.leaf, x);
    assert Leading(t, None, x) == Bit(x in j.net && x != j.at);
  }

  lemma GrownBeyond(j: Join, r: NetId, n: NetId, x: NetId)
    requires j.Ok() && Edge(j.Grown(), r, n)
    ensures Bit(x in Beyond(j.Grown(), r, n)) == Bit(x == n) + Leading(j.Grown()[n], Some(r), x)
  {
    if Edge(j.net, r, n) {
      GrownBeyondOld(j, r, n, x);
    } else {
      if r == j.leaf { EdgeFromLeaf(j, n); } else if r == j.at { EdgeFromAt(j, n); } else { EdgeElsewhere(j, r, n); }
      GrownBeyondNew(j, x);
    }
  }

  /** The tables of the larger tree are exact. */
  lemma GrownExact(j: Join)
    requires j.Ok()
    ensures Exact(j.Grown())
  {
    hide Exact, Join.Grown;
    var g := j.Grown();
    forall r | r in g ensures DistinctIds(g[r]) { GrownIds(j, r); }
    forall r, k | r in g && 0 <= k < |g[r]| ensures Edge(g, g[r][k].conn.id, r) { GrownMutual(j, r, k); }
    forall r, x | r in g ensures Leading(g[r], None, x) == Bit(x in g && x != r) { GrownReaches(j, r, x); }
    forall r, n, x | Edge(g, r, n)
      ensures r in g && n in g && Bit(x in Beyond(g, r, n)) == Bit(x == n) + Leading(g[n], Some(r), x)
    {
      GrownBeyond(j, r, n, x);
    }
    IsExact(g);
  }
}
