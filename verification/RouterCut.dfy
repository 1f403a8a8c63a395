/** What remains of a tree of routers when one of its links is lost. */
module RouterCut {
  import opened Basics
  import opened Messages
  import opened RouteModel
  import opened RouteTheory
  import opened RouterTree

  /** A net loses its connection to a neighbour, and with it everything beyond. */
  datatype Loss = Loss(net: Net, at: NetId, gone: NetId) {
    ghost predicate Ok() {
      && Exact(net) && Edge(net, at, gone)
      && (forall r :: r in net ==> Inv(net[r]))
      && BROADCAST_NET !in net
    }

    function Place(): nat
      requires at in net
    {
      FindNeighbour(net[at], gone)
    }

    ghost function Lost(): set<NetId>
      requires Edge(net, at, gone)
    {
      Beyond(net, at, gone)
    }

    /** The tables of what remains on this side: without the connection, and without the nets beyond it. */
    ghost function Rest(): Net
      requires Edge(net, at, gone)
    {
      map r | r in net && r !in Lost() :: if r == at then RemoveAt(net[at], Place()) else Trim(net[r], Lost())
    }
  }

  function Kept(nets: seq<NetId>, lost: set<NetId>): (r: seq<NetId>)
    ensures forall n :: n in r <==> n in nets && n !in lost
  {
    if nets == [] then [] else (if nets[0] in lost then [] else [nets[0]]) + Kept(nets[1..], lost)
  }

  function Trim(t: Table, lost: set<NetId>): (r: Table)
    ensures |r| == |t|
    ensures forall k :: 0 <= k < |t| ==> r[k] == t[k].(branches := Kept(t[k].branches, lost))
  {
    if t == [] then [] else [t[0].(branches := Kept(t[0].branches, lost))] + Trim(t[1..], lost)
  }

  // ---------------------------------------------------------------- tables

  lemma ViaTrim(r: Route, lost: set<NetId>)
    requires r.conn.id !in lost
    ensures Via(r.(branches := Kept(r.branches, lost))) == Via(r) - lost
  {
  }

  lemma {:induction false} LeadTrim(t: Table, lost: set<NetId>, except: Option<NetId>, x: NetId)
    requires forall k :: 0 <= k < |t| ==> t[k].conn.id !in lost
    ensures Leading(Trim(t, lost), except, x) == if x in lost then 0 else Leading(t, except, x)
  {
    if t != [] {
      LeadTrim(t[1..], lost, except, x);
      assert Trim(t, lost)[1..] == Trim(t[1..], lost);
      ViaTrim(t[0], lost);
    }
  }

  lemma {:induction false} LeadRemove(t: Table, k: nat, except: Option<NetId>, x: NetId)
    requires k < |t|
    ensures Leading(t, except, x)
         == Leading(RemoveAt(t, k), except, x) + Bit(except != Some(t[k].conn.id) && x in Via(t[k]))
  {
    if k == 0 {
      assert RemoveAt(t, 0) == t[1..];
    } else {
      LeadRemove(t[1..], k - 1, except, x);
      assert RemoveAt(t, k)[1..] == RemoveAt(t[1..], k - 1);
    }
  }

  lemma RemoveIds(t: Table, k: nat)
    requires DistinctIds(t) && k < |t|
    ensures DistinctIds(RemoveAt(t, k))
  {
  }

  lemma NeighbourRemove(t: Table, k: nat, n: NetId)
    requires DistinctIds(t) && k < |t|
    ensures var s := RemoveAt(t, k);
      var i, j := FindNeighbour(t, n), FindNeighbour(s, n);
      && (j < |s| <==> i < |t| && i != k)
      && (j < |s| ==> s[j] == t[i])
  {
    RemoveIds(t, k);
    var s := RemoveAt(t, k);
    var i, j := FindNeighbour(t, n), FindNeighbour(s, n);
    hide DistinctIds;
    if j < |s| {
      NeighbourAt(t, if j < k then j else j + 1);
    }
    if i < |t| && i != k {
      NeighbourAt(s, if i < k then i else i - 1);
    }
  }

  // ---------------------------------------------------------------- the two sides

  /** The lost link is the only one between what is lost and what remains. */
  lemma OnlyLink(l: Loss, x: NetId, y: NetId)
    requires l.Ok() && Edge(l.net, x, y) && x !in l.Lost() && y in l.Lost()
    ensures x == l.at && y == l.gone
  {
    var t, k := l.net[l.at], l.Place();
    var e := FindNeighbour(l.net[x], y);
    assert Edge(l.net, l.net[x][e].conn.id, x);
    assert Leading(t, None, y) <= 1;
    if x != l.at {
      LinkedStayTogether(l.net, l.at, l.gone, y, x);
    } else if e != k {
      LeadSplit(t, k, y);
      LeadHas(t, Some(l.gone), e, y);
    }
  }

  lemma {:induction false} LeadLess(t: Table, except: Option<NetId>, x: NetId)
    ensures Leading(t, except, x) <= Leading(t, None, x)
  {
    if t != [] { LeadLess(t[1..], except, x); }
  }

  lemma Sides(l: Loss)
    requires l.Ok()
    ensures l.at !in l.Lost() && l.gone in l.Lost() && l.at in l.Rest()
  {
    var k := l.Place();
    if l.at in l.Lost() { LeadHas(l.net[l.at], None, k, l.at); }
  }

  /** No neighbour of a remaining net is lost, but for the one whose connection was. */
  lemma NeighboursRemain(l: Loss, r: NetId, k: nat)
    requires l.Ok() && r in l.net && r !in l.Lost() && k < |l.net[r]|
    ensures l.net[r][k].conn.id in l.Lost() <==> r == l.at && k == l.Place()
  {
    Sides(l);
    EntryIsEdge(l.net, r, k);
    var y := l.net[r][k].conn.id;
    if y in l.Lost() {
      OnlyLink(l, r, y);
      NeighbourAt(l.net[r], k);
    }
  }

  /** At the net that lost the connection, the others lead to nothing that is lost. */
  lemma OthersElsewhere(l: Loss, k: nat, x: NetId)
    requires l.Ok() && k < |l.net[l.at]| && k != l.Place() && x in l.Lost()
    ensures x !in Via(l.net[l.at][k])
  {
    var t := l.net[l.at];
    assert Leading(t, None, x) <= 1;
    LeadSplit(t, l.Place(), x);
    if x in Via(t[k]) { LeadHas(t, Some(l.gone), k, x); }
  }

  // ---------------------------------------------------------------- what remains is exact

  lemma RestLeads(l: Loss, r: NetId, except: Option<NetId>, x: NetId)
    requires l.Ok() && r in l.Rest() && except != Some(l.gone)
    ensures Leading(l.Rest()[r], except, x) == if x in l.Lost() then 0 else Leading(l.net[r], except, x)
  {
    Sides(l);
    var t := l.net[r];
    if r == l.at {
      LeadRemove(t, l.Place(), except, x);
      LeadRemove(t, l.Place(), None, x);
      LeadLess(RemoveAt(t, l.Place()), except, x);
      assert Leading(t, None, x) <= 1;
    } else {
      forall k | 0 <= k < |t| ensures t[k].conn.id !in l.Lost() { NeighboursRemain(l, r, k); }
      LeadTrim(t, l.Lost(), except, x);
    }
  }

  /** Among the remaining nets the links are the old ones. */
  lemma LinkRemains(l: Loss, r: NetId, n: NetId)
    requires l.Ok() && r in l.net && r !in l.Lost()
    ensures var i := FindNeighbour(l.net[r], n);
      n in l.Rest() && Edge(l.net, r, n) <==> i < |l.net[r]| && !(r == l.at && i == l.Place())
  {
    var i := FindNeighbour(l.net[r], n);
    if i < |l.net[r]| {
      NeighboursRemain(l, r, i);
      EntryIsEdge(l.net, r, i);
    }
  }

  lemma LeadsElsewhere(l: Loss, i: nat)
    requires l.Ok() && i < |l.net[l.at]| && i != l.Place()
    ensures Via(l.net[l.at][i]) == Via(l.net[l.at][i]) - l.Lost()
  {
    forall x | x in l.Lost() ensures x !in Via(l.net[l.at][i]) { OthersElsewhere(l, i, x); }
  }

  lemma RestEdge(l: Loss, r: NetId, n: NetId)
    requires l.Ok() && r in l.Rest()
    ensures FindNeighbour(l.Rest()[r], n) < |l.Rest()[r]| <==> n in l.Rest() && Edge(l.net, r, n)
    ensures n in l.Rest() && Edge(l.net, r, n) ==> Beyond(l.Rest(), r, n) == Beyond(l.net, r, n) - l.Lost()
  {
    var t, s := l.net[r], l.Rest()[r];
    var i := FindNeighbour(t, n);
    Sides(l);
    LinkRemains(l, r, n);
    assert DistinctIds(t);
    if i < |t| { NeighboursRemain(l, r, i); }
    hide Exact, Via, Leading, Inv, DistinctIds;
    if r == l.at {
      NeighbourRemove(t, l.Place(), n);
      if i < |t| && i != l.Place() { LeadsElsewhere(l, i); }
    } else {
      SameNeighbour(t, s, n);
      if i < |t| { ViaTrim(t[i], l.Lost()); }
    }
  }

  lemma RestIds(l: Loss, r: NetId)
    requires l.Ok() && r in l.Rest()
    ensures DistinctIds(l.Rest()[r])
  {
    assert DistinctIds(l.net[r]);
    if r == l.at { RemoveIds(l.net[r], l.Place()); }
  }

  lemma RestMutual(l: Loss, r: NetId, k: nat)
    requires l.Ok() && r in l.Rest() && k < |l.Rest()[r]|
    ensures Edge(l.Rest(), l.Rest()[r][k].conn.id, r)
  {
    var n := l.Rest()[r][k].conn.id;
    RestIds(l, r);
    NeighbourAt(l.Rest()[r], k);
    RestEdge(l, r, n);
    assert Edge(l.net, l.net[r][FindNeighbour(l.net[r], n)].conn.id, r);
    RestEdge(l, n, r);
  }

  lemma RestBeyond(l: Loss, r: NetId, n: NetId, x: NetId)
    requires l.Ok() && Edge(l.Rest(), r, n)
    ensures Bit(x in Beyond(l.Rest(), r, n)) == Bit(x == n) + Leading(l.Rest()[n], Some(r), x)
  {
    RestEdge(l, r, n);
    Sides(l);
    RestLeads(l, n, Some(r), x);
    assert Bit(x in Beyond(l.net, r, n)) == Bit(x == n) + Leading(l.net[n], Some(r), x);
  }

  /** The tables of what remains are exact. */
  lemma RestExact(l: Loss)
    requires l.Ok()
    ensures Exact(l.Rest())
  {
    hide Exact, Loss.Rest;
    var g := l.Rest();
    forall r | r in g ensures DistinctIds(g[r]) { RestIds(l, r); }
    forall r, k | r in g && 0 <= k < |g[r]| ensures Edge(g, g[r][k].conn.id, r) { RestMutual(l, r, k); }
    forall r, x | r in g ensures Leading(g[r], None, x) == Bit(x in g && x != r) { RestReaches(l, r, x); }
    forall r, n, x | Edge(g, r, n)
      ensures r in g && n in g && Bit(x in Beyond(g, r, n)) == Bit(x == n) + Leading(g[n], Some(r), x)
    {
      RestBeyond(l, r, n, x);
    }
    IsExact(g);
  }

  lemma RestReaches(l: Loss, r: NetId, x: NetId)
    requires l.Ok() && r in l.Rest()
    ensures Leading(l.Rest()[r], None, x) == Bit(x in l.Rest() && x != r)
  {
    RestLeads(l, r, None, x);
    assert Leading(l.net[r], None, x) == Bit(x in l.net && x != r);
    if x in l.Lost() { assert x !in l.Rest(); } else { assert x in l.Rest() <==> x in l.net; }
  }
}
