/** How the news of a joining net spreads. Every net that hears of it for the first time announces it and
  * passes the copy it got on as well, so that a net is told once per link between it and the join. */
module RouterNews {
  import opened Basics
  import opened Messages
  import opened RouteModel
  import opened RouteTheory
  import opened RouterTree
  import opened RouterGrowth
  import SwitchModel

  /** The sends of one net's table as copies under way. */
  function Hops(at: NetId, log: seq<Sent>): seq<Hop> {
    if log == [] then [] else [Hop(at, log[0].to.id)] + Hops(at, log[1..])
  }

  lemma {:induction false} HopsConcat(at: NetId, a: seq<Sent>, b: seq<Sent>)
    ensures Hops(at, a + b) == Hops(at, a) + Hops(at, b)
  {
    if a == [] {
      assert a + b == b;
    } else {
      assert (a + b)[1..] == a[1..] + b;
      HopsConcat(at, a[1..], b);
    }
  }

  lemma {:induction false} BroadcastIsForward(t: Table, at: NetId, m: NetMsg)
    ensures Hops(at, Broadcast(t, m)) == Forward(t, at, m.src.net)
  {
    if t != [] {
      BroadcastIsForward(t[1..], at, m);
      var rest := Broadcast(t[1..], m);
      if Passes(t[0], m.src.net) {
        assert ([Sent(t[0].conn, m)] + rest)[1..] == rest;
      } else {
        assert [] + rest == rest;
      }
    }
  }

  lemma GrownKeys(j: Join)
    requires j.at in j.net
    ensures j.Grown().Keys == j.net.Keys + {j.leaf}
  {
  }

  // ---------------------------------------------------------------- the nets on the way

  /** The way from src to x leads through n, or ends there. */
  ghost predicate OnWay(net: Net, src: NetId, n: NetId, x: NetId)
    requires n in net
  {
    n == x || exists k :: 0 <= k < |net[n]| && x in Via(net[n][k]) && src !in Via(net[n][k])
  }

  /** A link that leads away from src leads exactly to the nets whose way leads through its far end. */
  lemma OnWayIsBeyond(net: Net, src: NetId, r: NetId, n: NetId, x: NetId)
    requires Exact(net) && Edge(net, r, n) && src in net && src !in Beyond(net, r, n)
    ensures x in Beyond(net, r, n) <==> OnWay(net, src, n, x)
  {
    SourceIsBehind(net, src, r, n);
    var b := FindNeighbour(net[n], r);
    assert Bit(x in Beyond(net, r, n)) == Bit(x == n) + Leading(net[n], Some(r), x);
    if Leading(net[n], Some(r), x) >= 1 {
      LeadWitness(net[n], Some(r), x);
      var k :| 0 <= k < |net[n]| && Some(r) != Some(net[n][k].conn.id) && x in Via(net[n][k]);
      assert Passes(net[n][k], src);
    }
    if k :| 0 <= k < |net[n]| && x in Via(net[n][k]) && src !in Via(net[n][k]) {
      assert k != b;
      LeadHas(net[n], Some(r), k, x);
    }
  }

  /** The old nets, other than the one that was joined, on the way from it to x. */
  ghost function Way(j: Join, x: NetId): set<NetId>
    requires j.at in j.net
  {
    set n | n in j.net && n != j.at && OnWay(j.Grown(), j.leaf, n, x)
  }

  /** How many links away from the join x is. */
  ghost function Depth(j: Join, x: NetId): nat
    requires j.at in j.net
  {
    |Way(j, x)|
  }

  /** The nets before x that have yet to hear. */
  ghost function Ahead(j: Join, got: seq<NetId>, x: NetId): set<NetId>
    requires j.at in j.net
  {
    set n | n in Way(j, x) && n != x && n !in got
  }

  lemma Counted(a: set<NetId>, b: set<NetId>, x: NetId)
    requires a == b - {x}
    ensures |a| == |b| - Bit(x in b)
  {
  }

  /** From any net but the leaf, a way to where the leaf joined is the way to the leaf. */
  lemma TowardJoin(j: Join, n: NetId, k: nat)
    requires j.Ok() && n in j.net && n != j.at && k < |j.Grown()[n]|
    ensures j.at in Via(j.Grown()[n][k]) <==> j.leaf in Via(j.Grown()[n][k])
  {
    OutsiderUnknown(j.net, n, j.leaf);
    ViaExtend(j.net[n][k], j.leaf);
  }

  /** Away from the leaf, the way never leads to where the leaf joined. */
  lemma NotJoined(j: Join, p: NetId, c: NetId)
    requires j.Ok()
    requires Edge(j.Grown(), p, c) && j.leaf !in Beyond(j.Grown(), p, c) && p != j.leaf
    ensures c in j.net && c != j.at
  {
    var g := j.Grown();
    GrownExact(j);
    assert Bit(j.leaf in Beyond(g, p, c)) == Bit(j.leaf == c) + Leading(g[c], Some(p), j.leaf);
    if c == j.at { LeadHas(g[c], Some(p), |j.net[c]|, j.leaf); }
  }

  lemma NotBack(net: Net, src: NetId, p: NetId, c: NetId)
    requires Exact(net) && Edge(net, p, c) && src in net && src !in Beyond(net, p, c)
    ensures !OnWay(net, src, c, p)
  {
    SourceIsBehind(net, src, p, c);
    var b := FindNeighbour(net[c], p);
    LeadSplit(net[c], b, p);
    assert Leading(net[c], None, p) <= 1;
    forall k | 0 <= k < |net[c]| && p in Via(net[c][k]) ensures src in Via(net[c][k]) {
      if k != b { LeadHas(net[c], Some(p), k, p); }
    }
    LeadHas(net[c], None, b, p);
  }

  /** The way to the near end of a link and the way to its far end lead through the same other nets. */
  lemma SameWay(j: Join, p: NetId, c: NetId, n: NetId)
    requires j.Ok() && n in j.net && n != c
    requires Edge(j.Grown(), p, c) && j.leaf !in Beyond(j.Grown(), p, c)
    ensures OnWay(j.Grown(), j.leaf, n, c) <==> OnWay(j.Grown(), j.leaf, n, p)
  {
    var g := j.Grown();
    GrownExact(j);
    SourceIsBehind(g, j.leaf, p, c);
    if n != p {
      forall k | 0 <= k < |g[n]| ensures c in Via(g[n][k]) <==> p in Via(g[n][k]) {
        EntryIsEdge(g, n, k);
        if c in Via(g[n][k]) { LinkedStayTogether(g, n, g[n][k].conn.id, c, p); }
        if p in Via(g[n][k]) { LinkedStayTogether(g, n, g[n][k].conn.id, p, c); }
      }
    } else {
      assert c in Via(g[p][FindNeighbour(g[p], c)]);
    }
  }

  lemma JoinedFirst(j: Join)
    requires j.Ok()
    ensures Depth(j, j.at) == 0
  {
    var g := j.Grown();
    forall n | n in j.net && n != j.at ensures !OnWay(g, j.leaf, n, j.at) {
      forall k | 0 <= k < |g[n]| ensures !(j.at in Via(g[n][k]) && j.leaf !in Via(g[n][k])) { TowardJoin(j, n, k); }
    }
    assert Way(j, j.at) == {};
  }

  /** The joined net is at depth 0, and a step away from the leaf adds one. */
  lemma DepthStep(j: Join, p: NetId, c: NetId)
    requires j.Ok()
    requires Edge(j.Grown(), p, c) && j.leaf !in Beyond(j.Grown(), p, c) && p != j.leaf
    ensures Depth(j, j.at) == 0
    ensures Depth(j, c) == Depth(j, p) + 1
  {
    var g := j.Grown();
    JoinedFirst(j);
    GrownExact(j);
    GrownKeys(j);
    NotJoined(j, p, c);
    NotBack(g, j.leaf, p, c);
    hide Exact, Join.Grown, Edge, Beyond;
    forall n | n in j.net && n != j.at && n != c
      ensures OnWay(g, j.leaf, n, c) <==> OnWay(g, j.leaf, n, p)
    {
      SameWay(j, p, c, n);
    }
    hide OnWay;
    OneMore(j, p, c);
  }

  lemma OneMore(j: Join, p: NetId, c: NetId)
    requires j.Ok() && c in j.net && c != j.at
    requires c in j.Grown() && !OnWay(j.Grown(), j.leaf, c, p)
    requires forall n :: n in j.net && n != j.at && n != c ==>
      n in j.Grown() && (OnWay(j.Grown(), j.leaf, n, c) <==> OnWay(j.Grown(), j.leaf, n, p))
    ensures Depth(j, c) == Depth(j, p) + 1
  {
    hide Exact, Join.Grown;
    assert c in Way(j, c);
    assert Way(j, p) == Way(j, c) - {c};
    Counted(Way(j, p), Way(j, c), c);
  }

  // ---------------------------------------------------------------- one arrival

  /** The connection the news came over is, in the old tree, the one that leads to where the leaf joined. */
  lemma NewsLeadsToAt(j: Join, r: NetId, n: NetId)
    requires j.Ok() && Edge(j.Grown(), r, n) && j.leaf !in Beyond(j.Grown(), r, n) && n != j.at && n != j.leaf
    ensures Edge(j.net, n, r) && r != j.leaf
    ensures var t := j.net[n];
      && DistinctIds(t) && Leading(t, None, j.at) == 1
      && j.at in Via(t[FindNeighbour(t, r)])
      && j.Grown()[n] == Extend(t, j.at, j.leaf)
      && (forall k :: 0 <= k < |t| ==> j.leaf !in Via(t[k]))
  {
    GrownExact(j);
    SourceIsBehind(j.Grown(), j.leaf, r, n);
    EdgeFromLeaf(j, n);
    EdgeElsewhere(j, n, r);
    OutsiderUnknown(j.net, n, j.leaf);
  }

  /** If just one connection leads to a net, no other does. */
  lemma OnlyWay(t: Table, k: nat, x: NetId)
    requires DistinctIds(t) && k < |t| && x in Via(t[k]) && Leading(t, None, x) == 1
    ensures forall i :: 0 <= i < |t| && i != k ==> x !in Via(t[i])
  {
    LeadSplit(t, k, x);
    forall i | 0 <= i < |t| && i != k ensures x !in Via(t[i]) {
      if x in Via(t[i]) { LeadHas(t, Some(t[k].conn.id), i, x); }
    }
  }

  /** With a single connection leading to a net, extending the table is extending that entry. */
  lemma ExtendsOne(t: Table, k: nat, at: NetId, leaf: NetId)
    requires DistinctIds(t) && k < |t| && at in Via(t[k]) && Leading(t, None, at) == 1
    ensures Extend(t, at, leaf) == t[k := t[k].(branches := t[k].branches + [leaf])]
  {
    OnlyWay(t, k, at);
  }

  lemma NotFound(t: Table, conn: Qnet)
    requires forall k :: 0 <= k < |t| ==> t[k].conn != conn
    ensures FindEntry(t, conn) == |t|
  {
  }

  lemma NotBranch(t: Table, nid: NetId)
    requires forall k :: 0 <= k < |t| ==> nid !in Via(t[k])
    ensures FindBranch(t, nid) == |t|
  {
  }

  /** The router code on an arriving announcement: parse_msg and then the forwarding of switch_msg. */
  function Arrival(t: Table, self: NetId, r: NetId, leaf: NetId): Step
    requires FindNeighbour(t, r) < |t| && leaf != NULL_NET
  {
    var conn := t[FindNeighbour(t, r)].conn;
    ConnFound(t, FindNeighbour(t, r));
    SwitchModel.SwitchTable(t, self, conn, [], RouteChange(leaf, true))
  }

  lemma ArrivalAdds(t: Table, self: NetId, r: NetId, leaf: NetId)
    requires FindNeighbour(t, r) < |t| && leaf != NULL_NET && self != BROADCAST_NET
    requires forall k :: 0 <= k < |t| ==> leaf !in Via(t[k])
    ensures var k := FindNeighbour(t, r);
      var t' := t[k := t[k].(branches := t[k].branches + [leaf])];
      var told := Broadcast(t', RouteChange(leaf, true));
      Arrival(t, self, r, leaf) == Step(t', told + told)
  {
    var k := FindNeighbour(t, r);
    NotBranch(t, leaf);
    ConnFound(t, k);
    assert FindEntry(t, t[k].conn) == k;
  }

  lemma ArrivalKnown(t: Table, self: NetId, r: NetId, leaf: NetId)
    requires FindNeighbour(t, r) < |t| && leaf != NULL_NET && self != BROADCAST_NET
    requires leaf in t[FindNeighbour(t, r)].branches
    ensures Arrival(t, self, r, leaf) == Step(t, Broadcast(t, RouteChange(leaf, true)))
  {
    ConnFound(t, FindNeighbour(t, r));
    var told := Broadcast(t, RouteChange(leaf, true));
    assert [] + told == told;
  }

  lemma HopsTwice(t: Table, n: NetId, leaf: NetId)
    ensures var told := Broadcast(t, RouteChange(leaf, true));
      && Hops(n, told) == Forward(t, n, leaf)
      && Hops(n, told + told) == Forward(t, n, leaf) + Forward(t, n, leaf)
  {
    var told := Broadcast(t, RouteChange(leaf, true));
    BroadcastIsForward(t, n, RouteChange(leaf, true));
    HopsConcat(n, told, told);
  }

  /** The first copy brings the table of the larger tree, and goes on twice: announced and passed on. */
  lemma FirstArrival(j: Join, r: NetId, n: NetId)
    requires j.Ok() && Edge(j.Grown(), r, n) && j.leaf !in Beyond(j.Grown(), r, n) && n != j.at && n != j.leaf
    ensures n in j.net && FindNeighbour(j.net[n], r) < |j.net[n]|
    ensures var s := Arrival(j.net[n], n, r, j.leaf);
      var onward := Forward(j.Grown()[n], n, j.leaf);
      s.table == j.Grown()[n] && Hops(n, s.log) == onward + onward
  {
    hide Exact, Leading, DistinctIds, Extend, Join.Grown, Beyond, Via, Arrival, Hops, Forward, Broadcast;
    NewsLeadsToAt(j, r, n);
    var t := j.net[n];
    ExtendsOne(t, FindNeighbour(t, r), j.at, j.leaf);
    ArrivalAdds(t, n, r, j.leaf);
    HopsTwice(j.Grown()[n], n, j.leaf);
  }

  /** A further copy finds the leaf in the table and is only passed on. */
  lemma LaterArrival(j: Join, r: NetId, n: NetId)
    requires j.Ok() && Edge(j.Grown(), r, n) && j.leaf !in Beyond(j.Grown(), r, n) && n != j.at && n != j.leaf
    ensures n in j.Grown() && FindNeighbour(j.Grown()[n], r) < |j.Grown()[n]|
    ensures var s := Arrival(j.Grown()[n], n, r, j.leaf);
      s.table == j.Grown()[n] && Hops(n, s.log) == Forward(j.Grown()[n], n, j.leaf)
  {
    hide Exact, Leading, DistinctIds, Extend, Join.Grown, Beyond, Via, Arrival, Hops, Forward, Broadcast;
    NewsLeadsToAt(j, r, n);
    var t := j.net[n];
    var k := FindNeighbour(t, r);
    ExtendsOne(t, k, j.at, j.leaf);
    var t' := j.Grown()[n];
    assert t' == t[k := t[k].(branches := t[k].branches + [j.leaf])];
    SameNeighbour(t, t', r);
    assert t'[k].branches[|t[k].branches|] == j.leaf;
    ArrivalKnown(t', n, r, j.leaf);
    HopsTwice(t', n, j.leaf);
  }

  // ---------------------------------------------------------------- the whole net

  /** The tables as they are while the news spreads, who was told so far, in order, and the copies under way. */
  datatype News = News(tables: Net, flood: Flood)

  /** The router at which the leaf appears inserts the connection and tells. */
  function FirstNews(j: Join): News
    requires j.at in j.net
  {
    var s := AddConn(j.net[j.at], Qnet(j.downLink, j.leaf));
    News(j.net[j.leaf := j.LeafTable()][j.at := s.table], Flood([], Hops(j.at, s.log)))
  }

  /** Any copy may arrive next. */
  function NextNews(w: News, leaf: NetId, k: nat): News
    requires k < |w.flood.inflight| && leaf != NULL_NET
    requires var h := w.flood.inflight[k];
      h.to in w.tables && FindNeighbour(w.tables[h.to], h.at) < |w.tables[h.to]|
  {
    var h := w.flood.inflight[k];
    var s := Arrival(w.tables[h.to], h.to, h.at, leaf);
    News(w.tables[h.to := s.table],
         Flood(w.flood.got + [h.to], RemoveAt(w.flood.inflight, k) + Hops(h.to, s.log)))
  }

  /** Copies move away from the leaf along links of the larger tree. */
  ghost predicate Outward(j: Join, hops: seq<Hop>)
    requires j.at in j.net
  {
    && Edges(j.Grown(), hops)
    && (forall k :: 0 <= k < |hops| ==>
          j.leaf !in Beyond(j.Grown(), hops[k].at, hops[k].to) && hops[k].at != j.leaf)
  }

  /** How often each net was told, how many copies will pass it and how many nets before it have yet to
    * double the copies: together its depth. */
  ghost predicate Conserved(j: Join, f: Flood)
    requires j.at in j.net && Edges(j.Grown(), f.inflight)
  {
    forall x :: InSeq(f.got, x) + Pending(j.Grown(), f.inflight, x) + |Ahead(j, f.got, x)| == Depth(j, x)
  }

  /** Nets that have heard hold their table of the larger tree, the others still their old one. */
  ghost predicate Spreading(j: Join, w: News) {
    && j.Ok()
    && w.tables.Keys == j.Grown().Keys
    && (forall x :: x in w.tables ==>
          w.tables[x] == if x in w.flood.got || x == j.at || x == j.leaf then j.Grown()[x] else j.net[x])
    && (forall x :: x in w.flood.got ==> x in j.net && x != j.at)
    && Outward(j, w.flood.inflight)
    && Conserved(j, w.flood)
  }

  /** What a net hands on of a copy that came outward stands for the nets beyond it. */
  lemma ForwardPends(j: Join, r: NetId, n: NetId)
    requires j.Ok() && Edge(j.Grown(), r, n) && j.leaf !in Beyond(j.Grown(), r, n)
    ensures n in j.net
    ensures var onward := Forward(j.Grown()[n], n, j.leaf);
      && Outward(j, onward)
      && forall x :: Bit(x in Beyond(j.Grown(), r, n)) == Bit(x == n) + Pending(j.Grown(), onward, x)
  {
    hide Join.Grown;
    var g := j.Grown();
    GrownExact(j);
    GrownKeys(j);
    SourceIsBehind(g, j.leaf, r, n);
    assert g[n][0..] == g[n];
    var onward := Forward(g[n], n, j.leaf);
    forall x ensures Edges(g, onward) && Bit(x in Beyond(g, r, n)) == Bit(x == n) + Pending(g, onward, x) {
      PendingForward(g, n, 0, j.leaf, Some(r), x);
    }
    NoneBack(g, j.leaf, Flood([], onward));
    AllFrom(g[n], n, j.leaf);
  }

  lemma {:induction false} AllFrom(t: Table, n: NetId, src: NetId)
    ensures forall k :: 0 <= k < |Forward(t, n, src)| ==> Forward(t, n, src)[k].at == n
  {
    if t != [] { AllFrom(t[1..], n, src); }
  }

  lemma FirstTables(j: Join)
    requires j.Ok()
    ensures var w := FirstNews(j);
      && w.tables.Keys == j.Grown().Keys
      && w.tables == j.net[j.leaf := j.LeafTable()][j.at := j.Grown()[j.at]]
      && w.flood == Flood([], Forward(j.Grown()[j.at], j.at, j.leaf))
  {
    var t, conn := j.net[j.at], Qnet(j.downLink, j.leaf);
    OutsiderUnknown(j.net, j.at, j.leaf);
    NotFound(t, conn);
    BroadcastIsForward(j.AtTable(), j.at, RouteChange(j.leaf, true));
    GrownKeys(j);
  }

  lemma FirstConserved(j: Join, onward: seq<Hop>)
    requires j.Ok() && Edges(j.Grown(), onward)
    requires forall x :: Bit(x in j.net) == Bit(x == j.at) + Pending(j.Grown(), onward, x)
    ensures Conserved(j, Flood([], onward))
  {
    hide Join.Grown, Pending, Exact, OnWay, Edge;
    forall x ensures InSeq([], x) + Pending(j.Grown(), onward, x) + |Ahead(j, [], x)| == Depth(j, x) {
      WayEndsThere(j, x);
      assert Ahead(j, [], x) == Way(j, x) - {x};
      Counted(Ahead(j, [], x), Way(j, x), x);
    }
  }

  lemma FirstSpreads(j: Join)
    requires j.Ok()
    ensures Spreading(j, FirstNews(j))
  {
    hide Exact, Forward, Hops, Extend, Pending, Edge, OnWay, Conserved;
    FirstTables(j);
    EdgeFromLeaf(j, j.at);
    ForwardPends(j, j.leaf, j.at);
    FirstConserved(j, Forward(j.Grown()[j.at], j.at, j.leaf));
  }

  lemma WayEndsThere(j: Join, x: NetId)
    requires j.at in j.net
    ensures x in Way(j, x) <==> x in j.net && x != j.at
  {
  }

  lemma WayIsBeyond(j: Join, r: NetId, n: NetId, x: NetId)
    requires j.Ok() && n in j.net && n != j.at
    requires Edge(j.Grown(), r, n) && j.leaf !in Beyond(j.Grown(), r, n)
    ensures n in Way(j, x) <==> x in Beyond(j.Grown(), r, n)
  {
    GrownExact(j);
    OnWayIsBeyond(j.Grown(), j.leaf, r, n, x);
    hide Exact, OnWay, Join.Grown, Edge;
  }

  /** The first time a net hears, it is no longer ahead of the nets beyond it. */
  lemma AheadStep(j: Join, got: seq<NetId>, n: NetId, x: NetId)
    requires j.at in j.net
    ensures |Ahead(j, got, x)| == |Ahead(j, got + [n], x)| + Bit(n !in got && n != x && n in Way(j, x))
  {
    hide Way;
    assert Ahead(j, got + [n], x) == Ahead(j, got, x) - {n};
    Counted(Ahead(j, got + [n], x), Ahead(j, got, x), n);
  }

  /** A net that hears for the first time hands on two copies for each it will pass, and later one. */
  lemma StepConserved(j: Join, f: Flood, k: nat, copies: nat)
    requires j.Ok() && Outward(j, f.inflight) && Conserved(j, f) && k < |f.inflight|
    requires f.inflight[k].to in j.net && f.inflight[k].to != j.at
    requires copies == 1 + Bit(f.inflight[k].to !in f.got)
    ensures var n := f.inflight[k].to;
      var onward := Forward(j.Grown()[n], n, j.leaf);
      var after := Flood(f.got + [n], RemoveAt(f.inflight, k) + if copies == 2 then onward + onward else onward);
      Outward(j, after.inflight) && Conserved(j, after)
  {
    hide Join.Grown, Exact, Edge, Way, Pending, Forward, InSeq;
    var g, r, n := j.Grown(), f.inflight[k].at, f.inflight[k].to;
    GrownKeys(j);
    var onward, kept := Forward(g[n], n, j.leaf), RemoveAt(f.inflight, k);
    var more := if copies == 2 then onward + onward else onward;
    ForwardPends(j, r, n);
    forall x
      ensures Edges(g, kept + more)
      ensures InSeq(f.got + [n], x) + Pending(g, kept + more, x) + |Ahead(j, f.got + [n], x)| == Depth(j, x)
    {
      PendingRemove(g, f.inflight, k, x);
      PendingConcat(g, onward, onward, x);
      PendingConcat(g, kept, more, x);
      InSeqSnoc(f.got, n, x);
      AheadStep(j, f.got, n, x);
      WayIsBeyond(j, r, n, x);
    }
  }

  lemma InSeqSnoc(s: seq<NetId>, n: NetId, x: NetId)
    ensures InSeq(s + [n], x) == InSeq(s, x) + Bit(n == x)
  {
    assert (s + [n])[..|s|] == s;
  }

  lemma OneMoreTable(j: Join, w: News, n: NetId, v: News)
    requires Spreading(j, w) && n in j.net && n != j.at && n in j.Grown()
    requires v.tables == w.tables[n := j.Grown()[n]] && v.flood.got == w.flood.got + [n]
    requires Outward(j, v.flood.inflight) && Conserved(j, v.flood)
    ensures Spreading(j, v)
  {
    hide Exact, Join.Grown, Outward, Conserved;
    assert forall x :: x in v.flood.got <==> x in w.flood.got || x == n;
  }

  lemma ArrivesAt(j: Join, w: News, k: nat)
    requires Spreading(j, w) && k < |w.flood.inflight|
    ensures var h := w.flood.inflight[k];
      && h.to in j.net && h.to != j.at && h.to in j.Grown() && h.to in w.tables
      && w.tables[h.to] == (if h.to in w.flood.got then j.Grown()[h.to] else j.net[h.to])
      && Edge(j.Grown(), h.at, h.to) && j.leaf !in Beyond(j.Grown(), h.at, h.to)
  {
    NotJoined(j, w.flood.inflight[k].at, w.flood.inflight[k].to);
    GrownKeys(j);
  }

  /** One more arrival. */
  lemma NewsSpreads(j: Join, w: News, k: nat)
    requires Spreading(j, w) && k < |w.flood.inflight|
    ensures var h := w.flood.inflight[k];
      h.to in w.tables && FindNeighbour(w.tables[h.to], h.at) < |w.tables[h.to]|
    ensures Spreading(j, NextNews(w, j.leaf, k))
  {
    ArrivesAt(j, w, k);
    assert j.Ok() && Outward(j, w.flood.inflight) && Conserved(j, w.flood);
    hide Exact, Join.Grown, Join.Ok, Forward, Hops, Arrival, Conserved, Outward, Edge, Beyond, Spreading, Extend;
    var h := w.flood.inflight[k];
    if h.to in w.flood.got {
      LaterArrival(j, h.at, h.to);
      StepConserved(j, w.flood, k, 1);
    } else {
      FirstArrival(j, h.at, h.to);
      StepConserved(j, w.flood, k, 2);
    }
    OneMoreTable(j, w, h.to, NextNews(w, j.leaf, k));
  }

  // ---------------------------------------------------------------- whole runs

  ghost predicate NewsSchedule(j: Join, w: News, picks: seq<nat>)
    requires Spreading(j, w)
    decreases |picks|
  {
    picks == [] || (picks[0] < |w.flood.inflight| && (
      NewsSpreads(j, w, picks[0]);
      NewsSchedule(j, NextNews(w, j.leaf, picks[0]), picks[1..])))
  }

  ghost function NewsPlayed(j: Join, w: News, picks: seq<nat>): (r: News)
    requires Spreading(j, w) && NewsSchedule(j, w, picks)
    ensures Spreading(j, r) && |r.flood.got| == |w.flood.got| + |picks|
    decreases |picks|
  {
    if picks == [] then w
    else
      NewsSpreads(j, w, picks[0]);
      NewsPlayed(j, NextNews(w, j.leaf, picks[0]), picks[1..])
  }

  function Without(s: seq<NetId>, x: NetId): seq<NetId> {
    if s == [] then [] else Without(s[..|s| - 1], x) + if s[|s| - 1] == x then [] else [s[|s| - 1]]
  }

  lemma {:induction false} WithoutCounts(s: seq<NetId>, x: NetId)
    ensures |Without(s, x)| + InSeq(s, x) == |s|
    ensures forall y :: InSeq(Without(s, x), y) == if y == x then 0 else InSeq(s, y)
  {
    if s != [] {
      var init, last := s[..|s| - 1], s[|s| - 1];
      WithoutCounts(init, x);
      forall y ensures InSeq(Without(s, x), y) == if y == x then 0 else InSeq(s, y) {
        if last == x {
          assert Without(init, x) + [] == Without(init, x);
        } else {
          InSeqSnoc(Without(init, x), last, y);
        }
      }
    }
  }

  /** A sequence that has each element of a set at most m times, and no others, is m times as long at most. */
  lemma {:induction false} AtMostTimes(s: seq<NetId>, all: set<NetId>, m: nat)
    requires forall x :: InSeq(s, x) <= if x in all then m else 0
    ensures |s| <= m * |all|
    decreases all
  {
    if s != [] { InSeqMember(s, s[|s| - 1]); }
    if x :| x in all {
      WithoutCounts(s, x);
      hide InSeq, Without;
      AtMostTimes(Without(s, x), all - {x}, m);
      OnceMore(m, all, x);
    }
  }

  lemma OnceMore(m: nat, all: set<NetId>, x: NetId)
    requires x in all
    ensures m * |all| == m * |all - {x}| + m
  {
    assert |all| == |all - {x}| + 1;
  }

  lemma NewsBound(j: Join, w: News)
    requires Spreading(j, w)
    ensures |w.flood.got| <= (|j.net| - 1) * (|j.net| - 1)
  {
    hide Exact, Join.Grown, OnWay, Edge, InSeq, Ahead;
    var others := j.net.Keys - {j.at};
    assert |others| == |j.net| - 1;
    forall x ensures InSeq(w.flood.got, x) <= if x in others then |others| else 0 {
      InSeqMember(w.flood.got, x);
      assert Way(j, x) <= others;
      SubsetSize(Way(j, x), others);
    }
    AtMostTimes(w.flood.got, others, |others|);
  }

  lemma SubsetSize(a: set<NetId>, b: set<NetId>)
    requires a <= b
    ensures |a| <= |b|
  {
    assert |b - a| == |b| - |a|;
  }

  lemma AllHeard(j: Join, w: News, x: NetId)
    requires Spreading(j, w) && w.flood.inflight == [] && x in j.net && x != j.at
    ensures x in w.flood.got
  {
    hide Exact, Join.Grown, OnWay, Edge;
    InSeqMember(w.flood.got, x);
    WayEndsThere(j, x);
    assert InSeq(w.flood.got, x) + Pending(j.Grown(), [], x) + |Ahead(j, w.flood.got, x)| == Depth(j, x);
    SmallerSet(Ahead(j, w.flood.got, x), Way(j, x), x);
  }

  lemma AllSettled(j: Join, w: News)
    requires Spreading(j, w) && w.flood.inflight == []
    ensures w.tables == j.Grown()
    ensures forall x :: InSeq(w.flood.got, x) == Depth(j, x)
  {
    hide Exact, Join.Grown, OnWay, Edge, InSeq;
    GrownKeys(j);
    forall x | x in j.net && x != j.at ensures x in w.flood.got { AllHeard(j, w, x); }
    assert forall x :: x in w.tables ==> w.tables[x] == j.Grown()[x];
    forall x ensures InSeq(w.flood.got, x) == Depth(j, x) {
      assert Ahead(j, w.flood.got, x) == {};
      assert InSeq(w.flood.got, x) + Pending(j.Grown(), [], x) + |Ahead(j, w.flood.got, x)| == Depth(j, x);
    }
  }

  /** When a leaf joins an exact tree, then whatever the order in which the copies arrive: no net is told
    * more often than it is links away from the join; the spreading ends; and when it has, every net was
    * told exactly that often, and all tables are those of the larger tree, and exact. */
  lemma AnnouncementMakesExact(j: Join, picks: seq<nat>)
    requires j.Ok()
    ensures Spreading(j, FirstNews(j))
    ensures NewsSchedule(j, FirstNews(j), picks) ==>
      var w := NewsPlayed(j, FirstNews(j), picks);
      && |picks| <= (|j.net| - 1) * (|j.net| - 1)
      && (forall x :: InSeq(w.flood.got, x) <= Depth(j, x))
      && (w.flood.inflight == [] ==>
            w.tables == j.Grown() && Exact(w.tables) && forall x :: InSeq(w.flood.got, x) == Depth(j, x))
  {
    hide Exact, Join.Grown, NewsSchedule, FirstNews, Edge, OnWay, Depth, InSeq;
    FirstSpreads(j);
    GrownExact(j);
    if NewsSchedule(j, FirstNews(j), picks) {
      var w := NewsPlayed(j, FirstNews(j), picks);
      NewsBound(j, w);
      assert Conserved(j, w.flood);
      if w.flood.inflight == [] { AllSettled(j, w); }
    }
  }

  /** .. and no schedule gets stuck before that: any copy under way can arrive next. */
  lemma NewsCanGoOn(j: Join, w: News, k: nat)
    requires Spreading(j, w) && k < |w.flood.inflight|
    ensures NewsSchedule(j, w, [k])
  {
    hide Spreading, NextNews, Join.Ok, Join.Grown, FindNeighbour;
    NewsSpreads(j, w, k);
    assert [k][1..] == [];
  }
}
