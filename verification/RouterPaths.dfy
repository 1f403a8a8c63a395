/** A message for one net on its way through a tree of routers, each sending it on by its own table. */
module RouterPaths {
  import opened Basics
  import opened Messages
  import opened RouteModel
  import opened RouteTheory
  import opened RouterTree
  import RouterNews
  import SwitchModel

  /** Nets along links. */
  ghost predicate Path(net: Net, p: seq<NetId>) {
    && p != []
    && (forall k :: 0 <= k < |p| ==> p[k] in net)
    && (forall k :: 0 <= k < |p| - 1 ==> Edge(net, p[k], p[k + 1]))
  }

  /** The neighbour behind which another net lies. */
  ghost predicate Toward(net: Net, n: NetId, x: NetId, next: NetId) {
    Edge(net, n, next) && x in Beyond(net, n, next)
  }

  /** The first connection that leads to a net. */
  function LeadsTo(t: Table, x: NetId): (r: nat)
    ensures r <= |t| && (r < |t| ==> x in Via(t[r])) && forall k :: 0 <= k < r ==> x !in Via(t[k])
  {
    if t == [] || x in Via(t[0]) then 0 else 1 + LeadsTo(t[1..], x)
  }

  lemma LeadsSomewhere(net: Net, n: NetId, x: NetId)
    requires Exact(net) && n in net && x in net && x != n
    ensures LeadsTo(net[n], x) < |net[n]| && Toward(net, n, x, net[n][LeadsTo(net[n], x)].conn.id)
  {
    assert Leading(net[n], None, x) == 1;
    LeadWitness(net[n], None, x);
    EntryIsEdge(net, n, LeadsTo(net[n], x));
  }

  ghost function NextOn(net: Net, n: NetId, x: NetId): (r: NetId)
    requires Exact(net) && n in net && x in net && x != n
    ensures Toward(net, n, x, r)
  {
    LeadsSomewhere(net, n, x);
    net[n][LeadsTo(net[n], x)].conn.id
  }

  lemma OneToward(net: Net, n: NetId, x: NetId, a: NetId, b: NetId)
    requires Exact(net) && Toward(net, n, x, a) && Toward(net, n, x, b)
    ensures a == b
  {
    var i, j := FindNeighbour(net[n], a), FindNeighbour(net[n], b);
    assert Leading(net[n], None, x) <= 1;
    LeadSplit(net[n], i, x);
    if a != b { LeadHas(net[n], Some(a), j, x); }
  }

  /** From the neighbour the way goes on, away from here, and there is less to look at. */
  lemma Onward(net: Net, n: NetId, x: NetId, a: NetId, b: NetId)
    requires Exact(net) && Toward(net, n, x, a) && x != a && Toward(net, a, x, b)
    ensures b != n && Beyond(net, a, b) < Beyond(net, n, a)
  {
    assert Bit(x in Beyond(net, n, a)) == Bit(x == a) + Leading(net[a], Some(n), x);
    LeadWitness(net[a], Some(n), x);
    var k :| 0 <= k < |net[a]| && Some(n) != Some(net[a][k].conn.id) && x in Via(net[a][k]);
    EntryIsEdge(net, a, k);
    OneToward(net, a, x, b, net[a][k].conn.id);
    BeyondNarrows(net, n, a, k);
  }

  lemma Back(net: Net, n: NetId, x: NetId, m: NetId)
    requires Exact(net) && Edge(net, n, m) && x in net && !Toward(net, n, x, m)
    ensures Toward(net, m, x, n)
  {
    SourceIsBehind(net, x, n, m);
  }

  lemma ProperSubset(a: set<NetId>, b: set<NetId>)
    requires a < b
    ensures |a| < |b|
  {
    var x :| x in b && x !in a;
    SmallerSet(a, b, x);
  }

  /** How many nets lie beyond the neighbour that leads to x. */
  ghost function Remaining(net: Net, n: NetId, x: NetId): nat
    requires Exact(net) && n in net && x in net
  {
    if n == x then 0 else |Beyond(net, n, NextOn(net, n, x))|
  }

  lemma Nearer(net: Net, n: NetId, x: NetId)
    requires Exact(net) && n in net && x in net && x != n
    ensures NextOn(net, n, x) in net && Remaining(net, NextOn(net, n, x), x) < Remaining(net, n, x)
  {
    var a := NextOn(net, n, x);
    if a != x {
      Onward(net, n, x, a, NextOn(net, a, x));
      ProperSubset(Beyond(net, a, NextOn(net, a, x)), Beyond(net, n, a));
    } else {
      assert a in Beyond(net, n, a);
    }
  }

  /** The way from n to x. */
  ghost function Way(net: Net, n: NetId, x: NetId): (r: seq<NetId>)
    requires Exact(net) && n in net && x in net
    ensures r != [] && r[0] == n && r[|r| - 1] == x
    decreases Remaining(net, n, x)
  {
    if n == x then [x]
    else
      Nearer(net, n, x);
      [n] + Way(net, NextOn(net, n, x), x)
  }

  lemma {:induction false} WayIsPath(net: Net, n: NetId, x: NetId)
    requires Exact(net) && n in net && x in net
    ensures Path(net, Way(net, n, x))
    decreases Remaining(net, n, x)
  {
    if n != x {
      var next := NextOn(net, n, x);
      Nearer(net, n, x);
      WayIsPath(net, next, x);
      assert Edge(net, n, next);
      hide Exact, Way, NextOn, Remaining, Edge;
      PathFrom(net, n, Way(net, next, x));
    }
  }

  lemma PathFrom(net: Net, n: NetId, p: seq<NetId>)
    requires Path(net, p) && n in net && Edge(net, n, p[0])
    ensures Path(net, [n] + p)
  {
    hide Edge;
    var q := [n] + p;
    forall k | 0 <= k < |q| - 1 ensures Edge(net, q[k], q[k + 1]) {
      if k > 0 { assert Edge(net, p[k - 1], p[k]); }
    }
  }

  /** It is the shortest one. */
  lemma {:induction false} WayIsShortest(net: Net, p: seq<NetId>)
    requires Exact(net) && Path(net, p)
    ensures |Way(net, p[0], p[|p| - 1])| <= |p|
    decreases |p|
  {
    var n, x := p[0], p[|p| - 1];
    if |p| > 1 && n != x {
      var m := p[1];
      var rest := p[1..];
      assert Edge(net, p[0], p[1]);
      assert Path(net, rest) by {
        forall k | 0 <= k < |rest| - 1 ensures Edge(net, rest[k], rest[k + 1]) { assert Edge(net, p[k + 1], p[k + 2]); }
      }
      WayIsShortest(net, rest);
      Nearer(net, n, x);
      if Toward(net, n, x, m) {
        OneToward(net, n, x, m, NextOn(net, n, x));
      } else if m != x {
        Back(net, n, x, m);
        OneToward(net, m, x, n, NextOn(net, m, x));
      }
    }
  }

  // ---------------------------------------------------------------- a message on its way

  /** A message for one net, of a kind that is just passed on. */
  predicate ForOneNet(m: NetMsg) {
    && !IsBroadcast(m) && m.dst.net != NULL_NET
    && m.kind !in {NetNew, NetLost, UserEnumRequest, TypeInvalid, TypeNull}
  }

  /** A net sends such a message to the neighbour that leads to where it is for, and to no other. */
  lemma SendTakesNext(net: Net, n: NetId, m: NetMsg)
    requires Exact(net) && n in net && m.dst.net in net && n != m.dst.net && !IsBroadcast(m)
    ensures |Send(net[n], m)| == 1
    ensures Send(net[n], m)[0].to.id == NextOn(net, n, m.dst.net) && Send(net[n], m)[0].msg == m
  {
    var t, x, next := net[n], m.dst.net, NextOn(net, n, m.dst.net);
    var k := if FindNeighbour(t, x) < |t| then FindNeighbour(t, x) else FindBranch(t, x);
    LeadsSomewhere(net, n, x);
    if k < |t| {
      EntryIsEdge(net, n, k);
      OneToward(net, n, x, t[k].conn.id, next);
    }
    assert x in Via(t[LeadsTo(t, x)]);
    hide Exact, Leading;
  }

  function Sending(net: Net, n: NetId, m: NetMsg): Flood
    requires n in net
  {
    Flood([], RouterNews.Hops(n, Send(net[n], m)))
  }

  /** A copy arrives: the receiver switches it. */
  function Passing(net: Net, m: NetMsg, f: Flood, k: nat): Flood
    requires k < |f.inflight| && f.inflight[k].to in net && ForOneNet(m)
    requires FindNeighbour(net[f.inflight[k].to], f.inflight[k].at) < |net[f.inflight[k].to]|
  {
    var n, t := f.inflight[k].to, net[f.inflight[k].to];
    var conn := t[FindNeighbour(t, f.inflight[k].at)].conn;
    Flood(f.got + [n],
          RemoveAt(f.inflight, k) + RouterNews.Hops(n, SwitchModel.SwitchTable(t, n, conn, [], m).log))
  }

  ghost predicate Trip(net: Net, m: NetMsg, f: Flood, picks: seq<nat>)
    requires ForOneNet(m)
    decreases |picks|
  {
    picks == [] ||
    (picks[0] < |f.inflight| && f.inflight[picks[0]].to in net
     && FindNeighbour(net[f.inflight[picks[0]].to], f.inflight[picks[0]].at) < |net[f.inflight[picks[0]].to]|
     && Trip(net, m, Passing(net, m, f, picks[0]), picks[1..]))
  }

  ghost function Arrived(net: Net, m: NetMsg, f: Flood, picks: seq<nat>): Flood
    requires ForOneNet(m) && Trip(net, m, f, picks)
    decreases |picks|
  {
    if picks == [] then f else Arrived(net, m, Passing(net, m, f, picks[0]), picks[1..])
  }

  /** At the net it is for a message ends; elsewhere one copy is on its way to the next net. */
  lemma CopiesFrom(net: Net, n: NetId, m: NetMsg, conn: Qnet)
    requires Exact(net) && n in net && m.dst.net in net && ForOneNet(m)
    ensures RouterNews.Hops(n, SwitchModel.SwitchTable(net[n], n, conn, [], m).log)
         == if n == m.dst.net then [] else [Hop(n, NextOn(net, n, m.dst.net))]
    ensures n != m.dst.net ==> RouterNews.Hops(n, Send(net[n], m)) == [Hop(n, NextOn(net, n, m.dst.net))]
  {
    hide Exact, Send;
    if n != m.dst.net {
      SendTakesNext(net, n, m);
      OneHop(n, Send(net[n], m));
      assert [] + Send(net[n], m) == Send(net[n], m);
    }
  }

  lemma OneHop(n: NetId, log: seq<Sent>)
    requires |log| == 1
    ensures RouterNews.Hops(n, log) == [Hop(n, log[0].to.id)]
  {
    assert log[1..] == [];
  }

  lemma WayStep(net: Net, n: NetId, x: NetId)
    requires Exact(net) && n in net && x in net && n != x
    ensures NextOn(net, n, x) in net && Way(net, n, x) == [n] + Way(net, NextOn(net, n, x), x)
  {
    Nearer(net, n, x);
  }

  /** Where the copy is when the message got through the first k links of the way. */
  function Underway(way: seq<NetId>, k: nat): seq<Hop> {
    if k + 1 < |way| then [Hop(way[k], way[k + 1])] else []
  }

  lemma ArrivalMoves(net: Net, n: NetId, m: NetMsg, f: Flood)
    requires Exact(net) && n in net && m.dst.net in net && ForOneNet(m) && n != m.dst.net
    requires f.inflight == [Hop(n, NextOn(net, n, m.dst.net))]
    ensures var next := NextOn(net, n, m.dst.net);
      && next in net && FindNeighbour(net[next], n) < |net[next]|
      && Passing(net, m, f, 0)
         == Flood(f.got + [next], if next == m.dst.net then [] else [Hop(next, NextOn(net, next, m.dst.net))])
  {
    var next := NextOn(net, n, m.dst.net);
    var k := FindNeighbour(net[n], next);
    assert Toward(net, n, m.dst.net, next);
    assert Edge(net, net[n][k].conn.id, n);
    hide Exact, SwitchModel.SwitchTable;
    CopiesFrom(net, next, m, net[next][FindNeighbour(net[next], n)].conn);
    assert RemoveAt(f.inflight, 0) == [];
  }

  lemma TripStep(net: Net, m: NetMsg, f: Flood, picks: seq<nat>)
    requires ForOneNet(m) && Trip(net, m, f, picks) && picks != [] && |f.inflight| <= 1
    ensures |f.inflight| == 1 && f.inflight[0].to in net
    ensures FindNeighbour(net[f.inflight[0].to], f.inflight[0].at) < |net[f.inflight[0].to]|
    ensures var g := Passing(net, m, f, 0);
      Trip(net, m, g, picks[1..]) && Arrived(net, m, f, picks) == Arrived(net, m, g, picks[1..])
  {
    hide Passing;
  }

  /** From a net on the way: the nets reached are the next ones of the way, in order, and the trip is over when the
    * way is. */
  lemma {:induction false} TripFrom(net: Net, n: NetId, m: NetMsg, f: Flood, picks: seq<nat>)
    requires Exact(net) && n in net && m.dst.net in net && ForOneNet(m) && Trip(net, m, f, picks)
    requires f.inflight == if n == m.dst.net then [] else [Hop(n, NextOn(net, n, m.dst.net))]
    ensures var r, way := Arrived(net, m, f, picks), Way(net, n, m.dst.net);
      |picks| < |way| && r == Flood(f.got + way[1..|picks| + 1], Underway(way, |picks|))
    decreases |picks|
  {
    hide Exact, NextOn, Passing, Trip, Arrived, Way, ForOneNet;
    var way := Way(net, n, m.dst.net);
    if n == m.dst.net { assert Way(net, n, n) == [n] by { WayEnds(net, n); } } else { WayStep(net, n, m.dst.net); }
    if picks == [] {
      NoTrip(net, m, f);
      assert f.got + way[1..1] == f.got;
    } else {
      TripStep(net, m, f, picks);
      ArrivalMoves(net, n, m, f);
      var next := NextOn(net, n, m.dst.net);
      TripFrom(net, next, m, Passing(net, m, f, 0), picks[1..]);
      var rest := Way(net, next, m.dst.net);
      Behind(f.got, way, n, rest, |picks|);
    }
  }

  lemma Behind(got: seq<NetId>, way: seq<NetId>, n: NetId, rest: seq<NetId>, k: nat)
    requires way == [n] + rest && 0 < k <= |rest|
    ensures got + way[1..k + 1] == got + [rest[0]] + rest[1..k]
    ensures Underway(way, k) == Underway(rest, k - 1)
  {
  }

  lemma WholeWay(way: seq<NetId>, k: nat)
    requires k < |way|
    ensures [] + way[1..k + 1] == way[1..k + 1]
    ensures way[1..k + 1] == way[1..] <==> Underway(way, k) == []
  {
    assert |way[1..k + 1]| == k && |way[1..]| == |way| - 1;
  }

  lemma WayEnds(net: Net, n: NetId)
    requires Exact(net) && n in net
    ensures Way(net, n, n) == [n]
  {
  }

  lemma NoTrip(net: Net, m: NetMsg, f: Flood)
    requires ForOneNet(m)
    ensures Trip(net, m, f, []) && Arrived(net, m, f, []) == f
  {
  }

  /** A message for one net, sent by another: whatever arrives when, it visits the nets of the way, the shortest there
    * is, one after the other and no others, and ends where it is for. */
  lemma MessageTakesTheWay(net: Net, n: NetId, m: NetMsg, picks: seq<nat>)
    requires Exact(net) && n in net && m.dst.net in net && n != m.dst.net && ForOneNet(m)
    requires Trip(net, m, Sending(net, n, m), picks)
    ensures var r, way := Arrived(net, m, Sending(net, n, m), picks), Way(net, n, m.dst.net);
      && |picks| < |way| && r.got == way[1..|picks| + 1]
      && (r.inflight == [] <==> r.got == way[1..])
      && (forall p :: p != [] && Path(net, p) && p[0] == n && p[|p| - 1] == m.dst.net ==> |way| <= |p|)
  {
    hide Exact, Trip, Arrived, Edge, Way, Path, ForOneNet, Send;
    CopiesFrom(net, n, m, Qnet(0, n));
    TripFrom(net, n, m, Sending(net, n, m), picks);
    var way := Way(net, n, m.dst.net);
    WholeWay(way, |picks|);
    hide Underway;
    forall p | p != [] && Path(net, p) && p[0] == n && p[|p| - 1] == m.dst.net ensures |way| <= |p| {
      WayIsShortest(net, p);
    }
  }

  /** .. and until then the copy can always arrive. */
  lemma TripGoesOn(net: Net, n: NetId, m: NetMsg, picks: seq<nat>)
    requires Exact(net) && n in net && m.dst.net in net && n != m.dst.net && ForOneNet(m)
    requires Trip(net, m, Sending(net, n, m), picks)
    ensures var r := Arrived(net, m, Sending(net, n, m), picks); r.inflight != [] ==> Trip(net, m, r, [0])
  {
    hide Trip, Arrived, Way, ForOneNet, Send, Passing;
    CopiesFrom(net, n, m, Qnet(0, n));
    TripFrom(net, n, m, Sending(net, n, m), picks);
    WayIsPath(net, n, m.dst.net);
    var way, k, r := Way(net, n, m.dst.net), |picks|, Arrived(net, m, Sending(net, n, m), picks);
    if k + 1 < |way| {
      assert Edge(net, way[k], way[k + 1]);
      var e := FindNeighbour(net[way[k]], way[k + 1]);
      assert Edge(net, net[way[k]][e].conn.id, way[k]);
      hide Exact;
      OneArrival(net, m, r);
    }
  }

  lemma OneArrival(net: Net, m: NetMsg, f: Flood)
    requires ForOneNet(m) && |f.inflight| == 1 && f.inflight[0].to in net
    requires FindNeighbour(net[f.inflight[0].to], f.inflight[0].at) < |net[f.inflight[0].to]|
    ensures Trip(net, m, f, [0])
  {
    assert [0][1..] == [];
  }
}
