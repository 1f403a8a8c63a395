/** Broadcasts in a whole tree of routers, each forwarding by the split-horizon rule of its own
  * table, with messages delivered in any order. */
module RouterTree {
  import opened Basics
  import opened Messages
  import opened RouteModel
  import opened RouteTheory

  /** Every net with its route table. A local net is a leaf with one connection, to its router. */
  type Net = map<NetId, Table>

  /** The nets beyond a connection: its own id and its branches. */
  function Via(r: Route): set<NetId> { {r.conn.id} + set n | n in r.branches }

  /** The nets are neighbours: r's table has a connection to n. */
  ghost predicate Edge(net: Net, r: NetId, n: NetId) {
    r in net && n in net && FindNeighbour(net[r], n) < |net[r]|
  }

  ghost function Beyond(net: Net, r: NetId, n: NetId): set<NetId>
    requires Edge(net, r, n)
  {
    Via(net[r][FindNeighbour(net[r], n)])
  }

  function Bit(b: bool): nat { if b then 1 else 0 }

  /** How many connections, one to an excepted neighbour aside, lead to x. */
  function Leading(t: Table, except: Option<NetId>, x: NetId): nat {
    if t == [] then 0
    else Bit(except != Some(t[0].conn.id) && x in Via(t[0])) + Leading(t[1..], except, x)
  }

  /** The tables are exact: neighbours are mutual, every other net lies behind exactly one
    * connection, nothing else does, and what lies beyond a neighbour is the neighbour itself and
    * whatever its other connections lead to. */
  ghost predicate Exact(net: Net) {
    && (forall r :: r in net ==> DistinctIds(net[r]))
    && (forall r, k {:trigger net[r][k]} :: r in net && 0 <= k < |net[r]| ==> Edge(net, net[r][k].conn.id, r))
    && (forall r, x {:trigger Leading(net[r], None, x)} :: r in net ==>
          Leading(net[r], None, x) == Bit(x in net && x != r))
    && (forall r, n, x {:trigger Edge(net, r, n), Leading(net[n], Some(r), x)} :: Edge(net, r, n) ==>
          Bit(x in Beyond(net, r, n)) == Bit(x == n) + Leading(net[n], Some(r), x))
  }

  lemma IsExact(g: Net)
    requires forall r :: r in g ==> DistinctIds(g[r])
    requires forall r, k {:trigger g[r][k]} :: r in g && 0 <= k < |g[r]| ==> Edge(g, g[r][k].conn.id, r)
    requires forall r, x {:trigger Leading(g[r], None, x)} :: r in g ==> Leading(g[r], None, x) == Bit(x in g && x != r)
    requires forall r, n, x {:trigger Edge(g, r, n), Leading(g[n], Some(r), x)} :: Edge(g, r, n) ==>
      Bit(x in Beyond(g, r, n)) == Bit(x == n) + Leading(g[n], Some(r), x)
    ensures Exact(g)
  {
  }

  // ---------------------------------------------------------------- flooding

  /** A copy of the broadcast on its way from a net to its neighbour. */
  datatype Hop = Hop(at: NetId, to: NetId)

  /** Who received the broadcast so far, in order, and the copies under way. */
  datatype Flood = Flood(got: seq<NetId>, inflight: seq<Hop>)

  /** The copies a net hands to its connections for a broadcast that came from src. */
  function Forward(t: Table, at: NetId, src: NetId): seq<Hop> {
    if t == [] then []
    else (if Passes(t[0], src) then [Hop(at, t[0].conn.id)] else []) + Forward(t[1..], at, src)
  }

  function Start(net: Net, src: NetId): Flood
    requires src in net
  {
    Flood([], Forward(net[src], src, src))
  }

  /** Any copy may be delivered next; the receiver forwards at once. */
  function Deliver(net: Net, src: NetId, f: Flood, k: nat): Flood
    requires k < |f.inflight| && f.inflight[k].to in net
  {
    var n := f.inflight[k].to;
    Flood(f.got + [n], RemoveAt(f.inflight, k) + Forward(net[n], n, src))
  }

  function InSeq(s: seq<NetId>, x: NetId): nat {
    if s == [] then 0 else Bit(s[|s| - 1] == x) + InSeq(s[..|s| - 1], x)
  }

  ghost predicate Edges(net: Net, hops: seq<Hop>) {
    forall k :: 0 <= k < |hops| ==> Edge(net, hops[k].at, hops[k].to)
  }

  /** How many copies under way will pass x. */
  ghost function Pending(net: Net, hops: seq<Hop>, x: NetId): nat
    requires Edges(net, hops)
  {
    if hops == [] then 0
    else
      assert Edge(net, hops[0].at, hops[0].to);
      Bit(x in Beyond(net, hops[0].at, hops[0].to)) + Pending(net, hops[1..], x)
  }

  /** The invariant of every schedule: copies move away from the source along edges, and each net
    * other than the source has received the broadcast or will pass exactly one copy of it. */
  ghost predicate Sound(net: Net, src: NetId, f: Flood) {
    && Edges(net, f.inflight)
    && (forall k :: 0 <= k < |f.inflight| ==> src !in Beyond(net, f.inflight[k].at, f.inflight[k].to))
    && (forall x :: InSeq(f.got, x) + Pending(net, f.inflight, x) == Bit(x in net && x != src))
  }

  // ---------------------------------------------------------------- counting

  lemma {:induction false} LeadHas(t: Table, except: Option<NetId>, k: nat, x: NetId)
    requires k < |t| && except != Some(t[k].conn.id) && x in Via(t[k])
    ensures Leading(t, except, x) >= 1
  {
    if k > 0 { LeadHas(t[1..], except, k - 1, x); }
  }

  /** Counting one connection apart. */
  lemma {:induction false} LeadSplit(t: Table, k: nat, x: NetId)
    requires DistinctIds(t) && k < |t|
    ensures Leading(t, None, x) == Leading(t, Some(t[k].conn.id), x) + Bit(x in Via(t[k]))
  {
    if k == 0 {
      LeadAll(t[1..], t[0].conn.id, x);
    } else {
      LeadSplit(t[1..], k - 1, x);
    }
  }

  lemma {:induction false} LeadAll(t: Table, id: NetId, x: NetId)
    requires forall k :: 0 <= k < |t| ==> t[k].conn.id != id
    ensures Leading(t, Some(id), x) == Leading(t, None, x)
  {
    if t != [] { LeadAll(t[1..], id, x); }
  }

  lemma NeighbourAt(t: Table, k: nat)
    requires DistinctIds(t) && k < |t|
    ensures FindNeighbour(t, t[k].conn.id) == k
  {
  }

  lemma {:induction false} SameNeighbour(a: Table, b: Table, r: NetId)
    requires |a| == |b| && forall k :: 0 <= k < |a| ==> a[k].conn == b[k].conn
    ensures FindNeighbour(a, r) == FindNeighbour(b, r)
  {
    if a != [] { SameNeighbour(a[1..], b[1..], r); }
  }

  lemma {:induction false} PendingConcat(net: Net, a: seq<Hop>, b: seq<Hop>, x: NetId)
    requires Edges(net, a) && Edges(net, b)
    ensures Edges(net, a + b)
    ensures Pending(net, a + b, x) == Pending(net, a, x) + Pending(net, b, x)
  {
    if a == [] {
      assert a + b == b;
    } else {
      assert (a + b)[1..] == a[1..] + b;
      PendingConcat(net, a[1..], b, x);
    }
  }

  lemma PendingRemove(net: Net, hops: seq<Hop>, k: nat, x: NetId)
    requires Edges(net, hops) && k < |hops|
    ensures Edges(net, RemoveAt(hops, k))
    ensures Pending(net, hops, x) == Pending(net, RemoveAt(hops, k), x) + Bit(x in Beyond(net, hops[k].at, hops[k].to))
  {
    var a, m, b := hops[..k], [hops[k]], hops[k + 1..];
    PendingConcat(net, m, b, x);
    PendingConcat(net, a, m + b, x);
    PendingConcat(net, a, b, x);
    assert hops == a + (m + b) && m[1..] == [];
  }

  lemma EntryIsEdge(net: Net, n: NetId, i: nat)
    requires Exact(net) && n in net && i < |net[n]|
    ensures Edge(net, n, net[n][i].conn.id) && Beyond(net, n, net[n][i].conn.id) == Via(net[n][i])
  {
    NeighbourAt(net[n], i);
    assert Edge(net, net[n][i].conn.id, n);
  }

  lemma PendingCons(net: Net, h: Hop, rest: seq<Hop>, x: NetId)
    requires Edges(net, rest) && Edge(net, h.at, h.to)
    ensures Edges(net, [h] + rest)
    ensures Pending(net, [h] + rest, x) == Bit(x in Beyond(net, h.at, h.to)) + Pending(net, rest, x)
  {
    assert ([h] + rest)[1..] == rest;
  }

  /** If a net forwards to all its neighbours but one, its copies will pass what these lead to. */
  lemma {:induction false} PendingForward(net: Net, n: NetId, i: nat, src: NetId, except: Option<NetId>, x: NetId)
    requires Exact(net) && n in net && i <= |net[n]|
    requires forall k :: i <= k < |net[n]| ==> (Passes(net[n][k], src) <==> except != Some(net[n][k].conn.id))
    ensures var hops := Forward(net[n][i..], n, src);
      Edges(net, hops) && Pending(net, hops, x) == Leading(net[n][i..], except, x)
    decreases |net[n]| - i
  {
    hide Exact, Edge, Via;
    var t := net[n];
    if i < |t| {
      PendingForward(net, n, i + 1, src, except, x);
      assert t[i..][0] == t[i] && t[i..][1..] == t[i + 1..];
      EntryIsEdge(net, n, i);
      var rest := Forward(t[i + 1..], n, src);
      PendingCons(net, Hop(n, t[i].conn.id), rest, x);
      assert [] + rest == rest;
    } else {
      assert t[i..] == [];
    }
  }

  // ---------------------------------------------------------------- one delivery

  /** Looking from the receiver, the source lies behind the sender, and behind nobody else. */
  lemma SourceIsBehind(net: Net, src: NetId, r: NetId, n: NetId)
    requires Exact(net) && Edge(net, r, n) && src in net && src !in Beyond(net, r, n)
    ensures Edge(net, n, r) && src in Beyond(net, n, r)
    ensures forall k :: 0 <= k < |net[n]| ==> (Passes(net[n][k], src) <==> Some(r) != Some(net[n][k].conn.id))
  {
    var k := FindNeighbour(net[r], n);
    assert Edge(net, net[r][k].conn.id, r);
    LeadSplit(net[r], k, src);
    assert Bit(src in Beyond(net, n, r)) == Bit(src == r) + Leading(net[r], Some(n), src);
    var b := FindNeighbour(net[n], r);
    LeadSplit(net[n], b, src);
    assert Leading(net[n], None, src) <= 1;
    forall j | 0 <= j < |net[n]| && j != b ensures Passes(net[n][j], src) {
      if src in Via(net[n][j]) { LeadHas(net[n], Some(r), j, src); }
    }
  }

  /** Every delivery keeps the count: what the delivered copy stood for is the receiver and
    * what the receiver's own copies stand for. */
  lemma DeliverSound(net: Net, src: NetId, f: Flood, k: nat)
    requires Exact(net) && src in net && Sound(net, src, f) && k < |f.inflight|
    ensures f.inflight[k].to in net && Sound(net, src, Deliver(net, src, f, k))
  {
    var r, n := f.inflight[k].at, f.inflight[k].to;
    assert Edge(net, r, n);
    SourceIsBehind(net, src, r, n);
    var more, kept := Forward(net[n], n, src), RemoveAt(f.inflight, k);
    var g := Deliver(net, src, f, k);
    assert net[n][0..] == net[n];
    forall x
      ensures Edges(net, g.inflight) && InSeq(g.got, x) + Pending(net, g.inflight, x) == Bit(x in net && x != src)
    {
      PendingForward(net, n, 0, src, Some(r), x);
      PendingRemove(net, f.inflight, k, x);
      PendingConcat(net, kept, more, x);
      assert g.got[..|f.got|] == f.got;
      assert Bit(x in Beyond(net, r, n)) == Bit(x == n) + Leading(net[n], Some(r), x);
    }
    NoneBack(net, src, g);
  }

  /** No copy under way leads back to the source. */
  lemma NoneBack(net: Net, src: NetId, f: Flood)
    requires Edges(net, f.inflight)
    requires InSeq(f.got, src) + Pending(net, f.inflight, src) == 0
    ensures forall k :: 0 <= k < |f.inflight| ==> src !in Beyond(net, f.inflight[k].at, f.inflight[k].to)
  {
    forall k | 0 <= k < |f.inflight| ensures src !in Beyond(net, f.inflight[k].at, f.inflight[k].to) {
      PendingRemove(net, f.inflight, k, src);
    }
  }

  lemma StartSound(net: Net, src: NetId)
    requires Exact(net) && src in net
    ensures Sound(net, src, Start(net, src))
  {
    var f := Start(net, src);
    assert net[src][0..] == net[src];
    forall k | 0 <= k < |net[src]| ensures Passes(net[src][k], src) {
      if src in Via(net[src][k]) { LeadHas(net[src], None, k, src); }
    }
    forall x ensures Edges(net, f.inflight) && Pending(net, f.inflight, x) == Bit(x in net && x != src) {
      PendingForward(net, src, 0, src, None, x);
    }
    NoneBack(net, src, f);
  }

  // ---------------------------------------------------------------- the shape of the tree

  lemma {:induction false} LeadWitness(t: Table, except: Option<NetId>, x: NetId)
    requires Leading(t, except, x) >= 1
    ensures exists k :: 0 <= k < |t| && except != Some(t[k].conn.id) && x in Via(t[k])
  {
    if !(except != Some(t[0].conn.id) && x in Via(t[0])) {
      LeadWitness(t[1..], except, x);
      var k :| 0 <= k < |t| - 1 && except != Some(t[1..][k].conn.id) && x in Via(t[1..][k]);
      assert t[k + 1] == t[1..][k];
    }
  }

  /** What lies beyond a neighbour's further connection lies beyond the neighbour, which itself does not
    * lie beyond that connection. */
  lemma BeyondNarrows(net: Net, r: NetId, m: NetId, k: nat)
    requires Exact(net) && Edge(net, r, m) && k < |net[m]| && net[m][k].conn.id != r
    ensures Via(net[m][k]) <= Beyond(net, r, m) && m in Beyond(net, r, m) && m !in Via(net[m][k])
  {
    forall z | z in Via(net[m][k]) ensures z in Beyond(net, r, m) {
      LeadHas(net[m], Some(r), k, z);
      assert Bit(z in Beyond(net, r, m)) == Bit(z == m) + Leading(net[m], Some(r), z);
    }
    if m in Via(net[m][k]) { LeadHas(net[m], None, k, m); }
    assert Leading(net[m], None, m) == 0;
  }

  lemma SmallerSet(a: set<NetId>, b: set<NetId>, x: NetId)
    requires a <= b && x in b && x !in a
    ensures |a| < |b|
  {
    assert |b - a| == |b| - |a|;
    assert x in b - a;
  }

  /** Nets that are linked lie beyond the same connections, but for the net that looks on. */
  lemma {:induction false} LinkedStayTogether(net: Net, r: NetId, m: NetId, x: NetId, y: NetId)
    requires Exact(net) && Edge(net, r, m) && x in Beyond(net, r, m) && Edge(net, x, y) && y != r
    ensures y in Beyond(net, r, m)
    decreases |Beyond(net, r, m)|
  {
    assert Bit(x in Beyond(net, r, m)) == Bit(x == m) + Leading(net[m], Some(r), x);
    assert Bit(y in Beyond(net, r, m)) == Bit(y == m) + Leading(net[m], Some(r), y);
    if x == m {
      LeadHas(net[m], Some(r), FindNeighbour(net[m], y), y);
    } else if y != m {
      LeadWitness(net[m], Some(r), x);
      var k :| 0 <= k < |net[m]| && Some(r) != Some(net[m][k].conn.id) && x in Via(net[m][k]);
      EntryIsEdge(net, m, k);
      BeyondNarrows(net, r, m, k);
      SmallerSet(Via(net[m][k]), Beyond(net, r, m), m);
      LinkedStayTogether(net, m, net[m][k].conn.id, x, y);
    }
  }

  // ---------------------------------------------------------------- whole runs

  /** A schedule picks, step by step, which copy arrives next. */
  ghost predicate Schedule(net: Net, src: NetId, f: Flood, picks: seq<nat>)
    decreases |picks|
  {
    picks == [] ||
    (picks[0] < |f.inflight| && f.inflight[picks[0]].to in net
     && Schedule(net, src, Deliver(net, src, f, picks[0]), picks[1..]))
  }

  ghost function Played(net: Net, src: NetId, f: Flood, picks: seq<nat>): Flood
    requires Schedule(net, src, f, picks)
    decreases |picks|
  {
    if picks == [] then f else Played(net, src, Deliver(net, src, f, picks[0]), picks[1..])
  }

  lemma {:induction false} PlayedSound(net: Net, src: NetId, f: Flood, picks: seq<nat>)
    requires Exact(net) && src in net && Sound(net, src, f) && Schedule(net, src, f, picks)
    ensures Sound(net, src, Played(net, src, f, picks))
    ensures |Played(net, src, f, picks).got| == |f.got| + |picks|
    decreases |picks|
  {
    if picks != [] {
      DeliverSound(net, src, f, picks[0]);
      PlayedSound(net, src, Deliver(net, src, f, picks[0]), picks[1..]);
    }
  }

  lemma {:induction false} InSeqMember(s: seq<NetId>, x: NetId)
    ensures x in s <==> InSeq(s, x) >= 1
  {
    if s != [] {
      InSeqMember(s[..|s| - 1], x);
      assert s == s[..|s| - 1] + [s[|s| - 1]];
    }
  }

  lemma {:induction false} AtMostOnce(s: seq<NetId>, all: set<NetId>)
    requires forall x :: InSeq(s, x) <= Bit(x in all)
    ensures |s| <= |all|
  {
    if s != [] {
      var last, init := s[|s| - 1], s[..|s| - 1];
      forall x ensures InSeq(init, x) <= Bit(x in all - {last}) {
        assert InSeq(s, x) == Bit(last == x) + InSeq(init, x);
      }
      AtMostOnce(init, all - {last});
      assert InSeq(s, last) >= 1;
    }
  }

  /** The flooding theorem. Whatever the schedule: no net receives the broadcast twice and the source
    * never does; there are fewer deliveries than nets; and once no copy is under way every net other
    * than the source has received it exactly once. */
  lemma BroadcastReachesEveryNetOnce(net: Net, src: NetId, picks: seq<nat>)
    requires Exact(net) && src in net && Schedule(net, src, Start(net, src), picks)
    ensures var f := Played(net, src, Start(net, src), picks);
      && (forall x :: InSeq(f.got, x) <= Bit(x in net && x != src))
      && |picks| < |net|
      && (f.inflight == [] ==> forall x :: InSeq(f.got, x) == Bit(x in net && x != src))
  {
    StartSound(net, src);
    PlayedSound(net, src, Start(net, src), picks);
    var f := Played(net, src, Start(net, src), picks);
    forall x ensures InSeq(f.got, x) <= Bit(x in net.Keys - {src}) {
      assert InSeq(f.got, x) + Pending(net, f.inflight, x) == Bit(x in net && x != src);
    }
    AtMostOnce(f.got, net.Keys - {src});
    assert |net.Keys - {src}| == |net.Keys| - 1;
    if f.inflight == [] {
      forall x ensures InSeq(f.got, x) == Bit(x in net && x != src) {
        assert Pending(net, f.inflight, x) == 0;
        assert InSeq(f.got, x) + Pending(net, f.inflight, x) == Bit(x in net && x != src);
      }
    }
  }

  /** .. and no schedule gets stuck before that: a copy under way can always be delivered. */
  lemma DeliveryIsPossible(net: Net, src: NetId, picks: seq<nat>, k: nat)
    requires Exact(net) && src in net && Schedule(net, src, Start(net, src), picks)
    requires k < |Played(net, src, Start(net, src), picks).inflight|
    ensures Schedule(net, src, Played(net, src, Start(net, src), picks), [k])
  {
    StartSound(net, src);
    PlayedSound(net, src, Start(net, src), picks);
    DeliverSound(net, src, Played(net, src, Start(net, src), picks), k);
  }
}
