/** How the news of lost nets spreads, message by message, by the code as written. A router announces a loss
  * before it removes the net and passes the message on afterwards, when no connection holds the net any more:
  * so the message goes back to where it came from, and a router without the net announces it to everybody. */
module RouterLoss {
  import opened Basics
  import opened Messages
  import opened RouteModel
  import opened RouteTheory
  import opened RouterTree
  import opened RouterCut
  import RouteNotices
  import SwitchModel

  /** A message under way: the link it is on, and its id. */
  datatype Copy = Copy(at: NetId, to: NetId, id: nat)

  /** The tables, the id each router has seen last, what the message of each id says is lost, the routers that
    * acted on a message about the lost neighbour, and the messages under way. */
  datatype Losing = Losing(
    tables: Net, seen: map<NetId, nat>, said: seq<NetId>, got: set<NetId>, inflight: seq<Copy>)

  /** The sends of a net's table, all of one message. */
  function Copies(at: NetId, log: seq<Sent>, id: nat): seq<Copy> {
    if log == [] then [] else [Copy(at, log[0].to.id, id)] + Copies(at, log[1..], id)
  }

  /** One message per lost net, numbered from `id` on. */
  function Goodbyes(at: NetId, t: Table, nets: seq<NetId>, id: nat): seq<Copy> {
    if nets == [] then []
    else Copies(at, Send(t, RouteChange(nets[0], false)), id) + Goodbyes(at, t, nets[1..], id + 1)
  }

  /** The tables just after the connection was dropped. */
  ghost function Before(l: Loss): Net
    requires Edge(l.net, l.at, l.gone)
  {
    map r | r in l.net && r !in l.Lost() :: if r == l.at then RemoveAt(l.net[l.at], l.Place()) else l.net[r]
  }

  /** The net drops the connection and has told of each of the nets beyond it. */
  ghost function FirstLosing(l: Loss): Losing
    requires Edge(l.net, l.at, l.gone)
  {
    var nets := l.net[l.at][l.Place()].branches + [l.gone];
    Losing(Before(l), map[], nets, {}, Goodbyes(l.at, l.net[l.at], nets, 0))
  }

  /** The arrival of a message. A local net takes no notice, and a router none of the message it has seen last;
    * otherwise it parses the message, which sends a new one, and passes it on. */
  function Arrives(w: Losing, routers: set<NetId>, gone: NetId, k: nat): Losing
    requires k < |w.inflight|
    requires var h := w.inflight[k];
      && h.to in w.tables && FindNeighbour(w.tables[h.to], h.at) < |w.tables[h.to]|
      && h.id < |w.said| && w.said[h.id] != NULL_NET
  {
    var h := w.inflight[k];
    var others := RemoveAt(w.inflight, k);
    if h.to !in routers || (h.to in w.seen && w.seen[h.to] == h.id) then w.(inflight := others)
    else
      var t, m := w.tables[h.to], RouteChange(w.said[h.id], false);
      var e := FindNeighbour(t, h.at);
      ConnFound(t, e);
      var s := SwitchModel.ParseTable(t, h.to, t[e].conn, [], m);
      var passed := if SwitchModel.Forwarded(h.to, m) then Send(s.table, m) else [];
      Losing(w.tables[h.to := s.table], w.seen[h.to := h.id], w.said + [w.said[h.id]],
             w.got + (if w.said[h.id] == gone then {h.to} else {}),
             others + Copies(h.to, s.log, |w.said|) + Copies(h.to, passed, h.id))
  }

  // ---------------------------------------------------------------- what a step sends

  lemma {:induction false} CopiesFrom(at: NetId, t: Table, m: NetMsg, id: nat)
    ensures forall c :: c in Copies(at, Broadcast(t, m), id) ==>
      c.at == at && c.id == id && exists k :: 0 <= k < |t| && t[k].conn.id == c.to && Passes(t[k], m.src.net)
  {
    if t != [] {
      CopiesFrom(at, t[1..], m, id);
      var log := Broadcast(t, m);
      if Passes(t[0], m.src.net) {
        assert log[0] == Sent(t[0].conn, m) && log[1..] == Broadcast(t[1..], m);
      } else {
        assert log == Broadcast(t[1..], m);
      }
      forall c | c in Copies(at, log, id)
        ensures c.at == at && c.id == id && exists k :: 0 <= k < |t| && t[k].conn.id == c.to && Passes(t[k], m.src.net)
      {
        if c in Copies(at, Broadcast(t[1..], m), id) {
          var k :| 0 <= k < |t| - 1 && t[1..][k].conn.id == c.to && Passes(t[1..][k], m.src.net);
          assert t[k + 1].conn.id == c.to && Passes(t[k + 1], m.src.net);
        }
      }
    }
  }

  lemma {:induction false} CopiesHave(at: NetId, t: Table, m: NetMsg, id: nat, k: nat)
    requires k < |t| && Passes(t[k], m.src.net)
    ensures Copy(at, t[k].conn.id, id) in Copies(at, Broadcast(t, m), id)
  {
    var log := Broadcast(t, m);
    if Passes(t[0], m.src.net) {
      assert log[0] == Sent(t[0].conn, m) && log[1..] == Broadcast(t[1..], m);
    } else {
      assert log == Broadcast(t[1..], m);
    }
    if k > 0 { CopiesHave(at, t[1..], m, id, k - 1); }
  }

  // ---------------------------------------------------------------- what every step keeps

  /** The same connections, with no more branches. */
  ghost predicate Within(a: Table, b: Table) {
    && |a| == |b|
    && (forall k :: 0 <= k < |a| ==> a[k].conn == b[k].conn)
    && (forall k, n :: 0 <= k < |a| && n in a[k].branches ==> n in b[k].branches)
  }

  ghost predicate OnLinks(l: Loss, copies: seq<Copy>, ids: nat)
    requires Edge(l.net, l.at, l.gone)
  {
    forall c :: c in copies ==> Edge(l.Rest(), c.at, c.to) && c.id < ids
  }

  ghost predicate Legal(l: Loss, w: Losing) {
    && l.Ok()
    && w.tables.Keys == l.Rest().Keys
    && (forall r :: r in w.tables ==> Inv(w.tables[r]) && Within(w.tables[r], Before(l)[r]))
    && OnLinks(l, w.inflight, |w.said|)
    && NULL_NET !in w.said
    && (forall r :: r in w.seen ==> w.seen[r] < |w.said|)
  }

  /** With a router that acted on the news the one before it, on the way from where it started, acted too. */
  ghost predicate Chained(l: Loss, got: set<NetId>)
    requires Edge(l.net, l.at, l.gone)
  {
    forall x, y :: x in got && x != l.at && Edge(l.Rest(), x, y) && l.at in Beyond(l.Rest(), x, y) ==>
      y == l.at || y in got
  }

  /** The message is under way and says that the net is lost. */
  predicate Carries(w: Losing, gone: NetId, m: Copy) {
    m in w.inflight && m.id < |w.said| && w.said[m.id] == gone
  }

  predicate Unseen(w: Losing, n: NetId, id: nat) { !(n in w.seen && w.seen[n] == id) }

  /** .. and whoever sends the news acted on it. */
  ghost predicate Tracked(l: Loss, w: Losing) {
    && Edge(l.net, l.at, l.gone)
    && Chained(l, w.got)
    && (forall m :: Carries(w, l.gone, m) ==> m.at == l.at || m.at in w.got)
  }

  lemma LinkHere(l: Loss, w: Losing, r: NetId, n: NetId)
    requires Legal(l, w) && r in w.tables
    ensures FindNeighbour(w.tables[r], n) < |w.tables[r]| <==> Edge(l.Rest(), r, n)
    ensures Edge(l.Rest(), r, n) ==> Edge(l.Rest(), n, r)
  {
    RestExact(l);
    RestEdge(l, r, n);
    SameNeighbour(w.tables[r], l.Rest()[r], n);
    if Edge(l.Rest(), r, n) {
      var k := FindNeighbour(l.Rest()[r], n);
      assert Edge(l.Rest(), l.Rest()[r][k].conn.id, r);
    }
  }

  // ---------------------------------------------------------------- one arrival

  lemma UnderWay(l: Loss, w: Losing, h: Copy)
    requires Legal(l, w) && h in w.inflight
    ensures Edge(l.net, l.at, l.gone) && Edge(l.Rest(), h.at, h.to) && h.id < |w.said| && w.said[h.id] != NULL_NET
    ensures h.at in w.tables && h.to in w.tables && h.to in l.net && h.to != BROADCAST_NET
  {
    hide Exact, Inv, Within, FindNeighbour, Before, Beyond;
    assert Edge(l.Rest(), h.at, h.to);
  }

  lemma CanArrive(l: Loss, w: Losing, k: nat)
    requires Legal(l, w) && k < |w.inflight|
    ensures var h := w.inflight[k];
      && h.to in w.tables && FindNeighbour(w.tables[h.to], h.at) < |w.tables[h.to]|
      && h.id < |w.said| && w.said[h.id] != NULL_NET
      && Edge(l.net, l.at, l.gone) && Edge(l.Rest(), h.at, h.to) && h.to in l.net && h.to != BROADCAST_NET
  {
    hide Legal, Edge, FindNeighbour, Loss.Rest;
    var h := w.inflight[k];
    UnderWay(l, w, h);
    LinkHere(l, w, h.at, h.to);
    LinkHere(l, w, h.to, h.at);
  }

  ghost function Next(l: Loss, w: Losing, routers: set<NetId>, k: nat): Losing
    requires Legal(l, w) && k < |w.inflight|
  {
    CanArrive(l, w, k);
    Arrives(w, routers, l.gone, k)
  }

  /** A router acts on the message unless it is the one it has seen last. */
  predicate Acts(w: Losing, routers: set<NetId>, h: Copy) {
    h.to in routers && !(h.to in w.seen && w.seen[h.to] == h.id)
  }

  function After(t: Table, e: nat, nid: NetId): (r: Table)
    requires e < |t|
    ensures |r| == |t| && forall k :: 0 <= k < |t| ==> r[k].conn == t[k].conn
  {
    t[e := t[e].(branches := CutBranch(t[e].branches, nid))]
  }

  lemma ParseLoss(t: Table, self: NetId, e: nat, nid: NetId)
    requires e < |t| && nid != NULL_NET && self != BROADCAST_NET
    requires forall k :: 0 <= k < e ==> t[k].conn != t[e].conn
    ensures FindEntry(t, t[e].conn) == e
    ensures var m := RouteChange(nid, false);
      && SwitchModel.ParseTable(t, self, t[e].conn, [], m) == Step(After(t, e, nid), Broadcast(t, m))
      && SwitchModel.Forwarded(self, m)
  {
    hide Broadcast, CutBranch;
    ConnFound(t, e);
    assert FindEntry(t, t[e].conn) == e;
  }

  lemma ActsEffect(l: Loss, w: Losing, routers: set<NetId>, k: nat)
    requires Legal(l, w) && k < |w.inflight| && Acts(w, routers, w.inflight[k])
    ensures var h := w.inflight[k];
      && h.to in w.tables && FindNeighbour(w.tables[h.to], h.at) < |w.tables[h.to]| && h.id < |w.said|
    ensures var h := w.inflight[k];
      var t, nid := w.tables[h.to], w.said[h.id];
      var m, after := RouteChange(nid, false), After(t, FindNeighbour(t, h.at), nid);
      Next(l, w, routers, k)
      == Losing(w.tables[h.to := after], w.seen[h.to := h.id], w.said + [nid],
                w.got + (if nid == l.gone then {h.to} else {}),
                RemoveAt(w.inflight, k) + Copies(h.to, Broadcast(t, m), |w.said|)
                  + Copies(h.to, Broadcast(after, m), h.id))
  {
    CanArrive(l, w, k);
    var h := w.inflight[k];
    var t := w.tables[h.to];
    ConnFound(t, FindNeighbour(t, h.at));
    ParseLoss(t, h.to, FindNeighbour(t, h.at), w.said[h.id]);
  }

  lemma AfterWithin(t: Table, e: nat, nid: NetId, b: Table)
    requires Inv(t) && Within(t, b) && e < |t|
    ensures Inv(After(t, e, nid)) && Within(After(t, e, nid), b)
  {
    ShrinkInv(t, e, nid);
    CutKeeps(t[e].branches, nid);
    hide Inv, CutBranch;
  }

  lemma SentOnLinks(l: Loss, w: Losing, r: NetId, t: Table, m: NetMsg, id: nat)
    requires Legal(l, w) && r in w.tables && |t| == |w.tables[r]|
    requires forall k :: 0 <= k < |t| ==> t[k].conn == w.tables[r][k].conn
    ensures OnLinks(l, Copies(r, Broadcast(t, m), id), id + 1)
  {
    var copies := Copies(r, Broadcast(t, m), id);
    CopiesFrom(r, t, m, id);
    forall c | c in copies ensures Edge(l.Rest(), c.at, c.to) && c.id < id + 1 {
      var k :| 0 <= k < |t| && t[k].conn.id == c.to;
      assert w.tables[r][k].conn.id == c.to;
      LinkHere(l, w, r, c.to);
    }
  }

  lemma InRemoved<T(!new)>(s: seq<T>, k: nat)
    requires k < |s|
    ensures forall x :: x in RemoveAt(s, k) ==> x in s
    ensures forall x :: x in s && x != s[k] ==> x in RemoveAt(s, k)
  {
    forall x | x in s && x != s[k] ensures x in RemoveAt(s, k) {
      var i :| 0 <= i < |s| && s[i] == x;
      assert RemoveAt(s, k)[if i < k then i else i - 1] == x;
    }
  }

  lemma LegalHere(l: Loss, w: Losing, n: NetId)
    requires Legal(l, w) && n in w.tables
    ensures Edge(l.net, l.at, l.gone) && n in Before(l) && n in l.Rest()
    ensures Inv(w.tables[n]) && Within(w.tables[n], Before(l)[n])
  {
    hide Inv, Within, Exact;
  }

  lemma LegalStep(l: Loss, w: Losing, v: Losing, n: NetId, t: Table, id: nat, first: seq<Copy>, second: seq<Copy>)
    requires Legal(l, w) && n in w.tables && id < |w.said|
    requires Inv(t) && Within(t, Before(l)[n])
    requires v.tables == w.tables[n := t] && v.seen == w.seen[n := id] && v.said == w.said + [w.said[id]]
    requires forall c :: c in v.inflight ==> c in w.inflight || c in first || c in second
    requires OnLinks(l, first, |w.said| + 1) && OnLinks(l, second, id + 1)
    ensures Legal(l, v)
  {
    hide Inv, Within, Loss.Ok, Loss.Rest, Edge;
    assert w.said[id] != NULL_NET;
  }

  lemma ArrivesLegal(l: Loss, w: Losing, routers: set<NetId>, k: nat)
    requires Legal(l, w) && k < |w.inflight|
    ensures Legal(l, Next(l, w, routers, k))
  {
    hide Inv, Within, Before, CutBranch, Copies, Broadcast, Loss.Ok, Loss.Rest, Edge, FindNeighbour;
    CanArrive(l, w, k);
    InRemoved(w.inflight, k);
    var h := w.inflight[k];
    if Acts(w, routers, h) {
      ActsEffect(l, w, routers, k);
      var t, nid := w.tables[h.to], w.said[h.id];
      var e, m := FindNeighbour(t, h.at), RouteChange(nid, false);
      LegalHere(l, w, h.to);
      AfterWithin(t, e, nid, Before(l)[h.to]);
      SentOnLinks(l, w, h.to, t, m, |w.said|);
      SentOnLinks(l, w, h.to, After(t, e, nid), m, h.id);
      LegalStep(l, w, Next(l, w, routers, k), h.to, After(t, e, nid), h.id,
        Copies(h.to, Broadcast(t, m), |w.said|), Copies(h.to, Broadcast(After(t, e, nid), m), h.id));
    }
  }

  // ---------------------------------------------------------------- where a message came from

  lemma OneWay(net: Net, n: NetId, y: NetId, r: NetId, x: NetId)
    requires Exact(net) && Edge(net, n, y) && Edge(net, n, r) && y != r && x in Beyond(net, n, y)
    ensures x !in Beyond(net, n, r)
  {
    var i, k := FindNeighbour(net[n], y), FindNeighbour(net[n], r);
    assert Leading(net[n], None, x) <= 1;
    LeadSplit(net[n], i, x);
    if x in Beyond(net, n, r) { LeadHas(net[n], Some(y), k, x); }
  }

  lemma Itself(net: Net, n: NetId, y: NetId)
    requires Edge(net, n, y)
    ensures y in Beyond(net, n, y)
  {
  }

  /** The news reaches a net that has not acted on it from the side it started on. */
  lemma CameFrom(l: Loss, w: Losing, h: Copy, y: NetId)
    requires Legal(l, w) && Tracked(l, w) && Carries(w, l.gone, h)
    requires Edge(l.Rest(), h.to, y) && h.to != l.at && y != h.at
    requires l.at in Beyond(l.Rest(), h.to, y)
    ensures h.to in w.got
  {
    var g := l.Rest();
    RestExact(l);
    UnderWay(l, w, h);
    LinkHere(l, w, h.at, h.to);
    Sides(l);
    hide Exact, Legal, Loss.Rest, FindNeighbour;
    OneWay(g, h.to, y, h.at, l.at);
    Itself(g, h.to, h.at);
    SourceIsBehind(g, l.at, h.to, h.at);
  }

  lemma ChainedStep(l: Loss, w: Losing, h: Copy)
    requires Legal(l, w) && Tracked(l, w) && Carries(w, l.gone, h)
    ensures Edge(l.net, l.at, l.gone) && Chained(l, w.got + {h.to})
  {
    UnderWay(l, w, h);
    assert Chained(l, w.got);
    hide Legal, Loss.Rest, Edge, Beyond;
    forall x, y | x in w.got + {h.to} && x != l.at && Edge(l.Rest(), x, y) && l.at in Beyond(l.Rest(), x, y)
      ensures y == l.at || y in w.got + {h.to}
    {
      if x !in w.got && y != h.at { CameFrom(l, w, h, y); }
    }
  }

  lemma IdsKnown(l: Loss, w: Losing)
    requires Legal(l, w)
    ensures Edge(l.net, l.at, l.gone)
    ensures forall c :: c in w.inflight ==> c.id < |w.said|
    ensures forall r :: r in w.seen ==> w.seen[r] < |w.said|
  {
  }

  lemma IgnoredEffect(l: Loss, w: Losing, routers: set<NetId>, k: nat)
    requires Legal(l, w) && k < |w.inflight| && !Acts(w, routers, w.inflight[k])
    ensures Next(l, w, routers, k) == w.(inflight := RemoveAt(w.inflight, k))
  {
    CanArrive(l, w, k);
  }

  lemma TrackedStep(l: Loss, w: Losing, h: Copy, v: Losing)
    requires Legal(l, w) && Tracked(l, w) && h in w.inflight && h.id < |w.said|
    requires v.said == w.said + [w.said[h.id]] && v.got == w.got + if w.said[h.id] == l.gone then {h.to} else {}
    requires forall c :: c in v.inflight ==> c in w.inflight || (c.at == h.to && (c.id == |w.said| || c.id == h.id))
    ensures Tracked(l, v)
  {
    hide Legal, Chained, Edge;
    IdsKnown(l, w);
    var nid := w.said[h.id];
    if nid == l.gone { ChainedStep(l, w, h); } else { assert v.got == w.got; }
    forall c | Carries(v, l.gone, c) ensures c.at == l.at || c.at in v.got {
      if c in w.inflight { assert Carries(w, l.gone, c); } else { assert nid == l.gone; }
    }
  }

  lemma ArrivesTracked(l: Loss, w: Losing, routers: set<NetId>, k: nat)
    requires Legal(l, w) && Tracked(l, w) && k < |w.inflight|
    ensures Legal(l, Next(l, w, routers, k)) && Tracked(l, Next(l, w, routers, k))
  {
    hide Legal, Next, Chained, FindNeighbour, Loss.Rest, Edge;
    ArrivesLegal(l, w, routers, k);
    IdsKnown(l, w);
    InRemoved(w.inflight, k);
    assert w.inflight[k] in w.inflight;
    if Acts(w, routers, w.inflight[k]) {
      ActsEffect(l, w, routers, k);
      SentFromHere(l, w, routers, k);
      TrackedStep(l, w, w.inflight[k], Next(l, w, routers, k));
    } else {
      IgnoredEffect(l, w, routers, k);
    }
  }

  lemma SentFromHere(l: Loss, w: Losing, routers: set<NetId>, k: nat)
    requires Legal(l, w) && k < |w.inflight| && Acts(w, routers, w.inflight[k])
    ensures w.inflight[k].id < |w.said|
    ensures var h, v := w.inflight[k], Next(l, w, routers, k);
      forall c :: c in v.inflight ==>
        c in w.inflight || (c.at == h.to && (c.id == |w.said| || c.id == h.id))
    ensures var v := Next(l, w, routers, k);
      forall c :: c in w.inflight && c != w.inflight[k] ==> c in v.inflight
  {
    CanArrive(l, w, k);
    ActsEffect(l, w, routers, k);
    InRemoved(w.inflight, k);
    var h := w.inflight[k];
    var t, nid := w.tables[h.to], w.said[h.id];
    var m, after := RouteChange(nid, false), After(t, FindNeighbour(t, h.at), nid);
    CopiesFrom(h.to, t, m, |w.said|);
    CopiesFrom(h.to, after, m, h.id);
    hide Copies, Broadcast, After, Legal, FindNeighbour;
  }

  /** What a router's acting on a message changes, without what it sends. */
  ghost predicate Acted(w: Losing, v: Losing, gone: NetId, h: Copy) {
    && h.id < |w.said|
    && v.said == w.said + [w.said[h.id]]
    && v.seen == w.seen[h.to := h.id]
    && v.got == w.got + (if w.said[h.id] == gone then {h.to} else {})
    && (forall m :: m in w.inflight && m != h ==> m in v.inflight)
    && (forall m :: m in v.inflight ==> m in w.inflight || m.id == |w.said| || m.id == h.id)
    && (forall m :: m in w.inflight ==> m.id < |w.said|)
    && (forall n :: n in w.seen ==> w.seen[n] < |w.said|)
    && v.tables.Keys == w.tables.Keys && (forall n :: n in w.tables && n != h.to ==> v.tables[n] == w.tables[n])
  }

  lemma ActsGives(l: Loss, w: Losing, routers: set<NetId>, k: nat, h: Copy)
    requires Legal(l, w) && k < |w.inflight| && h == w.inflight[k] && Acts(w, routers, h)
    ensures Acted(w, Next(l, w, routers, k), l.gone, h) && h in w.inflight && h.to in w.tables
    ensures FindNeighbour(w.tables[h.to], h.at) < |w.tables[h.to]|
    ensures Next(l, w, routers, k).tables[h.to]
         == After(w.tables[h.to], FindNeighbour(w.tables[h.to], h.at), w.said[h.id])
  {
    hide Legal, Next, FindNeighbour, Copies, Broadcast, After;
    IdsKnown(l, w);
    ActsEffect(l, w, routers, k);
    SentFromHere(l, w, routers, k);
  }

  lemma LinkKnown(l: Loss, w: Losing, c: NetId)
    requires Legal(l, w) && Edge(l.net, l.at, l.gone) && Edge(l.Rest(), l.at, c)
    ensures l.at in w.tables && c in w.tables && c != l.at && c != l.gone && l.at != l.gone
    ensures FindNeighbour(w.tables[l.at], c) < |w.tables[l.at]|
    ensures FindNeighbour(w.tables[c], l.at) < |w.tables[c]| && Edge(l.Rest(), c, l.at)
    ensures Edge(l.net, l.at, c)
  {
    RestExact(l);
    Sides(l);
    LinkHere(l, w, l.at, c);
    LinkHere(l, w, c, l.at);
    RestEdge(l, l.at, c);
    hide Inv, Within, Before;
    LeadHas(l.Rest()[l.at], None, FindNeighbour(l.Rest()[l.at], c), c);
    assert Leading(l.Rest()[l.at], None, c) == Bit(c in l.Rest() && c != l.at);
  }

  // ---------------------------------------------------------------- the first messages

  lemma {:induction false} GoodbyesFrom(at: NetId, t: Table, nets: seq<NetId>, id: nat)
    ensures forall m :: m in Goodbyes(at, t, nets, id) ==>
      && m.at == at && id <= m.id < id + |nets|
      && exists k :: 0 <= k < |t| && t[k].conn.id == m.to && Passes(t[k], nets[m.id - id])
  {
    if nets != [] {
      var first := RouteChange(nets[0], false);
      GoodbyesFrom(at, t, nets[1..], id + 1);
      CopiesFrom(at, t, first, id);
      hide Passes, Broadcast, Copies;
      forall m | m in Goodbyes(at, t, nets, id)
        ensures m.at == at && id <= m.id < id + |nets|
        ensures exists k :: 0 <= k < |t| && t[k].conn.id == m.to && Passes(t[k], nets[m.id - id])
      {
        if m !in Copies(at, Broadcast(t, first), id) { assert m in Goodbyes(at, t, nets[1..], id + 1); }
      }
    }
  }

  /** The first message, and the rest. */
  lemma GoodbyesStep(at: NetId, t: Table, nets: seq<NetId>, id: nat)
    requires nets != []
    ensures Goodbyes(at, t, nets, id)
         == Copies(at, Broadcast(t, RouteChange(nets[0], false)), id) + Goodbyes(at, t, nets[1..], id + 1)
    ensures RouteChange(nets[0], false).src.net == nets[0]
  {
    hide Broadcast, Copies;
  }

  lemma {:induction false} GoodbyesHave(at: NetId, t: Table, nets: seq<NetId>, id: nat, i: nat, k: nat)
    requires i < |nets| && k < |t| && Passes(t[k], nets[i])
    ensures Copy(at, t[k].conn.id, id + i) in Goodbyes(at, t, nets, id)
  {
    hide Passes, Broadcast, Copies, Goodbyes, RouteChange;
    GoodbyesStep(at, t, nets, id);
    if i == 0 {
      CopiesHave(at, t, RouteChange(nets[0], false), id, k);
    } else {
      GoodbyesHave(at, t, nets[1..], id + 1, i - 1, k);
    }
  }

  lemma GoodbyeOnLink(l: Loss, k: nat, nid: NetId)
    requires l.Ok() && k < |l.net[l.at]| && nid in l.net[l.at][l.Place()].branches + [l.gone]
    requires Passes(l.net[l.at][k], nid)
    ensures Edge(l.Rest(), l.at, l.net[l.at][k].conn.id)
  {
    Sides(l);
    NeighboursRemain(l, l.at, k);
    EntryIsEdge(l.net, l.at, k);
    RestEdge(l, l.at, l.net[l.at][k].conn.id);
    hide Exact, Inv, Loss.Rest;
  }

  lemma FirstOnLinks(l: Loss)
    requires l.Ok()
    ensures var w := FirstLosing(l); OnLinks(l, w.inflight, |w.said|)
    ensures forall m :: m in FirstLosing(l).inflight ==> m.at == l.at
  {
    var t, nets := l.net[l.at], l.net[l.at][l.Place()].branches + [l.gone];
    GoodbyesFrom(l.at, t, nets, 0);
    hide Exact, Inv, Passes, Goodbyes, Loss.Rest;
    forall m | m in Goodbyes(l.at, t, nets, 0) ensures Edge(l.Rest(), m.at, m.to) && m.id < |nets| {
      var k :| 0 <= k < |t| && t[k].conn.id == m.to && Passes(t[k], nets[m.id - 0]);
      GoodbyeOnLink(l, k, nets[m.id]);
    }
  }

  lemma BeforeLegal(l: Loss, r: NetId)
    requires l.Ok() && r in Before(l)
    ensures Inv(Before(l)[r]) && Within(Before(l)[r], Before(l)[r])
  {
    if r == l.at { RemoveEntryInv(l.net[l.at], l.Place()); } else { assert Inv(l.net[r]); }
    hide Inv;
  }

  /** Nothing that is told of is the null net. */
  lemma NoneNull(l: Loss)
    requires l.Ok()
    ensures NULL_NET !in FirstLosing(l).said
  {
    var e := l.net[l.at][l.Place()];
    NotNull(l.net[l.at], l.Place());
    assert e.conn.id == l.gone;
  }

  lemma NotNull(t: Table, k: nat)
    requires Inv(t) && k < |t|
    ensures t[k].conn.id != NULL_NET && NULL_NET !in t[k].branches
  {
  }

  lemma FirstLegal(l: Loss)
    requires l.Ok()
    ensures Legal(l, FirstLosing(l)) && Tracked(l, FirstLosing(l))
  {
    FirstOnLinks(l);
    NoneNull(l);
    assert l.Rest().Keys == Before(l).Keys;
    hide Goodbyes, Inv, Exact, Within, Before, Loss.Rest, OnLinks;
    forall r | r in Before(l) ensures Inv(Before(l)[r]) && Within(Before(l)[r], Before(l)[r]) { BeforeLegal(l, r); }
  }

  lemma BeforeIsRest(l: Loss)
    requires l.Ok()
    ensures l.at in Before(l) && l.at in l.Rest() && Before(l)[l.at] == l.Rest()[l.at]
    ensures l.at !in l.Lost()
  {
    Sides(l);
  }

  /** The messages under way are, one by one, the sends of a log. */
  ghost predicate Carried(at: NetId, copies: seq<Copy>, said: seq<NetId>, log: seq<Sent>) {
    && |copies| == |log|
    && forall i :: 0 <= i < |copies| ==>
         && copies[i].at == at && copies[i].to == log[i].to.id
         && copies[i].id < |said| && log[i].msg == RouteChange(said[copies[i].id], false)
  }

  lemma {:induction false} CopiesCarry(at: NetId, t: Table, said: seq<NetId>, id: nat)
    requires id < |said|
    ensures var log := Broadcast(t, RouteChange(said[id], false)); Carried(at, Copies(at, log, id), said, log)
  {
    if t != [] {
      CopiesCarry(at, t[1..], said, id);
      var m := RouteChange(said[id], false);
      var log, rest := Broadcast(t, m), Broadcast(t[1..], m);
      if Passes(t[0], m.src.net) {
        assert log[1..] == rest;
        CarriedConcat(at, [Copy(at, t[0].conn.id, id)], Copies(at, rest, id), said, [Sent(t[0].conn, m)], rest);
      } else {
        assert log == rest;
      }
    }
  }

  lemma CarriedConcat(
    at: NetId, a: seq<Copy>, b: seq<Copy>, said: seq<NetId>, logA: seq<Sent>, logB: seq<Sent>)
    requires Carried(at, a, said, logA) && Carried(at, b, said, logB)
    ensures Carried(at, a + b, said, logA + logB)
  {
  }

  lemma {:induction false} GoodbyesCarry(at: NetId, t: Table, said: seq<NetId>, id: nat)
    requires id <= |said|
    ensures Carried(at, Goodbyes(at, t, said[id..], id), said, RouteNotices.Farewell(t, said[id..]))
    decreases |said| - id
  {
    if id < |said| {
      var m := RouteChange(said[id], false);
      GoodbyesCarry(at, t, said, id + 1);
      CopiesCarry(at, t, said, id);
      RouteNotices.BroadcastTells(t, m);
      assert said[id..][1..] == said[id + 1..];
      CarriedConcat(at, Copies(at, Broadcast(t, m), id), Goodbyes(at, t, said[id + 1..], id + 1), said,
        Broadcast(t, m), RouteNotices.Farewell(t, said[id + 1..]));
    }
  }

  /** It starts with the table and the messages that dropping the connection makes. */
  lemma FirstIsDropConn(l: Loss)
    requires l.Ok()
    ensures var w, conn := FirstLosing(l), l.net[l.at][l.Place()].conn;
      var d := DropConn(l.net[l.at], conn);
      && l.at in w.tables && w.tables[l.at] == d.table
      && Carried(l.at, w.inflight, w.said, d.log)
  {
    var t, conn := l.net[l.at], l.net[l.at][l.Place()].conn;
    Sides(l);
    assert Inv(t) && FindEntry(t, conn) == l.Place();
    hide Inv, Exact, Loss.Lost, DropConn, Goodbyes, Carried;
    DropConnEffect(t, conn);
    RouteNotices.DropConnTells(t, conn);
    var nets := t[l.Place()].branches + [l.gone];
    assert nets[0..] == nets;
    GoodbyesCarry(l.at, t, nets, 0);
  }

  // ---------------------------------------------------------------- against the switch

  lemma SwitchLoss(t: Table, self: NetId, e: nat, nid: NetId)
    requires e < |t| && nid != NULL_NET && self != BROADCAST_NET
    requires forall k :: 0 <= k < e ==> t[k].conn != t[e].conn
    ensures var m := RouteChange(nid, false);
      && SwitchModel.TableOk(t, t[e].conn, m)
      && SwitchModel.SwitchTable(t, self, t[e].conn, [], m)
         == Step(After(t, e, nid), Broadcast(t, m) + Broadcast(After(t, e, nid), m))
  {
    ParseLoss(t, self, e, nid);
    hide Broadcast, After;
  }

  /** An arrival that is acted on does to table and links what switching the message does. */
  lemma ArrivesSwitches(l: Loss, w: Losing, routers: set<NetId>, k: nat, h: Copy, t: Table, m: NetMsg)
    requires Legal(l, w) && k < |w.inflight| && h == w.inflight[k] && Acts(w, routers, h)
    requires h.to in w.tables && t == w.tables[h.to] && FindNeighbour(t, h.at) < |t|
    requires h.id < |w.said| && m == RouteChange(w.said[h.id], false)
    ensures var conn := t[FindNeighbour(t, h.at)].conn;
      && SwitchModel.TableOk(t, conn, m)
      && var s, v := SwitchModel.SwitchTable(t, h.to, conn, [], m), Next(l, w, routers, k);
      && v.tables == w.tables[h.to := s.table]
      && exists sent :: v.inflight == RemoveAt(w.inflight, k) + sent && Carried(h.to, sent, v.said, s.log)
  {
    hide Legal, Next, Carried, Broadcast, Copies, After, Edge, Loss.Rest, SwitchModel.SwitchTable, FindNeighbour;
    hide SwitchModel.TableOk, FindEntry, RouteChange;
    CanArrive(l, w, k);
    ActsEffect(l, w, routers, k);
    var nid, v, e := w.said[h.id], Next(l, w, routers, k), FindNeighbour(t, h.at);
    SwitchLoss(t, h.to, e, nid);
    BothCarry(h.to, t, After(t, e, nid), v.said, |w.said|, h.id, m);
    var told, passed := Copies(h.to, Broadcast(t, m), |w.said|), Copies(h.to, Broadcast(After(t, e, nid), m), h.id);
    assert v.inflight == RemoveAt(w.inflight, k) + (told + passed);
  }

  lemma BothCarry(at: NetId, t: Table, after: Table, said: seq<NetId>, a: nat, b: nat, m: NetMsg)
    requires a < |said| && b < |said| && RouteChange(said[a], false) == RouteChange(said[b], false) == m
    ensures Carried(at, Copies(at, Broadcast(t, m), a) + Copies(at, Broadcast(after, m), b), said,
                    Broadcast(t, m) + Broadcast(after, m))
  {
    CopiesCarry(at, t, said, a);
    CopiesCarry(at, after, said, b);
    hide Copies, Broadcast;
    CarriedConcat(at, Copies(at, Broadcast(t, m), a), Copies(at, Broadcast(after, m), b), said,
      Broadcast(t, m), Broadcast(after, m));
  }

  // ---------------------------------------------------------------- whole runs

  /** A schedule picks, step by step, which message arrives next. */
  ghost predicate LossSchedule(l: Loss, w: Losing, routers: set<NetId>, picks: seq<nat>)
    requires Legal(l, w)
    decreases |picks|
  {
    picks == [] || (picks[0] < |w.inflight| && (
      ArrivesLegal(l, w, routers, picks[0]);
      LossSchedule(l, Next(l, w, routers, picks[0]), routers, picks[1..])))
  }

  ghost function LossPlayed(l: Loss, w: Losing, routers: set<NetId>, picks: seq<nat>): (r: Losing)
    requires Legal(l, w) && LossSchedule(l, w, routers, picks)
    ensures Legal(l, r)
    decreases |picks|
  {
    if picks == [] then w
    else
      ArrivesLegal(l, w, routers, picks[0]);
      LossPlayed(l, Next(l, w, routers, picks[0]), routers, picks[1..])
  }

  lemma ScheduleStep(l: Loss, w: Losing, routers: set<NetId>, k: nat, v: Losing, more: seq<nat>)
    requires Legal(l, w) && k < |w.inflight| && v == Next(l, w, routers, k)
    requires Legal(l, v) && LossSchedule(l, v, routers, more)
    ensures LossSchedule(l, w, routers, [k] + more)
    ensures LossPlayed(l, w, routers, [k] + more) == LossPlayed(l, v, routers, more)
  {
    hide Legal, Next;
    assert ([k] + more)[1..] == more;
    ArrivesLegal(l, w, routers, k);
  }

  lemma EmptySchedule(l: Loss, w: Losing, routers: set<NetId>)
    requires Legal(l, w)
    ensures LossSchedule(l, w, routers, []) && LossPlayed(l, w, routers, []) == w
  {
  }
}
