/** With a router next to the net that lost a connection, the news of the loss never dies down. */
module RouterStorm {
  import opened Basics
  import opened Messages
  import opened RouteModel
  import opened RouteTheory
  import opened RouterTree
  import opened RouterCut
  import opened RouterLoss
  import RouterGrowth

  /** Something is on the link that its receiver will act on. */
  ghost predicate Stirring(w: Losing, gone: NetId, a: NetId, b: NetId) {
    exists m :: Carries(w, gone, m) && Unseen(w, m.to, m.id) && m.to in {a, b} && m.at in {a, b} - {m.to}
  }

  /** Something is on its way that has not come back to its sender. */
  ghost predicate Outbound(w: Losing, gone: NetId, a: NetId, b: NetId) {
    exists m :: Carries(w, gone, m) && Unseen(w, a, m.id) && m.at == a && m.to == b
  }

  predicate Lacks(t: Table, gone: NetId) {
    forall k :: 0 <= k < |t| ==> gone !in t[k].branches
  }

  /** A neighbouring router keeps the link to it busy. */
  ghost predicate Busy(l: Loss, w: Losing, c: NetId) {
    && c in w.tables
    && (c in w.got ==> Stirring(w, l.gone, l.at, c) && Lacks(w.tables[c], l.gone))
    && (c !in w.got ==>
          Outbound(w, l.gone, l.at, c) && forall m :: Carries(w, l.gone, m) ==> Unseen(w, c, m.id))
  }

  // ---------------------------------------------------------------- the link stays busy

  /** Where the message that a router announces, and the one that it passes on, go to. */
  lemma SentToEach(l: Loss, w: Losing, routers: set<NetId>, k: nat, h: Copy, t: Table, e: nat, j: nat)
    requires Legal(l, w) && k < |w.inflight| && Acts(w, routers, h) && h == w.inflight[k]
    requires h.to in w.tables && t == w.tables[h.to] && h.id < |w.said|
    requires e == FindNeighbour(t, h.at) < |t| && j < |t|
    ensures Passes(t[j], w.said[h.id]) ==>
      Copy(h.to, t[j].conn.id, |w.said|) in Next(l, w, routers, k).inflight
    ensures Passes(After(t, e, w.said[h.id])[j], w.said[h.id]) ==>
      Copy(h.to, t[j].conn.id, h.id) in Next(l, w, routers, k).inflight
  {
    hide Legal, Edge, Loss.Rest, FindNeighbour;
    ActsEffect(l, w, routers, k);
    var nid := w.said[h.id];
    var m, after := RouteChange(nid, false), After(t, e, nid);
    if Passes(t[j], nid) { CopiesHave(h.to, t, m, |w.said|, j); }
    if Passes(after[j], nid) { CopiesHave(h.to, after, m, h.id, j); }
    hide Copies, Broadcast, Passes;
  }

  // ---------------------------------------------------------------- who does not have the net

  lemma RemovedIndex(t: Table, e: nat, k: nat)
    requires e < |t| && k < |t| - 1
    ensures RemoveAt(t, e)[k] == t[if k < e then k else k + 1]
  {
  }

  /** What is lost is nowhere in the table of the net that lost it .. */
  lemma NotHere(l: Loss, k: nat)
    requires l.Ok() && l.at in Before(l) && k < |Before(l)[l.at]|
    ensures l.gone !in Before(l)[l.at][k].branches
  {
    hide Exact, Inv;
    Sides(l);
    var j := if k < l.Place() then k else k + 1;
    assert Before(l)[l.at] == RemoveAt(l.net[l.at], l.Place());
    hide Before, Loss.Lost, FindNeighbour;
    RemovedIndex(l.net[l.at], l.Place(), k);
    OthersElsewhere(l, j, l.gone);
  }

  /** .. and elsewhere only behind that net. */
  lemma OnlyBehind(l: Loss, r: NetId, k: nat)
    requires l.Ok() && Edge(l.net, l.at, r) && r in Before(l) && r != l.at
    requires k < |l.net[r]| && l.net[r][k].conn.id != l.at
    ensures l.gone !in Before(l)[r][k].branches
  {
    GoneBehind(l, r);
    var t := l.net[r];
    assert Leading(t, None, l.gone) <= 1;
    hide Exact, Inv;
    LeadSplit(t, FindNeighbour(t, l.at), l.gone);
    if l.gone in t[k].branches { LeadHas(t, Some(l.at), k, l.gone); }
  }

  lemma GoneBehind(l: Loss, r: NetId)
    requires l.Ok() && Edge(l.net, l.at, r) && r !in l.Lost()
    ensures Edge(l.net, r, l.at) && l.gone in Beyond(l.net, r, l.at)
  {
    var t := l.net[l.at];
    assert Edge(l.net, t[FindNeighbour(t, r)].conn.id, l.at);
    LeadHas(t, Some(r), l.Place(), l.gone);
    assert Bit(l.gone in Beyond(l.net, r, l.at)) == Bit(l.gone == l.at) + Leading(t, Some(r), l.gone);
  }

  // ---------------------------------------------------------------- the cases of an arrival

  lemma StaysUnseen(w: Losing, v: Losing, gone: NetId, h: Copy, c: NetId)
    requires Acted(w, v, gone, h) && (forall m :: Carries(w, gone, m) ==> Unseen(w, c, m.id))
    requires h in w.inflight && (h.to == c ==> w.said[h.id] != gone)
    ensures forall m :: Carries(v, gone, m) ==> Unseen(v, c, m.id)
  {
    forall m | Carries(v, gone, m) ensures Unseen(v, c, m.id) {
      if m in w.inflight {
        assert Carries(w, gone, m);
      } else if m.id == h.id {
        assert Carries(w, gone, h);
      }
    }
  }

  /** Elsewhere. */
  lemma BusyElsewhere(l: Loss, w: Losing, h: Copy, v: Losing, c: NetId)
    requires Busy(l, w, c) && Acted(w, v, l.gone, h) && h in w.inflight && h.to !in {l.at, c}
    ensures Busy(l, v, c)
  {
    if c in w.got {
      var m :| Carries(w, l.gone, m) && Unseen(w, m.to, m.id) && m.to in {l.at, c} && m.at in {l.at, c} - {m.to};
      assert Carries(v, l.gone, m) && Unseen(v, m.to, m.id);
    } else {
      var m :| Carries(w, l.gone, m) && Unseen(w, l.at, m.id) && m.at == l.at && m.to == c;
      assert Carries(v, l.gone, m) && Unseen(v, l.at, m.id);
      StaysUnseen(w, v, l.gone, h, c);
    }
  }

  /** The net that lost the connection tells everybody anew. */
  lemma BusyHere(l: Loss, w: Losing, h: Copy, v: Losing, c: NetId)
    requires Busy(l, w, c) && Acted(w, v, l.gone, h) && h in w.inflight && h.to == l.at != c
    requires w.said[h.id] == l.gone ==> Copy(l.at, c, |w.said|) in v.inflight
    ensures Busy(l, v, c)
  {
    if c !in w.got { StaysUnseen(w, v, l.gone, h, c); }
    if w.said[h.id] == l.gone {
      var m := Copy(l.at, c, |w.said|);
      assert Carries(v, l.gone, m) && Unseen(v, l.at, m.id) && Unseen(v, c, m.id);
    } else if c in w.got {
      var m :| Carries(w, l.gone, m) && Unseen(w, m.to, m.id) && m.to in {l.at, c} && m.at in {l.at, c} - {m.to};
      assert Carries(v, l.gone, m) && Unseen(v, m.to, m.id);
    } else {
      var m :| Carries(w, l.gone, m) && Unseen(w, l.at, m.id) && m.at == l.at && m.to == c;
      assert Carries(v, l.gone, m) && Unseen(v, l.at, m.id);
    }
  }

  /** Another loss, at the neighbour. */
  lemma BusyMeanwhile(l: Loss, w: Losing, h: Copy, v: Losing, c: NetId)
    requires Busy(l, w, c) && Acted(w, v, l.gone, h) && h in w.inflight && h.to == c != l.at
    requires w.said[h.id] != l.gone && (Lacks(w.tables[c], l.gone) ==> Lacks(v.tables[c], l.gone))
    ensures Busy(l, v, c)
  {
    if c in w.got {
      var m :| Carries(w, l.gone, m) && Unseen(w, m.to, m.id) && m.to in {l.at, c} && m.at in {l.at, c} - {m.to};
      assert Carries(v, l.gone, m) && Unseen(v, m.to, m.id);
    } else {
      var m :| Carries(w, l.gone, m) && Unseen(w, l.at, m.id) && m.at == l.at && m.to == c;
      assert Carries(v, l.gone, m) && Unseen(v, l.at, m.id);
      StaysUnseen(w, v, l.gone, h, c);
    }
  }

  /** The neighbour tells anew if it does not have the net, and returns the message if it had. */
  lemma BusyBack(l: Loss, w: Losing, h: Copy, v: Losing, c: NetId)
    requires Busy(l, w, c) && Acted(w, v, l.gone, h) && h in w.inflight && h.to == c != l.at
    requires w.said[h.id] == l.gone && Lacks(v.tables[c], l.gone)
    requires Copy(c, l.at, |w.said|) in v.inflight || (c !in w.got && Copy(c, l.at, h.id) in v.inflight)
    ensures Busy(l, v, c)
  {
    if Copy(c, l.at, |w.said|) in v.inflight {
      var m := Copy(c, l.at, |w.said|);
      assert Carries(v, l.gone, m) && Unseen(v, l.at, m.id);
    } else {
      var m :| Carries(w, l.gone, m) && Unseen(w, l.at, m.id) && m.at == l.at && m.to == c;
      if m.id == h.id {
        var back := Copy(c, l.at, h.id);
        assert Carries(v, l.gone, back) && Unseen(v, l.at, back.id);
      } else {
        assert Carries(v, l.gone, m) && Unseen(v, c, m.id);
      }
    }
  }

  /** A message without effect is not the one that keeps the link busy. */
  lemma BusyIgnored(l: Loss, w: Losing, routers: set<NetId>, h: Copy, v: Losing, c: NetId)
    requires Busy(l, w, c) && {l.at, c} <= routers && h in w.inflight && !Acts(w, routers, h)
    requires v == w.(inflight := v.inflight)
    requires forall m :: m in w.inflight && m != h ==> m in v.inflight
    requires forall m :: m in v.inflight ==> m in w.inflight
    ensures Busy(l, v, c)
  {
    forall m | Carries(v, l.gone, m) ensures Carries(w, l.gone, m) {}
    if c in w.got {
      var m :| Carries(w, l.gone, m) && Unseen(w, m.to, m.id) && m.to in {l.at, c} && m.at in {l.at, c} - {m.to};
      assert Carries(v, l.gone, m) && Unseen(v, m.to, m.id);
    } else {
      var m :| Carries(w, l.gone, m) && Unseen(w, l.at, m.id) && m.at == l.at && m.to == c;
      assert Unseen(w, c, m.id);
      assert Carries(v, l.gone, m) && Unseen(v, l.at, m.id);
    }
  }

  // ---------------------------------------------------------------- what removing leaves

  lemma LacksStill(t: Table, e: nat, nid: NetId, gone: NetId)
    requires Inv(t) && e < |t|
    ensures Lacks(t, gone) ==> Lacks(After(t, e, nid), gone)
    ensures gone !in After(t, e, gone)[e].branches
  {
    CutKeeps(t[e].branches, nid);
    CutExactly(t[e].branches, gone);
    if gone !in t[e].branches { CutKeeps(t[e].branches, gone); }
    hide Inv, CutBranch;
  }

  lemma WithinLacks(a: Table, b: Table, gone: NetId)
    requires Within(a, b) && Lacks(b, gone)
    ensures Lacks(a, gone)
  {
  }

  lemma LacksHere(l: Loss, w: Losing)
    requires Legal(l, w) && l.at in w.tables
    ensures Lacks(w.tables[l.at], l.gone)
  {
    LegalHere(l, w, l.at);
    assert l.Ok();
    hide Legal, Inv, Exact;
    forall k | 0 <= k < |Before(l)[l.at]| ensures l.gone !in Before(l)[l.at][k].branches { NotHere(l, k); }
    WithinLacks(w.tables[l.at], Before(l)[l.at], l.gone);
  }

  lemma OldTable(l: Loss, w: Losing, c: NetId)
    requires Legal(l, w) && c in w.tables && c != l.at
    ensures l.Ok() && c in l.net && c in Before(l) && Before(l)[c] == l.net[c]
    ensures Inv(w.tables[c]) && Within(w.tables[c], l.net[c]) && DistinctIds(l.net[c])
  {
    LegalHere(l, w, c);
  }

  lemma CutLacks(t: Table, b: Table, e: nat, gone: NetId)
    requires Inv(t) && Within(t, b) && e < |t| && forall k :: 0 <= k < |t| && k != e ==> gone !in b[k].branches
    ensures Lacks(After(t, e, gone), gone)
  {
    LacksStill(t, e, gone, gone);
    hide Inv, CutBranch;
  }

  lemma LacksAfter(l: Loss, w: Losing, c: NetId, e: nat)
    requires Legal(l, w) && c in w.tables && c != l.at && Edge(l.net, l.at, c)
    requires e == FindNeighbour(w.tables[c], l.at) < |w.tables[c]|
    ensures Lacks(After(w.tables[c], e, l.gone), l.gone)
  {
    hide Legal, Inv, Exact, Before, Edge, After, Lacks;
    OldTable(l, w, c);
    var b := l.net[c];
    forall k | 0 <= k < |b| && k != e ensures l.gone !in b[k].branches {
      assert b[k].conn.id != l.at;
      OnlyBehind(l, c, k);
    }
    CutLacks(w.tables[c], b, e, l.gone);
  }

  // ---------------------------------------------------------------- one arrival

  /** A router that has a neighbour and does not have the net announces its loss to it. */
  lemma TellsAnew(l: Loss, w: Losing, routers: set<NetId>, k: nat, h: Copy, n: NetId)
    requires Legal(l, w) && k < |w.inflight| && Acts(w, routers, h) && h == w.inflight[k]
    requires h.to in w.tables && h.id < |w.said| && w.said[h.id] == l.gone != n
    requires FindNeighbour(w.tables[h.to], h.at) < |w.tables[h.to]|
    requires FindNeighbour(w.tables[h.to], n) < |w.tables[h.to]| && Lacks(w.tables[h.to], l.gone)
    ensures Copy(h.to, n, |w.said|) in Next(l, w, routers, k).inflight
  {
    hide Legal;
    var t := w.tables[h.to];
    SentToEach(l, w, routers, k, h, t, FindNeighbour(t, h.at), FindNeighbour(t, n));
  }

  /** At a neighbour that has not acted on the news yet. */
  lemma FirstAtNeighbour(l: Loss, w: Losing, routers: set<NetId>, k: nat, h: Copy, v: Losing)
    requires Legal(l, w) && Tracked(l, w) && k < |w.inflight| && h == w.inflight[k] && Acts(w, routers, h)
    requires h.to in w.tables && h.to !in w.got && h.to != l.at && v == Next(l, w, routers, k)
    requires Carries(w, l.gone, h) && Edge(l.net, l.at, l.gone) && Edge(l.Rest(), l.at, h.to)
    ensures h.to in v.tables && Lacks(v.tables[h.to], l.gone)
    ensures Copy(h.to, l.at, |w.said|) in v.inflight || Copy(h.to, l.at, h.id) in v.inflight
  {
    hide Legal, Tracked, Next, Edge, Loss.Rest, After, Lacks;
    LinkKnown(l, w, h.to);
    Itself(l.Rest(), h.to, l.at);
    if h.at != l.at { CameFrom(l, w, h, l.at); }
    ActsGives(l, w, routers, k, h);
    var t := w.tables[h.to];
    var e := FindNeighbour(t, l.at);
    LacksAfter(l, w, h.to, e);
    LacksAt(After(t, e, l.gone), l.gone, e);
    SentToEach(l, w, routers, k, h, t, e, e);
  }

  lemma LacksAt(t: Table, gone: NetId, e: nat)
    requires Lacks(t, gone) && e < |t|
    ensures gone !in t[e].branches
  {
  }

  lemma AgainAtNeighbour(l: Loss, w: Losing, routers: set<NetId>, k: nat, h: Copy)
    requires Legal(l, w) && k < |w.inflight| && h == w.inflight[k] && Acts(w, routers, h)
    requires h.to in w.tables && h.to != l.at && Lacks(w.tables[h.to], l.gone)
    ensures h.to in Next(l, w, routers, k).tables && Lacks(Next(l, w, routers, k).tables[h.to], l.gone)
  {
    hide Legal, Next, FindNeighbour, After, Lacks;
    ActsGives(l, w, routers, k, h);
    OldTable(l, w, h.to);
    var t := w.tables[h.to];
    LacksStill(t, FindNeighbour(t, h.at), w.said[h.id], l.gone);
  }

  lemma BusyAtNeighbour(l: Loss, w: Losing, routers: set<NetId>, k: nat, h: Copy)
    requires Legal(l, w) && Tracked(l, w) && Busy(l, w, h.to) && k < |w.inflight| && h == w.inflight[k]
    requires Acts(w, routers, h) && Edge(l.net, l.at, l.gone) && Edge(l.Rest(), l.at, h.to)
    ensures Busy(l, Next(l, w, routers, k), h.to)
  {
    hide Legal, Tracked, Next, Edge, Loss.Rest, FindNeighbour, Lacks, Outbound, Stirring;
    var v := Next(l, w, routers, k);
    LinkKnown(l, w, h.to);
    ActsGives(l, w, routers, k, h);
    if w.said[h.id] != l.gone {
      if Lacks(w.tables[h.to], l.gone) { AgainAtNeighbour(l, w, routers, k, h); }
      BusyMeanwhile(l, w, h, v, h.to);
    } else {
      if h.to in w.got {
        AgainAtNeighbour(l, w, routers, k, h);
        TellsAnew(l, w, routers, k, h, l.at);
      } else {
        FirstAtNeighbour(l, w, routers, k, h, v);
      }
      BusyBack(l, w, h, v, h.to);
    }
  }

  lemma ArrivesBusy(l: Loss, w: Losing, routers: set<NetId>, k: nat, c: NetId)
    requires Legal(l, w) && Tracked(l, w) && Busy(l, w, c) && k < |w.inflight|
    requires Edge(l.net, l.at, l.gone) && Edge(l.Rest(), l.at, c) && {l.at, c} <= routers
    ensures Busy(l, Next(l, w, routers, k), c)
  {
    hide Legal, Tracked, Busy, Next, Edge, FindNeighbour, Loss.Rest, After, Lacks, Passes;
    var h, v := w.inflight[k], Next(l, w, routers, k);
    LinkKnown(l, w, c);
    InRemoved(w.inflight, k);
    if !Acts(w, routers, h) {
      IgnoredEffect(l, w, routers, k);
      BusyIgnored(l, w, routers, h, v, c);
    } else {
      ActsGives(l, w, routers, k, h);
      if h.to == l.at {
        LacksHere(l, w);
        if w.said[h.id] == l.gone { TellsAnew(l, w, routers, k, h, c); }
        BusyHere(l, w, h, v, c);
      } else if h.to == c {
        BusyAtNeighbour(l, w, routers, k, h);
      } else {
        BusyElsewhere(l, w, h, v, c);
      }
    }
  }

  // ---------------------------------------------------------------- whole runs

  lemma FirstTells(l: Loss, c: NetId)
    requires l.Ok() && Edge(l.Rest(), l.at, c)
    ensures c in l.Rest()
    ensures var w := FirstLosing(l);
      |w.said| > 0 && w.said[|w.said| - 1] == l.gone && Copy(l.at, c, |w.said| - 1) in w.inflight
  {
    hide Exact, Inv, Loss.Rest, Goodbyes, Before;
    var t := l.net[l.at];
    var k, nets := FindNeighbour(t, c), t[l.Place()].branches + [l.gone];
    Sides(l);
    RestEdge(l, l.at, c);
    OthersElsewhere(l, k, l.gone);
    GoodbyesHave(l.at, t, nets, 0, |nets| - 1, k);
  }

  lemma FirstBusy(l: Loss, c: NetId)
    requires l.Ok() && Edge(l.Rest(), l.at, c)
    ensures Busy(l, FirstLosing(l), c)
  {
    FirstTells(l, c);
    var w := FirstLosing(l);
    assert w.tables.Keys == l.Rest().Keys && w.seen == map[] && w.got == {};
    var m := Copy(l.at, c, |w.said| - 1);
    assert Carries(w, l.gone, m);
    hide *;
    BusyFrom(l, w, c, m);
  }

  lemma BusyFrom(l: Loss, w: Losing, c: NetId, m: Copy)
    requires c in w.tables && w.seen == map[] && w.got == {}
    requires m.at == l.at && m.to == c && Carries(w, l.gone, m)
    ensures Busy(l, w, c)
  {
  }

  /** No neighbour is left that is a router. */
  ghost predicate Alone(l: Loss, routers: set<NetId>)
    requires Edge(l.net, l.at, l.gone)
  {
    forall c :: Edge(l.Rest(), l.at, c) ==> c !in routers
  }

  lemma {:induction false} PlayedBusy(l: Loss, w: Losing, routers: set<NetId>, picks: seq<nat>, c: NetId)
    requires Legal(l, w) && Tracked(l, w) && Busy(l, w, c) && LossSchedule(l, w, routers, picks)
    requires Edge(l.net, l.at, l.gone) && Edge(l.Rest(), l.at, c) && {l.at, c} <= routers
    ensures Busy(l, LossPlayed(l, w, routers, picks), c)
    decreases |picks|
  {
    if picks != [] {
      hide Legal, Tracked, Busy, Next, Edge, Loss.Rest;
      ArrivesTracked(l, w, routers, picks[0]);
      ArrivesBusy(l, w, routers, picks[0], c);
      PlayedBusy(l, Next(l, w, routers, picks[0]), routers, picks[1..], c);
    }
  }

  lemma BusyIsNotEmpty(l: Loss, w: Losing, c: NetId)
    requires Busy(l, w, c)
    ensures w.inflight != []
  {
  }

  /** With a router left next to the net that lost the connection, the news of the loss never dies down. */
  lemma LossNeverRests(l: Loss, routers: set<NetId>, c: NetId, picks: seq<nat>)
    requires l.Ok() && l.at in routers && c in routers && Edge(l.Rest(), l.at, c)
    ensures Legal(l, FirstLosing(l))
    ensures LossSchedule(l, FirstLosing(l), routers, picks) ==>
      LossPlayed(l, FirstLosing(l), routers, picks).inflight != []
  {
    hide Legal, Tracked, Busy, Loss.Rest, FirstLosing, LossSchedule, LossPlayed, Exact, Edge;
    FirstLegal(l);
    FirstBusy(l, c);
    var w := FirstLosing(l);
    if LossSchedule(l, w, routers, picks) {
      PlayedBusy(l, w, routers, picks, c);
      BusyIsNotEmpty(l, LossPlayed(l, w, routers, picks), c);
    }
  }

  /** Nothing has been acted on, and all that is under way comes from the net that lost the connection. */
  ghost predicate Quiet(l: Loss, w: Losing) {
    && Legal(l, w)
    && w.tables == Before(l)
    && forall m :: m in w.inflight ==> m.at == l.at
  }

  lemma QuietStep(l: Loss, w: Losing, routers: set<NetId>, k: nat)
    requires Quiet(l, w) && Edge(l.net, l.at, l.gone) && Alone(l, routers) && k < |w.inflight|
    ensures Quiet(l, Next(l, w, routers, k)) && |Next(l, w, routers, k).inflight| == |w.inflight| - 1
  {
    hide Legal, Next, Before, Edge, Loss.Rest;
    var h := w.inflight[k];
    assert h in w.inflight;
    UnderWay(l, w, h);
    IgnoredEffect(l, w, routers, k);
    ArrivesLegal(l, w, routers, k);
    InRemoved(w.inflight, k);
  }

  lemma {:induction false} PlayedQuiet(l: Loss, w: Losing, routers: set<NetId>, picks: seq<nat>)
    requires Legal(l, w) && Quiet(l, w) && LossSchedule(l, w, routers, picks)
    requires Edge(l.net, l.at, l.gone) && Alone(l, routers)
    ensures var r := LossPlayed(l, w, routers, picks); Quiet(l, r) && |r.inflight| + |picks| == |w.inflight|
    decreases |picks|
  {
    if picks != [] {
      hide Legal, Quiet, Next, Edge, Alone;
      ArrivesLegal(l, w, routers, picks[0]);
      QuietStep(l, w, routers, picks[0]);
      PlayedQuiet(l, Next(l, w, routers, picks[0]), routers, picks[1..]);
    }
  }

  lemma FirstQuiet(l: Loss)
    requires l.Ok()
    ensures Quiet(l, FirstLosing(l))
  {
    hide Legal, Exact, Loss.Rest, Goodbyes;
    FirstLegal(l);
    FirstOnLinks(l);
  }

  /** With none left, each message ends with the local net it goes to, and the table is the one of what remains. */
  lemma LossEndsAlone(l: Loss, routers: set<NetId>, picks: seq<nat>)
    requires l.Ok() && Alone(l, routers)
    ensures Legal(l, FirstLosing(l)) && l.at in l.Rest()
    ensures LossSchedule(l, FirstLosing(l), routers, picks) ==>
      var w := LossPlayed(l, FirstLosing(l), routers, picks);
      && |w.inflight| + |picks| == |FirstLosing(l).inflight|
      && l.at in w.tables && w.tables[l.at] == l.Rest()[l.at]
  {
    hide Legal, Loss.Rest, FirstLosing, LossSchedule, LossPlayed, Exact, Before, Edge, Alone;
    FirstQuiet(l);
    BeforeIsRest(l);
    if LossSchedule(l, FirstLosing(l), routers, picks) { PlayedQuiet(l, FirstLosing(l), routers, picks); }
  }

  /** Without routers the first message can arrive, and the next, until none is left. */
  lemma {:induction false} CanEnd(l: Loss, w: Losing, routers: set<NetId>) returns (picks: seq<nat>)
    requires Legal(l, w) && Quiet(l, w) && Edge(l.net, l.at, l.gone) && Alone(l, routers)
    ensures LossSchedule(l, w, routers, picks) && LossPlayed(l, w, routers, picks).inflight == []
    decreases |w.inflight|
  {
    picks := [];
    if w.inflight != [] {
      hide Legal, Quiet, Next, Edge, Alone, LossSchedule, LossPlayed;
      ArrivesLegal(l, w, routers, 0);
      QuietStep(l, w, routers, 0);
      var rest := CanEnd(l, Next(l, w, routers, 0), routers);
      ScheduleStep(l, w, routers, 0, Next(l, w, routers, 0), rest);
      picks := [0] + rest;
    }
  }

  /** Some schedule ends the news of a loss if and only if no neighbour left is a router; then every one does. */
  lemma LossEndsExactly(l: Loss, routers: set<NetId>)
    requires l.Ok() && l.at in routers
    ensures Legal(l, FirstLosing(l))
    ensures (exists picks :: LossSchedule(l, FirstLosing(l), routers, picks)
                          && LossPlayed(l, FirstLosing(l), routers, picks).inflight == [])
       <==> Alone(l, routers)
  {
    hide Legal, Loss.Rest, FirstLosing, LossSchedule, LossPlayed, Exact, Edge, Quiet;
    FirstQuiet(l);
    FirstLegal(l);
    if Alone(l, routers) {
      var picks := CanEnd(l, FirstLosing(l), routers);
    } else {
      var c :| Edge(l.Rest(), l.at, c) && c in routers;
      forall picks | LossSchedule(l, FirstLosing(l), routers, picks)
        ensures LossPlayed(l, FirstLosing(l), routers, picks).inflight != []
      {
        LossNeverRests(l, routers, c, picks);
      }
    }
  }

  // ---------------------------------------------------------------- an instance

  /** Three nets in a row, 1 - 2 - 3. */
  function Row(): Net {
    map[1 := [Route(Qnet(0, 2), [3])],
        2 := [Route(Qnet(0, 1), []), Route(Qnet(1, 3), [])],
        3 := [Route(Qnet(0, 2), [1])]]
  }

  function Pair(): RouterGrowth.Join { RouterGrowth.Join.Join(map[1 := []], 1, 2, 0, 0, []) }

  lemma PairGrown()
    ensures Pair().Ok()
    ensures Pair().Grown() == map[1 := [Route(Qnet(0, 2), [])], 2 := [Route(Qnet(0, 1), [])]]
  {
    RouterGrowth.SingletonExact(1);
    hide Exact;
    assert [] + [Route(Qnet(0, 2), [])] == [Route(Qnet(0, 2), [])];
    assert Pair().AtTable() == [Route(Qnet(0, 2), [])];
    assert Pair().Grown().Keys == {1, 2};
  }

  lemma RowGrown(two: RouterGrowth.Join)
    requires two == RouterGrowth.Join.Join(Pair().Grown(), 2, 3, 0, 1, [1])
    ensures two.Grown() == Row()
  {
    PairGrown();
    var r := Route(Qnet(0, 2), []);
    var t := RouterGrowth.Extend([r], 2, 3);
    assert r.branches + [3] == [3] && 2 in Via(r);
    assert t == [Route(Qnet(0, 2), [3])];
    assert two.AtTable() == Row()[2];
    assert two.Grown().Keys == {1, 2, 3};
  }

  lemma RowExact()
    ensures Exact(Row())
  {
    PairGrown();
    RouterGrowth.GrownExact(Pair());
    var two := RouterGrowth.Join.Join(Pair().Grown(), 2, 3, 0, 1, [1]);
    hide Exact, RouterGrowth.Join.Grown;
    assert two.Ok();
    RouterGrowth.GrownExact(two);
    RowGrown(two);
  }

  lemma RowInv()
    ensures forall r :: r in Row() ==> Inv(Row()[r])
  {
  }

  lemma RowLinks()
    ensures Edge(Row(), 2, 1) && Edge(Row(), 2, 3) && Beyond(Row(), 2, 3) == {3}
  {
    assert FindNeighbour(Row()[2], 1) == 0 && FindNeighbour(Row()[2], 3) == 1;
  }

  /** A router that loses one of its two neighbours, with the other a router: the news goes round for ever. */
  lemma RowLoss()
    ensures var l := Loss(Row(), 2, 3); l.Ok() && Edge(l.Rest(), l.at, 1) && !Alone(l, {1, 2})
  {
    var l := Loss(Row(), 2, 3);
    RowExact();
    RowInv();
    RowLinks();
    assert 1 in Row() && BROADCAST_NET !in Row();
    hide Exact, Row, Inv, Edge, FindNeighbour, Via;
    RestLink(l, 1);
  }

  lemma RestLink(l: Loss, n: NetId)
    requires l.Ok() && Edge(l.net, l.at, n) && n !in l.Lost()
    ensures Edge(l.Rest(), l.at, n)
  {
    Sides(l);
    RestEdge(l, l.at, n);
    hide Exact, Inv;
  }
}
