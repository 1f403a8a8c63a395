/** What the news of a loss does to the table of the net that lost the connection. */
module RouterDamage {
  import opened Basics
  import opened Messages
  import opened RouteModel
  import opened RouteTheory
  import opened RouterTree
  import opened RouterCut
  import opened RouterLoss
  import opened RouterStorm

  /** Nothing lies behind the routers that are left next to the net that lost the connection. */
  ghost predicate NothingBehind(l: Loss, routers: set<NetId>)
    requires Edge(l.net, l.at, l.gone) && l.at in l.Rest()
  {
    forall k :: 0 <= k < |l.Rest()[l.at]| && l.Rest()[l.at][k].conn.id in routers ==> l.Rest()[l.at][k].branches == []
  }

  /** The table is still right, and only routers send. */
  ghost predicate Intact(l: Loss, w: Losing, routers: set<NetId>) {
    && Edge(l.net, l.at, l.gone)
    && l.at in l.Rest() && l.at in w.tables
    && w.tables[l.at] == l.Rest()[l.at]
    && forall m :: m in w.inflight ==> m.at in routers
  }

  lemma IntactStep(l: Loss, w: Losing, routers: set<NetId>, k: nat)
    requires Legal(l, w) && Intact(l, w, routers) && NothingBehind(l, routers) && k < |w.inflight|
    ensures Intact(l, Next(l, w, routers, k), routers)
  {
    hide Legal, Next, Edge, Loss.Rest, After, FindNeighbour;
    var h := w.inflight[k];
    assert h in w.inflight;
    InRemoved(w.inflight, k);
    if Acts(w, routers, h) {
      ActsGives(l, w, routers, k, h);
      SentFromHere(l, w, routers, k);
      if h.to == l.at { NothingToCut(w.tables[l.at], FindNeighbour(w.tables[l.at], h.at), w.said[h.id]); }
    } else {
      IgnoredEffect(l, w, routers, k);
    }
  }

  lemma NothingToCut(t: Table, e: nat, nid: NetId)
    requires e < |t|
    ensures t[e].branches == [] ==> After(t, e, nid) == t
  {
  }

  lemma {:induction false} PlayedIntact(l: Loss, w: Losing, routers: set<NetId>, picks: seq<nat>)
    requires Legal(l, w) && Intact(l, w, routers) && NothingBehind(l, routers) && LossSchedule(l, w, routers, picks)
    ensures Intact(l, LossPlayed(l, w, routers, picks), routers)
    decreases |picks|
  {
    if picks != [] {
      hide Legal, Next, Edge, Intact, NothingBehind, Loss.Rest;
      ArrivesLegal(l, w, routers, picks[0]);
      IntactStep(l, w, routers, picks[0]);
      PlayedIntact(l, Next(l, w, routers, picks[0]), routers, picks[1..]);
    }
  }

  lemma FirstIntact(l: Loss, routers: set<NetId>)
    requires l.Ok() && l.at in routers
    ensures Intact(l, FirstLosing(l), routers)
  {
    hide Loss.Rest, Exact, Goodbyes;
    BeforeIsRest(l);
    FirstOnLinks(l);
  }

  // ---------------------------------------------------------------- two messages do damage

  lemma CutShortens(t: Table, e: nat, gone: NetId)
    requires e < |t| && gone !in t[e].branches && t[e].branches != []
    ensures After(t, e, gone)[e].branches == t[e].branches[..|t[e].branches| - 1]
  {
  }

  /** A message of the loss is on its way back to the net that lost the connection, which has seen none. */
  ghost predicate Returning(l: Loss, v: Losing, m: Copy) {
    && Edge(l.net, l.at, l.gone) && Legal(l, v) && Carries(v, l.gone, m) && m.to == l.at
    && l.at !in v.seen && l.at in v.tables && l.at in l.Rest() && v.tables[l.at] == l.Rest()[l.at]
  }

  /** The neighbour's answer to the first message. */
  lemma FirstAnswer(l: Loss, routers: set<NetId>, c: NetId) returns (k: nat, m: Copy)
    requires l.Ok() && {l.at, c} <= routers && Edge(l.Rest(), l.at, c)
    ensures Legal(l, FirstLosing(l)) && k < |FirstLosing(l).inflight|
    ensures Returning(l, Next(l, FirstLosing(l), routers, k), m) && m.at == c
  {
    hide Legal, Exact, Loss.Rest, Next, Goodbyes, Edge, Before;
    var w := FirstLosing(l);
    FirstLegal(l);
    FirstTells(l, c);
    BeforeIsRest(l);
    LinkKnown(l, w, c);
    var h := Copy(l.at, c, |w.said| - 1);
    k :| 0 <= k < |w.inflight| && w.inflight[k] == h;
    var v := Next(l, w, routers, k);
    ArrivesLegal(l, w, routers, k);
    ActsGives(l, w, routers, k, h);
    FirstAtNeighbour(l, w, routers, k, h, v);
    m := if Copy(c, l.at, |w.said|) in v.inflight then Copy(c, l.at, |w.said|) else Copy(c, l.at, h.id);
  }

  /** The net that lost the connection acts on it, and loses another net that is still there. */
  lemma AnswerDamages(l: Loss, v: Losing, routers: set<NetId>, k: nat, m: Copy)
    requires Returning(l, v, m) && l.at in routers && k < |v.inflight| && v.inflight[k] == m
    requires var e := FindNeighbour(l.Rest()[l.at], m.at);
      e < |l.Rest()[l.at]| && l.Rest()[l.at][e].branches != []
    ensures Legal(l, Next(l, v, routers, k)) && l.at in Next(l, v, routers, k).tables
    ensures var e := FindNeighbour(l.Rest()[l.at], m.at);
      var t := Next(l, v, routers, k).tables[l.at];
      && e < |t|
      && t[e].branches == l.Rest()[l.at][e].branches[..|l.Rest()[l.at][e].branches| - 1]
  {
    hide Legal, Exact, Loss.Rest, Next, Lacks, After, FindNeighbour;
    var t, e := v.tables[l.at], FindNeighbour(l.Rest()[l.at], m.at);
    ArrivesLegal(l, v, routers, k);
    ActsGives(l, v, routers, k, m);
    LacksHere(l, v);
    LacksAt(t, l.gone, e);
    CutShortens(t, e, l.gone);
  }

  // ---------------------------------------------------------------- for good

  lemma WithinStep(l: Loss, w: Losing, routers: set<NetId>, k: nat, r: NetId)
    requires Legal(l, w) && k < |w.inflight| && r in w.tables
    ensures r in Next(l, w, routers, k).tables && Within(Next(l, w, routers, k).tables[r], w.tables[r])
  {
    hide Legal, Next, After, Inv;
    var h := w.inflight[k];
    if Acts(w, routers, h) {
      ActsGives(l, w, routers, k, h);
      LegalHere(l, w, h.to);
      AfterWithin(w.tables[h.to], FindNeighbour(w.tables[h.to], h.at), w.said[h.id], w.tables[h.to]);
    } else {
      IgnoredEffect(l, w, routers, k);
    }
  }

  /** A net that left a table does not come back while the news of losses spreads. */
  lemma {:induction false} NeverComesBack(l: Loss, w: Losing, routers: set<NetId>, picks: seq<nat>, r: NetId)
    requires Legal(l, w) && LossSchedule(l, w, routers, picks) && r in w.tables
    ensures var v := LossPlayed(l, w, routers, picks); r in v.tables && Within(v.tables[r], w.tables[r])
    decreases |picks|
  {
    if picks != [] {
      hide Legal, Next, Within;
      ArrivesLegal(l, w, routers, picks[0]);
      var v := Next(l, w, routers, picks[0]);
      WithinStep(l, w, routers, picks[0], r);
      NeverComesBack(l, v, routers, picks[1..], r);
      WithinTwice(LossPlayed(l, v, routers, picks[1..]).tables[r], v.tables[r], w.tables[r]);
    }
  }

  lemma WithinTwice(a: Table, b: Table, c: Table)
    requires Within(a, b) && Within(b, c)
    ensures Within(a, c)
  {
  }

  lemma LastLeft(t: Table, e: nat, u: Table)
    requires Inv(t) && e < |t| == |u| && t[e].branches != [] && u[e].branches == t[e].branches[..|t[e].branches| - 1]
    ensures t[e].branches[|t[e].branches| - 1] !in u[e].branches
  {
    assert Distinct(t[e].branches);
  }

  /** If something lies behind a router next to the net that lost the connection, two messages are enough to
    * make it forget a net that is still there, and it does not learn of it again. */
  lemma LosesAnother(l: Loss, routers: set<NetId>, c: NetId) returns (picks: seq<nat>, x: NetId)
    requires l.Ok() && {l.at, c} <= routers && Edge(l.Rest(), l.at, c)
    requires l.Rest()[l.at][FindNeighbour(l.Rest()[l.at], c)].branches != []
    ensures Legal(l, FirstLosing(l)) && LossSchedule(l, FirstLosing(l), routers, picks) && |picks| == 2
    ensures x in l.Rest() && x in l.Rest()[l.at][FindNeighbour(l.Rest()[l.at], c)].branches
    ensures var w := LossPlayed(l, FirstLosing(l), routers, picks);
      forall more :: LossSchedule(l, w, routers, more) ==>
        var v := LossPlayed(l, w, routers, more);
        var e := FindNeighbour(l.Rest()[l.at], c);
        l.at in v.tables && e < |v.tables[l.at]| && x !in v.tables[l.at][e].branches
  {
    hide Legal, Exact, Loss.Rest, Next, FirstLosing, LossSchedule, LossPlayed, Inv, FindNeighbour, Within;
    var w := FirstLosing(l);
    var t, e := l.Rest()[l.at], FindNeighbour(l.Rest()[l.at], c);
    var i, m := FirstAnswer(l, routers, c);
    var v := Next(l, w, routers, i);
    var k :| 0 <= k < |v.inflight| && v.inflight[k] == m;
    AnswerDamages(l, v, routers, k, m);
    var u := Next(l, v, routers, k);
    EmptySchedule(l, u, routers);
    ScheduleStep(l, v, routers, k, u, []);
    ScheduleStep(l, w, routers, i, v, [k] + []);
    picks := [i] + ([k] + []);
    x := t[e].branches[|t[e].branches| - 1];
    KnownRemains(l, e, x);
    WithinStep(l, v, routers, k, l.at);
    LegalHere(l, v, l.at);
    SameLength(u.tables[l.at], t);
    LastLeft(t, e, u.tables[l.at]);
    forall more | LossSchedule(l, u, routers, more)
      ensures var r := LossPlayed(l, u, routers, more);
        l.at in r.tables && e < |r.tables[l.at]| && x !in r.tables[l.at][e].branches
    {
      NeverComesBack(l, u, routers, more, l.at);
      NotWithin(LossPlayed(l, u, routers, more).tables[l.at], u.tables[l.at], e, x);
    }
  }

  lemma SameLength(a: Table, b: Table)
    requires Within(a, b)
    ensures |a| == |b|
  {
  }

  lemma NotWithin(a: Table, b: Table, e: nat, x: NetId)
    requires Within(a, b) && e < |b| && x !in b[e].branches
    ensures e < |a| && x !in a[e].branches
  {
  }

  lemma KnownRemains(l: Loss, e: nat, x: NetId)
    requires l.Ok() && l.at in l.Rest() && e < |l.Rest()[l.at]| && x in l.Rest()[l.at][e].branches
    ensures x in l.Rest()
  {
    RestExact(l);
    LeadHas(l.Rest()[l.at], None, e, x);
  }

  /** The table of the net that lost the connection stays right through every schedule if and only if no router
    * left next to it has nets behind it. */
  lemma TableSurvivesExactly(l: Loss, routers: set<NetId>)
    requires l.Ok() && l.at in routers
    ensures Legal(l, FirstLosing(l)) && l.at in l.Rest()
    ensures (forall picks :: LossSchedule(l, FirstLosing(l), routers, picks) ==>
               var w := LossPlayed(l, FirstLosing(l), routers, picks);
               l.at in w.tables && w.tables[l.at] == l.Rest()[l.at])
       <==> NothingBehind(l, routers)
  {
    hide Legal, Loss.Rest, FirstLosing, LossSchedule, LossPlayed, Exact, Edge, FindNeighbour;
    FirstLegal(l);
    FirstIntact(l, routers);
    if NothingBehind(l, routers) {
      forall picks | LossSchedule(l, FirstLosing(l), routers, picks)
        ensures Intact(l, LossPlayed(l, FirstLosing(l), routers, picks), routers)
      {
        PlayedIntact(l, FirstLosing(l), routers, picks);
      }
    } else {
      var t := l.Rest()[l.at];
      var k :| 0 <= k < |t| && t[k].conn.id in routers && t[k].branches != [];
      RestExact(l);
      RestIds(l, l.at);
      NeighbourAt(t, k);
      EntryIsEdge(l.Rest(), l.at, k);
      var picks, x := LosesAnother(l, routers, t[k].conn.id);
      EmptySchedule(l, LossPlayed(l, FirstLosing(l), routers, picks), routers);
    }
  }
}
