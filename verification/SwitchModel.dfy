/** What a message does to the user cache and the route table when it is switched. */
module SwitchModel {
  import opened Basics
  import opened Messages
  import opened ChanList
  import opened CacheModel
  import opened CacheTheory
  import opened CacheRuns
  import RouteModel
  import RouteTheory

  /** The user cache as an operation per message type; None leaves it alone. */
  function CacheOp(m: NetMsg): Option<Op> {
    match m.kind
    case UserNickchange => Some(AddOp(m.dUser, None, Some(m.dNickname), None))
    case UserModechange => Some(AddOp(m.dUser, Some(m.dUmode), None, None))
    case UserNew => Some(AddOp(m.dUser, Some(m.dUmode), Some(m.dNickname), Some(m.dChanlist)))
    case UserLost => Some(RemoveOp(m.dUser))
    case ChannelJoin => Some(JoinOp(m.src, m.dChanlist))
    case ChannelLeave => Some(PartOp(m.src, m.dChanlist))
    case TopicChange => Some(TopicOp(m.dChanlist, m.dText))
    case NetLost => Some(RemoveNetOp(m.dNet))
    case _ => None
  }

  /** The assertions of usercache_add hold for the message. */
  predicate CacheOk(c: Cache, m: NetMsg) {
    CacheOp(m).Some? ==> OpOk(c, CacheOp(m).value)
  }

  function ParseCache(c: Cache, m: NetMsg): Cache
    requires CacheOk(c, m)
  {
    if CacheOp(m).Some? then Apply(c, CacheOp(m).value) else c
  }

  predicate TableOk(t: RouteModel.Table, conn: Qnet, m: NetMsg) {
    m.kind == NetNew || m.kind == NetLost ==> RouteModel.FindEntry(t, conn) < |t| && m.dNet != NULL_NET
  }

  /** The answer to an enumeration request: one USER_NEW per cached user, sent to the asking net. */
  function EnumReply(t: RouteModel.Table, localId: NetId, conn: Qnet, users: seq<User>): seq<Sent> {
    if users == [] then []
    else
      var u := users[|users| - 1];
      EnumReply(t, localId, conn, users[..|users| - 1]) + RouteModel.Send(t, EnumMsg(localId, conn, u))
  }

  function EnumMsg(localId: NetId, conn: Qnet, u: User): NetMsg {
    BLANK.(kind := UserNew, src := NULL_USER.(net := localId), dst := NULL_USER.(net := conn.id),
           dUser := u.uid, dUmode := u.umode,
           dNickname := Clip(u.nick, NICKNAME_LEN_MAX), dChanlist := Clip(Join(u.chans), CHANLIST_LEN_MAX))
  }

  /** parse_msg on the table and its connections. */
  function ParseTable(t: RouteModel.Table, localId: NetId, conn: Qnet, users: seq<User>, m: NetMsg): RouteModel.Step
    requires TableOk(t, conn, m)
  {
    match m.kind
    case NetNew => RouteModel.AddBranch(t, conn, m.dNet)
    case NetLost => RouteModel.DropBranch(t, conn, m.dNet)
    case UserEnumRequest => RouteModel.Step(t, EnumReply(t, localId, conn, users))
    case _ => RouteModel.Step(t, [])
  }

  /** Whether switch_msg passes the message on after parsing it. */
  predicate Forwarded(localId: NetId, m: NetMsg) {
    m.dst.net != localId && m.dst.net != NULL_NET && m.kind != TypeInvalid && m.kind != TypeNull
  }

  /** switch_msg on the table and its connections: parse, then pass on by the table as it is then. */
  function SwitchTable(t: RouteModel.Table, localId: NetId, conn: Qnet, users: seq<User>, m: NetMsg): RouteModel.Step
    requires TableOk(t, conn, m)
  {
    var s := ParseTable(t, localId, conn, users, m);
    RouteModel.Step(s.table, s.log + if Forwarded(localId, m) then RouteModel.Send(s.table, m) else [])
  }

  lemma ParseCacheInv(c: Cache, m: NetMsg)
    requires Inv(c) && CacheOk(c, m)
    ensures Inv(ParseCache(c, m))
  {
    if CacheOp(m).Some? { ApplyInv(c, CacheOp(m).value); }
  }

  // ---------------------------------------------------------------- losing a connection

  /** Dropping a connection: of the users exactly those of its net and of its branches go, everybody
    * else stays in order with mode, nickname and channels; counts are exact again and topics of the
    * channels still in use are kept; the connection leaves the table. */
  lemma DisconnectEffect(c: Cache, t: RouteModel.Table, conn: Qnet)
    requires Inv(c) && RouteTheory.Inv(t)
    ensures var nets := RouteModel.EnumRoot(t, conn);
      var d := RemoveNets(c, nets);
      && Inv(d)
      && d.users == Outside(c.users, ToSet(nets))
      && (forall u :: u in d.users <==> u in c.users && u.uid.net !in nets)
      && (forall n :: TopicOf(d.chans, n) == if On(d.users, n) > 0 then TopicOf(c.chans, n) else None)
      && (forall r :: r in RouteModel.DropConn(t, conn).table <==> r in t && r.conn != conn)
  {
    hide Inv;
    var nets := RouteModel.EnumRoot(t, conn);
    RemoveNetsEffect(c, nets);
    var d := RemoveNets(c, nets);
    forall n ensures TopicOf(d.chans, n) == if On(d.users, n) > 0 then TopicOf(c.chans, n) else None {
      RecountTopic(c.chans, d.users, n);
    }
    ConnGone(t, conn);
  }

  /** .. said of the entry: those go whose net is the connection's own id or one of its branches. */
  lemma DisconnectTakes(c: Cache, t: RouteModel.Table, k: nat, u: User)
    requires Inv(c) && RouteTheory.Inv(t) && k < |t|
    ensures u in RemoveNets(c, RouteModel.EnumRoot(t, t[k].conn)).users
      <==> u in c.users && u.uid.net != t[k].conn.id && u.uid.net !in t[k].branches
  {
    DisconnectEffect(c, t, t[k].conn);
    assert RouteModel.FindEntry(t, t[k].conn) == k;
    hide Inv, RouteTheory.Inv, RemoveNets;
  }

  lemma ConnGone(t: RouteModel.Table, conn: Qnet)
    requires RouteTheory.Inv(t)
    ensures forall r :: r in RouteModel.DropConn(t, conn).table <==> r in t && r.conn != conn
  {
    hide RouteTheory.Inv, RouteModel.DropConn;
    RouteTheory.DropConnEffect(t, conn);
    var k := RouteModel.FindEntry(t, conn);
    if k < |t| {
      OthersStay(t, k);
    }
  }

  lemma OthersStay(t: RouteModel.Table, k: nat)
    requires RouteTheory.Inv(t) && k < |t|
    ensures forall r :: r in RemoveAt(t, k) <==> r in t && r.conn != t[k].conn
  {
    var s := RemoveAt(t, k);
    assert forall j :: 0 <= j < |t| && j != k ==> t[j].conn != t[k].conn;
    hide RouteTheory.Inv;
    forall r ensures r in s <==> r in t && r.conn != t[k].conn {
      if r in t && r.conn != t[k].conn { StaysIn(t, k, r); }
      if r in s { CameFrom(t, k, r); }
    }
  }

  lemma StaysIn(t: RouteModel.Table, k: nat, r: RouteModel.Route)
    requires k < |t| && r in t && r != t[k]
    ensures r in RemoveAt(t, k)
  {
    var j :| 0 <= j < |t| && t[j] == r;
    assert RemoveAt(t, k)[if j < k then j else j - 1] == r;
  }

  lemma CameFrom(t: RouteModel.Table, k: nat, r: RouteModel.Route)
    requires k < |t| && r in RemoveAt(t, k)
    requires forall j :: 0 <= j < |t| && j != k ==> t[j].conn != t[k].conn
    ensures r in t && r.conn != t[k].conn
  {
    var j :| 0 <= j < |t| - 1 && RemoveAt(t, k)[j] == r;
    assert t[if j < k then j else j + 1] == r;
  }

  // ---------------------------------------------------------------- meeting a router

  /** The net ids read before the peer ends its list, and whether it ended it properly. */
  function Received(inbox: seq<Option<NetMsg>>): (seq<NetId>, bool) {
    if inbox == [] || inbox[0] == None then ([], false)
    else
      var m := inbox[0].value;
      if m.kind == NetEnumEnds then ([], true)
      else if m.kind != NetNew then ([], false)
      else
        var (nids, ok) := Received(inbox[1..]);
        ([m.dNet] + nids, ok)
  }

  /** A peer's list is good exactly if it is net after net and then the end mark; what was read before it broke off
    * has been taken in. */
  lemma {:induction false} ListIsRead(inbox: seq<Option<NetMsg>>, n: nat)
    requires n <= |inbox| && forall i :: 0 <= i < n ==> inbox[i].Some? && inbox[i].value.kind == NetNew
    requires n < |inbox| ==> inbox[n] == None || inbox[n].value.kind != NetNew
    ensures var (nids, ok) := Received(inbox);
      && |nids| == n && (forall i :: 0 <= i < n ==> nids[i] == inbox[i].value.dNet)
      && (ok <==> n < |inbox| && inbox[n].Some? && inbox[n].value.kind == NetEnumEnds)
  {
    if n > 0 { ListIsRead(inbox[1..], n - 1); }
  }

  /** A new connection ends up with exactly the announced nets that were no branch anywhere, in the
    * order of their first arrival, behind its own id. */
  lemma ExchangeEffect(t: RouteModel.Table, conn: Qnet, nids: seq<NetId>)
    requires RouteTheory.Inv(t) && conn.id != NULL_NET && NULL_NET !in nids
    requires RouteModel.FindEntry(t, conn) == |t|
    ensures var t1 := RouteModel.AddConn(t, conn).table;
      && RouteModel.FindEntry(t1, conn) < |t1|
      && RouteModel.EnumRoot(RouteModel.Learn(t1, conn, nids).table, conn)
         == [conn.id] + RouteTheory.Arrivals(nids, RouteTheory.Taken(t))
      && RouteTheory.Inv(RouteModel.Learn(t1, conn, nids).table)
  {
    var t1 := RouteModel.AddConn(t, conn).table;
    RouteTheory.AddConnInv(t, conn);
    assert t1[|t|].conn == conn;
    var k := RouteModel.FindEntry(t1, conn);
    assert k == |t|;
    RouteTheory.LearnEffect(t1, conn, nids);
    SameTaken(t, t1, conn);
    assert t1[k].branches == [];
    assert [] + RouteTheory.Arrivals(nids, RouteTheory.Taken(t)) == RouteTheory.Arrivals(nids, RouteTheory.Taken(t));
  }

  lemma SameTaken(t: RouteModel.Table, t1: RouteModel.Table, conn: Qnet)
    requires t1 == t + [RouteModel.Route(conn, [])]
    ensures RouteTheory.Taken(t1) == RouteTheory.Taken(t)
  {
    forall n | n in RouteTheory.Taken(t) ensures n in RouteTheory.Taken(t1) {
      var k :| 0 <= k < |t| && n in t[k].branches;
      assert n in t1[k].branches;
    }
  }
}
