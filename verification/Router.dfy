/** The router: its user cache, its route table and the list of its connections; how a message is
  * switched, how a table is exchanged with a new peer and how a connection is dropped. */
module Router {
  import opened Basics
  import opened DList
  import opened Messages
  import opened SwitchModel
  import ChanList
  import CacheModel
  import CacheRuns
  import RouteModel
  import RouteTheory
  import UserCache
  import RouteTable

  /** Where a connection is first found. */
  function FirstOf(conns: seq<Qnet>, conn: Qnet): (r: nat)
    requires conn in conns
    ensures r < |conns| && conns[r] == conn && conn !in conns[..r]
  {
    if conns[0] == conn then 0 else 1 + FirstOf(conns[1..], conn)
  }

  class Router {
    const localId: NetId
    const cache: UserCache.UserCache
    const table: RouteTable.RouteTable
    const conns: List<Qnet>

    constructor (id: NetId)
      ensures cache.Whole() && cache.Abs() == CacheModel.EMPTY
      ensures table.Valid() && table.Abs() == [] && table.log == []
      ensures conns.Valid() && conns.nodes == [] && localId == id
    {
      hide CacheModel.Inv, RouteTheory.Inv, List.Valid, UserCache.UserCache.Abs, RouteTable.RouteTable.Abs;
      localId := id;
      cache := new UserCache.UserCache();
      table := new RouteTable.RouteTable();
      conns := new List();
    }

    // -------------------------------------------------------------- dropping a connection

    /** remove_users_from. */
    method RemoveUsersFrom(conn: Qnet)
      requires cache.Whole() && table.Valid()
      modifies cache, cache.ues, cache.ues.members, cache.chs, cache.chs.members
      ensures cache.Whole()
      ensures cache.Abs() == CacheRuns.RemoveNets(old(cache.Abs()), RouteModel.EnumRoot(old(table.Abs()), conn))
    {
      hide UserCache.UserCache.Linked, CacheModel.Inv, UserCache.UserCache.Abs, RouteTable.RouteTable.Linked;
      hide RouteTable.RouteTable.Abs;
      hide RouteTheory.Inv, CacheModel.RemoveNet;
      var found := table.RoutetblEnumRoot(conn);
      if found.Some? {
        var dead := found.value;
        ghost var nets, was := dead[..], cache.Abs();
        var i := 0;
        while i < dead.Length
          invariant 0 <= i <= dead.Length && cache.Whole() && dead[..] == nets
          invariant cache.Abs() == CacheRuns.RemoveNets(was, nets[..i])
          invariant cache.chs.members <= old(cache.chs.members) && cache.ues.members <= old(cache.ues.members)
        {
          assert nets[..i + 1][..i] == nets[..i] && nets[i] == dead[i];
          cache.UsercacheRemoveNet(dead[i]);
          i := i + 1;
        }
        assert nets[..i] == nets;
      }
    }

    /** The users go first, while the table still tells which nets lie behind the connection. */
    method CutOff(conn: Qnet)
      requires cache.Whole() && table.Valid()
      modifies cache, cache.ues, cache.ues.members, cache.chs, cache.chs.members
      modifies table, table.list, table.list.members
      ensures cache.Whole() && table.Valid()
      ensures cache.Abs() == CacheRuns.RemoveNets(old(cache.Abs()), RouteModel.EnumRoot(old(table.Abs()), conn))
      ensures var s := RouteModel.DropConn(old(table.Abs()), conn);
        table.Abs() == s.table && table.log == old(table.log) + s.log
    {
      hide UserCache.UserCache.Linked, CacheModel.Inv, UserCache.UserCache.Abs, RouteTable.RouteTable.Linked;
      hide RouteTable.RouteTable.Abs;
      hide RouteTheory.Inv, CacheModel.RemoveNet, CacheRuns.RemoveNets, RouteModel.DropConn, RouteModel.EnumRoot;
      hide List.Valid, DataOf;
      RemoveUsersFrom(conn);
      table.RoutetblRemove(conn);
    }

    /** net_disconnect, for a connection of the list. */
    method NetDisconnect(conn: Qnet)
      requires cache.Whole() && table.Valid() && conns.Valid() && conn in DataOf(conns.nodes)
      modifies cache, cache.ues, cache.ues.members, cache.chs, cache.chs.members
      modifies table, table.list, table.list.members, conns, conns.members
      ensures cache.Whole() && table.Valid() && conns.Valid()
      ensures cache.Abs() == CacheRuns.RemoveNets(old(cache.Abs()), RouteModel.EnumRoot(old(table.Abs()), conn))
      ensures var s := RouteModel.DropConn(old(table.Abs()), conn);
        table.Abs() == s.table && table.log == old(table.log) + s.log
      ensures DataOf(conns.nodes) == RemoveAt(old(DataOf(conns.nodes)), FirstOf(old(DataOf(conns.nodes)), conn))
    {
      hide UserCache.UserCache.Linked, CacheModel.Inv, UserCache.UserCache.Abs, RouteTable.RouteTable.Linked;
      hide RouteTable.RouteTable.Abs, RouteTable.RouteTable.Valid;
      hide RouteTheory.Inv, CacheModel.RemoveNet, CacheRuns.RemoveNets, RouteModel.DropConn, RouteModel.EnumRoot;
      hide List.Valid, DataOf, UserCache.UserCache.Whole, UserCache.UserCache.Valid;
      CutOff(conn);
      Forget(conn);
    }

    /** The entry leaves the list, and nothing else changes. */
    method Forget(conn: Qnet)
      requires cache.Whole() && table.Valid() && conns.Valid() && conn in DataOf(conns.nodes)
      modifies conns, conns.members
      ensures cache.Whole() && table.Valid() && conns.Valid()
      ensures cache.Abs() == old(cache.Abs()) && table.Abs() == old(table.Abs())
      ensures DataOf(conns.nodes) == RemoveAt(old(DataOf(conns.nodes)), FirstOf(old(DataOf(conns.nodes)), conn))
    {
      hide UserCache.UserCache.Linked, CacheModel.Inv, UserCache.UserCache.Abs, RouteTable.RouteTable.Linked;
      hide RouteTable.RouteTable.Abs, RouteTable.RouteTable.Valid, RouteTheory.Inv, List.Valid, DataOf;
      hide UserCache.UserCache.Whole, UserCache.UserCache.Valid, FirstOf, RemoveAt;
      LeRemove(conn);
    }

    /** le_by_qnet, and then le_remove. */
    method LeRemove(conn: Qnet)
      requires conns.Valid() && conn in DataOf(conns.nodes)
      modifies conns, conns.members
      ensures conns.Valid()
      ensures DataOf(conns.nodes) == RemoveAt(old(DataOf(conns.nodes)), FirstOf(old(DataOf(conns.nodes)), conn))
    {
      var le, k := LeByQnet(conn);
      Unlist(le, k);
    }

    method LeByQnet(conn: Qnet) returns (le: Node<Qnet>, ghost k: nat)
      requires conns.Valid() && conn in DataOf(conns.nodes)
      ensures k < |conns.nodes| && conns.nodes[k] == le && le.data == conn && k == FirstOf(DataOf(conns.nodes), conn)
    {
      ghost var was := DataOf(conns.nodes);
      var found := conns.first;
      k := 0;
      while found != null && found.data != conn
        invariant k <= |conns.nodes|
        invariant if k < |conns.nodes| then found == conns.nodes[k] else found == null
        invariant forall j :: 0 <= j < k ==> was[j] != conn
        decreases |conns.nodes| - k
      {
        found := found.next;
        k := k + 1;
      }
      assert conn !in was[..k] && was[k] == conn;
      le := found;
    }

    method Unlist(le: Node<Qnet>, ghost k: nat)
      requires conns.Valid() && k < |conns.nodes| && conns.nodes[k] == le
      modifies conns, conns.members
      ensures conns.Valid() && DataOf(conns.nodes) == RemoveAt(old(DataOf(conns.nodes)), k)
    {
      conns.Remove(le, k);
      assert forall j :: 0 <= j < |conns.nodes| ==> conns.nodes[j] == old(conns.nodes)[if j < k then j else j + 1];
      assert DataOf(conns.nodes) == RemoveAt(old(DataOf(conns.nodes)), k);
    }

    /** le_add. */
    method LeAdd(conn: Qnet)
      requires conns.Valid()
      modifies conns, conns.members
      ensures conns.Valid() && DataOf(conns.nodes) == old(DataOf(conns.nodes)) + [conn]
    {
      var le := new Node(conn);
      conns.Append(le);
      assert DataOf(conns.nodes) == old(DataOf(conns.nodes)) + [conn];
    }

    // -------------------------------------------------------------- exchanging tables

    /** exchange_routetbl: offer every known net, then take in the connection and what it offers. A
      * peer that never ends its list is one whose link fails (None). The null net is never offered:
      * its broadcast would trip an assertion. */
    method ExchangeRoutetbl(conn: Qnet, inbox: seq<Option<NetMsg>>) returns (ok: bool)
      requires table.Valid() && conn.id != NULL_NET && NULL_NET !in Received(inbox).0
      modifies table, table.list, table.list.members
      ensures table.Valid() && ok == Received(inbox).1
      ensures var t1 := RouteModel.AddConn(old(table.Abs()), conn);
        && RouteModel.FindEntry(t1.table, conn) < |t1.table|
        && var s := RouteModel.Learn(t1.table, conn, Received(inbox).0);
           && table.Abs() == s.table
           && table.log == old(table.log) + Offers(conn, RouteModel.EnumAll(old(table.Abs()))) + t1.log + s.log
    {
      hide RouteTheory.Inv, RouteTable.RouteTable.Linked, RouteTable.RouteTable.Abs, RouteModel.EnumAll;
      hide RouteModel.AddConn, RouteModel.AddBranch;
      OfferAll(conn);
      AddedIsFound(table.Abs(), conn);
      table.RoutetblAdd(conn);
      ok := TakeIn(conn, inbox);
    }

    method OfferAll(conn: Qnet)
      requires table.Valid()
      modifies table`log
      ensures table.log == old(table.log) + Offers(conn, RouteModel.EnumAll(table.Abs()))
    {
      hide RouteTheory.Inv, RouteTable.RouteTable.Linked, RouteTable.RouteTable.Abs, RouteModel.EnumAll;
      ghost var was, all := table.log, RouteModel.EnumAll(table.Abs());
      var ids := table.RoutetblEnumAll();
      var nmsg := BLANK.(kind := NetNew);
      var id := 0;
      while id < ids.Length
        invariant 0 <= id <= ids.Length && ids[..] == all
        invariant nmsg == BLANK.(kind := NetNew, dNet := if id == 0 then NULL_NET else all[id - 1])
        invariant table.log == was + OfferEach(conn, all[..id])
      {
        assert all[..id + 1][..id] == all[..id];
        nmsg := nmsg.(dNet := ids[id]);
        table.log := table.log + [Sent(conn, nmsg)];
        id := id + 1;
      }
      assert all[..id] == all;
      // The terminator is the same message once more, so it carries the last net offered.
      table.log := table.log + [Sent(conn, nmsg.(kind := NetEnumEnds))];
    }

    method TakeIn(conn: Qnet, inbox: seq<Option<NetMsg>>) returns (ok: bool)
      requires table.Valid() && RouteModel.FindEntry(table.Abs(), conn) < |table.Abs()|
      requires NULL_NET !in Received(inbox).0
      modifies table, table.list.members
      ensures table.Valid() && ok == Received(inbox).1
      ensures var s := RouteModel.Learn(old(table.Abs()), conn, Received(inbox).0);
        table.Abs() == s.table && table.log == old(table.log) + s.log
    {
      hide RouteTheory.Inv, RouteTable.RouteTable.Linked, RouteTable.RouteTable.Abs, RouteModel.AddBranch;
      hide RouteModel.FindEntry, RouteModel.Learn, RouteModel.Send, List.Valid, RouteTable.RouteTable.Valid;
      ghost var t0, log0 := table.Abs(), table.log;
      ghost var nids: seq<NetId> := [];
      var rest := inbox;
      assert [] + Received(inbox).0 == Received(inbox).0;
      LearnNothing(t0, conn);
      while true
        invariant table.Valid() && RouteModel.FindEntry(t0, conn) < |t0|
        invariant Received(inbox) == (nids + Received(rest).0, Received(rest).1)
        invariant var s := RouteModel.Learn(t0, conn, nids); table.Abs() == s.table && table.log == log0 + s.log
        decreases |rest|
      {
        assert nids + [] == nids;
        if |rest| == 0 || rest[0].None? {
          return false;
        }
        var m := rest[0].value;
        if m.kind == NetEnumEnds {
          return true;
        }
        if m.kind != NetNew {
          return false;
        }
        TakenStep(t0, conn, inbox, nids, rest);
        TakeOne(conn, m.dNet, t0, nids, log0);
        nids := nids + [m.dNet];
        rest := rest[1..];
      }
    }

    method TakeOne(conn: Qnet, nid: NetId, ghost t0: RouteModel.Table, ghost had: seq<NetId>, ghost log0: seq<Sent>)
      requires table.Valid() && RouteModel.FindEntry(t0, conn) < |t0| && nid != NULL_NET
      requires var s := RouteModel.Learn(t0, conn, had); table.Abs() == s.table && table.log == log0 + s.log
      requires var s := RouteModel.Learn(t0, conn, had);
        && RouteModel.FindEntry(s.table, conn) < |s.table|
        && var next := RouteModel.AddBranch(s.table, conn, nid);
           RouteModel.Learn(t0, conn, had + [nid]) == RouteModel.Step(next.table, s.log + next.log)
      modifies table, table.list.members
      ensures table.Valid()
      ensures var s := RouteModel.Learn(t0, conn, had + [nid]); table.Abs() == s.table && table.log == log0 + s.log
    {
      hide RouteTheory.Inv, RouteTable.RouteTable.Linked, RouteTable.RouteTable.Abs, RouteModel.AddBranch;
      hide RouteModel.FindEntry, RouteModel.Learn, RouteModel.Send, List.Valid, RouteTable.RouteTable.Valid;
      table.RoutetblAddBranch(conn, nid);
    }

    // -------------------------------------------------------------- switching

    /** parse_msg. */
    method ParseMsg(conn: Qnet, m: NetMsg)
      requires cache.Whole() && table.Valid() && CacheOk(cache.Abs(), m) && TableOk(table.Abs(), conn, m)
      requires m.kind == UserEnumRequest ==> conn.id != BROADCAST_NET
      modifies cache, cache.ues, cache.ues.members, cache.chs, cache.chs.members
      modifies table, table.list.members
      ensures cache.Whole() && table.Valid()
      ensures cache.Abs() == ParseCache(old(cache.Abs()), m)
      ensures var s := ParseTable(old(table.Abs()), localId, conn, old(cache.Abs().users), m);
        table.Abs() == s.table && table.log == old(table.log) + s.log
      ensures fresh(cache.chs.members - old(cache.chs.members)) && fresh(cache.ues.members - old(cache.ues.members))
    {
      hide UserCache.UserCache.Linked, CacheModel.Inv, UserCache.UserCache.Abs, RouteTable.RouteTable.Linked;
      hide RouteTable.RouteTable.Abs;
      hide RouteTheory.Inv, List.Valid, ParseCache, ParseTable;
      ParseRoutes(conn, m);
      ParseUsers(m);
    }

    /** The cases of parse_msg that touch the route table or send. */
    method ParseRoutes(conn: Qnet, m: NetMsg)
      requires cache.Whole() && table.Valid() && TableOk(table.Abs(), conn, m)
      requires m.kind == UserEnumRequest ==> conn.id != BROADCAST_NET
      modifies table, table.list.members
      ensures table.Valid()
      ensures var s := ParseTable(old(table.Abs()), localId, conn, cache.Abs().users, m);
        table.Abs() == s.table && table.log == old(table.log) + s.log
    {
      hide UserCache.UserCache.Linked, CacheModel.Inv, UserCache.UserCache.Abs, RouteTable.RouteTable.Linked;
      hide RouteTable.RouteTable.Abs;
      hide RouteTheory.Inv, List.Valid, RouteModel.AddBranch, RouteModel.DropBranch, EnumReply;
      match m.kind
      case UserEnumRequest => HandleUserEnumRequest(conn);
      case NetNew => table.RoutetblAddBranch(conn, m.dNet);
      case NetLost => table.RoutetblRemoveBranch(conn, m.dNet);
      case _ =>
    }

    /** The cases of parse_msg that touch the user cache. */
    method ParseUsers(m: NetMsg)
      requires cache.Whole() && CacheOk(cache.Abs(), m)
      modifies cache, cache.ues, cache.ues.members, cache.chs, cache.chs.members
      ensures cache.Whole() && cache.Abs() == ParseCache(old(cache.Abs()), m)
      ensures fresh(cache.chs.members - old(cache.chs.members)) && fresh(cache.ues.members - old(cache.ues.members))
    {
      hide UserCache.UserCache.Linked, CacheModel.Inv, UserCache.UserCache.Abs, List.Valid;
      hide CacheModel.Add, CacheModel.Remove, CacheModel.RemoveNet, CacheModel.JoinChan, CacheModel.PartChan;
      hide CacheModel.SetTopic;
      match m.kind
      case UserNickchange => cache.UsercacheAdd(m.dUser, None, Some(m.dNickname), None);
      case UserModechange => cache.UsercacheAdd(m.dUser, Some(m.dUmode), None, None);
      case UserNew => cache.UsercacheAdd(m.dUser, Some(m.dUmode), Some(m.dNickname), Some(m.dChanlist));
      case UserLost => cache.UsercacheRemove(m.dUser);
      case NetLost => cache.UsercacheRemoveNet(m.dNet);
      case ChannelJoin => cache.UsercacheJoinChan(m.src, m.dChanlist);
      case ChannelLeave => cache.UsercachePartChan(m.src, m.dChanlist);
      case TopicChange => cache.UsercacheSetTopic(m.dChanlist, m.dText);
      case _ =>
    }

    /** handle_user_enum_request. */
    method HandleUserEnumRequest(conn: Qnet)
      requires cache.Whole() && table.Valid() && conn.id != BROADCAST_NET
      modifies table`log
      ensures table.log == old(table.log) + EnumReply(table.Abs(), localId, conn, cache.Abs().users)
    {
      hide UserCache.UserCache.Linked, CacheModel.Inv, UserCache.UserCache.Abs, RouteTable.RouteTable.Linked;
      hide RouteTable.RouteTable.Abs;
      hide RouteTheory.Inv, List.Valid, RouteModel.Send, RouteTable.RouteTable.Valid, EnumReply, EnumMsg;
      hide UserCache.Calls;
      ghost var users, t, was := cache.Abs().users, table.Abs(), table.log;
      var calls := cache.UsercacheEnum();
      var k := 0;
      CallsLength(users);
      EnumReplyStart(t, localId, conn, users);
      while k < |calls|
        invariant 0 <= k <= |calls| == |users| && table.Abs() == t && table.Valid()
        invariant table.log == was + EnumReply(t, localId, conn, users[..k])
      {
        CallAt(users, k);
        EnumReplyStep(t, localId, conn, users, k);
        var (uid, umode, nick, chanlist) := calls[k];
        SendUser(conn, uid, umode, nick, chanlist, users[k]);
        k := k + 1;
      }
      assert users[..k] == users;
    }

    /** user_enum_cb. */
    method SendUser(conn: Qnet, uid: UserId, umode: Umode, nick: string, chanlist: string, ghost u: CacheModel.User)
      requires table.Valid() && conn.id != BROADCAST_NET
      requires u.uid == uid && u.umode == umode && u.nick == nick && ChanList.Join(u.chans) == chanlist
      modifies table`log
      ensures table.log == old(table.log) + RouteModel.Send(table.Abs(), EnumMsg(localId, conn, u))
      ensures table.Abs() == old(table.Abs()) && table.Valid()
    {
      hide RouteTheory.Inv, RouteTable.RouteTable.Linked, RouteTable.RouteTable.Abs, List.Valid, RouteModel.Send;
      table.RoutetblSend(BLANK.(kind := UserNew, src := NULL_USER.(net := localId), dst := NULL_USER.(net := conn.id),
                                dUser := uid, dUmode := umode,
                                dNickname := Clip(nick, NICKNAME_LEN_MAX),
                                dChanlist := Clip(chanlist, CHANLIST_LEN_MAX)));
    }

    /** switch_msg, for a message whose id has not been seen before. */
    method SwitchMsg(conn: Qnet, m: NetMsg)
      requires cache.Whole() && table.Valid() && CacheOk(cache.Abs(), m) && TableOk(table.Abs(), conn, m)
      requires m.kind == UserEnumRequest ==> conn.id != BROADCAST_NET
      requires IsBroadcast(m) ==> m.src.net != NULL_NET
      modifies cache, cache.ues, cache.ues.members, cache.chs, cache.chs.members
      modifies table, table.list.members
      ensures cache.Whole() && table.Valid()
      ensures cache.Abs() == ParseCache(old(cache.Abs()), m)
      ensures var s := SwitchTable(old(table.Abs()), localId, conn, old(cache.Abs().users), m);
        table.Abs() == s.table && table.log == old(table.log) + s.log
      ensures fresh(cache.chs.members - old(cache.chs.members)) && fresh(cache.ues.members - old(cache.ues.members))
    {
      hide UserCache.UserCache.Linked, CacheModel.Inv, UserCache.UserCache.Abs, RouteTable.RouteTable.Linked;
      hide RouteTable.RouteTable.Abs;
      hide RouteTheory.Inv, List.Valid, RouteModel.Send, ParseCache, ParseTable;
      ParseMsg(conn, m);
      if m.dst.net != localId && m.dst.net != NULL_NET && m.kind != TypeInvalid && m.kind != TypeNull {
        table.RoutetblSend(m);
      }
    }
  }

  lemma LearnNothing(t: RouteModel.Table, conn: Qnet)
    requires RouteModel.FindEntry(t, conn) < |t|
    ensures RouteModel.Learn(t, conn, []) == RouteModel.Step(t, [])
  {
  }

  /** One more offered net. */
  lemma TakenStep(t: RouteModel.Table, conn: Qnet, inbox: seq<Option<NetMsg>>, nids: seq<NetId>,
                  rest: seq<Option<NetMsg>>)
    requires RouteModel.FindEntry(t, conn) < |t|
    requires rest != [] && rest[0].Some? && rest[0].value.kind == NetNew
    requires Received(inbox) == (nids + Received(rest).0, Received(rest).1)
    ensures var n := rest[0].value.dNet;
      && n in Received(inbox).0
      && Received(inbox) == (nids + [n] + Received(rest[1..]).0, Received(rest[1..]).1)
      && (var s := RouteModel.Learn(t, conn, nids);
          && RouteModel.FindEntry(s.table, conn) < |s.table|
          && (var next := RouteModel.AddBranch(s.table, conn, n);
              RouteModel.Learn(t, conn, nids + [n]) == RouteModel.Step(next.table, s.log + next.log)))
  {
    var n := rest[0].value.dNet;
    assert (nids + [n])[..|nids|] == nids;
    assert nids + Received(rest).0 == nids + [n] + Received(rest[1..]).0;
    assert Received(inbox).0[|nids|] == n;
  }

  lemma AddedIsFound(t: RouteModel.Table, conn: Qnet)
    ensures RouteModel.FindEntry(RouteModel.AddConn(t, conn).table, conn) < |RouteModel.AddConn(t, conn).table|
  {
    if RouteModel.FindEntry(t, conn) == |t| {
      assert (t + [RouteModel.Route(conn, [])])[|t|].conn == conn;
    }
  }

  lemma {:induction false} CallsLength(users: seq<CacheModel.User>)
    ensures |UserCache.Calls(users)| == |users|
  {
    if users != [] { CallsLength(users[..|users| - 1]); }
  }

  lemma EnumReplyStart(t: RouteModel.Table, localId: NetId, conn: Qnet, users: seq<CacheModel.User>)
    ensures EnumReply(t, localId, conn, users[..0]) == []
  {
  }

  lemma EnumReplyStep(t: RouteModel.Table, localId: NetId, conn: Qnet, users: seq<CacheModel.User>, k: nat)
    requires k < |users|
    ensures EnumReply(t, localId, conn, users[..k + 1])
         == EnumReply(t, localId, conn, users[..k]) + RouteModel.Send(t, EnumMsg(localId, conn, users[k]))
  {
    assert users[..k + 1][..k] == users[..k];
  }

  lemma {:induction false} CallAt(users: seq<CacheModel.User>, k: nat)
    requires k < |users|
    ensures |UserCache.Calls(users)| == |users|
    ensures var u := users[k]; UserCache.Calls(users)[k] == (u.uid, u.umode, u.nick, ChanList.Join(u.chans))
  {
    CallsLength(users[..|users| - 1]);
    if k < |users| - 1 { CallAt(users[..|users| - 1], k); }
  }

  /** The messages offering each net to a new peer. */
  function OfferEach(conn: Qnet, nids: seq<NetId>): seq<Sent> {
    if nids == [] then []
    else OfferEach(conn, nids[..|nids| - 1]) + [Sent(conn, BLANK.(kind := NetNew, dNet := nids[|nids| - 1]))]
  }

  function Offers(conn: Qnet, nids: seq<NetId>): seq<Sent> {
    OfferEach(conn, nids)
    + [Sent(conn, BLANK.(kind := NetEnumEnds, dNet := if nids == [] then NULL_NET else nids[|nids| - 1]))]
  }
}
