/** What one datagram from the link comes to: one of the router's own, a leave, an acknowledgement, one that is not
  * passed on; said of entries and fields. */
module LocalEffect {
  import opened Basics
  import opened QcsMessage
  import opened Messages
  import opened CacheModel
  import opened CacheTheory
  import CacheRuns
  import opened SwitchModel
  import opened LocalModel
  import opened LocalTheory
  import opened Translation
  import opened SwitchEffect
  import RouteModel

  // ---------------------------------------------------------------- the router's own datagrams

  /** The router's own are those under its nickname, or under that of a cached user of another net. */
  lemma OwnExactly(c: Cache, net: NetId, q: QcsMsg)
    ensures Own(c, net, q) <==>
      (q.src.Some?
        && (Clip(q.src.value, 31) == "qcRouter_msg"
          || exists a :: Bears(c, q.src.value, a) && a.net != 0 && a.net != net))
  {
    assert Clip(QCROUTER_NICK, NICKNAME_LEN_MAX) == "qcRouter_msg";
    if q.src.Some? { NamedIsFound(c, q.src.value); }
    hide FindNick, Named, Bears, Clip;
  }

  /** They are dropped: no message, no answer, no change. */
  lemma OwnAreDropped(l: Local, c: Cache, net: NetId)
    requires Ready(l, c, net) && !Pending(l)
    requires var q := l.inbox[0];
      q.src.Some? && (Clip(q.src.value, 31) == "qcRouter_msg"
        || exists a :: Bears(c, q.src.value, a) && a.net != 0 && a.net != net)
    ensures var d := Drain(l, c, net);
      d.cache == c && d.local == l.(inbox := l.inbox[1..])
      && |d.out| == 1 && d.out[0].msg.kind == TypeNull && d.out[0].msg.dst.net == 0
  {
    OwnExactly(c, net, l.inbox[0]);
    ReceiveFine(l, c, net);
    hide Inv, Own, Bears, Clip, Translated, CacheAfter;
  }

  // ---------------------------------------------------------------- not passed on

  /** What is not to be passed on leaves no connection of the router, whatever its table; what is goes out by it. */
  lemma OnlyTheHeededLeave(c: Cache, net: NetId, q: QcsMsg, t: RouteModel.Table, localId: NetId, conn: Qnet)
    requires Inv(c) && WellFormed(q) && Admitted(c, q) && net != NULL_NET
    ensures var m := Translated(c, net, q);
      && TableOk(t, conn, m)
      && SwitchTable(t, localId, conn, c.users, m).table == t
      && SwitchTable(t, localId, conn, c.users, m).log
         == if Heeded(c, net, q) && m.dst.net != localId then RouteModel.Send(t, m) else []
  {
    PassedOnExactly(c, net, q);
    TranslatedNames(c, net, q);
    KeptSilent(c, net, q);
    hide Inv, Heeded, Admitted, NamesKnown, RouteModel.Send, Translated;
    var log := RouteModel.Send(t, Translated(c, net, q));
    assert [] + log == log;
  }

  lemma KeptSilent(c: Cache, net: NetId, q: QcsMsg)
    requires WellFormed(q) && Admitted(c, q)
    ensures var m := Translated(c, net, q); m.kind == TypeNull || m.kind == TypeInvalid ==> m.dst.net == NULL_NET
    ensures var m := Translated(c, net, q); m.kind != TypeNull && m.kind != TypeInvalid ==> m.dst.net != NULL_NET
  {
    hide FindNick, SameTopic, FromQcsMode, FindUser, Clip;
  }

  // ---------------------------------------------------------------- acknowledgements

  /** An acknowledgement to the router marks its sender alive and records its mode, and changes nothing else. */
  lemma AcknowledgementRecords(c: Cache, q: QcsMsg, i: nat)
    requires Inv(c) && WellFormed(q) && Admitted(c, q) && q.id == QRefreshAck && Named(c, q.src.value, i)
    requires Clip(q.dst.value, 31) == "qcRouter_msg"
    ensures CacheAfter(c, q)
      == c.(users := c.users[i := c.users[i].(alive := true, umode := FromQcsMode(q.mode))])
  {
    NamedIsFound(c, q.src.value);
    CacheRuns.FindUserAt(c.users, i);
    assert Clip(QCROUTER_NICK, NICKNAME_LEN_MAX) == "qcRouter_msg";
    var uid := c.users[i].uid;
    var t := TagAlive(c, uid);
    TaggedKnown(c, uid);
    assert t.users == c.users[i := c.users[i].(alive := true)];
    assert FindUser(t.users, uid) == i by { CacheRuns.FindUserAt(t.users, i); }
    hide Inv, FindNick, Named, FromQcsMode, SetChans;
  }

  /** No other datagram changes the cache before it is switched. */
  lemma OthersRecordNothing(c: Cache, q: QcsMsg)
    requires Inv(c) && WellFormed(q) && Admitted(c, q)
    requires q.id == QRefreshAck ==> Clip(q.dst.value, 31) != "qcRouter_msg"
    ensures CacheAfter(c, q) == c
  {
    assert Clip(QCROUTER_NICK, NICKNAME_LEN_MAX) == "qcRouter_msg";
  }

  // ---------------------------------------------------------------- leaving

  lemma MainExactly(s: string)
    ensures IsMain(s) <==>
      |s| == 4 && s[0] in {'m', 'M'} && s[1] in {'a', 'A'} && s[2] in {'i', 'I'} && s[3] in {'n', 'N'}
  {
    if IsMain(s) {
      assert Lower(s)[0] == 'm' && Lower(s)[1] == 'a' && Lower(s)[2] == 'i' && Lower(s)[3] == 'n';
    }
    if |s| == 4 && s[0] in {'m', 'M'} && s[1] in {'a', 'A'} && s[2] in {'i', 'I'} && s[3] in {'n', 'N'} {
      assert Lower(s) == "main";
    }
  }

  lemma LeaveIsTaken(l: Local, c: Cache, net: NetId, uid: UserId)
    requires Ready(l, c, net) && !Pending(l) && l.inbox[0].id == QChannelLeave
    requires Bears(c, l.inbox[0].src.value, uid) && uid.net == net && Clip(l.inbox[0].src.value, 31) != "qcRouter_msg"
    ensures var q := l.inbox[0];
      && !Own(c, net, q) && Admitted(c, q) && CacheAfter(c, q) == c
      && var m := Translated(c, net, q);
      && m.kind == ChannelLeave && m.src == uid && m.dChanlist == Clip(q.chan.value, 511)
      && Pushed(c, net, q) == if IsMain(q.chan.value) then [LostMsg(net, uid)] else []
    ensures var q := l.inbox[0]; var l1 := l.(inbox := l.inbox[1..]);
      Receive(l, c, net)
        == Recv(l1.(queue := Pushed(c, net, q)), c, Translated(c, net, q), Pushed(c, net, q) != [])
  {
    var q := l.inbox[0];
    NamedIsFound(c, q.src.value);
    assert Clip(QCROUTER_NICK, NICKNAME_LEN_MAX) == "qcRouter_msg";
    hide Inv, FindNick, Named, Bears, IsMain, Clip, QueueOk;
    assert l.queue + Pushed(c, net, q) == Pushed(c, net, q);
    assert l.sent + [] == l.sent;
  }

  lemma LeftUserStays(c: Cache, m: NetMsg, uid: UserId)
    requires Inv(c) && m.kind == ChannelLeave && KnownUid(c, uid)
    ensures CacheOk(c, m) && Inv(ParseCache(c, m)) && KnownUid(ParseCache(c, m), uid)
  {
    ParseCacheInv(c, m);
    LeaveEffect(c, m);
    var d, i := ParseCache(c, m), FindUser(c.users, uid);
    assert d.users[i].uid == uid;
    hide Inv, ParseCache;
  }

  lemma LostUserGoes(c: Cache, m: NetMsg, uid: UserId)
    requires Inv(c) && m.kind == UserLost && m.dUser == uid
    ensures CacheOk(c, m) && !KnownUid(ParseCache(c, m), uid)
  {
    LostEffect(c, m);
    var d := ParseCache(c, m);
    hide Inv, ParseCache;
    forall j | 0 <= j < |d.users| ensures d.users[j].uid != uid { assert d.users[j] in d.users; }
  }

  /** Somebody of this net leaves: first that is told, and if the channel is Main, in whatever case, then the loss of
    * the user, who is gone from the cache when it is switched; otherwise the user stays, off the channel. */
  lemma LeavingMainIsLeaving(l: Local, c: Cache, net: NetId, uid: UserId)
    requires Ready(l, c, net) && !Pending(l) && l.inbox[0].id == QChannelLeave
    requires Bears(c, l.inbox[0].src.value, uid) && uid.net == net && Clip(l.inbox[0].src.value, 31) != "qcRouter_msg"
    ensures var q, out := l.inbox[0], Msgs(Drain(l, c, net).out);
      && |out| == (if IsMain(q.chan.value) then 2 else 1)
      && out[0].kind == ChannelLeave && out[0].src == uid && out[0].dChanlist == Clip(q.chan.value, 511)
      && (IsMain(q.chan.value) ==> out[1].kind == UserLost && out[1].dUser == uid && IsBroadcast(out[1]))
    ensures KnownUid(Drain(l, c, net).cache, uid) <==> !IsMain(l.inbox[0].chan.value)
  {
    var q := l.inbox[0];
    LeaveIsTaken(l, c, net, uid);
    DrainOrder(l, c, net);
    LeavingGoes(l, c, net, uid);
    hide Inv, Bears, Clip, IsMain, Translated, ParseCache, CacheAfter, Own, Handle, Drain, Receive, QueueOk, KnownUid;
  }

  lemma LeavingGoes(l: Local, c: Cache, net: NetId, uid: UserId)
    requires Ready(l, c, net) && !Pending(l) && l.inbox[0].id == QChannelLeave
    requires Bears(c, l.inbox[0].src.value, uid) && uid.net == net && Clip(l.inbox[0].src.value, 31) != "qcRouter_msg"
    ensures KnownUid(Drain(l, c, net).cache, uid) <==> !IsMain(l.inbox[0].chan.value)
  {
    hide Inv, Bears, Clip, IsMain, Translated, ParseCache, CacheAfter, Own, Handle, KnownUid, Drain, Receive;
    hide KnownNick, UidOf, Admitted, Pushed;
    var q := l.inbox[0];
    NamedIsFound(c, q.src.value);
    UidKnown(c, q.src.value);
    LeaveIsTaken(l, c, net, uid);
    LeftUserStays(c, Translated(c, net, q), uid);
    DrainsTo(l, c, net);
    var r := Receive(l, c, net);
    if r.more {
      DrainsTo(r.local, AfterSwitch(r), net);
      LastLoss(r.local, AfterSwitch(r), net);
      LostUserGoes(AfterSwitch(r), r.local.queue[0], uid);
    }
  }

  lemma DrainsTo(l: Local, c: Cache, net: NetId)
    requires Ready(l, c, net)
    ensures var r := Receive(l, c, net);
      && CacheOk(r.cache, r.msg)
      && (r.more ==> Ready(r.local, AfterSwitch(r), net))
      && Drain(l, c, net).cache
         == if r.more then Drain(r.local, AfterSwitch(r), net).cache else AfterSwitch(r)
  {
    ReceiveFine(l, c, net);
    hide Receive, Inv, NamesKnown, QueueOk;
  }

  lemma LastLoss(l: Local, c: Cache, net: NetId)
    requires Ready(l, c, net) && |l.queue| == 1
    ensures var r := Receive(l, c, net);
      !r.more && r.cache == c && r.msg == l.queue[0] && r.msg.kind == UserLost
  {
    assert Loss(net, l.queue[0]);
    hide Inv;
  }
}
