/** The users a local net announces: how they are numbered over any history, that the ids are free as long as the
  * numbers last, and what the announcement makes of the cache. */
module NewUsers {
  import opened Basics
  import opened QcsMessage
  import opened Messages
  import opened ChanList
  import opened CacheModel
  import opened CacheTheory
  import opened CacheRuns
  import opened SwitchModel
  import opened LocalModel
  import opened LocalTheory
  import opened SwitchEffect
  import opened Refreshing

  const NUMBERS := 0x10000

  /** The announcements of new users among the messages delivered, in order. */
  function News(out: seq<Delivery>): (r: seq<Delivery>)
    ensures forall d :: d in r <==> d in out && d.msg.kind == UserNew
  {
    if out == [] then [] else (if out[0].msg.kind == UserNew then [out[0]] else []) + News(out[1..])
  }

  lemma {:induction false} NewsConcat(a: seq<Delivery>, b: seq<Delivery>)
    ensures News(a + b) == News(a) + News(b)
  {
    if a == [] {
      assert a + b == b;
    } else {
      assert (a + b)[1..] == a[1..] + b;
      NewsConcat(a[1..], b);
    }
  }

  /** The k-th number after the last one given. */
  function NumberAfter(last: NetId, k: nat): NetId { (last + k) % NUMBERS }

  lemma NumbersAdd(last: NetId, a: nat, b: nat)
    ensures NumberAfter(NumberAfter(last, a), b) == NumberAfter(last, a + b)
  {
  }

  lemma NumbersDiffer(last: NetId, a: nat, b: nat)
    requires a < b < a + NUMBERS
    ensures NumberAfter(last, a) != NumberAfter(last, b)
  {
  }

  // ---------------------------------------------------------------- numbering

  /** These are announced with the numbers that follow the last one given, one by one. */
  ghost predicate Numbered(news: seq<Delivery>, net: NetId, last: NetId) {
    forall k :: 0 <= k < |news| ==> news[k].msg.dUser == UserId(net, NumberAfter(last, k + 1))
  }

  lemma NumberedConcat(a: seq<Delivery>, b: seq<Delivery>, net: NetId, last: NetId)
    requires Numbered(a, net, last) && Numbered(b, net, NumberAfter(last, |a|))
    ensures Numbered(a + b, net, last)
  {
    forall k | 0 <= k < |a + b| ensures (a + b)[k].msg.dUser == UserId(net, NumberAfter(last, k + 1)) {
      if k >= |a| { NumbersAdd(last, |a|, k - |a| + 1); }
    }
  }

  /** A receive that announces somebody gives the next number, and any other none. */
  lemma ReceiveNumbers(l: Local, c: Cache, net: NetId)
    requires Ready(l, c, net)
    ensures var r := Receive(l, c, net);
      if r.msg.kind == UserNew then
        r.msg.dUser == UserId(net, NumberAfter(l.lastUser, 1)) && r.local.lastUser == NumberAfter(l.lastUser, 1)
      else r.local.lastUser == l.lastUser
  {
    hide Inv, Translated, CacheAfter, Pushed, Replies;
    if l.queue != [] {
      assert Loss(net, l.queue[0]);
    } else {
      var q := if l.postponed.Some? then l.postponed.value else l.inbox[0];
      if !Own(c, net, q) && Admitted(c, q) { TranslatedNames(c, net, q); }
    }
  }

  lemma {:induction false} DrainNumbers(l: Local, c: Cache, net: NetId)
    requires Ready(l, c, net)
    ensures var d := Drain(l, c, net);
      Numbered(News(d.out), net, l.lastUser) && d.local.lastUser == NumberAfter(l.lastUser, |News(d.out)|)
    decreases Work(l)
  {
    hide Receive, Inv, NamesKnown, ParseCache, NumberAfter, QueueOk;
    ReceiveFine(l, c, net);
    ReceiveNumbers(l, c, net);
    var r := Receive(l, c, net);
    var here := [Delivery(r.cache, r.msg)];
    var now := if r.msg.kind == UserNew then here else [];
    NothingAfter(l.lastUser);
    NewsOne(here[0]);
    OneNumbered(now, net, l.lastUser);
    hide Numbered, News, StepFine;
    if r.more {
      var rest := Drain(r.local, AfterSwitch(r), net);
      DrainNumbers(r.local, AfterSwitch(r), net);
      NewsConcat(here, rest.out);
      NumberedConcat(now, News(rest.out), net, l.lastUser);
      NumbersAdd(l.lastUser, |now|, |News(rest.out)|);
    }
  }

  lemma NewsOne(d: Delivery)
    ensures News([d]) == if d.msg.kind == UserNew then [d] else []
  {
    assert [d][1..] == [];
  }

  lemma OneNumbered(news: seq<Delivery>, net: NetId, last: NetId)
    requires |news| <= 1 && (|news| == 1 ==> news[0].msg.dUser == UserId(net, NumberAfter(last, 1)))
    ensures Numbered(news, net, last)
  {
  }

  lemma NothingAfter(last: NetId)
    ensures NumberAfter(last, 0) == last
  {
  }

  lemma HistoryStep(w: World, net: NetId, events: seq<Event>)
    requires Quiet(w, net) && History(w, net, events) && events != []
    ensures Enabled(w, events[0])
    ensures var (w1, out) := Happen(w, net, events[0]);
      && Quiet(w1, net) && History(w1, net, events[1..])
      && Lived(w, net, events).0 == Lived(w1, net, events[1..]).0
      && News(Lived(w, net, events).1) == News(out) + News(Lived(w1, net, events[1..]).1)
  {
    hide Happen, Quiet, News;
    HappenQuiet(w, net, events[0]);
    var (w1, out) := Happen(w, net, events[0]);
    NewsConcat(out, Lived(w1, net, events[1..]).1);
  }

  /** One event gives the next numbers, or none. */
  lemma HappenNumbers(w: World, net: NetId, e: Event)
    requires Quiet(w, net) && Enabled(w, e)
    ensures var (w1, out) := Happen(w, net, e);
      Numbered(News(out), net, w.local.lastUser) && w1.local.lastUser == NumberAfter(w.local.lastUser, |News(out)|)
  {
    hide NumberAfter, Drain, Apply;
    NothingAfter(w.local.lastUser);
    if e.Poll? { DrainNumbers(w.local, w.cache, net); }
  }

  lemma {:induction false} HistoryNumbers(w: World, net: NetId, events: seq<Event>)
    requires Quiet(w, net) && History(w, net, events)
    ensures Numbered(News(Lived(w, net, events).1), net, w.local.lastUser)
    ensures Lived(w, net, events).0.local.lastUser
         == NumberAfter(w.local.lastUser, |News(Lived(w, net, events).1)|)
    decreases |events|
  {
    NothingAfter(w.local.lastUser);
    if events != [] {
      hide NumberAfter, Happen, Quiet, History, Lived, News, Enabled, Numbered;
      HistoryStep(w, net, events);
      HappenNumbers(w, net, events[0]);
      var (w1, out) := Happen(w, net, events[0]);
      HistoryNumbers(w1, net, events[1..]);
      var now, rest := News(out), News(Lived(w1, net, events[1..]).1);
      NumberedConcat(now, rest, net, w.local.lastUser);
      NumbersAdd(w.local.lastUser, |now|, |rest|);
    }
  }

  /** Over any history the new users get the numbers that follow the last one given, in the order in which they are
    * announced; so that up to 65536 of them, no two get the same id. */
  lemma NewUsersAreNumbered(w: World, net: NetId, events: seq<Event>)
    requires Quiet(w, net) && History(w, net, events)
    ensures var (w2, out) := Lived(w, net, events);
      && Numbered(News(out), net, w.local.lastUser)
      && w2.local.lastUser == NumberAfter(w.local.lastUser, |News(out)|)
      && (|News(out)| <= 0x10000 ==>
            forall i, j :: 0 <= i < j < |News(out)| ==> News(out)[i].msg.dUser != News(out)[j].msg.dUser)
  {
    hide Quiet, History, Lived, News, Numbered, NumberAfter;
    HistoryNumbers(w, net, events);
    NumberedDistinct(News(Lived(w, net, events).1), net, w.local.lastUser);
  }

  lemma NumberedDistinct(news: seq<Delivery>, net: NetId, last: NetId)
    requires Numbered(news, net, last)
    ensures |news| <= NUMBERS ==> forall i, j :: 0 <= i < j < |news| ==> news[i].msg.dUser != news[j].msg.dUser
  {
    if |news| <= NUMBERS {
      forall i, j | 0 <= i < j < |news| ensures news[i].msg.dUser != news[j].msg.dUser {
        NumbersDiffer(last, i + 1, j + 1);
      }
    }
  }

  // ---------------------------------------------------------------- free ids

  function Ids(c: Cache): set<UserId> { set u | u in c.users :: u.uid }

  lemma IdsAre(c: Cache)
    ensures forall uid :: uid in Ids(c) <==> KnownUid(c, uid)
  {
    forall uid ensures uid in Ids(c) <==> KnownUid(c, uid) {
      if KnownUid(c, uid) { assert c.users[FindUser(c.users, uid)] in c.users; }
    }
  }

  /** No operation brings an id but the addition of a user. */
  lemma ApplyIds(c: Cache, op: Op)
    requires Inv(c) && OpOk(c, op)
    ensures Ids(Apply(c, op)) <= Ids(c) + if op.AddOp? then {op.uid} else {}
  {
    match op
    case AddOp(uid, umode, nick, chanlist) => AddIds(c, uid, umode, nick, chanlist);
    case RemoveOp(uid) =>
      if KnownUid(c, uid) { RemoveIdxEffect(c, FindUser(c.users, uid)); }
      hide Inv;
    case RemoveNetOp(net) =>
      RemoveNetEffect(c, net);
      hide Inv;
    case _ =>
      SamePlaces(c, Apply(c, op));
  }

  lemma SamePlaces(c: Cache, d: Cache)
    requires |d.users| == |c.users| && forall i :: 0 <= i < |c.users| ==> d.users[i].uid == c.users[i].uid
    ensures Ids(d) == Ids(c)
  {
    forall uid ensures uid in Ids(d) <==> uid in Ids(c) {
      if uid in Ids(c) {
        var i :| 0 <= i < |c.users| && c.users[i].uid == uid;
        assert d.users[i] in d.users;
      }
      if uid in Ids(d) {
        var i :| 0 <= i < |d.users| && d.users[i].uid == uid;
        assert c.users[i] in c.users;
      }
    }
  }

  lemma AddIds(c: Cache, uid: UserId, umode: Option<Umode>, nick: Option<string>, chanlist: Option<string>)
    requires Inv(c) && AddOk(c, uid, umode, nick, chanlist)
    ensures Ids(Add(c, uid, umode, nick, chanlist)) <= Ids(c) + {uid}
  {
    var d, i := Add(c, uid, umode, nick, chanlist), FindUser(c.users, uid);
    if i < |c.users| {
      AddInv(c, uid, umode, nick, None);
      if chanlist.Some? { SetChansInv(Add(c, uid, umode, nick, None), i, chanlist.value); }
      SamePlaces(c, d);
    } else {
      var u := User(uid, umode.value, Clip(nick.value, NICKNAME_LEN_MAX), true, []);
      var c1 := c.(users := c.users + [u]);
      NewUserInv(c, u);
      SetChansInv(c1, i, chanlist.value);
      SamePlaces(c1, d);
      hide Inv, Add, SetChans;
    }
  }

  /** No cached user of the net has one of the next n numbers. */
  ghost predicate Spare(c: Cache, net: NetId, last: NetId, n: nat) {
    forall uid, k :: uid in Ids(c) && uid.net == net && 0 < k <= n ==> uid.num != NumberAfter(last, k)
  }

  /** The other nets bring no users of this one. */
  predicate Foreign(events: seq<Event>, net: NetId) {
    forall i :: 0 <= i < |events| && events[i].Elsewhere? && events[i].op.AddOp? ==> events[i].op.uid.net != net
  }

  lemma SpareLess(c: Cache, d: Cache, net: NetId, last: NetId, n: nat)
    requires Spare(c, net, last, n) && forall uid :: uid in Ids(d) && uid.net == net ==> uid in Ids(c)
    ensures Spare(d, net, last, n)
  {
  }

  /** The next number is given. */
  lemma SpareNext(c: Cache, d: Cache, net: NetId, last: NetId, n: nat)
    requires Spare(c, net, last, n) && 0 < n <= NUMBERS && Ids(d) <= Ids(c) + {UserId(net, NumberAfter(last, 1))}
    ensures UserId(net, NumberAfter(last, 1)) !in Ids(c)
    ensures Spare(d, net, NumberAfter(last, 1), n - 1)
  {
    var next := NumberAfter(last, 1);
    forall uid, k | uid in Ids(d) && uid.net == net && 0 < k <= n - 1 ensures uid.num != NumberAfter(next, k) {
      NumbersAdd(last, 1, k);
      if uid !in Ids(c) { NumbersDiffer(last, 1, 1 + k); }
    }
  }

  lemma AcknowledgedIds(c: Cache, q: QcsMsg)
    requires Inv(c) && WellFormed(q) && Admitted(c, q)
    ensures Ids(CacheAfter(c, q)) == Ids(c)
  {
    var r := CacheAfter(c, q);
    if q.id == QRefreshAck && SameNick(q.dst.value, QCROUTER_NICK) {
      var i := FindNick(c.users, q.src.value);
      var uid := c.users[i].uid;
      var t := TagAlive(c, uid);
      TaggedKnown(c, uid);
      assert |t.users| == |c.users| && forall j :: 0 <= j < |c.users| ==> t.users[j].uid == c.users[j].uid;
      assert |r.users| == |t.users| && forall j :: 0 <= j < |t.users| ==> r.users[j].uid == t.users[j].uid;
    }
    SamePlaces(c, r);
  }

  lemma HandledIds(l: Local, c: Cache, net: NetId)
    requires Ready(l, c, net)
    ensures Ids(Receive(l, c, net).cache) == Ids(c)
    ensures Receive(l, c, net).msg.kind == UserNew ==> Receive(l, c, net).cache == c
  {
    hide Translated, Pushed, Replies, CacheAfter, Ids, Inv;
    if l.queue == [] {
      var q := if l.postponed.Some? then l.postponed.value else l.inbox[0];
      if !Own(c, net, q) && Admitted(c, q) {
        TranslatedNames(c, net, q);
        AcknowledgedIds(c, q);
      }
    } else {
      assert Loss(net, l.queue[0]);
    }
  }

  /** Switching a received message brings at most the user it announces. */
  lemma ReceiveIds(l: Local, c: Cache, net: NetId)
    requires Ready(l, c, net)
    ensures StepFine(l, c, net, Receive(l, c, net))
    ensures Ids(NextCache(l, c, net))
         <= Ids(c) + if Receive(l, c, net).msg.kind == UserNew then {Receive(l, c, net).msg.dUser} else {}
  {
    hide Receive, Inv, Apply, Ids, QueueOk;
    ReceiveFine(l, c, net);
    HandledIds(l, c, net);
    var r := Receive(l, c, net);
    if CacheOp(r.msg).Some? { SwitchIds(r.cache, r.msg); }
  }

  lemma SwitchIds(c: Cache, m: NetMsg)
    requires Inv(c) && CacheOk(c, m)
    ensures Ids(ParseCache(c, m)) <= Ids(c) + if m.kind == UserNew then {m.dUser} else {}
  {
    hide Inv, Apply, Ids;
    if CacheOp(m).Some? {
      ApplyIds(c, CacheOp(m).value);
      if m.kind in {UserNickchange, UserModechange} { IdsAre(c); }
    }
  }

  /** The first receive of an event, and the rest. */
  lemma DrainStep(l: Local, c: Cache, net: NetId)
    requires Ready(l, c, net)
    ensures var r, d, next := Receive(l, c, net), Drain(l, c, net), NextCache(l, c, net);
      var now := if r.msg.kind == UserNew then [Delivery(r.cache, r.msg)] else [];
      if r.more then
        && Ready(r.local, next, net) && Work(r.local) < Work(l)
        && var rest := Drain(r.local, next, net);
        News(d.out) == now + News(rest.out) && d.cache == rest.cache && d.local == rest.local
      else News(d.out) == now && d.cache == next && d.local == r.local
  {
    ReceiveFine(l, c, net);
    hide Receive, Inv, NamesKnown, ParseCache, QueueOk, Ready, News;
    var r := Receive(l, c, net);
    NewsOne(Delivery(r.cache, r.msg));
    if r.more { NewsConcat([Delivery(r.cache, r.msg)], Drain(r.local, AfterSwitch(r), net).out); }
  }

  /** One receive uses up at most one of the spare numbers. */
  lemma ReceiveSpares(l: Local, c: Cache, net: NetId, n: nat)
    requires Ready(l, c, net) && Spare(c, net, l.lastUser, n) && n <= NUMBERS
    requires Receive(l, c, net).msg.kind == UserNew ==> n > 0
    ensures var r, next := Receive(l, c, net), NextCache(l, c, net);
      if r.msg.kind == UserNew then
        !KnownUid(r.cache, r.msg.dUser) && Spare(next, net, r.local.lastUser, n - 1)
      else Spare(next, net, r.local.lastUser, n)
  {
    ReceiveIds(l, c, net);
    ReceiveNumbers(l, c, net);
    HandledIds(l, c, net);
    hide Ready, StepFine, Receive, NextCache, Ids, Spare, NumberAfter, Inv;
    var r := Receive(l, c, net);
    IdsAre(r.cache);
    if r.msg.kind == UserNew {
      SpareNext(c, NextCache(l, c, net), net, l.lastUser, n);
    } else {
      SpareLess(c, NextCache(l, c, net), net, l.lastUser, n);
    }
  }

  /** The ids that a run of receives announces are free, as long as the numbers last. */
  lemma {:induction false} DrainFree(l: Local, c: Cache, net: NetId, n: nat)
    requires Ready(l, c, net) && Spare(c, net, l.lastUser, n) && |News(Drain(l, c, net).out)| <= n <= NUMBERS
    ensures var d := Drain(l, c, net);
      && (forall k :: k in News(d.out) ==> !KnownUid(k.cache, k.msg.dUser))
      && Spare(d.cache, net, d.local.lastUser, n - |News(d.out)|)
    decreases Work(l)
  {
    hide Receive, NextCache, News, Drain, Spare, KnownUid, Work, QueueOk;
    DrainStep(l, c, net);
    ReceiveSpares(l, c, net, n);
    var r := Receive(l, c, net);
    if r.more { DrainFree(r.local, NextCache(l, c, net), net, if r.msg.kind == UserNew then n - 1 else n); }
  }

  lemma HappenFree(w: World, net: NetId, e: Event, n: nat)
    requires Quiet(w, net) && Enabled(w, e) && Foreign([e], net)
    requires Spare(w.cache, net, w.local.lastUser, n) && |News(Happen(w, net, e).1)| <= n <= NUMBERS
    ensures var (w1, out) := Happen(w, net, e);
      && (forall d :: d in News(out) ==> !KnownUid(d.cache, d.msg.dUser))
      && Spare(w1.cache, net, w1.local.lastUser, n - |News(out)|)
  {
    hide NumberAfter, KnownUid, Drain, Spare, Apply, Ids;
    match e
    case Poll => DrainFree(w.local, w.cache, net, n);
    case Refresh =>
      SamePlaces(w.cache, TagDead(w.cache, net));
      SpareLess(w.cache, TagDead(w.cache, net), net, w.local.lastUser, n);
    case Elsewhere(op) =>
      assert [e][0].op == op;
      ApplyIds(w.cache, op);
      SpareLess(w.cache, Apply(w.cache, op), net, w.local.lastUser, n);
    case _ =>
  }

  /** Over any history in which the other nets bring no users of this one: if no cached user of the net has a number
    * that is still to be given, then every id announced is free when it is announced. */
  lemma {:induction false} NewIdsAreFree(w: World, net: NetId, events: seq<Event>, n: nat)
    requires Quiet(w, net) && History(w, net, events) && Foreign(events, net)
    requires |News(Lived(w, net, events).1)| <= n <= NUMBERS && Spare(w.cache, net, w.local.lastUser, n)
    ensures forall d :: d in News(Lived(w, net, events).1) ==> !KnownUid(d.cache, d.msg.dUser)
    decreases |events|
  {
    if events != [] {
      hide Spare, KnownUid, Happen, Quiet, History, Lived, News, Enabled;
      HistoryStep(w, net, events);
      var (w1, out) := Happen(w, net, events[0]);
      HappenFree(w, net, events[0], n);
      NewIdsAreFree(w1, net, events[1..], n - |News(out)|);
    } else {
      hide Spare, Quiet;
    }
  }

  // ---------------------------------------------------------------- what an announcement says

  lemma MainListed()
    ensures Listed("#Main") == ["Main"]
  {
    var names := ["Main"];
    assert names[1..] == [] && Join(names) == "#Main";
    SplitJoin(names);
    assert "#Main"[1..] == "Main";
    ClipAllShort(names);
    FirstsOfDistinct(names);
  }

  /** Somebody whose nickname is not known and who does not just rename or leave. */
  predicate Stranger(c: Cache, q: QcsMsg) {
    && q.src.Some? && q.id !in {QChannelLeave, QRename} && Clip(q.src.value, NICKNAME_LEN_MAX) != "qcRouter_msg"
    && forall u :: u in c.users ==> u.nick != Clip(q.src.value, NICKNAME_LEN_MAX)
  }

  /** The entry of the user that comes of a stranger's datagram: on the main channel, in the mode of the datagram,
    * or the normal one if it tells none. */
  function Newcomer(net: NetId, num: NetId, q: QcsMsg): User
    requires q.src.Some?
  {
    User(UserId(net, num), if q.mode == UMODE_INVALID then ModeNormal else FromQcsMode(q.mode),
         Clip(q.src.value, NICKNAME_LEN_MAX), true, ["Main"])
  }

  lemma StrangerIsUnknown(c: Cache, net: NetId, q: QcsMsg)
    requires Stranger(c, q)
    ensures !Admitted(c, q) && !Own(c, net, q)
  {
    forall i | 0 <= i < |c.users| ensures c.users[i].nick != Clip(q.src.value, NICKNAME_LEN_MAX) {
      assert c.users[i] in c.users;
    }
    assert Clip(QCROUTER_NICK, NICKNAME_LEN_MAX) == "qcRouter_msg";
  }

  /** Exactly strangers are announced: not the router itself, nor somebody known, nor one who only leaves or renames,
    * nor a datagram without a source. */
  lemma OnlyStrangersAreAnnounced(l: Local, c: Cache, net: NetId)
    requires Ready(l, c, net) && !Pending(l)
    ensures Msgs(Drain(l, c, net).out)[0].kind == UserNew <==> Stranger(c, l.inbox[0])
  {
    var q := l.inbox[0];
    DrainUnfold(l, c, net);
    if Stranger(c, q) {
      StrangerIsUnknown(c, net, q);
    } else {
      KnownOrExcused(c, net, q);
      if !Own(c, net, q) { TranslatedNames(c, net, q); }
    }
    hide Inv, Drain, Translated, CacheAfter, Own, Admitted, Stranger;
  }

  lemma KnownOrExcused(c: Cache, net: NetId, q: QcsMsg)
    requires !Stranger(c, q)
    ensures Own(c, net, q) || Admitted(c, q)
  {
    assert Clip(QCROUTER_NICK, NICKNAME_LEN_MAX) == "qcRouter_msg";
    if u :| u in c.users && q.src.Some? && u.nick == Clip(q.src.value, NICKNAME_LEN_MAX) {
      var i :| 0 <= i < |c.users| && c.users[i] == u;
      assert KnownNick(c, q.src.value);
    }
  }

  /** A datagram of a stranger, when nothing is waiting: first the user is announced to all, under the next number
    * and from this net; and if the id is free, the switching of that puts the new entry behind all others, which
    * stay as they are. */
  lemma StrangersAreAnnounced(l: Local, c: Cache, net: NetId)
    requires Ready(l, c, net) && !Pending(l) && Stranger(c, l.inbox[0])
    ensures var q, m := l.inbox[0], Msgs(Drain(l, c, net).out)[0];
      var u := Newcomer(net, NumberAfter(l.lastUser, 1), q);
      && m.kind == UserNew && IsBroadcast(m) && m.src.net == net
      && m.dUser == u.uid && m.dUmode == u.umode && m.dNickname == u.nick && m.dChanlist == "#Main"
      && CacheOk(c, m)
      && (!KnownUid(c, u.uid) ==> ParseCache(c, m).users == c.users + [u])
  {
    var q := l.inbox[0];
    DrainUnfold(l, c, net);
    StrangerIsUnknown(c, net, q);
    var m := NewUserMsg(net, NextNum(l.lastUser), q);
    assert Receive(l, c, net).msg == m && Receive(l, c, net).cache == c;
    MainListed();
    assert Clip(Clip(q.src.value, NICKNAME_LEN_MAX), NICKNAME_LEN_MAX) == Clip(q.src.value, NICKNAME_LEN_MAX);
    hide Inv, ParseCache, Listed, Drain, Receive;
    if !KnownUid(c, m.dUser) { NewcomerEffect(c, m); }
  }
}
