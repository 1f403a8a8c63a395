/** Draining a local net: termination, at most one datagram per event, order, and that translated
  * messages name cached users, over every run of events. */
module LocalTheory {
  import opened Basics
  import opened QcsMessage
  import opened Messages
  import opened ChanList
  import opened CacheModel
  import opened CacheTheory
  import opened CacheRuns
  import opened SwitchModel
  import opened LocalModel

  // ---------------------------------------------------------------- what a message may name

  /** The users a message speaks of are in the cache. */
  predicate NamesKnown(c: Cache, m: NetMsg) {
    match m.kind
    case UserNickchange | UserModechange => KnownUid(c, m.dUser)
    case ChannelJoin | ChannelLeave | ChannelText => KnownUid(c, m.src)
    case PrivateOpen | PrivateClose | PrivateText | PmsgSend | PmsgAck | Beep | BeepAck =>
      KnownUid(c, m.src) && KnownUid(c, m.dst)
    case _ => true
  }

  /** Messages that wait in the delayed queue: losses of users of this net. */
  predicate Loss(net: NetId, m: NetMsg) { m == LostMsg(net, m.dUser) }

  ghost predicate QueueOk(l: Local, net: NetId) {
    forall i :: 0 <= i < |l.queue| ==> Loss(net, l.queue[i])
  }

  /** Between two receives of one event. A postponed datagram is alone: the queue is empty, its
    * source is in the cache by now, and it is not one of the router's own. */
  ghost predicate Ready(l: Local, c: Cache, net: NetId) {
    && net != NULL_NET && Inv(c) && Readable(l) && QueueOk(l, net)
    && (l.postponed.Some? ==>
          l.queue == [] && Admitted(c, l.postponed.value) && !Own(c, net, l.postponed.value))
  }

  // ---------------------------------------------------------------- users enter the cache

  lemma {:induction false} FindNickAt(users: seq<User>, i: nat, nick: string)
    requires i < |users| && users[i].nick == Clip(nick, NICKNAME_LEN_MAX)
    requires forall j :: 0 <= j < |users| && j != i ==> users[j].nick != Clip(nick, NICKNAME_LEN_MAX)
    ensures FindNick(users, nick) == i
  {
  }

  /** Once a USER_NEW has been switched, the nickname belongs to the announced user. */
  lemma NewUserKnown(c: Cache, m: NetMsg, nick: string)
    requires Inv(c) && CacheOk(c, m) && m.kind == UserNew && !KnownNick(c, nick)
    requires m.dNickname == Clip(nick, NICKNAME_LEN_MAX) && m.dChanlist != ""
    ensures KnownNick(ParseCache(c, m), nick) && UidOf(ParseCache(c, m), nick) == m.dUser
  {
    var r := ParseCache(c, m);
    var i := FindUser(c.users, m.dUser);
    if i < |c.users| {
      var u := c.users[i].(umode := m.dUmode, nick := m.dNickname);
      var c1 := c.(users := c.users[i := u]);
      AddInv(c, m.dUser, Some(m.dUmode), Some(m.dNickname), None);
      assert c1 == Add(c, m.dUser, Some(m.dUmode), Some(m.dNickname), None);
      SetChansInv(c1, i, m.dChanlist);
    } else {
      var u := User(m.dUser, m.dUmode, m.dNickname, true, []);
      NewUserInv(c, u);
      SetChansInv(c.(users := c.users + [u]), i, m.dChanlist);
    }
    FindNickAt(r.users, i, nick);
  }

  lemma UidKnown(c: Cache, nick: string)
    requires KnownNick(c, nick)
    ensures KnownUid(c, UidOf(c, nick))
  {
  }

  // ---------------------------------------------------------------- one receive

  /** A translated message names cached users, and may be switched without tripping an assertion. */
  lemma TranslatedNames(c: Cache, net: NetId, q: QcsMsg)
    requires Inv(c) && net != NULL_NET && WellFormed(q) && Admitted(c, q)
    ensures var m := Translated(c, net, q);
      && NamesKnown(c, m)
      && m.kind !in {UserNew, UserLost, UserEnumRequest, NetNew, NetLost}
      && (IsBroadcast(m) ==> m.src.net != NULL_NET)
  {
    hide Inv, KnownUid, SameTopic, FromQcsMode, Clip, MeFlag, FindUser, FindNick, SameNick, IsMain;
    if q.src.Some? && KnownNick(c, q.src.value) { UidKnown(c, q.src.value); }
    if q.dst.Some? && KnownNick(c, q.dst.value) { UidKnown(c, q.dst.value); }
  }

  lemma NamesSwitchable(c: Cache, m: NetMsg)
    requires Inv(c) && NamesKnown(c, m) && m.kind !in {UserNew, UserLost, UserEnumRequest, NetNew, NetLost}
    ensures CacheOk(c, m)
  {
  }

  lemma CacheAfterKnows(c: Cache, q: QcsMsg)
    requires Inv(c) && WellFormed(q) && Admitted(c, q)
    ensures Inv(CacheAfter(c, q))
    ensures forall uid :: KnownUid(c, uid) ==> KnownUid(CacheAfter(c, q), uid)
  {
    var r := CacheAfter(c, q);
    if q.id == QRefreshAck && SameNick(q.dst.value, QCROUTER_NICK) {
      var i := FindNick(c.users, q.src.value);
      var uid := c.users[i].uid;
      var a := TagAlive(c, uid);
      TagsInv(c, a.users);
      TaggedKnown(c, uid);
      AddInv(a, uid, Some(FromQcsMode(q.mode)), None, None);
      assert |r.users| == |c.users| && forall j :: 0 <= j < |c.users| ==> r.users[j].uid == c.users[j].uid;
    }
    forall uid | KnownUid(c, uid) ensures KnownUid(r, uid) {
      assert r.users[FindUser(c.users, uid)].uid == uid;
    }
  }

  /** The cache once the message of a receive has been switched; a message without a type is not. */
  function AfterSwitch(r: Recv): Cache
    requires CacheOk(r.cache, r.msg)
  {
    if r.msg.kind == TypeInvalid then r.cache else ParseCache(r.cache, r.msg)
  }

  /** What is left to do in an event: a fresh datagram may be postponed, a postponed one may delay. */
  function Work(l: Local): nat {
    if l.queue == [] && l.postponed.None? then 3 else |l.queue| + if l.postponed.Some? then 2 else 0
  }

  ghost predicate StepFine(l: Local, c: Cache, net: NetId, r: Recv) {
    && Inv(r.cache) && CacheOk(r.cache, r.msg) && NamesKnown(r.cache, r.msg)
    && r.msg.kind !in {UserEnumRequest, NetNew, NetLost}
    && (IsBroadcast(r.msg) ==> r.msg.src.net != NULL_NET)
    && (r.more <==> Pending(r.local))
    && (if Pending(l) then r.local.inbox == l.inbox else l.inbox != [] && r.local.inbox == l.inbox[1..])
    && QueueOk(r.local, net)
    && (r.more ==> Ready(r.local, AfterSwitch(r), net) && Work(r.local) < Work(l))
  }

  /** Handling a datagram while nothing is pending. */
  lemma HandleFine(l: Local, c: Cache, net: NetId, q: QcsMsg)
    requires net != NULL_NET && Inv(c) && WellFormed(q) && !Pending(l)
    requires forall i :: 0 <= i < |l.inbox| ==> WellFormed(l.inbox[i])
    ensures var r := Handle(l, c, net, q);
      && Inv(r.cache) && CacheOk(r.cache, r.msg) && NamesKnown(r.cache, r.msg)
      && r.msg.kind !in {UserEnumRequest, NetNew, NetLost}
      && (IsBroadcast(r.msg) ==> r.msg.src.net != NULL_NET)
      && (r.more <==> Pending(r.local)) && r.local.inbox == l.inbox && QueueOk(r.local, net)
      && (r.more ==> Ready(r.local, AfterSwitch(r), net) && Work(r.local) <= if Admitted(c, q) then 1 else 2)
  {
    hide Inv, Translated, CacheAfter, Replies, ParseCache;
    var r := Handle(l, c, net, q);
    if Own(c, net, q) {
    } else if !Admitted(c, q) {
      NewUserKnown(c, r.msg, q.src.value);
      ParseCacheInv(c, r.msg);
    } else {
      TranslatedNames(c, net, q);
      CacheAfterKnows(c, q);
      NamesSwitchable(r.cache, r.msg);
      ParseCacheInv(r.cache, r.msg);
    }
  }

  lemma ReceiveFine(l: Local, c: Cache, net: NetId)
    requires Ready(l, c, net)
    ensures StepFine(l, c, net, Receive(l, c, net))
  {
    var r := Receive(l, c, net);
    if l.queue != [] {
      assert Loss(net, l.queue[0]);
      ParseCacheInv(c, r.msg);
    } else if l.postponed.Some? {
      HandleFine(l.(postponed := None), c, net, l.postponed.value);
    } else {
      HandleFine(l.(inbox := l.inbox[1..]), c, net, l.inbox[0]);
    }
  }

  // ---------------------------------------------------------------- one poll event

  /** A message handed to switch_msg, with the cache it met. */
  datatype Delivery = Delivery(cache: Cache, msg: NetMsg)

  datatype Drained = Drained(local: Local, cache: Cache, out: seq<Delivery>)

  /** The do/while loop of process_net_event. */
  ghost function Drain(l: Local, c: Cache, net: NetId): Drained
    requires Ready(l, c, net)
    decreases Work(l)
  {
    ReceiveFine(l, c, net);
    var r := Receive(l, c, net);
    var here := [Delivery(r.cache, r.msg)];
    if r.more then
      var d := Drain(r.local, AfterSwitch(r), net);
      Drained(d.local, d.cache, here + d.out)
    else Drained(r.local, AfterSwitch(r), here)
  }

  /** The event ends with nothing pending, has read one datagram if nothing was pending when it began
    * and none otherwise, and all it delivered names users the cache held at that moment. */
  lemma {:induction false} DrainTheorem(l: Local, c: Cache, net: NetId)
    requires Ready(l, c, net)
    ensures var d := Drain(l, c, net);
      && !Pending(d.local) && Inv(d.cache)
      && d.local.inbox == (if Pending(l) then l.inbox else l.inbox[1..])
      && (forall k :: 0 <= k < |d.out| ==>
            NamesKnown(d.out[k].cache, d.out[k].msg) && CacheOk(d.out[k].cache, d.out[k].msg))
    decreases Work(l)
  {
    ReceiveFine(l, c, net);
    var r := Receive(l, c, net);
    if r.more {
      DrainTheorem(r.local, AfterSwitch(r), net);
    } else {
      ParseCacheInv(r.cache, r.msg);
    }
  }

  function Msgs(out: seq<Delivery>): (r: seq<NetMsg>)
    ensures |r| == |out| && forall k :: 0 <= k < |r| ==> r[k] == out[k].msg
  {
    seq(|out|, k requires 0 <= k < |out| => out[k].msg)
  }

  /** What an event delivers, and in which order: a waiting queue oldest first; else, for the next
    * datagram, its translation followed by the loss it delays; and a datagram of somebody unknown is
    * translated with the cache that its USER_NEW, delivered first, leaves behind. */
  ghost function Expected(l: Local, c: Cache, net: NetId): seq<NetMsg>
    requires Ready(l, c, net)
  {
    if l.queue != [] then l.queue
    else
      var q := if l.postponed.Some? then l.postponed.value else l.inbox[0];
      if Own(c, net, q) then [NOTHING]
      else if Admitted(c, q) then [Translated(c, net, q)] + Pushed(c, net, q)
      else
        var m := NewUserMsg(net, NextNum(l.lastUser), q);
        NewUserKnown(c, m, q.src.value);
        [m, Translated(ParseCache(c, m), net, q)]
  }

  lemma {:induction false} DrainQueue(l: Local, c: Cache, net: NetId)
    requires Ready(l, c, net) && l.queue != []
    ensures Msgs(Drain(l, c, net).out) == l.queue
    decreases Work(l)
  {
    ReceiveFine(l, c, net);
    var r := Receive(l, c, net);
    if r.more { DrainQueue(r.local, AfterSwitch(r), net); }
  }

  /** One receive, and what remains. */
  lemma DrainUnfold(l: Local, c: Cache, net: NetId)
    requires Ready(l, c, net)
    ensures var r := Receive(l, c, net);
      && StepFine(l, c, net, r)
      && Msgs(Drain(l, c, net).out)
         == [r.msg] + if r.more then Msgs(Drain(r.local, AfterSwitch(r), net).out) else []
  {
    ReceiveFine(l, c, net);
  }

  lemma DrainOrder(l: Local, c: Cache, net: NetId)
    requires Ready(l, c, net)
    ensures Msgs(Drain(l, c, net).out) == Expected(l, c, net)
  {
    hide Drain, Inv, Translated, CacheAfter, Pushed, Replies, ParseCache, NewUserMsg, Admitted, Own;
    if l.queue != [] {
      DrainQueue(l, c, net);
    } else {
      DrainUnfold(l, c, net);
      var r := Receive(l, c, net);
      if r.more {
        var c1 := AfterSwitch(r);
        if r.local.queue != [] {
          DrainQueue(r.local, c1, net);
        } else {
          DrainUnfold(r.local, c1, net);
          LeaveAdmitted(c, r.local.postponed.value);
          NothingDelayed(r.local, c1, net);
        }
      }
    }
  }

  lemma LeaveAdmitted(c: Cache, q: QcsMsg)
    ensures q.id == QChannelLeave ==> Admitted(c, q)
  {
  }

  /** A postponed datagram never delays anything: a leave is not postponed. */
  lemma NothingDelayed(l: Local, c: Cache, net: NetId)
    requires Ready(l, c, net) && l.postponed.Some? && l.postponed.value.id != QChannelLeave
    ensures !Receive(l, c, net).more && Receive(l, c, net).msg == Translated(c, net, l.postponed.value)
  {
  }

  // ---------------------------------------------------------------- runs of events

  datatype Event =
    | Arrive(q: QcsMsg)       // a datagram reaches the socket
    | Poll                    // the socket is readable, or messages are waiting
    | Refresh                 // the refresh timer of this net fires
    | Elsewhere(op: Op)       // another net changes the cache

  datatype World = World(local: Local, cache: Cache)

  function LossOfAll(net: NetId, dead: seq<UserId>): (r: seq<NetMsg>)
    ensures |r| == |dead| && forall k :: 0 <= k < |r| ==> r[k] == LostMsg(net, dead[k])
  {
    seq(|dead|, k requires 0 <= k < |dead| => LostMsg(net, dead[k]))
  }

  /** handle_refresh_timeout: the silent users are given up, everybody is asked again and tagged. */
  function Refreshed(w: World, net: NetId): World {
    World(w.local.(queue := w.local.queue + LossOfAll(net, Dead(w.cache.users, net)),
                   sent := w.local.sent + [NEWMSG.(id := QRefreshRequest, src := Some(QCROUTER_NICK))]),
          TagDead(w.cache, net))
  }

  /** Between events. */
  ghost predicate Quiet(w: World, net: NetId) {
    && net != NULL_NET && Inv(w.cache) && QueueOk(w.local, net) && w.local.postponed == None
    && (forall i :: 0 <= i < |w.local.inbox| ==> WellFormed(w.local.inbox[i]))
  }

  predicate Enabled(w: World, e: Event) {
    match e
    case Arrive(q) => WellFormed(q)
    case Poll => w.local.queue != [] || w.local.inbox != []
    case Refresh => true
    case Elsewhere(op) => OpOk(w.cache, op)
  }

  ghost function Happen(w: World, net: NetId, e: Event): (World, seq<Delivery>)
    requires Quiet(w, net) && Enabled(w, e)
  {
    match e
    case Arrive(q) => (w.(local := w.local.(inbox := w.local.inbox + [q])), [])
    case Poll => var d := Drain(w.local, w.cache, net); (World(d.local, d.cache), d.out)
    case Refresh => (Refreshed(w, net), [])
    case Elsewhere(op) => (w.(cache := Apply(w.cache, op)), [])
  }

  lemma HappenQuiet(w: World, net: NetId, e: Event)
    requires Quiet(w, net) && Enabled(w, e)
    ensures Quiet(Happen(w, net, e).0, net)
    ensures forall d :: d in Happen(w, net, e).1 ==> NamesKnown(d.cache, d.msg) && CacheOk(d.cache, d.msg)
  {
    match e
    case Arrive(q) =>
    case Poll => DrainTheorem(w.local, w.cache, net);
    case Refresh => TagsInv(w.cache, TagUsers(w.cache.users, net));
    case Elsewhere(op) => ApplyInv(w.cache, op);
  }

  ghost predicate History(w: World, net: NetId, events: seq<Event>)
    requires Quiet(w, net)
    decreases |events|
  {
    events == [] || (Enabled(w, events[0]) && (
      HappenQuiet(w, net, events[0]);
      History(Happen(w, net, events[0]).0, net, events[1..])))
  }

  /** The state after a history, and everything delivered on the way. */
  ghost function Lived(w: World, net: NetId, events: seq<Event>): (World, seq<Delivery>)
    requires Quiet(w, net) && History(w, net, events)
    decreases |events|
  {
    if events == [] then (w, [])
    else
      HappenQuiet(w, net, events[0]);
      var (w1, out) := Happen(w, net, events[0]);
      var (w2, rest) := Lived(w1, net, events[1..]);
      (w2, out + rest)
  }

  function Arrivals(events: seq<Event>): nat {
    if events == [] then 0 else (if events[0].Arrive? then 1 else 0) + Arrivals(events[1..])
  }

  function Polls(events: seq<Event>): nat {
    if events == [] then 0 else (if events[0].Poll? then 1 else 0) + Polls(events[1..])
  }

  /** Over every run of events: between events nothing is postponed (so the assertion guarding the
    * postponement holds), everything delivered names users the cache held at that moment, and no
    * more datagrams were read than there were poll events. */
  lemma {:induction false} EveryHistoryIsSafe(w: World, net: NetId, events: seq<Event>)
    requires Quiet(w, net) && History(w, net, events)
    ensures var (w2, out) := Lived(w, net, events);
      && Quiet(w2, net)
      && (forall d :: d in out ==> NamesKnown(d.cache, d.msg) && CacheOk(d.cache, d.msg))
      && |w.local.inbox| + Arrivals(events) <= |w2.local.inbox| + Polls(events)
    decreases |events|
  {
    if events != [] {
      HappenQuiet(w, net, events[0]);
      if events[0].Poll? { DrainTheorem(w.local, w.cache, net); }
      EveryHistoryIsSafe(Happen(w, net, events[0]).0, net, events[1..]);
    }
  }
}
