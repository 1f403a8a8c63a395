/** What a refresh timeout does, and whom it gives up: over any history the users of the net, in list order,
  * that neither were announced nor acknowledged since the timeout before. */
module Refreshing {
  import opened Basics
  import opened QcsMessage
  import opened Messages
  import opened CacheModel
  import opened CacheTheory
  import opened CacheRuns
  import opened SwitchModel
  import opened LocalModel
  import opened LocalTheory

  // ---------------------------------------------------------------- one timeout

  /** A user of the net whose flag is down. */
  function Down(net: NetId): User -> bool { (u: User) => u.uid.net == net && !u.alive }

  lemma {:induction false} DeadFrom(users: seq<User>, net: NetId, k: nat)
    requires k <= |users|
    ensures var dead, at := Dead(users[k..], net), PositionsFrom(users, Down(net), k);
      |dead| == |at| && forall j :: 0 <= j < |at| ==> dead[j] == users[at[j]].uid
    decreases |users| - k
  {
    if k < |users| {
      DeadFrom(users, net, k + 1);
      DeadStep(users, net, k);
      var dead, at := Dead(users[k + 1..], net), PositionsFrom(users, Down(net), k + 1);
      DeadMore(users, dead, at, k);
      hide Dead;
      if !Down(net)(users[k]) { assert [] + dead == dead; }
    }
  }

  lemma DeadMore(users: seq<User>, dead: seq<UserId>, at: seq<nat>, k: nat)
    requires k < |users| && |dead| == |at|
    requires forall j :: 0 <= j < |at| ==> at[j] < |users| && dead[j] == users[at[j]].uid
    ensures forall j :: 0 <= j < |at| + 1 ==>
      ([k] + at)[j] < |users| && ([users[k].uid] + dead)[j] == users[([k] + at)[j]].uid
  {
    forall j | 0 <= j < |at| + 1
      ensures ([k] + at)[j] < |users| && ([users[k].uid] + dead)[j] == users[([k] + at)[j]].uid
    {
      if j > 0 { assert ([k] + at)[j] == at[j - 1] && ([users[k].uid] + dead)[j] == dead[j - 1]; }
    }
  }

  lemma DeadStep(users: seq<User>, net: NetId, k: nat)
    requires k < |users|
    ensures Dead(users[k..], net)
         == (if users[k].uid.net == net && !users[k].alive then [users[k].uid] else []) + Dead(users[k + 1..], net)
  {
    assert users[k..][1..] == users[k + 1..];
  }

  lemma DeadAt(users: seq<User>, net: NetId) returns (at: seq<nat>)
    ensures PositionsOf(users, (u: User) => u.uid.net == net && !u.alive, at)
    ensures forall k :: 0 <= k < |at| ==> at[k] < |users|
    ensures |Dead(users, net)| == |at| && forall k :: 0 <= k < |at| ==> Dead(users, net)[k] == users[at[k]].uid
  {
    assert users[0..] == users;
    hide Dead, PositionsFrom;
    at := PositionsFrom(users, Down(net), 0);
    PositionsFound(users, Down(net));
    DeadFrom(users, net, 0);
    assert forall i: nat :: i in at <==> i < |users| && users[i].uid.net == net && !users[i].alive;
  }

  /** The same users, with the flags of one net taken down. */
  ghost predicate AllDown(before: seq<User>, after: seq<User>, net: NetId) {
    && |after| == |before|
    && forall i :: 0 <= i < |before| ==>
         after[i] == if before[i].uid.net == net then before[i].(alive := false) else before[i]
  }

  /** A timeout queues the loss of every user of the net whose flag was down before it, once each and in list order,
    * and nothing else; it asks everybody once; and it takes down the flags of all users of the net and of no others. */
  lemma TimeoutGivesUp(w: World, net: NetId) returns (at: seq<nat>)
    requires net != NULL_NET
    ensures PositionsOf(w.cache.users, (u: User) => u.uid.net == net && !u.alive, at)
    ensures forall k :: 0 <= k < |at| ==> at[k] < |w.cache.users|
    ensures var r := Refreshed(w, net);
      && |r.local.queue| == |w.local.queue| + |at|
      && (forall k :: 0 <= k < |w.local.queue| ==> r.local.queue[k] == w.local.queue[k])
      && (forall k :: 0 <= k < |at| ==>
            var m := r.local.queue[|w.local.queue| + k];
            m.kind == UserLost && IsBroadcast(m) && m.src.net == net && m.dUser == w.cache.users[at[k]].uid)
    ensures var r := Refreshed(w, net);
      && r.local.postponed == w.local.postponed && r.local.inbox == w.local.inbox
      && r.local.lastUser == w.local.lastUser
      && |r.local.sent| == |w.local.sent| + 1 && r.local.sent[..|w.local.sent|] == w.local.sent
      && (var ask := r.local.sent[|w.local.sent|]; ask.id == QRefreshRequest && ask.src == Some("qcRouter_msg"))
      && AllDown(w.cache.users, r.cache.users, net) && r.cache.chans == w.cache.chans
  {
    at := DeadAt(w.cache.users, net);
  }

  // ---------------------------------------------------------------- from one timeout to the next

  /** Heard of in one receive: a user who is announced and was not cached, and one who acknowledges to the router. */
  function HeardNow(l: Local, c: Cache, net: NetId): set<UserId>
    requires Readable(l) && Inv(c)
  {
    var r := Receive(l, c, net);
    (if r.msg.kind == UserNew && !KnownUid(r.cache, r.msg.dUser) then {r.msg.dUser} else {})
    + if l.queue != [] then {} else Acknowledged(c, net, if l.postponed.Some? then l.postponed.value else l.inbox[0])
  }

  function Acknowledged(c: Cache, net: NetId, q: QcsMsg): set<UserId>
    requires WellFormed(q)
  {
    if q.id == QRefreshAck && SameNick(q.dst.value, QCROUTER_NICK) && !Own(c, net, q) && KnownNick(c, q.src.value)
    then {UidOf(c, q.src.value)} else {}
  }

  ghost function HeardDraining(l: Local, c: Cache, net: NetId): set<UserId>
    requires Ready(l, c, net)
    decreases Work(l)
  {
    ReceiveFine(l, c, net);
    var r := Receive(l, c, net);
    HeardNow(l, c, net) + if r.more then HeardDraining(r.local, AfterSwitch(r), net) else {}
  }

  ghost function HeardBy(w: World, net: NetId, e: Event): set<UserId>
    requires Quiet(w, net) && Enabled(w, e)
  {
    match e
    case Poll => HeardDraining(w.local, w.cache, net)
    case Elsewhere(AddOp(uid, _, _, _)) => if KnownUid(w.cache, uid) then {} else {uid}
    case Elsewhere(TagAliveOp(uid)) => {uid}
    case _ => {}
  }

  ghost function HeardIn(w: World, net: NetId, events: seq<Event>): set<UserId>
    requires Quiet(w, net) && History(w, net, events)
    decreases |events|
  {
    if events == [] then {}
    else
      HappenQuiet(w, net, events[0]);
      HeardBy(w, net, events[0]) + HeardIn(Happen(w, net, events[0]).0, net, events[1..])
  }

  /** The flags of the net are not taken down in between. */
  predicate NoTagging(events: seq<Event>, net: NetId) {
    forall i :: 0 <= i < |events| ==> events[i] != Refresh && events[i] != Elsewhere(TagDeadOp(net))
  }

  lemma OneOp(c: Cache, op: Op, net: NetId, heard: set<UserId>)
    requires Inv(c) && OpOk(c, op) && op != TagDeadOp(net) && AliveIs(c.users, net, heard)
    ensures Inv(Apply(c, op))
    ensures AliveIs(Apply(c, op).users, net, heard + match op
      case AddOp(uid, _, _, _) => if KnownUid(c, uid) then {} else {uid}
      case TagAliveOp(uid) => {uid}
      case _ => {})
  {
    ApplyInv(c, op);
    StepAlive(c, op, net, heard);
    assert [op][1..] == [];
    hide Apply, Inv, AliveIs, OpOk, KnownUid;
    assert Heard(Apply(c, op), []) == {};
    assert Heard(c, [op]) == match op
      case AddOp(uid, _, _, _) => if KnownUid(c, uid) then {} else {uid}
      case TagAliveOp(uid) => {uid}
      case _ => {};
  }

  lemma SwitchAlive(c: Cache, m: NetMsg, net: NetId, heard: set<UserId>)
    requires Inv(c) && CacheOk(c, m) && AliveIs(c.users, net, heard)
    ensures var come := if m.kind == UserNew && !KnownUid(c, m.dUser) then {m.dUser} else {};
      AliveIs(ParseCache(c, m).users, net, heard + come)
  {
    assert heard + {} == heard;
    hide AliveIs, Inv, Apply;
    if CacheOp(m).Some? { OneOp(c, CacheOp(m).value, net, heard); }
    hide KnownUid;
  }

  lemma AcknowledgedAlive(c: Cache, q: QcsMsg, net: NetId, heard: set<UserId>)
    requires Inv(c) && WellFormed(q) && Admitted(c, q) && !Own(c, net, q) && AliveIs(c.users, net, heard)
    ensures AliveIs(CacheAfter(c, q).users, net, heard + Acknowledged(c, net, q))
  {
    assert heard + {} == heard;
    if q.id == QRefreshAck && SameNick(q.dst.value, QCROUTER_NICK) {
      var uid := UidOf(c, q.src.value);
      TaggedKnown(c, uid);
      OneOp(c, TagAliveOp(uid), net, heard);
      var t := TagAlive(c, uid);
      assert t == Apply(c, TagAliveOp(uid));
      assert heard + {uid} + {} == heard + {uid};
      assert Acknowledged(c, net, q) == {uid};
      UidKnown(c, q.src.value);
      OneOp(t, AddOp(uid, Some(FromQcsMode(q.mode)), None, None), net, heard + {uid});
      hide AliveIs, Inv;
    }
  }

  lemma TakenAlive(l: Local, c: Cache, net: NetId, q: QcsMsg, heard: set<UserId>)
    requires net != NULL_NET && Inv(c) && WellFormed(q) && !Pending(l) && AliveIs(c.users, net, heard)
    requires forall i :: 0 <= i < |l.inbox| ==> WellFormed(l.inbox[i])
    ensures var r := Handle(l, c, net, q);
      && Inv(r.cache) && CacheOk(r.cache, r.msg)
      && AliveIs(r.cache.users, net, heard + Acknowledged(c, net, q))
      && (r.msg.kind == UserNew ==> r.cache == c)
  {
    HandleFine(l, c, net, q);
    assert heard + {} == heard;
    var r := Handle(l, c, net, q);
    if !Own(c, net, q) && Admitted(c, q) {
      AcknowledgedAlive(c, q, net, heard);
      TranslatedNames(c, net, q);
    } else {
      assert Acknowledged(c, net, q) == {};
    }
    hide AliveIs, Inv, CacheAfter, Translated;
  }

  /** The cache after one receive and the switching of its message. */
  ghost function NextCache(l: Local, c: Cache, net: NetId): Cache
    requires Ready(l, c, net)
  {
    ReceiveFine(l, c, net);
    AfterSwitch(Receive(l, c, net))
  }

  /** What the receive itself does, before the message is switched. */
  lemma ReceivedAlive(l: Local, c: Cache, net: NetId, heard: set<UserId>)
    requires Ready(l, c, net) && AliveIs(c.users, net, heard)
    ensures var r := Receive(l, c, net);
      var acked := if l.queue != [] then {}
        else Acknowledged(c, net, if l.postponed.Some? then l.postponed.value else l.inbox[0]);
      AliveIs(r.cache.users, net, heard + acked)
  {
    assert heard + {} == heard;
    hide AliveIs, Inv, Handle, Own, Admitted, Acknowledged;
    if l.queue == [] {
      if l.postponed.Some? {
        TakenAlive(l.(postponed := None), c, net, l.postponed.value, heard);
      } else {
        TakenAlive(l.(inbox := l.inbox[1..]), c, net, l.inbox[0], heard);
      }
    }
  }

  lemma ReceiveAlive(l: Local, c: Cache, net: NetId, heard: set<UserId>)
    requires Ready(l, c, net) && AliveIs(c.users, net, heard)
    ensures StepFine(l, c, net, Receive(l, c, net))
    ensures AliveIs(NextCache(l, c, net).users, net, heard + HeardNow(l, c, net))
  {
    hide AliveIs, Inv, Handle, NamesKnown, CacheOk, ParseCache, Acknowledged, KnownUid, Receive, QueueOk;
    ReceiveFine(l, c, net);
    ReceivedAlive(l, c, net, heard);
    var r := Receive(l, c, net);
    var acked := if l.queue != [] then {}
      else Acknowledged(c, net, if l.postponed.Some? then l.postponed.value else l.inbox[0]);
    var come := if r.msg.kind == UserNew && !KnownUid(r.cache, r.msg.dUser) then {r.msg.dUser} else {};
    SwitchAlive(r.cache, r.msg, net, heard + acked);
    assert heard + acked + come == heard + HeardNow(l, c, net);
    assert heard + acked + {} == heard + acked;
  }

  lemma {:induction false} DrainAlive(l: Local, c: Cache, net: NetId, heard: set<UserId>)
    requires Ready(l, c, net) && AliveIs(c.users, net, heard)
    ensures AliveIs(Drain(l, c, net).cache.users, net, heard + HeardDraining(l, c, net))
    decreases Work(l)
  {
    hide AliveIs, HeardNow, Receive, NamesKnown, Inv, ParseCache;
    ReceiveAlive(l, c, net, heard);
    var r := Receive(l, c, net);
    if r.more {
      DrainAlive(r.local, AfterSwitch(r), net, heard + HeardNow(l, c, net));
      assert heard + HeardNow(l, c, net) + HeardDraining(r.local, AfterSwitch(r), net)
        == heard + HeardDraining(l, c, net);
    } else {
      assert HeardNow(l, c, net) + {} == HeardNow(l, c, net);
    }
  }

  lemma HappenAlive(w: World, net: NetId, e: Event, heard: set<UserId>)
    requires Quiet(w, net) && Enabled(w, e) && AliveIs(w.cache.users, net, heard)
    requires e != Refresh && e != Elsewhere(TagDeadOp(net))
    ensures AliveIs(Happen(w, net, e).0.cache.users, net, heard + HeardBy(w, net, e))
  {
    assert heard + {} == heard;
    match e
    case Poll => DrainAlive(w.local, w.cache, net, heard);
    case Elsewhere(op) => OneOp(w.cache, op, net, heard);
    case _ =>
  }

  lemma {:induction false} LivedAlive(w: World, net: NetId, events: seq<Event>, heard: set<UserId>)
    requires Quiet(w, net) && History(w, net, events) && NoTagging(events, net)
    requires AliveIs(w.cache.users, net, heard)
    ensures AliveIs(Lived(w, net, events).0.cache.users, net, heard + HeardIn(w, net, events))
    decreases |events|
  {
    assert heard + {} == heard;
    if events != [] {
      hide AliveIs, Happen, HeardBy, Quiet;
      HappenQuiet(w, net, events[0]);
      HappenAlive(w, net, events[0], heard);
      var w1, now := Happen(w, net, events[0]).0, HeardBy(w, net, events[0]);
      LivedAlive(w1, net, events[1..], heard + now);
      assert heard + now + HeardIn(w1, net, events[1..]) == heard + HeardIn(w, net, events);
    }
  }

  /** Whom a timeout announces as lost. */
  function GivenUp(w: World, net: NetId): set<UserId> {
    set m | m in Refreshed(w, net).local.queue[|w.local.queue|..] :: m.dUser
  }

  /** From one timeout to the next, whatever happens in between: the second one announces as lost exactly those
    * users of the net it still finds in the cache that were neither announced nor acknowledged since the first. */
  lemma OnlyTheSilentAreGivenUp(w: World, net: NetId, events: seq<Event>, uid: UserId)
    requires Quiet(w, net)
    ensures Quiet(Refreshed(w, net), net)
    ensures var w1 := Refreshed(w, net);
      History(w1, net, events) && NoTagging(events, net) ==>
        var w2 := Lived(w1, net, events).0;
        (uid in GivenUp(w2, net) <==>
           uid.net == net && KnownUid(w2.cache, uid) && uid !in HeardIn(w1, net, events))
  {
    HappenQuiet(w, net, Refresh);
    var w1 := Refreshed(w, net);
    if History(w1, net, events) && NoTagging(events, net) {
      LivedAlive(w1, net, events, {});
      assert {} + HeardIn(w1, net, events) == HeardIn(w1, net, events);
      var w2 := Lived(w1, net, events).0;
      EveryHistoryIsSafe(w1, net, events);
      GivenUpAreDown(w2, net, uid);
      hide Lived, History, HeardIn, Happen;
    }
  }

  lemma GivenUpAreDown(w: World, net: NetId, uid: UserId)
    requires Quiet(w, net)
    ensures uid in GivenUp(w, net) <==>
      exists i :: 0 <= i < |w.cache.users| && w.cache.users[i].uid == uid && uid.net == net && !w.cache.users[i].alive
  {
    var at := TimeoutGivesUp(w, net);
    var told := Refreshed(w, net).local.queue[|w.local.queue|..];
    assert |told| == |at|;
    if uid in GivenUp(w, net) {
      var m :| m in told && m.dUser == uid;
      var k :| 0 <= k < |told| && told[k] == m;
      assert at[k] in at;
    }
    if i :| 0 <= i < |w.cache.users| && w.cache.users[i].uid == uid && uid.net == net && !w.cache.users[i].alive {
      var j: nat := i;
      assert j in at;
      var k :| 0 <= k < |at| && at[k] == j;
      assert told[k] in told && told[k].dUser == uid;
    }
  }
}
