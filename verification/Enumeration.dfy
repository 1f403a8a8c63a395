/** The exchange of user caches: what a router answers to an enumeration request, and what the asking router,
  * whose cache is empty, makes of the answers. */
module Enumeration {
  import opened Basics
  import opened Messages
  import opened ChanList
  import opened CacheModel
  import opened CacheTheory
  import opened SwitchModel
  import opened SwitchEffect
  import CacheRuns
  import RouteModel
  import RouteTheory

  /** The answer about one user: to the net that asked, from the router, with the user's mode, nickname and channels. */
  ghost predicate Tells(m: NetMsg, localId: NetId, asker: NetId, u: User) {
    && m.kind == UserNew && m.src.net == localId && m.dst.net == asker
    && m.dUser == u.uid && m.dUmode == u.umode
    && m.dNickname == Clip(u.nick, 31) && m.dChanlist == Clip(Join(u.chans), 511)
  }

  /** A request is answered over the connection it came from, once per cached user, in list order. */
  lemma {:induction false} EveryUserIsTold(t: RouteModel.Table, localId: NetId, conn: Qnet, users: seq<User>, k: nat)
    requires RouteTheory.Inv(t) && k < |t| && t[k].conn == conn && conn.id != BROADCAST_NET
    requires forall j :: 0 <= j < k ==> t[j].conn.id != conn.id
    ensures var log := EnumReply(t, localId, conn, users);
      |log| == |users| && forall i :: 0 <= i < |users| ==>
        log[i].to == conn && Tells(log[i].msg, localId, conn.id, users[i])
  {
    hide RouteTheory.Inv;
    if users != [] {
      var init, u := users[..|users| - 1], users[|users| - 1];
      EveryUserIsTold(t, localId, conn, init, k);
      RouteTheory.SentOnce(t, EnumMsg(localId, conn, u));
    }
  }

  /** The messages are switched one after another. */
  predicate LearnOk(c: Cache, msgs: seq<NetMsg>)
    decreases |msgs|
  {
    msgs == [] || (CacheOk(c, msgs[0]) && LearnOk(ParseCache(c, msgs[0]), msgs[1..]))
  }

  function Learned(c: Cache, msgs: seq<NetMsg>): Cache
    requires LearnOk(c, msgs)
    decreases |msgs|
  {
    if msgs == [] then c else Learned(ParseCache(c, msgs[0]), msgs[1..])
  }

  /** The user as a newcomer. */
  function Alive(u: User): User { u.(alive := true) }

  function AliveAll(users: seq<User>): (r: seq<User>)
    ensures |r| == |users| && forall i :: 0 <= i < |users| ==> r[i] == Alive(users[i])
  {
    seq(|users|, i requires 0 <= i < |users| => Alive(users[i]))
  }

  /** A user on at least one channel whose list fits its field; no name holds the mark. */
  ghost predicate Tellable(u: User) { u.chans != [] && Plain(u.chans) && |Join(u.chans)| <= 511 }

  lemma ListSurvives(c: Cache, i: nat)
    requires Inv(c) && i < |c.users| && Tellable(c.users[i])
    ensures Listed(Clip(Join(c.users[i].chans), 511)) == c.users[i].chans
  {
    NamesShort(c, i);
    SplitJoin(c.users[i].chans);
    hide Inv, Join, Split, Firsts, ClipAll;
  }

  /** One more user is learned. */
  lemma LearnOne(c: Cache, m: NetMsg, d: Cache, k: nat, localId: NetId, asker: NetId)
    requires Inv(c) && k < |c.users| && Tellable(c.users[k]) && Tells(m, localId, asker, c.users[k])
    requires Inv(d) && d.users == AliveAll(c.users[..k])
    ensures CacheOk(d, m) && Inv(ParseCache(d, m))
    ensures ParseCache(d, m).users == AliveAll(c.users[..k + 1])
  {
    hide Inv, Join, Listed, ParseCache, Tellable, Tells, Clip, AliveAll, KnownUid, Alive;
    ToldAsIs(c, m, k, localId, asker);
    NotYet(c, d, k);
    AliveMore(c.users, k);
    assert CacheOk(d, m);
    ParseCacheInv(d, m);
    NewcomerEffect(d, m);
  }

  lemma AliveMore(users: seq<User>, k: nat)
    requires k < |users|
    ensures AliveAll(users[..k + 1]) == AliveAll(users[..k]) + [Alive(users[k])]
  {
    hide Alive;
    assert users[..k + 1] == users[..k] + [users[k]];
  }

  /** The announcement makes the entry it was made from. */
  lemma ToldAsIs(c: Cache, m: NetMsg, k: nat, localId: NetId, asker: NetId)
    requires Inv(c) && k < |c.users| && Tellable(c.users[k]) && Tells(m, localId, asker, c.users[k])
    ensures m.kind == UserNew && m.dUser == c.users[k].uid != NULL_USER && m.dChanlist != ""
    ensures User(m.dUser, m.dUmode, Clip(m.dNickname, NICKNAME_LEN_MAX), true, Listed(m.dChanlist)) == Alive(c.users[k])
  {
    var u := c.users[k];
    ListSurvives(c, k);
    EntryFits(c, k);
    hide Inv, Join, Listed, Plain;
  }

  lemma EntryFits(c: Cache, k: nat)
    requires Inv(c) && k < |c.users|
    ensures c.users[k].uid != NULL_USER && |c.users[k].nick| <= 31
  {
  }

  lemma NotYet(c: Cache, d: Cache, k: nat)
    requires Inv(c) && k < |c.users| && d.users == AliveAll(c.users[..k])
    ensures !KnownUid(d, c.users[k].uid)
  {
    forall j | 0 <= j < k ensures d.users[j].uid != c.users[k].uid { assert d.users[j].uid == c.users[j].uid; }
  }

  lemma {:induction false} LearnRest(c: Cache, msgs: seq<NetMsg>, d: Cache, k: nat, localId: NetId, asker: NetId)
    requires Inv(c) && k <= |c.users| && |msgs| == |c.users| - k
    requires forall i :: 0 <= i < |c.users| ==> Tellable(c.users[i])
    requires forall i :: 0 <= i < |msgs| ==> Tells(msgs[i], localId, asker, c.users[k + i])
    requires Inv(d) && d.users == AliveAll(c.users[..k])
    ensures LearnOk(d, msgs) && Inv(Learned(d, msgs)) && Learned(d, msgs).users == AliveAll(c.users)
    decreases |msgs|
  {
    hide Inv, Tellable, Tells, ParseCache, CacheOk;
    if msgs == [] {
      assert c.users[..k] == c.users;
    } else {
      LearnOne(c, msgs[0], d, k, localId, asker);
      LearnRest(c, msgs[1..], ParseCache(d, msgs[0]), k + 1, localId, asker);
    }
  }

  /** A router that starts with an empty cache and switches the answers in order knows the same users afterwards, in
    * the same order, with their modes, nicknames and channels, all of them alive. The topics are not exchanged. */
  lemma CachesAreCopied(c: Cache, t: RouteModel.Table, localId: NetId, conn: Qnet, k: nat, msgs: seq<NetMsg>)
    requires Inv(c) && forall i :: 0 <= i < |c.users| ==> Tellable(c.users[i])
    requires RouteTheory.Inv(t) && k < |t| && t[k].conn == conn && conn.id != BROADCAST_NET
    requires forall j :: 0 <= j < k ==> t[j].conn.id != conn.id
    requires var log := EnumReply(t, localId, conn, c.users);
      |msgs| == |log| && forall i :: 0 <= i < |log| ==> msgs[i] == log[i].msg
    ensures LearnOk(EMPTY, msgs) && Inv(Learned(EMPTY, msgs))
    ensures Learned(EMPTY, msgs).users == AliveAll(c.users)
  {
    hide Inv, RouteTheory.Inv, EnumReply, Tellable, Tells, LearnOk, Learned, Alive;
    EveryUserIsTold(t, localId, conn, c.users, k);
    NobodyYet(c);
    LearnRest(c, msgs, EMPTY, 0, localId, conn.id);
  }

  lemma NobodyYet(c: Cache)
    ensures Inv(EMPTY) && AliveAll(c.users[..0]) == EMPTY.users
  {
  }
}
