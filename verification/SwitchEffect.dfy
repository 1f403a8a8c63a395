/** What switching a message of each kind does to the users and channels of the cache, said of the entries. */
module SwitchEffect {
  import opened Basics
  import opened Messages
  import opened ChanList
  import opened CacheModel
  import opened CacheTheory
  import opened CacheRuns
  import opened SwitchModel

  function WithName(names: seq<string>, name: string): seq<string> { if name in names then names else names + [name] }

  function Minus(names: seq<string>, name: string): (r: seq<string>)
    ensures forall n :: n in r <==> n in names && n != name
  {
    if names == [] then [] else (if names[0] == name then [] else [names[0]]) + Minus(names[1..], name)
  }

  /** The other users, in order. */
  function AllBut(users: seq<User>, uid: UserId): (r: seq<User>)
    ensures forall u :: u in r <==> u in users && u.uid != uid
  {
    if users == [] then [] else (if users[0].uid == uid then [] else [users[0]]) + AllBut(users[1..], uid)
  }

  /** The same users in the same order, with one of them changed. */
  ghost predicate OneChanged(before: seq<User>, after: seq<User>, uid: UserId, change: User -> User) {
    && |after| == |before|
    && forall i :: 0 <= i < |before| ==> after[i] == if before[i].uid == uid then change(before[i]) else before[i]
  }

  // ---------------------------------------------------------------- channels

  /** After a join the source, if it is cached, is on the channel as well, by its clipped name, and is still on all
    * its others; nobody else moves; topics stay, and a channel nobody was on starts without one. */
  lemma JoinEffect(c: Cache, m: NetMsg)
    requires Inv(c) && m.kind == ChannelJoin && CacheOk(c, m)
    ensures var d, name := ParseCache(c, m), Clip(m.dChanlist, 31);
      && OneChanged(c.users, d.users, m.src, (u: User) => u.(chans := WithName(u.chans, name)))
      && forall n :: TopicOf(d.chans, n) ==
           if !Has(c.chans, n) && n == name && KnownUid(c, m.src) then Some("") else TopicOf(c.chans, n)
  {
    var name := Clip(m.dChanlist, 31);
    AddRefTopics(c.chans, name);
    var i := FindUser(c.users, m.src);
    if i < |c.users| { HeldIsListed(c, i, name); }
    assert TopicOf(c.chans, name).Some? <==> Has(c.chans, name);
    hide AddRef, Find;
  }

  lemma MinusNothing(names: seq<string>, name: string)
    requires name !in names
    ensures Minus(names, name) == names
  {
    if names != [] {
      assert forall n :: n in names[1..] ==> n in names;
      MinusNothing(names[1..], name);
    }
  }

  lemma RemoveLater(names: seq<string>, k: nat)
    requires k + 1 < |names|
    ensures RemoveAt(names, k + 1) == [names[0]] + RemoveAt(names[1..], k)
  {
  }

  lemma {:induction false} MinusIsRemoveAt(names: seq<string>, k: nat)
    requires Distinct(names) && k < |names|
    ensures Minus(names, names[k]) == RemoveAt(names, k)
  {
    if k == 0 {
      assert names[0] !in names[1..];
      MinusNothing(names[1..], names[0]);
      assert RemoveAt(names, 0) == names[1..];
    } else {
      MinusIsRemoveAt(names[1..], k - 1);
      RemoveLater(names, k - 1);
      hide RemoveAt;
    }
  }

  /** The channels of a cache that was recounted. */
  lemma RecountedTopics(c: Cache, d: Cache)
    requires d.chans == Recount(c.chans, d.users)
    ensures forall n :: TopicOf(d.chans, n) == if On(d.users, n) > 0 then TopicOf(c.chans, n) else None
  {
    forall n ensures TopicOf(d.chans, n) == if On(d.users, n) > 0 then TopicOf(c.chans, n) else None {
      RecountTopic(c.chans, d.users, n);
    }
  }

  lemma Leaves(c: Cache, i: nat, channame: string)
    requires Inv(c) && i < |c.users|
    ensures var d, name := DropChan(c, i, channame), Clip(channame, 31);
      && d.users == c.users[i := c.users[i].(chans := Minus(c.users[i].chans, name))]
      && d.chans == Recount(c.chans, d.users)
  {
    var names, name := c.users[i].chans, Clip(channame, 31);
    hide Recount, Minus, RemoveAt, DropRef;
    if name in names {
      MinusIsRemoveAt(names, IndexIn(names, name));
      DropIsRecount(c, i, name);
    } else {
      MinusNothing(names, name);
      RecountFixed(c.chans, c.users);
    }
  }

  /** After a leave the source is not on the channel and still on all its others, in order; nobody else moves; a
    * channel stays, with its topic, exactly while somebody is on it. */
  lemma LeaveEffect(c: Cache, m: NetMsg)
    requires Inv(c) && m.kind == ChannelLeave && CacheOk(c, m)
    ensures var d, name := ParseCache(c, m), Clip(m.dChanlist, 31);
      && OneChanged(c.users, d.users, m.src, (u: User) => u.(chans := Minus(u.chans, name)))
      && forall n :: TopicOf(d.chans, n) == if On(d.users, n) > 0 then TopicOf(c.chans, n) else None
  {
    hide Inv, Minus, DropChan, ParseCache, Recount, On, TopicOf, KnownUid, Clip, CacheOk;
    LeaveIs(c, m);
    var i := FindUser(c.users, m.src);
    if i < |c.users| { Leaves(c, i, m.dChanlist); }
    RecountedTopics(c, ParseCache(c, m));
  }

  lemma LeaveIs(c: Cache, m: NetMsg)
    requires Inv(c) && m.kind == ChannelLeave && CacheOk(c, m)
    ensures var i := FindUser(c.users, m.src);
      && (i < |c.users| ==> ParseCache(c, m) == DropChan(c, i, m.dChanlist))
      && (i == |c.users| ==> ParseCache(c, m) == c)
      && forall j :: 0 <= j < |c.users| && j != i ==> c.users[j].uid != m.src
    ensures Recount(c.chans, c.users) == c.chans
  {
    hide DropChan, Recount;
    RecountFixed(c.chans, c.users);
  }

  /** A new topic is that of the named channel, cut to its field; every other channel and all users stay as they are. */
  lemma TopicEffect(c: Cache, m: NetMsg)
    requires Inv(c) && m.kind == TopicChange && CacheOk(c, m)
    ensures var d, name := ParseCache(c, m), Clip(m.dChanlist, 31);
      && d.users == c.users
      && forall n :: TopicOf(d.chans, n) ==
           if n == name && Has(c.chans, n) then Some(Clip(m.dText, 511)) else TopicOf(c.chans, n)
  {
    var d, name := ParseCache(c, m), Clip(m.dChanlist, 31);
    var k := Find(c.chans, name);
    if k < |c.chans| {
      forall n ensures Find(d.chans, n) == Find(c.chans, n) { FindUpdate(c.chans, k, d.chans[k], n); }
    }
  }

  // ---------------------------------------------------------------- users

  lemma {:induction false} AllButIsRemoveAt(users: seq<User>, i: nat)
    requires DistinctUids(users) && i < |users|
    ensures AllBut(users, users[i].uid) == RemoveAt(users, i)
  {
    if i == 0 {
      AllButNobody(users[1..], users[0].uid);
      assert RemoveAt(users, 0) == users[1..];
    } else {
      AllButIsRemoveAt(users[1..], i - 1);
      assert RemoveAt(users, i) == [users[0]] + RemoveAt(users[1..], i - 1);
    }
  }

  lemma {:induction false} AllButNobody(users: seq<User>, uid: UserId)
    requires forall i :: 0 <= i < |users| ==> users[i].uid != uid
    ensures AllBut(users, uid) == users
  {
    if users != [] { AllButNobody(users[1..], uid); }
  }

  /** After a loss nobody has that id; the others are as they were, in order; a channel stays, with its topic,
    * exactly while one of them is on it. */
  lemma LostEffect(c: Cache, m: NetMsg)
    requires Inv(c) && m.kind == UserLost && CacheOk(c, m)
    ensures var d := ParseCache(c, m);
      && d.users == AllBut(c.users, m.dUser)
      && forall n :: TopicOf(d.chans, n) == if On(d.users, n) > 0 then TopicOf(c.chans, n) else None
  {
    var d, i := ParseCache(c, m), FindUser(c.users, m.dUser);
    if i < |c.users| {
      RemoveIdxEffect(c, i);
      AllButIsRemoveAt(c.users, i);
    } else {
      AllButNobody(c.users, m.dUser);
      RecountFixed(c.chans, c.users);
    }
    RecountedTopics(c, d);
    hide Inv;
  }

  /** After the loss of a net nobody of it is left; the others are as they were, in order. */
  lemma NetLostEffect(c: Cache, m: NetMsg)
    requires Inv(c) && m.kind == NetLost && CacheOk(c, m)
    ensures var d := ParseCache(c, m);
      && d.users == Outside(c.users, {m.dNet})
      && (forall u :: u in d.users <==> u in c.users && u.uid.net != m.dNet)
      && forall n :: TopicOf(d.chans, n) == if On(d.users, n) > 0 then TopicOf(c.chans, n) else None
  {
    var d := ParseCache(c, m);
    RemoveNetEffect(c, m.dNet);
    RecountedTopics(c, d);
    hide Inv;
  }

  /** A change of nickname sets the nickname of exactly that user, and nothing else. */
  lemma NickEffect(c: Cache, m: NetMsg)
    requires Inv(c) && m.kind == UserNickchange && CacheOk(c, m)
    ensures KnownUid(c, m.dUser)
    ensures var d := ParseCache(c, m);
      && OneChanged(c.users, d.users, m.dUser, (u: User) => u.(nick := Clip(m.dNickname, 31)))
      && d.chans == c.chans
  {
  }

  /** A change of mode sets the mode of exactly that user, and nothing else. */
  lemma ModeEffect(c: Cache, m: NetMsg)
    requires Inv(c) && m.kind == UserModechange && CacheOk(c, m)
    ensures KnownUid(c, m.dUser)
    ensures var d := ParseCache(c, m);
      OneChanged(c.users, d.users, m.dUser, (u: User) => u.(umode := m.dUmode)) && d.chans == c.chans
  {
  }

  /** The channels a list makes: its distinct names, cut to their field; a text without the mark makes none. */
  function Listed(chanlist: string): seq<string>
  {
    if chanlist == "" || chanlist[0] != '#' then [] else Firsts(ClipAll(Split(chanlist[1..])))
  }

  /** A user who is announced for the first time comes last, with the announced mode, nickname and channels; all
    * others are as they were. Topics stay, and a channel nobody was on starts without one. */
  lemma NewcomerEffect(c: Cache, m: NetMsg)
    requires Inv(c) && m.kind == UserNew && CacheOk(c, m) && !KnownUid(c, m.dUser)
    ensures var d := ParseCache(c, m);
      && d.users == c.users
           + [User(m.dUser, m.dUmode, Clip(m.dNickname, 31), true, Listed(m.dChanlist))]
      && forall n :: TopicOf(d.chans, n) ==
           if !Has(c.chans, n) && n in Listed(m.dChanlist) then Some("") else TopicOf(c.chans, n)
  {
    var u := User(m.dUser, m.dUmode, Clip(m.dNickname, 31), true, []);
    var c1, d := c.(users := c.users + [u]), ParseCache(c, m);
    NewUserInv(c, u);
    assert d == SetChans(c1, |c.users|, m.dChanlist);
    hide Inv, ParseCache, SetChans, Listed, TopicOf, Has;
    SetOnce(c1, |c.users|, m.dChanlist);
    assert d.users == c.users + [d.users[|c.users|]];
  }

  lemma SetOnce(c: Cache, i: nat, chanlist: string)
    requires Inv(c) && i < |c.users| && chanlist != "" && c.users[i].chans == []
    ensures var d := SetChans(c, i, chanlist);
      && d.users == c.users[i := c.users[i].(chans := Listed(chanlist))]
      && forall n :: TopicOf(d.chans, n) ==
           if !Has(c.chans, n) && n in Listed(chanlist) then Some("") else TopicOf(c.chans, n)
  {
    assert DropAll(c, i) == c;
    if chanlist[0] == '#' { AddEachEffect(c, i, Split(chanlist[1..])); }
    hide Inv, AddEach, Split, ClipAll;
  }

  /** A user who is announced again keeps place and flag and takes mode, nickname and channels from the
    * announcement; all others are as they were. A topic survives exactly if somebody else is on the channel. */
  lemma AnnouncedAgain(c: Cache, m: NetMsg)
    requires Inv(c) && m.kind == UserNew && CacheOk(c, m) && KnownUid(c, m.dUser)
    ensures var d := ParseCache(c, m);
      && OneChanged(c.users, d.users, m.dUser, (u: User) =>
           u.(umode := m.dUmode, nick := Clip(m.dNickname, 31),
              chans := if m.dChanlist[..1] == "#" then Listed(m.dChanlist) else u.chans))
      && forall n :: TopicOf(d.chans, n) ==
           if On(AllBut(c.users, m.dUser), n) > 0 || m.dChanlist[..1] != "#" then TopicOf(c.chans, n)
           else if n in Listed(m.dChanlist) then Some("") else None
  {
    hide Inv, ParseCache, SetChans, Listed, On, AllBut, Clip, TopicOf, KnownUid, CacheOk;
    var i, c1 := AgainIs(c, m);
    SetAgain(c, c1, i, m.dChanlist);
  }

  lemma AgainIs(c: Cache, m: NetMsg) returns (i: nat, c1: Cache)
    requires Inv(c) && m.kind == UserNew && CacheOk(c, m) && KnownUid(c, m.dUser)
    ensures i < |c.users| && c.users[i].uid == m.dUser
    ensures forall j :: 0 <= j < |c.users| && j != i ==> c.users[j].uid != m.dUser
    ensures c1 == c.(users := c.users[i := c.users[i].(umode := m.dUmode, nick := Clip(m.dNickname, 31))])
    ensures Inv(c1) && m.dChanlist != "" && ParseCache(c, m) == SetChans(c1, i, m.dChanlist)
    ensures AllBut(c.users, m.dUser) == RemoveAt(c.users, i)
  {
    i := FindUser(c.users, m.dUser);
    var u := c.users[i].(umode := m.dUmode, nick := Clip(m.dNickname, 31));
    c1 := c.(users := c.users[i := u]);
    RenameInv(c, i, u);
    AllButIsRemoveAt(c.users, i);
    hide SetChans;
  }

  lemma SetAgain(c: Cache, c1: Cache, i: nat, chanlist: string)
    requires Inv(c1) && i < |c.users| && |c1.users| == |c.users| && chanlist != "" && c1.chans == c.chans
    requires c1.users[i].chans == c.users[i].chans
    requires forall j :: 0 <= j < |c.users| && j != i ==> c1.users[j] == c.users[j]
    ensures chanlist[..1] == [chanlist[0]]
    ensures var d := SetChans(c1, i, chanlist);
      && d.users
         == c1.users[i := c1.users[i].(chans := if chanlist[..1] == "#" then Listed(chanlist) else c.users[i].chans)]
      && forall n :: TopicOf(d.chans, n) ==
           if On(RemoveAt(c.users, i), n) > 0 || chanlist[..1] != "#" then TopicOf(c.chans, n)
           else if n in Listed(chanlist) then Some("") else None
  {
    var d := SetChans(c1, i, chanlist);
    if chanlist[0] == '#' {
      assert chanlist == ['#'] + chanlist[1..];
      SetChansEffect(c1, i, chanlist[1..]);
      hide SetChans, Inv, OthersOn;
      forall n ensures OthersOn(c1.users, i, n) == On(RemoveAt(c.users, i), n) { OthersAreAllBut(c, c1, i, n); }
    }
  }

  lemma OthersAreAllBut(c: Cache, c1: Cache, i: nat, n: string)
    requires i < |c.users| && |c1.users| == |c.users|
    requires c1.users[i].chans == c.users[i].chans
    requires forall j :: 0 <= j < |c.users| && j != i ==> c1.users[j] == c.users[j]
    ensures OthersOn(c1.users, i, n) == On(RemoveAt(c.users, i), n)
  {
    assert Bare(c1.users, i) == c.users[i := Bare(c1.users, i)[i]];
    OnUpdate(c.users, i, Bare(c1.users, i)[i], n);
    OnRemoveAt(c.users, i, n);
  }

  /** No other message touches users or channels. */
  lemma OthersLeaveTheCache(c: Cache, m: NetMsg)
    requires m.kind !in {UserNew, UserLost, UserNickchange, UserModechange, ChannelJoin, ChannelLeave, TopicChange,
                         NetLost}
    requires CacheOk(c, m)
    ensures ParseCache(c, m) == c
  {
  }
}
