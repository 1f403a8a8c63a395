/** What the router says on a local net on behalf of the others, and what the datagrams it keeps to itself do,
  * said of entries and fields. */
module Answers {
  import opened Basics
  import opened QcsMessage
  import opened Messages
  import opened ChanList
  import opened CacheModel
  import opened CacheTheory
  import opened SwitchModel
  import opened LocalModel
  import opened LocalTheory
  import opened Translation
  import opened SwitchEffect
  import CacheRuns

  // ---------------------------------------------------------------- asked for everybody

  /** A user of another net. */
  function Away(net: NetId): User -> bool { (u: User) => u.uid.net != net }

  lemma AwayStep(users: seq<User>, net: NetId, k: nat)
    requires k < |users|
    ensures CacheRuns.Outside(users[k..], {net})
         == (if users[k].uid.net != net then [users[k]] else []) + CacheRuns.Outside(users[k + 1..], {net})
  {
    assert users[k..][1..] == users[k + 1..];
  }

  lemma {:induction false} AwayAre(users: seq<User>, net: NetId, k: nat)
    requires k <= |users|
    ensures var away, at := CacheRuns.Outside(users[k..], {net}), PositionsFrom(users, Away(net), k);
      |away| == |at| && forall j :: 0 <= j < |at| ==> away[j] == users[at[j]]
    decreases |users| - k
  {
    if k < |users| {
      AwayAre(users, net, k + 1);
      AwayStep(users, net, k);
      var away, at := CacheRuns.Outside(users[k + 1..], {net}), PositionsFrom(users, Away(net), k + 1);
      AwayMore(users, away, at, k);
      hide CacheRuns.Outside;
      if users[k].uid.net == net { assert [] + away == away; }
    }
  }

  lemma AwayMore(users: seq<User>, away: seq<User>, at: seq<nat>, k: nat)
    requires k < |users| && |away| == |at|
    requires forall j :: 0 <= j < |at| ==> at[j] < |users| && away[j] == users[at[j]]
    ensures forall j :: 0 <= j < |at| + 1 ==>
      ([k] + at)[j] < |users| && ([users[k]] + away)[j] == users[([k] + at)[j]]
  {
    forall j | 0 <= j < |at| + 1
      ensures ([k] + at)[j] < |users| && ([users[k]] + away)[j] == users[([k] + at)[j]]
    {
      if j > 0 { assert ([k] + at)[j] == at[j - 1] && ([users[k]] + away)[j] == away[j - 1]; }
    }
  }

  lemma ModeBack(u: Umode)
    ensures FromQcsMode(ToQcsMode(u)) == u
  {
  }

  lemma {:induction false} AckEach(users: seq<User>, asker: string)
    ensures |AckAll(users, asker)| == |users|
    ensures forall k :: 0 <= k < |users| ==> AckAll(users, asker)[k] == RefreshAckFor(users[k], asker)
  {
    if users != [] { AckEach(users[..|users| - 1], asker); }
  }

  /** A refresh request is answered once for each cached user of another net, in list order, in that user's name, to
    * whoever asked, and with that user's mode, which a reader of the answer gets back. */
  lemma RefreshIsAnswered(c: Cache, net: NetId, q: QcsMsg) returns (at: seq<nat>)
    requires WellFormed(q) && q.id == QRefreshRequest
    ensures PositionsOf(c.users, (u: User) => u.uid.net != net, at) && forall k :: 0 <= k < |at| ==> at[k] < |c.users|
    ensures var r := Replies(c, net, q);
      && |r| == |at|
      && forall k :: 0 <= k < |at| ==>
           var u := c.users[at[k]];
           && r[k].id == QRefreshAck && r[k].src == Some(u.nick) && r[k].dst == q.src
           && FromQcsMode(r[k].mode) == u.umode
           && r[k].text == None && r[k].supp == None && r[k].chan == None
  {
    var away := CacheRuns.Outside(c.users, {net});
    assert Replies(c, net, q) == AckAll(away, q.src.value);
    hide Replies, AckAll, ToQcsMode, FromQcsMode, CacheRuns.Outside, PositionsOf;
    at := AwayIs(c.users, net);
    AckEach(away, q.src.value);
    forall k | 0 <= k < |at| ensures FromQcsMode(ToQcsMode(away[k].umode)) == away[k].umode {
      ModeBack(away[k].umode);
    }
  }

  lemma AwayIs(users: seq<User>, net: NetId) returns (at: seq<nat>)
    ensures PositionsOf(users, (u: User) => u.uid.net != net, at)
    ensures var away := CacheRuns.Outside(users, {net});
      |away| == |at| && forall j :: 0 <= j < |at| ==> at[j] < |users| && away[j] == users[at[j]]
  {
    assert users[0..] == users;
    hide CacheRuns.Outside, PositionsFrom;
    at := PositionsFrom(users, Away(net), 0);
    PositionsFound(users, Away(net));
    AwayAre(users, net, 0);
    assert forall i: nat :: i in at <==> i < |users| && users[i].uid.net != net;
  }

  // ---------------------------------------------------------------- asked for channels and for one user

  /** A request for channels is answered with the names that fit, closed by a mark, to whoever asked. */
  lemma ChannelsAreAnswered(c: Cache, net: NetId, q: QcsMsg)
    requires WellFormed(q) && q.id == QChanlistRequest
    ensures Replies(c, net, q)
         == [QcsMsg(QChanlistReply, 0, None, q.src, None, None, Some(Join(KnownNames(c.chans, 0)) + "#"))]
  {
  }

  /** A request about somebody is answered exactly if a cached user of another net bears the name: in that name, to
    * whoever asked, with that user's id and channels. */
  lemma InfoIsAnswered(c: Cache, net: NetId, q: QcsMsg)
    requires Inv(c) && WellFormed(q) && q.id == QInfoRequest
    ensures forall i: nat :: Named(c, q.dst.value, i) && c.users[i].uid.net !in {0, net} ==>
      Replies(c, net, q) == [QcsMsg(QInfoReply, 0, q.dst, q.src, Some(Dump(c.users[i].uid)),
        Some("[masqueraded over qcRouter net]"), Some(Join(c.users[i].chans) + "#"))]
    ensures !(exists i: nat :: Named(c, q.dst.value, i) && c.users[i].uid.net !in {0, net}) ==> Replies(c, net, q) == []
  {
    NamedIsFound(c, q.dst.value);
    if KnownNick(c, q.dst.value) { CacheRuns.FindUserAt(c.users, FindNick(c.users, q.dst.value)); }
    hide Inv, FindNick, FindUser, Named, Dump, Join;
  }

  // ---------------------------------------------------------------- ids as text

  /** The number that decimal digits stand for. */
  function Value(s: string): nat {
    if s == "" then 0
    else
      var c := s[|s| - 1];
      10 * Value(s[..|s| - 1]) + if '0' <= c <= '9' then (c - '0') as nat else 0
  }

  lemma {:induction false} DigitsRead(n: nat)
    ensures Value(Digits(n)) == n
    ensures forall k :: 0 <= k < |Digits(n)| ==> '0' <= Digits(n)[k] <= '9'
  {
    if n >= 10 {
      DigitsRead(n / 10);
      assert Digits(n)[..|Digits(n)| - 1] == Digits(n / 10);
    } else {
      assert Digits(n)[..0] == "";
    }
  }

  lemma {:induction false} MarkAt(a: string, b: string)
    requires '@' !in a
    ensures IndexOf(a + ['@'] + b, '@') == |a|
  {
    if a == "" {
      assert a + ['@'] + b == ['@'] + b;
    } else {
      assert (a + ['@'] + b)[1..] == a[1..] + ['@'] + b;
      MarkAt(a[1..], b);
    }
  }

  /** The text of an id gives its two numbers back, so that no two users of nets have the same one. */
  lemma DumpReads(uid: UserId)
    requires uid.net != 0
    ensures var s := Dump(uid); var k := IndexOf(s, '@');
      && 4 <= k && k + 5 <= |s|
      && s[..4] == "num_" && Value(s[4..k]) == uid.num && s[k..k + 5] == "@net_" && Value(s[k + 5..]) == uid.net
  {
    var a, b := Digits(uid.num), Digits(uid.net);
    DigitsRead(uid.num);
    DigitsRead(uid.net);
    assert Dump(uid) == "num_" + a + "@net_" + b;
    hide Digits, Value, Dump, IndexOf;
    Pieces(a, b);
    MarkAt("num_" + a, "net_" + b);
  }

  lemma Pieces(a: string, b: string)
    ensures var s, k := "num_" + a + "@net_" + b, 4 + |a|;
      && s == ("num_" + a) + ['@'] + ("net_" + b)
      && s[..4] == "num_" && s[4..k] == a && s[k..k + 5] == "@net_" && s[k + 5..] == b
  {
    var s, k := "num_" + a + "@net_" + b, 4 + |a|;
    assert "@net_" == ['@'] + "net_";
    assert s == ("num_" + a) + ("@net_" + b);
    assert s[4..k] == a;
    assert s[k..] == "@net_" + b;
  }
}
