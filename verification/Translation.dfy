/** Which datagrams of a local net are passed on to the other nets, and what is said of them there, in terms of
  * the entries of the cache and the fields of the datagram. */
module Translation {
  import opened Basics
  import opened QcsMessage
  import opened Messages
  import opened CacheModel
  import opened LocalModel
  import CacheRuns

  /** A datagram as it can be read, whose source is admitted and whose translation is passed on. */
  predicate PassedOn(c: Cache, net: NetId, q: QcsMsg) {
    && WellFormed(q) && Admitted(c, q)
    && Translated(c, net, q).kind != TypeNull && Translated(c, net, q).kind != TypeInvalid
  }

  predicate IsPair(id: MsgId) {
    id in {QMessageSend, QMessageMass, QMessageAck, QBeepSend, QBeepAck, QPrivateOpen, QPrivateClose, QPrivateText,
           QPrivateMe}
  }

  predicate IsLine(id: MsgId) { id in {QChannelBroadcast, QChannelMe, QChannelJoin, QChannelLeave} }

  /** The user at i is the first of that nickname, cut to its field. */
  ghost predicate Named(c: Cache, nick: string, i: nat) {
    && i < |c.users| && c.users[i].nick == Clip(nick, 31)
    && forall j :: 0 <= j < i ==> c.users[j].nick != Clip(nick, 31)
  }

  /** The id goes by that nickname. */
  ghost predicate Bears(c: Cache, nick: string, uid: UserId) {
    exists i: nat :: Named(c, nick, i) && c.users[i].uid == uid
  }

  /** The datagrams to pass on: private ones between cached users whose receiver is on another net; lines, renamings
    * and changes of mode of cached users; another topic for a listed channel; an acknowledgement to the router from a
    * cached user whose mode it changes. Users without a net do not count. */
  ghost predicate Heeded(c: Cache, net: NetId, q: QcsMsg)
    requires WellFormed(q)
  {
    if IsPair(q.id) then
      exists a, b :: Bears(c, q.src.value, a) && Bears(c, q.dst.value, b) && a.net != 0 && b.net != 0 && b.net != net
    else if IsLine(q.id) || q.id == QRename then exists a :: Bears(c, q.src.value, a) && a.net != 0
    else if q.id == QModeChange then exists a :: Bears(c, q.src.value, a)
    else if q.id == QTopicChange then
      exists k :: 0 <= k < |c.chans| && c.chans[k].name == Clip(q.chan.value, 31) && c.chans[k].topic != q.text.value
    else
      && q.id == QRefreshAck && Clip(q.dst.value, 31) == "qcRouter_msg"
      && exists i: nat :: Named(c, q.src.value, i) && c.users[i].umode != FromQcsMode(q.mode)
  }

  lemma NamedIsFound(c: Cache, nick: string)
    ensures KnownNick(c, nick) <==> exists i: nat :: Named(c, nick, i)
    ensures forall i: nat :: Named(c, nick, i) ==> i == FindNick(c.users, nick)
    ensures forall uid :: Bears(c, nick, uid) <==> KnownNick(c, nick) && uid == UidOf(c, nick)
    ensures KnownNick(c, nick) <==> Bears(c, nick, UidOf(c, nick))
  {
    if KnownNick(c, nick) { assert Named(c, nick, FindNick(c.users, nick)); }
  }

  lemma PairExactly(c: Cache, net: NetId, q: QcsMsg)
    requires WellFormed(q) && IsPair(q.id)
    ensures PassedOn(c, net, q) <==> Heeded(c, net, q)
  {
    NamedIsFound(c, q.src.value);
    NamedIsFound(c, q.dst.value);
    hide KnownNick, FindNick, Named, Bears, FromQcsMode;
  }

  lemma LineExactly(c: Cache, net: NetId, q: QcsMsg)
    requires WellFormed(q) && (IsLine(q.id) || q.id in {QRename, QModeChange})
    ensures PassedOn(c, net, q) <==> Heeded(c, net, q)
  {
    NamedIsFound(c, q.src.value);
    hide KnownNick, FindNick, Named, Bears, FromQcsMode;
  }

  lemma TopicExactly(c: Cache, net: NetId, q: QcsMsg)
    requires Inv(c) && WellFormed(q) && q.id == QTopicChange
    ensures PassedOn(c, net, q) <==> Heeded(c, net, q)
  {
    hide Inv, SameTopic, Clip;
    TopicDiffers(c, q.chan.value, q.text.value);
  }

  lemma TopicDiffers(c: Cache, channame: string, text: string)
    requires Inv(c)
    ensures SameTopic(c, channame, text) % 2 == 0 <==>
      exists k :: 0 <= k < |c.chans| && c.chans[k].name == Clip(channame, 31) && c.chans[k].topic != text
  {
    assert DistinctNames(c.chans);
    hide Inv, Clip;
    assert CHANNAME_LEN_MAX == 31;
    if k :| 0 <= k < |c.chans| && c.chans[k].name == Clip(channame, 31) {
      assert Find(c.chans, Clip(channame, 31)) == k;
    }
  }

  lemma AckExactly(c: Cache, net: NetId, q: QcsMsg)
    requires Inv(c) && WellFormed(q) && q.id == QRefreshAck
    ensures PassedOn(c, net, q) <==> Heeded(c, net, q)
  {
    NamedIsFound(c, q.src.value);
    if KnownNick(c, q.src.value) { CacheRuns.FindUserAt(c.users, FindNick(c.users, q.src.value)); }
    assert Clip(QCROUTER_NICK, NICKNAME_LEN_MAX) == "qcRouter_msg";
    hide Inv, FindNick, Named, Bears, FromQcsMode, FindUser, Clip;
  }

  /** Exactly these are passed on. */
  lemma PassedOnExactly(c: Cache, net: NetId, q: QcsMsg)
    requires Inv(c)
    ensures PassedOn(c, net, q) <==> WellFormed(q) && Heeded(c, net, q)
  {
    hide Inv, PassedOn, Carries, Heeded;
    if WellFormed(q) {
      if IsPair(q.id) {
        PairExactly(c, net, q);
      } else if IsLine(q.id) || q.id in {QRename, QModeChange} {
        LineExactly(c, net, q);
      } else if q.id == QTopicChange {
        TopicExactly(c, net, q);
      } else if q.id == QRefreshAck {
        AckExactly(c, net, q);
      } else {
        NotHandled(c, net, q);
      }
    } else {
      Malformed(c, net, q);
    }
  }

  lemma NotHandled(c: Cache, net: NetId, q: QcsMsg)
    requires WellFormed(q) && !IsPair(q.id) && !IsLine(q.id)
    requires q.id !in {QRename, QModeChange, QTopicChange, QRefreshAck}
    ensures !PassedOn(c, net, q) && !Heeded(c, net, q)
  {
  }

  lemma Malformed(c: Cache, net: NetId, q: QcsMsg)
    ensures PassedOn(c, net, q) ==> WellFormed(q)
  {
  }

  // ---------------------------------------------------------------- what is said

  /** The kind of message each kind of datagram becomes. */
  function KindFor(id: MsgId): MsgType {
    match id
    case QMessageSend | QMessageMass => PmsgSend
    case QMessageAck => PmsgAck
    case QBeepSend => Beep
    case QBeepAck => BeepAck
    case QPrivateOpen => PrivateOpen
    case QPrivateClose => PrivateClose
    case QPrivateText | QPrivateMe => PrivateText
    case QChannelBroadcast | QChannelMe => ChannelText
    case QChannelJoin => ChannelJoin
    case QChannelLeave => ChannelLeave
    case QRename => UserNickchange
    case QModeChange | QRefreshAck => UserModechange
    case QTopicChange => TopicChange
    case _ => TypeNull
  }

  /** A private datagram goes from the bearer of the one nickname to the bearer of the other, with text and mode where
    * the kind has them. */
  lemma PairSays(c: Cache, net: NetId, q: QcsMsg)
    requires Inv(c) && IsPair(q.id) && PassedOn(c, net, q)
    ensures var m := Translated(c, net, q);
      && m.kind == KindFor(q.id)
      && Bears(c, q.src.value, m.src) && Bears(c, q.dst.value, m.dst)
      && (q.text.Some? ==> m.dText == Clip(q.text.value, 511))
      && (m.dMeText == 1 <==> q.id == QPrivateMe)
      && (q.id == QMessageAck ==> m.dUmode == FromQcsMode(q.mode))
  {
    NamedIsFound(c, q.src.value);
    NamedIsFound(c, q.dst.value);
    hide Inv, FindNick, Named, Bears, FromQcsMode, Clip, KnownNick;
  }

  /** A line goes to all from the bearer of the nickname, with channel, text and mode. */
  lemma LineSays(c: Cache, net: NetId, q: QcsMsg)
    requires Inv(c) && IsLine(q.id) && PassedOn(c, net, q)
    ensures var m := Translated(c, net, q);
      && m.kind == KindFor(q.id)
      && IsBroadcast(m) && Bears(c, q.src.value, m.src) && m.dChanlist == Clip(q.chan.value, 511)
      && (q.text.Some? ==> m.dText == Clip(q.text.value, 511))
      && (m.dMeText == 1 <==> q.id == QChannelMe)
      && (q.id == QChannelJoin ==> m.dUmode == FromQcsMode(q.mode))
  {
    NamedIsFound(c, q.src.value);
    hide Inv, FindNick, Named, Bears, FromQcsMode, Clip, KnownNick;
  }

  /** Everything else goes to all from the net, and names the bearer of the nickname; a renaming has both names. */
  lemma ChangeSays(c: Cache, net: NetId, q: QcsMsg)
    requires Inv(c) && !IsPair(q.id) && !IsLine(q.id) && PassedOn(c, net, q)
    ensures var m := Translated(c, net, q);
      && m.kind == KindFor(q.id)
      && IsBroadcast(m) && m.src.net == net
      && (q.id != QTopicChange ==> Bears(c, q.src.value, m.dUser))
      && (q.id == QRename ==> m.dNickname == Clip(q.text.value, 31) && m.dText == Clip(q.src.value, 511))
      && (q.id == QTopicChange ==> m.dText == Clip(q.text.value, 511) && m.dChanlist == Clip(q.chan.value, 511))
      && (q.id in {QModeChange, QRefreshAck} ==> m.dUmode == FromQcsMode(q.mode))
  {
    if q.src.Some? { NamedIsFound(c, q.src.value); }
    hide Inv, FindNick, Named, Bears, FromQcsMode, Clip, SameTopic, FindUser;
  }

  /** The modes by their numbers on a local net, where the watch flag does not count. */
  lemma ModesByNumber(mode: int)
    ensures FromQcsMode(1) == FromQcsMode(0x81) == ModeNormal && FromQcsMode(2) == FromQcsMode(0x82) == ModeDnd
    ensures FromQcsMode(3) == FromQcsMode(0x83) == ModeAway && FromQcsMode(4) == FromQcsMode(0x84) == ModeOffline
    ensures mode !in {1, 2, 3, 4, 0x81, 0x82, 0x83, 0x84} ==> FromQcsMode(mode) == ModeInvalid
    ensures 0 <= mode <= 4 ==> ToQcsMode(FromQcsMode(mode)) == mode
  {
  }
}
