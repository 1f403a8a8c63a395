/** A chat message on its way from one local net to another: read from the wire, translated, carried
  * between routers, translated back and written again. */
module Crossing {
  import opened Basics
  import opened QcsMessage
  import opened Messages
  import opened CacheModel
  import opened CacheTheory
  import opened SwitchModel
  import opened LocalModel
  import opened LocalTheory
  import opened Translation
  import UserCache
  import WireFormat
  import RouterWire

  // ---------------------------------------------------------------- onto a local net

  /** The users whose nicknames local_send looks up, which it asserts to be cached. */
  predicate SendOk(c: Cache, m: NetMsg) {
    match m.kind
    case UserModechange => KnownUid(c, m.dUser)
    case ChannelJoin | ChannelLeave | ChannelText => KnownUid(c, m.src)
    case PrivateOpen | PrivateClose | PrivateText | PmsgSend | PmsgAck | Beep | BeepAck =>
      KnownUid(c, m.src) && KnownUid(c, m.dst)
    case _ => true
  }

  function PairMsg(c: Cache, m: NetMsg, id: MsgId): QcsMsg
    requires KnownUid(c, m.src) && KnownUid(c, m.dst)
  {
    NEWMSG.(id := id, src := Some(NickOf(c, m.src)), dst := Some(NickOf(c, m.dst)))
  }

  function ChanMsg(c: Cache, m: NetMsg, id: MsgId): QcsMsg
    requires KnownUid(c, m.src)
  {
    NEWMSG.(id := id, src := Some(NickOf(c, m.src)), chan := Some(m.dChanlist))
  }

  /** The datagram local_send sends for a message, if it sends one. */
  function Sendable(c: Cache, m: NetMsg): Option<QcsMsg>
    requires SendOk(c, m)
  {
    match m.kind
    case UserEnumRequest => Some(NEWMSG.(id := QRefreshRequest, src := Some(QCROUTER_NICK)))
    case UserNickchange => Some(NEWMSG.(id := QRename, src := Some(m.dText), text := Some(m.dNickname)))
    case UserModechange =>
      Some(NEWMSG.(id := QModeChange, src := Some(NickOf(c, m.dUser)), mode := ToQcsMode(m.dUmode)))
    case ChannelJoin => Some(ChanMsg(c, m, QChannelJoin))
    case ChannelLeave => Some(ChanMsg(c, m, QChannelLeave))
    case ChannelText =>
      Some(ChanMsg(c, m, if m.dMeText != 0 then QChannelMe else QChannelBroadcast).(text := Some(m.dText)))
    case PrivateOpen => Some(PairMsg(c, m, QPrivateOpen))
    case PrivateClose => Some(PairMsg(c, m, QPrivateClose))
    case PrivateText =>
      Some(PairMsg(c, m, if m.dMeText != 0 then QPrivateMe else QPrivateText).(text := Some(m.dText)))
    case TopicChange => Some(NEWMSG.(id := QTopicChange, text := Some(m.dText), chan := Some(m.dChanlist)))
    case PmsgSend => Some(PairMsg(c, m, QMessageSend).(text := Some(m.dText)))
    case PmsgAck => Some(PairMsg(c, m, QMessageAck).(text := Some(m.dText), mode := ToQcsMode(m.dUmode)))
    case Beep => Some(PairMsg(c, m, QBeepSend))
    case BeepAck => Some(PairMsg(c, m, QBeepAck))
    case _ => None
  }

  /** The switch of local_send. */
  method LocalSend(cache: UserCache.UserCache, m: NetMsg) returns (sent: Option<QcsMsg>)
    requires cache.Whole() && SendOk(cache.Abs(), m)
    ensures sent == Sendable(cache.Abs(), m)
  {
    hide Inv, KnownUid, NickOf, UserCache.UserCache.Linked, UserCache.UserCache.Abs, PairMsg, ChanMsg, ToQcsMode;
    var q := NEWMSG;
    match m.kind {
      case UserEnumRequest =>
        q := q.(id := QRefreshRequest, src := Some(QCROUTER_NICK));
      case UserNickchange =>
        q := q.(id := QRename, src := Some(m.dText), text := Some(m.dNickname));
      case UserModechange =>
        var nick := cache.UsercacheNicknameOf(m.dUser);
        q := q.(id := QModeChange, src := Some(nick), mode := ToQcsMode(m.dUmode));
      case ChannelJoin => q := FromSource(cache, m, QChannelJoin);
      case ChannelLeave => q := FromSource(cache, m, QChannelLeave);
      case ChannelText =>
        q := FromSource(cache, m, if m.dMeText != 0 then QChannelMe else QChannelBroadcast);
        q := q.(text := Some(m.dText));
      case PrivateOpen => q := FromPair(cache, m, QPrivateOpen);
      case PrivateClose => q := FromPair(cache, m, QPrivateClose);
      case PrivateText =>
        q := FromPair(cache, m, if m.dMeText != 0 then QPrivateMe else QPrivateText);
        q := q.(text := Some(m.dText));
      case TopicChange =>
        q := q.(id := QTopicChange, text := Some(m.dText), chan := Some(m.dChanlist));
      case PmsgSend =>
        q := FromPair(cache, m, QMessageSend);
        q := q.(text := Some(m.dText));
      case PmsgAck =>
        q := FromPair(cache, m, QMessageAck);
        q := q.(text := Some(m.dText), mode := ToQcsMode(m.dUmode));
      case Beep => q := FromPair(cache, m, QBeepSend);
      case BeepAck => q := FromPair(cache, m, QBeepAck);
      case TypeInvalid | TypeNull | Handshake | NetNew | NetLost | NetEnumEnds | Ping | Pong | UserNew | UserLost =>
        return None;
    }
    sent := Some(q);
  }

  method FromSource(cache: UserCache.UserCache, m: NetMsg, id: MsgId) returns (q: QcsMsg)
    requires cache.Whole() && KnownUid(cache.Abs(), m.src)
    ensures q == ChanMsg(cache.Abs(), m, id)
  {
    hide Inv, KnownUid, NickOf, UserCache.UserCache.Linked, UserCache.UserCache.Abs;
    var nick := cache.UsercacheNicknameOf(m.src);
    q := NEWMSG.(id := id, src := Some(nick), chan := Some(m.dChanlist));
  }

  method FromPair(cache: UserCache.UserCache, m: NetMsg, id: MsgId) returns (q: QcsMsg)
    requires cache.Whole() && KnownUid(cache.Abs(), m.src) && KnownUid(cache.Abs(), m.dst)
    ensures q == PairMsg(cache.Abs(), m, id)
  {
    hide Inv, KnownUid, NickOf, UserCache.UserCache.Linked, UserCache.UserCache.Abs;
    var src := cache.UsercacheNicknameOf(m.src);
    var dst := cache.UsercacheNicknameOf(m.dst);
    q := NEWMSG.(id := id, src := Some(src), dst := Some(dst));
  }

  /** An enumeration request asks the local net for everybody, in the router's name; nothing is sent for the messages
    * that are about nets, links and users coming and going. */
  lemma AskedOrSilent(c: Cache, m: NetMsg)
    requires SendOk(c, m)
    ensures m.kind == UserEnumRequest ==>
      Sendable(c, m) == Some(QcsMsg(QRefreshRequest, 0, Some("qcRouter_msg"), None, None, None, None))
    ensures Sendable(c, m) == None <==> m.kind in {TypeInvalid, TypeNull, Handshake, NetNew, NetLost, NetEnumEnds, Ping,
                                                   Pong, UserNew, UserLost}
  {
  }

  // ---------------------------------------------------------------- from net to net

  function ClipSome(s: Option<string>, max: nat): Option<string> {
    if s.Some? then Some(Clip(s.value, max)) else None
  }

  function PlainPart(mode: int): int { ToQcsMode(FromQcsMode(mode)) }

  /** The kind of the datagram on the other side: mass messages come as ordinary ones, and of a refresh
    * acknowledgement the change of mode. */
  function IdAcross(id: MsgId): MsgId {
    if id == QMessageMass then QMessageSend else if id == QRefreshAck then QModeChange else id
  }

  /** What is to come out on the other side: nicknames and texts cut to the size of their fields, the
    * mode where the kind is about the mode. */
  function Across(q: QcsMsg): QcsMsg {
    var id := IdAcross(q.id);
    QcsMsg(id,
      if id == QModeChange || id == QMessageAck then PlainPart(q.mode) else UMODE_INVALID,
      if id == QRename then ClipSome(q.src, TEXT_LEN_MAX) else ClipSome(q.src, NICKNAME_LEN_MAX),
      if q.id == QRefreshAck then None else ClipSome(q.dst, NICKNAME_LEN_MAX),
      if id == QRename then ClipSome(q.text, NICKNAME_LEN_MAX) else ClipSome(q.text, TEXT_LEN_MAX),
      None,
      ClipSome(q.chan, CHANLIST_LEN_MAX))
  }

  /** Two routers know a user by the same name. */
  predicate SameNickIn(a: Cache, b: Cache, uid: UserId) {
    KnownUid(a, uid) ==> KnownUid(b, uid) && NickOf(a, uid) == NickOf(b, uid)
  }

  predicate Agree(a: Cache, b: Cache, m: NetMsg) {
    SameNickIn(a, b, m.src) && SameNickIn(a, b, m.dst) && SameNickIn(a, b, m.dUser)
  }

  lemma NickRoundTrip(c: Cache, nick: string)
    requires Inv(c) && KnownNick(c, nick)
    ensures KnownUid(c, UidOf(c, nick)) && NickOf(c, UidOf(c, nick)) == Clip(nick, NICKNAME_LEN_MAX)
  {
    UidKnown(c, nick);
    var i := FindNick(c.users, nick);
    assert FindUser(c.users, c.users[i].uid) == i;
  }

  lemma PairRoundTrip(c: Cache, net: NetId, q: QcsMsg, there: Cache)
    requires Inv(c) && PassedOn(c, net, q) && IsPair(q.id) && Agree(c, there, Translated(c, net, q))
    ensures SendOk(there, Translated(c, net, q)) && Sendable(there, Translated(c, net, q)) == Some(Across(q))
  {
    hide Inv, KnownUid, NickOf, Clip, FindUser, FindNick, SameTopic, FromQcsMode, ToQcsMode;
    OutwardNicks(c, net, q);
    hide UidOf, KnownNick, Outward, IsMain, WellFormed, Admitted;
  }

  lemma OutwardNicks(c: Cache, net: NetId, q: QcsMsg)
    requires Inv(c) && PassedOn(c, net, q) && IsPair(q.id)
    ensures q.src.Some? && q.dst.Some? && Outward(c, net, q)
    ensures KnownUid(c, UidOf(c, q.src.value)) && KnownUid(c, UidOf(c, q.dst.value))
    ensures NickOf(c, UidOf(c, q.src.value)) == Clip(q.src.value, NICKNAME_LEN_MAX)
    ensures NickOf(c, UidOf(c, q.dst.value)) == Clip(q.dst.value, NICKNAME_LEN_MAX)
  {
    hide Inv, KnownUid, NickOf, Clip, FindUser, FindNick;
    NickRoundTrip(c, q.src.value);
    assert KnownNick(c, q.dst.value);
    NickRoundTrip(c, q.dst.value);
  }

  lemma ChannelRoundTrip(c: Cache, net: NetId, q: QcsMsg, there: Cache)
    requires Inv(c) && PassedOn(c, net, q) && q.id in {QChannelBroadcast, QChannelMe, QChannelJoin, QChannelLeave}
    requires Agree(c, there, Translated(c, net, q))
    ensures SendOk(there, Translated(c, net, q)) && Sendable(there, Translated(c, net, q)) == Some(Across(q))
  {
    hide Inv, KnownUid, NickOf, Clip, FindUser, FindNick, SameTopic, FromQcsMode, ToQcsMode;
    NickRoundTrip(c, q.src.value);
  }

  lemma UserRoundTrip(c: Cache, net: NetId, q: QcsMsg, there: Cache)
    requires Inv(c) && PassedOn(c, net, q) && q.id in {QModeChange, QRename, QTopicChange, QRefreshAck}
    requires Agree(c, there, Translated(c, net, q))
    ensures SendOk(there, Translated(c, net, q)) && Sendable(there, Translated(c, net, q)) == Some(Across(q))
  {
    hide Inv, KnownUid, NickOf, Clip, FindUser, FindNick, SameTopic, FromQcsMode, ToQcsMode;
    if q.id != QTopicChange && q.id != QRename { NickRoundTrip(c, q.src.value); }
  }

  /** A datagram that is to be passed on is translated back, on a net whose router knows the users it
    * names, to the same datagram. */
  lemma TranslationRoundTrip(c: Cache, net: NetId, q: QcsMsg, there: Cache)
    requires Inv(c) && WellFormed(q) && Heeded(c, net, q)
    ensures Admitted(c, q)
    ensures Agree(c, there, Translated(c, net, q)) ==>
      SendOk(there, Translated(c, net, q)) && Sendable(there, Translated(c, net, q)) == Some(Across(q))
  {
    PassedOnExactly(c, net, q);
    HeededIsAdmitted(c, net, q);
    HandledKinds(c, net, q);
    hide *;
    if Agree(c, there, Translated(c, net, q)) {
      if q.id in {QModeChange, QRename, QTopicChange, QRefreshAck} {
        UserRoundTrip(c, net, q, there);
      } else if q.id in {QChannelBroadcast, QChannelMe, QChannelJoin, QChannelLeave} {
        ChannelRoundTrip(c, net, q, there);
      } else {
        PairRoundTrip(c, net, q, there);
      }
    }
  }

  lemma HeededIsAdmitted(c: Cache, net: NetId, q: QcsMsg)
    requires Inv(c) && WellFormed(q) && Heeded(c, net, q)
    ensures Admitted(c, q)
  {
    hide Inv, Heeded, Admitted, Translated, Carries;
    PassedOnExactly(c, net, q);
  }

  /** On the router that translates it, the message meets a cache that agrees: nicknames are not touched
    * by the switching, but for a renaming, which carries both names. */
  lemma SwitchingAgrees(c: Cache, m: NetMsg)
    requires Inv(c) && CacheOk(c, m) && m.kind !in {UserNew, UserLost, UserNickchange, NetLost}
    ensures Agree(c, ParseCache(c, m), m)
  {
    hide Inv, SetChans, SetTopic;
    if CacheOp(m).Some? { NicksStay(c, m, m.src); NicksStay(c, m, m.dst); NicksStay(c, m, m.dUser); }
  }

  lemma {:induction false} SameUsersFound(a: seq<User>, b: seq<User>, uid: UserId)
    requires |a| == |b| && forall i :: 0 <= i < |a| ==> a[i].uid == b[i].uid
    ensures FindUser(a, uid) == FindUser(b, uid)
  {
    if a != [] && a[0].uid != uid { SameUsersFound(a[1..], b[1..], uid); }
  }

  lemma NicksStay(c: Cache, m: NetMsg, uid: UserId)
    requires Inv(c) && CacheOk(c, m) && m.kind in {UserModechange, ChannelJoin, ChannelLeave, TopicChange}
    ensures SameNickIn(c, ParseCache(c, m), uid)
  {
    var r := ParseCache(c, m);
    NamesNotTouched(c, m);
    SameUsersFound(c.users, r.users, uid);
    hide ParseCache, CacheOk;
  }

  lemma NamesNotTouched(c: Cache, m: NetMsg)
    requires CacheOk(c, m) && m.kind in {UserModechange, ChannelJoin, ChannelLeave, TopicChange}
    ensures var r := ParseCache(c, m);
      && |r.users| == |c.users|
      && forall i :: 0 <= i < |c.users| ==> r.users[i].uid == c.users[i].uid && r.users[i].nick == c.users[i].nick
  {
    hide AddRef, DropRef, Find, FindNick, Clip, SetChans;
    match m.kind
    case UserModechange =>
    case ChannelJoin =>
    case ChannelLeave =>
    case _ =>
  }

  // ---------------------------------------------------------------- from wire to wire

  predicate NoNul(s: Option<string>) { s.Some? ==> NUL !in s.value }

  lemma ClipNoNul(s: string, max: nat)
    requires NUL !in s
    ensures NUL !in Clip(s, max)
  {
  }

  /** A translated datagram fits the fields of the router protocol. */
  lemma TranslatedInRange(c: Cache, net: NetId, q: QcsMsg, id: nat, width: nat)
    requires WellFormed(q) && Admitted(c, q) && NoNul(q.src) && NoNul(q.text) && NoNul(q.chan)
    requires id < RouterWire.Pow256(width)
    ensures RouterWire.InRange(RouterWire.Raw(id, Translated(c, net, q)), width)
  {
    hide RouterWire.Pow256, FindUser, FindNick, KnownUid, KnownNick, SameTopic, RouterWire.KindCode, UidOf;
    if q.src.Some? { ClipNoNul(q.src.value, TEXT_LEN_MAX); }
    if q.text.Some? { ClipNoNul(q.text.value, TEXT_LEN_MAX); ClipNoNul(q.text.value, NICKNAME_LEN_MAX); }
    if q.chan.Some? { ClipNoNul(q.chan.value, CHANLIST_LEN_MAX); }
  }

  lemma CarriesAcross(id: MsgId)
    ensures Carries(IdAcross(id)) <= Carries(id)
    ensures id == QRefreshAck ==> Dst !in Carries(IdAcross(id))
    ensures id != QInfoReply ==> Supp !in Carries(id)
    ensures WireFormat.IsTopic(id) ==> Slot.Chan in Carries(id)
  {
  }

  lemma AcrossMakes(q: QcsMsg)
    requires WellFormed(q) && WireFormat.CleanStrings(q)
    requires IdAcross(q.id) !in {QInvalid, QInfoReply, QTopicReply}
    requires q.id == QTopicChange ==> q.chan == Some("Main")
    ensures WireFormat.MakeQchat(Across(q)).ok && WireFormat.CleanStrings(Across(q))
  {
    var a := Across(q);
    WireFormat.MakeQchatSucceeds(a);
    MainIsMain();
    CarriesAcross(q.id);
    hide Carries, WireFormat.MakeQchat, Clip, IsMain, PlainPart;
    forall s | s in Carries(a.id) ensures a.Get(s).Some? {
      match s case Src => case Dst => case Text => case Supp => case Chan =>
    }
    if q.src.Some? { ClipNoNul(q.src.value, TEXT_LEN_MAX); ClipNoNul(q.src.value, NICKNAME_LEN_MAX); }
    if q.dst.Some? { ClipNoNul(q.dst.value, NICKNAME_LEN_MAX); }
    if q.text.Some? { ClipNoNul(q.text.value, TEXT_LEN_MAX); ClipNoNul(q.text.value, NICKNAME_LEN_MAX); }
    if q.chan.Some? { ClipNoNul(q.chan.value, CHANLIST_LEN_MAX); }
  }

  /** From a QuickChat net to a QuickChat net at another router. A datagram that is read, translated and
    * passed on survives the router protocol, is translated back and written, and what a reader there
    * finds is what was read here, as far as the sizes of the fields and the kind allow. */
  lemma WireToWire(bytes: string, mode: int, q: QcsMsg, c: Cache, net: NetId, id: nat, width: nat, there: Cache,
                   mode': int)
    requires WireFormat.ParseQchat(bytes, mode) == WireFormat.Done(q) && WellFormed(q)
    requires Inv(c) && Heeded(c, net, q) && Admitted(c, q) && Agree(c, there, Translated(c, net, q))
    requires width in {4, 8} && id < RouterWire.Pow256(width)
    ensures var m := Translated(c, net, q);
      var arrived := RouterWire.Decode(RouterWire.Encode(RouterWire.Raw(id, m), width), width);
      && arrived.Got? && RouterWire.Cooked(arrived.value) == Some(m)
      && SendOk(there, m) && Sendable(there, m) == Some(Across(q))
      && WireFormat.MakeQchat(Across(q)).ok
      && WireFormat.ParseQchat(WireFormat.MakeQchat(Across(q)).bytes, mode')
         == WireFormat.Done(WireFormat.Normalised(Across(q), mode'))
  {
    var m := Translated(c, net, q);
    PassedOnExactly(c, net, q);
    HandledKinds(c, net, q);
    hide *;
    WireFormat.ParseIsWellFormed(bytes, mode);
    ReadTopic(bytes, mode, q);
    NoNuls(q);
    TranslatedInRange(c, net, q, id, width);
    RouterWire.NetMsgRoundTrip(id, m, width);
    TranslationRoundTrip(c, net, q, there);
    AcrossMakes(q);
    WireFormat.QchatRoundTrip(Across(q), mode');
  }

  lemma ReadTopic(bytes: string, mode: int, q: QcsMsg)
    requires WireFormat.ParseQchat(bytes, mode) == WireFormat.Done(q)
    ensures q.id == QTopicChange ==> q.chan == Some("Main")
  {
    hide WireFormat.ParseQchat;
    WireFormat.ParseIsWellFormed(bytes, mode);
  }

  lemma NoNuls(q: QcsMsg)
    requires WellFormed(q) && WireFormat.CleanStrings(q)
    ensures NoNul(q.src) && NoNul(q.text) && NoNul(q.chan)
  {
    hide Carries;
  }

  lemma HandledKinds(c: Cache, net: NetId, q: QcsMsg)
    requires PassedOn(c, net, q)
    ensures IsPair(q.id) || q.id in {QModeChange, QRename, QTopicChange, QRefreshAck}
      || q.id in {QChannelBroadcast, QChannelMe, QChannelJoin, QChannelLeave}
    ensures IdAcross(q.id) !in {QInvalid, QInfoReply, QTopicReply}
  {
  }

  /** Nothing is lost of a line of chat whose names and text fit: kind, sender, receiver, text and
    * channel come out as they went in. */
  lemma ShortMessagesSurvive(q: QcsMsg)
    requires q.id !in {QMessageMass, QRefreshAck, QInfoReply} && WellFormed(q)
    requires q.src.Some? ==> |q.src.value| <= NICKNAME_LEN_MAX
    requires q.dst.Some? ==> |q.dst.value| <= NICKNAME_LEN_MAX
    requires q.text.Some? ==> |q.text.value| <= if q.id == QRename then NICKNAME_LEN_MAX else TEXT_LEN_MAX
    requires q.chan.Some? ==> |q.chan.value| <= CHANLIST_LEN_MAX
    ensures Across(q) == q.(mode := Across(q).mode)
    ensures q.id in {QModeChange, QMessageAck} && PlainMode(q.mode) ==> Across(q) == q
  {
    assert q.supp == None;
    hide Carries;
  }

  /** A line of text from Ann, who is known, passes unchanged. */
  lemma AnnIsHeard()
    ensures var c := Cache([User(UserId(1, 7), ModeNormal, "ann", true, [])], []);
      var q := NEWMSG.(id := QChannelBroadcast, src := Some("ann"), text := Some("hi"), chan := Some("Main"));
      Inv(c) && WellFormed(q) && Heeded(c, 1, q) && Admitted(c, q) && Agree(c, c, Translated(c, 1, q)) && Across(q) == q
  {
    var u := User(UserId(1, 7), ModeNormal, "ann", true, []);
    var c := Cache([u], []);
    assert forall n :: On(c.users, n) == 0;
    assert FindNick(c.users, "ann") == 0;
  }
}
