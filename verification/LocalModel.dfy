/** The translation of a local chat net: what one datagram becomes, and how one poll event drains
  * the delayed queue, the postponed datagram and the link, with the user cache updated in between. */
module LocalModel {
  import opened Basics
  import opened QcsMessage
  import opened Messages
  import opened ChanList
  import opened CacheModel
  import opened SwitchModel
  import CacheTheory
  import CacheRuns

  const MAIN_CHANNEL := "#Main"
  const QCROUTER_NICK := "qcRouter_msg"
  const TEXT_LEN_MAX := CHANLIST_LEN_MAX

  /** umode_to_qcs. */
  function ToQcsMode(u: Umode): int {
    match u
    case ModeNormal => UMODE_NORMAL
    case ModeDnd => UMODE_DND
    case ModeAway => UMODE_AWAY
    case ModeOffline => UMODE_OFFLINE
    case ModeInvalid => UMODE_INVALID
  }

  /** qcs_to_umode, which ignores the watch flag. */
  function FromQcsMode(mode: int): Umode {
    var m := WithoutWatch(mode);
    if m == UMODE_NORMAL then ModeNormal
    else if m == UMODE_AWAY then ModeAway
    else if m == UMODE_DND then ModeDnd
    else if m == UMODE_OFFLINE then ModeOffline
    else ModeInvalid
  }

  /** eq_nickname. */
  predicate SameNick(a: string, b: string) { Clip(a, NICKNAME_LEN_MAX) == Clip(b, NICKNAME_LEN_MAX) }

  /** VALID_USER. */
  predicate ValidUser(uid: UserId) { uid.net != NULL_NET }

  // ---------------------------------------------------------------- translating one datagram

  /** The source is somebody the cache knows, or the kind is one that is let through regardless. */
  predicate Admitted(c: Cache, q: QcsMsg) {
    q.id == QChannelLeave || q.id == QRename || q.src == None || KnownNick(c, q.src.value)
  }

  const NOTHING := BLANK.(kind := TypeNull)

  /** Private traffic between two known users is passed on when it leaves this net. */
  predicate Outward(c: Cache, net: NetId, q: QcsMsg)
    requires q.src.Some? && q.dst.Some?
  {
    && UidOf(c, q.dst.value).net != net
    && ValidUser(UidOf(c, q.dst.value)) && ValidUser(UidOf(c, q.src.value))
  }

  function PrivateMsg(c: Cache, q: QcsMsg, kind: MsgType): NetMsg
    requires q.src.Some? && q.dst.Some?
  {
    BLANK.(kind := kind, src := UidOf(c, q.src.value), dst := UidOf(c, q.dst.value))
  }

  function ChannelMsg(c: Cache, q: QcsMsg, kind: MsgType): NetMsg
    requires q.src.Some? && q.chan.Some?
  {
    ToAll(BLANK.(kind := kind, src := UidOf(c, q.src.value), dChanlist := Clip(q.chan.value, CHANLIST_LEN_MAX)))
  }

  function MeFlag(me: bool): NetId { if me then 1 else 0 }

  function FromNet(net: NetId, kind: MsgType): NetMsg { ToAll(BLANK.(kind := kind, src := NULL_USER.(net := net))) }

  /** What switch_qmsg makes of a well-formed datagram. A kind without a handler, or one the handler
    * turns down, gives a null message; an answered info request is left without a type. */
  function Translated(c: Cache, net: NetId, q: QcsMsg): NetMsg
    requires WellFormed(q) && Admitted(c, q)
  {
    match q.id
    case QRefreshAck =>
      var i := FindNick(c.users, q.src.value);
      if !SameNick(q.dst.value, QCROUTER_NICK) || c.users[FindUserAt(c, i)].umode == FromQcsMode(q.mode) then NOTHING
      else FromNet(net, UserModechange).(dUser := c.users[i].uid, dUmode := FromQcsMode(q.mode))
    case QMessageSend | QMessageMass =>
      if !Outward(c, net, q) then NOTHING
      else PrivateMsg(c, q, PmsgSend).(dText := Clip(q.text.value, TEXT_LEN_MAX))
    case QMessageAck =>
      if !Outward(c, net, q) then NOTHING
      else PrivateMsg(c, q, PmsgAck).(dText := Clip(q.text.value, TEXT_LEN_MAX), dUmode := FromQcsMode(q.mode))
    case QChannelBroadcast | QChannelMe =>
      if !ValidUser(UidOf(c, q.src.value)) then NOTHING
      else ChannelMsg(c, q, ChannelText).(dText := Clip(q.text.value, TEXT_LEN_MAX),
                                          dMeText := MeFlag(q.id == QChannelMe))
    case QChannelJoin =>
      if !ValidUser(UidOf(c, q.src.value)) then NOTHING
      else ChannelMsg(c, q, ChannelJoin).(dUmode := FromQcsMode(q.mode))
    case QChannelLeave =>
      if !ValidUser(UidOf(c, q.src.value)) then NOTHING else ChannelMsg(c, q, ChannelLeave)
    case QBeepSend => if !Outward(c, net, q) then NOTHING else PrivateMsg(c, q, Beep)
    case QBeepAck => if !Outward(c, net, q) then NOTHING else PrivateMsg(c, q, BeepAck)
    case QPrivateOpen => if !Outward(c, net, q) then NOTHING else PrivateMsg(c, q, PrivateOpen)
    case QPrivateClose => if !Outward(c, net, q) then NOTHING else PrivateMsg(c, q, PrivateClose)
    case QPrivateText | QPrivateMe =>
      if !Outward(c, net, q) then NOTHING
      else PrivateMsg(c, q, PrivateText).(dText := Clip(q.text.value, TEXT_LEN_MAX),
                                          dMeText := MeFlag(q.id == QPrivateMe))
    case QInfoRequest =>
      var uid := UidOf(c, q.dst.value);
      if uid.net == net || !ValidUser(uid) then NOTHING else BLANK
    case QTopicChange =>
      if SameTopic(c, q.chan.value, q.text.value) % 2 == 1 then NOTHING
      else FromNet(net, TopicChange).(dText := Clip(q.text.value, TEXT_LEN_MAX),
                                      dChanlist := Clip(q.chan.value, CHANLIST_LEN_MAX))
    case QModeChange =>
      FromNet(net, UserModechange).(dUser := UidOf(c, q.src.value), dUmode := FromQcsMode(q.mode))
    case QRename =>
      var uid := UidOf(c, q.src.value);
      if !ValidUser(uid) then NOTHING
      else FromNet(net, UserNickchange).(dUser := uid, dNickname := Clip(q.text.value, NICKNAME_LEN_MAX),
                                         dText := Clip(q.src.value, TEXT_LEN_MAX))
    case _ => NOTHING
  }

  function LostMsg(net: NetId, uid: UserId): NetMsg { FromNet(net, UserLost).(dUser := uid) }

  /** Leaving the main channel is leaving the net: the loss of the user is delayed behind the leave. */
  function Pushed(c: Cache, net: NetId, q: QcsMsg): seq<NetMsg>
    requires WellFormed(q)
  {
    if q.id == QChannelLeave && ValidUser(UidOf(c, q.src.value)) && IsMain(q.chan.value)
    then [LostMsg(net, UidOf(c, q.src.value))] else []
  }

  /** A refresh acknowledgement to the router marks its sender alive, and records a new mode. */
  function CacheAfter(c: Cache, q: QcsMsg): Cache
    requires WellFormed(q) && Admitted(c, q) && Inv(c)
  {
    if q.id == QRefreshAck && SameNick(q.dst.value, QCROUTER_NICK) then
      var i := FindNick(c.users, q.src.value);
      var uid := c.users[i].uid;
      TaggedKnown(c, uid);
      if c.users[FindUserAt(c, i)].umode == FromQcsMode(q.mode) then TagAlive(c, uid)
      else Add(TagAlive(c, uid), uid, Some(FromQcsMode(q.mode)), None, None)
    else c
  }

  lemma TaggedKnown(c: Cache, uid: UserId)
    ensures KnownUid(TagAlive(c, uid), uid) <==> KnownUid(c, uid)
  {
    var i := FindUser(c.users, uid);
    if i < |c.users| {
      assert TagAlive(c, uid).users[i].uid == uid;
    }
  }

  function FindUserAt(c: Cache, i: nat): (r: nat)
    requires i < |c.users|
    ensures r < |c.users| && c.users[r].uid == c.users[i].uid
  {
    FindUser(c.users, c.users[i].uid)
  }

  function Digits(n: nat): string {
    if n < 10 then [(n as char) + '0'] else Digits(n / 10) + [((n % 10) as char) + '0']
  }

  /** user_id_dump. */
  function Dump(uid: UserId): string {
    if uid.net == NULL_NET then "null_user" else "num_" + Digits(uid.num) + "@net_" + Digits(uid.net)
  }

  function RefreshAckFor(u: User, asker: string): QcsMsg {
    NEWMSG.(id := QRefreshAck, src := Some(u.nick), dst := Some(asker), mode := ToQcsMode(u.umode))
  }

  function AckAll(users: seq<User>, asker: string): seq<QcsMsg> {
    if users == [] then []
    else AckAll(users[..|users| - 1], asker) + [RefreshAckFor(users[|users| - 1], asker)]
  }

  /** What the router answers on the local link, posing as the users of the other nets. */
  function Replies(c: Cache, net: NetId, q: QcsMsg): seq<QcsMsg>
    requires WellFormed(q)
  {
    match q.id
    case QRefreshRequest => AckAll(CacheRuns.Outside(c.users, {net}), q.src.value)
    case QChanlistRequest =>
      [NEWMSG.(id := QChanlistReply, dst := q.src, chan := Some(Join(KnownNames(c.chans, 0)) + "#"))]
    case QInfoRequest =>
      var uid := UidOf(c, q.dst.value);
      if uid.net == net || !ValidUser(uid) then []
      else
        [NEWMSG.(id := QInfoReply, src := q.dst, dst := q.src, text := Some(Dump(uid)),
                 chan := Some(Join(c.users[FindUserAt(c, FindNick(c.users, q.dst.value))].chans) + "#"),
                 supp := Some("[masqueraded over qcRouter net]"))]
    case _ => []
  }

  // ---------------------------------------------------------------- one poll event

  /** The link end of a local net: delayed messages (oldest first), the postponed datagram, the number
    * given to the last new user, the datagrams not read yet, and what was sent on the link. */
  datatype Local = Local(queue: seq<NetMsg>, postponed: Option<QcsMsg>, lastUser: NetId,
                         inbox: seq<QcsMsg>, sent: seq<QcsMsg>)

  /** The result of one receive: the state, the cache, the message, and whether to ask again. */
  datatype Recv = Recv(local: Local, cache: Cache, msg: NetMsg, more: bool)

  predicate Pending(l: Local) { l.queue != [] || l.postponed.Some? }

  /** A datagram of the router itself, or of a user it poses as on this net. */
  predicate Own(c: Cache, net: NetId, q: QcsMsg) {
    q.src.Some? && (
      || SameNick(q.src.value, QCROUTER_NICK)
      || (UidOf(c, q.src.value).net != NULL_NET && UidOf(c, q.src.value).net != net))
  }

  function NewUserMsg(net: NetId, num: NetId, q: QcsMsg): NetMsg
    requires q.src.Some?
  {
    FromNet(net, UserNew).(
      dUser := UserId(net, num),
      dUmode := if q.mode == UMODE_INVALID then ModeNormal else FromQcsMode(q.mode),
      dNickname := Clip(q.src.value, NICKNAME_LEN_MAX),
      dChanlist := MAIN_CHANNEL)
  }

  /** next_user_id is 16 bits wide. */
  function NextNum(num: NetId): NetId { (num + 1) % 0x10000 }

  /** Handling one datagram that has been taken from the link or from its postponement. */
  function Handle(l: Local, c: Cache, net: NetId, q: QcsMsg): Recv
    requires WellFormed(q) && Inv(c)
  {
    if Own(c, net, q) then Recv(l, c, NOTHING, false)
    else if !Admitted(c, q) then
      var num := NextNum(l.lastUser);
      Recv(l.(postponed := Some(q), lastUser := num), c, NewUserMsg(net, num, q), true)
    else
      var l1 := l.(queue := l.queue + Pushed(c, net, q), sent := l.sent + Replies(c, net, q));
      Recv(l1, CacheAfter(c, q), Translated(c, net, q), Pending(l1))
  }

  ghost predicate Readable(l: Local) {
    && (forall i :: 0 <= i < |l.inbox| ==> WellFormed(l.inbox[i]))
    && (l.postponed.Some? ==> WellFormed(l.postponed.value))
    && (Pending(l) || l.inbox != [])
  }

  /** local_recv. */
  function Receive(l: Local, c: Cache, net: NetId): Recv
    requires Readable(l) && Inv(c)
  {
    if l.queue != [] then
      var l1 := l.(queue := l.queue[1..]);
      Recv(l1, c, l.queue[0], Pending(l1))
    else if l.postponed.Some? then Handle(l.(postponed := None), c, net, l.postponed.value)
    else Handle(l.(inbox := l.inbox[1..]), c, net, l.inbox[0])
  }
}
