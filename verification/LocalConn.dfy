/** A connection to a local chat net: receiving, translating, and the drain loop around it. */
module LocalConn {
  import opened Basics
  import opened QcsMessage
  import opened Messages
  import opened CacheModel
  import opened LocalModel
  import opened LocalTheory
  import opened SwitchModel
  import ChanList
  import CacheRuns
  import MsgQueue
  import Router
  import RouteModel
  import RouteTheory
  import RouteTable
  import UserCache
  import opened DList

  class LocalConn {
    const net: Qnet
    const router: Router.Router
    const delayedQueue: MsgQueue.MsgQueue
    var delayedQmsg: Option<QcsMsg>
    var nextUserId: NetId
    /** The datagrams on the link that have not been read. */
    var inbox: seq<QcsMsg>
    /** What was sent on the link. */
    var sent: seq<QcsMsg>

    ghost function Abs(): Local
      reads this, delayedQueue, delayedQueue.entries
    {
      Local(delayedQueue.Contents(), delayedQmsg, nextUserId, inbox, sent)
    }

    ghost predicate Valid()
      reads this, delayedQueue, delayedQueue.entries, delayedQueue.cells
      reads router.cache, router.cache.ues, router.cache.ues.nodes, router.cache.ues.members,
            router.cache.chs, router.cache.chs.nodes, router.cache.chs.members, router.cache.all
    {
      delayedQueue.Valid() && router.cache.Whole()
    }

    constructor (conn: Qnet, r: Router.Router)
      requires r.cache.Whole()
      ensures Valid() && Abs() == Local([], None, 0, [], []) && net == conn && router == r
      ensures fresh(delayedQueue)
    {
      net, router := conn, r;
      delayedQueue := new MsgQueue.MsgQueue();
      delayedQmsg, nextUserId, inbox, sent := None, 0, [], [];
    }

    // -------------------------------------------------------------- handlers

    /** handle_recv_refresh_ack. */
    method HandleRefreshAck(q: QcsMsg) returns (nmsg: NetMsg)
      requires Valid() && WellFormed(q) && q.id == QRefreshAck && Admitted(router.cache.Abs(), q)
      modifies router.cache, router.cache.ues, router.cache.ues.members, router.cache.chs, router.cache.chs.members
      ensures Valid()
      ensures router.cache.Abs() == CacheAfter(old(router.cache.Abs()), q)
      ensures nmsg == Translated(old(router.cache.Abs()), net.id, q)
      ensures fresh(router.cache.chs.members - old(router.cache.chs.members))
      ensures fresh(router.cache.ues.members - old(router.cache.ues.members))
    {
      hide Inv, UserCache.UserCache.Linked, UserCache.UserCache.Abs, TagAlive, Add, MsgQueue.MsgQueue.Valid;
      hide Translated, CacheAfter, Admitted, UidOf, WellFormed, SameNick, List.Valid, KnownUid, FromNet, FromQcsMode;
      hide UserCache.UserCache.Whole, UserCache.UserCache.Valid;
      ghost var was := router.cache.Abs();
      RefreshAckSteps(was, net.id, q);
      if !SameNick(q.dst.value, QCROUTER_NICK) {
        return NOTHING;
      }
      var umode := FromQcsMode(q.mode);
      var uid, changed := Acknowledge(router.cache, q.src.value, umode);
      if !changed {
        return NOTHING;
      }
      nmsg := FromNet(net.id, UserModechange).(dUser := uid, dUmode := umode);
    }

    /** The check the private kinds share: both users known, and the destination on another net. */
    method Route(q: QcsMsg) returns (src: UserId, dst: UserId, outward: bool)
      requires Valid() && q.src.Some? && q.dst.Some?
      ensures src == UidOf(router.cache.Abs(), q.src.value) && dst == UidOf(router.cache.Abs(), q.dst.value)
      ensures outward <==> Outward(router.cache.Abs(), net.id, q)
    {
      hide Inv, UserCache.UserCache.Linked, UserCache.UserCache.Abs, MsgQueue.MsgQueue.Valid, UidOf;
      src := router.cache.FindUid(q.src.value);
      dst := router.cache.FindUid(q.dst.value);
      outward := !(net.id == dst.net || !ValidUser(dst) || !ValidUser(src));
    }

    /** handle_recv_message. */
    method HandleMessage(q: QcsMsg) returns (nmsg: NetMsg)
      requires Valid() && WellFormed(q) && q.id in {QMessageSend, QMessageMass, QMessageAck}
      requires Admitted(router.cache.Abs(), q)
      ensures nmsg == Translated(router.cache.Abs(), net.id, q)
    {
      hide Inv, UserCache.UserCache.Linked, UserCache.UserCache.Abs, MsgQueue.MsgQueue.Valid;
      var src, dst, outward := Route(q);
      if !outward {
        return NOTHING;
      }
      nmsg := BLANK.(src := src, dst := dst, dText := Clip(q.text.value, TEXT_LEN_MAX));
      if q.id == QMessageAck {
        nmsg := nmsg.(kind := PmsgAck, dUmode := FromQcsMode(q.mode));
      } else {
        nmsg := nmsg.(kind := PmsgSend);
      }
    }

    /** handle_recv_private. */
    method HandlePrivate(q: QcsMsg) returns (nmsg: NetMsg)
      requires Valid() && WellFormed(q) && q.id in {QPrivateOpen, QPrivateClose, QPrivateText, QPrivateMe}
      requires Admitted(router.cache.Abs(), q)
      ensures nmsg == Translated(router.cache.Abs(), net.id, q)
    {
      hide Inv, UserCache.UserCache.Linked, UserCache.UserCache.Abs, MsgQueue.MsgQueue.Valid;
      var src, dst, outward := Route(q);
      if !outward {
        return NOTHING;
      }
      nmsg := BLANK.(src := src, dst := dst);
      if q.id == QPrivateOpen {
        nmsg := nmsg.(kind := PrivateOpen);
      } else if q.id == QPrivateClose {
        nmsg := nmsg.(kind := PrivateClose);
      } else {
        nmsg := nmsg.(kind := PrivateText, dText := Clip(q.text.value, TEXT_LEN_MAX),
                      dMeText := MeFlag(q.id == QPrivateMe));
      }
    }

    /** handle_recv_beep. */
    method HandleBeep(q: QcsMsg) returns (nmsg: NetMsg)
      requires Valid() && WellFormed(q) && q.id in {QBeepSend, QBeepAck}
      requires Admitted(router.cache.Abs(), q)
      ensures nmsg == Translated(router.cache.Abs(), net.id, q)
    {
      hide Inv, UserCache.UserCache.Linked, UserCache.UserCache.Abs, MsgQueue.MsgQueue.Valid;
      var src, dst, outward := Route(q);
      if !outward {
        return NOTHING;
      }
      nmsg := BLANK.(src := src, dst := dst, kind := if q.id == QBeepSend then Beep else BeepAck);
    }

    /** handle_recv_channel; leaving the main channel delays the loss of the user. */
    method HandleChannel(q: QcsMsg) returns (nmsg: NetMsg)
      requires Valid() && WellFormed(q) && q.id in {QChannelBroadcast, QChannelMe, QChannelJoin, QChannelLeave}
      requires Admitted(router.cache.Abs(), q)
      modifies delayedQueue, delayedQueue.cells
      ensures Valid() && nmsg == Translated(old(router.cache.Abs()), net.id, q)
      ensures delayedQueue.Contents() == old(delayedQueue.Contents()) + Pushed(old(router.cache.Abs()), net.id, q)
      ensures fresh(delayedQueue.cells - old(delayedQueue.cells))
    {
      hide Inv, UserCache.UserCache.Linked, UserCache.UserCache.Abs, MsgQueue.MsgQueue.Valid;
      var src := router.cache.FindUid(q.src.value);
      if !ValidUser(src) {
        return NOTHING;
      }
      nmsg := ToAll(BLANK.(src := src, dChanlist := Clip(q.chan.value, CHANLIST_LEN_MAX)));
      if q.id == QChannelJoin {
        nmsg := nmsg.(kind := ChannelJoin, dUmode := FromQcsMode(q.mode));
      } else if q.id == QChannelLeave {
        nmsg := nmsg.(kind := ChannelLeave);
        if IsMain(q.chan.value) {
          delayedQueue.Push(ToAll(BLANK.(kind := UserLost, src := NULL_USER.(net := net.id), dUser := src)));
        }
      } else {
        nmsg := nmsg.(kind := ChannelText, dText := Clip(q.text.value, TEXT_LEN_MAX),
                      dMeText := MeFlag(q.id == QChannelMe));
      }
    }

    /** handle_recv_topic_change: -1 and 1 both have the low bit set. */
    method HandleTopicChange(q: QcsMsg) returns (nmsg: NetMsg)
      requires Valid() && WellFormed(q) && q.id == QTopicChange && Admitted(router.cache.Abs(), q)
      ensures nmsg == Translated(router.cache.Abs(), net.id, q)
    {
      hide Inv, UserCache.UserCache.Linked, UserCache.UserCache.Abs, MsgQueue.MsgQueue.Valid;
      var same := router.cache.UsercacheSameTopic(q.chan.value, q.text.value);
      if same % 2 == 1 {
        return NOTHING;
      }
      nmsg := FromNet(net.id, TopicChange).(dText := Clip(q.text.value, TEXT_LEN_MAX),
                                            dChanlist := Clip(q.chan.value, CHANLIST_LEN_MAX));
    }

    /** handle_recv_mode_change and handle_recv_rename. */
    method HandleUserChange(q: QcsMsg) returns (nmsg: NetMsg)
      requires Valid() && WellFormed(q) && q.id in {QModeChange, QRename} && Admitted(router.cache.Abs(), q)
      ensures nmsg == Translated(router.cache.Abs(), net.id, q)
    {
      hide Inv, UserCache.UserCache.Linked, UserCache.UserCache.Abs, MsgQueue.MsgQueue.Valid;
      var uid := router.cache.FindUid(q.src.value);
      if q.id == QModeChange {
        return FromNet(net.id, UserModechange).(dUser := uid, dUmode := FromQcsMode(q.mode));
      }
      if !ValidUser(uid) {
        return NOTHING;
      }
      nmsg := FromNet(net.id, UserNickchange).(dUser := uid, dNickname := Clip(q.text.value, NICKNAME_LEN_MAX),
                                               dText := Clip(q.src.value, TEXT_LEN_MAX));
    }

    /** handle_recv_info_request: answered at once for a user of another net. */
    method HandleInfoRequest(q: QcsMsg) returns (nmsg: NetMsg)
      requires Valid() && WellFormed(q) && q.id == QInfoRequest && Admitted(router.cache.Abs(), q)
      modifies this`sent
      ensures Valid() && nmsg == Translated(router.cache.Abs(), net.id, q)
      ensures sent == old(sent) + Replies(router.cache.Abs(), net.id, q)
    {
      hide Inv, UserCache.UserCache.Linked, UserCache.UserCache.Abs, MsgQueue.MsgQueue.Valid;
      hide Translated, Replies, UidOf, WellFormed, Admitted, ValidUser, KnownUid, FindUser, List.Valid;
      InfoSteps(router.cache.Abs(), net.id, q);
      var uid := router.cache.FindUid(q.dst.value);
      if uid.net == net.id || !ValidUser(uid) {
        return NOTHING;
      }
      var chanlist := router.cache.UsercacheChanlistOf(uid);
      sent := sent + [NEWMSG.(id := QInfoReply, src := q.dst, dst := q.src, text := Some(Dump(uid)),
                              chan := Some(chanlist + "#"), supp := Some("[masqueraded over qcRouter net]"))];
      nmsg := BLANK;
    }

    /** handle_recv_chanlist_req. */
    method HandleChanlistReq(q: QcsMsg)
      requires Valid() && WellFormed(q) && q.id == QChanlistRequest
      modifies this`sent
      ensures Valid() && sent == old(sent) + Replies(router.cache.Abs(), net.id, q)
    {
      hide Inv, UserCache.UserCache.Linked, UserCache.UserCache.Abs, MsgQueue.MsgQueue.Valid, KnownNames;
      var chanlist := router.cache.UsercacheKnownChannels();
      sent := sent + [NEWMSG.(id := QChanlistReply, dst := q.src, chan := Some(chanlist + "#"))];
    }

    /** handle_recv_refresh_req: one acknowledgement per user of the other nets. */
    method HandleRefreshReq(q: QcsMsg)
      requires Valid() && WellFormed(q) && q.id == QRefreshRequest
      modifies this`sent
      ensures Valid() && sent == old(sent) + Replies(router.cache.Abs(), net.id, q)
    {
      hide Inv, UserCache.UserCache.Linked, UserCache.UserCache.Abs, MsgQueue.MsgQueue.Valid;
      hide AckAll, UserCache.Calls, CacheRuns.Outside;
      ghost var masked, was := CacheRuns.Outside(router.cache.Abs().users, {net.id}), sent;
      var calls := router.cache.UsercacheEnumExceptNet(net.id);
      Router.CallsLength(masked);
      var k := 0;
      AckNone(masked, q.src.value);
      while k < |calls|
        invariant 0 <= k <= |calls| == |masked|
        invariant sent == was + AckAll(masked[..k], q.src.value)
      {
        Router.CallAt(masked, k);
        AckStep(masked, k, q.src.value);
        var (_, umode, nickname, _) := calls[k];
        sent := sent + [NEWMSG.(id := QRefreshAck, src := Some(nickname), dst := q.src, mode := ToQcsMode(umode))];
        k := k + 1;
      }
      assert masked[..k] == masked;
    }

    /** The second half of the handler table: the kinds that touch neither queue nor cache. */
    method SwitchOther(q: QcsMsg) returns (nmsg: NetMsg)
      requires Valid() && WellFormed(q) && Admitted(router.cache.Abs(), q)
      requires q.id !in {QRefreshRequest, QChanlistRequest, QRefreshAck, QInfoRequest}
      requires q.id !in {QChannelBroadcast, QChannelMe, QChannelJoin, QChannelLeave}
      ensures nmsg == Translated(router.cache.Abs(), net.id, q)
    {
      hide Inv, UserCache.UserCache.Linked, UserCache.UserCache.Abs, MsgQueue.MsgQueue.Valid, List.Valid;
      hide Translated, Pushed, Replies, CacheAfter, Admitted, WellFormed, UserCache.UserCache.Whole;
      hide UserCache.UserCache.Valid;
      Silent(router.cache.Abs(), net.id, q);
      nmsg := NOTHING;
      if q.id in {QPrivateOpen, QPrivateClose, QPrivateText, QPrivateMe} {
        nmsg := HandlePrivate(q);
      } else if q.id in {QMessageSend, QMessageMass, QMessageAck} {
        nmsg := HandleMessage(q);
      } else if q.id in {QRename, QModeChange} {
        nmsg := HandleUserChange(q);
      } else if q.id == QTopicChange {
        nmsg := HandleTopicChange(q);
      } else if q.id in {QBeepSend, QBeepAck} {
        nmsg := HandleBeep(q);
      }
    }

    /** switch_qmsg: the handler table. */
    method SwitchQmsg(q: QcsMsg) returns (nmsg: NetMsg)
      requires Valid() && WellFormed(q) && Admitted(router.cache.Abs(), q)
      modifies this`sent, delayedQueue, delayedQueue.cells
      modifies router.cache, router.cache.ues, router.cache.ues.members, router.cache.chs, router.cache.chs.members
      ensures Valid()
      ensures router.cache.Abs() == CacheAfter(old(router.cache.Abs()), q)
      ensures nmsg == Translated(old(router.cache.Abs()), net.id, q)
      ensures fresh(router.cache.chs.members - old(router.cache.chs.members))
      ensures fresh(router.cache.ues.members - old(router.cache.ues.members))
      ensures delayedQueue.Contents() == old(delayedQueue.Contents()) + Pushed(old(router.cache.Abs()), net.id, q)
      ensures sent == old(sent) + Replies(old(router.cache.Abs()), net.id, q)
      ensures fresh(delayedQueue.cells - old(delayedQueue.cells))
    {
      hide Inv, UserCache.UserCache.Linked, UserCache.UserCache.Abs, MsgQueue.MsgQueue.Valid;
      hide Translated, Pushed, Replies, CacheAfter, Admitted, WellFormed, MsgQueue.MsgQueue.Contents;
      hide List.Valid, UserCache.UserCache.Whole, UserCache.UserCache.Valid;
      ghost var c := router.cache.Abs();
      Silent(c, net.id, q);
      nmsg := NOTHING;
      if q.id == QRefreshRequest {
        HandleRefreshReq(q);
      } else if q.id == QChanlistRequest {
        HandleChanlistReq(q);
      } else if q.id == QRefreshAck {
        nmsg := HandleRefreshAck(q);
      } else if q.id in {QChannelBroadcast, QChannelMe, QChannelJoin, QChannelLeave} {
        nmsg := HandleChannel(q);
      } else if q.id == QInfoRequest {
        nmsg := HandleInfoRequest(q);
      } else {
        nmsg := SwitchOther(q);
      }
    }

    // -------------------------------------------------------------- receiving

    /** Postpones the datagram of somebody unknown and announces the user instead. */
    method HandleNewUser(q: QcsMsg) returns (isNew: bool, nmsg: NetMsg)
      requires Valid() && WellFormed(q) && delayedQmsg == None
      modifies this`delayedQmsg, this`nextUserId
      ensures Valid() && isNew == !Admitted(router.cache.Abs(), q)
      ensures isNew ==> q.src.Some? && nmsg == NewUserMsg(net.id, nextUserId, q)
      ensures if isNew then nextUserId == NextNum(old(nextUserId)) && delayedQmsg == Some(q)
              else nextUserId == old(nextUserId) && delayedQmsg == None
    {
      hide Inv, UserCache.UserCache.Linked, UserCache.UserCache.Abs, MsgQueue.MsgQueue.Valid;
      nmsg := NOTHING;
      if q.id == QChannelLeave {
        return false, nmsg;
      }
      if q.src == None || q.id == QRename {
        return false, nmsg;
      }
      var known := router.cache.Known(q.src.value);
      if known {
        return false, nmsg;
      }
      // The source asserts here that no datagram is postponed already.
      assert delayedQmsg == None;
      delayedQmsg := Some(q);
      var umode := if q.mode == UMODE_INVALID then ModeNormal else FromQcsMode(q.mode);
      nextUserId := (nextUserId + 1) % 0x10000;
      isNew := true;
      nmsg := FromNet(net.id, UserNew).(dUser := UserId(net.id, nextUserId), dUmode := umode,
                                        dNickname := Clip(q.src.value, NICKNAME_LEN_MAX), dChanlist := MAIN_CHANNEL);
    }

    /** Our own datagrams come back on a broadcast net, and so do those sent for users of other nets. */
    method IsOwn(q: QcsMsg) returns (own: bool)
      requires Valid()
      ensures own <==> Own(router.cache.Abs(), net.id, q)
    {
      own := false;
      if q.src.Some? {
        var uid := router.cache.FindUid(q.src.value);
        own := SameNick(q.src.value, QCROUTER_NICK) || (uid.net != NULL_NET && uid.net != net.id);
      }
    }

    /** The part of local_recv that deals with one datagram, nothing else being pending. */
    method TakeDatagram(q: QcsMsg) returns (nmsg: NetMsg, more: bool)
      requires Valid() && WellFormed(q) && delayedQmsg == None
      modifies this, delayedQueue, delayedQueue.cells
      modifies router.cache, router.cache.ues, router.cache.ues.members, router.cache.chs, router.cache.chs.members
      ensures Valid()
      ensures var r := Handle(old(Abs()), old(router.cache.Abs()), net.id, q);
        Abs() == r.local && router.cache.Abs() == r.cache && nmsg == r.msg && more == r.more
      ensures fresh(delayedQueue.cells - old(delayedQueue.cells))
      ensures fresh(router.cache.chs.members - old(router.cache.chs.members))
      ensures fresh(router.cache.ues.members - old(router.cache.ues.members))
    {
      hide Inv, UserCache.UserCache.Linked, UserCache.UserCache.Abs, MsgQueue.MsgQueue.Valid;
      hide Translated, Pushed, Replies, CacheAfter, Admitted, WellFormed, MsgQueue.MsgQueue.Contents, Own;
      hide NewUserMsg, List.Valid, UserCache.UserCache.Whole, UserCache.UserCache.Valid;
      var own := IsOwn(q);
      if own {
        nmsg, more := NOTHING, false;
      } else {
        nmsg, more := TakeOther(q);
      }
    }

    method TakeOther(q: QcsMsg) returns (nmsg: NetMsg, more: bool)
      requires Valid() && WellFormed(q) && delayedQmsg == None && !Own(router.cache.Abs(), net.id, q)
      modifies this, delayedQueue, delayedQueue.cells
      modifies router.cache, router.cache.ues, router.cache.ues.members, router.cache.chs, router.cache.chs.members
      ensures Valid()
      ensures var r := Handle(old(Abs()), old(router.cache.Abs()), net.id, q);
        Abs() == r.local && router.cache.Abs() == r.cache && nmsg == r.msg && more == r.more
      ensures fresh(delayedQueue.cells - old(delayedQueue.cells))
      ensures fresh(router.cache.chs.members - old(router.cache.chs.members))
      ensures fresh(router.cache.ues.members - old(router.cache.ues.members))
    {
      hide Inv, UserCache.UserCache.Linked, UserCache.UserCache.Abs, MsgQueue.MsgQueue.Valid;
      hide Translated, Pushed, Replies, CacheAfter, Admitted, WellFormed, MsgQueue.MsgQueue.Contents, Own;
      hide NewUserMsg, List.Valid, UserCache.UserCache.Whole, UserCache.UserCache.Valid, Handle;
      HandleSteps(Abs(), router.cache.Abs(), net.id, q);
      var isNew, announce := HandleNewUser(q);
      if isNew {
        return announce, true;
      }
      nmsg, more := TakeAdmitted(q);
    }

    method TakeAdmitted(q: QcsMsg) returns (nmsg: NetMsg, more: bool)
      requires Valid() && WellFormed(q) && delayedQmsg == None && Admitted(router.cache.Abs(), q)
      modifies this`sent, delayedQueue, delayedQueue.cells
      modifies router.cache, router.cache.ues, router.cache.ues.members, router.cache.chs, router.cache.chs.members
      ensures Valid()
      ensures router.cache.Abs() == CacheAfter(old(router.cache.Abs()), q)
      ensures nmsg == Translated(old(router.cache.Abs()), net.id, q)
      ensures delayedQueue.Contents() == old(delayedQueue.Contents()) + Pushed(old(router.cache.Abs()), net.id, q)
      ensures sent == old(sent) + Replies(old(router.cache.Abs()), net.id, q)
      ensures more == (delayedQueue.Contents() != [])
      ensures fresh(delayedQueue.cells - old(delayedQueue.cells))
      ensures fresh(router.cache.chs.members - old(router.cache.chs.members))
      ensures fresh(router.cache.ues.members - old(router.cache.ues.members))
    {
      hide Inv, UserCache.UserCache.Linked, UserCache.UserCache.Abs, MsgQueue.MsgQueue.Valid;
      hide Translated, Pushed, Replies, CacheAfter, Admitted, WellFormed, MsgQueue.MsgQueue.Contents;
      hide List.Valid, UserCache.UserCache.Whole, UserCache.UserCache.Valid;
      nmsg := SwitchQmsg(q);
      var empty := delayedQueue.Empty();
      more := delayedQmsg.Some? || !empty;
    }

    /** local_recv. */
    method LocalRecv() returns (nmsg: NetMsg, more: bool)
      requires Valid() && Readable(Abs())
      modifies this, delayedQueue, delayedQueue.cells
      modifies router.cache, router.cache.ues, router.cache.ues.members, router.cache.chs, router.cache.chs.members
      ensures Valid()
      ensures var r := Receive(old(Abs()), old(router.cache.Abs()), net.id);
        Abs() == r.local && router.cache.Abs() == r.cache && nmsg == r.msg && more == r.more
      ensures fresh(delayedQueue.cells - old(delayedQueue.cells))
      ensures fresh(router.cache.chs.members - old(router.cache.chs.members))
      ensures fresh(router.cache.ues.members - old(router.cache.ues.members))
    {
      hide Inv, UserCache.UserCache.Linked, UserCache.UserCache.Abs, MsgQueue.MsgQueue.Valid;
      hide Handle, WellFormed, MsgQueue.MsgQueue.Contents, List.Valid, UserCache.UserCache.Whole;
      hide UserCache.UserCache.Valid;
      var empty := delayedQueue.Empty();
      if !empty {
        nmsg, more := PopDelayed();
      } else {
        nmsg, more := TakeNext();
      }
    }

    method TakeNext() returns (nmsg: NetMsg, more: bool)
      requires Valid() && Readable(Abs()) && delayedQueue.Contents() == []
      modifies this, delayedQueue, delayedQueue.cells
      modifies router.cache, router.cache.ues, router.cache.ues.members, router.cache.chs, router.cache.chs.members
      ensures Valid()
      ensures var r := Receive(old(Abs()), old(router.cache.Abs()), net.id);
        Abs() == r.local && router.cache.Abs() == r.cache && nmsg == r.msg && more == r.more
      ensures fresh(delayedQueue.cells - old(delayedQueue.cells))
      ensures fresh(router.cache.chs.members - old(router.cache.chs.members))
      ensures fresh(router.cache.ues.members - old(router.cache.ues.members))
    {
      hide Inv, UserCache.UserCache.Linked, UserCache.UserCache.Abs, MsgQueue.MsgQueue.Valid;
      hide Handle, WellFormed, MsgQueue.MsgQueue.Contents, List.Valid, UserCache.UserCache.Whole;
      hide UserCache.UserCache.Valid;
      var q := NextDatagram();
      nmsg, more := TakeDatagram(q);
    }

    method PopDelayed() returns (nmsg: NetMsg, more: bool)
      requires delayedQueue.Valid() && delayedQueue.Contents() != []
      modifies delayedQueue
      ensures delayedQueue.Valid() && nmsg == old(delayedQueue.Contents())[0]
      ensures delayedQueue.Contents() == old(delayedQueue.Contents())[1..]
      ensures more == (delayedQmsg.Some? || delayedQueue.Contents() != [])
      ensures delayedQueue.cells <= old(delayedQueue.cells)
    {
      var popped := delayedQueue.Pop();
      nmsg := popped.value;
      var empty := delayedQueue.Empty();
      more := delayedQmsg.Some? || !empty;
    }

    /** The postponed datagram, or else the next one on the link. */
    method NextDatagram() returns (q: QcsMsg)
      requires delayedQmsg.Some? || inbox != []
      modifies this`delayedQmsg, this`inbox
      ensures delayedQmsg == None
      ensures if old(delayedQmsg).Some? then q == old(delayedQmsg).value && inbox == old(inbox)
              else q == old(inbox)[0] && inbox == old(inbox)[1..]
    {
      if delayedQmsg.Some? {
        q := delayedQmsg.value;
        delayedQmsg := None;
      } else {
        q := inbox[0];
        inbox := inbox[1..];
      }
    }

    // -------------------------------------------------------------- events

    /** One turn of the loop: receive, and switch what was received. */
    method Round() returns (more: bool)
      requires Valid() && router.table.Valid() && Ready(Abs(), router.cache.Abs(), net.id)
      modifies this, delayedQueue, delayedQueue.cells
      modifies router.cache, router.cache.ues, router.cache.ues.members, router.cache.chs, router.cache.chs.members
      modifies router.table, router.table.list.members
      ensures Valid() && router.table.Valid() && router.table.Abs() == old(router.table.Abs())
      ensures var r := Receive(old(Abs()), old(router.cache.Abs()), net.id);
        && CacheOk(r.cache, r.msg)
        && Abs() == r.local && router.cache.Abs() == AfterSwitch(r) && more == r.more
        && router.table.log == old(router.table.log)
           + if Forwarded(router.localId, r.msg) then RouteModel.Send(old(router.table.Abs()), r.msg) else []
      ensures fresh(delayedQueue.cells - old(delayedQueue.cells))
      ensures fresh(router.cache.chs.members - old(router.cache.chs.members))
      ensures fresh(router.cache.ues.members - old(router.cache.ues.members))
    {
      hide Inv, UserCache.UserCache.Linked, UserCache.UserCache.Abs, MsgQueue.MsgQueue.Valid;
      hide RouteTable.RouteTable.Linked, RouteTable.RouteTable.Abs, RouteTheory.Inv, MsgQueue.MsgQueue.Contents;
      hide Receive, Ready, ParseCache, List.Valid, LocalConn.Abs, UserCache.UserCache.Whole;
      hide UserCache.UserCache.Valid, RouteTable.RouteTable.Valid;
      hide RouteModel.Send, ParseTable, Forwarded, TableOk, CacheOk, IsBroadcast;
      StepUnfold(Abs(), router.cache.Abs(), net.id);
      var nmsg;
      nmsg, more := LocalRecv();
      SwitchLocal(nmsg);
    }

    /** Switching a message of this net, unless it has no type. */
    method SwitchLocal(m: NetMsg)
      requires router.cache.Whole() && router.table.Valid() && CacheOk(router.cache.Abs(), m)
      requires m.kind !in {UserEnumRequest, NetNew, NetLost} && (IsBroadcast(m) ==> m.src.net != NULL_NET)
      modifies router.cache, router.cache.ues, router.cache.ues.members, router.cache.chs, router.cache.chs.members
      modifies router.table, router.table.list.members
      ensures router.cache.Whole() && router.table.Valid() && router.table.Abs() == old(router.table.Abs())
      ensures router.cache.Abs()
           == if m.kind == TypeInvalid then old(router.cache.Abs()) else ParseCache(old(router.cache.Abs()), m)
      ensures router.table.log == old(router.table.log)
           + if Forwarded(router.localId, m) then RouteModel.Send(old(router.table.Abs()), m) else []
      ensures fresh(router.cache.chs.members - old(router.cache.chs.members))
      ensures fresh(router.cache.ues.members - old(router.cache.ues.members))
    {
      hide Inv, UserCache.UserCache.Linked, UserCache.UserCache.Abs, UserCache.UserCache.Whole;
      hide UserCache.UserCache.Valid;
      hide RouteTable.RouteTable.Linked, RouteTable.RouteTable.Abs, RouteTable.RouteTable.Valid, RouteTheory.Inv;
      hide ParseCache, SwitchTable, Forwarded, TableOk, CacheOk, RouteModel.Send, List.Valid;
      StepSilent(router.table.Abs(), router.localId, m, net);
      if m.kind != TypeInvalid {
        router.SwitchMsg(net, m);
      }
    }

    /** The loop of process_net_event: receive and switch until nothing is pending. */
    method ProcessNetEvent()
      requires Valid() && router.table.Valid() && Ready(Abs(), router.cache.Abs(), net.id)
      modifies this, delayedQueue, delayedQueue.cells
      modifies router.cache, router.cache.ues, router.cache.ues.members, router.cache.chs, router.cache.chs.members
      modifies router.table, router.table.list.members
      ensures Valid() && router.table.Valid()
      ensures var d := Drain(old(Abs()), old(router.cache.Abs()), net.id);
        && Abs() == d.local && router.cache.Abs() == d.cache
        && router.table.Abs() == old(router.table.Abs())
        && router.table.log == old(router.table.log) + SentOn(old(router.table.Abs()), router.localId, d.out)
    {
      hide Inv, UserCache.UserCache.Linked, UserCache.UserCache.Abs, MsgQueue.MsgQueue.Valid;
      hide MsgQueue.MsgQueue.Contents;
      hide RouteTable.RouteTable.Linked, RouteTable.RouteTable.Abs, RouteTheory.Inv;
      hide Drain, Receive, Ready, Handle, ParseCache, NamesKnown, SentOn, LocalConn.Abs;
      hide List.Valid, UserCache.UserCache.Whole, UserCache.UserCache.Valid, RouteTable.RouteTable.Valid, AfterSwitch;
      hide Then, Work, Forwarded, RouteModel.Send, CacheOk, LocalModel.Pending;
      ghost var l0, c0, t0, log0 := Abs(), router.cache.Abs(), router.table.Abs(), router.table.log;
      ghost var goal := Drain(l0, c0, net.id);
      ghost var out: seq<Delivery> := [];
      SentNothing(t0, router.localId, goal);
      var more := true;
      while more
        invariant Valid() && router.table.Valid() && router.table.Abs() == t0
        invariant more ==> Ready(Abs(), router.cache.Abs(), net.id)
        invariant more ==> Then(out, Drain(Abs(), router.cache.Abs(), net.id)) == goal
        invariant !more ==> Drained(Abs(), router.cache.Abs(), out) == goal
        invariant router.table.log == log0 + SentOn(t0, router.localId, out)
        invariant fresh(delayedQueue.cells - old(delayedQueue.cells))
        invariant fresh(router.cache.chs.members - old(router.cache.chs.members))
        invariant fresh(router.cache.ues.members - old(router.cache.ues.members))
        decreases more, Work(Abs())
      {
        ghost var l, c := Abs(), router.cache.Abs();
        TurnSteps(out, l, c, net.id, t0, router.localId);
        ghost var r := Receive(l, c, net.id);
        ghost var here := Delivery(r.cache, r.msg);
        more := Round();
        out := out + [here];
      }
    }

    /** handle_refresh_timeout. */
    method HandleRefreshTimeout()
      requires Valid()
      modifies this`sent, delayedQueue, delayedQueue.cells, router.cache.ues.members
      ensures Valid()
      ensures World(Abs(), router.cache.Abs()) == Refreshed(World(old(Abs()), old(router.cache.Abs())), net.id)
    {
      hide Inv, UserCache.UserCache.Linked, UserCache.UserCache.Abs, MsgQueue.MsgQueue.Valid;
      hide MsgQueue.MsgQueue.Contents;
      hide UserCache.UserCache.Whole, UserCache.UserCache.Valid, List.Valid, Dead, TagDead;
      var dead := router.cache.UsercacheDeadUsers(net.id);
      Bury(dead);
      sent := sent + [NEWMSG.(id := QRefreshRequest, src := Some(QCROUTER_NICK))];
      router.cache.UsercacheTagDead(net.id);
    }

    /** Queues the loss of every user given up. */
    method Bury(dead: array<UserId>)
      requires delayedQueue.Valid()
      modifies delayedQueue, delayedQueue.cells
      ensures delayedQueue.Valid() && dead[..] == old(dead[..])
      ensures delayedQueue.Contents() == old(delayedQueue.Contents()) + LossOfAll(net.id, dead[..])
    {
      hide MsgQueue.MsgQueue.Valid, MsgQueue.MsgQueue.Contents;
      ghost var was := delayedQueue.Contents();
      var i := 0;
      while i < dead.Length
        invariant 0 <= i <= dead.Length && delayedQueue.Valid()
        invariant dead[..] == old(dead[..])
        invariant delayedQueue.Contents() == was + LossOfAll(net.id, dead[..i])
        invariant fresh(delayedQueue.cells - old(delayedQueue.cells))
      {
        assert LossOfAll(net.id, dead[..i + 1]) == LossOfAll(net.id, dead[..i]) + [LostMsg(net.id, dead[i])];
        delayedQueue.Push(ToAll(BLANK.(kind := UserLost, src := NULL_USER.(net := net.id), dUser := dead[i])));
        i := i + 1;
      }
      assert dead[..i] == dead[..];
    }
  }

  /** Records the mode of a cached user if it is another one than before. */
  method SetMode(cache: UserCache.UserCache, uid: UserId, umode: Umode) returns (changed: bool)
    requires cache.Whole() && KnownUid(cache.Abs(), uid) && uid != NULL_USER
    modifies cache, cache.ues, cache.ues.members, cache.chs, cache.chs.members
    ensures cache.Whole()
    ensures changed <==> old(cache.Abs().users[FindUser(cache.Abs().users, uid)].umode) != umode
    ensures cache.Abs() == if changed then Add(old(cache.Abs()), uid, Some(umode), None, None) else old(cache.Abs())
    ensures fresh(cache.chs.members - old(cache.chs.members)) && fresh(cache.ues.members - old(cache.ues.members))
  {
    hide Inv, UserCache.UserCache.Linked, UserCache.UserCache.Abs, UserCache.UserCache.Whole, List.Valid, Add;
    hide UserCache.UserCache.Valid;
    var known := cache.UsercacheUmodeOf(uid);
    changed := umode != known;
    if changed {
      AddIsOk(cache.Abs(), uid, umode);
      cache.UsercacheAdd(uid, Some(umode), None, None);
    }
  }

  /** Marks the sender of an acknowledgement alive, and records its mode. */
  method Acknowledge(cache: UserCache.UserCache, nick: string, umode: Umode) returns (uid: UserId, changed: bool)
    requires cache.Whole() && KnownUid(TagAlive(cache.Abs(), UidOf(cache.Abs(), nick)), UidOf(cache.Abs(), nick))
    requires UidOf(cache.Abs(), nick) != NULL_USER
    modifies cache, cache.ues, cache.ues.members, cache.chs, cache.chs.members
    ensures cache.Whole() && uid == UidOf(old(cache.Abs()), nick)
    ensures var a := TagAlive(old(cache.Abs()), uid);
      && KnownUid(a, uid)
      && (changed <==> a.users[FindUser(a.users, uid)].umode != umode)
      && cache.Abs() == if changed then Add(a, uid, Some(umode), None, None) else a
    ensures fresh(cache.chs.members - old(cache.chs.members)) && fresh(cache.ues.members - old(cache.ues.members))
  {
    hide Inv, UserCache.UserCache.Linked, UserCache.UserCache.Abs, UserCache.UserCache.Whole, List.Valid, Add;
    hide UserCache.UserCache.Valid, KnownUid, TagAlive, UidOf;
    uid := cache.FindUid(nick);
    cache.UsercacheTagAlive(uid);
    changed := SetMode(cache, uid, umode);
  }

  lemma AddIsOk(c: Cache, uid: UserId, umode: Umode)
    requires KnownUid(c, uid) && uid != NULL_USER
    ensures AddOk(c, uid, Some(umode), None, None)
  {
  }

  /** What the switched messages of an event made the route table send. */
  function SentOn(t: RouteModel.Table, localId: NetId, out: seq<Delivery>): seq<Sent> {
    if out == [] then []
    else
      var m := out[|out| - 1].msg;
      SentOn(t, localId, out[..|out| - 1]) + if Forwarded(localId, m) then RouteModel.Send(t, m) else []
  }

  function Then(out: seq<Delivery>, d: Drained): Drained { d.(out := out + d.out) }

  lemma SentNothing(t: RouteModel.Table, localId: NetId, d: Drained)
    ensures SentOn(t, localId, []) == [] && Then([], d) == d
  {
    assert [] + d.out == d.out;
  }

  lemma SentStep(t: RouteModel.Table, localId: NetId, out: seq<Delivery>, here: Delivery)
    ensures SentOn(t, localId, out + [here])
         == SentOn(t, localId, out) + if Forwarded(localId, here.msg) then RouteModel.Send(t, here.msg) else []
  {
    assert (out + [here])[..|out|] == out;
  }

  /** A local message changes no route. */
  lemma StepSilent(t: RouteModel.Table, localId: NetId, m: NetMsg, net: Qnet)
    requires m.kind !in {UserEnumRequest, NetNew, NetLost}
    ensures TableOk(t, net, m)
    ensures forall users :: (
      SwitchTable(t, localId, net, users, m)
      == RouteModel.Step(t, if Forwarded(localId, m) then RouteModel.Send(t, m) else []))
    ensures m.kind == TypeInvalid ==> !Forwarded(localId, m)
  {
  }

  lemma StepUnfold(l: Local, c: Cache, net: NetId)
    requires Ready(l, c, net)
    ensures Readable(l) && Inv(c)
    ensures var r := Receive(l, c, net);
      && CacheOk(r.cache, r.msg)
      && r.msg.kind !in {UserEnumRequest, NetNew, NetLost}
      && (IsBroadcast(r.msg) ==> r.msg.src.net != NULL_NET)
      && (r.more ==> Ready(r.local, AfterSwitch(r), net) && Work(r.local) < Work(l))
  {
    ReceiveFine(l, c, net);
  }

  lemma OneMore(out: seq<Delivery>, l: Local, c: Cache, net: NetId)
    requires Ready(l, c, net)
    ensures var r := Receive(l, c, net);
      var here := [Delivery(r.cache, r.msg)];
      CacheOk(r.cache, r.msg) &&
      if r.more then Ready(r.local, AfterSwitch(r), net) &&
        Then(out, Drain(l, c, net)) == Then(out + here, Drain(r.local, AfterSwitch(r), net))
      else Then(out, Drain(l, c, net)) == Drained(r.local, AfterSwitch(r), out + here)
  {
    ReceiveFine(l, c, net);
    var r := Receive(l, c, net);
    var here := [Delivery(r.cache, r.msg)];
    if r.more {
      var d := Drain(r.local, AfterSwitch(r), net);
      assert out + (here + d.out) == out + here + d.out;
    }
  }

  /** The two ways to handle a datagram that is not the router's own. */
  lemma HandleSteps(l: Local, c: Cache, net: NetId, q: QcsMsg)
    requires WellFormed(q) && Inv(c) && !Own(c, net, q)
    ensures !Admitted(c, q) ==> q.src.Some?
    ensures !Admitted(c, q) ==> (
      var num := NextNum(l.lastUser);
      Handle(l, c, net, q) == Recv(l.(postponed := Some(q), lastUser := num), c, NewUserMsg(net, num, q), true))
    ensures Admitted(c, q) ==> (
      var l1 := l.(queue := l.queue + Pushed(c, net, q), sent := l.sent + Replies(c, net, q));
      Handle(l, c, net, q) == Recv(l1, CacheAfter(c, q), Translated(c, net, q), l1.queue != [] || l1.postponed.Some?))
  {
  }

  /** One turn of the loop, with what it adds to the deliveries and to what was sent. */
  lemma TurnSteps(out: seq<Delivery>, l: Local, c: Cache, net: NetId, t: RouteModel.Table, localId: NetId)
    requires Ready(l, c, net)
    ensures Readable(l) && Inv(c)
    ensures var r := Receive(l, c, net);
      CacheOk(r.cache, r.msg) && (r.more ==> Ready(r.local, AfterSwitch(r), net) && Work(r.local) < Work(l))
    ensures var r := Receive(l, c, net);
      var more := out + [Delivery(r.cache, r.msg)];
      && (Then(out, Drain(l, c, net))
          == if r.more then Then(more, Drain(r.local, AfterSwitch(r), net)) else Drained(r.local, AfterSwitch(r), more))
      && (SentOn(t, localId, more)
          == SentOn(t, localId, out) + if Forwarded(localId, r.msg) then RouteModel.Send(t, r.msg) else [])
  {
    hide Inv, Drain, Receive, Ready, SentOn, Then, Forwarded, Work, CacheOk;
    StepUnfold(l, c, net);
    var r := Receive(l, c, net);
    OneMore(out, l, c, net);
    SentStep(t, localId, out, Delivery(r.cache, r.msg));
  }

  /** Which kinds delay nothing, answer nothing, or have no handler. */
  lemma Silent(c: Cache, net: NetId, q: QcsMsg)
    requires WellFormed(q) && Admitted(c, q) && Inv(c)
    ensures q.id != QChannelLeave ==> Pushed(c, net, q) == []
    ensures forall s: seq<NetMsg> :: s + [] == s
    ensures q.id !in {QRefreshRequest, QChanlistRequest, QInfoRequest} ==> Replies(c, net, q) == []
    ensures forall s: seq<QcsMsg> :: s + [] == s
    ensures q.id != QRefreshAck ==> CacheAfter(c, q) == c
    ensures Unhandled(q.id) || q.id in {QRefreshRequest, QChanlistRequest} ==> Translated(c, net, q) == NOTHING
  {
    SilentReplies(c, net, q);
    SilentTranslation(c, net, q);
    hide Translated, Replies, Admitted, WellFormed, Inv, Unhandled;
  }

  lemma SilentReplies(c: Cache, net: NetId, q: QcsMsg)
    requires WellFormed(q)
    ensures q.id !in {QRefreshRequest, QChanlistRequest, QInfoRequest} ==> Replies(c, net, q) == []
  {
    hide WellFormed;
  }

  lemma SilentTranslation(c: Cache, net: NetId, q: QcsMsg)
    requires WellFormed(q) && Admitted(c, q)
    ensures Unhandled(q.id) || q.id in {QRefreshRequest, QChanlistRequest} ==> Translated(c, net, q) == NOTHING
  {
    hide WellFormed, Admitted;
  }

  /** The kinds without an entry in the handler table. */
  predicate Unhandled(id: MsgId) {
    id in {QInvalid, QWatchChange, QTopicReply, QInfoReply, QChanmemberRequest, QChanmemberReply, QChanlistReply}
  }

  lemma AckNone(users: seq<User>, asker: string)
    ensures AckAll(users[..0], asker) == []
  {
  }

  lemma AckStep(users: seq<User>, k: nat, asker: string)
    requires k < |users|
    ensures AckAll(users[..k + 1], asker) == AckAll(users[..k], asker) + [RefreshAckFor(users[k], asker)]
  {
    assert users[..k + 1][..k] == users[..k];
  }

  lemma InfoSteps(c: Cache, net: NetId, q: QcsMsg)
    requires WellFormed(q) && q.id == QInfoRequest && Admitted(c, q)
    ensures q.dst.Some?
    ensures var uid := UidOf(c, q.dst.value);
      if uid.net == net || !ValidUser(uid) then Translated(c, net, q) == NOTHING && Replies(c, net, q) == []
      else
        && Translated(c, net, q) == BLANK && KnownUid(c, uid)
        && Replies(c, net, q) ==
           [NEWMSG.(id := QInfoReply, src := q.dst, dst := q.src, text := Some(Dump(uid)),
                    chan := Some(ChanList.Join(c.users[FindUser(c.users, uid)].chans) + "#"),
                    supp := Some("[masqueraded over qcRouter net]"))]
  {
    if KnownNick(c, q.dst.value) { UidKnown(c, q.dst.value); }
  }

  lemma RefreshAckSteps(c: Cache, net: NetId, q: QcsMsg)
    requires Inv(c) && WellFormed(q) && q.id == QRefreshAck && Admitted(c, q)
    ensures q.src.Some? && q.dst.Some?
    ensures var uid, mode := UidOf(c, q.src.value), FromQcsMode(q.mode);
      var a := TagAlive(c, uid);
      && uid != NULL_USER && KnownUid(a, uid)
      && (if !SameNick(q.dst.value, QCROUTER_NICK) then CacheAfter(c, q) == c && Translated(c, net, q) == NOTHING
          else if a.users[FindUser(a.users, uid)].umode == mode
          then CacheAfter(c, q) == a && Translated(c, net, q) == NOTHING
          else CacheAfter(c, q) == Add(a, uid, Some(mode), None, None)
               && Translated(c, net, q) == FromNet(net, UserModechange).(dUser := uid, dUmode := mode))
  {
    var uid := UidOf(c, q.src.value);
    UidKnown(c, q.src.value);
    TaggedKnown(c, uid);
    TagKeepsMode(c, uid);
  }

  lemma TagKeepsMode(c: Cache, uid: UserId)
    requires Inv(c) && KnownUid(c, uid)
    ensures uid != NULL_USER
    ensures var a := TagAlive(c, uid);
      FindUser(a.users, uid) == FindUser(c.users, uid) < |a.users|
      && a.users[FindUser(c.users, uid)].umode == c.users[FindUser(c.users, uid)].umode
  {
    var i := FindUser(c.users, uid);
    var a := TagAlive(c, uid);
    assert a.users[i].uid == uid;
    assert forall j :: 0 <= j < i ==> a.users[j].uid != uid;
  }
}
