/** Messages between nets. The id is left to the codec: the router gives every message a fresh one. */
module Messages {
  import opened Basics

  datatype MsgType =
    | TypeInvalid | TypeNull | Handshake
    | NetNew | NetLost | NetEnumEnds
    | Ping | Pong
    | UserNew | UserNickchange | UserModechange | UserLost | UserEnumRequest
    | ChannelJoin | ChannelLeave | ChannelText
    | PrivateOpen | PrivateClose | PrivateText
    | PmsgSend | PmsgAck | Beep | BeepAck | TopicChange

  datatype NetMsg = NetMsg(
    kind: MsgType,
    src: UserId,
    dst: UserId,
    dNet: NetId,
    dUser: UserId,
    dMeText: NetId,
    dUmode: Umode,
    dNickname: string,
    dChanlist: string,
    dText: string)

  /** msg_new. */
  const BLANK := NetMsg(TypeInvalid, NULL_USER, NULL_USER, NULL_NET, NULL_USER, 0, ModeInvalid, "", "", "")

  /** msg_set_broadcast: only the net part of the destination is overwritten. */
  function ToAll(m: NetMsg): NetMsg { m.(dst := m.dst.(net := BROADCAST_NET)) }

  predicate IsBroadcast(m: NetMsg) { m.dst.net == BROADCAST_NET }

  /** What the router says about a net that came or went; the net itself is the source. */
  function RouteChange(nid: NetId, isNew: bool): NetMsg {
    ToAll(BLANK.(kind := if isNew then NetNew else NetLost, src := NULL_USER.(net := nid), dNet := nid))
  }

  /** A connection: the handle of its link and the net id its peer gave in the handshake. */
  datatype Qnet = Qnet(link: nat, id: NetId)

  /** One call of a connection's send. */
  datatype Sent = Sent(to: Qnet, msg: NetMsg)
}
