/** Messages of the LAN chat protocols: their fields, user modes, and which fields a kind carries. */
module QcsMessage {
  import opened Basics

  datatype MsgId =
    | QInvalid
    | QRefreshRequest | QRefreshAck
    | QChannelBroadcast | QChannelJoin | QChannelLeave | QChannelMe
    | QMessageSend | QMessageMass | QMessageAck
    | QRename | QModeChange | QWatchChange
    | QTopicChange | QTopicReply
    | QInfoRequest | QInfoReply
    | QChanmemberRequest | QChanmemberReply
    | QChanlistRequest | QChanlistReply
    | QBeepSend | QBeepAck
    | QPrivateOpen | QPrivateClose | QPrivateText | QPrivateMe

  datatype Slot = Src | Dst | Text | Supp | Chan

  /** A string field that is not set is a NULL pointer, None here. */
  datatype QcsMsg = QcsMsg(
    id: MsgId,
    mode: int,
    src: Option<string>,
    dst: Option<string>,
    text: Option<string>,
    supp: Option<string>,
    chan: Option<string>)
  {
    function Get(s: Slot): Option<string> {
      match s
      case Src => src
      case Dst => dst
      case Text => text
      case Supp => supp
      case Chan => chan
    }

    function Set(s: Slot, v: Option<string>): (r: QcsMsg)
      ensures r.Get(s) == v && r.id == id && r.mode == mode
      ensures forall o :: o != s ==> r.Get(o) == Get(o)
    {
      match s
      case Src => this.(src := v)
      case Dst => this.(dst := v)
      case Text => this.(text := v)
      case Supp => this.(supp := v)
      case Chan => this.(chan := v)
    }

    /** qcs__cleanupmsg: everything but the mode is reset. */
    function Cleaned(): QcsMsg { QcsMsg(QInvalid, mode, None, None, None, None, None) }
  }

  const UMODE_INVALID := 0x00
  const UMODE_NORMAL := 0x01
  const UMODE_DND := 0x02
  const UMODE_AWAY := 0x03
  const UMODE_OFFLINE := 0x04
  const UMODE_WATCH := 0x80

  /** qcs_newmsg. */
  const NEWMSG := QcsMsg(QInvalid, UMODE_INVALID, None, None, None, None, None)

  /** mode & QCS_UMODE_WATCH, for a two's complement mode. */
  predicate HasWatch(mode: int) { (mode / UMODE_WATCH) % 2 == 1 }

  /** mode & ~QCS_UMODE_WATCH. */
  function WithoutWatch(mode: int): int { if HasWatch(mode) then mode - UMODE_WATCH else mode }

  /** mode | QCS_UMODE_WATCH. */
  function WithWatch(mode: int): int { if HasWatch(mode) then mode else mode + UMODE_WATCH }

  predicate PlainMode(mode: int) { UMODE_NORMAL <= mode <= UMODE_OFFLINE }

  /** The string fields a message of a kind carries on the wire or gets when it is read. */
  function Carries(id: MsgId): set<Slot> {
    match id
    case QInvalid => {}
    case QRefreshRequest | QChanmemberRequest | QChanlistRequest | QModeChange | QWatchChange => {Src}
    case QRefreshAck | QInfoRequest | QBeepSend | QBeepAck | QPrivateOpen | QPrivateClose => {Src, Dst}
    case QChannelJoin | QChannelLeave => {Src, Chan}
    case QChannelBroadcast | QChannelMe => {Src, Text, Chan}
    case QMessageSend | QMessageMass | QMessageAck | QPrivateText | QPrivateMe => {Src, Dst, Text}
    case QRename => {Src, Text}
    case QTopicChange => {Text, Chan}
    case QTopicReply => {Dst, Text, Chan}
    case QInfoReply => {Src, Dst, Text, Supp, Chan}
    case QChanmemberReply => {Src, Dst, Chan}
    case QChanlistReply => {Dst, Chan}
  }

  /** A message as a successful read leaves it: what its kind carries is set and nothing else. */
  predicate WellFormed(m: QcsMsg) {
    && (m.src.Some? <==> Src in Carries(m.id))
    && (m.dst.Some? <==> Dst in Carries(m.id))
    && (m.text.Some? <==> Text in Carries(m.id))
    && (m.supp.Some? <==> Supp in Carries(m.id))
    && (m.chan.Some? <==> Chan in Carries(m.id))
  }

  function LowerChar(c: char): char { if 'A' <= c <= 'Z' then c - 'A' + 'a' else c }

  function Lower(s: string): (r: string)
    ensures |r| == |s|
  {
    seq(|s|, i requires 0 <= i < |s| => LowerChar(s[i]))
  }

  /** !strcasecmp(s, "main"), letters folded as ASCII. */
  predicate IsMain(s: string) { Lower(s) == "main" }

  lemma MainIsMain()
    ensures IsMain("Main")
  {
  }
}
