/** The bytes themselves: every kind of datagram spelled out, and a message between routers field by field. */
module WireBytes {
  import opened Basics
  import opened QcsMessage
  import opened Messages
  import opened WireFormat
  import VypressModel
  import RouterWire

  // ---------------------------------------------------------------- datagrams

  /** A string and its terminator. */
  function Z(s: Option<string>): string { (if s.Some? then s.value else "") + "\0" }

  /** The digit of a mode: dnd is 1, away is 2, offline is 3, everything else 0. */
  function Digit(mode: int): string {
    if mode == 2 then "1" else if mode == 3 then "2" else if mode == 4 then "3" else "0"
  }

  /** The digit of the watch flag, the highest of the eight bits. */
  function Watch(mode: int): string { if (mode / 128) % 2 == 1 then "1" else "2" }

  /** What a QuickChat net sees of a message. */
  function Spelled(m: QcsMsg): string {
    match m.id
    case QInvalid => ""
    case QRefreshRequest => "0" + Z(m.src)
    case QRefreshAck => "1" + Z(m.dst) + Z(m.src) + Digit(m.mode) + Watch(m.mode)
    case QChannelBroadcast => "2#" + Z(m.chan) + Z(m.src) + Z(m.text)
    case QRename => "3" + Z(m.src) + Z(m.text) + "0"
    case QChannelJoin => "4" + Z(m.src) + "#" + Z(m.chan) + Digit(m.mode) + "0"
    case QChannelLeave => "5" + Z(m.src) + "#" + Z(m.chan) + "0"
    case QMessageSend => "6" + Z(m.src) + Z(m.dst) + Z(m.text)
    case QMessageAck => "7" + Digit(m.mode) + Z(m.dst) + Z(m.src) + "0" + Z(m.text)
    case QChannelMe => "A#" + Z(m.chan) + Z(m.src) + Z(m.text)
    case QTopicChange => "B" + Z(m.text)
    case QTopicReply => "C" + Z(m.dst) + Z(m.text)
    case QModeChange => "D" + Z(m.src) + Digit(m.mode) + "0"
    case QMessageMass => "E" + Z(m.src) + Z(m.dst) + Z(m.text)
    case QInfoRequest => "F" + Z(m.dst) + Z(m.src)
    case QInfoReply =>
      "G" + Z(m.dst) + Z(m.src) + Z(m.text) + "QcProto1.6\0" + "0 %\0" + "0 Kb\0" + Z(m.chan) + Z(m.supp)
    case QBeepSend => "H0" + Z(m.dst) + Z(m.src)
    case QBeepAck => "H1" + Z(m.dst) + Z(m.src) + "0"
    case QPrivateOpen => "J0" + Z(m.src) + Z(m.dst) + "0"
    case QPrivateClose => "J1" + Z(m.src) + Z(m.dst) + "0"
    case QPrivateText => "J2" + Z(m.src) + Z(m.dst) + Z(m.text)
    case QPrivateMe => "J3" + Z(m.src) + Z(m.dst) + Z(m.text)
    case QChanmemberReply => "K" + Z(m.dst) + Z(m.chan) + Z(m.src)
    case QChanmemberRequest => "L" + Z(m.src)
    case QWatchChange => "M" + Z(m.src) + Watch(m.mode)
    case QChanlistRequest => "N" + Z(m.src)
    case QChanlistReply => "O" + Z(m.dst) + Z(m.chan)
  }

  /** What a Vypress net sees of the three kinds it has its own format for, behind the header. */
  function SpelledByVypress(m: QcsMsg): string {
    if m.id == QTopicChange then "B#" + Z(m.chan) + Z(m.text)
    else if m.id == QTopicReply then "C" + Z(m.dst) + "#" + Z(m.chan) + Z(m.text)
    else if m.id == QInfoReply then
      "G" + Z(m.dst) + Z(m.src) + Z(m.text) + "VcProto1.0\0" + "0.0.0.0\0" + Z(m.chan) + Z(m.supp)
    else Spelled(m)
  }

  /** A field that can be written, spelled out. */
  function Piece(f: Field, m: QcsMsg): string {
    match f
    case Str(s) => Z(m.Get(s))
    case Hash(s) => "#" + Z(m.Get(s))
    case ModeChar => Digit(m.mode)
    case WatchOpt => Watch(m.mode)
    case WatchChar => Watch(m.mode)
    case Filler(t) => t + "\0"
    case Skip(c) => [c]
    case Tail(c) => [c]
    case MainOnly => ""
  }

  lemma PieceIs(f: Field, m: QcsMsg)
    ensures EncField(f, m).ok ==> EncField(f, m).bytes == Piece(f, m)
  {
    assert [NUL] == "\0" && ['#'] == "#";
  }

  function Pieces(l: Layout, m: QcsMsg): string { if l.End? then "" else Piece(l.f, m) + Pieces(l.rest, m) }

  lemma {:induction false} PiecesAre(l: Layout, m: QcsMsg)
    ensures Encode(l, m).ok ==> Encode(l, m).bytes == Pieces(l, m)
  {
    if l.Then? {
      PieceIs(l.f, m);
      PiecesAre(l.rest, m);
      hide EncField, Piece;
    }
  }

  lemma Pieces1(a: Field, m: QcsMsg)
    ensures Pieces(L1(a), m) == Piece(a, m)
  {
    assert Pieces(End, m) == "" && L1(a).rest == End;
    hide Piece;
    assert Piece(a, m) + "" == Piece(a, m);
  }

  lemma Pieces2(a: Field, b: Field, m: QcsMsg)
    ensures Pieces(L2(a, b), m) == Piece(a, m) + Piece(b, m)
  {
    Pieces1(b, m);
    hide Piece;
  }

  lemma Pieces3(a: Field, b: Field, c: Field, m: QcsMsg)
    ensures Pieces(L3(a, b, c), m) == Piece(a, m) + (Piece(b, m) + Piece(c, m))
  {
    Pieces2(b, c, m);
    hide Piece;
  }

  lemma Pieces4(a: Field, b: Field, c: Field, d: Field, m: QcsMsg)
    ensures Pieces(L4(a, b, c, d), m) == Piece(a, m) + (Piece(b, m) + (Piece(c, m) + Piece(d, m)))
  {
    Pieces3(b, c, d, m);
    hide Piece;
  }

  lemma PiecesMore(a: Field, l: Layout, m: QcsMsg)
    ensures Pieces(Then(a, l), m) == Piece(a, m) + Pieces(l, m)
  {
  }

  lemma Regroup(t: string, a: string, b: string, c: string, d: string, e: string)
    ensures t + (a + b) == t + a + b
    ensures t + (a + (b + c)) == t + a + b + c
    ensures t + (a + (b + (c + d))) == t + a + b + c + d
    ensures t + (a + (b + (c + (d + e)))) == t + a + b + c + d + e
  {
    assert a + (b + (c + (d + e))) == a + b + c + d + e;
    assert a + (b + (c + d)) == a + b + c + d;
  }

  lemma OneSpelled(id: MsgId, m: QcsMsg)
    requires m.id == id && id in {QRefreshRequest, QChanmemberRequest, QChanlistRequest}
    ensures Tag(id) + Pieces(Format(id), m) == Spelled(m)
  {
    Pieces1(Str(Src), m);
    hide Pieces, Z;
  }

  lemma TwoSpelled(id: MsgId, m: QcsMsg)
    requires m.id == id && id in {QWatchChange, QTopicChange, QInfoRequest, QChanlistReply, QBeepSend}
    ensures Tag(id) + Pieces(Format(id), m) == Spelled(m)
  {
    var l := Format(id);
    Pieces2(l.f, l.rest.f, m);
    Regroup(Tag(id), Piece(l.f, m), Piece(l.rest.f, m), "", "", "");
    hide Pieces, Z, Digit, Watch;
  }

  lemma ThreeSpelled(id: MsgId, m: QcsMsg)
    requires m.id == id
    requires id in {QMessageSend, QMessageMass, QRename, QModeChange, QChanmemberReply, QBeepAck,
                    QPrivateText, QPrivateMe, QPrivateOpen, QPrivateClose}
    ensures Tag(id) + Pieces(Format(id), m) == Spelled(m)
  {
    var l := Format(id);
    Pieces3(l.f, l.rest.f, l.rest.rest.f, m);
    Regroup(Tag(id), Piece(l.f, m), Piece(l.rest.f, m), Piece(l.rest.rest.f, m), "", "");
    hide Pieces, Z, Digit, Watch;
  }

  lemma LineSpelled(id: MsgId, m: QcsMsg)
    requires m.id == id && id in {QChannelBroadcast, QChannelMe, QTopicReply}
    ensures Tag(id) + Pieces(Format(id), m) == Spelled(m)
  {
    var l := Format(id);
    Pieces3(l.f, l.rest.f, l.rest.rest.f, m);
    Regroup(Tag(id), Piece(l.f, m), Piece(l.rest.f, m), Piece(l.rest.rest.f, m), "", "");
    Regroup(Tag(id), "#", Z(m.chan), "", "", "");
    assert "2" + "#" == "2#" && "A" + "#" == "A#";
    hide Pieces, Z, Digit, Watch;
  }

  lemma JoinSpelled(m: QcsMsg)
    requires m.id == QChannelJoin
    ensures Tag(m.id) + Pieces(Format(m.id), m) == Spelled(m)
  {
    Pieces4(Str(Src), Hash(Chan), ModeChar, Tail('0'), m);
    Regroup("4", Z(m.src), "#" + Z(m.chan), Digit(m.mode), "0", "");
    Regroup("4" + Z(m.src), "#", Z(m.chan), "", "", "");
    assert ['0'] == "0";
    hide Pieces, Z, Digit, Watch;
  }

  lemma LeaveSpelled(m: QcsMsg)
    requires m.id == QChannelLeave
    ensures Tag(m.id) + Pieces(Format(m.id), m) == Spelled(m)
  {
    Pieces3(Str(Src), Hash(Chan), Tail('0'), m);
    Regroup("5", Z(m.src), "#" + Z(m.chan), "0", "", "");
    Regroup("5" + Z(m.src), "#", Z(m.chan), "", "", "");
    assert ['0'] == "0";
    hide Pieces, Z, Digit, Watch;
  }

  lemma AcksSpelled(m: QcsMsg)
    requires m.id in {QRefreshAck, QMessageAck}
    ensures Tag(m.id) + Pieces(Format(m.id), m) == Spelled(m)
  {
    assert ['0'] == "0";
    if m.id == QRefreshAck {
      Pieces4(Str(Dst), Str(Src), ModeChar, WatchOpt, m);
      Regroup("1", Z(m.dst), Z(m.src), Digit(m.mode), Watch(m.mode), "");
    } else {
      PiecesMore(ModeChar, L4(Str(Dst), Str(Src), Skip('0'), Str(Text)), m);
      Pieces4(Str(Dst), Str(Src), Skip('0'), Str(Text), m);
      Regroup("7", Digit(m.mode), Z(m.dst), Z(m.src), "0", Z(m.text));
    }
    hide Pieces, Z, Digit, Watch;
  }

  lemma InfoSpelled(m: QcsMsg)
    requires m.id == QInfoReply
    ensures Tag(m.id) + Pieces(Format(m.id), m) == Spelled(m)
  {
    var l4 := L4(Filler("0 %"), Filler("0 Kb"), Str(Chan), Str(Supp));
    var l5 := Then(Filler("QcProto1.6"), l4);
    Pieces4(Filler("0 %"), Filler("0 Kb"), Str(Chan), Str(Supp), m);
    PiecesMore(Filler("QcProto1.6"), l4, m);
    PiecesMore(Str(Text), l5, m);
    PiecesMore(Str(Src), Then(Str(Text), l5), m);
    PiecesMore(Str(Dst), Then(Str(Src), Then(Str(Text), l5)), m);
    assert "QcProto1.6" + "\0" == "QcProto1.6\0" && "0 %" + "\0" == "0 %\0" && "0 Kb" + "\0" == "0 Kb\0";
    hide Pieces, Z;
    var a, b, c := Z(m.dst), Z(m.src), Z(m.text);
    Regroup("G", a, b, c, Pieces(l5, m), "");
    Regroup("G" + a + b + c, "QcProto1.6\0", "0 %\0", "0 Kb\0", Z(m.chan), Z(m.supp));
  }

  /** Whatever can be written is written like this. */
  lemma QchatBytes(m: QcsMsg)
    ensures MakeQchat(m).ok ==> MakeQchat(m).bytes == Spelled(m)
  {
    hide Pieces, Spelled, Format, Tag, Encode;
    if MakeQchat(m).ok {
      PiecesAre(Format(m.id), m);
      match m.id
      case QInfoReply => InfoSpelled(m);
      case QRefreshAck | QMessageAck => AcksSpelled(m);
      case QChannelLeave => LeaveSpelled(m);
      case QChannelJoin => JoinSpelled(m);
      case QChannelBroadcast | QChannelMe | QTopicReply => LineSpelled(m.id, m);
      case QWatchChange | QTopicChange | QInfoRequest | QChanlistReply | QBeepSend => TwoSpelled(m.id, m);
      case QRefreshRequest | QChanmemberRequest | QChanlistRequest => OneSpelled(m.id, m);
      case QInvalid =>
      case _ => ThreeSpelled(m.id, m);
    }
  }

  /** On a Vypress net there is a header of an X and a signature of nine letters in front. */
  lemma VypressBytes(m: QcsMsg, signature: string)
    ensures VypressModel.MakeVypress(m, signature).ok ==>
      VypressModel.MakeVypress(m, signature).bytes == "X" + signature + SpelledByVypress(m)
  {
    if VypressModel.MakeVypress(m, signature).ok {
      if VypressModel.OwnFormat(m.id) {
        PiecesAre(VypressModel.VypressFormat(m.id), m);
        OwnSpelled(m);
      } else {
        QchatBytes(m);
      }
      hide Encode, Pieces, Spelled, MakeQchat, Z;
    }
  }

  lemma OwnSpelled(m: QcsMsg)
    requires VypressModel.OwnFormat(m.id)
    ensures [VypressModel.OwnTag(m.id)] + Pieces(VypressModel.VypressFormat(m.id), m) == SpelledByVypress(m)
  {
    if m.id == QTopicChange {
      Pieces2(Hash(Chan), Str(Text), m);
      Regroup("B", "#" + Z(m.chan), Z(m.text), "", "", "");
      Regroup("B", "#", Z(m.chan), "", "", "");
      assert "B" + "#" == "B#";
    } else if m.id == QTopicReply {
      Pieces3(Str(Dst), Hash(Chan), Str(Text), m);
      Regroup("C", Z(m.dst), "#" + Z(m.chan), Z(m.text), "", "");
      Regroup("C" + Z(m.dst), "#", Z(m.chan), "", "", "");
    } else {
      OwnInfoSpelled(m);
    }
    hide Pieces, Z;
  }

  lemma OwnInfoSpelled(m: QcsMsg)
    requires m.id == QInfoReply
    ensures "G" + Pieces(VypressModel.VypressFormat(m.id), m) == SpelledByVypress(m)
  {
    var l4 := L4(Filler("VcProto1.0"), Filler("0.0.0.0"), Str(Chan), Str(Supp));
    Pieces4(Filler("VcProto1.0"), Filler("0.0.0.0"), Str(Chan), Str(Supp), m);
    PiecesMore(Str(Text), l4, m);
    PiecesMore(Str(Src), Then(Str(Text), l4), m);
    PiecesMore(Str(Dst), Then(Str(Src), Then(Str(Text), l4)), m);
    assert "VcProto1.0" + "\0" == "VcProto1.0\0" && "0.0.0.0" + "\0" == "0.0.0.0\0";
    hide Pieces, Z;
    var a, b, c := Z(m.dst), Z(m.src), Z(m.text);
    Regroup("G", a, b, c, Pieces(l4, m), "");
    Regroup("G" + a + b + c, "VcProto1.0\0", "0.0.0.0\0", Z(m.chan), Z(m.supp), "");
  }

  // ---------------------------------------------------------------- between routers

  /** The low byte first. */
  function TwoBytes(v: NetId): string { [(v % 256) as char, (v / 256) as char] }

  /** A counted string: its length with the terminator, the characters, the terminator. */
  function CountedZ(s: string): string
    requires |s| < 0xffff
  {
    TwoBytes(|s| + 1) + s + "\0"
  }

  /** A message as a router sees it, from its type on. */
  function SpelledBetweenRouters(m: RouterWire.RawMsg): string
    requires |m.dNickname| < 0xffff && |m.dChanlist| < 0xffff && |m.dText| < 0xffff
  {
    (TwoBytes(m.kind) + TwoBytes(m.src.net)) + (TwoBytes(m.src.num) + TwoBytes(m.dst.net))
    + (TwoBytes(m.dst.num) + TwoBytes(m.dNet)) + (TwoBytes(m.dUser.net) + TwoBytes(m.dUser.num))
    + (TwoBytes(m.dMeText) + TwoBytes(m.dUmode))
    + CountedZ(m.dNickname) + CountedZ(m.dChanlist) + CountedZ(m.dText)
  }

  /** A long of four bytes has the low one first; one of eight bytes has its low half first. */
  lemma LongBytes(v: nat)
    ensures RouterWire.PutLong(v, 4)
      == [(v % 256) as char, (v / 0x100 % 256) as char, (v / 0x1_0000 % 256) as char, (v / 0x100_0000 % 256) as char]
    ensures RouterWire.PutLong(v, 8) == RouterWire.PutLong(v, 4) + RouterWire.PutLong(v / 0x1_0000_0000, 4)
  {
    hide RouterWire.PutLong;
    LongParts(v);
    LongHalves(v);
  }

  lemma LongHalves(v: nat)
    ensures RouterWire.PutLong(v, 8) == RouterWire.PutLong(v, 4) + RouterWire.PutLong(v / 0x1_0000_0000, 4)
  {
    hide RouterWire.PutLong;
    var a, b, c, d := v / 256, v / 0x1_0000, v / 0x100_0000, v / 0x1_0000_0000;
    assert a / 256 == b && b / 256 == c && c / 256 == d;
    LongParts(v);
    LongFrom(v, 8);
    LongFrom(a, 7);
    LongFrom(b, 6);
    LongFrom(c, 5);
  }

  lemma LongFrom(v: nat, width: nat)
    requires width > 0
    ensures RouterWire.PutLong(v, width) == [(v % 256) as char] + RouterWire.PutLong(v / 256, width - 1)
  {
  }

  lemma LongParts(v: nat)
    ensures RouterWire.PutLong(v, 4)
      == [(v % 256) as char, (v / 0x100 % 256) as char, (v / 0x1_0000 % 256) as char, (v / 0x100_0000 % 256) as char]
  {
    var a, b, c := v / 256, v / 0x1_0000, v / 0x100_0000;
    assert RouterWire.PutLong(c / 256, 0) == "";
    hide RouterWire.PutLong;
    assert a / 256 == b && b / 256 == c;
    LongFrom(v, 4);
    LongFrom(a, 3);
    LongFrom(b, 2);
    LongFrom(c, 1);
  }

  lemma ShortSpelled(v: NetId)
    ensures RouterWire.PutShort(v) == TwoBytes(v)
  {
  }

  lemma TextSpelled(t: string, width: nat)
    requires |t| < 0xffff
    ensures RouterWire.PutItem(RouterWire.Text(t), width) == CountedZ(t)
  {
    ShortSpelled(|t| + 1);
    assert [NUL] == "\0";
  }

  /** The rest of the items, one after the other. */
  lemma ItemsFrom(items: seq<RouterWire.Item>, k: nat, width: nat)
    requires k < |items|
    ensures RouterWire.PutItems(items[k..], width)
         == RouterWire.PutItem(items[k], width) + RouterWire.PutItems(items[k + 1..], width)
  {
    assert items[k..][1..] == items[k + 1..];
  }

  lemma ShortsSpelled(items: seq<RouterWire.Item>, k: nat, width: nat)
    requires k + 1 < |items| && items[k].Short? && items[k + 1].Short?
    ensures RouterWire.PutItems(items[k..], width)
         == TwoBytes(items[k].s) + TwoBytes(items[k + 1].s) + RouterWire.PutItems(items[k + 2..], width)
  {
    ItemsFrom(items, k, width);
    ItemsFrom(items, k + 1, width);
    ShortSpelled(items[k].s);
    ShortSpelled(items[k + 1].s);
    hide TwoBytes, RouterWire.PutItems;
  }

  lemma TextsSpelled(items: seq<RouterWire.Item>, width: nat)
    requires |items| == 14 && items[11].Text? && items[12].Text? && items[13].Text?
    requires |items[11].t| < 0xffff && |items[12].t| < 0xffff && |items[13].t| < 0xffff
    ensures RouterWire.PutItems(items[11..], width)
         == CountedZ(items[11].t) + CountedZ(items[12].t) + CountedZ(items[13].t)
  {
    ItemsFrom(items, 11, width);
    ItemsFrom(items, 12, width);
    ItemsFrom(items, 13, width);
    TextSpelled(items[11].t, width);
    TextSpelled(items[12].t, width);
    TextSpelled(items[13].t, width);
    assert items[14..] == [];
    assert RouterWire.PutItems([], width) == "";
    hide CountedZ, RouterWire.PutItem, RouterWire.PutItems;
    var a, b, c := CountedZ(items[11].t), CountedZ(items[12].t), CountedZ(items[13].t);
    assert c + "" == c;
    Regroup(a, b, c, "", "", "");
  }

  /** On the link: the length in two bytes, the id, and the fields in this order. */
  lemma RouterBytes(m: RouterWire.RawMsg, width: nat)
    requires RouterWire.InRange(m, width) && width in {4, 8}
    ensures var body := RouterWire.PutLong(m.id, width) + SpelledBetweenRouters(m);
      |body| < 0x10000 && RouterWire.Frame(m, width) == TwoBytes(|body|) + body
  {
    hide RouterWire.Encode, SpelledBetweenRouters, RouterWire.SizeOfMsg, TwoBytes, RouterWire.PutShort;
    RouterWire.EncodedFits(m, width);
    EncodingSpelled(m, width);
    ShortSpelled(|RouterWire.Encode(m, width)|);
  }

  lemma Flat(a: string, b: string, c: string, d: string, e: string, t: string, u: string, v: string)
    ensures a + (b + (c + (d + (e + (t + u + v))))) == a + b + c + d + e + t + u + v
  {
    Regroup(a, b, c, d, e, "");
    assert a + (b + (c + (d + (e + (t + u + v))))) == a + b + c + d + e + (t + u + v);
    assert a + b + c + d + e + (t + u + v) == a + b + c + d + e + t + u + v;
  }

  /** The ten numbers behind the id, in pairs, and then the texts. */
  lemma PairsSpelled(r: seq<RouterWire.Item>, width: nat)
    requires |r| == 14 && forall k :: 1 <= k <= 10 ==> r[k].Short?
    ensures RouterWire.PutItems(r, width) == RouterWire.PutItem(r[0], width)
         + ((TwoBytes(r[1].s) + TwoBytes(r[2].s)) + ((TwoBytes(r[3].s) + TwoBytes(r[4].s))
         + ((TwoBytes(r[5].s) + TwoBytes(r[6].s)) + ((TwoBytes(r[7].s) + TwoBytes(r[8].s))
         + ((TwoBytes(r[9].s) + TwoBytes(r[10].s)) + RouterWire.PutItems(r[11..], width))))))
  {
    hide RouterWire.PutItems, RouterWire.PutItem, TwoBytes;
    assert r[0..] == r;
    ItemsFrom(r, 0, width);
    ShortsSpelled(r, 1, width);
    ShortsSpelled(r, 3, width);
    ShortsSpelled(r, 5, width);
    ShortsSpelled(r, 7, width);
    ShortsSpelled(r, 9, width);
  }

  lemma EncodingSpelled(m: RouterWire.RawMsg, width: nat)
    requires RouterWire.InRange(m, width)
    ensures RouterWire.Encode(m, width) == RouterWire.PutLong(m.id, width) + SpelledBetweenRouters(m)
  {
    hide RouterWire.PutItems, TwoBytes, CountedZ, RouterWire.PutLong;
    var r := RouterWire.Items(m);
    PairsSpelled(r, width);
    TextsSpelled(r, width);
    Flat(TwoBytes(r[1].s) + TwoBytes(r[2].s), TwoBytes(r[3].s) + TwoBytes(r[4].s), TwoBytes(r[5].s) + TwoBytes(r[6].s),
      TwoBytes(r[7].s) + TwoBytes(r[8].s), TwoBytes(r[9].s) + TwoBytes(r[10].s),
      CountedZ(r[11].t), CountedZ(r[12].t), CountedZ(r[13].t));
  }

  /** The numbers of the types and modes. */
  lemma NumbersAreFixed()
    ensures forall k :: RouterWire.KindCode(k) == match k {
      case TypeInvalid => 0 case TypeNull => 1 case Handshake => 2
      case NetNew => 3 case NetLost => 4 case NetEnumEnds => 5
      case Ping => 6 case Pong => 7
      case UserNew => 8 case UserNickchange => 9 case UserModechange => 10 case UserLost => 11
      case UserEnumRequest => 12
      case ChannelJoin => 13 case ChannelLeave => 14 case ChannelText => 15
      case PrivateOpen => 16 case PrivateClose => 17 case PrivateText => 18
      case PmsgSend => 19 case PmsgAck => 20 case Beep => 21 case BeepAck => 22
      case TopicChange => 23
    }
    ensures forall u :: RouterWire.ModeCode(u) == match u {
      case ModeInvalid => 0 case ModeNormal => 2 case ModeDnd => 4 case ModeAway => 6 case ModeOffline => 8
    }
  {
  }
}
