/** What routers say to each other, byte by byte: little-endian numbers, counted strings, frames
  * with a length in front. */
module RouterWire {
  import opened Basics
  import opened Messages
  import opened ChanList

  const QNET_MSG_TEXT_LEN := 511

  /** A message as its C structure holds it: type and mode are numbers nobody has checked. */
  datatype RawMsg = RawMsg(
    id: nat,
    kind: NetId,
    src: UserId,
    dst: UserId,
    dNet: NetId,
    dUser: UserId,
    dMeText: NetId,
    dUmode: NetId,
    dNickname: string,
    dChanlist: string,
    dText: string)

  /** The values that go over the wire, in order. */
  datatype Item = Long(v: nat) | Short(s: NetId) | Text(t: string)

  /** What is expected of them; a text has the capacity of the array it is copied to. */
  datatype Kind = KLong | KShort | KText(cap: nat)

  const KINDS: seq<Kind> :=
    [KLong, KShort, KShort, KShort, KShort, KShort, KShort, KShort, KShort, KShort, KShort,
     KText(NICKNAME_LEN_MAX + 1), KText(CHANLIST_LEN_MAX + 1), KText(QNET_MSG_TEXT_LEN + 1)]

  function Items(m: RawMsg): (r: seq<Item>)
    ensures |r| == |KINDS|
  {
    [Long(m.id), Short(m.kind), Short(m.src.net), Short(m.src.num), Short(m.dst.net), Short(m.dst.num),
     Short(m.dNet), Short(m.dUser.net), Short(m.dUser.num), Short(m.dMeText), Short(m.dUmode),
     Text(m.dNickname), Text(m.dChanlist), Text(m.dText)]
  }

  // ---------------------------------------------------------------- numbers

  function Pow256(n: nat): nat { if n == 0 then 1 else 256 * Pow256(n - 1) }

  /** A byte on the wire is a char below 256; of any other char the low eight bits count. */
  function Byte(v: nat): char { (v % 256) as char }

  function ByteOf(c: char): (v: nat)
    ensures v < 256
  {
    c as int % 256
  }

  function PutLong(v: nat, width: nat): (s: string)
    ensures |s| == width
  {
    if width == 0 then "" else [Byte(v)] + PutLong(v / 256, width - 1)
  }

  function GetLong(s: string): nat { if s == "" then 0 else ByteOf(s[0]) + 256 * GetLong(s[1..]) }

  function PutShort(v: NetId): (s: string)
    ensures |s| == 2
  {
    [Byte(v), Byte(v / 256)]
  }

  function GetShort(s: string): NetId
    requires |s| >= 2
  {
    ByteOf(s[0]) + 256 * ByteOf(s[1])
  }

  lemma ShortRoundTrip(v: NetId, more: string)
    ensures GetShort(PutShort(v) + more) == v
  {
  }

  lemma {:induction false} LongRoundTrip(v: nat, width: nat)
    requires v < Pow256(width)
    ensures GetLong(PutLong(v, width)) == v
  {
    if width > 0 {
      LongRoundTrip(v / 256, width - 1);
      assert PutLong(v, width)[1..] == PutLong(v / 256, width - 1);
    }
  }

  lemma {:induction false} GetLongFits(s: string)
    ensures GetLong(s) < Pow256(|s|)
  {
    if s != "" { GetLongFits(s[1..]); }
  }

  // ---------------------------------------------------------------- writing

  /** WR_LONG, WR_SHORT and WR_STR; width is the size of a long. */
  function PutItem(i: Item, width: nat): string {
    match i
    case Long(v) => PutLong(v, width)
    case Short(v) => PutShort(v)
    case Text(t) => PutShort((|t| + 1) % 0x10000) + t + [NUL]
  }

  function PutItems(items: seq<Item>, width: nat): string {
    if items == [] then "" else PutItem(items[0], width) + PutItems(items[1..], width)
  }

  function Encode(m: RawMsg, width: nat): string { PutItems(Items(m), width) }

  // ---------------------------------------------------------------- reading

  /** A text longer than its array, or without a terminator, is copied all the same: what happens
    * then the C language does not say. */
  datatype Got<T> = Got(value: T) | Broken | Undefined

  /** The text up to its terminator, of what was copied to an array that was empty before. */
  function CString(s: string): string {
    if NUL in s then s[..IndexOf(s, NUL)] else ""
  }

  predicate Copies(s: string, cap: nat) { s == "" || (|s| <= cap && NUL in s) }

  /** RD_LONG, RD_SHORT and RD_STR, behind the values read so far. */
  function GetItems(kinds: seq<Kind>, s: string, width: nat, done: seq<Item>): Got<seq<Item>> {
    if kinds == [] then Got(done)
    else
      match kinds[0]
      case KLong =>
        if |s| < width then Broken else GetItems(kinds[1..], s[width..], width, done + [Long(GetLong(s[..width]))])
      case KShort =>
        if |s| < 2 then Broken else GetItems(kinds[1..], s[2..], width, done + [Short(GetShort(s))])
      case KText(cap) =>
        if |s| < 2 || |s| - 2 < GetShort(s) then Broken
        else
          var n := 2 + GetShort(s);
          if !Copies(s[2..n], cap) then Undefined
          else GetItems(kinds[1..], s[n..], width, done + [Text(CString(s[2..n]))])
  }

  predicate OfKinds(items: seq<Item>, kinds: seq<Kind>) {
    && |items| == |kinds|
    && forall i :: 0 <= i < |kinds| ==> OfKind(items[i], kinds[i])
  }

  predicate OfKind(i: Item, k: Kind) {
    match k
    case KLong => i.Long?
    case KShort => i.Short?
    case KText(_) => i.Text?
  }

  function FromItems(r: seq<Item>): (m: RawMsg)
    requires OfKinds(r, KINDS)
    ensures Items(m) == r
  {
    assert OfKind(r[0], KINDS[0]) && OfKind(r[1], KINDS[1]) && OfKind(r[2], KINDS[2]) && OfKind(r[3], KINDS[3]);
    assert OfKind(r[4], KINDS[4]) && OfKind(r[5], KINDS[5]) && OfKind(r[6], KINDS[6]) && OfKind(r[7], KINDS[7]);
    assert OfKind(r[8], KINDS[8]) && OfKind(r[9], KINDS[9]) && OfKind(r[10], KINDS[10]) && OfKind(r[11], KINDS[11]);
    assert OfKind(r[12], KINDS[12]) && OfKind(r[13], KINDS[13]);
    RawMsg(r[0].v, r[1].s, UserId(r[2].s, r[3].s), UserId(r[4].s, r[5].s), r[6].s, UserId(r[7].s, r[8].s),
      r[9].s, r[10].s, r[11].t, r[12].t, r[13].t)
  }

  function Decode(s: string, width: nat): Got<RawMsg> {
    var r := GetItems(KINDS, s, width, []);
    if r.Got? then
      GotKinds(KINDS, s, width, []);
      Got(FromItems(r.value))
    else if r.Broken? then Broken
    else Undefined
  }

  lemma {:induction false} GotKinds(kinds: seq<Kind>, s: string, width: nat, done: seq<Item>)
    requires GetItems(kinds, s, width, done).Got?
    ensures var r := GetItems(kinds, s, width, done).value;
      |r| == |done| + |kinds| && r[..|done|] == done && OfKinds(r[|done|..], kinds)
    ensures forall i :: |done| <= i < |done| + |kinds| ==>
      ItemFits(GetItems(kinds, s, width, done).value[i], kinds[i - |done|], width)
    decreases kinds
  {
    if kinds != [] {
      var r := GetItems(kinds, s, width, done).value;
      var i, t := FirstItem(kinds[0], s, width);
      assert r == GetItems(kinds[1..], t, width, done + [i]).value;
      GotKinds(kinds[1..], t, width, done + [i]);
      assert r[|done|] == (done + [i])[|done|] == i;
      assert r[..|done|] == r[..|done| + 1][..|done|] == done;
      forall j | 0 <= j < |kinds| ensures OfKind(r[|done|..][j], kinds[j]) && ItemFits(r[|done| + j], kinds[j], width) {
        if j > 0 {
          assert r[|done|..][j] == r[|done| + 1..][j - 1];
          assert OfKind(r[|done + [i]|..][j - 1], kinds[1..][j - 1]);
          assert ItemFits(r[|done| + j], kinds[1..][|done| + j - |done + [i]|], width);
        }
      }
    }
  }

  /** A value that its field of the C structure can hold. */
  predicate ItemFits(i: Item, k: Kind, width: nat) {
    match k
    case KLong => i.Long? && i.v < Pow256(width)
    case KShort => i.Short?
    case KText(cap) => i.Text? && NUL !in i.t && (|i.t| < cap || i.t == "")
  }

  /** The first value, and what is left. */
  lemma FirstItem(k: Kind, s: string, width: nat) returns (i: Item, rest: string)
    requires match k {
      case KLong => |s| >= width
      case KShort => |s| >= 2
      case KText(cap) => |s| >= 2 && |s| - 2 >= GetShort(s) && Copies(s[2..2 + GetShort(s)], cap)
    }
    ensures match k {
      case KLong => i == Long(GetLong(s[..width])) && rest == s[width..]
      case KShort => i == Short(GetShort(s)) && rest == s[2..]
      case KText(_) => i == Text(CString(s[2..2 + GetShort(s)])) && rest == s[2 + GetShort(s)..]
    }
    ensures ItemFits(i, k, width) && OfKind(i, k)
  {
    match k
    case KLong =>
      i, rest := Long(GetLong(s[..width])), s[width..];
      GetLongFits(s[..width]);
    case KShort => i, rest := Short(GetShort(s)), s[2..];
    case KText(cap) =>
      var piece := s[2..2 + GetShort(s)];
      i, rest := Text(CString(piece)), s[2 + GetShort(s)..];
  }

  // ---------------------------------------------------------------- round trip

  /** Every field within what its C type and array can hold. */
  predicate InRange(m: RawMsg, width: nat) {
    && m.id < Pow256(width)
    && |m.dNickname| <= NICKNAME_LEN_MAX && NUL !in m.dNickname
    && |m.dChanlist| <= CHANLIST_LEN_MAX && NUL !in m.dChanlist
    && |m.dText| <= QNET_MSG_TEXT_LEN && NUL !in m.dText
  }

  lemma CStringBack(t: string)
    requires NUL !in t
    ensures CString(t + [NUL]) == t
  {
    var piece := t + [NUL];
    assert piece[|t|] == NUL && piece[..|t|] == t;
  }

  lemma TextRoundTrip(t: string, more: string)
    requires NUL !in t && |t| < 0xffff
    ensures var s := PutItem(Text(t), 0) + more;
      && |s| >= 2 && GetShort(s) == |t| + 1 <= |s| - 2
      && CString(s[2..2 + GetShort(s)]) == t && s[2 + GetShort(s)..] == more
  {
    hide CString;
    var s := PutItem(Text(t), 0) + more;
    assert s == PutShort(|t| + 1) + (t + [NUL] + more);
    ShortRoundTrip(|t| + 1, t + [NUL] + more);
    hide PutShort, GetShort, PutItem;
    assert s[2..2 + GetShort(s)] == t + [NUL];
    CStringBack(t);
  }

  lemma ItemRoundTrip(i: Item, kinds: seq<Kind>, width: nat, tail: string, done: seq<Item>)
    requires kinds != [] && ItemFits(i, kinds[0], width) && (kinds[0].KText? ==> 0 < kinds[0].cap < 0xffff)
    ensures GetItems(kinds, PutItem(i, width) + tail, width, done) == GetItems(kinds[1..], tail, width, done + [i])
  {
    hide IndexOf;
    var s := PutItem(i, width) + tail;
    match i
    case Long(v) =>
      LongRoundTrip(v, width);
      assert s[..width] == PutLong(v, width) && s[width..] == tail;
    case Short(v) =>
      ShortRoundTrip(v, tail);
      assert s[2..] == tail;
    case Text(t) =>
      TextRoundTrip(t, tail);
      assert s == PutItem(Text(t), 0) + tail;
      assert NUL in s[2..2 + GetShort(s)] by { assert s[2..2 + GetShort(s)][|t|] == NUL; }
  }

  lemma {:induction false} ItemsRoundTrip(items: seq<Item>, kinds: seq<Kind>, width: nat, more: string, done: seq<Item>)
    requires |items| == |kinds|
    requires forall i :: 0 <= i < |kinds| ==> ItemFits(items[i], kinds[i], width)
    requires forall i :: 0 <= i < |kinds| && kinds[i].KText? ==> 0 < kinds[i].cap < 0xffff
    ensures GetItems(kinds, PutItems(items, width) + more, width, done) == Got(done + items)
    decreases |items|
  {
    hide PutItem, ItemFits;
    if items == [] {
      assert done + items == done;
    } else {
      hide GetItems;
      var tail := PutItems(items[1..], width) + more;
      assert PutItems(items, width) + more == PutItem(items[0], width) + tail;
      ItemRoundTrip(items[0], kinds, width, tail, done);
      ItemsRoundTrip(items[1..], kinds[1..], width, more, done + [items[0]]);
      assert done + [items[0]] + items[1..] == done + items;
    }
  }

  lemma RangeFits(m: RawMsg, width: nat)
    requires InRange(m, width)
    ensures forall i :: 0 <= i < |KINDS| ==> ItemFits(Items(m)[i], KINDS[i], width)
  {
  }

  /** Decoding an encoded message gives all its fields back, even with more behind it. */
  lemma MsgRoundTrip(m: RawMsg, width: nat, more: string)
    requires InRange(m, width)
    ensures Decode(Encode(m, width) + more, width) == Got(m)
  {
    RangeFits(m, width);
    ItemsRoundTrip(Items(m), KINDS, width, more, []);
    var r := GetItems(KINDS, Encode(m, width) + more, width, []);
    assert r.value == Items(m);
    GotKinds(KINDS, Encode(m, width) + more, width, []);
    assert Items(FromItems(r.value)) == Items(m);
    SameItems(FromItems(r.value), m);
  }

  lemma SameItems(a: RawMsg, b: RawMsg)
    requires Items(a) == Items(b)
    ensures a == b
  {
    assert Items(a)[0] == Items(b)[0] && Items(a)[1] == Items(b)[1] && Items(a)[2] == Items(b)[2];
    assert Items(a)[3] == Items(b)[3] && Items(a)[4] == Items(b)[4] && Items(a)[5] == Items(b)[5];
    assert Items(a)[6] == Items(b)[6] && Items(a)[7] == Items(b)[7] && Items(a)[8] == Items(b)[8];
    assert Items(a)[9] == Items(b)[9] && Items(a)[10] == Items(b)[10] && Items(a)[11] == Items(b)[11];
    assert Items(a)[12] == Items(b)[12] && Items(a)[13] == Items(b)[13];
  }

  /** Whatever arrives, a message that was decoded can be sent on. */
  lemma DecodedInRange(s: string, width: nat)
    requires Decode(s, width).Got?
    ensures InRange(Decode(s, width).value, width)
  {
    var r := GetItems(KINDS, s, width, []).value;
    var m := Decode(s, width).value;
    GotKinds(KINDS, s, width, []);
    assert Items(m) == r;
    assert ItemFits(r[0], KINDS[0], width);
    assert ItemFits(r[11], KINDS[11], width) && ItemFits(r[12], KINDS[12], width) && ItemFits(r[13], KINDS[13], width);
  }

  // ---------------------------------------------------------------- size

  function RoundUp(n: nat, unit: nat): nat
    requires unit > 0
  {
    (n + unit - 1) / unit * unit
  }

  /** sizeof(qnet_msg) where pointers and longs have the given size, and an enum has four bytes. */
  function SizeOfMsg(width: nat): nat
    requires width > 0
  {
    var header := width + width + 4 + 4 + 4;      // src_qnet, id, type, src, dst
    var umode := RoundUp(header + 2 + 4 + 2, 4);  // behind d_net, d_user and d_me_text
    RoundUp(umode + 4 + (NICKNAME_LEN_MAX + 1) + (CHANLIST_LEN_MAX + 1) + (QNET_MSG_TEXT_LEN + 1), width)
  }

  function ItemSize(i: Item, width: nat): nat {
    match i
    case Long(_) => width
    case Short(_) => 2
    case Text(t) => 3 + |t|
  }

  lemma {:induction false} ShortsSize(items: seq<Item>, n: nat, width: nat)
    requires n <= |items| && forall i :: 0 <= i < n ==> items[i].Short?
    ensures |PutItems(items, width)| == 2 * n + |PutItems(items[n..], width)|
  {
    if n == 0 {
      assert items[n..] == items;
    } else {
      ShortsSize(items[1..], n - 1, width);
      assert items[1..][n - 1..] == items[n..];
    }
  }

  lemma PutItemsSize(items: seq<Item>, k: nat, width: nat)
    requires k < |items|
    ensures |PutItems(items[k..], width)| == ItemSize(items[k], width) + |PutItems(items[k + 1..], width)|
  {
    assert items[k..][1..] == items[k + 1..];
  }

  /** The length of an encoded message. */
  lemma EncodedLength(m: RawMsg, width: nat)
    ensures |Encode(m, width)| == width + 20 + 9 + |m.dNickname| + |m.dChanlist| + |m.dText|
  {
    NumbersLength(m, width);
    TextsLength(m, width);
  }

  lemma NumbersLength(m: RawMsg, width: nat)
    ensures |Encode(m, width)| == width + 20 + |PutItems(Items(m)[11..], width)|
  {
    hide PutItems;
    var r := Items(m);
    assert r[0..] == r && r[1..][10..] == r[11..];
    PutItemsSize(r, 0, width);
    ShortsSize(r[1..], 10, width);
  }

  lemma TextsLength(m: RawMsg, width: nat)
    ensures |PutItems(Items(m)[11..], width)| == 9 + |m.dNickname| + |m.dChanlist| + |m.dText|
  {
    assert |PutItems([], width)| == 0;
    hide PutItems;
    var r := Items(m);
    assert r[14..] == [];
    PutItemsSize(r, 11, width);
    PutItemsSize(r, 12, width);
    PutItemsSize(r, 13, width);
  }

  /** A message that is in range fits the buffer of sizeof(qnet_msg) bytes it is built in, and its
    * length fits the two bytes in front of the frame. */
  lemma EncodedFits(m: RawMsg, width: nat)
    requires InRange(m, width) && width in {4, 8}
    ensures |Encode(m, width)| <= SizeOfMsg(width) < 0x10000
    ensures SizeOfMsg(4) == 1088 && SizeOfMsg(8) == 1096
  {
    EncodedLength(m, width);
    assert RoundUp(8 + 12 + 8, 4) == 28 && RoundUp(28 + 4 + 1056, 4) == 1088;
    assert RoundUp(16 + 12 + 8, 4) == 36 && RoundUp(36 + 4 + 1056, 8) == 1096;
  }

  // ---------------------------------------------------------------- frames

  function Frame(m: RawMsg, width: nat): string {
    PutShort(|Encode(m, width)| % 0x10000) + Encode(m, width)
  }

  function Frames(ms: seq<RawMsg>, width: nat): string {
    if ms == [] then "" else Frame(ms[0], width) + Frames(ms[1..], width)
  }

  /** What a receiver makes of a stream: the messages, whether the link is damaged, and what it has
    * not read. A frame that is broken is dropped; one that is too long damages the link. */
  datatype Stream = Stream(ms: seq<RawMsg>, damaged: bool, unread: string)

  /** Whether a whole frame has arrived, or one that is going to be refused. */
  predicate Complete(s: string, width: nat)
    requires width > 0
  {
    |s| >= 2 && (GetShort(s) > SizeOfMsg(width) || |s| - 2 >= GetShort(s))
  }

  function ReadStream(s: string, width: nat, ms: seq<RawMsg>): Stream
    requires width > 0
    decreases |s|
  {
    if !Complete(s, width) then Stream(ms, false, s)
    else if GetShort(s) > SizeOfMsg(width) then Stream(ms, true, s[2..])
    else
      var n := 2 + GetShort(s);
      var r := Decode(s[2..n], width);
      ReadStream(s[n..], width, if r.Got? then ms + [r.value] else ms)
  }

  /** One frame is taken off the stream as the message it was made of. */
  lemma FrameRoundTrip(m: RawMsg, width: nat, tail: string, before: seq<RawMsg>)
    requires width in {4, 8} && InRange(m, width)
    ensures ReadStream(Frame(m, width) + tail, width, before) == ReadStream(tail, width, before + [m])
  {
    hide Decode, Encode, SizeOfMsg, InRange, PutShort, GetShort;
    var body := Encode(m, width);
    var s := Frame(m, width) + tail;
    EncodedFits(m, width);
    assert s == PutShort(|body|) + (body + tail);
    ShortRoundTrip(|body|, body + tail);
    assert s[2..2 + |body|] == body && s[2 + |body|..] == tail;
    MsgRoundTrip(m, width, "");
    assert body + "" == body;
  }

  /** A stream of frames decodes to the messages that were sent, in order, up to what follows. */
  lemma {:induction false} StreamRoundTrip(ms: seq<RawMsg>, width: nat, more: string, before: seq<RawMsg>)
    requires width in {4, 8} && forall i :: 0 <= i < |ms| ==> InRange(ms[i], width)
    ensures ReadStream(Frames(ms, width) + more, width, before) == ReadStream(more, width, before + ms)
    decreases |ms|
  {
    hide InRange, Frame, ReadStream;
    if ms == [] {
      assert Frames(ms, width) + more == more && before + ms == before;
    } else {
      var tail := Frames(ms[1..], width) + more;
      assert Frames(ms, width) + more == Frame(ms[0], width) + tail;
      FrameRoundTrip(ms[0], width, tail, before);
      StreamRoundTrip(ms[1..], width, more, before + [ms[0]]);
      assert before + [ms[0]] + ms[1..] == before + ms;
    }
  }

  /** With nothing behind them the frames are read to the end and the link stays sound. */
  lemma WholeStream(ms: seq<RawMsg>, width: nat)
    requires width in {4, 8} && forall i :: 0 <= i < |ms| ==> InRange(ms[i], width)
    ensures ReadStream(Frames(ms, width), width, []) == Stream(ms, false, "")
  {
    StreamRoundTrip(ms, width, "", []);
    assert Frames(ms, width) + "" == Frames(ms, width) && [] + ms == ms;
  }

  // ---------------------------------------------------------------- types and modes as numbers

  const KIND_ORDER: seq<MsgType> :=
    [TypeInvalid, TypeNull, Handshake, NetNew, NetLost, NetEnumEnds, Ping, Pong, UserNew, UserNickchange,
     UserModechange, UserLost, UserEnumRequest, ChannelJoin, ChannelLeave, ChannelText, PrivateOpen, PrivateClose,
     PrivateText, PmsgSend, PmsgAck, Beep, BeepAck, TopicChange]

  function KindCode(k: MsgType): NetId {
    match k
    case TypeInvalid => 0 case TypeNull => 1 case Handshake => 2 case NetNew => 3 case NetLost => 4
    case NetEnumEnds => 5 case Ping => 6 case Pong => 7 case UserNew => 8 case UserNickchange => 9
    case UserModechange => 10 case UserLost => 11 case UserEnumRequest => 12 case ChannelJoin => 13
    case ChannelLeave => 14 case ChannelText => 15 case PrivateOpen => 16 case PrivateClose => 17
    case PrivateText => 18 case PmsgSend => 19 case PmsgAck => 20 case Beep => 21 case BeepAck => 22
    case TopicChange => 23
  }

  function ModeCode(u: Umode): NetId {
    match u
    case ModeInvalid => 0 case ModeNormal => 2 case ModeDnd => 4 case ModeAway => 6 case ModeOffline => 8
  }

  /** A number that is no type of this version stays without meaning. */
  function KindOf(n: NetId): Option<MsgType> { if n < |KIND_ORDER| then Some(KIND_ORDER[n]) else None }

  function ModeFrom(n: NetId): Option<Umode> {
    if n == 0 then Some(ModeInvalid) else if n == 2 then Some(ModeNormal) else if n == 4 then Some(ModeDnd)
    else if n == 6 then Some(ModeAway) else if n == 8 then Some(ModeOffline) else None
  }

  function Raw(id: nat, m: NetMsg): RawMsg {
    RawMsg(id, KindCode(m.kind), m.src, m.dst, m.dNet, m.dUser, m.dMeText, ModeCode(m.dUmode), m.dNickname, m.dChanlist,
      m.dText)
  }

  function Cooked(r: RawMsg): Option<NetMsg> {
    if KindOf(r.kind).Some? && ModeFrom(r.dUmode).Some? then
      Some(NetMsg(KindOf(r.kind).value, r.src, r.dst, r.dNet, r.dUser, r.dMeText, ModeFrom(r.dUmode).value, r.dNickname,
        r.dChanlist, r.dText))
    else None
  }

  lemma KindRoundTrip(k: MsgType)
    ensures KindOf(KindCode(k)) == Some(k)
  {
    var n := KindCode(k);
    match k
    case TypeInvalid => case TypeNull => case Handshake => case NetNew => case NetLost => case NetEnumEnds =>
    case Ping => case Pong => case UserNew => case UserNickchange => case UserModechange => case UserLost =>
    case UserEnumRequest => case ChannelJoin => case ChannelLeave => case ChannelText => case PrivateOpen =>
    case PrivateClose => case PrivateText => case PmsgSend => case PmsgAck => case Beep => case BeepAck =>
    case TopicChange =>
  }

  /** From router to router: the peer finds the message that was sent, for fields within capacity. */
  lemma NetMsgRoundTrip(id: nat, m: NetMsg, width: nat)
    requires InRange(Raw(id, m), width)
    ensures var r := Decode(Encode(Raw(id, m), width), width);
      r.Got? && r.value.id == id && Cooked(r.value) == Some(m)
  {
    hide Decode, Encode, KindCode, KindOf, InRange;
    MsgRoundTrip(Raw(id, m), width, "");
    assert Encode(Raw(id, m), width) + "" == Encode(Raw(id, m), width);
    KindRoundTrip(m.kind);
  }
}
