/** The Vypress framing on values: a header with a signature, three formats of its own and the
  * QuickChat ones for the rest, and the list of signatures seen lately. */
module VypressModel {
  import opened Basics
  import opened QcsMessage
  import opened ChanList
  import opened WireFormat

  const QCS_SIGNATURE_LENGTH := 9
  const QCS_SIGNATURE_MAX_DUP := 0x20

  // ---------------------------------------------------------------- formats

  predicate OwnFormat(id: MsgId) { IsTopic(id) || id == QInfoReply }

  function OwnTag(id: MsgId): char
    requires OwnFormat(id)
  {
    if id == QTopicChange then 'B' else if id == QTopicReply then 'C' else 'G'
  }

  function VypressFormat(id: MsgId): Layout
    requires OwnFormat(id)
  {
    if id == QTopicChange then L2(Hash(Chan), Str(Text))
    else if id == QTopicReply then L3(Str(Dst), Hash(Chan), Str(Text))
    else Then(Str(Dst), Then(Str(Src), Then(Str(Text),
      L4(Filler("VcProto1.0"), Filler("0.0.0.0"), Str(Chan), Str(Supp)))))
  }

  /** The message without its header. */
  function RawVypress(m: QcsMsg): Enc {
    if OwnFormat(m.id) then
      var e := Encode(VypressFormat(m.id), m);
      Enc(e.ok, [OwnTag(m.id)] + e.bytes)
    else MakeQchat(m)
  }

  /** qcs__make_vypress_msg with the signature that was drawn. */
  function MakeVypress(m: QcsMsg, signature: string): Enc {
    Enc(RawVypress(m).ok, ['X'] + signature + RawVypress(m).bytes)
  }

  /** A packet as the reader finds it in memory: its bytes, and the one byte that lies behind them.
    * The reader of the three own formats steps over the tag without counting it, so that byte is
    * within its reach. */
  datatype Packet = Packet(bytes: string, beyond: char)

  /** Whether the packet is long enough to carry a signature and a message. */
  predicate Signed(p: Packet) { |p.bytes| >= QCS_SIGNATURE_LENGTH + 2 }

  function Signature(p: Packet): (s: string)
    requires Signed(p)
    ensures |s| == QCS_SIGNATURE_LENGTH
  {
    p.bytes[1..QCS_SIGNATURE_LENGTH + 1]
  }

  function OwnId(c: char): MsgId {
    if c == 'B' then QTopicChange else if c == 'C' then QTopicReply else if c == 'G' then QInfoReply else QInvalid
  }

  /** What the parser proper makes of a packet. */
  function ParseBody(p: Packet, mode: int): Dec
    requires Signed(p)
  {
    var body := p.bytes[QCS_SIGNATURE_LENGTH + 1..];
    var id := OwnId(body[0]);
    if id != QInvalid then
      Decode(VypressFormat(id), body[1..] + [p.beyond], NEWMSG.(mode := mode, id := id), true)
    else ParseQchat(body, mode)
  }

  // ---------------------------------------------------------------- signatures

  /** Newest first; the oldest makes room. */
  function Register(window: seq<string>, signature: string): seq<string> {
    [signature] + Clipped(window, QCS_SIGNATURE_MAX_DUP - 1)
  }

  function Clipped(window: seq<string>, max: nat): (r: seq<string>)
    ensures |r| <= max && r <= window
  {
    if |window| <= max then window else window[..max]
  }

  /** A user who leaves Main is taken to have left the net: a client that comes back may use the
    * same signatures again. */
  predicate Flushes(p: Packet) {
    Signed(p) && OwnId(p.bytes[QCS_SIGNATURE_LENGTH + 1]) == QInvalid && (
      match ParseBody(p, UMODE_INVALID)
      case Done(m) => m.id == QChannelLeave && m.chan.Some? && IsMain(m.chan.value)
      case Fail(_) => false)
  }

  datatype Reply = Reply(ok: bool, m: QcsMsg)

  /** qcs__parse_vypress_msg: what it returns, and the signatures it remembers afterwards. */
  function ParseVypress(p: Packet, window: seq<string>, mode: int): (Reply, seq<string>) {
    var blank := NEWMSG.(mode := mode);
    if !Signed(p) then (Reply(false, blank), window)
    else if Signature(p) in window then (Reply(true, blank), window)
    else
      var d := ParseBody(p, mode);
      (Reply(d.Done?, d.m), if Flushes(p) then [] else Register(window, Signature(p)))
  }

  /** The mode a reader starts with has no say in whether the packet flushes. */
  lemma LeaveIgnoresMode(s: string, mode: int)
    requires IdOf(s) == QChannelLeave
    ensures ParseQchat(s, mode).Done? <==> ParseQchat(s, UMODE_INVALID).Done?
    ensures ParseQchat(s, mode).m.chan == ParseQchat(s, UMODE_INVALID).m.chan
  {
    hide Decode, Format, Tag;
    TagsDecide(s, QChannelLeave);
    var a := NEWMSG.(mode := mode, id := QChannelLeave);
    ModeBlind(Format(QChannelLeave), s[|Tag(QChannelLeave)|..], a, UMODE_INVALID, false);
    assert a.(mode := UMODE_INVALID) == NEWMSG.(mode := UMODE_INVALID, id := QChannelLeave);
  }

  // ---------------------------------------------------------------- the byte behind the packet

  /** A layout of strings that ends in one. */
  predicate Stringy(l: Layout) {
    l.Then? && (l.f.Str? || l.f.Hash? || l.f.Filler?) && (if l.rest.End? then l.f.Str? else Stringy(l.rest))
  }

  /** Everything is there but the terminator of the last string. */
  predicate LacksLastNul(l: Layout, s: string)
    requires Stringy(l)
    decreases l, 0
  {
    if l.f.Hash? then s != "" && s[0] == '#' && Lacks(l.rest, s[1..]) else Lacks(l.rest, s)
  }

  predicate Lacks(rest: Layout, s: string)
    requires rest.End? || Stringy(rest)
    decreases rest, 1
  {
    if rest.End? then NUL !in s else Terminated(s) && LacksLastNul(rest, s[IndexOf(s, NUL) + 1..])
  }

  lemma {:induction false} IndexBefore(s: string, b: char)
    ensures Terminated(s) ==> IndexOf(s + [b], NUL) == IndexOf(s, NUL)
    ensures !Terminated(s) ==> (Terminated(s + [b]) <==> b == NUL)
    ensures !Terminated(s) && b == NUL ==> IndexOf(s + [b], NUL) == |s|
  {
    var t := s + [b];
    var k := IndexOf(s, NUL);
    assert t[..k] == s[..k];
    if k < |s| { assert t[k] == NUL; } else { assert t[..|s|] == s && t[|s|] == b; }
  }

  /** The stray byte changes what is read exactly if it is a NUL and the packet lacks just that. */
  lemma {:induction false} OverreadExactly(l: Layout, s: string, beyond: char, acc: QcsMsg)
    requires Stringy(l)
    ensures Decode(l, s + [beyond], acc, true) != Decode(l, s, acc, true) <==> beyond == NUL && LacksLastNul(l, s)
    decreases l, 0
  {
    hide Decode, DecodeString;
    var f, rest := l.f, l.rest;
    var t := s + [beyond];
    StringField(f, rest, s, acc);
    StringField(f, rest, t, acc);
    if f.Hash? {
      if s == "" {
        if beyond == '#' {
          assert t[1..] == "" by { assert t == [beyond]; }
          NothingToRead(f, rest, acc);
        }
      } else {
        assert t[0] == s[0] && t[1..] == s[1..] + [beyond];
        OverreadString(f, rest, s[1..], beyond, acc);
      }
    } else {
      OverreadString(f, rest, s, beyond, acc);
    }
  }

  lemma NothingToRead(f: Field, rest: Layout, acc: QcsMsg)
    ensures DecodeString(f, rest, "", acc) == Fail(acc.Cleaned())
  {
  }

  lemma DecodeEnd(s: string, acc: QcsMsg)
    ensures Decode(End, s, acc, true) == Done(acc)
  {
  }

  lemma StringField(f: Field, rest: Layout, s: string, acc: QcsMsg)
    requires f.Str? || f.Hash? || f.Filler?
    ensures !f.Hash? ==> Decode(Then(f, rest), s, acc, true) == DecodeString(f, rest, s, acc)
    ensures f.Hash? && (s == "" || s[0] != '#') ==> Decode(Then(f, rest), s, acc, true) == Fail(acc.Cleaned())
    ensures f.Hash? && s != "" && s[0] == '#' ==>
      Decode(Then(f, rest), s, acc, true) == DecodeString(f, rest, s[1..], acc)
  {
    hide IndexOf;
  }

  /** What a string field makes of its text. */
  function AfterString(f: Field, text: string, acc: QcsMsg): QcsMsg {
    if f.Str? || f.Hash? then acc.Set(f.slot, Some(text)) else acc
  }

  function DecodeString(f: Field, rest: Layout, s: string, acc: QcsMsg): Dec {
    if !Terminated(s) then Fail(acc.Cleaned())
    else Decode(rest, s[IndexOf(s, NUL) + 1..], AfterString(f, s[..IndexOf(s, NUL)], acc), true)
  }

  lemma {:induction false} OverreadString(f: Field, rest: Layout, s: string, beyond: char, acc: QcsMsg)
    requires rest.End? || Stringy(rest)
    ensures DecodeString(f, rest, s + [beyond], acc) != DecodeString(f, rest, s, acc)
      <==> beyond == NUL && Lacks(rest, s)
    decreases rest, 1
  {
    hide Decode, LacksLastNul, Stringy;
    IndexBefore(s, beyond);
    var k := IndexOf(s, NUL);
    var t := s + [beyond];
    if k < |s| {
      assert t[..k] == s[..k] && t[k + 1..] == s[k + 1..] + [beyond];
      if rest.End? {
        assert NUL in s;
        DecodeEnd(t[k + 1..], AfterString(f, s[..k], acc));
        DecodeEnd(s[k + 1..], AfterString(f, s[..k], acc));
      } else {
        OverreadExactly(rest, s[k + 1..], beyond, AfterString(f, s[..k], acc));
      }
    } else if beyond == NUL {
      assert t[|s| + 1..] == "";
      if rest.End? {
        assert s[..|s|] == s && NUL !in s;
        DecodeEnd("", AfterString(f, t[..|s|], acc));
      } else {
        NothingIsNoString(rest, AfterString(f, t[..|s|], acc));
      }
    }
  }

  lemma NothingIsNoString(l: Layout, acc: QcsMsg)
    requires Stringy(l)
    ensures Decode(l, "", acc, true) == Fail(acc.Cleaned())
  {
  }

  /** A topic whose text has lost its NUL is accepted or dropped by what happens to lie behind it. */
  lemma OverreadExample(acc: QcsMsg)
    ensures var l := VypressFormat(QTopicChange);
      && Decode(l, "#c\0hi" + ['\0'], acc, true).Done?
      && Decode(l, "#c\0hi" + ['x'], acc, true).Fail?
  {
    hide Decode, Encode, LacksLastNul;
    var l := VypressFormat(QTopicChange);
    assert Stringy(l.rest);
    WholeTopicReads(acc);
    OverreadExactly(l, "#c\0hi", 'x', acc);
    ShortTopicFails(acc);
  }

  lemma WholeTopicReads(acc: QcsMsg)
    ensures Decode(VypressFormat(QTopicChange), "#c\0hi" + ['\0'], acc, true).Done?
  {
    hide Decode, Kept;
    var l := VypressFormat(QTopicChange);
    var m := NEWMSG.(chan := Some("c"), text := Some("hi"));
    var e := Encode(l.rest, m);
    assert m.Get(Chan) == Some("c") && m.Get(Text) == Some("hi");
    assert e == Enc(true, "hi" + [NUL] + "");
    assert Encode(l, m) == Enc(true, ['#'] + "c" + [NUL] + e.bytes);
    assert Encode(l, m).bytes + "" == "#c\0hi" + ['\0'];
    OwnFits(QTopicChange);
    LayoutRoundTrip(l, m, "", acc, true);
  }

  lemma ShortTopicFails(acc: QcsMsg)
    ensures Decode(VypressFormat(QTopicChange), "#c\0hi", acc, true).Fail?
  {
    var s := "#c\0hi";
    assert s[1..] == "c" + [NUL] + "hi";
    Terminates("c", "hi");
    assert NUL !in "hi";
  }

  // ---------------------------------------------------------------- round trip

  /** A message after a trip: as by QuickChat, but a topic keeps its channel. */
  function VypressNormalised(m: QcsMsg, mode: int): QcsMsg {
    if IsTopic(m.id) then Normalised(m, mode).(chan := m.chan) else Normalised(m, mode)
  }

  lemma OwnFits(id: MsgId)
    requires OwnFormat(id)
    ensures var l := VypressFormat(id);
      && Slots(l) == Carries(id) && !HasMain(l) && NoOption(l) && Tidy(l) && Stringy(l)
      && (forall m: QcsMsg, mode :: m.id == id ==> ModeOf(l, m, mode) == TripMode(m, mode))
  {
    hide Slots, HasMain, NoOption, Tidy, ModeOf, OneMode, Modeless, HasHash;
    var l := VypressFormat(id);
    if id == QTopicChange {
      Fields2(l.f, l.rest.f);
    } else if id == QTopicReply {
      Fields3(l.f, l.rest.f, l.rest.rest.f);
      assert Stringy(l.rest);
    } else {
      InfoOwnFits();
    }
  }

  lemma InfoOwnFits()
    ensures var l := VypressFormat(QInfoReply);
      && Slots(l) == Carries(QInfoReply) && !HasMain(l) && NoOption(l) && Tidy(l) && Stringy(l)
      && (forall m: QcsMsg, mode :: m.id == QInfoReply ==> ModeOf(l, m, mode) == TripMode(m, mode))
  {
    hide Slots, HasMain, NoOption, Tidy, ModeOf, OneMode, Modeless, HasHash;
    var l2 := L2(Str(Chan), Str(Supp));
    var l3 := Then(Filler("0.0.0.0"), l2);
    var l4 := Then(Filler("VcProto1.0"), l3);
    var l5 := Then(Str(Text), l4);
    var l6 := Then(Str(Src), l5);
    Fields2(Str(Chan), Str(Supp));
    FieldsMore(Filler("0.0.0.0"), l2);
    FieldsMore(Filler("VcProto1.0"), l3);
    FieldsMore(Str(Text), l4);
    FieldsMore(Str(Src), l5);
    FieldsMore(Str(Dst), l6);
    assert Stringy(l2) && Stringy(l4) && Stringy(l6);
  }

  lemma OwnKept(m: QcsMsg, mode: int)
    requires OwnFormat(m.id)
    ensures Kept(VypressFormat(m.id), m, NEWMSG.(mode := mode, id := m.id)) == VypressNormalised(m, mode)
  {
    hide VypressFormat, Slots, HasMain, ModeOf, Tidy, NoOption, TripMode;
    OwnFits(m.id);
  }

  lemma HeaderOff(m: QcsMsg, signature: string)
    requires |signature| == QCS_SIGNATURE_LENGTH
    ensures var bytes := MakeVypress(m, signature).bytes;
      && bytes[1..QCS_SIGNATURE_LENGTH + 1] == signature
      && bytes[QCS_SIGNATURE_LENGTH + 1..] == RawVypress(m).bytes
  {
    hide RawVypress;
  }

  lemma RawTag(m: QcsMsg)
    requires RawVypress(m).ok
    ensures var raw := RawVypress(m).bytes; raw != "" && OwnId(raw[0]) == (if OwnFormat(m.id) then m.id else QInvalid)
  {
    hide Encode;
    if !OwnFormat(m.id) {
      var t := Tag(m.id);
      assert t != "" && RawVypress(m).bytes[0] == t[0];
    }
  }

  /** With an unseen signature the message comes through, whatever lies behind the packet. */
  lemma VypressRoundTrip(m: QcsMsg, signature: string, beyond: char, window: seq<string>, mode: int)
    requires RawVypress(m).ok && CleanStrings(m)
    requires |signature| == 9 && signature !in window
    ensures var p := Packet(MakeVypress(m, signature).bytes, beyond);
      && Signed(p) && Signature(p) == signature
      && ParseVypress(p, window, mode).0 == Reply(true, VypressNormalised(m, mode))
  {
    var p := Packet(MakeVypress(m, signature).bytes, beyond);
    HeaderOff(m, signature);
    RawTag(m);
    var raw := RawVypress(m).bytes;
    BodyRoundTrip(m, raw, beyond, mode);
    assert ParseBody(p, mode) == Done(VypressNormalised(m, mode));
    hide MakeVypress, RawVypress, ParseBody;
  }

  lemma BodyRoundTrip(m: QcsMsg, raw: string, beyond: char, mode: int)
    requires RawVypress(m) == Enc(true, raw) && CleanStrings(m)
    requires raw != "" && OwnId(raw[0]) == (if OwnFormat(m.id) then m.id else QInvalid)
    ensures OwnFormat(m.id) ==>
      Decode(VypressFormat(m.id), raw[1..] + [beyond], NEWMSG.(mode := mode, id := m.id), true)
        == Done(VypressNormalised(m, mode))
    ensures !OwnFormat(m.id) ==> ParseQchat(raw, mode) == Done(VypressNormalised(m, mode))
  {
    hide Decode, Encode, Kept, Slots, HasMain, NoOption, Tidy, ModeOf, Carries, Normalised, ParseQchat, MakeQchat;
    if OwnFormat(m.id) {
      var l := VypressFormat(m.id);
      var acc := NEWMSG.(mode := mode, id := m.id);
      OwnFits(m.id);
      assert NulFree(l, m) by {
        assert m.Get(Src) == m.src && m.Get(Dst) == m.dst && m.Get(Text) == m.text;
        assert m.Get(Supp) == m.supp && m.Get(Chan) == m.chan;
      }
      assert raw[1..] == Encode(l, m).bytes;
      LayoutRoundTrip(l, m, [beyond], acc, true);
      OwnKept(m, mode);
    } else {
      QchatRoundTrip(m, mode);
    }
  }

  /** What a caller is told is a message has the fields of its kind and no others; a repeated packet
    * comes as a message of no kind. */
  lemma VypressIsWellFormed(p: Packet, window: seq<string>, mode: int)
    requires ParseVypress(p, window, mode).0.ok
    ensures var m := ParseVypress(p, window, mode).0.m;
      WellFormed(m) && CleanStrings(m) && (m.id == QInvalid <==> Signature(p) in window)
  {
    hide Flushes, Register;
    var m := ParseVypress(p, window, mode).0.m;
    if Signature(p) !in window {
      var body := p.bytes[QCS_SIGNATURE_LENGTH + 1..];
      if OwnId(body[0]) != QInvalid {
        OwnIsWellFormed(OwnId(body[0]), body[1..] + [p.beyond], mode);
      } else {
        ParseIsWellFormed(body, mode);
      }
    }
  }

  lemma OwnIsWellFormed(id: MsgId, s: string, mode: int)
    requires OwnFormat(id) && Decode(VypressFormat(id), s, NEWMSG.(mode := mode, id := id), true).Done?
    ensures var m := Decode(VypressFormat(id), s, NEWMSG.(mode := mode, id := id), true).m;
      m.id == id && WellFormed(m) && CleanStrings(m)
  {
    hide VypressFormat, Decode, Slots, Tidy;
    var acc := NEWMSG.(mode := mode, id := id);
    OwnFits(id);
    DecodedFields(VypressFormat(id), s, acc, true);
    var m := Decode(VypressFormat(id), s, acc, true).m;
    assert m.Get(Src) == m.src && m.Get(Dst) == m.dst && m.Get(Text) == m.text;
    assert m.Get(Supp) == m.supp && m.Get(Chan) == m.chan;
    assert acc.Get(Src) == acc.Get(Dst) == acc.Get(Text) == acc.Get(Supp) == acc.Get(Chan) == None;
  }

  /** Of the packets that can be written, exactly those flush in which somebody leaves the channel Main. */
  lemma LeavingMainFlushes(m: QcsMsg, signature: string, beyond: char)
    requires RawVypress(m).ok && CleanStrings(m) && |signature| == QCS_SIGNATURE_LENGTH
    ensures Flushes(Packet(MakeVypress(m, signature).bytes, beyond))
      <==> m.id == QChannelLeave && m.chan.Some? && IsMain(m.chan.value)
  {
    var p := Packet(MakeVypress(m, signature).bytes, beyond);
    HeaderOff(m, signature);
    RawTag(m);
    BodyRoundTrip(m, RawVypress(m).bytes, beyond, UMODE_INVALID);
    if m.id == QChannelLeave { ChanOfLeave(m); }
    hide MakeVypress, RawVypress, Decode, ParseQchat, IsMain, VypressNormalised, VypressFormat, CleanStrings;
    KeepsKind(m);
  }

  lemma KeepsKind(m: QcsMsg)
    ensures VypressNormalised(m, UMODE_INVALID).id == m.id
  {
  }

  lemma ChanOfLeave(m: QcsMsg)
    requires m.id == QChannelLeave
    ensures var n := VypressNormalised(m, UMODE_INVALID); n.id == m.id && n.chan == m.chan
  {
  }

  // ---------------------------------------------------------------- runs

  /** The signatures registered since the last flush, oldest first, among which the last ones are
    * remembered. */
  ghost function Log(ps: seq<Packet>): seq<string> {
    if ps == [] then []
    else
      var log, p := Log(ps[..|ps| - 1]), ps[|ps| - 1];
      if !Signed(p) || Signature(p) in Recent(log) then log
      else if Flushes(p) then []
      else log + [Signature(p)]
  }

  function Recent(log: seq<string>): (r: seq<string>)
    ensures |r| <= QCS_SIGNATURE_MAX_DUP
  {
    if |log| <= QCS_SIGNATURE_MAX_DUP then log else log[|log| - QCS_SIGNATURE_MAX_DUP..]
  }

  function Reversed(s: seq<string>): (r: seq<string>)
    ensures |r| == |s|
    ensures forall i :: 0 <= i < |s| ==> r[i] == s[|s| - 1 - i]
  {
    seq(|s|, i requires 0 <= i < |s| => s[|s| - 1 - i])
  }

  /** The signatures remembered after a run of packets, whatever modes the readers start with. */
  function Window(ps: seq<Packet>): seq<string> {
    if ps == [] then [] else ParseVypress(ps[|ps| - 1], Window(ps[..|ps| - 1]), UMODE_INVALID).1
  }

  lemma SameMembers(log: seq<string>, s: string)
    ensures s in Reversed(Recent(log)) <==> s in Recent(log)
  {
    var r := Recent(log);
    if s in r {
      var i :| 0 <= i < |r| && r[i] == s;
      assert Reversed(r)[|r| - 1 - i] == s;
    }
  }

  lemma RegisterIsAppend(log: seq<string>, s: string)
    ensures Register(Reversed(Recent(log)), s) == Reversed(Recent(log + [s]))
  {
    var last := Recent(log);
    var w := Reversed(last);
    var kept := Recent(log + [s]);
    if |log| < QCS_SIGNATURE_MAX_DUP {
      assert Register(w, s) == [s] + w;
      assert kept == last + [s];
    } else {
      assert Register(w, s) == [s] + w[..QCS_SIGNATURE_MAX_DUP - 1];
      assert kept == last[1..] + [s];
    }
  }

  /** Over any run: what is remembered is exactly the newest 32, or fewer, of the signatures
    * registered since the last flush, newest first, and none of them twice. */
  lemma {:induction false} WindowIsRecent(ps: seq<Packet>)
    ensures Window(ps) == Reversed(Recent(Log(ps)))
    ensures |Window(ps)| == if |Log(ps)| <= 32 then |Log(ps)| else 32
    ensures Distinct(Window(ps))
  {
    hide Flushes, ParseBody;
    if ps != [] {
      var before, p := ps[..|ps| - 1], ps[|ps| - 1];
      WindowIsRecent(before);
      var w := Window(before);
      if Signed(p) {
        SameMembers(Log(before), Signature(p));
        if Signature(p) !in w && !Flushes(p) {
          RegisterIsAppend(Log(before), Signature(p));
          StillDistinct(w, Signature(p));
        }
      }
    }
  }

  lemma StillDistinct(w: seq<string>, s: string)
    requires Distinct(w) && s !in w
    ensures Distinct(Register(w, s))
  {
  }

  /** After any run, a packet too short is refused, one yields nothing if its signature is remembered, and
    * goes to the parser if it is not. */
  lemma DuplicatesExactly(ps: seq<Packet>, p: Packet, mode: int)
    ensures var reply := ParseVypress(p, Window(ps), mode).0;
      if !Signed(p) then !reply.ok
      else if Signature(p) in Recent(Log(ps)) then reply.ok && reply.m.id == QInvalid
      else (ParseBody(p, mode) == if reply.ok then Done(reply.m) else Fail(reply.m))
  {
    hide Flushes, ParseBody;
    WindowIsRecent(ps);
    if Signed(p) { SameMembers(Log(ps), Signature(p)); }
  }

  lemma {:induction false} LogGrows(a: seq<Packet>, b: seq<Packet>)
    requires forall q :: q in b ==> !Flushes(q)
    ensures Log(a) <= Log(a + b) && |Log(a + b)| <= |Log(a)| + |b|
  {
    hide Flushes;
    if b == [] {
      assert a + b == a;
    } else {
      var b' := b[..|b| - 1];
      LogGrows(a, b');
      assert (a + b)[..|a + b| - 1] == a + b' && (a + b)[|a + b| - 1] == b[|b| - 1];
    }
  }

  /** A packet that was new is recognised when it comes again behind at most 31 others, unless one
    * of them, or itself, is a flush. */
  lemma RepeatIsDropped(a: seq<Packet>, p: Packet, b: seq<Packet>, again: Packet, mode: int)
    requires Signed(p) && Signature(p) !in Window(a) && |b| < QCS_SIGNATURE_MAX_DUP
    requires !Flushes(p) && forall q :: q in b ==> !Flushes(q)
    requires Signed(again) && Signature(again) == Signature(p)
    ensures ParseVypress(again, Window(a + [p] + b), mode) == (Reply(true, NEWMSG.(mode := mode)), Window(a + [p] + b))
  {
    hide Flushes, ParseBody;
    WindowIsRecent(a);
    SameMembers(Log(a), Signature(p));
    assert (a + [p])[..|a|] == a;
    assert Log(a + [p]) == Log(a) + [Signature(p)];
    LogGrows(a + [p], b);
    var log := Log(a + [p] + b);
    assert log[|Log(a)|] == Signature(p);
    LateIsRecent(log, |Log(a)|);
    hide Recent, Log;
    WindowIsRecent(a + [p] + b);
    SameMembers(log, Signature(p));
  }

  lemma LateIsRecent(log: seq<string>, i: nat)
    requires i < |log| <= i + QCS_SIGNATURE_MAX_DUP
    ensures log[i] in Recent(log)
  {
    var r := Recent(log);
    assert r[i - (|log| - |r|)] == log[i];
  }
}
