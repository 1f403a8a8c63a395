/** The chat protocols as tables: what each kind of message looks like on the wire, what writing a
  * message produces, what reading a datagram yields, and that the second undoes the first. */
module WireFormat {
  import opened Basics
  import opened QcsMessage
  import opened ChanList

  datatype Field =
    | Str(slot: Slot)        // the string and its NUL
    | Hash(slot: Slot)       // '#', the string and its NUL
    | ModeChar               // the user mode as a digit
    | WatchOpt               // the watch flag; may be missing when read
    | WatchChar              // the watch flag, which becomes the whole mode
    | Filler(text: string)   // a string nobody reads
    | Skip(c: char)          // a byte that is read and dropped
    | Tail(c: char)          // a last byte that is not even read
    | MainOnly               // nothing on the wire: the channel is understood to be Main

  datatype Layout = End | Then(f: Field, rest: Layout)

  // ---------------------------------------------------------------- modes

  /** qcs__local_qcmode. */
  function LocalMode(c: char): int {
    if c == '0' then UMODE_NORMAL
    else if c == '1' then UMODE_DND
    else if c == '2' then UMODE_AWAY
    else if c == '3' then UMODE_OFFLINE
    else UMODE_INVALID
  }

  /** qcs__net_qcmode. */
  function NetMode(mode: int): char {
    if mode == UMODE_DND then '1'
    else if mode == UMODE_AWAY then '2'
    else if mode == UMODE_OFFLINE then '3'
    else '0'
  }

  /** qcs__net_qcwatch. */
  function NetWatch(mode: int): char { if HasWatch(mode) then '1' else '2' }

  // ---------------------------------------------------------------- writing

  /** Whether writing went through, and the bytes written, up to the failure if there was one. */
  datatype Enc = Enc(ok: bool, bytes: string)

  function EncField(f: Field, m: QcsMsg): Enc {
    match f
    case Str(s) => if m.Get(s).Some? then Enc(true, m.Get(s).value + [NUL]) else Enc(false, "")
    case Hash(s) => if m.Get(s).Some? then Enc(true, ['#'] + m.Get(s).value + [NUL]) else Enc(false, ['#'])
    case ModeChar => Enc(true, [NetMode(m.mode)])
    case WatchOpt => Enc(true, [NetWatch(m.mode)])
    case WatchChar => Enc(true, [NetWatch(m.mode)])
    case Filler(t) => Enc(true, t + [NUL])
    case Skip(c) => Enc(true, [c])
    case Tail(c) => Enc(true, [c])
    case MainOnly => Enc(m.chan.Some? && IsMain(m.chan.value), "")
  }

  function Encode(l: Layout, m: QcsMsg): Enc {
    match l
    case End => Enc(true, "")
    case Then(f, rest) =>
      var e := EncField(f, m);
      if !e.ok then e
      else
        var r := Encode(rest, m);
        Enc(r.ok, e.bytes + r.bytes)
  }

  // ---------------------------------------------------------------- reading

  /** A read message, or what a failed read leaves in the message. */
  datatype Dec = Done(m: QcsMsg) | Fail(m: QcsMsg)

  /** Where qcs__gatherstr finds the terminator; without one it returns NULL. */
  function Terminated(s: string): bool { IndexOf(s, NUL) < |s| }

  /** Where reading a field leads: what is left to read and the message so far, or the end. */
  datatype Move = Move(s: string, m: QcsMsg) | Stop(m: QcsMsg)

  /** The string in front of the terminator, and what comes behind it. */
  function Gathered(s: string): string
    requires Terminated(s)
  {
    s[..IndexOf(s, NUL)]
  }

  function Behind(s: string): string
    requires Terminated(s)
  {
    s[IndexOf(s, NUL) + 1..]
  }

  function ReadStr(s: string, m: QcsMsg, slot: Slot): Move {
    if !Terminated(s) then Stop(m.Cleaned())
    else Move(Behind(s), m.Set(slot, Some(Gathered(s))))
  }

  /** A strict reader cleans the message up on a missing '#', the other one leaves it half read. */
  function ReadField(f: Field, s: string, m: QcsMsg, strict: bool): Move {
    match f
    case Str(slot) => ReadStr(s, m, slot)
    case Hash(slot) =>
      if s == "" then Stop(m.Cleaned())
      else if s[0] != '#' then Stop(if strict then m.Cleaned() else m)
      else ReadStr(s[1..], m, slot)
    case ModeChar =>
      if s == "" then Stop(m.Cleaned())
      else if LocalMode(s[0]) == UMODE_INVALID then Stop(m.(mode := UMODE_INVALID).Cleaned())
      else Move(s[1..], m.(mode := LocalMode(s[0])))
    case WatchOpt =>
      if s == "" then Move(s, m)
      else Move(s[1..], if s[0] == '1' then m.(mode := WithWatch(m.mode)) else m)
    case WatchChar =>
      if s == "" then Stop(m.Cleaned())
      else Move(s[1..], m.(mode := if s[0] == '1' then UMODE_WATCH else 0))
    case Filler(_) => if !Terminated(s) then Stop(m.Cleaned()) else Move(Behind(s), m)
    case Skip(_) => if s == "" then Stop(m.Cleaned()) else Move(s[1..], m)
    case Tail(_) => Move(s, m)
    case MainOnly => Move(s, m.(chan := Some("Main")))
  }

  function Decode(l: Layout, s: string, m: QcsMsg, strict: bool): Dec
    decreases l
  {
    if l.End? then Done(m)
    else
      match ReadField(l.f, s, m, strict)
      case Stop(m') => Fail(m')
      case Move(s', m') => if l.f.Tail? then Done(m') else Decode(l.rest, s', m', strict)
  }

  // ---------------------------------------------------------------- what a layout has

  function FieldSlots(f: Field): set<Slot> {
    match f
    case Str(s) => {s}
    case Hash(s) => {s}
    case _ => {}
  }

  function Slots(l: Layout): set<Slot> { if l.End? then {} else FieldSlots(l.f) + Slots(l.rest) }

  predicate HasMain(l: Layout) { l.Then? && (l.f.MainOnly? || HasMain(l.rest)) }

  /** An optional field can only be told from what follows when nothing follows. */
  predicate NoOption(l: Layout) { l.End? || (!l.f.WatchOpt? && NoOption(l.rest)) }

  /** Nothing follows a tail byte, and what nobody reads holds no NUL. */
  predicate Tidy(l: Layout) {
    l.End? || (Tidy(l.rest) && (l.f.Tail? ==> l.rest.End?) && (l.f.Filler? ==> NUL !in l.f.text))
  }

  /** A layout that leaves the mode alone, and one that sets it once. */
  predicate Modeless(l: Layout) {
    l.End? || (!l.f.ModeChar? && !l.f.WatchOpt? && !l.f.WatchChar? && Modeless(l.rest))
  }

  predicate OneMode(l: Layout) {
    l.End? || (
      if l.f.ModeChar? || l.f.WatchChar? then Modeless(l.rest) else !l.f.WatchOpt? && OneMode(l.rest))
  }

  /** The strings a layout writes hold no NUL. */
  predicate NulFree(l: Layout, m: QcsMsg) {
    forall s :: s in Slots(l) && m.Get(s).Some? ==> NUL !in m.Get(s).value
  }

  /** The mode after reading back a written field. */
  function ModeAfter(f: Field, m: QcsMsg, mode: int): int {
    match f
    case ModeChar => if PlainMode(m.mode) then m.mode else UMODE_NORMAL
    case WatchOpt => if HasWatch(m.mode) then WithWatch(mode) else mode
    case WatchChar => if HasWatch(m.mode) then UMODE_WATCH else 0
    case _ => mode
  }

  /** The mode a reader ends up with. */
  function ModeOf(l: Layout, m: QcsMsg, mode: int): int {
    if l.End? then mode else ModeOf(l.rest, m, ModeAfter(l.f, m, mode))
  }

  /** What a reader gets of a written message: the fields of the layout, on top of what it had. */
  function Kept(l: Layout, m: QcsMsg, acc: QcsMsg): QcsMsg {
    QcsMsg(acc.id, ModeOf(l, m, acc.mode),
      if Src in Slots(l) then m.src else acc.src,
      if Dst in Slots(l) then m.dst else acc.dst,
      if Text in Slots(l) then m.text else acc.text,
      if Supp in Slots(l) then m.supp else acc.supp,
      if HasMain(l) then Some("Main") else if Chan in Slots(l) then m.chan else acc.chan)
  }

  lemma {:induction false} EncodeOk(l: Layout, m: QcsMsg)
    ensures Encode(l, m).ok <==>
      (forall s :: s in Slots(l) ==> m.Get(s).Some?) && (HasMain(l) ==> m.chan.Some? && IsMain(m.chan.value))
  {
    if l.Then? { EncodeOk(l.rest, m); }
  }

  // ---------------------------------------------------------------- round trip of a layout

  lemma {:induction false} Terminates(a: string, b: string)
    requires NUL !in a
    ensures IndexOf(a + [NUL] + b, NUL) == |a|
    ensures (a + [NUL] + b)[..|a|] == a && (a + [NUL] + b)[|a| + 1..] == b
  {
    if a == "" {
      assert (a + [NUL] + b)[0] == NUL;
    } else {
      assert (a + [NUL] + b)[1..] == a[1..] + [NUL] + b;
      Terminates(a[1..], b);
    }
  }

  /** The message after reading back a written field. */
  function After(f: Field, m: QcsMsg, acc: QcsMsg): QcsMsg {
    match f
    case Str(s) => acc.Set(s, m.Get(s))
    case Hash(s) => acc.Set(s, m.Get(s))
    case MainOnly => acc.(chan := Some("Main"))
    case _ => acc.(mode := ModeAfter(f, m, acc.mode))
  }

  lemma NetModeBack(mode: int)
    ensures LocalMode(NetMode(mode)) == if PlainMode(mode) then mode else UMODE_NORMAL
    ensures LocalMode(NetMode(mode)) != UMODE_INVALID
  {
  }

  lemma StringRoundTrip(slot: Slot, v: string, tail: string, acc: QcsMsg)
    requires NUL !in v
    ensures ReadStr(v + [NUL] + tail, acc, slot) == Move(tail, acc.Set(slot, Some(v)))
  {
    hide IndexOf;
    Terminates(v, tail);
  }

  lemma FillerRoundTrip(t: string, tail: string, acc: QcsMsg, strict: bool)
    requires NUL !in t
    ensures ReadField(Filler(t), t + [NUL] + tail, acc, strict) == Move(tail, acc)
  {
    hide IndexOf;
    Terminates(t, tail);
  }

  lemma ByteRoundTrip(f: Field, c: char, m: QcsMsg, tail: string, acc: QcsMsg, strict: bool)
    requires f.ModeChar? || f.WatchOpt? || f.WatchChar? || f.Skip?
    requires EncField(f, m) == Enc(true, [c])
    ensures ReadField(f, [c] + tail, acc, strict) == Move(tail, After(f, m, acc))
  {
    assert ([c] + tail)[1..] == tail;
    if f.ModeChar? { NetModeBack(m.mode); }
  }

  /** One field read back. */
  lemma FieldRoundTrip(f: Field, m: QcsMsg, tail: string, acc: QcsMsg, strict: bool)
    requires EncField(f, m).ok && !f.Tail? && (f.Filler? ==> NUL !in f.text)
    requires forall s :: s in FieldSlots(f) && m.Get(s).Some? ==> NUL !in m.Get(s).value
    ensures ReadField(f, EncField(f, m).bytes + tail, acc, strict) == Move(tail, After(f, m, acc))
  {
    hide ReadStr, NetMode, NetWatch, LocalMode;
    var bytes := EncField(f, m).bytes + tail;
    match f
    case Str(s) =>
      assert s in FieldSlots(f);
      StringRoundTrip(s, m.Get(s).value, tail, acc);
    case Hash(s) =>
      assert s in FieldSlots(f);
      assert bytes[1..] == m.Get(s).value + [NUL] + tail;
      StringRoundTrip(s, m.Get(s).value, tail, acc);
    case Filler(t) => FillerRoundTrip(t, tail, acc, strict);
    case MainOnly => assert bytes == tail;
    case ModeChar => ByteRoundTrip(f, NetMode(m.mode), m, tail, acc, strict);
    case WatchOpt => ByteRoundTrip(f, NetWatch(m.mode), m, tail, acc, strict);
    case WatchChar => ByteRoundTrip(f, NetWatch(m.mode), m, tail, acc, strict);
    case Skip(c) => ByteRoundTrip(f, c, m, tail, acc, strict);
  }

  lemma TailRoundTrip(f: Field, m: QcsMsg, acc: QcsMsg, s: string, strict: bool)
    requires f.Tail?
    ensures Decode(L1(f), s, acc, strict) == Done(Kept(L1(f), m, acc))
  {
    assert Slots(L1(f)) == FieldSlots(f) + Slots(End) == {} && !HasMain(End);
    assert ModeOf(L1(f), m, acc.mode) == ModeOf(End, m, acc.mode);
  }

  /** What is kept, field by field. */
  lemma KeptStep(f: Field, rest: Layout, m: QcsMsg, acc: QcsMsg)
    requires HasMain(Then(f, rest)) ==> Chan !in Slots(Then(f, rest))
    ensures Kept(Then(f, rest), m, acc) == Kept(rest, m, After(f, m, acc))
  {
    var l := Then(f, rest);
    assert Slots(l) == FieldSlots(f) + Slots(rest);
    assert HasMain(l) <==> f.MainOnly? || HasMain(rest);
    assert ModeOf(l, m, acc.mode) == ModeOf(rest, m, ModeAfter(f, m, acc.mode));
    if f.Str? || f.Hash? {
      var s := f.slot;
      assert FieldSlots(f) == {s};
      match s case Src => case Dst => case Text => case Supp => case Chan =>
    } else {
      assert FieldSlots(f) == {};
    }
  }

  lemma KeptNothing(m: QcsMsg, acc: QcsMsg)
    ensures Kept(End, m, acc) == acc
  {
  }

  /** Reading undoes writing, whatever lies behind the message. */
  lemma {:induction false} LayoutRoundTrip(l: Layout, m: QcsMsg, more: string, acc: QcsMsg, strict: bool)
    requires Encode(l, m).ok && Tidy(l) && NulFree(l, m) && (more == "" || NoOption(l))
    requires HasMain(l) ==> Chan !in Slots(l)
    ensures Decode(l, Encode(l, m).bytes + more, acc, strict) == Done(Kept(l, m, acc))
    decreases l
  {
    hide EncField, After, Kept, ReadField;
    if l.Then? {
      var f, rest := l.f, l.rest;
      var tail := Encode(rest, m).bytes + more;
      assert Encode(l, m).bytes + more == EncField(f, m).bytes + tail;
      KeptStep(f, rest, m, acc);
      if f.Tail? {
        TailRoundTrip(f, m, acc, EncField(f, m).bytes + tail, strict);
      } else {
        assert forall s :: s in FieldSlots(f) ==> s in Slots(l);
        FieldRoundTrip(f, m, tail, acc, strict);
        LayoutRoundTrip(rest, m, more, After(f, m, acc), strict);
      }
    } else {
      KeptNothing(m, acc);
    }
  }

  // ---------------------------------------------------------------- what reading yields

  /** What reading one field does to the message. */
  lemma ReadOne(f: Field, s: string, acc: QcsMsg, strict: bool)
    requires ReadField(f, s, acc, strict).Move?
    ensures var m := ReadField(f, s, acc, strict).m;
      && m.id == acc.id
      && (forall o :: o in FieldSlots(f) ==> m.Get(o).Some? && NUL !in m.Get(o).value)
      && (forall o :: o !in FieldSlots(f) && !(o == Chan && f.MainOnly?) ==> m.Get(o) == acc.Get(o))
      && (f.MainOnly? ==> m.Get(Chan) == Some("Main"))
  {
    var m := ReadField(f, s, acc, strict).m;
    if f.MainOnly? {
      assert m.Get(Chan) == m.chan;
      assert forall o :: o != Chan ==> m.Get(o) == acc.Get(o);
    }
    if f.ModeChar? || f.WatchOpt? || f.WatchChar? {
      assert forall o :: m.Get(o) == acc.Get(o);
    }
  }

  lemma TailSlots(l: Layout)
    requires l.Then? && l.f.Tail? && Tidy(l)
    ensures Slots(l) == {} && !HasMain(l)
  {
    assert Slots(l) == FieldSlots(l.f) + Slots(l.rest);
  }

  /** A successful read sets the fields of the layout, to strings without NUL, and no others. */
  lemma {:induction false} DecodedFields(l: Layout, s: string, acc: QcsMsg, strict: bool)
    requires Decode(l, s, acc, strict).Done? && Tidy(l)
    ensures var r := Decode(l, s, acc, strict).m;
      && r.id == acc.id
      && (forall o :: o in Slots(l) ==> r.Get(o).Some? && NUL !in r.Get(o).value)
      && (forall o :: o !in Slots(l) && !(o == Chan && HasMain(l)) ==> r.Get(o) == acc.Get(o))
      && (HasMain(l) && Chan !in Slots(l) ==> r.Get(Chan) == Some("Main"))
    decreases l
  {
    hide ReadField, FieldSlots;
    if l.Then? {
      var next := ReadField(l.f, s, acc, strict);
      ReadOne(l.f, s, acc, strict);
      assert Slots(l) == FieldSlots(l.f) + Slots(l.rest);
      if l.f.Tail? {
        TailSlots(l);
      } else {
        DecodedFields(l.rest, next.s, next.m, strict);
      }
    }
  }

  lemma ModelessField(f: Field, s: string, acc: QcsMsg, m: QcsMsg, strict: bool)
    requires !f.ModeChar? && !f.WatchOpt? && !f.WatchChar?
    ensures ReadField(f, s, acc, strict).Move? ==> ReadField(f, s, acc, strict).m.mode == acc.mode
    ensures ModeAfter(f, m, acc.mode) == acc.mode
  {
  }

  lemma {:induction false} ModelessRead(l: Layout, s: string, acc: QcsMsg, m: QcsMsg, strict: bool)
    requires Decode(l, s, acc, strict).Done? && Modeless(l) && Tidy(l)
    ensures Decode(l, s, acc, strict).m.mode == acc.mode == ModeOf(l, m, acc.mode)
    decreases l
  {
    hide ReadField;
    if l.Then? {
      ModelessField(l.f, s, acc, m, strict);
      if l.f.Tail? {
        assert ModeOf(l.rest, m, acc.mode) == acc.mode;
      } else {
        var next := ReadField(l.f, s, acc, strict);
        ModelessRead(l.rest, next.s, next.m, m, strict);
      }
    }
  }

  /** A mode that was read is written as it was. */
  lemma ModeFieldAgain(f: Field, s: string, acc: QcsMsg, r: QcsMsg, strict: bool)
    requires (f.ModeChar? || f.WatchChar?) && ReadField(f, s, acc, strict).Move?
    requires r.mode == ReadField(f, s, acc, strict).m.mode
    ensures ModeAfter(f, r, acc.mode) == r.mode
  {
  }

  /** Writing the mode that was read and reading it again gives that mode. */
  lemma {:induction false} ModeReadTwice(l: Layout, s: string, acc: QcsMsg, strict: bool)
    requires Decode(l, s, acc, strict).Done? && OneMode(l) && Tidy(l)
    ensures var r := Decode(l, s, acc, strict).m; ModeOf(l, r, acc.mode) == r.mode
    decreases l
  {
    hide ReadField, ModeAfter;
    if l.Then? {
      var r := Decode(l, s, acc, strict).m;
      var next := ReadField(l.f, s, acc, strict);
      if l.f.ModeChar? || l.f.WatchChar? {
        ModelessRead(l.rest, next.s, next.m, r, strict);
        ModeFieldAgain(l.f, s, acc, r, strict);
      } else {
        ModelessField(l.f, s, acc, r, strict);
        if l.f.Tail? {
          assert ModeOf(l.rest, r, acc.mode) == acc.mode;
        } else {
          ModeReadTwice(l.rest, next.s, next.m, strict);
        }
      }
    }
  }

  lemma BlindField(f: Field, s: string, a: QcsMsg, mode: int, strict: bool)
    ensures var x, y := ReadField(f, s, a, strict), ReadField(f, s, a.(mode := mode), strict);
      && x.Move? == y.Move?
      && (x.Move? ==> x.s == y.s)
      && y.m == x.m.(mode := y.m.mode)
  {
  }

  /** The mode a reader starts with has no say in anything but the mode. */
  lemma {:induction false} ModeBlind(l: Layout, s: string, a: QcsMsg, mode: int, strict: bool)
    ensures var x, y := Decode(l, s, a, strict), Decode(l, s, a.(mode := mode), strict);
      x.Done? == y.Done? && y.m == x.m.(mode := y.m.mode)
    decreases l
  {
    hide ReadField;
    if l.Then? {
      BlindField(l.f, s, a, mode, strict);
      var x, y := ReadField(l.f, s, a, strict), ReadField(l.f, s, a.(mode := mode), strict);
      if x.Move? && !l.f.Tail? {
        ModeBlind(l.rest, x.s, x.m, y.m.mode, strict);
      }
    }
  }

  predicate HasHash(l: Layout) { l.Then? && (l.f.Hash? || HasHash(l.rest)) }

  lemma StopsClean(f: Field, s: string, acc: QcsMsg, strict: bool)
    requires ReadField(f, s, acc, strict).Stop? && (strict || !f.Hash?)
    ensures var m := ReadField(f, s, acc, strict).m; m == m.Cleaned()
  {
  }

  /** A failed read leaves a cleaned message, unless a lenient reader misses a '#'. */
  lemma {:induction false} FailsClean(l: Layout, s: string, acc: QcsMsg, strict: bool)
    requires Decode(l, s, acc, strict).Fail? && (strict || !HasHash(l))
    ensures var r := Decode(l, s, acc, strict).m; r == r.Cleaned()
    decreases l
  {
    hide ReadField;
    var next := ReadField(l.f, s, acc, strict);
    if next.Stop? {
      StopsClean(l.f, s, acc, strict);
    } else {
      FailsClean(l.rest, next.s, next.m, strict);
    }
  }

  // ---------------------------------------------------------------- the formats

  function L1(a: Field): Layout { Then(a, End) }
  function L2(a: Field, b: Field): Layout { Then(a, L1(b)) }
  function L3(a: Field, b: Field, c: Field): Layout { Then(a, L2(b, c)) }
  function L4(a: Field, b: Field, c: Field, d: Field): Layout { Then(a, L3(b, c, d)) }

  /** The first byte, or two, of a QuickChat message. */
  function Tag(id: MsgId): string {
    match id
    case QInvalid => ""
    case QRefreshRequest => "0"
    case QRefreshAck => "1"
    case QChannelBroadcast => "2"
    case QRename => "3"
    case QChannelJoin => "4"
    case QChannelLeave => "5"
    case QMessageSend => "6"
    case QMessageAck => "7"
    case QChannelMe => "A"
    case QTopicChange => "B"
    case QTopicReply => "C"
    case QModeChange => "D"
    case QMessageMass => "E"
    case QInfoRequest => "F"
    case QInfoReply => "G"
    case QBeepSend => "H0"
    case QBeepAck => "H1"
    case QPrivateOpen => "J0"
    case QPrivateClose => "J1"
    case QPrivateText => "J2"
    case QPrivateMe => "J3"
    case QChanmemberReply => "K"
    case QChanmemberRequest => "L"
    case QWatchChange => "M"
    case QChanlistRequest => "N"
    case QChanlistReply => "O"
  }

  /** What follows the tag in QuickChat. */
  function Format(id: MsgId): Layout {
    match id
    case QInvalid => End
    case QRefreshRequest | QChanmemberRequest | QChanlistRequest => L1(Str(Src))
    case QRefreshAck => L4(Str(Dst), Str(Src), ModeChar, WatchOpt)
    case QChannelBroadcast | QChannelMe => L3(Hash(Chan), Str(Src), Str(Text))
    case QChannelJoin => L4(Str(Src), Hash(Chan), ModeChar, Tail('0'))
    case QChannelLeave => L3(Str(Src), Hash(Chan), Tail('0'))
    case QMessageAck => Then(ModeChar, L4(Str(Dst), Str(Src), Skip('0'), Str(Text)))
    case QMessageSend | QMessageMass => L3(Str(Src), Str(Dst), Str(Text))
    case QRename => L3(Str(Src), Str(Text), Tail('0'))
    case QModeChange => L3(Str(Src), ModeChar, Tail('0'))
    case QWatchChange => L2(Str(Src), WatchChar)
    case QTopicReply => L3(Str(Dst), Str(Text), MainOnly)
    case QTopicChange => L2(Str(Text), MainOnly)
    case QInfoReply =>
      Then(Str(Dst), Then(Str(Src), Then(Str(Text), Then(Filler("QcProto1.6"),
        L4(Filler("0 %"), Filler("0 Kb"), Str(Chan), Str(Supp))))))
    case QInfoRequest => L2(Str(Dst), Str(Src))
    case QChanmemberReply => L3(Str(Dst), Str(Chan), Str(Src))
    case QChanlistReply => L2(Str(Dst), Str(Chan))
    case QBeepSend => L2(Str(Dst), Str(Src))
    case QBeepAck => L3(Str(Dst), Str(Src), Tail('0'))
    case QPrivateText | QPrivateMe => L3(Str(Src), Str(Dst), Str(Text))
    case QPrivateOpen | QPrivateClose => L3(Str(Src), Str(Dst), Tail('0'))
  }

  /** The kind a datagram announces. */
  function IdOf(s: string): MsgId {
    if s == "" then QInvalid
    else
      var c := s[0];
      if c == 'H' then
        if |s| < 2 then QInvalid else if s[1] == '0' then QBeepSend else if s[1] == '1' then QBeepAck else QInvalid
      else if c == 'J' then
        if |s| < 2 then QInvalid
        else if s[1] == '0' then QPrivateOpen else if s[1] == '1' then QPrivateClose
        else if s[1] == '2' then QPrivateText else if s[1] == '3' then QPrivateMe else QInvalid
      else if c == '0' then QRefreshRequest
      else if c == '1' then QRefreshAck
      else if c == '2' then QChannelBroadcast
      else if c == '3' then QRename
      else if c == '4' then QChannelJoin
      else if c == '5' then QChannelLeave
      else if c == '6' then QMessageSend
      else if c == '7' then QMessageAck
      else if c == 'A' then QChannelMe
      else if c == 'B' then QTopicChange
      else if c == 'C' then QTopicReply
      else if c == 'D' then QModeChange
      else if c == 'E' then QMessageMass
      else if c == 'F' then QInfoRequest
      else if c == 'G' then QInfoReply
      else if c == 'K' then QChanmemberReply
      else if c == 'L' then QChanmemberRequest
      else if c == 'M' then QWatchChange
      else if c == 'N' then QChanlistRequest
      else if c == 'O' then QChanlistReply
      else QInvalid
  }

  /** A datagram announces a kind exactly when it starts with that kind's tag. */
  lemma TagsDecide(s: string, id: MsgId)
    requires id != QInvalid
    ensures Tag(id) <= s <==> IdOf(s) == id
  {
    if id in {QBeepSend, QBeepAck, QPrivateOpen, QPrivateClose, QPrivateText, QPrivateMe} {
      LongTagsDecide(s, id);
    } else {
      ShortTagsDecide(s, id);
    }
    hide IdOf, Tag;
  }

  lemma LongTagsDecide(s: string, id: MsgId)
    requires id in {QBeepSend, QBeepAck, QPrivateOpen, QPrivateClose, QPrivateText, QPrivateMe}
    ensures Tag(id) <= s <==> IdOf(s) == id
  {
  }

  lemma ShortTagsDecide(s: string, id: MsgId)
    requires id !in {QInvalid, QBeepSend, QBeepAck, QPrivateOpen, QPrivateClose, QPrivateText, QPrivateMe}
    ensures Tag(id) <= s <==> IdOf(s) == id
  {
  }

  /** qcs__make_qchat_msg. */
  function MakeQchat(m: QcsMsg): Enc {
    if m.id == QInvalid then Enc(false, "")
    else
      var e := Encode(Format(m.id), m);
      Enc(e.ok, Tag(m.id) + e.bytes)
  }

  /** qcs__parse_qchat_msg on a datagram, into a message that keeps its mode if none is read. */
  function ParseQchat(s: string, mode: int): Dec {
    var id := IdOf(s);
    var m := NEWMSG.(mode := mode);
    if id == QInvalid then Fail(m) else
      TagsDecide(s, id);
      Decode(Format(id), s[|Tag(id)|..], m.(id := id), false)
  }

  // ---------------------------------------------------------------- QuickChat round trip

  /** The mode after a trip: plain modes are kept, the watch flag next to the normal mode only,
    * and a kind without a mode leaves the reader's. */
  function TripMode(m: QcsMsg, mode: int): int {
    var plain := if PlainMode(m.mode) then m.mode else UMODE_NORMAL;
    match m.id
    case QRefreshAck => if HasWatch(m.mode) then plain + UMODE_WATCH else plain
    case QChannelJoin | QMessageAck | QModeChange => plain
    case QWatchChange => if HasWatch(m.mode) then UMODE_WATCH else 0
    case _ => mode
  }

  /** The message after a trip: the fields its kind carries and no others; the topic is of Main. */
  function Normalised(m: QcsMsg, mode: int): QcsMsg {
    var c := Carries(m.id);
    QcsMsg(m.id, TripMode(m, mode),
      if Src in c then m.src else None,
      if Dst in c then m.dst else None,
      if Text in c then m.text else None,
      if Supp in c then m.supp else None,
      if Chan !in c then None else if IsTopic(m.id) then Some("Main") else m.chan)
  }

  /** No string the kind carries holds a NUL. */
  predicate CleanStrings(m: QcsMsg) {
    && (Src in Carries(m.id) && m.src.Some? ==> NUL !in m.src.value)
    && (Dst in Carries(m.id) && m.dst.Some? ==> NUL !in m.dst.value)
    && (Text in Carries(m.id) && m.text.Some? ==> NUL !in m.text.value)
    && (Supp in Carries(m.id) && m.supp.Some? ==> NUL !in m.supp.value)
    && (Chan in Carries(m.id) && m.chan.Some? ==> NUL !in m.chan.value)
  }

  predicate IsTopic(id: MsgId) { id in {QTopicChange, QTopicReply} }

  /** How often a field sets the mode; an optional flag on top of a mode counts as two. */
  function Sets(f: Field): nat {
    if f.WatchOpt? then 2 else if f.ModeChar? || f.WatchChar? then 1 else 0
  }

  /** The kinds with a '#' on the wire. */
  predicate HasChannelField(id: MsgId) { id in {QChannelBroadcast, QChannelMe, QChannelJoin, QChannelLeave} }

  lemma Fields1(b: Field)
    ensures Slots(L1(b)) == FieldSlots(b)
    ensures HasMain(L1(b)) <==> b.MainOnly?
    ensures HasHash(L1(b)) <==> b.Hash?
    ensures NoOption(L1(b)) <==> !b.WatchOpt?
    ensures Tidy(L1(b)) <==> (b.Filler? ==> NUL !in b.text)
    ensures Sets(b) == 0 <==> Modeless(L1(b))
    ensures Sets(b) <= 1 ==> OneMode(L1(b))
    ensures forall m: QcsMsg, mode :: ModeOf(L1(b), m, mode) == ModeAfter(b, m, mode)
  {
    hide FieldSlots, ModeAfter;
    assert Slots(End) == {} && L1(b).rest == End;
  }

  /** What short layouts have. */
  lemma Fields2(a: Field, b: Field)
    ensures Slots(L2(a, b)) == FieldSlots(a) + FieldSlots(b)
    ensures HasMain(L2(a, b)) <==> a.MainOnly? || b.MainOnly?
    ensures NoOption(L2(a, b)) <==> !a.WatchOpt? && !b.WatchOpt?
    ensures Tidy(L2(a, b)) <==> !a.Tail? && (a.Filler? ==> NUL !in a.text) && (b.Filler? ==> NUL !in b.text)
    ensures Sets(a) + Sets(b) <= 1 ==> OneMode(L2(a, b))
    ensures Sets(a) + Sets(b) == 0 ==> Modeless(L2(a, b))
    ensures HasHash(L2(a, b)) <==> a.Hash? || b.Hash?
    ensures forall m: QcsMsg, mode :: ModeOf(L2(a, b), m, mode) == ModeAfter(b, m, ModeAfter(a, m, mode))
  {
    hide FieldSlots, ModeAfter;
    Fields1(b);
  }

  lemma FieldsMore(a: Field, l: Layout)
    ensures Slots(Then(a, l)) == FieldSlots(a) + Slots(l)
    ensures HasMain(Then(a, l)) <==> a.MainOnly? || HasMain(l)
    ensures NoOption(Then(a, l)) <==> !a.WatchOpt? && NoOption(l)
    ensures Tidy(l) && !a.Tail? && (a.Filler? ==> NUL !in a.text) ==> Tidy(Then(a, l))
    ensures Sets(a) == 0 && OneMode(l) ==> OneMode(Then(a, l))
    ensures Sets(a) == 1 && Modeless(l) ==> OneMode(Then(a, l))
    ensures Sets(a) == 0 && Modeless(l) ==> Modeless(Then(a, l))
    ensures HasHash(Then(a, l)) <==> a.Hash? || HasHash(l)
    ensures forall m: QcsMsg, mode :: ModeOf(Then(a, l), m, mode) == ModeOf(l, m, ModeAfter(a, m, mode))
  {
  }

  lemma Fields3(a: Field, b: Field, c: Field)
    ensures Slots(L3(a, b, c)) == FieldSlots(a) + FieldSlots(b) + FieldSlots(c)
    ensures HasMain(L3(a, b, c)) <==> a.MainOnly? || b.MainOnly? || c.MainOnly?
    ensures NoOption(L3(a, b, c)) <==> !a.WatchOpt? && !b.WatchOpt? && !c.WatchOpt?
    ensures !a.Tail? && !b.Tail? && !a.Filler? && !b.Filler? && !c.Filler? ==> Tidy(L3(a, b, c))
    ensures Sets(a) + Sets(b) + Sets(c) <= 1 ==> OneMode(L3(a, b, c))
    ensures Sets(a) + Sets(b) + Sets(c) == 0 ==> Modeless(L3(a, b, c))
    ensures HasHash(L3(a, b, c)) <==> a.Hash? || b.Hash? || c.Hash?
    ensures forall m: QcsMsg, mode ::
      ModeOf(L3(a, b, c), m, mode) == ModeAfter(c, m, ModeAfter(b, m, ModeAfter(a, m, mode)))
  {
    hide Slots, HasMain, NoOption, Tidy, ModeOf, FieldSlots, ModeAfter, OneMode, Modeless, HasHash;
    Fields2(b, c);
    FieldsMore(a, L2(b, c));
  }

  lemma Fields4(a: Field, b: Field, c: Field, d: Field)
    ensures Slots(L4(a, b, c, d)) == FieldSlots(a) + FieldSlots(b) + FieldSlots(c) + FieldSlots(d)
    ensures HasMain(L4(a, b, c, d)) <==> a.MainOnly? || b.MainOnly? || c.MainOnly? || d.MainOnly?
    ensures NoOption(L4(a, b, c, d)) <==> !a.WatchOpt? && !b.WatchOpt? && !c.WatchOpt? && !d.WatchOpt?
    ensures !a.Tail? && !b.Tail? && !c.Tail? && !a.Filler? && !b.Filler? && !c.Filler? && !d.Filler?
        ==> Tidy(L4(a, b, c, d))
    ensures Sets(a) + Sets(b) + Sets(c) + Sets(d) <= 1 ==> OneMode(L4(a, b, c, d))
    ensures Sets(a) + Sets(b) + Sets(c) + Sets(d) == 0 ==> Modeless(L4(a, b, c, d))
    ensures HasHash(L4(a, b, c, d)) <==> a.Hash? || b.Hash? || c.Hash? || d.Hash?
    ensures forall m: QcsMsg, mode ::
      ModeOf(L4(a, b, c, d), m, mode) == ModeAfter(d, m, ModeAfter(c, m, ModeAfter(b, m, ModeAfter(a, m, mode))))
  {
    hide Slots, HasMain, NoOption, Tidy, ModeOf, FieldSlots, ModeAfter, OneMode, Modeless, HasHash;
    Fields3(b, c, d);
    FieldsMore(a, L3(b, c, d));
  }

  /** What the layout of a kind is expected to have. */
  ghost predicate Fits(l: Layout, id: MsgId) {
    && Slots(l) == (if IsTopic(id) then Carries(id) - {Chan} else Carries(id))
    && (HasMain(l) <==> IsTopic(id))
    && (NoOption(l) <==> id != QRefreshAck)
    && Tidy(l)
    && (id != QRefreshAck ==> OneMode(l))
    && (HasHash(l) <==> HasChannelField(id))
    && forall m: QcsMsg, mode :: m.id == id ==> ModeOf(l, m, mode) == TripMode(m, mode)
  }

  lemma InfoFits()
    ensures Fits(Format(QInfoReply), QInfoReply)
  {
    hide Slots, HasMain, NoOption, Tidy, ModeOf, OneMode, Modeless, HasHash;
    var l2 := L2(Str(Chan), Str(Supp));
    var l3 := Then(Filler("0 Kb"), l2);
    var l4 := Then(Filler("0 %"), l3);
    var l5 := Then(Filler("QcProto1.6"), l4);
    var l6 := Then(Str(Text), l5);
    var l7 := Then(Str(Src), l6);
    Fields2(Str(Chan), Str(Supp));
    FieldsMore(Filler("0 Kb"), l2);
    FieldsMore(Filler("0 %"), l3);
    FieldsMore(Filler("QcProto1.6"), l4);
    FieldsMore(Str(Text), l5);
    FieldsMore(Str(Src), l6);
    FieldsMore(Str(Dst), l7);
  }

  lemma MessageAckFits()
    ensures Fits(Format(QMessageAck), QMessageAck)
  {
    hide Slots, HasMain, NoOption, Tidy, ModeOf, OneMode, Modeless, HasHash;
    Fields4(Str(Dst), Str(Src), Skip('0'), Str(Text));
    FieldsMore(ModeChar, L4(Str(Dst), Str(Src), Skip('0'), Str(Text)));
  }

  lemma RefreshAckFits()
    ensures Fits(Format(QRefreshAck), QRefreshAck)
  {
    hide Slots, HasMain, NoOption, Tidy, ModeOf, OneMode, Modeless, HasHash;
    Fields4(Str(Dst), Str(Src), ModeChar, WatchOpt);
  }

  lemma JoinFits()
    ensures Fits(Format(QChannelJoin), QChannelJoin)
  {
    hide Slots, HasMain, NoOption, Tidy, ModeOf, OneMode, Modeless, HasHash;
    Fields4(Str(Src), Hash(Chan), ModeChar, Tail('0'));
  }

  lemma SmallFits(id: MsgId)
    requires id in {QInvalid, QRefreshRequest, QChanmemberRequest, QChanlistRequest}
    ensures Fits(Format(id), id)
  {
    if id != QInvalid { Fields1(Str(Src)); }
  }

  lemma TwoFits(id: MsgId)
    requires id in {QWatchChange, QTopicChange, QInfoRequest, QChanlistReply, QBeepSend}
    ensures Fits(Format(id), id)
  {
    hide Slots, HasMain, NoOption, Tidy, ModeOf, OneMode, Modeless, HasHash;
    var l := Format(id);
    Fields2(l.f, l.rest.f);
  }

  lemma MediumFits(id: MsgId)
    requires id in {QChannelBroadcast, QChannelMe, QChannelLeave, QMessageSend, QMessageMass, QRename}
    ensures Fits(Format(id), id)
  {
    hide Slots, HasMain, NoOption, Tidy, ModeOf, OneMode, Modeless, HasHash;
    var l := Format(id);
    Fields3(l.f, l.rest.f, l.rest.rest.f);
  }

  lemma OtherFits(id: MsgId)
    requires id in {QModeChange, QTopicReply, QChanmemberReply, QBeepAck}
    ensures Fits(Format(id), id)
  {
    hide Slots, HasMain, NoOption, Tidy, ModeOf, OneMode, Modeless, HasHash;
    var l := Format(id);
    Fields3(l.f, l.rest.f, l.rest.rest.f);
  }

  lemma PrivateFits(id: MsgId)
    requires id in {QPrivateText, QPrivateMe, QPrivateOpen, QPrivateClose}
    ensures Fits(Format(id), id)
  {
    hide Slots, HasMain, NoOption, Tidy, ModeOf, OneMode, Modeless, HasHash;
    var l := Format(id);
    Fields3(l.f, l.rest.f, l.rest.rest.f);
  }

  /** The layouts have the fields of their kind; a topic has its channel only in name. */
  lemma FormatFits(id: MsgId)
    ensures Fits(Format(id), id)
  {
    hide Fits, Format;
    match id
    case QInfoReply => InfoFits();
    case QMessageAck => MessageAckFits();
    case QRefreshAck => RefreshAckFits();
    case QChannelJoin => JoinFits();
    case QInvalid | QRefreshRequest | QChanmemberRequest | QChanlistRequest => SmallFits(id);
    case QWatchChange | QTopicChange | QInfoRequest | QChanlistReply | QBeepSend => TwoFits(id);
    case QChannelBroadcast | QChannelMe | QChannelLeave | QMessageSend | QMessageMass | QRename => MediumFits(id);
    case QPrivateText | QPrivateMe | QPrivateOpen | QPrivateClose => PrivateFits(id);
    case _ => OtherFits(id);
  }

  /** Exactly the messages with all their fields, and among topics those of Main, can be written. */
  lemma MakeQchatSucceeds(m: QcsMsg)
    ensures MakeQchat(m).ok <==>
      && m.id != QInvalid
      && (forall s :: s in Carries(m.id) ==> m.Get(s).Some?)
      && (IsTopic(m.id) ==> m.chan.Some? && IsMain(m.chan.value))
  {
    hide Format, Carries, IsMain;
    EncodeOk(Format(m.id), m);
    FormatFits(m.id);
    assert m.Get(Chan) == m.chan;
  }

  /** What is kept of a message in the layout of its kind is the normalised message. */
  lemma KeptIsNormalised(m: QcsMsg, mode: int)
    ensures Kept(Format(m.id), m, NEWMSG.(mode := mode, id := m.id)) == Normalised(m, mode)
  {
    hide Format, Slots, HasMain, ModeOf, Tidy, NoOption, TripMode;
    FormatFits(m.id);
    assert IsTopic(m.id) ==> Chan in Carries(m.id);
  }

  /** For every kind and all NUL-free fields: reading what was written succeeds and gives the
    * normalised message. */
  lemma QchatRoundTrip(m: QcsMsg, mode: int)
    requires MakeQchat(m).ok && CleanStrings(m)
    ensures ParseQchat(MakeQchat(m).bytes, mode) == Done(Normalised(m, mode))
  {
    hide Format, Slots, HasMain, ModeOf, Tidy, NoOption, Normalised, Encode, Decode, Kept, IdOf, Carries, Tag;
    var acc := NEWMSG.(mode := mode, id := m.id);
    var l := Format(m.id);
    var e := Encode(l, m);
    TagsDecide(Tag(m.id) + e.bytes, m.id);
    assert (Tag(m.id) + e.bytes)[|Tag(m.id)|..] == e.bytes + "";
    FormatFits(m.id);
    KeptIsNormalised(m, mode);
    assert NulFree(l, m) by {
      assert m.Get(Src) == m.src && m.Get(Dst) == m.dst && m.Get(Text) == m.text;
      assert m.Get(Supp) == m.supp && m.Get(Chan) == m.chan;
    }
    LayoutRoundTrip(l, m, "", acc, false);
  }

  /** A read message has the fields of its kind and no others, without a NUL in them. */
  lemma ParseIsWellFormed(s: string, mode: int)
    requires ParseQchat(s, mode).Done?
    ensures var m := ParseQchat(s, mode).m; m.id == IdOf(s) != QInvalid && WellFormed(m) && CleanStrings(m)
    ensures var m := ParseQchat(s, mode).m; IsTopic(m.id) ==> m.chan == Some("Main")
  {
    hide Format, Decode, IdOf, Tag, Slots, Tidy;
    var id := IdOf(s);
    TagsDecide(s, id);
    FormatFits(id);
    var acc := NEWMSG.(mode := mode, id := id);
    DecodedFields(Format(id), s[|Tag(id)|..], acc, false);
    var m := ParseQchat(s, mode).m;
    assert m.Get(Src) == m.src && m.Get(Dst) == m.dst && m.Get(Text) == m.text;
    assert m.Get(Supp) == m.supp && m.Get(Chan) == m.chan;
    assert acc.Get(Src) == acc.Get(Dst) == acc.Get(Text) == acc.Get(Supp) == acc.Get(Chan) == None;
  }

  /** What was read can be written again, and reading that gives the same message; only a refresh
    * acknowledgement that watches in another mode than normal loses its mode. */
  lemma ReadWriteRead(s: string, mode: int)
    requires ParseQchat(s, mode).Done?
    ensures var m := ParseQchat(s, mode).m;
      && MakeQchat(m).ok
      && (ParseQchat(MakeQchat(m).bytes, mode) == Done(m) <==>
            (m.id == QRefreshAck ==> PlainMode(m.mode) || m.mode == UMODE_NORMAL + UMODE_WATCH))
  {
    hide Format, Decode, IdOf, Tag, Slots, Tidy, MakeQchat;
    var id := IdOf(s);
    var m := ParseQchat(s, mode).m;
    var acc := NEWMSG.(mode := mode, id := id);
    TagsDecide(s, id);
    ParseIsWellFormed(s, mode);
    assert forall o :: o in Carries(m.id) ==> m.Get(o).Some?;
    MainIsMain();
    MakeQchatSucceeds(m);
    QchatRoundTrip(m, mode);
    FormatFits(id);
    if id == QRefreshAck {
      AckModeExactly(m, mode);
    } else {
      ModeReadTwice(Format(id), s[|Tag(id)|..], acc, false);
      assert Normalised(m, mode).mode == m.mode;
    }
    SameButMode(m, mode);
  }

  /** Nothing but the mode of a well-formed message can change on a trip. */
  lemma SameButMode(m: QcsMsg, mode: int)
    requires WellFormed(m) && (IsTopic(m.id) ==> m.chan == Some("Main"))
    ensures Normalised(m, mode) == m.(mode := Normalised(m, mode).mode)
  {
    hide Carries;
  }

  /** Whether a datagram stops being understood at a missing '#'. */
  predicate HashMissing(s: string) {
    var id := IdOf(s);
    || (id in {QChannelBroadcast, QChannelMe} && |s| > 1 && s[1] != '#')
    || (id in {QChannelJoin, QChannelLeave} && (
          var t := s[1..];
          Terminated(t) && |t| > IndexOf(t, NUL) + 1 && t[IndexOf(t, NUL) + 1] != '#'))
  }

  /** The reader cleans up after every failure but one: a missing '#' leaves a half-read message,
    * with a kind and perhaps a source but without the rest. */
  lemma HalfReadExactly(s: string, mode: int)
    requires ParseQchat(s, mode).Fail?
    ensures var m := ParseQchat(s, mode).m;
      && (m != m.Cleaned() <==> HashMissing(s))
      && (HashMissing(s) ==> m.id == IdOf(s) && m.chan == None && !WellFormed(m))
  {
    var id := IdOf(s);
    var acc := NEWMSG.(mode := mode, id := id);
    if HasChannelField(id) {
      var t := s[1..];
      if id in {QChannelBroadcast, QChannelMe} {
        HalfReadFirst(id, s, mode);
      } else {
        HalfReadSecond(id, s, mode);
      }
    } else if id != QInvalid {
      hide Format, Decode, IdOf, Tag;
      TagsDecide(s, id);
      FormatFits(id);
      FailsClean(Format(id), s[|Tag(id)|..], acc, false);
    }
  }

  /** A caller that goes on after a failed read, as the router does, has a message with exactly the fields of
    * its kind in hand unless the read failed at a missing '#'. */
  lemma HandedOverExactly(s: string, mode: int)
    ensures WellFormed(ParseQchat(s, mode).m) <==> ParseQchat(s, mode).Done? || !HashMissing(s)
  {
    hide ParseQchat, HashMissing;
    if ParseQchat(s, mode).Done? {
      ParseIsWellFormed(s, mode);
    } else {
      HalfReadExactly(s, mode);
    }
  }

  lemma HalfReadFirst(id: MsgId, s: string, mode: int)
    requires id in {QChannelBroadcast, QChannelMe} && IdOf(s) == id && ParseQchat(s, mode).Fail?
    ensures var m := ParseQchat(s, mode).m;
      && (m != m.Cleaned() <==> HashMissing(s))
      && (HashMissing(s) ==> m.id == id && m.chan == None && !WellFormed(m))
  {
    var t := s[1..];
    var acc := NEWMSG.(mode := mode, id := id);
    var rest := L2(Str(Src), Str(Text));
    assert Format(id) == Then(Hash(Chan), rest);
    TagsDecide(s, id);
    assert ParseQchat(s, mode) == Decode(Format(id), t, acc, false);
    if t != "" && t[0] == '#' && Terminated(t[1..]) {
      var k := IndexOf(t[1..], NUL);
      assert !HasHash(rest) by { Fields2(Str(Src), Str(Text)); }
      FailsClean(rest, t[1..][k + 1..], acc.Set(Chan, Some(t[1..][..k])), false);
    }
  }

  lemma HalfReadSecond(id: MsgId, s: string, mode: int)
    requires id in {QChannelJoin, QChannelLeave} && IdOf(s) == id && ParseQchat(s, mode).Fail?
    ensures var m := ParseQchat(s, mode).m;
      && (m != m.Cleaned() <==> HashMissing(s))
      && (HashMissing(s) ==> m.id == id && m.chan == None && !WellFormed(m))
  {
    var t := s[1..];
    var acc := NEWMSG.(mode := mode, id := id);
    var rest := if id == QChannelJoin then L2(ModeChar, Tail('0')) else L1(Tail('0'));
    assert Format(id) == Then(Str(Src), Then(Hash(Chan), rest));
    TagsDecide(s, id);
    assert ParseQchat(s, mode) == Decode(Format(id), t, acc, false);
    assert !HasHash(rest) by { Fields2(ModeChar, Tail('0')); }
    SecondHash(rest, t, acc);
  }

  /** A channel that comes second is what a failed read lacks exactly if its mark is missing. */
  lemma SecondHash(rest: Layout, t: string, acc: QcsMsg)
    requires !HasHash(rest) && acc.chan == None && acc.id != QInvalid
    requires Decode(Then(Str(Src), Then(Hash(Chan), rest)), t, acc, false).Fail?
    ensures var m := Decode(Then(Str(Src), Then(Hash(Chan), rest)), t, acc, false).m;
      var missing := Terminated(t) && |t| > IndexOf(t, NUL) + 1 && t[IndexOf(t, NUL) + 1] != '#';
      && (m != m.Cleaned() <==> missing)
      && (missing ==> m.id == acc.id && m.chan == None)
  {
    if Terminated(t) {
      var u := t[IndexOf(t, NUL) + 1..];
      var acc' := acc.Set(Src, Some(t[..IndexOf(t, NUL)]));
      assert acc'.chan == None;
      if u != "" && u[0] == '#' && Terminated(u[1..]) {
        var k := IndexOf(u[1..], NUL);
        FailsClean(rest, u[1..][k + 1..], acc'.Set(Chan, Some(u[1..][..k])), false);
      }
    }
  }

  /** The mode of a refresh acknowledgement survives exactly if it is plain, or normal and watching. */
  lemma AckModeExactly(m: QcsMsg, mode: int)
    requires m.id == QRefreshAck
    ensures Normalised(m, mode).mode == m.mode <==> PlainMode(m.mode) || m.mode == UMODE_NORMAL + UMODE_WATCH
  {
  }
}
