/** The QuickChat writer and reader as they run: a buffer filled behind a moving length, and a
  * moving pointer over the datagram. Both are proved against the tables of WireFormat. */
module QchatCodec {
  import opened Basics
  import opened QcsMessage
  import opened ChanList
  import opened WireFormat

  const QCP_MAXUDPSIZE := 0x200

  /** Whether to go on, or to give up on the message. */
  datatype Outcome = Pass | Refuse {
    predicate IsFailure() { Refuse? }
    function PropagateFailure(): Outcome { this }
  }

  /** What writing a string, or a NULL pointer, comes to. */
  function StrEnc(s: Option<string>): Enc {
    if s.Some? then Enc(true, s.value + [NUL]) else Enc(false, "")
  }

  // ---------------------------------------------------------------- writing

  class Writer {
    const buf: array<char>
    var len: nat
    ghost const msg: QcsMsg   // what is being written
    ghost const goal: Enc     // what all of it should come to
    ghost var todo: Layout    // the fields that are still to come

    ghost predicate Valid()
      reads this, buf
    {
      && len <= buf.Length
      && goal == Enc(Encode(todo, msg).ok, buf[..len] + Encode(todo, msg).bytes)
    }

    ghost predicate Next(f: Field, e: Enc)
      reads this
    {
      todo.Then? && todo.f == f && EncField(f, msg) == e && |goal.bytes| <= buf.Length
    }

    constructor (size: nat, ghost m: QcsMsg, ghost plan: Layout)
      ensures Valid() && len == 0 && msg == m && todo == plan && goal == Encode(plan, m)
      ensures fresh(this) && fresh(buf) && buf.Length == size
    {
      buf := new char[size];
      len := 0;
      msg, goal, todo := m, Encode(plan, m), plan;
      new;
      assert buf[..len] == [];
    }

    method AddChar(ch: char, ghost f: Field)
      requires Valid() && Next(f, Enc(true, [ch]))
      modifies this, buf
      ensures Valid() && todo == old(todo).rest
    {
      hide EncField;
      assert |Encode(todo.rest, msg).bytes| >= 0;
      assert |goal.bytes| == len + 1 + |Encode(todo.rest, msg).bytes|;
      ghost var before := buf[..len];
      buf[len] := ch;
      len := len + 1;
      assert buf[..len] == before + [ch];
      ghost var e := Encode(todo.rest, msg);
      assert before + ([ch] + e.bytes) == buf[..len] + e.bytes;
      todo := todo.rest;
    }

    /** The string is copied with its terminator; NULL gives up. */
    method AddStr(s: Option<string>, ghost f: Field) returns (o: Outcome)
      requires Valid() && Next(f, StrEnc(s))
      modifies this, buf
      ensures o.Pass? ==> Valid() && todo == old(todo).rest
      ensures o.Refuse? ==> !goal.ok
    {
      hide EncField;
      if s == None { return Refuse; }
      ghost var before := buf[..len];
      ghost var e := Encode(todo.rest, msg);
      var slen := |s.value| + 1;
      assert |goal.bytes| == len + slen + |e.bytes|;
      forall i | 0 <= i < slen {
        buf[len + i] := if i < |s.value| then s.value[i] else NUL;
      }
      len := len + slen;
      assert buf[..len] == before + (s.value + [NUL]);
      assert before + ((s.value + [NUL]) + e.bytes) == buf[..len] + e.bytes;
      todo := todo.rest;
      o := Pass;
    }

    method AddChan(s: Option<string>, ghost f: Field) returns (o: Outcome)
      requires Valid() && todo.Then? && todo.f == f && f.Hash? && msg.Get(f.slot) == s
      requires |goal.bytes| <= buf.Length
      modifies this, buf
      ensures o.Pass? ==> Valid() && todo == old(todo).rest
      ensures o.Refuse? ==> !goal.ok
    {
      ghost var rest := todo.rest;
      ghost var as2 := Then(Skip('#'), Then(Str(f.slot), rest));
      HashIsTwo(f.slot, rest, msg, buf[..len]);
      todo := as2;
      AddChar('#', Skip('#'));
      o := AddStr(s, Str(f.slot));
    }

    /** A topic's channel is not written, only compared. */
    method CheckMain(chan: Option<string>) returns (o: Outcome)
      requires Valid() && todo.Then? && todo.f == MainOnly && msg.chan == chan
      modifies this`todo
      ensures o.Pass? ==> Valid() && todo == old(todo).rest
      ensures o.Refuse? ==> !goal.ok
    {
      if chan == None || !IsMain(chan.value) { return Refuse; }
      assert "" + Encode(todo.rest, msg).bytes == Encode(todo.rest, msg).bytes;
      todo := todo.rest;
      o := Pass;
    }
  }

  lemma HashIsTwo(s: Slot, rest: Layout, m: QcsMsg, before: string)
    ensures var e := Encode(Then(Hash(s), rest), m);
      var e2 := Encode(Then(Skip('#'), Then(Str(s), rest)), m);
      e == e2
  {
    var e := Encode(Then(Str(s), rest), m);
    assert Encode(Then(Skip('#'), Then(Str(s), rest)), m) == Enc(e.ok, ['#'] + e.bytes);
    if m.Get(s).Some? {
      var r := Encode(rest, m);
      assert ['#'] + (m.Get(s).value + [NUL] + r.bytes) == (['#'] + m.Get(s).value + [NUL]) + r.bytes;
    } else {
      assert ['#'] + "" == ['#'];
    }
  }

  /** Tag and fields in the order they are written; the topic is checked before anything else. */
  ghost function Plan(id: MsgId): Layout {
    if id == QInvalid then End
    else if id == QTopicChange then L3(MainOnly, Skip('B'), Str(Text))
    else if |Tag(id)| == 1 then Then(Skip(Tag(id)[0]), Format(id))
    else Then(Skip(Tag(id)[0]), Then(Skip(Tag(id)[1]), Format(id)))
  }

  lemma TagLength(id: MsgId)
    ensures id != QInvalid ==> 1 <= |Tag(id)| <= 2
  {
  }

  /** A topic is checked first and written after; the table has it the other way round. */
  lemma TopicPlan(m: QcsMsg)
    ensures var e, p := Encode(L2(Str(Text), MainOnly), m), Encode(L3(MainOnly, Skip('B'), Str(Text)), m);
      e.ok == p.ok && (e.ok ==> p.bytes == "B" + e.bytes)
  {
    var text := Encode(L1(Str(Text)), m);
    assert Encode(End, m) == Enc(true, "");
    assert Encode(L2(Skip('B'), Str(Text)), m) == Enc(text.ok, ['B'] + text.bytes);
    if m.text.Some? {
      assert text.bytes == m.text.value + [NUL] + "" == m.text.value + [NUL];
      var main := Encode(L1(MainOnly), m);
      assert main.ok ==> main.bytes == "" + "";
      assert main.ok ==> Encode(L2(Str(Text), MainOnly), m).bytes == m.text.value + [NUL] + main.bytes;
    }
  }

  lemma PlanEncodes(m: QcsMsg)
    requires m.id != QInvalid
    ensures Encode(Plan(m.id), m).ok == MakeQchat(m).ok
    ensures MakeQchat(m).ok ==> Encode(Plan(m.id), m) == MakeQchat(m)
  {
    var t := Tag(m.id);
    var e := Encode(Format(m.id), m);
    TagLength(m.id);
    if m.id == QTopicChange {
      TopicPlan(m);
    } else {
      TagPlan(m, t, e);
    }
  }

  lemma TagPlan(m: QcsMsg, t: string, e: Enc)
    requires m.id != QInvalid && m.id != QTopicChange && t == Tag(m.id) && 1 <= |t| <= 2
    requires e == Encode(Format(m.id), m)
    ensures Encode(Plan(m.id), m) == Enc(e.ok, t + e.bytes)
  {
    hide Format, Tag;
    if |t| == 1 {
      assert [t[0]] == t;
    } else {
      var p := Then(Skip(t[1]), Format(m.id));
      assert Encode(p, m) == Enc(e.ok, [t[1]] + e.bytes);
      assert [t[0]] + ([t[1]] + e.bytes) == t + e.bytes;
    }
  }

  /** qcs__make_qchat_msg: the buffer and the length of what was put in it, or a refusal. */
  method MakeQchatMsg(m: QcsMsg) returns (o: Outcome, msgBuf: array<char>, msgLen: nat)
    requires |Encode(Plan(m.id), m).bytes| <= QCP_MAXUDPSIZE
    ensures o.Pass? <==> MakeQchat(m).ok
    ensures o.Pass? ==> msgLen <= msgBuf.Length && msgBuf[..msgLen] == MakeQchat(m).bytes
    ensures fresh(msgBuf)
  {
    assert Encode(End, m) == Enc(true, "");
    hide Encode, EncField, IsMain;
    var w := new Writer(QCP_MAXUDPSIZE, m, Plan(m.id));
    msgBuf, msgLen := w.buf, 0;
    if m.id == QInvalid { return Refuse, msgBuf, 0; }
    PlanEncodes(m);
    o := FillQchat(w, m);
    msgLen := w.len;
    if o.Pass? {
      assert w.buf[..w.len] + "" == w.buf[..w.len];
    }
  }

  /** Cases of the switch: messages on a channel and topics. */
  method FillChannel(w: Writer, m: QcsMsg) returns (o: Outcome)
    requires w.Valid() && w.msg == m && w.todo == Plan(m.id)
    requires m.id in {QChannelBroadcast, QChannelJoin, QChannelLeave, QChannelMe, QTopicReply, QTopicChange}
    requires |w.goal.bytes| <= w.buf.Length
    modifies w, w.buf
    ensures o.Pass? ==> w.Valid() && w.todo == End
    ensures o.Refuse? ==> !w.goal.ok
  {
    hide Encode, IsMain, NetMode, NetWatch, Writer.Valid;
    if m.id == QChannelBroadcast {
      w.AddChar('2', Skip('2'));
      :- w.AddChan(m.chan, Hash(Chan));
      :- w.AddStr(m.src, Str(Src));
      :- w.AddStr(m.text, Str(Text));
    } else if m.id == QChannelJoin {
      w.AddChar('4', Skip('4'));
      :- w.AddStr(m.src, Str(Src));
      :- w.AddChan(m.chan, Hash(Chan));
      w.AddChar(NetMode(m.mode), ModeChar);
      w.AddChar('0', Tail('0'));
    } else if m.id == QChannelLeave {
      w.AddChar('5', Skip('5'));
      :- w.AddStr(m.src, Str(Src));
      :- w.AddChan(m.chan, Hash(Chan));
      w.AddChar('0', Tail('0'));
    } else if m.id == QChannelMe {
      w.AddChar('A', Skip('A'));
      :- w.AddChan(m.chan, Hash(Chan));
      :- w.AddStr(m.src, Str(Src));
      :- w.AddStr(m.text, Str(Text));
    } else if m.id == QTopicReply {
      w.AddChar('C', Skip('C'));
      :- w.AddStr(m.dst, Str(Dst));
      :- w.AddStr(m.text, Str(Text));
      :- w.CheckMain(m.chan);
    } else {
      :- w.CheckMain(m.chan);
      w.AddChar('B', Skip('B'));
      :- w.AddStr(m.text, Str(Text));
    }
    o := Pass;
  }

  /** Cases of the switch: users coming, going by another name or in another mode. */
  method FillPresence(w: Writer, m: QcsMsg) returns (o: Outcome)
    requires w.Valid() && w.msg == m && w.todo == Plan(m.id)
    requires m.id in {QRefreshRequest, QRefreshAck, QRename, QModeChange, QWatchChange}
    requires |w.goal.bytes| <= w.buf.Length
    modifies w, w.buf
    ensures o.Pass? ==> w.Valid() && w.todo == End
    ensures o.Refuse? ==> !w.goal.ok
  {
    hide Encode, IsMain, NetMode, NetWatch, Writer.Valid;
    if m.id == QRefreshRequest {
      w.AddChar('0', Skip('0'));
      :- w.AddStr(m.src, Str(Src));
    } else if m.id == QRefreshAck {
      w.AddChar('1', Skip('1'));
      :- w.AddStr(m.dst, Str(Dst));
      :- w.AddStr(m.src, Str(Src));
      w.AddChar(NetMode(m.mode), ModeChar);
      w.AddChar(NetWatch(m.mode), WatchOpt);
    } else if m.id == QRename {
      w.AddChar('3', Skip('3'));
      :- w.AddStr(m.src, Str(Src));
      :- w.AddStr(m.text, Str(Text));
      w.AddChar('0', Tail('0'));
    } else if m.id == QModeChange {
      w.AddChar('D', Skip('D'));
      :- w.AddStr(m.src, Str(Src));
      w.AddChar(NetMode(m.mode), ModeChar);
      w.AddChar('0', Tail('0'));
    } else {
      w.AddChar('M', Skip('M'));
      :- w.AddStr(m.src, Str(Src));
      w.AddChar(NetWatch(m.mode), WatchChar);
    }
    o := Pass;
  }

  /** Cases of the switch: messages to a user. */
  method FillMessage(w: Writer, m: QcsMsg) returns (o: Outcome)
    requires w.Valid() && w.msg == m && w.todo == Plan(m.id)
    requires m.id in {QMessageAck, QMessageMass, QMessageSend}
    requires |w.goal.bytes| <= w.buf.Length
    modifies w, w.buf
    ensures o.Pass? ==> w.Valid() && w.todo == End
    ensures o.Refuse? ==> !w.goal.ok
  {
    hide Encode, IsMain, NetMode, NetWatch, Writer.Valid;
    if m.id == QMessageAck {
      w.AddChar('7', Skip('7'));
      w.AddChar(NetMode(m.mode), ModeChar);
      :- w.AddStr(m.dst, Str(Dst));
      :- w.AddStr(m.src, Str(Src));
      w.AddChar('0', Skip('0'));
      :- w.AddStr(m.text, Str(Text));
    } else if m.id == QMessageMass {
      w.AddChar('E', Skip('E'));
      :- w.AddStr(m.src, Str(Src));
      :- w.AddStr(m.dst, Str(Dst));
      :- w.AddStr(m.text, Str(Text));
    } else {
      w.AddChar('6', Skip('6'));
      :- w.AddStr(m.src, Str(Src));
      :- w.AddStr(m.dst, Str(Dst));
      :- w.AddStr(m.text, Str(Text));
    }
    o := Pass;
  }

  /** Cases of the switch: user information. */
  method FillInfo(w: Writer, m: QcsMsg) returns (o: Outcome)
    requires w.Valid() && w.msg == m && w.todo == Plan(m.id)
    requires m.id == QInfoReply
    requires |w.goal.bytes| <= w.buf.Length
    modifies w, w.buf
    ensures o.Pass? ==> w.Valid() && w.todo == End
    ensures o.Refuse? ==> !w.goal.ok
  {
    hide Encode, IsMain, NetMode, NetWatch, Writer.Valid;
    w.AddChar('G', Skip('G'));
    :- w.AddStr(m.dst, Str(Dst));
    :- w.AddStr(m.src, Str(Src));
    :- w.AddStr(m.text, Str(Text));
    o := FillDetails(w, m);
  }

  /** .. with three strings of no use to the reader. */
  method FillDetails(w: Writer, m: QcsMsg) returns (o: Outcome)
    requires w.Valid() && w.msg == m && |w.goal.bytes| <= w.buf.Length
    requires w.todo == Then(Filler("QcProto1.6"), L4(Filler("0 %"), Filler("0 Kb"), Str(Chan), Str(Supp)))
    modifies w, w.buf
    ensures o.Pass? ==> w.Valid() && w.todo == End
    ensures o.Refuse? ==> !w.goal.ok
  {
    hide Encode, IsMain, NetMode, NetWatch, Writer.Valid;
    :- w.AddStr(Some("QcProto1.6"), Filler("QcProto1.6"));
    :- w.AddStr(Some("0 %"), Filler("0 %"));
    :- w.AddStr(Some("0 Kb"), Filler("0 Kb"));
    :- w.AddStr(m.chan, Str(Chan));
    :- w.AddStr(m.supp, Str(Supp));
    o := Pass;
  }

  /** Cases of the switch: lists of members and channels, and a request for information. */
  method FillList(w: Writer, m: QcsMsg) returns (o: Outcome)
    requires w.Valid() && w.msg == m && w.todo == Plan(m.id)
    requires m.id in {QInfoRequest, QChanmemberReply, QChanmemberRequest, QChanlistReply, QChanlistRequest}
    requires |w.goal.bytes| <= w.buf.Length
    modifies w, w.buf
    ensures o.Pass? ==> w.Valid() && w.todo == End
    ensures o.Refuse? ==> !w.goal.ok
  {
    hide Encode, IsMain, NetMode, NetWatch, Writer.Valid;
    if m.id == QInfoRequest {
      w.AddChar('F', Skip('F'));
      :- w.AddStr(m.dst, Str(Dst));
      :- w.AddStr(m.src, Str(Src));
    } else if m.id == QChanmemberReply {
      w.AddChar('K', Skip('K'));
      :- w.AddStr(m.dst, Str(Dst));
      :- w.AddStr(m.chan, Str(Chan));
      :- w.AddStr(m.src, Str(Src));
    } else if m.id == QChanmemberRequest {
      w.AddChar('L', Skip('L'));
      :- w.AddStr(m.src, Str(Src));
    } else if m.id == QChanlistReply {
      w.AddChar('O', Skip('O'));
      :- w.AddStr(m.dst, Str(Dst));
      :- w.AddStr(m.chan, Str(Chan));
    } else {
      w.AddChar('N', Skip('N'));
      :- w.AddStr(m.src, Str(Src));
    }
    o := Pass;
  }

  /** Cases of the switch: beeps, with a tag of two bytes. */
  method FillBeep(w: Writer, m: QcsMsg) returns (o: Outcome)
    requires w.Valid() && w.msg == m && w.todo == Plan(m.id)
    requires m.id in {QBeepSend, QBeepAck}
    requires |w.goal.bytes| <= w.buf.Length
    modifies w, w.buf
    ensures o.Pass? ==> w.Valid() && w.todo == End
    ensures o.Refuse? ==> !w.goal.ok
  {
    hide Encode, IsMain, NetMode, NetWatch, Writer.Valid;
    w.AddChar('H', Skip('H'));
    var which := if m.id == QBeepAck then '1' else '0';
    w.AddChar(which, Skip(which));
    :- w.AddStr(m.dst, Str(Dst));
    :- w.AddStr(m.src, Str(Src));
    if m.id == QBeepAck {
      w.AddChar('0', Tail('0'));
    }
    o := Pass;
  }

  /** Cases of the switch: private talk. */
  method FillPrivate(w: Writer, m: QcsMsg) returns (o: Outcome)
    requires w.Valid() && w.msg == m && w.todo == Plan(m.id)
    requires m.id in {QPrivateMe, QPrivateText, QPrivateOpen, QPrivateClose}
    requires |w.goal.bytes| <= w.buf.Length
    modifies w, w.buf
    ensures o.Pass? ==> w.Valid() && w.todo == End
    ensures o.Refuse? ==> !w.goal.ok
  {
    hide Encode, IsMain, NetMode, NetWatch, Writer.Valid;
    if m.id == QPrivateMe || m.id == QPrivateText {
      w.AddChar('J', Skip('J'));
      var which := if m.id == QPrivateMe then '3' else '2';
      w.AddChar(which, Skip(which));
      :- w.AddStr(m.src, Str(Src));
      :- w.AddStr(m.dst, Str(Dst));
      :- w.AddStr(m.text, Str(Text));
    } else {
      w.AddChar('J', Skip('J'));
      var which := if m.id == QPrivateClose then '1' else '0';
      w.AddChar(which, Skip(which));
      :- w.AddStr(m.src, Str(Src));
      :- w.AddStr(m.dst, Str(Dst));
      w.AddChar('0', Tail('0'));
    }
    o := Pass;
  }

  /** The switch of qcs__make_qchat_msg. */
  method FillQchat(w: Writer, m: QcsMsg) returns (o: Outcome)
    requires w.Valid() && w.msg == m && w.todo == Plan(m.id) && m.id != QInvalid
    requires |w.goal.bytes| <= w.buf.Length
    modifies w, w.buf
    ensures o.Pass? ==> w.Valid() && w.todo == End
    ensures o.Refuse? ==> !w.goal.ok
  {
    hide Plan, Writer.Valid;
    match m.id {
      case QChannelBroadcast | QChannelJoin | QChannelLeave | QChannelMe | QTopicReply | QTopicChange =>
        o := FillChannel(w, m);
      case QRefreshRequest | QRefreshAck | QRename | QModeChange | QWatchChange =>
        o := FillPresence(w, m);
      case QMessageAck | QMessageMass | QMessageSend =>
        o := FillMessage(w, m);
      case QInfoReply =>
        o := FillInfo(w, m);
      case QInfoRequest | QChanmemberReply | QChanmemberRequest | QChanlistReply | QChanlistRequest =>
        o := FillList(w, m);
      case QBeepSend | QBeepAck =>
        o := FillBeep(w, m);
      case QPrivateMe | QPrivateText | QPrivateOpen | QPrivateClose =>
        o := FillPrivate(w, m);
    }
  }

  // ---------------------------------------------------------------- reading

  /** A pointer and a count moving over memory, and the message that is being filled in. */
  class Reader {
    const data: string         // the memory the pointer moves over
    var pos: nat
    var left: nat
    var msg: QcsMsg
    ghost const strict: bool   // whether a missing '#' cleans up
    ghost var todo: Layout     // the fields that are still to come
    ghost var goal: Dec        // what reading them should come to

    ghost predicate Inside()
      reads this`pos, this`left
    {
      pos + left <= |data|
    }

    ghost function Ahead(): string
      requires Inside()
      reads this`pos, this`left
    {
      data[pos..pos + left]
    }

    ghost predicate Valid()
      reads this
    {
      Inside() && Decode(todo, Ahead(), msg, strict) == goal
    }

    constructor (memory: string, from: nat, len: nat, m: QcsMsg, ghost s: bool)
      requires from + len <= |memory|
      ensures data == memory && pos == from && left == len && msg == m && strict == s
      ensures Inside() && Ahead() == memory[from..from + len]
    {
      data, pos, left, msg := memory, from, len, m;
      strict, todo, goal := s, End, Done(m);
    }

    /** What is left to read, taken apart as the plan says. */
    ghost method Follow(plan: Layout)
      requires Inside()
      modifies this`todo, this`goal
      ensures Valid() && todo == plan && goal == Decode(plan, Ahead(), msg, strict)
    {
      todo, goal := plan, Decode(plan, Ahead(), msg, strict);
    }

    method Cleanup()
      modifies this`msg
      ensures msg == old(msg).Cleaned()
    {
      msg := QcsMsg(QInvalid, msg.mode, None, None, None, None, None);
    }

    /** qcs__gatherstr: up to a NUL, which has to be there. */
    method GatherStr() returns (r: Option<string>)
      requires Inside()
      modifies this`pos, this`left
      ensures Inside()
      ensures r.Some? <==> Terminated(old(Ahead()))
      ensures r.Some? ==> r.value == Gathered(old(Ahead())) && Ahead() == Behind(old(Ahead()))
      ensures r.None? ==> pos == old(pos) && left == old(left)
    {
      ghost var s := Ahead();
      var t, ln := pos, left;
      while ln != 0 && data[t] != NUL
        invariant pos <= t && 0 <= ln && t + ln == pos + left
        invariant forall i :: 0 <= i < t - pos ==> s[i] != NUL
      {
        assert data[t] == s[t - pos];
        ln, t := ln - 1, t + 1;
      }
      if ln == 0 { return None; }
      assert s[t - pos] == NUL;
      ln := left - ln + 1;
      r := Some(data[pos..t]);
      assert r.value == s[..t - pos];
      left := left - ln;
      pos := pos + ln;
    }

    /** A byte that is there, whatever it means. */
    method TakeChar() returns (o: Outcome, ch: char)
      requires Inside()
      modifies this`pos, this`left, this`msg
      ensures Inside()
      ensures o.Pass? <==> old(Ahead()) != ""
      ensures o.Pass? ==> ch == old(Ahead())[0] && Ahead() == old(Ahead())[1..] && msg == old(msg)
      ensures o.Refuse? ==> msg == old(msg).Cleaned()
    {
      if left == 0 {
        Cleanup();
        return Refuse, NUL;
      }
      ghost var s := Ahead();
      ch := data[pos];
      assert ch == s[0];
      pos, left := pos + 1, left - 1;
      assert Ahead() == s[1..];
      o := Pass;
    }

    method GetStr(slot: Slot) returns (o: Outcome)
      requires Valid() && todo.Then? && todo.f == Str(slot)
      modifies this
      ensures o.Pass? ==> Valid() && todo == old(todo).rest && goal == old(goal)
      ensures o.Refuse? ==> old(goal) == Fail(msg)
    {
      hide Gathered, Behind, Terminated, Reader.Ahead;
      var s := GatherStr();
      msg := msg.Set(slot, s);
      if s == None {
        SetAndClean(old(msg), slot);
        Cleanup();
        return Refuse;
      }
      todo := todo.rest;
      o := Pass;
    }

    /** A string that is dropped. */
    method PassStr(ghost f: Field) returns (o: Outcome)
      requires Valid() && todo.Then? && todo.f == f && f.Filler?
      modifies this
      ensures o.Pass? ==> Valid() && todo == old(todo).rest && goal == old(goal)
      ensures o.Refuse? ==> old(goal) == Fail(msg)
    {
      hide Gathered, Behind, Terminated, Reader.Ahead;
      var s := GatherStr();
      if s == None {
        Cleanup();
        return Refuse;
      }
      todo := todo.rest;
      o := Pass;
    }

    method GetChan() returns (o: Outcome)
      requires Valid() && todo.Then? && todo.f == Hash(Chan) && !strict
      modifies this
      ensures o.Pass? ==> Valid() && todo == old(todo).rest && goal == old(goal)
      ensures o.Refuse? ==> old(goal) == Fail(msg)
    {
      hide Decode;
      HashReads(Chan, todo.rest, Ahead(), msg, strict);
      var ch;
      o, ch := TakeChar();
      if o.Refuse? { return Refuse; }
      if ch != '#' { return Refuse; }
      ghost var rest := todo.rest;
      todo := Then(Str(Chan), rest);
      o := GetStr(Chan);
    }

    /** The same with a missing '#' cleaned up after. */
    method GetChanClean() returns (o: Outcome)
      requires Valid() && todo.Then? && todo.f == Hash(Chan) && strict
      modifies this
      ensures o.Pass? ==> Valid() && todo == old(todo).rest && goal == old(goal)
      ensures o.Refuse? ==> old(goal) == Fail(msg)
    {
      hide Decode;
      HashReads(Chan, todo.rest, Ahead(), msg, strict);
      var ch;
      o, ch := TakeChar();
      if o.Refuse? { return Refuse; }
      if ch != '#' {
        Cleanup();
        return Refuse;
      }
      ghost var rest := todo.rest;
      todo := Then(Str(Chan), rest);
      o := GetStr(Chan);
    }

    method GetMode() returns (o: Outcome)
      requires Valid() && todo.Then? && todo.f == ModeChar
      modifies this
      ensures o.Pass? ==> Valid() && todo == old(todo).rest && goal == old(goal)
      ensures o.Refuse? ==> old(goal) == Fail(msg)
    {
      var ch;
      o, ch := TakeChar();
      if o.Refuse? { return Refuse; }
      msg := msg.(mode := LocalMode(ch));
      if msg.mode == UMODE_INVALID {
        Cleanup();
        return Refuse;
      }
      todo := todo.rest;
    }

    method GetWatch() returns (o: Outcome)
      requires Valid() && todo.Then? && todo.f == WatchChar
      modifies this
      ensures o.Pass? ==> Valid() && todo == old(todo).rest && goal == old(goal)
      ensures o.Refuse? ==> old(goal) == Fail(msg)
    {
      var ch;
      o, ch := TakeChar();
      if o.Refuse? { return Refuse; }
      msg := msg.(mode := if ch == '1' then UMODE_WATCH else 0);
      todo := todo.rest;
    }

    /** The watch flag is taken if there is anything left. */
    method GetOptionalWatch() returns (o: Outcome)
      requires Valid() && todo.Then? && todo.f == WatchOpt
      modifies this
      ensures o.Pass? ==> Valid() && todo == old(todo).rest && goal == old(goal)
      ensures o.Refuse? ==> old(goal) == Fail(msg)
    {
      if left != 0 {
        var ch;
        o, ch := TakeChar();
        if o.Refuse? { return Refuse; }
        if ch == '1' {
          msg := msg.(mode := WithWatch(msg.mode));
        }
      }
      todo := todo.rest;
      o := Pass;
    }

    method PassChar(ghost f: Field) returns (o: Outcome)
      requires Valid() && todo.Then? && todo.f == f && f.Skip?
      modifies this
      ensures o.Pass? ==> Valid() && todo == old(todo).rest && goal == old(goal)
      ensures o.Refuse? ==> old(goal) == Fail(msg)
    {
      var ch;
      o, ch := TakeChar();
      if o.Refuse? { return Refuse; }
      todo := todo.rest;
    }

    /** The channel of a topic is filled in. */
    method FillMain()
      requires Valid() && todo.Then? && todo.f == MainOnly
      modifies this
      ensures Valid() && todo == old(todo).rest && goal == old(goal)
    {
      msg := msg.(chan := Some("Main"));
      todo := todo.rest;
    }

    /** A last byte is left where it is. */
    ghost method LeaveTail()
      requires Valid() && todo.Then? && todo.f.Tail?
      modifies this`todo
      ensures Valid() && todo == End && goal == old(goal)
    {
      todo := End;
    }

    /** There are no fields left: the message is as it should be. */
    lemma Finished()
      requires Valid() && todo == End
      ensures goal == Done(msg)
    {
    }
  }

  /** A channel is a mark and then a string. */
  lemma HashReads(slot: Slot, rest: Layout, s: string, m: QcsMsg, strict: bool)
    ensures var d := Decode(Then(Hash(slot), rest), s, m, strict);
      d == if s == "" then Fail(m.Cleaned())
           else if s[0] != '#' then Fail(if strict then m.Cleaned() else m)
           else Decode(Then(Str(slot), rest), s[1..], m, strict)
  {
    hide ReadStr;
  }

  lemma SetAndClean(m: QcsMsg, slot: Slot)
    ensures m.Set(slot, None).Cleaned() == m.Cleaned()
  {
  }

  /** qcs__parse_qchat_msg on the count bytes in front of the pointer. */
  method ParseQchatMsg(r: Reader) returns (ok: bool)
    requires r.Inside() && r.left > 0 && !r.strict
    modifies r
    ensures ParseQchat(old(r.Ahead()), old(r.msg.mode)) == if ok then Done(r.msg) else Fail(r.msg)
  {
    hide Decode, Format, IdOf, Tag, FirstByte, SecondByte;
    r.Cleanup();
    ghost var s := r.Ahead();
    ghost var blank := r.msg;
    assert blank == NEWMSG.(mode := old(r.msg.mode));
    var o, ch := r.TakeChar();
    var id := QInvalid;
    if ch == 'H' || ch == 'J' {
      var which;
      o, which := r.TakeChar();
      if o.Pass? { id := SecondByte(ch, which); }
      TagOfTwo(s);
    } else {
      id := FirstByte(ch);
      TagOfOne(s);
    }
    if id == QInvalid { return false; }
    TagsDecide(s, id);
    r.msg := r.msg.(id := id);
    r.Follow(Format(id));
    o := TakeFields(r, id);
    if o.Pass? { r.Finished(); }
    ok := o.Pass?;
  }

  /** The kinds with a tag of two bytes. */
  function SecondByte(ch: char, which: char): MsgId {
    if ch == 'H' then if which == '1' then QBeepAck else if which == '0' then QBeepSend else QInvalid
    else if which == '0' then QPrivateOpen
    else if which == '1' then QPrivateClose
    else if which == '2' then QPrivateText
    else if which == '3' then QPrivateMe
    else QInvalid
  }

  function FirstByte(ch: char): MsgId {
    match ch
    case '0' => QRefreshRequest
    case '1' => QRefreshAck
    case '2' => QChannelBroadcast
    case '4' => QChannelJoin
    case '5' => QChannelLeave
    case 'A' => QChannelMe
    case '7' => QMessageAck
    case 'E' => QMessageMass
    case '6' => QMessageSend
    case '3' => QRename
    case 'D' => QModeChange
    case 'M' => QWatchChange
    case 'C' => QTopicReply
    case 'B' => QTopicChange
    case 'G' => QInfoReply
    case 'F' => QInfoRequest
    case 'K' => QChanmemberReply
    case 'L' => QChanmemberRequest
    case 'O' => QChanlistReply
    case 'N' => QChanlistRequest
    case _ => QInvalid
  }

  lemma TagOfTwo(s: string)
    requires s != "" && (s[0] == 'H' || s[0] == 'J')
    ensures IdOf(s) == if |s| < 2 then QInvalid else SecondByte(s[0], s[1..][0])
    ensures IdOf(s) != QInvalid ==> |Tag(IdOf(s))| == 2 && s[1..][1..] == s[2..]
  {
  }

  lemma TagOfOne(s: string)
    requires s != "" && s[0] != 'H' && s[0] != 'J'
    ensures IdOf(s) == FirstByte(s[0])
    ensures IdOf(s) != QInvalid ==> |Tag(IdOf(s))| == 1
  {
  }

  /** The switch of qcs__parse_qchat_msg, behind the tag. */
  method TakeFields(r: Reader, id: MsgId) returns (o: Outcome)
    requires r.Valid() && r.todo == Format(id) && id != QInvalid && !r.strict
    modifies r
    ensures o.Pass? ==> r.Valid() && r.todo == End && r.goal == old(r.goal)
    ensures o.Refuse? ==> old(r.goal) == Fail(r.msg)
  {
    hide Decode, Reader.Valid;
    if id == QRefreshRequest || id == QChanmemberRequest || id == QChanlistRequest {
      :- r.GetStr(Src);
    } else if id == QRefreshAck {
      :- r.GetStr(Dst);
      :- r.GetStr(Src);
      :- r.GetMode();
      :- r.GetOptionalWatch();
    } else if id == QChannelBroadcast || id == QChannelMe {
      :- r.GetChan();
      :- r.GetStr(Src);
      :- r.GetStr(Text);
    } else if id == QChannelJoin {
      :- r.GetStr(Src);
      :- r.GetChan();
      :- r.GetMode();
      r.LeaveTail();
    } else if id == QChannelLeave {
      :- r.GetStr(Src);
      :- r.GetChan();
      r.LeaveTail();
    } else if id == QMessageAck {
      :- r.GetMode();
      :- r.GetStr(Dst);
      :- r.GetStr(Src);
      :- r.PassChar(Skip('0'));
      :- r.GetStr(Text);
    } else {
      o := TakeMoreFields(r, id);
      return o;
    }
    o := Pass;
  }

  method TakeMoreFields(r: Reader, id: MsgId) returns (o: Outcome)
    requires r.Valid() && r.todo == Format(id) && !r.strict
    requires id !in {QInvalid, QRefreshRequest, QChanmemberRequest, QChanlistRequest, QRefreshAck, QChannelBroadcast,
                     QChannelMe, QChannelJoin, QChannelLeave, QMessageAck}
    modifies r
    ensures o.Pass? ==> r.Valid() && r.todo == End && r.goal == old(r.goal)
    ensures o.Refuse? ==> old(r.goal) == Fail(r.msg)
  {
    hide Decode, Reader.Valid;
    if id == QMessageMass || id == QMessageSend || id == QPrivateText || id == QPrivateMe {
      :- r.GetStr(Src);
      :- r.GetStr(Dst);
      :- r.GetStr(Text);
    } else if id == QRename {
      :- r.GetStr(Src);
      :- r.GetStr(Text);
      r.LeaveTail();
    } else if id == QModeChange {
      :- r.GetStr(Src);
      :- r.GetMode();
      r.LeaveTail();
    } else if id == QWatchChange {
      :- r.GetStr(Src);
      :- r.GetWatch();
    } else if id == QTopicReply {
      :- r.GetStr(Dst);
      :- r.GetStr(Text);
      r.FillMain();
    } else if id == QTopicChange {
      :- r.GetStr(Text);
      r.FillMain();
    } else {
      o := TakeLastFields(r, id);
      return o;
    }
    o := Pass;
  }

  method TakeLastFields(r: Reader, id: MsgId) returns (o: Outcome)
    requires r.Valid() && r.todo == Format(id) && !r.strict
    requires id in {QInfoReply, QInfoRequest, QBeepSend, QChanmemberReply, QChanlistReply, QBeepAck, QPrivateOpen,
                    QPrivateClose}
    modifies r
    ensures o.Pass? ==> r.Valid() && r.todo == End && r.goal == old(r.goal)
    ensures o.Refuse? ==> old(r.goal) == Fail(r.msg)
  {
    hide Decode, Reader.Valid;
    if id == QInfoReply {
      :- r.GetStr(Dst);
      :- r.GetStr(Src);
      :- r.GetStr(Text);
      :- r.PassStr(Filler("QcProto1.6"));
      :- r.PassStr(Filler("0 %"));
      :- r.PassStr(Filler("0 Kb"));
      :- r.GetStr(Chan);
      :- r.GetStr(Supp);
    } else if id == QInfoRequest || id == QBeepSend {
      :- r.GetStr(Dst);
      :- r.GetStr(Src);
    } else if id == QChanmemberReply {
      :- r.GetStr(Dst);
      :- r.GetStr(Chan);
      :- r.GetStr(Src);
    } else if id == QChanlistReply {
      :- r.GetStr(Dst);
      :- r.GetStr(Chan);
    } else if id == QBeepAck {
      :- r.GetStr(Dst);
      :- r.GetStr(Src);
      r.LeaveTail();
    } else {
      :- r.GetStr(Src);
      :- r.GetStr(Dst);
      r.LeaveTail();
    }
    o := Pass;
  }
}
