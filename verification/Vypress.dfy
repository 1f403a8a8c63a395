/** The Vypress writer and reader as they run, with their doubly linked list of signatures. */
module Vypress {
  import opened Basics
  import opened DList
  import opened QcsMessage
  import opened ChanList
  import opened WireFormat
  import opened QchatCodec
  import opened VypressModel

  /** The signatures seen lately: dup_head, dup_tail and dup_count. */
  class DupList {
    const list: List<string>

    ghost predicate Valid()
      reads this, list, list.nodes, list.members
      ensures Valid() ==> list.Valid() && list.count == |list.nodes|
    {
      list.Valid() && list.count <= QCS_SIGNATURE_MAX_DUP
    }

    ghost function Window(): (r: seq<string>)
      reads list, list.nodes
      ensures |r| == |list.nodes|
    {
      DataOf(list.nodes)
    }

    constructor ()
      ensures Valid() && Window() == [] && fresh(list) && list.members == {}
    {
      list := new List<string>();
    }

    /** qcs__known_dup_entry. */
    method KnownDupEntry(signature: string) returns (known: bool)
      requires Valid()
      ensures known <==> signature in Window()
    {
      var e := list.first;
      ghost var k := 0;
      while e != null
        invariant k <= |list.nodes|
        invariant e == if k < |list.nodes| then list.nodes[k] else null
        invariant signature !in Window()[..k]
        decreases |list.nodes| - k
      {
        if e.data == signature {
          assert Window()[k] == signature;
          return true;
        }
        assert Window()[..k + 1] == Window()[..k] + [e.data];
        assert k < |list.nodes| - 1 ==> list.nodes[k].next == list.nodes[k + 1];
        e := e.next;
        k := k + 1;
      }
      assert Window()[..k] == Window();
      known := false;
    }

    /** qcs__remove_last_entry. */
    method RemoveLastEntry()
      requires Valid() && list.count != 0
      modifies list, list.members
      ensures Valid() && list.count == old(list.count) - 1
      ensures Window() == old(Window())[..old(list.count) - 1]
      ensures list.members <= old(list.members)
    {
      ghost var w := Window();
      ghost var nodes := list.nodes;
      var dead := list.last;
      list.Remove(dead, list.count - 1);
      assert forall i :: 0 <= i < |list.nodes| ==> list.nodes[i] == nodes[i] && nodes[i] in old(list.members);
      assert Window() == w[..|w| - 1];
    }

    /** qcs__insert_dup_entry. */
    method InsertDupEntry(signature: string)
      requires Valid()
      modifies list, list.members
      ensures Valid() && Window() == Register(old(Window()), signature)
      ensures fresh(list.members - old(list.members))
    {
      hide List.Valid;
      ghost var w := Window();
      var e := new Node<string>(signature);
      assert Window() == w;
      if list.count == QCS_SIGNATURE_MAX_DUP {
        RemoveLastEntry();
      }
      assert Window() == Clipped(w, QCS_SIGNATURE_MAX_DUP - 1);
      Push(e);
    }

    method Push(e: Node<string>)
      requires list.Valid() && list.count < QCS_SIGNATURE_MAX_DUP && e !in list.members
      modifies list, list.members, e
      ensures Valid() && Window() == [e.data] + old(Window()) && e.data == old(e.data)
      ensures list.members == old(list.members) + {e}
    {
      hide List.Valid;
      ghost var nodes, kept := list.nodes, Window();
      list.Facts();
      list.PushFront(e);
      list.Facts();
      forall i | 0 <= i < |list.nodes| ensures Window()[i] == ([e.data] + kept)[i] {
        if i > 0 { assert list.nodes[i] == nodes[i - 1] && nodes[i - 1].data == kept[i - 1]; }
      }
    }

    /** qcs__cleanup_dup. */
    method CleanupDup()
      requires Valid()
      modifies list
      ensures Valid() && Window() == [] && list.members == {}
    {
      list.first, list.last, list.count := null, null, 0;
      list.nodes, list.members := [], {};
    }
  }

  // ---------------------------------------------------------------- writing

  /** What the random numbers drawn come to as a signature. */
  function Drawn(draws: seq<nat>): (s: string)
    ensures |s| == |draws| && forall i :: 0 <= i < |s| ==> 'a' <= s[i] <= 'z'
  {
    seq(|draws|, i requires 0 <= i < |draws| => ('a' as int + draws[i] % 26) as char)
  }

  /** qcs__generate_signature. */
  method GenerateSignature(buf: array<char>, draws: seq<nat>)
    requires buf.Length >= QCS_SIGNATURE_LENGTH + 1 && |draws| == QCS_SIGNATURE_LENGTH
    modifies buf
    ensures buf[..QCS_SIGNATURE_LENGTH + 1] == ['X'] + Drawn(draws)
  {
    buf[0] := 'X';
    var i := 1;
    while i < 1 + QCS_SIGNATURE_LENGTH
      invariant 1 <= i <= 1 + QCS_SIGNATURE_LENGTH
      invariant buf[0] == 'X'
      invariant forall k :: 1 <= k < i ==> buf[k] == Drawn(draws)[k - 1]
    {
      buf[i] := ('a' as int + draws[i - 1] % 26) as char;
      i := i + 1;
    }
  }

  ghost function OwnPlan(id: MsgId): Layout
    requires OwnFormat(id)
  {
    Then(Skip(OwnTag(id)), VypressFormat(id))
  }

  /** The three formats of its own. */
  method FillVypress(w: Writer, m: QcsMsg) returns (o: Outcome)
    requires OwnFormat(m.id) && w.Valid() && w.msg == m && w.todo == OwnPlan(m.id)
    requires |w.goal.bytes| <= w.buf.Length
    modifies w, w.buf
    ensures o.Pass? ==> w.Valid() && w.todo == End
    ensures o.Refuse? ==> !w.goal.ok
  {
    hide Encode, Writer.Valid;
    if m.id == QTopicChange {
      w.AddChar('B', Skip('B'));
      :- w.AddChan(m.chan, Hash(Chan));
      :- w.AddStr(m.text, Str(Text));
    } else if m.id == QTopicReply {
      w.AddChar('C', Skip('C'));
      :- w.AddStr(m.dst, Str(Dst));
      :- w.AddChan(m.chan, Hash(Chan));
      :- w.AddStr(m.text, Str(Text));
    } else {
      w.AddChar('G', Skip('G'));
      :- w.AddStr(m.dst, Str(Dst));
      :- w.AddStr(m.src, Str(Src));
      :- w.AddStr(m.text, Str(Text));
      :- w.AddStr(Some("VcProto1.0"), Filler("VcProto1.0"));
      :- w.AddStr(Some("0.0.0.0"), Filler("0.0.0.0"));
      :- w.AddStr(m.chan, Str(Chan));
      :- w.AddStr(m.supp, Str(Supp));
    }
    o := Pass;
  }

  /** The message fits the buffer it is written to. */
  ghost predicate Fits512(m: QcsMsg) {
    if OwnFormat(m.id) then 1 + |Encode(VypressFormat(m.id), m).bytes| <= QCP_MAXUDPSIZE
    else |Encode(Plan(m.id), m).bytes| <= QCP_MAXUDPSIZE
  }

  method MakeRaw(m: QcsMsg) returns (o: Outcome, raw: array<char>, rawLen: nat)
    requires Fits512(m)
    ensures o.Pass? <==> RawVypress(m).ok
    ensures o.Pass? ==> rawLen <= raw.Length && rawLen <= QCP_MAXUDPSIZE && raw[..rawLen] == RawVypress(m).bytes
  {
    if OwnFormat(m.id) {
      var w := new Writer(QCP_MAXUDPSIZE, m, OwnPlan(m.id));
      o := FillVypress(w, m);
      raw, rawLen := w.buf, w.len;
      if o.Pass? { assert w.buf[..w.len] + "" == w.buf[..w.len]; }
    } else {
      o, raw, rawLen := MakeQchatMsg(m);
      if o.Pass? {
        PlanEncodes(m);
        assert rawLen == |raw[..rawLen]|;
      }
    }
  }

  /** qcs__make_vypress_msg, with the numbers rand() came up with. */
  method MakeVypressMsg(m: QcsMsg, draws: seq<nat>) returns (o: Outcome, msgBuf: array<char>, msgLen: nat)
    requires |draws| == QCS_SIGNATURE_LENGTH && Fits512(m)
    ensures o.Pass? <==> MakeVypress(m, Drawn(draws)).ok
    ensures o.Pass? ==> msgLen <= msgBuf.Length && msgBuf[..msgLen] == MakeVypress(m, Drawn(draws)).bytes
  {
    hide RawVypress;
    var raw, rawLen;
    o, raw, rawLen := MakeRaw(m);
    msgBuf, msgLen := new char[QCP_MAXUDPSIZE + 10], rawLen + 10;
    // The C code goes on to copy from the NULL pointer of a refused fallback.
    if o.Refuse? { return; }
    GenerateSignature(msgBuf, draws);
    ghost var head := msgBuf[..10];
    forall i | 0 <= i < rawLen {
      msgBuf[10 + i] := raw[i];
    }
    assert msgBuf[..10] == head;
    assert msgBuf[10..msgLen] == raw[..rawLen];
    assert msgBuf[..msgLen] == head + raw[..rawLen];
  }

  // ---------------------------------------------------------------- reading

  /** The three formats of its own, behind the tag. */
  method TakeVypress(r: Reader, id: MsgId) returns (o: Outcome)
    requires OwnFormat(id) && r.Valid() && r.todo == VypressFormat(id) && r.strict
    modifies r
    ensures o.Pass? ==> r.Valid() && r.todo == End && r.goal == old(r.goal)
    ensures o.Refuse? ==> old(r.goal) == Fail(r.msg)
  {
    hide Decode, Reader.Valid;
    if id == QTopicChange {
      :- r.GetChanClean();
      :- r.GetStr(Text);
    } else if id == QTopicReply {
      :- r.GetStr(Dst);
      :- r.GetChanClean();
      :- r.GetStr(Text);
    } else {
      :- r.GetStr(Dst);
      :- r.GetStr(Src);
      :- r.GetStr(Text);
      :- r.PassStr(Filler("VcProto1.0"));
      :- r.PassStr(Filler("0.0.0.0"));
      :- r.GetStr(Chan);
      :- r.GetStr(Supp);
    }
    o := Pass;
  }

  /** The packet in memory, and whatever comes next. */
  ghost function PacketAt(memory: string, len: nat): Packet
    requires len < |memory|
  {
    Packet(memory[..len], memory[len])
  }

  /** The body of a packet, whose tag is stepped over without being counted. */
  method ParseOwn(memory: string, len: nat, m: QcsMsg) returns (ok: bool, out: QcsMsg)
    requires QCS_SIGNATURE_LENGTH + 2 <= len < |memory|
    requires OwnId(memory[QCS_SIGNATURE_LENGTH + 1]) != QInvalid
    requires m == NEWMSG.(mode := m.mode)
    ensures ParseBody(PacketAt(memory, len), m.mode) == if ok then Done(out) else Fail(out)
  {
    hide Decode, VypressFormat;
    var id := OwnId(memory[QCS_SIGNATURE_LENGTH + 1]);
    var r := new Reader(memory, QCS_SIGNATURE_LENGTH + 2, len - QCS_SIGNATURE_LENGTH - 1, m.(id := id), true);
    r.Follow(VypressFormat(id));
    ghost var body := memory[..len][QCS_SIGNATURE_LENGTH + 1..];
    assert r.Ahead() == body[1..] + [memory[len]];
    var o := TakeVypress(r, id);
    if o.Pass? { r.Finished(); }
    ok, out := o.Pass?, r.msg;
  }

  method ParseOther(memory: string, len: nat, m: QcsMsg) returns (ok: bool, out: QcsMsg)
    requires QCS_SIGNATURE_LENGTH + 2 <= len < |memory|
    requires OwnId(memory[QCS_SIGNATURE_LENGTH + 1]) == QInvalid
    ensures ParseBody(PacketAt(memory, len), m.mode) == if ok then Done(out) else Fail(out)
  {
    hide ParseQchat;
    var r := new Reader(memory, QCS_SIGNATURE_LENGTH + 1, len - QCS_SIGNATURE_LENGTH - 1, m, false);
    ghost var body := memory[..len][QCS_SIGNATURE_LENGTH + 1..];
    assert r.Ahead() == body;
    ok := ParseQchatMsg(r);
    out := r.msg;
  }

  lemma OwnNeverFlush(p: Packet)
    requires Signed(p) && OwnId(p.bytes[QCS_SIGNATURE_LENGTH + 1]) != QInvalid
    ensures !Flushes(p)
  {
  }

  /** Whether what was read is a user leaving Main decides the flush. */
  lemma FlushIsLeave(p: Packet, d: Dec, mode: int)
    requires Signed(p) && OwnId(p.bytes[QCS_SIGNATURE_LENGTH + 1]) == QInvalid && d == ParseBody(p, mode)
    ensures Flushes(p) <==> d.Done? && d.m.id == QChannelLeave && d.m.chan.Some? && IsMain(d.m.chan.value)
    ensures d.Done? && d.m.id == QChannelLeave ==> d.m.chan.Some?
  {
    hide ParseQchat, IdOf, Format, IsMain;
    var s := p.bytes[QCS_SIGNATURE_LENGTH + 1..];
    if d.Done? { ParseIsWellFormed(s, mode); }
    if ParseQchat(s, UMODE_INVALID).Done? { ParseIsWellFormed(s, UMODE_INVALID); }
    if IdOf(s) == QChannelLeave { LeaveIgnoresMode(s, mode); }
  }

  /** qcs__parse_vypress_msg on len bytes of memory; m is the message of the call before. */
  method ParseVypressMsg(memory: string, len: nat, m: QcsMsg, dups: DupList) returns (ok: bool, out: QcsMsg)
    requires len < |memory| && dups.Valid()
    modifies dups.list, dups.list.members
    ensures dups.Valid() && fresh(dups.list.members - old(dups.list.members))
    ensures (Reply(ok, out), dups.Window()) == ParseVypress(PacketAt(memory, len), old(dups.Window()), m.mode)
  {
    hide ParseBody, Flushes, DupList.Valid, Register, DupList.Window;
    ghost var p := PacketAt(memory, len);
    out := m.Cleaned();
    if len < QCS_SIGNATURE_LENGTH + 2 { return false, out; }
    var signature := memory[1..QCS_SIGNATURE_LENGTH + 1];
    assert signature == Signature(p);
    var known := dups.KnownDupEntry(signature);
    if known { return true, out; }
    dups.InsertDupEntry(signature);
    var tag := memory[QCS_SIGNATURE_LENGTH + 1];
    if OwnId(tag) != QInvalid {
      ok, out := ParseOwn(memory, len, out);
      OwnNeverFlush(p);
    } else {
      ok, out := ParseOther(memory, len, out);
      FlushIsLeave(p, if ok then Done(out) else Fail(out), m.mode);
      if ok && out.id == QChannelLeave && IsMain(out.chan.value) {
        dups.CleanupDup();
      }
    }
  }
}
