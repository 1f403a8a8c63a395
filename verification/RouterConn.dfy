/** A connection to another router: the pointer that moves over the buffer when a message is packed
  * or unpacked, and the two streams of the socket. */
module RouterConn {
  import opened Basics
  import opened RouterWire

  // ---------------------------------------------------------------- packing

  class Packer {
    const buf: array<char>
    const width: nat
    var p: nat
    ghost const goal: string
    ghost var todo: seq<Item>

    ghost predicate Valid()
      reads this, buf
    {
      p <= buf.Length && |goal| <= buf.Length && goal == buf[..p] + PutItems(todo, width)
    }

    ghost predicate Next(i: Item)
      reads this
    {
      todo != [] && todo[0] == i
    }

    constructor (size: nat, w: nat, ghost items: seq<Item>)
      requires |PutItems(items, w)| <= size
      ensures Valid() && p == 0 && todo == items && goal == PutItems(items, w) && width == w
      ensures buf.Length == size && fresh(buf)
    {
      buf := new char[size];
      width, p, goal, todo := w, 0, PutItems(items, w), items;
      new;
      assert buf[..0] == "";
    }

    /** memcpy to the place of the pointer, which steps over the bytes. */
    method Copy(bytes: string)
      requires p + |bytes| <= buf.Length
      modifies this`p, buf
      ensures p == old(p) + |bytes| <= buf.Length && buf[..p] == old(buf[..p]) + bytes
    {
      ghost var before := buf[..p];
      forall k | 0 <= k < |bytes| {
        buf[p + k] := bytes[k];
      }
      p := p + |bytes|;
      assert buf[..p] == before + bytes;
    }

    /** The next value goes into the buffer. */
    method Put(bytes: string, ghost i: Item)
      requires Valid() && Next(i) && bytes == PutItem(i, width)
      modifies this`p, this`todo, buf
      ensures Valid() && todo == old(todo[1..])
    {
      ghost var before, rest := buf[..p], PutItems(todo[1..], width);
      assert PutItems(todo, width) == bytes + rest;
      hide PutItem, PutItems;
      Regroup(before, bytes, rest);
      assert |goal| == p + |bytes| + |rest|;
      Copy(bytes);
      todo := todo[1..];
    }

    lemma Finished()
      requires Valid() && todo == []
      ensures p <= buf.Length && buf[..p] == goal
    {
      assert buf[..p] + "" == buf[..p];
    }

    method WrLong(v: nat)
      requires Valid() && Next(Long(v))
      modifies this`p, this`todo, buf
      ensures Valid() && todo == old(todo[1..])
    {
      Put(PutLong(v, width), Long(v));
    }

    method WrShort(v: NetId)
      requires Valid() && Next(Short(v))
      modifies this`p, this`todo, buf
      ensures Valid() && todo == old(todo[1..])
    {
      Put(PutShort(v), Short(v));
    }

    method WrStr(s: string)
      requires Valid() && Next(Text(s))
      modifies this`p, this`todo, buf
      ensures Valid() && todo == old(todo[1..])
    {
      var len := (|s| + 1) % 0x10000;
      Put(PutShort(len) + s + [NUL], Text(s));
    }

    method WrUserId(id: UserId)
      requires Valid() && Next(Short(id.net)) && |todo| > 1 && todo[1] == Short(id.num)
      modifies this`p, this`todo, buf
      ensures Valid() && todo == old(todo[2..])
    {
      WrShort(id.net);
      WrShort(id.num);
    }
  }

  lemma Regroup(a: string, b: string, c: string)
    ensures a + (b + c) == (a + b) + c
  {
  }

  // ---------------------------------------------------------------- unpacking

  /** Whether reading goes on; if not, why. */
  datatype Step = Pass | TooShort | Wild {
    predicate IsFailure() { !Pass? }
    function PropagateFailure(): Step { this }
  }

  class Unpacker {
    const buf: string
    const width: nat
    var p: nat
    var left: nat
    ghost var kinds: seq<Kind>
    ghost var done: seq<Item>
    ghost const goal: Got<seq<Item>>

    ghost predicate Valid()
      reads this
    {
      p + left == |buf| && goal == GetItems(kinds, buf[p..], width, done)
    }

    ghost predicate Stopped(s: Step)
      reads this
    {
      (s.TooShort? ==> goal == Broken) && (s.Wild? ==> goal == Undefined)
    }

    constructor (s: string, w: nat)
      ensures Valid() && done == [] && kinds == KINDS && goal == GetItems(KINDS, s, w, []) && width == w
    {
      buf, width, p, left := s, w, 0, |s|;
      kinds, done, goal := KINDS, [], GetItems(KINDS, s, w, []);
      new;
      assert s[0..] == s;
    }

    lemma Finished()
      requires Valid() && kinds == []
      ensures goal == Got(done)
    {
    }

    method RdLong() returns (o: Step, v: nat)
      requires Valid() && kinds != [] && kinds[0] == KLong
      modifies this
      ensures o.Pass? ==> Valid() && kinds == old(kinds[1..]) && done == old(done) + [Long(v)]
      ensures Stopped(o)
    {
      v := 0;
      if left < width { return TooShort, v; }
      ghost var s := buf[p..];
      v := GetLong(buf[p..p + width]);
      assert buf[p..p + width] == s[..width];
      p, left := p + width, left - width;
      assert buf[p..] == s[width..];
      kinds, done := kinds[1..], done + [Long(v)];
      o := Pass;
    }

    method RdShort() returns (o: Step, v: NetId)
      requires Valid() && kinds != [] && kinds[0] == KShort
      modifies this
      ensures o.Pass? ==> Valid() && kinds == old(kinds[1..]) && done == old(done) + [Short(v)]
      ensures Stopped(o)
    {
      v := 0;
      if left < 2 { return TooShort, v; }
      ghost var s := buf[p..];
      v := GetShort(buf[p..]);
      p, left := p + 2, left - 2;
      assert buf[p..] == s[2..];
      kinds, done := kinds[1..], done + [Short(v)];
      o := Pass;
    }

    method RdUserId() returns (o: Step, id: UserId)
      requires Valid() && |kinds| > 1 && kinds[0] == kinds[1] == KShort
      modifies this
      ensures o.Pass? ==> Valid() && kinds == old(kinds[2..])
      ensures o.Pass? ==> done == old(done) + [Short(id.net), Short(id.num)]
      ensures Stopped(o)
    {
      id := NULL_USER;
      var net, num;
      o, net := RdShort();
      if !o.Pass? { return o, id; }
      o, num := RdShort();
      id := UserId(net, num);
    }

    /** The text is copied into an array of cap bytes without regard for its size. */
    method RdStr(cap: nat) returns (o: Step, t: string)
      requires Valid() && kinds != [] && kinds[0] == KText(cap)
      modifies this
      ensures o.Pass? ==> Valid() && kinds == old(kinds[1..]) && done == old(done) + [Text(t)]
      ensures Stopped(o)
    {
      t := "";
      if left < 2 { return TooShort, t; }
      ghost var s := buf[p..];
      var strLen := GetShort(buf[p..]);
      p, left := p + 2, left - 2;
      if left < strLen { return TooShort, t; }
      var piece := buf[p..p + strLen];
      assert piece == s[2..2 + strLen];
      if !Copies(piece, cap) { return Wild, t; }
      t := CString(piece);
      p, left := p + strLen, left - strLen;
      assert buf[p..] == s[2 + strLen..];
      kinds, done := kinds[1..], done + [Text(t)];
      o := Pass;
    }
  }

  // ---------------------------------------------------------------- the connection

  /** The two streams of a socket, and whether it has failed. */
  class RouterLink {
    const width: nat
    var damaged: bool
    var outgoing: string
    var incoming: string

    constructor (w: nat)
      requires w in {4, 8}
      ensures width == w && !damaged && outgoing == "" && incoming == ""
    {
      width, damaged, outgoing, incoming := w, false, "", "";
    }

    /** routerconn_send; the flags say which of the two calls of send() go through. */
    method Send(m: RawMsg, lengthSent: bool, bodySent: bool)
      requires width in {4, 8} && InRange(m, width)
      modifies this
      ensures lengthSent && bodySent ==> outgoing == old(outgoing) + Frame(m, width) && damaged == old(damaged)
      ensures !(lengthSent && bodySent) ==> damaged
      ensures !lengthSent ==> outgoing == old(outgoing)
      ensures incoming == old(incoming)
    {
      hide SizeOfMsg, Items, PutItems, InRange, Packer.Valid, PutShort;
      EncodedFits(m, width);
      var w := new Packer(SizeOfMsg(width), width, Items(m));
      PackAll(w, m);
      assert w.buf[..w.p] == Encode(m, width);
      assert |w.buf[..w.p]| == w.p;
      var len: NetId := w.p % 0x10000;
      if !lengthSent {
        damaged := true;
        return;
      }
      outgoing := outgoing + PutShort(len);
      if bodySent {
        outgoing := outgoing + w.buf[..w.p];
        assert outgoing == old(outgoing) + Frame(m, width);
      } else {
        damaged := true;
      }
    }

    /** routerconn_recv, which waits until the frame is there. */
    method Recv() returns (r: Got<RawMsg>)
      requires width in {4, 8} && Complete(incoming, width)
      modifies this
      ensures outgoing == old(outgoing)
      ensures GetShort(old(incoming)) > SizeOfMsg(width) ==> damaged && r == Broken && incoming == old(incoming)[2..]
      ensures GetShort(old(incoming)) <= SizeOfMsg(width) ==>
        var n := 2 + GetShort(old(incoming));
        damaged == old(damaged) && incoming == old(incoming)[n..] && r == Decode(old(incoming)[2..n], width)
    {
      hide SizeOfMsg, Decode;
      var msgLen := GetShort(incoming);
      var stream := incoming[2..];
      if msgLen > SizeOfMsg(width) {
        incoming := stream;
        damaged := true;
        return Broken;
      }
      var body := stream[..msgLen];
      assert body == incoming[2..2 + msgLen] && stream[msgLen..] == incoming[2 + msgLen..];
      incoming := stream[msgLen..];
      r := Unpack(body, width);
    }

    /** What a run of receptions yields is what the stream holds. */
    method RecvAll() returns (ms: seq<RawMsg>)
      requires width in {4, 8} && !damaged
      modifies this
      ensures ReadStream(old(incoming), width, []) == Stream(ms, damaged, incoming)
      ensures outgoing == old(outgoing)
    {
      hide SizeOfMsg, Decode;
      ms := [];
      while !damaged && Complete(incoming, width)
        invariant outgoing == old(outgoing)
        invariant if damaged then ReadStream(old(incoming), width, []) == Stream(ms, true, incoming)
                  else ReadStream(old(incoming), width, []) == ReadStream(incoming, width, ms)
        decreases |incoming|
      {
        var r := Recv();
        if r.Got? { ms := ms + [r.value]; }
      }
    }
  }

  /** The fields in the order routerconn_send writes them. */
  method PackAll(w: Packer, m: RawMsg)
    requires w.Valid() && w.todo == Items(m)
    modifies w`p, w`todo, w.buf
    ensures w.Valid() && w.todo == [] && w.p <= w.buf.Length && w.buf[..w.p] == w.goal
  {
    hide Packer.Valid;
    w.WrLong(m.id);
    w.WrShort(m.kind);
    w.WrUserId(m.src);
    w.WrUserId(m.dst);
    w.WrShort(m.dNet);
    w.WrUserId(m.dUser);
    w.WrShort(m.dMeText);
    w.WrShort(m.dUmode);
    w.WrStr(m.dNickname);
    w.WrStr(m.dChanlist);
    w.WrStr(m.dText);
    w.Finished();
  }

  method Unpack(body: string, width: nat) returns (r: Got<RawMsg>)
    ensures r == Decode(body, width)
  {
    var u := new Unpacker(body, width);
    var o, m := UnpackAll(u, RawMsg(0, 0, NULL_USER, NULL_USER, 0, NULL_USER, 0, 0, "", "", ""));
    if o.Pass? {
      assert u.goal == Got(Items(m));
      GotKinds(KINDS, body, width, []);
      SameItems(FromItems(Items(m)), m);
      r := Got(m);
    } else if o.TooShort? {
      r := Broken;
    } else {
      r := Undefined;
    }
  }

  /** The fields in the order routerconn_recv reads them, into a new message. */
  method UnpackAll(u: Unpacker, blank: RawMsg) returns (o: Step, m: RawMsg)
    requires u.Valid() && u.done == [] && u.kinds == KINDS
    modifies u
    ensures o.Pass? ==> u.goal == Got(Items(m))
    ensures u.Stopped(o)
  {
    hide Unpacker.Valid, Unpacker.Stopped;
    m := blank;
    assert KINDS == HEADER + (NUMBERS + TEXTS);
    o, m := UnpackHeader(u, m, NUMBERS + TEXTS);
    if !o.Pass? { return o, m; }
    o, m := UnpackNumbers(u, m, TEXTS);
    if !o.Pass? { return o, m; }
    o, m := UnpackTexts(u, m);
    if !o.Pass? { return o, m; }
    u.Finished();
  }

  const HEADER: seq<Kind> := [KLong, KShort, KShort, KShort, KShort, KShort]
  const NUMBERS: seq<Kind> := [KShort, KShort, KShort, KShort, KShort]
  const TEXTS: seq<Kind> :=
    [KText(NICKNAME_LEN_MAX + 1), KText(CHANLIST_LEN_MAX + 1), KText(QNET_MSG_TEXT_LEN + 1)]

  function HeaderOf(m: RawMsg): seq<Item> {
    [Long(m.id), Short(m.kind), Short(m.src.net), Short(m.src.num), Short(m.dst.net), Short(m.dst.num)]
  }

  function NumbersOf(m: RawMsg): seq<Item> {
    [Short(m.dNet), Short(m.dUser.net), Short(m.dUser.num), Short(m.dMeText), Short(m.dUmode)]
  }

  lemma SameHeader(a: RawMsg, b: RawMsg)
    requires a.id == b.id && a.kind == b.kind && a.src == b.src && a.dst == b.dst
    ensures HeaderOf(a) == HeaderOf(b)
  {
  }

  method UnpackHeader(u: Unpacker, blank: RawMsg, ghost rest: seq<Kind>) returns (o: Step, m: RawMsg)
    requires u.Valid() && u.done == [] && u.kinds == HEADER + rest
    modifies u
    ensures o.Pass? ==> u.Valid() && u.kinds == rest && u.done == HeaderOf(m)
    ensures u.Stopped(o)
  {
    hide Unpacker.Valid, Unpacker.Stopped;
    m := blank;
    var v, id;
    o, v := u.RdLong();
    if !o.Pass? { return o, m; }
    m := m.(id := v);
    o, v := u.RdShort();
    if !o.Pass? { return o, m; }
    m := m.(kind := v);
    o, id := u.RdUserId();
    if !o.Pass? { return o, m; }
    m := m.(src := id);
    o, id := u.RdUserId();
    if !o.Pass? { return o, m; }
    m := m.(dst := id);
  }

  method UnpackNumbers(u: Unpacker, sofar: RawMsg, ghost rest: seq<Kind>) returns (o: Step, m: RawMsg)
    requires u.Valid() && u.done == HeaderOf(sofar) && u.kinds == NUMBERS + rest
    modifies u
    ensures o.Pass? ==> u.Valid() && u.kinds == rest && u.done == HeaderOf(m) + NumbersOf(m)
    ensures u.Stopped(o)
  {
    hide Unpacker.Valid, Unpacker.Stopped, HeaderOf;
    m := sofar;
    var v, id;
    o, v := u.RdShort();
    if !o.Pass? { return o, m; }
    m := m.(dNet := v);
    o, id := u.RdUserId();
    if !o.Pass? { return o, m; }
    m := m.(dUser := id);
    o, v := u.RdShort();
    if !o.Pass? { return o, m; }
    m := m.(dMeText := v);
    o, v := u.RdShort();
    if !o.Pass? { return o, m; }
    m := m.(dUmode := v);
    SameHeader(m, sofar);
    assert u.done == HeaderOf(sofar) + NumbersOf(m);
  }

  method UnpackTexts(u: Unpacker, sofar: RawMsg) returns (o: Step, m: RawMsg)
    requires u.Valid() && u.done == HeaderOf(sofar) + NumbersOf(sofar) && u.kinds == TEXTS
    modifies u
    ensures o.Pass? ==> u.Valid() && u.kinds == [] && u.done == Items(m)
    ensures u.Stopped(o)
  {
    hide Unpacker.Valid, Unpacker.Stopped;
    m := sofar;
    var t;
    o, t := u.RdStr(NICKNAME_LEN_MAX + 1);
    if !o.Pass? { return o, m; }
    m := m.(dNickname := t);
    o, t := u.RdStr(CHANLIST_LEN_MAX + 1);
    if !o.Pass? { return o, m; }
    m := m.(dChanlist := t);
    o, t := u.RdStr(QNET_MSG_TEXT_LEN + 1);
    if !o.Pass? { return o, m; }
    m := m.(dText := t);
    assert u.done == HeaderOf(sofar) + NumbersOf(sofar) + [Text(m.dNickname), Text(m.dChanlist), Text(m.dText)];
  }
}
