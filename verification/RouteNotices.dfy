/** Whom each change of the route table is told, and how often: the connections that are not the net and
  * do not own it, exactly once each, with the two cases in which that is not so. */
module RouteNotices {
  import opened Basics
  import opened Messages
  import opened RouteModel
  import opened RouteTheory

  /** The connections that neither are the net nor have it as a branch, in table order. */
  function Others(t: Table, nid: NetId): seq<Qnet> {
    if t == [] then [] else (if Passes(t[0], nid) then [t[0].conn] else []) + Others(t[1..], nid)
  }

  function TellAll(conns: seq<Qnet>, m: NetMsg): seq<Sent> {
    if conns == [] then [] else [Sent(conns[0], m)] + TellAll(conns[1..], m)
  }

  /** How often a log has a message going to a connection. */
  function Times(log: seq<Sent>, c: Qnet, m: NetMsg): nat {
    if log == [] then 0 else Bit(log[0] == Sent(c, m)) + Times(log[1..], c, m)
  }

  function Bit(b: bool): nat { if b then 1 else 0 }

  lemma {:induction false} TimesConcat(a: seq<Sent>, b: seq<Sent>, c: Qnet, m: NetMsg)
    ensures Times(a + b, c, m) == Times(a, c, m) + Times(b, c, m)
  {
    if a == [] {
      assert a + b == b;
    } else {
      assert (a + b)[1..] == a[1..] + b;
      TimesConcat(a[1..], b, c, m);
    }
  }

  lemma TimesOne(s: Sent, c: Qnet, m: NetMsg)
    ensures Times([s], c, m) == Bit(s == Sent(c, m))
  {
    assert [s][1..] == [];
  }

  // ---------------------------------------------------------------- one broadcast

  lemma {:induction false} BroadcastTells(t: Table, m: NetMsg)
    ensures Broadcast(t, m) == TellAll(Others(t, m.src.net), m)
  {
    if t != [] {
      var rest := Others(t[1..], m.src.net);
      BroadcastTells(t[1..], m);
      if Passes(t[0], m.src.net) {
        assert ([t[0].conn] + rest)[1..] == rest;
      } else {
        assert [] + rest == rest;
      }
    }
  }

  lemma {:induction false} BroadcastStranger(t: Table, m: NetMsg, c: Qnet)
    requires forall k :: 0 <= k < |t| ==> t[k].conn != c
    ensures Times(Broadcast(t, m), c, m) == 0
  {
    if t != [] {
      BroadcastStranger(t[1..], m, c);
      var head := if Passes(t[0], m.src.net) then [Sent(t[0].conn, m)] else [];
      TimesConcat(head, Broadcast(t[1..], m), c, m);
      TimesOne(Sent(t[0].conn, m), c, m);
    }
  }

  lemma {:induction false} BroadcastOnly(t: Table, m: NetMsg, c: Qnet, other: NetMsg)
    requires other != m
    ensures Times(Broadcast(t, m), c, other) == 0
  {
    if t != [] {
      BroadcastOnly(t[1..], m, c, other);
      var head := if Passes(t[0], m.src.net) then [Sent(t[0].conn, m)] else [];
      TimesConcat(head, Broadcast(t[1..], m), c, other);
      TimesOne(Sent(t[0].conn, m), c, other);
    }
  }

  /** A broadcast goes once to each connection that neither is the source nor owns it, and not to the
    * others. */
  lemma {:induction false} BroadcastOnce(t: Table, m: NetMsg, k: nat)
    requires DistinctConns(t) && k < |t|
    ensures Times(Broadcast(t, m), t[k].conn, m) == Bit(Passes(t[k], m.src.net))
  {
    var c := t[k].conn;
    var head := if Passes(t[0], m.src.net) then [Sent(t[0].conn, m)] else [];
    TimesConcat(head, Broadcast(t[1..], m), c, m);
    TimesOne(Sent(t[0].conn, m), c, m);
    if k == 0 {
      BroadcastStranger(t[1..], m, c);
    } else {
      BroadcastOnce(t[1..], m, k - 1);
    }
  }

  /** The same for the announcement of one net, counting the announcements of any net. */
  lemma NoticeOnce(t: Table, nid: NetId, isNew: bool, k: nat, n: NetId)
    requires DistinctConns(t) && k < |t|
    ensures Times(Send(t, RouteChange(nid, isNew)), t[k].conn, RouteChange(n, isNew))
         == Bit(n == nid && Passes(t[k], nid))
  {
    BroadcastOnce(t, RouteChange(nid, isNew), k);
    if n != nid {
      BroadcastOnly(t, RouteChange(nid, isNew), t[k].conn, RouteChange(n, isNew));
    }
  }

  // ---------------------------------------------------------------- additions

  lemma {:induction false} OthersSnoc(t: Table, r: Route, nid: NetId)
    requires !Passes(r, nid)
    ensures Others(t + [r], nid) == Others(t, nid)
  {
    if t == [] {
      assert (t + [r])[1..] == [];
    } else {
      assert (t + [r])[1..] == t[1..] + [r];
      OthersSnoc(t[1..], r, nid);
    }
  }

  /** A new neighbour is told to every other connection, but for those that are or own a net of its id. */
  lemma AddConnTells(t: Table, conn: Qnet)
    requires FindEntry(t, conn) == |t|
    ensures AddConn(t, conn).log == TellAll(Others(t, conn.id), RouteChange(conn.id, true))
  {
    BroadcastTells(t + [Route(conn, [])], RouteChange(conn.id, true));
    OthersSnoc(t, Route(conn, []), conn.id);
  }

  /** .. once each. Nothing else is told, nobody is told of a connection the table has already, and the
    * new neighbour is not told of itself. */
  lemma AddConnOnce(t: Table, conn: Qnet, k: nat, n: NetId)
    requires Inv(t) && k < |t|
    ensures Times(AddConn(t, conn).log, t[k].conn, RouteChange(n, true))
         == Bit(FindEntry(t, conn) == |t| && n == conn.id && Passes(t[k], conn.id))
    ensures FindEntry(t, conn) == |t| ==> Times(AddConn(t, conn).log, conn, RouteChange(n, true)) == 0
  {
    if FindEntry(t, conn) == |t| {
      var t' := t + [Route(conn, [])];
      assert t'[k] == t[k] && t'[|t|] == Route(conn, []);
      NoticeOnce(t', conn.id, true, k, n);
      NoticeOnce(t', conn.id, true, |t|, n);
    }
  }

  /** A new branch is told to every connection that is not the net, other than the one it came from;
    * once each. A net that is a branch already is told to nobody. */
  lemma AddBranchOnce(t: Table, conn: Qnet, nid: NetId, k: nat, n: NetId)
    requires Inv(t) && FindEntry(t, conn) < |t| && k < |t|
    ensures Times(AddBranch(t, conn, nid).log, t[k].conn, RouteChange(n, true))
         == Bit(FindBranch(t, nid) == |t| && n == nid && t[k].conn != conn && t[k].conn.id != nid)
  {
    if FindBranch(t, nid) == |t| {
      var e := FindEntry(t, conn);
      var t' := AddBranch(t, conn, nid).table;
      assert nid == t'[e].branches[|t[e].branches|];
      assert k != e ==> t'[k] == t[k] && t[k].conn != t[e].conn;
      NoticeOnce(t', nid, true, k, n);
    }
  }

  // ---------------------------------------------------------------- losing a branch

  /** The loss of a net is told to every connection that neither is the net nor owns it, because it is
    * told before the net is removed. */
  lemma DropBranchTells(t: Table, conn: Qnet, nid: NetId)
    requires FindEntry(t, conn) < |t|
    ensures DropBranch(t, conn, nid).log == TellAll(Others(t, nid), RouteChange(nid, false))
  {
    BroadcastTells(t, RouteChange(nid, false));
  }

  /** .. once each, and no other loss is. */
  lemma DropBranchOnce(t: Table, conn: Qnet, nid: NetId, k: nat, n: NetId)
    requires Inv(t) && FindEntry(t, conn) < |t| && k < |t|
    ensures Times(DropBranch(t, conn, nid).log, t[k].conn, RouteChange(n, false))
         == Bit(n == nid && t[k].conn.id != nid && nid !in t[k].branches)
  {
    NoticeOnce(t, nid, false, k, n);
  }

  /** A net that leaves a vector, and whether it is the one announced. */
  predicate Leaves(branches: seq<NetId>, nid: NetId, n: NetId) {
    n in branches && n !in CutBranch(branches, nid)
  }

  /** What leaves the vector is what is announced if and only if the vector is empty or holds the net. */
  lemma LeavingIsTold(branches: seq<NetId>, nid: NetId)
    requires Distinct(branches)
    ensures (forall n :: Leaves(branches, nid, n) ==> n == nid) <==> (branches == [] || nid in branches)
    ensures branches != [] && nid !in branches ==> Leaves(branches, nid, branches[|branches| - 1])
  {
    CutExactly(branches, nid);
    if branches != [] && nid !in branches {
      var last := branches[|branches| - 1];
      assert last in branches && last !in branches[..|branches| - 1];
      assert Leaves(branches, nid, last);
    }
  }

  /** .. otherwise the last net of the vector is lost, and nobody is told. */
  lemma SilentLoss(t: Table, conn: Qnet, nid: NetId, k: nat)
    requires Inv(t) && FindEntry(t, conn) < |t| && k < |t|
    ensures var b := t[FindEntry(t, conn)].branches;
      b != [] && nid !in b ==>
        && Leaves(b, nid, b[|b| - 1])
        && DropBranch(t, conn, nid).table[FindEntry(t, conn)].branches == b[..|b| - 1]
        && Times(DropBranch(t, conn, nid).log, t[k].conn, RouteChange(b[|b| - 1], false)) == 0
  {
    var e := FindEntry(t, conn);
    var b := t[e].branches;
    LeavingIsTold(b, nid);
    if b != [] && nid !in b {
      assert b[|b| - 1] in b;
      DropBranchOnce(t, conn, nid, k, b[|b| - 1]);
    }
  }

  // ---------------------------------------------------------------- losing a connection

  /** One announcement per lost net, in order, each to all that neither are the net nor own it. */
  function Farewell(t: Table, nets: seq<NetId>): seq<Sent> {
    if nets == [] then []
    else TellAll(Others(t, nets[0]), RouteChange(nets[0], false)) + Farewell(t, nets[1..])
  }

  /** Tables that differ in one entry, which neither lets the net pass. */
  lemma {:induction false} OthersBut(a: Table, b: Table, k: nat, nid: NetId)
    requires |a| == |b| && k < |a| && forall j :: 0 <= j < |a| && j != k ==> a[j] == b[j]
    requires !Passes(a[k], nid) && !Passes(b[k], nid)
    ensures Others(a, nid) == Others(b, nid)
  {
    if k == 0 {
      assert a[1..] == b[1..];
    } else {
      assert a[0] == b[0];
      OthersBut(a[1..], b[1..], k - 1, nid);
    }
  }

  lemma {:induction false} FarewellBut(a: Table, b: Table, k: nat, nets: seq<NetId>)
    requires |a| == |b| && k < |a| && forall j :: 0 <= j < |a| && j != k ==> a[j] == b[j]
    requires forall n :: n in nets ==> !Passes(a[k], n) && !Passes(b[k], n)
    ensures Farewell(a, nets) == Farewell(b, nets)
  {
    if nets != [] {
      assert nets[0] in nets;
      OthersBut(a, b, k, nets[0]);
      FarewellBut(a, b, k, nets[1..]);
    }
  }

  lemma {:induction false} DropEachTells(t: Table, k: nat)
    requires Inv(t) && k < |t|
    ensures DropEach(t, k, t[k].branches).log == Farewell(t, t[k].branches)
    decreases |t[k].branches|
  {
    var nets := t[k].branches;
    if nets != [] {
      BroadcastTells(t, RouteChange(nets[0], false));
      ShrinkInv(t, k, nets[0]);
      assert CutBranch(nets, nets[0]) == nets[1..];
      var t1 := t[k := t[k].(branches := nets[1..])];
      DropEachTells(t1, k);
      assert forall n :: n in nets[1..] ==> n in nets;
      FarewellBut(t, t1, k, nets[1..]);
    }
  }

  lemma {:induction false} FarewellSnoc(t: Table, nets: seq<NetId>, last: NetId)
    ensures Farewell(t, nets + [last]) == Farewell(t, nets) + TellAll(Others(t, last), RouteChange(last, false))
  {
    hide TellAll, Others;
    var end := TellAll(Others(t, last), RouteChange(last, false));
    if nets == [] {
      assert nets + [last] == [last] && [last][1..] == [];
      assert end + [] == end && [] + end == end;
    } else {
      var head := TellAll(Others(t, nets[0]), RouteChange(nets[0], false));
      assert (nets + [last])[1..] == nets[1..] + [last];
      FarewellSnoc(t, nets[1..], last);
      assert head + (Farewell(t, nets[1..]) + end) == (head + Farewell(t, nets[1..])) + end;
    }
  }

  /** Dropping a connection announces the loss of each of its branches, in order, and then of its own
    * net, each to every connection that neither is the net nor owns it. */
  lemma DropConnTells(t: Table, conn: Qnet)
    requires Inv(t) && FindEntry(t, conn) < |t|
    ensures DropConn(t, conn).log == Farewell(t, t[FindEntry(t, conn)].branches + [conn.id])
  {
    var k := FindEntry(t, conn);
    var nets, bare := t[k].branches, t[k := t[k].(branches := [])];
    DropEachTells(t, k);
    DropEachEffect(t, k);
    BroadcastTells(bare, RouteChange(conn.id, false));
    OthersBut(t, bare, k, conn.id);
    FarewellSnoc(t, nets, conn.id);
  }

  /** How often a net is among those lost. */
  function Occurs(nets: seq<NetId>, n: NetId): nat {
    if nets == [] then 0 else Bit(nets[0] == n) + Occurs(nets[1..], n)
  }

  lemma {:induction false} FarewellCounts(t: Table, nets: seq<NetId>, j: nat, n: NetId)
    requires DistinctConns(t) && j < |t|
    ensures Times(Farewell(t, nets), t[j].conn, RouteChange(n, false))
         == if Passes(t[j], n) then Occurs(nets, n) else 0
  {
    if nets != [] {
      var m := RouteChange(nets[0], false);
      FarewellCounts(t, nets[1..], j, n);
      TimesConcat(TellAll(Others(t, nets[0]), m), Farewell(t, nets[1..]), t[j].conn, RouteChange(n, false));
      BroadcastTells(t, m);
      NoticeOnce(t, nets[0], false, j, n);
    }
  }

  lemma {:induction false} OccursIn(nets: seq<NetId>, last: NetId, n: NetId)
    requires Distinct(nets)
    ensures Occurs(nets + [last], n) == Bit(n in nets) + Bit(n == last)
  {
    if nets == [] {
      assert nets + [last] == [last] && [last][1..] == [];
    } else {
      assert (nets + [last])[1..] == nets[1..] + [last];
      OccursIn(nets[1..], last, n);
      assert n in nets <==> n == nets[0] || n in nets[1..];
      if n in nets[1..] {
        var i :| 0 <= i < |nets| - 1 && nets[1..][i] == n;
        assert nets[i + 1] == n;
      }
    }
  }

  /** How often each connection is told of each net when one is dropped: its branches and its own net
    * count once each, so a net that is both counts twice. */
  lemma DropConnCounts(t: Table, conn: Qnet, j: nat, n: NetId)
    requires Inv(t) && FindEntry(t, conn) < |t| && j < |t|
    ensures Times(DropConn(t, conn).log, t[j].conn, RouteChange(n, false))
         == if Passes(t[j], n) then Bit(n in t[FindEntry(t, conn)].branches) + Bit(n == conn.id) else 0
  {
    var nets := t[FindEntry(t, conn)].branches;
    DropConnTells(t, conn);
    FarewellCounts(t, nets + [conn.id], j, n);
    OccursIn(nets, conn.id, n);
  }

  /** The nets that are lost with a connection. */
  predicate Lost(t: Table, conn: Qnet, n: NetId)
    requires FindEntry(t, conn) < |t|
  {
    n == conn.id || n in t[FindEntry(t, conn)].branches
  }

  /** Every connection that neither is nor owns a lost net is told of it exactly once if and only if the
    * dropped connection does not have its own id among its branches, or there is nobody to be told of
    * that id. The ones that are or own it are never told. */
  lemma DropConnExactly(t: Table, conn: Qnet)
    requires Inv(t) && FindEntry(t, conn) < |t|
    ensures (forall j, n :: 0 <= j < |t| && Lost(t, conn, n) && Passes(t[j], n) ==>
               Times(DropConn(t, conn).log, t[j].conn, RouteChange(n, false)) == 1)
      <==> (conn.id !in t[FindEntry(t, conn)].branches || forall j :: 0 <= j < |t| ==> !Passes(t[j], conn.id))
    ensures forall j, n :: 0 <= j < |t| && !Passes(t[j], n) ==>
      Times(DropConn(t, conn).log, t[j].conn, RouteChange(n, false)) == 0
    ensures forall n :: Times(DropConn(t, conn).log, conn, RouteChange(n, false)) == 0
  {
    hide DropConn, Times, Inv;
    var k := FindEntry(t, conn);
    forall j, n | 0 <= j < |t|
      ensures Times(DropConn(t, conn).log, t[j].conn, RouteChange(n, false))
           == if Passes(t[j], n) then Bit(n in t[k].branches) + Bit(n == conn.id) else 0
    {
      DropConnCounts(t, conn, j, n);
    }
    assert t[k].conn == conn;
    assert Lost(t, conn, conn.id);
  }

  /** A run, one operation at a time. */
  lemma RunStep(t: Table, op: Op, more: seq<Op>)
    requires OpOk(t, op) && RunOk(Apply(t, op).table, more)
    ensures RunOk(t, [op] + more) && Run(t, [op] + more).table == Run(Apply(t, op).table, more).table
  {
    assert ([op] + more)[1..] == more;
  }

  /** A legal run to a table in which a connection has its own id as a branch: routetbl_add_branch looks
    * for the id among branches only. */
  lemma OwnIdAsBranch()
    ensures var a, b := Qnet(1, 5), Qnet(2, 6);
      var ops := [AddOp(a), AddOp(b), AddBranchOp(a, 5)];
      RunOk([], ops) && Run([], ops).table == [Route(a, [5]), Route(b, [])]
  {
    var a, b := Qnet(1, 5), Qnet(2, 6);
    var t1, t2, t3 := [Route(a, [])], [Route(a, []), Route(b, [])], [Route(a, [5]), Route(b, [])];
    assert FindEntry(t1, b) == 1 && FindEntry(t2, a) == 0 && FindBranch(t2, 5) == 2;
    assert Apply([], AddOp(a)).table == t1;
    assert Apply(t1, AddOp(b)).table == t2;
    var nid: NetId := 5;
    assert t2[0].branches + [nid] == [nid];
    assert t2[0 := t2[0].(branches := t2[0].branches + [nid])] == t3;
    assert Apply(t2, AddBranchOp(a, 5)).table == t3;
    assert RunOk(t3, []) && Run(t3, []).table == t3;
    assert OpOk([], AddOp(a)) && OpOk(t1, AddOp(b)) && OpOk(t2, AddBranchOp(a, 5));
    hide Apply, Run, RunOk, OpOk;
    RunStep(t2, AddBranchOp(a, 5), []);
    RunStep(t1, AddOp(b), [AddBranchOp(a, 5)]);
    RunStep([], AddOp(a), [AddOp(b), AddBranchOp(a, 5)]);
    assert [AddOp(a)] + ([AddOp(b)] + ([AddBranchOp(a, 5)] + [])) == [AddOp(a), AddOp(b), AddBranchOp(a, 5)];
  }

  /** In that table, whose ids are distinct, dropping the connection tells the other one twice. */
  lemma ToldTwiceExample()
    ensures var a, b := Qnet(1, 5), Qnet(2, 6);
      var t := [Route(a, [5]), Route(b, [])];
      && Inv(t) && DistinctIds(t) && FindEntry(t, a) == 0
      && Times(DropConn(t, a).log, b, RouteChange(5, false)) == 2
  {
    var a, b := Qnet(1, 5), Qnet(2, 6);
    var t := [Route(a, [5]), Route(b, [])];
    hide Times, DropConn;
    assert t[1].conn == b && Passes(t[1], 5) && 5 in t[0].branches;
    DropConnCounts(t, a, 1, 5);
  }
}
