/** What every operation on the route table keeps, whom it tells, and where it routes. */
module RouteTheory {
  import opened Basics
  import opened Messages
  import opened RouteModel

  ghost predicate DistinctConns(t: Table) {
    forall i, j :: 0 <= i < j < |t| ==> t[i].conn != t[j].conn
  }

  ghost predicate DistinctIds(t: Table) {
    forall i, j :: 0 <= i < j < |t| ==> t[i].conn.id != t[j].conn.id
  }

  /** Connections are pairwise distinct, a net is a branch of at most one of them and only once,
    * and the null net, which must never be broadcast, is nowhere. */
  ghost predicate Inv(t: Table) {
    && DistinctConns(t)
    && (forall k :: 0 <= k < |t| ==> Distinct(t[k].branches))
    && (forall i, j, n :: 0 <= i < j < |t| && n in t[i].branches ==> n !in t[j].branches)
    && (forall k :: 0 <= k < |t| ==> t[k].conn.id != NULL_NET && NULL_NET !in t[k].branches)
  }

  // ---------------------------------------------------------------- routing

  lemma ConnFound(t: Table, k: nat)
    requires k < |t|
    ensures FindEntry(t, t[k].conn) < |t|
  {
  }

  /** The abstract map behind routetbl_where: a neighbour wins over a branch, the first of several neighbours of
    * one id over the others, and the connection with a branch is the only one. */
  lemma WhereIsTheMap(t: Table, nid: NetId, c: Qnet)
    requires Inv(t)
    ensures Where(t, nid) == None <==> forall k :: 0 <= k < |t| ==> t[k].conn.id != nid && nid !in t[k].branches
    ensures (forall k :: 0 <= k < |t| ==> t[k].conn.id != nid) ==>
      (Where(t, nid) == Some(c) <==> exists k :: 0 <= k < |t| && t[k].conn == c && nid in t[k].branches)
    ensures (exists k :: 0 <= k < |t| && t[k].conn.id == nid) ==>
      (Where(t, nid) == Some(c) <==>
         c.id == nid && exists k :: 0 <= k < |t| && t[k].conn == c && forall j :: 0 <= j < k ==> t[j].conn.id != nid)
  {
  }

  /** A message that is no broadcast is sent once: to the first neighbour that is the net it is for, else to the one
    * connection that has that net as a branch; and to nobody if no entry has it. */
  lemma SentOnce(t: Table, m: NetMsg)
    requires Inv(t) && !IsBroadcast(m)
    ensures forall k :: 0 <= k < |t| && t[k].conn.id == m.dst.net ==>
      (forall j :: 0 <= j < k ==> t[j].conn.id != m.dst.net) ==> Send(t, m) == [Sent(t[k].conn, m)]
    ensures (forall j :: 0 <= j < |t| ==> t[j].conn.id != m.dst.net) ==>
      forall k :: 0 <= k < |t| && m.dst.net in t[k].branches ==> Send(t, m) == [Sent(t[k].conn, m)]
    ensures (forall k :: 0 <= k < |t| ==> t[k].conn.id != m.dst.net && m.dst.net !in t[k].branches) ==> Send(t, m) == []
  {
  }

  /** What is offered to a new router: each neighbour, followed by the nets behind it, entry by entry. */
  lemma {:induction false} AllAreOffered(t: Table, k: nat)
    requires k < |t|
    ensures EnumAll(t) == EnumAll(t[..k]) + [t[k].conn.id] + t[k].branches + EnumAll(t[k + 1..])
    ensures forall n :: n in EnumAll(t) <==> exists j :: 0 <= j < |t| && (t[j].conn.id == n || n in t[j].branches)
  {
    if k > 0 {
      AllAreOffered(t[1..], k - 1);
      assert t[..k][1..] == t[1..][..k - 1] && t[1..][k..] == t[k + 1..];
      var rest := [t[k].conn.id] + t[k].branches + EnumAll(t[k + 1..]);
      assert EnumAll(t[1..]) == EnumAll(t[1..][..k - 1]) + rest;
      assert EnumAll(t[..k]) + rest == [t[0].conn.id] + t[0].branches + EnumAll(t[1..][..k - 1]) + rest;
    } else {
      assert EnumAll(t[..0]) == [];
    }
    OfferedExactly(t);
  }

  lemma {:induction false} OfferedExactly(t: Table)
    ensures forall n :: n in EnumAll(t) <==> exists j :: 0 <= j < |t| && (t[j].conn.id == n || n in t[j].branches)
  {
    if t != [] {
      OfferedExactly(t[1..]);
      forall n ensures n in EnumAll(t) <==> exists j :: 0 <= j < |t| && (t[j].conn.id == n || n in t[j].branches) {
        if j :| 0 <= j < |t| && (t[j].conn.id == n || n in t[j].branches) {
          if j > 0 { assert t[1..][j - 1] == t[j]; }
        }
        if n in EnumAll(t[1..]) {
          var j :| 0 <= j < |t| - 1 && (t[1..][j].conn.id == n || n in t[1..][j].branches);
          assert t[j + 1] == t[1..][j];
        }
      }
    }
  }

  // ---------------------------------------------------------------- the invariant

  lemma CutKeeps(branches: seq<NetId>, nid: NetId)
    requires Distinct(branches)
    ensures Distinct(CutBranch(branches, nid))
    ensures forall n :: n in CutBranch(branches, nid) ==> n in branches
  {
  }

  lemma ShrinkInv(t: Table, k: nat, nid: NetId)
    requires Inv(t) && k < |t|
    ensures Inv(t[k := t[k].(branches := CutBranch(t[k].branches, nid))])
  {
    CutKeeps(t[k].branches, nid);
  }

  lemma AddConnInv(t: Table, conn: Qnet)
    requires Inv(t) && conn.id != NULL_NET
    ensures Inv(AddConn(t, conn).table)
  {
  }

  lemma AddBranchInv(t: Table, conn: Qnet, nid: NetId)
    requires Inv(t) && FindEntry(t, conn) < |t| && nid != NULL_NET
    ensures Inv(AddBranch(t, conn, nid).table)
  {
    var k := FindEntry(t, conn);
    if FindBranch(t, nid) == |t| {
      var t' := AddBranch(t, conn, nid).table;
      assert forall n :: n in t'[k].branches <==> n in t[k].branches || n == nid;
      assert forall j :: 0 <= j < |t| && j != k ==> t'[j] == t[j];
    }
  }

  lemma DropBranchInv(t: Table, conn: Qnet, nid: NetId)
    requires Inv(t) && FindEntry(t, conn) < |t|
    ensures Inv(DropBranch(t, conn, nid).table)
  {
    ShrinkInv(t, FindEntry(t, conn), nid);
  }

  /** Walking the copied vector removes its nets front to back and leaves the rest of the table alone. */
  lemma {:induction false} DropEachEffect(t: Table, k: nat)
    requires Inv(t) && k < |t|
    ensures DropEach(t, k, t[k].branches).table == t[k := t[k].(branches := [])]
    ensures Inv(t[k := t[k].(branches := [])])
    decreases |t[k].branches|
  {
    var nets := t[k].branches;
    if nets == [] {
      assert t[k := t[k].(branches := [])] == t;
    } else {
      ShrinkInv(t, k, nets[0]);
      assert CutBranch(nets, nets[0]) == nets[1..];
      var t1 := t[k := t[k].(branches := nets[1..])];
      DropEachEffect(t1, k);
      assert t1[k := t1[k].(branches := [])] == t[k := t[k].(branches := [])];
    }
  }

  /** The connection is gone and every other entry is as it was. */
  lemma DropConnEffect(t: Table, conn: Qnet)
    requires Inv(t)
    ensures var k := FindEntry(t, conn);
      DropConn(t, conn).table == if k < |t| then RemoveAt(t, k) else t
    ensures Inv(DropConn(t, conn).table)
  {
    hide Inv, DropEach, FindEntry, Send;
    var k := FindEntry(t, conn);
    if k < |t| {
      DropEachEffect(t, k);
      assert RemoveAt(t[k := t[k].(branches := [])], k) == RemoveAt(t, k);
      RemoveEntryInv(t, k);
    }
  }

  lemma RemoveEntryInv(t: Table, k: nat)
    requires Inv(t) && k < |t|
    ensures Inv(RemoveAt(t, k))
  {
    var r := RemoveAt(t, k);
    forall j | 0 <= j < |r| ensures r[j] == t[if j < k then j else j + 1] {}
  }

  datatype Op =
    | AddOp(conn: Qnet)
    | RemoveOp(conn: Qnet)
    | AddBranchOp(conn: Qnet, nid: NetId)
    | RemoveBranchOp(conn: Qnet, nid: NetId)

  /** What the source asserts: a known connection, and never the null net. */
  predicate OpOk(t: Table, op: Op) {
    match op
    case AddOp(conn) => conn.id != NULL_NET
    case RemoveOp(_) => true
    case AddBranchOp(conn, nid) => FindEntry(t, conn) < |t| && nid != NULL_NET
    case RemoveBranchOp(conn, nid) => FindEntry(t, conn) < |t| && nid != NULL_NET
  }

  function Apply(t: Table, op: Op): Step
    requires OpOk(t, op)
  {
    match op
    case AddOp(conn) => AddConn(t, conn)
    case RemoveOp(conn) => DropConn(t, conn)
    case AddBranchOp(conn, nid) => AddBranch(t, conn, nid)
    case RemoveBranchOp(conn, nid) => DropBranch(t, conn, nid)
  }

  predicate RunOk(t: Table, ops: seq<Op>)
    decreases |ops|
  {
    ops == [] || (OpOk(t, ops[0]) && RunOk(Apply(t, ops[0]).table, ops[1..]))
  }

  function Run(t: Table, ops: seq<Op>): Step
    requires RunOk(t, ops)
    decreases |ops|
  {
    if ops == [] then Step(t, [])
    else
      var s := Apply(t, ops[0]);
      var rest := Run(s.table, ops[1..]);
      Step(rest.table, s.log + rest.log)
  }

  lemma {:induction false} RunInv(t: Table, ops: seq<Op>)
    requires Inv(t) && RunOk(t, ops)
    ensures Inv(Run(t, ops).table)
    decreases |ops|
  {
    if ops != [] {
      match ops[0] {
        case AddOp(conn) => AddConnInv(t, conn);
        case RemoveOp(conn) => DropConnEffect(t, conn);
        case AddBranchOp(conn, nid) => AddBranchInv(t, conn, nid);
        case RemoveBranchOp(conn, nid) => DropBranchInv(t, conn, nid);
      }
      RunInv(Apply(t, ops[0]).table, ops[1..]);
    }
  }

  /** Any sequence of table operations from the empty table. */
  lemma EveryRunIsConsistent(ops: seq<Op>)
    requires RunOk([], ops)
    ensures Inv(Run([], ops).table)
  {
    RunInv([], ops);
  }

  // ---------------------------------------------------------------- losing a net that is not there

  /** remove_branch takes away exactly the given net if and only if the vector is empty or holds it. */
  lemma CutExactly(branches: seq<NetId>, nid: NetId)
    requires Distinct(branches)
    ensures (forall n :: n in CutBranch(branches, nid) <==> n in branches && n != nid)
       <==> (branches == [] || nid in branches)
  {
    var p := IndexOfNet(branches, nid);
    var cut := CutBranch(branches, nid);
    if p < |branches| {
      forall n | n in branches && n != nid ensures n in cut {
        var j :| 0 <= j < |branches| && branches[j] == n;
        assert cut[if j < p then j else j - 1] == n;
      }
    } else if branches != [] {
      var last := branches[|branches| - 1];
      assert last in branches && last !in cut;
    }
  }

  // ---------------------------------------------------------------- the table exchange

  /** The nets not taken, in the order of their first arrival. */
  function Arrivals(nids: seq<NetId>, taken: set<NetId>): (r: seq<NetId>)
    ensures forall n :: n in r <==> n in nids && n !in taken
  {
    if nids == [] then []
    else
      var before, n := Arrivals(nids[..|nids| - 1], taken), nids[|nids| - 1];
      assert forall m :: m in nids <==> m in nids[..|nids| - 1] || m == n;
      if n in taken || n in before then before else before + [n]
  }

  function Taken(t: Table): set<NetId> { set k, n | 0 <= k < |t| && n in t[k].branches :: n }

  function Grown(t: Table, k: nat, more: seq<NetId>): (r: Table)
    requires k < |t|
    ensures |r| == |t|
  {
    t[k := t[k].(branches := t[k].branches + more)]
  }

  lemma GrownKnows(t: Table, k: nat, more: seq<NetId>, n: NetId)
    requires k < |t|
    ensures FindBranch(Grown(t, k, more), n) < |t| <==> n in Taken(t) || n in more
  {
    var m := Grown(t, k, more);
    if n in Taken(t) {
      var j :| 0 <= j < |t| && n in t[j].branches;
      assert n in m[j].branches;
    } else if n in more {
      assert n in m[k].branches;
    } else {
      forall j | 0 <= j < |m| ensures n !in m[j].branches {
        assert n !in t[j].branches;
      }
    }
  }

  lemma LearnStep(t: Table, conn: Qnet, had: seq<NetId>, n: NetId)
    requires FindEntry(t, conn) < |t|
    ensures var k := FindEntry(t, conn);
      FindEntry(Grown(t, k, had), conn) == k &&
      AddBranch(Grown(t, k, had), conn, n).table
      == Grown(t, k, if n in Taken(t) || n in had then had else had + [n])
  {
    var k := FindEntry(t, conn);
    var m := Grown(t, k, had);
    FindEntryKept(t, m, conn);
    GrownKnows(t, k, had, n);
    assert t[k].branches + had + [n] == t[k].branches + (had + [n]);
  }

  /** Learning a list of nets: each net that is a branch nowhere yet, once, in order of first arrival. */
  lemma {:induction false} LearnEffect(t: Table, conn: Qnet, nids: seq<NetId>)
    requires Inv(t) && FindEntry(t, conn) < |t| && NULL_NET !in nids
    ensures Learn(t, conn, nids).table == Grown(t, FindEntry(t, conn), Arrivals(nids, Taken(t)))
    ensures Inv(Learn(t, conn, nids).table)
    decreases |nids|
  {
    var k := FindEntry(t, conn);
    if nids == [] {
      assert t[k].branches + [] == t[k].branches;
      assert t[k := t[k]] == t;
    } else {
      var init, n := nids[..|nids| - 1], nids[|nids| - 1];
      LearnEffect(t, conn, init);
      assert n in nids;
      AddBranchInv(Learn(t, conn, init).table, conn, n);
      LearnStep(t, conn, Arrivals(init, Taken(t)), n);
    }
  }
}
