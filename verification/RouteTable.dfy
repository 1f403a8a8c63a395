/** The route table as the router holds it: a doubly linked list of entries, each with its vector
  * of branches, and the messages its connections were handed. */
module RouteTable {
  import opened Basics
  import opened DList
  import opened Messages
  import opened RouteModel
  import opened RouteTheory

  type RouteNode = Node<Route>

  lemma {:induction false} BroadcastConcat(a: Table, b: Table, m: NetMsg)
    ensures Broadcast(a + b, m) == Broadcast(a, m) + Broadcast(b, m)
  {
    if a == [] {
      assert a + b == b;
    } else {
      assert (a + b)[1..] == a[1..] + b;
      BroadcastConcat(a[1..], b, m);
    }
  }

  lemma BroadcastPush(t: Table, k: nat, m: NetMsg)
    requires k < |t|
    ensures Broadcast(t[..k + 1], m)
         == Broadcast(t[..k], m) + if Passes(t[k], m.src.net) then [Sent(t[k].conn, m)] else []
  {
    assert t[..k + 1] == t[..k] + [t[k]] && [t[k]][1..] == [];
    BroadcastConcat(t[..k], [t[k]], m);
  }

  lemma {:induction false} EnumConcat(a: Table, b: Table)
    ensures EnumAll(a + b) == EnumAll(a) + EnumAll(b)
  {
    if a == [] {
      assert a + b == b;
    } else {
      assert (a + b)[1..] == a[1..] + b;
      EnumConcat(a[1..], b);
    }
  }

  lemma EnumPush(t: Table, k: nat)
    requires k < |t|
    ensures EnumAll(t[..k + 1]) == EnumAll(t[..k]) + ([t[k].conn.id] + t[k].branches)
    ensures |EnumAll(t[..k + 1])| <= |EnumAll(t)|
  {
    var one := [t[k]];
    assert one[1..] == [] && EnumAll(one) == [t[k].conn.id] + t[k].branches;
    EnumConcat(t[..k], one);
    assert t[..k + 1] == t[..k] + one;
    EnumConcat(t[..k + 1], t[k + 1..]);
    assert t == t[..k + 1] + t[k + 1..];
  }

  lemma DropEachStep(t: Table, k: nat, nets: seq<NetId>, i: nat)
    requires k < |t| && i < |nets|
    ensures var rest := DropEach(t[k := t[k].(branches := CutBranch(t[k].branches, nets[i]))], k, nets[i + 1..]);
      DropEach(t, k, nets[i..]) == Step(rest.table, Send(t, RouteChange(nets[i], false)) + rest.log)
  {
    assert nets[i..][0] == nets[i] && nets[i..][1..] == nets[i + 1..];
  }

  lemma DropEachEnd(t: Table, k: nat, nets: seq<NetId>)
    requires k < |t|
    ensures DropEach(t, k, nets[|nets|..]) == Step(t, [])
  {
  }

  class RouteTable {
    const list: List<Route>
    /** Every send made through the table's connections, in order. */
    var log: seq<Sent>

    ghost predicate Linked()
      reads list, list.nodes, list.members
    {
      list.Valid()
    }

    ghost function Abs(): Table
      reads list, list.nodes
    {
      DataOf(list.nodes)
    }

    ghost predicate Valid()
      reads list, list.nodes, list.members
    {
      Linked() && Inv(Abs())
    }

    constructor ()
      ensures Valid() && Abs() == [] && log == [] && fresh(list)
    {
      list := new List();
      log := [];
    }

    lemma Head()
      requires Linked()
      ensures |Abs()| == |list.nodes|
      ensures if |Abs()| > 0 then list.first == list.nodes[0] && list.first in list.members else list.first == null
    {
    }

    lemma Next(k: nat)
      requires Linked() && k < |list.nodes|
      ensures list.nodes[k].next == if k + 1 < |list.nodes| then list.nodes[k + 1] else null
      ensures list.nodes[k] in list.members && list.nodes[k].data == Abs()[k]
    {
    }

    // -------------------------------------------------------------- lookups

    /** find_entry. */
    method FindEntryNode(conn: Qnet) returns (re: Node?<Route>, ghost k: nat)
      requires Linked()
      ensures k == FindEntry(Abs(), conn)
      ensures if k < |list.nodes| then re == list.nodes[k] && re in list.members else re == null
    {
      hide RouteTable.Linked;
      Head();
      re := list.first;
      k := 0;
      while re != null
        invariant k <= |list.nodes|
        invariant if k < |list.nodes| then re == list.nodes[k] && re in list.members else re == null
        invariant forall j :: 0 <= j < k ==> Abs()[j].conn != conn
        decreases |list.nodes| - k
      {
        Next(k);
        if re.data.conn == conn {
          break;
        }
        re := re.next;
        k := k + 1;
        if k < |list.nodes| { Next(k); }
      }
    }

    /** find_branch, with the is_branch_of test. */
    method FindBranchNode(nid: NetId) returns (re: Node?<Route>, ghost k: nat)
      requires Linked()
      ensures k == FindBranch(Abs(), nid)
      ensures if k < |list.nodes| then re == list.nodes[k] && re.data == Abs()[k] else re == null
    {
      hide RouteTable.Linked;
      Head();
      re := list.first;
      k := 0;
      while re != null
        invariant k <= |list.nodes|
        invariant if k < |list.nodes| then re == list.nodes[k] else re == null
        invariant forall j :: 0 <= j < k ==> nid !in Abs()[j].branches
        decreases |list.nodes| - k
      {
        Next(k);
        var branch := IsBranchOf(re, nid);
        if branch {
          break;
        }
        re := re.next;
        k := k + 1;
      }
    }

    /** is_branch_of. */
    method IsBranchOf(re: RouteNode, nid: NetId) returns (found: bool)
      ensures found <==> nid in re.data.branches
    {
      found := false;
      var b := 0;
      while b < |re.data.branches|
        invariant 0 <= b <= |re.data.branches|
        invariant nid !in re.data.branches[..b]
      {
        if re.data.branches[b] == nid {
          return true;
        }
        b := b + 1;
      }
    }

    /** routetbl_where. */
    method RoutetblWhere(nid: NetId) returns (where: Option<Qnet>)
      requires Linked()
      ensures where == Where(Abs(), nid)
    {
      hide RouteTable.Linked;
      Head();
      var re := list.first;
      ghost var k: nat := 0;
      while re != null
        invariant k <= |list.nodes|
        invariant if k < |list.nodes| then re == list.nodes[k] else re == null
        invariant forall j :: 0 <= j < k ==> Abs()[j].conn.id != nid
        decreases |list.nodes| - k
      {
        Next(k);
        if re.data.conn.id == nid {
          return Some(re.data.conn);
        }
        re := re.next;
        k := k + 1;
      }
      var be, b := FindBranchNode(nid);
      where := if be == null then None else Some(be.data.conn);
    }

    /** routetbl_enum_root: the connection's own id and its branches; None for an unknown connection. */
    method RoutetblEnumRoot(conn: Qnet) returns (nets: Option<array<NetId>>)
      requires Linked()
      ensures if FindEntry(Abs(), conn) < |Abs()| then nets.Some? && nets.value[..] == EnumRoot(Abs(), conn)
              else nets == None
    {
      hide RouteTable.Linked;
      Head();
      var re, k := FindEntryNode(conn);
      if re == null {
        return None;
      }
      Next(k);
      var a := Prepend(conn.id, re.data.branches);
      nets := Some(a);
    }

    method Prepend(root: NetId, branches: seq<NetId>) returns (a: array<NetId>)
      ensures fresh(a) && a[..] == [root] + branches
    {
      a := new NetId[1 + |branches|](_ => NULL_NET);
      a[0] := root;
      var b := 0;
      while b < |branches|
        invariant 0 <= b <= |branches|
        invariant a[..b + 1] == [root] + branches[..b]
      {
        a[b + 1] := branches[b];
        b := b + 1;
      }
      assert branches[..b] == branches;
      assert a[..] == a[..b + 1];
    }

    /** routetbl_enum_all: a counting pass sizes the vector that the second pass fills. */
    method RoutetblEnumAll() returns (nets: array<NetId>)
      requires Linked()
      ensures fresh(nets) && nets[..] == EnumAll(Abs())
    {
      hide RouteTable.Linked;
      ghost var t := Abs();
      Head();
      var re := list.first;
      var count := 0;
      ghost var k: nat := 0;
      while re != null
        invariant k <= |list.nodes|
        invariant if k < |list.nodes| then re == list.nodes[k] else re == null
        invariant count == |EnumAll(t[..k])|
        decreases |list.nodes| - k
      {
        Next(k);
        EnumPush(t, k);
        count := count + |re.data.branches| + 1;
        re := re.next;
        k := k + 1;
      }
      assert t[..k] == t;
      nets := new NetId[count](_ => NULL_NET);
      FillAll(nets);
    }

    method FillAll(nets: array<NetId>)
      requires Linked() && nets.Length == |EnumAll(Abs())|
      modifies nets
      ensures nets[..] == EnumAll(Abs())
    {
      hide RouteTable.Linked;
      ghost var t := Abs();
      Head();
      var re := list.first;
      var p := 0;
      ghost var k: nat := 0;
      while re != null
        invariant k <= |list.nodes|
        invariant if k < |list.nodes| then re == list.nodes[k] else re == null
        invariant 0 <= p <= nets.Length && nets[..p] == EnumAll(t[..k])
        decreases |list.nodes| - k
      {
        Next(k);
        EnumPush(t, k);
        ghost var done := nets[..p];
        var part := [re.data.conn.id] + re.data.branches;
        var b := 0;
        while b < |part|
          invariant 0 <= b <= |part| && p + |part| - b <= nets.Length
          invariant 0 <= p && nets[..p] == done + part[..b]
        {
          nets[p] := part[b];
          p := p + 1;
          b := b + 1;
          assert part[..b] == part[..b - 1] + [part[b - 1]];
        }
        assert part[..b] == part;
        re := re.next;
        k := k + 1;
      }
      assert t[..k] == t;
    }

    // -------------------------------------------------------------- sending

    /** do_near_broadcast; the null net must never be the source. */
    method DoNearBroadcast(m: NetMsg)
      requires Linked() && m.src.net != NULL_NET
      modifies `log
      ensures log == old(log) + Broadcast(Abs(), m)
    {
      hide RouteTable.Linked;
      ghost var t := Abs();
      Head();
      var re := list.first;
      ghost var k: nat := 0;
      assert t[..0] == [];
      while re != null
        invariant k <= |list.nodes|
        invariant if k < |list.nodes| then re == list.nodes[k] else re == null
        invariant log == old(log) + Broadcast(t[..k], m)
        decreases |list.nodes| - k
      {
        Next(k);
        BroadcastPush(t, k, m);
        var behind := IsBranchOf(re, m.src.net);
        if re.data.conn.id != m.src.net && !behind {
          log := log + [Sent(re.data.conn, m)];
        }
        re := re.next;
        k := k + 1;
      }
      assert t[..k] == t;
    }

    /** routetbl_send. */
    method RoutetblSend(m: NetMsg)
      requires Linked() && (IsBroadcast(m) ==> m.src.net != NULL_NET)
      modifies `log
      ensures log == old(log) + Send(Abs(), m)
    {
      if IsBroadcast(m) {
        DoNearBroadcast(m);
      } else {
        var where := RoutetblWhere(m.dst.net);
        if where.Some? {
          log := log + [Sent(where.value, m)];
        }
      }
    }

    /** broadcast_route_change. */
    method BroadcastRouteChange(nid: NetId, isNew: bool)
      requires Linked() && nid != NULL_NET
      modifies `log
      ensures log == old(log) + Send(Abs(), RouteChange(nid, isNew))
    {
      RoutetblSend(RouteChange(nid, isNew));
    }

    // -------------------------------------------------------------- changes

    method SetBranches(re: RouteNode, branches: seq<NetId>, ghost k: nat)
      requires Linked() && k < |list.nodes| && list.nodes[k] == re
      modifies re
      ensures Linked() && re.data == old(re.data).(branches := branches)
      ensures Abs() == old(Abs())[k := old(Abs())[k].(branches := branches)]
    {
      re.data := re.data.(branches := branches);
      assert list.Valid();
      assert Abs() == old(Abs())[k := re.data];
    }

    /** remove_branch. */
    method RemoveBranch(re: RouteNode, nid: NetId, ghost k: nat)
      requires Linked() && k < |list.nodes| && list.nodes[k] == re
      modifies re
      ensures Linked()
      ensures re.data == old(re.data).(branches := CutBranch(old(re.data.branches), nid))
      ensures Abs() == old(Abs())[k := old(Abs())[k].(branches := CutBranch(old(Abs())[k].branches, nid))]
    {
      var branches := re.data.branches;
      Next(k);
      if |branches| == 0 {
        assert re.data == re.data.(branches := CutBranch(branches, nid));
        assert Abs() == old(Abs())[k := Abs()[k]];
        return;
      }
      var p, left := 0, |branches|;
      while left != 0
        invariant 0 <= left <= |branches| && p == |branches| - left
        invariant nid !in branches[..p]
      {
        if branches[p] == nid {
          break;
        }
        p := p + 1;
        left := left - 1;
      }
      // The source now tests left<0, which an unsigned never is; with left==0 nothing is shifted
      // and only the count goes down.
      var shifted := if left > 0 then branches[..p] + branches[p + 1..] else branches[..|branches| - 1];
      SetBranches(re, shifted, k);
    }

    /** remove_all_branches: tell, then remove, for each net of a copy of the vector. */
    method RemoveAllBranches(re: RouteNode, ghost k: nat)
      requires Valid() && k < |list.nodes| && list.nodes[k] == re
      modifies re, `log
      ensures Linked()
      ensures var d := DropEach(old(Abs()), k, old(Abs())[k].branches);
        Abs() == d.table && log == old(log) + d.log
      ensures re.data.conn == old(re.data.conn)
    {
      hide Inv, CutBranch, Send, DropEach, RouteTable.Linked, RouteTable.Abs;
      ghost var was := Abs();
      Head();
      Next(k);
      var branches := re.data.branches;
      NoNull(was, k);
      assert branches[0..] == branches;
      var i := 0;
      while i < |branches|
        invariant 0 <= i <= |branches| && Linked() && re.data.conn == old(re.data.conn)
        invariant |Abs()| == |was|
        invariant var d, all := DropEach(Abs(), k, branches[i..]), DropEach(was, k, branches);
          d.table == all.table && log + d.log == old(log) + all.log
      {
        DropEachStep(Abs(), k, branches, i);
        assert branches[i] in branches;
        BroadcastRouteChange(branches[i], false);
        RemoveBranch(re, branches[i], k);
        i := i + 1;
      }
      DropEachEnd(Abs(), k, branches);
    }

    /** routetbl_add. */
    method RoutetblAdd(conn: Qnet)
      requires Valid() && conn.id != NULL_NET
      modifies this, list, list.members
      ensures Valid()
      ensures var s := AddConn(old(Abs()), conn); Abs() == s.table && log == old(log) + s.log
      ensures fresh(list.members - old(list.members))
    {
      hide Inv, Send, RouteTable.Linked;
      AddConnInv(Abs(), conn);
      Head();
      var found, k := FindEntryNode(conn);
      if found != null {
        return;
      }
      Enlist(conn);
      BroadcastRouteChange(conn.id, true);
    }

    method Enlist(conn: Qnet)
      requires Linked()
      modifies list, list.members
      ensures Linked() && Abs() == old(Abs()) + [Route(conn, [])]
      ensures fresh(list.members - old(list.members))
    {
      var re := new Node(Route(conn, []));
      list.Append(re);
      assert Abs() == old(Abs()) + [Route(conn, [])];
    }

    /** routetbl_add_branch, for a connection of the table. */
    method RoutetblAddBranch(conn: Qnet, nid: NetId)
      requires Valid() && FindEntry(Abs(), conn) < |Abs()| && nid != NULL_NET
      modifies this, list.members
      ensures Valid()
      ensures var s := AddBranch(old(Abs()), conn, nid); Abs() == s.table && log == old(log) + s.log
    {
      hide Inv, Send, RouteTable.Linked, RouteTable.Abs, AddBranch, FindEntry, FindBranch;
      AddBranchInv(Abs(), conn, nid);
      AddBranchSteps(Abs(), conn, nid);
      Head();
      var re, k := FindEntryNode(conn);
      var be, b := FindBranchNode(nid);
      if be != null {
        return;
      }
      Next(k);
      SetBranches(re, re.data.branches + [nid], k);
      BroadcastRouteChange(nid, true);
    }

    /** routetbl_remove_branch, for a connection of the table. */
    method RoutetblRemoveBranch(conn: Qnet, nid: NetId)
      requires Valid() && FindEntry(Abs(), conn) < |Abs()| && nid != NULL_NET
      modifies this, list.members
      ensures Valid()
      ensures var s := DropBranch(old(Abs()), conn, nid); Abs() == s.table && log == old(log) + s.log
    {
      hide Inv, Send, CutBranch, RouteTable.Linked;
      DropBranchInv(Abs(), conn, nid);
      Head();
      var re, k := FindEntryNode(conn);
      BroadcastRouteChange(nid, false);
      RemoveBranch(re, nid, k);
    }

    /** routetbl_remove. */
    method RoutetblRemove(conn: Qnet)
      requires Valid()
      modifies this, list, list.members
      ensures Valid()
      ensures var s := DropConn(old(Abs()), conn); Abs() == s.table && log == old(log) + s.log
      ensures list.members <= old(list.members)
    {
      hide Inv, Send, DropEach, RouteTable.Linked, RouteTable.Abs, DropConn, FindEntry;
      ghost var was := Abs();
      Head();
      DropConnEffect(was, conn);
      DropConnSteps(was, conn);
      var re, k := FindEntryNode(conn);
      if re == null {
        return;
      }
      DropEachEffect(was, k);
      NoNull(was, k);
      RemoveAllBranches(re, k);
      BroadcastRouteChange(conn.id, false);
      Unlist(re, k);
    }

    method Unlist(re: RouteNode, ghost k: nat)
      requires Linked() && k < |list.nodes| && list.nodes[k] == re
      modifies list, list.members
      ensures Linked() && Abs() == RemoveAt(old(Abs()), k)
      ensures list.members <= old(list.members)
    {
      list.Remove(re, k);
      assert forall j :: 0 <= j < |list.nodes| ==> list.nodes[j] == old(list.nodes[if j < k then j else j + 1]);
      assert Abs() == RemoveAt(old(Abs()), k);
    }
  }

  lemma AddBranchSteps(t: Table, conn: Qnet, nid: NetId)
    requires FindEntry(t, conn) < |t|
    ensures var k := FindEntry(t, conn);
      var next := t[k := t[k].(branches := t[k].branches + [nid])];
      AddBranch(t, conn, nid) ==
        if FindBranch(t, nid) < |t| then Step(t, []) else Step(next, Send(next, RouteChange(nid, true)))
    ensures FindBranch(t, nid) <= |t|
  {
  }

  lemma DropConnSteps(t: Table, conn: Qnet)
    ensures var k := FindEntry(t, conn);
      if k >= |t| then DropConn(t, conn) == Step(t, [])
      else
        var d := DropEach(t, k, t[k].branches);
        DropConn(t, conn).log == d.log + Send(d.table, RouteChange(conn.id, false))
  {
  }

  lemma NoNull(t: Table, k: nat)
    requires Inv(t) && k < |t|
    ensures t[k].conn.id != NULL_NET && NULL_NET !in t[k].branches
  {
  }
}
