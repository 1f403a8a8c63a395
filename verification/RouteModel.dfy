/** The route table as a value: one entry per connection, in list order, with the nets beyond it. */
module RouteModel {
  import opened Basics
  import opened Messages

  datatype Route = Route(conn: Qnet, branches: seq<NetId>)
  type Table = seq<Route>
  /** A table and what was sent while getting there. */
  datatype Step = Step(table: Table, log: seq<Sent>)

  // ---------------------------------------------------------------- lookups

  function FindEntry(t: Table, conn: Qnet): (r: nat)
    ensures r <= |t|
    ensures r < |t| ==> t[r].conn == conn
    ensures forall k :: 0 <= k < r ==> t[k].conn != conn
  {
    if t == [] || t[0].conn == conn then 0 else 1 + FindEntry(t[1..], conn)
  }

  function FindNeighbour(t: Table, nid: NetId): (r: nat)
    ensures r <= |t|
    ensures r < |t| ==> t[r].conn.id == nid
    ensures forall k :: 0 <= k < r ==> t[k].conn.id != nid
  {
    if t == [] || t[0].conn.id == nid then 0 else 1 + FindNeighbour(t[1..], nid)
  }

  function FindBranch(t: Table, nid: NetId): (r: nat)
    ensures r <= |t|
    ensures r < |t| ==> nid in t[r].branches
    ensures forall k :: 0 <= k < r ==> nid !in t[k].branches
  {
    if t == [] || nid in t[0].branches then 0 else 1 + FindBranch(t[1..], nid)
  }

  /** routetbl_where: the neighbours first, then the branches. */
  function Where(t: Table, nid: NetId): Option<Qnet> {
    var k := FindNeighbour(t, nid);
    if k < |t| then Some(t[k].conn)
    else
      var b := FindBranch(t, nid);
      if b < |t| then Some(t[b].conn) else None
  }

  function EnumRoot(t: Table, conn: Qnet): seq<NetId> {
    var k := FindEntry(t, conn);
    if k < |t| then [conn.id] + t[k].branches else []
  }

  /** routetbl_enum_all, with no net excepted. */
  function EnumAll(t: Table): seq<NetId> {
    if t == [] then [] else [t[0].conn.id] + t[0].branches + EnumAll(t[1..])
  }

  // ---------------------------------------------------------------- sending

  /** The split-horizon rule: not back to the source, nor to the connection it lies behind. */
  predicate Passes(r: Route, src: NetId) { r.conn.id != src && src !in r.branches }

  /** do_near_broadcast. */
  function Broadcast(t: Table, m: NetMsg): seq<Sent> {
    if t == [] then []
    else (if Passes(t[0], m.src.net) then [Sent(t[0].conn, m)] else []) + Broadcast(t[1..], m)
  }

  /** routetbl_send: a message without a route is dropped. */
  function Send(t: Table, m: NetMsg): seq<Sent> {
    if IsBroadcast(m) then Broadcast(t, m)
    else
      var w := Where(t, m.dst.net);
      if w.Some? then [Sent(w.value, m)] else []
  }

  // ---------------------------------------------------------------- changes

  /** routetbl_add: insert, then tell. */
  function AddConn(t: Table, conn: Qnet): Step {
    if FindEntry(t, conn) < |t| then Step(t, [])
    else
      var t' := t + [Route(conn, [])];
      Step(t', Send(t', RouteChange(conn.id, true)))
  }

  /** routetbl_add_branch: insert, then tell; a net that is a branch anywhere is ignored. */
  function AddBranch(t: Table, conn: Qnet, nid: NetId): Step
    requires FindEntry(t, conn) < |t|
  {
    var k := FindEntry(t, conn);
    if FindBranch(t, nid) < |t| then Step(t, [])
    else
      var t' := t[k := t[k].(branches := t[k].branches + [nid])];
      Step(t', Send(t', RouteChange(nid, true)))
  }

  function IndexOfNet(nets: seq<NetId>, nid: NetId): (r: nat)
    ensures r <= |nets| && nid !in nets[..r]
    ensures r < |nets| ==> nets[r] == nid
    ensures nid !in nets ==> r == |nets|
  {
    if nets == [] || nets[0] == nid then 0 else 1 + IndexOfNet(nets[1..], nid)
  }

  /** remove_branch as written, memory sizes aside: its `left<0` guard tests an unsigned and never fires, so for a net
    * that is not in the vector the count goes down all the same and the last entry is lost. */
  function CutBranch(branches: seq<NetId>, nid: NetId): seq<NetId> {
    var p := IndexOfNet(branches, nid);
    if branches == [] then []
    else if p < |branches| then RemoveAt(branches, p)
    else branches[..|branches| - 1]
  }

  /** routetbl_remove_branch: tell, then remove. */
  function DropBranch(t: Table, conn: Qnet, nid: NetId): Step
    requires FindEntry(t, conn) < |t|
  {
    var k := FindEntry(t, conn);
    Step(t[k := t[k].(branches := CutBranch(t[k].branches, nid))], Send(t, RouteChange(nid, false)))
  }

  /** remove_all_branches, over a copy of the vector. */
  function DropEach(t: Table, k: nat, nets: seq<NetId>): Step
    requires k < |t|
    decreases |nets|
  {
    if nets == [] then Step(t, [])
    else
      var told := Send(t, RouteChange(nets[0], false));
      var rest := DropEach(t[k := t[k].(branches := CutBranch(t[k].branches, nets[0]))], k, nets[1..]);
      Step(rest.table, told + rest.log)
  }

  /** routetbl_remove: every branch, then the connection's own net, is told while still in the table. */
  function DropConn(t: Table, conn: Qnet): Step {
    var k := FindEntry(t, conn);
    if k == |t| then Step(t, [])
    else
      var d := DropEach(t, k, t[k].branches);
      Step(if k < |d.table| then RemoveAt(d.table, k) else d.table,
           d.log + Send(d.table, RouteChange(conn.id, false)))
  }

  /** The receiving half of the table exchange: one branch after another. */
  function Learn(t: Table, conn: Qnet, nids: seq<NetId>): (r: Step)
    requires FindEntry(t, conn) < |t|
    ensures FindEntry(r.table, conn) == FindEntry(t, conn) && |r.table| == |t|
    decreases |nids|
  {
    if nids == [] then Step(t, [])
    else
      var init := Learn(t, conn, nids[..|nids| - 1]);
      var last := AddBranch(init.table, conn, nids[|nids| - 1]);
      FindEntryKept(init.table, last.table, conn);
      Step(last.table, init.log + last.log)
  }

  lemma {:induction false} FindEntryKept(a: Table, b: Table, conn: Qnet)
    requires |a| == |b| && forall k :: 0 <= k < |a| ==> a[k].conn == b[k].conn
    ensures FindEntry(a, conn) == FindEntry(b, conn)
  {
    if a != [] { FindEntryKept(a[1..], b[1..], conn); }
  }
}
