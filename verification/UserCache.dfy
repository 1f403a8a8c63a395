/** The cache as the router holds it: two doubly linked lists, and for each user an array of
  * pointers into the shared, reference-counted channel list. Every method is proved against
  * the function of CacheModel of the same purpose. */
module UserCache {
  import opened Basics
  import opened DList
  import opened ChanList
  import opened CacheModel
  import opened CacheTheory
  import opened CacheRuns

  type ChanNode = Node<Chan>
  datatype UserRec = UserRec(uid: UserId, umode: Umode, nick: string, alive: bool, chan: seq<ChanNode>)
  type UserNode = Node<UserRec>

  ghost function NamesOf(chan: seq<ChanNode>): (r: seq<string>)
    reads chan
    ensures |r| == |chan| && forall k :: 0 <= k < |r| ==> r[k] == chan[k].data.name
  {
    seq(|chan|, k requires 0 <= k < |chan| reads chan => chan[k].data.name)
  }

  ghost predicate PointsInto(users: seq<UserNode>, chans: set<ChanNode>)
    reads users
  {
    forall i, k :: 0 <= i < |users| && 0 <= k < |users[i].data.chan| ==> users[i].data.chan[k] in chans
  }

  ghost function UserOf(u: UserRec): User
    reads u.chan
  {
    User(u.uid, u.umode, u.nick, u.alive, NamesOf(u.chan))
  }

  ghost function UsersOf(users: seq<UserNode>, chans: set<ChanNode>): (r: seq<User>)
    requires PointsInto(users, chans)
    reads users, chans
    ensures |r| == |users| && forall k :: 0 <= k < |r| ==> r[k] == UserOf(users[k].data)
  {
    seq(|users|, k requires 0 <= k < |users| && PointsInto(users, chans) reads users, chans => UserOf(users[k].data))
  }

  // ---------------------------------------------------------------- the channel list

  /** chan_find. */
  method ChanFind(chs: List<Chan>, channame: string) returns (ce: Node?<Chan>, ghost k: nat)
    requires chs.Valid()
    ensures k == Find(DataOf(chs.nodes), Clip(channame, CHANNAME_LEN_MAX))
    ensures if k < |chs.nodes| then ce == chs.nodes[k] && ce in chs.members else ce == null
  {
    var name := Clip(channame, CHANNAME_LEN_MAX);
    ce := chs.first;
    k := 0;
    while ce != null
      invariant k <= |chs.nodes|
      invariant if k < |chs.nodes| then ce == chs.nodes[k] else ce == null
      invariant forall j :: 0 <= j < k ==> chs.nodes[j].data.name != name
      decreases |chs.nodes| - k
    {
      if ce.data.name == name {
        break;
      }
      ce := ce.next;
      k := k + 1;
    }
    assert forall j :: 0 <= j < |chs.nodes| ==> DataOf(chs.nodes)[j] == chs.nodes[j].data;
  }

  method SetChan(chs: List<Chan>, ce: ChanNode, d: Chan, ghost k: nat)
    requires chs.Valid() && k < |chs.nodes| && chs.nodes[k] == ce
    modifies ce
    ensures chs.Valid()
    ensures ce.data == d && DataOf(chs.nodes) == old(DataOf(chs.nodes))[k := d]
  {
    ce.data := d;
    assert DataOf(chs.nodes) == old(DataOf(chs.nodes))[k := d];
  }

  method NewChan(chs: List<Chan>, name: string) returns (ce: ChanNode)
    requires chs.Valid()
    modifies chs, chs.members
    ensures chs.Valid() && fresh(ce) && chs.members == old(chs.members) + {ce}
    ensures DataOf(chs.nodes) == old(DataOf(chs.nodes)) + [ce.data]
    ensures ce.data == Chan(name, "", 1)
    ensures forall n :: n in old(chs.members) ==> n.data == old(n.data)
  {
    ce := new Node(Chan(name, "", 1));
    chs.Append(ce);
    assert DataOf(chs.nodes) == old(DataOf(chs.nodes)) + [ce.data];
  }

  /** chan_add_ref. */
  method ChanAddRef(chs: List<Chan>, channame: string) returns (ce: ChanNode)
    requires chs.Valid()
    modifies chs, chs.members
    ensures chs.Valid()
    ensures ce in chs.members && ce.data.name == Clip(channame, CHANNAME_LEN_MAX)
    ensures DataOf(chs.nodes) == AddRef(old(DataOf(chs.nodes)), Clip(channame, CHANNAME_LEN_MAX))
    ensures fresh(chs.members - old(chs.members)) && old(chs.members) <= chs.members
    ensures forall n :: n in old(chs.members) ==> n.data.name == old(n.data.name)
  {
    hide List.Valid;
    var found, k := ChanFind(chs, channame);
    if found != null {
      ce := found;
      SetChan(chs, ce, ce.data.(refs := ce.data.refs + 1), k);
    } else {
      ce := NewChan(chs, Clip(channame, CHANNAME_LEN_MAX));
    }
  }

  method DropChanNode(chs: List<Chan>, ce: ChanNode, ghost k: nat)
    requires chs.Valid() && k < |chs.nodes| && chs.nodes[k] == ce
    modifies chs, chs.members
    ensures chs.Valid() && chs.members == old(chs.members) - {ce}
    ensures DataOf(chs.nodes) == RemoveAt(old(DataOf(chs.nodes)), k)
    ensures forall n :: n in old(chs.members) ==> n.data == old(n.data)
  {
    chs.Remove(ce, k);
    assert forall j :: 0 <= j < |chs.nodes| ==> chs.nodes[j] == old(chs.nodes)[if j < k then j else j + 1];
    assert DataOf(chs.nodes) == RemoveAt(old(DataOf(chs.nodes)), k);
  }

  /** chan_delete_ref: the entry goes when the last reference does. */
  method ChanDeleteRef(chs: List<Chan>, ce: ChanNode, ghost k: nat)
    requires chs.Valid() && k < |chs.nodes| && chs.nodes[k] == ce
    modifies chs, chs.members
    ensures chs.Valid()
    ensures DataOf(chs.nodes) == DropRef(old(DataOf(chs.nodes)), k)
    ensures chs.members == if old(ce.data.refs) == 1 then old(chs.members) - {ce} else old(chs.members)
    ensures forall n :: n in old(chs.members) ==> n.data.name == old(n.data.name)
  {
    SetChan(chs, ce, ce.data.(refs := ce.data.refs - 1), k);
    if ce.data.refs == 0 {
      DropChanNode(chs, ce, k);
    }
  }

  // ---------------------------------------------------------------- arrays of pointers

  /** An array whose nodes kept their names still lists the same names. */
  twostate lemma NamesKept(chan: seq<ChanNode>)
    requires forall k :: 0 <= k < |chan| ==> chan[k].data.name == old(chan[k].data.name)
    ensures NamesOf(chan) == old(NamesOf(chan))
  {
  }

  lemma NamesPush(chan: seq<ChanNode>, uc: ChanNode)
    ensures NamesOf(chan + [uc]) == NamesOf(chan) + [uc.data.name]
  {
  }

  lemma RemoveAtIndex<T>(s: seq<T>, k: nat)
    requires k < |s|
    ensures |RemoveAt(s, k)| == |s| - 1
    ensures forall j :: 0 <= j < |s| - 1 ==> RemoveAt(s, k)[j] == s[if j < k then j else j + 1]
  {
  }

  lemma NamesRemove(chan: seq<ChanNode>, p: nat)
    requires p < |chan|
    ensures NamesOf(RemoveAt(chan, p)) == RemoveAt(NamesOf(chan), p)
  {
    var r := RemoveAt(chan, p);
    forall k | 0 <= k < |r| ensures NamesOf(r)[k] == RemoveAt(NamesOf(chan), p)[k] {
      assert r[k] == chan[if k < p then k else k + 1];
    }
  }

  /** Where an array holds a pointer, or its length. */
  method PointerIndex(chan: seq<ChanNode>, uc: ChanNode) returns (p: nat)
    ensures p <= |chan| && forall k :: 0 <= k < p ==> chan[k] != uc
    ensures p < |chan| ==> chan[p] == uc
  {
    p := 0;
    while p < |chan| && chan[p] != uc
      invariant p <= |chan| && forall k :: 0 <= k < p ==> chan[k] != uc
    {
      p := p + 1;
    }
  }

  /** Listed channels with the same name are the same node. */
  lemma SameName(chs: List<Chan>, a: ChanNode, b: ChanNode)
    requires chs.Valid() && DistinctNames(DataOf(chs.nodes))
    requires a in chs.members && b in chs.members && a.data.name == b.data.name
    ensures a == b
  {
    var i :| 0 <= i < |chs.nodes| && chs.nodes[i] == a;
    var j :| 0 <= j < |chs.nodes| && chs.nodes[j] == b;
    assert DataOf(chs.nodes)[i].name == DataOf(chs.nodes)[j].name;
  }

  /** Comparing pointers is comparing names, for listed channels. */
  lemma PointerIsName(chs: List<Chan>, chan: seq<ChanNode>, uc: ChanNode, p: nat)
    requires chs.Valid() && DistinctNames(DataOf(chs.nodes)) && uc in chs.members
    requires forall k :: 0 <= k < |chan| ==> chan[k] in chs.members
    requires p <= |chan| && (forall k :: 0 <= k < p ==> chan[k] != uc) && (p < |chan| ==> chan[p] == uc)
    ensures IndexIn(NamesOf(chan), uc.data.name) == p
  {
    forall k | 0 <= k < p ensures NamesOf(chan)[k] != uc.data.name {
      if NamesOf(chan)[k] == uc.data.name { SameName(chs, chan[k], uc); }
    }
    if p < |chan| { assert NamesOf(chan)[p] == uc.data.name; }
  }

  // ---------------------------------------------------------------- steps of the operations as values

  lemma AddEachNone(c: Cache, i: nat)
    requires i < |c.users|
    ensures AddEach(c, i, []) == c
  {
  }

  lemma AddEachStep(c: Cache, i: nat, names: seq<string>, m: nat)
    requires i < |c.users| && m < |names|
    ensures AddEach(c, i, names[..m + 1]) == AddChan(AddEach(c, i, names[..m]), i, names[m])
    ensures names[m..][0] == names[m] && names[m..][1..] == names[m + 1..]
  {
    assert names[..m + 1][..m] == names[..m];
  }

  lemma JoinNone()
    ensures Join([]) == ""
  {
  }

  lemma {:induction false} OnTwo(users: seq<User>, i: nat, j: nat, name: string)
    requires i < |users| && j < |users| && i != j
    requires name in users[i].chans && name in users[j].chans
    ensures On(users, name) >= 2
  {
    var bare := Bare(users, i);
    OnUpdate(users, i, bare[i], name);
    OnWitness(bare, j, name);
  }

  lemma DropChanSteps(c: Cache, i: nat, channame: string)
    requires i < |c.users|
    ensures var name, u := Clip(channame, CHANNAME_LEN_MAX), c.users[i];
      var k, p := Find(c.chans, name), IndexIn(u.chans, name);
      if k < |c.chans| && p < |u.chans|
      then DropChan(c, i, channame) == Cache(c.users[i := u.(chans := RemoveAt(u.chans, p))], DropRef(c.chans, k))
      else DropChan(c, i, channame) == c
  {
  }

  lemma AddChanSteps(c: Cache, i: nat, channame: string)
    requires i < |c.users|
    ensures var name, u := Clip(channame, CHANNAME_LEN_MAX), c.users[i];
      if Find(c.chans, name) < |c.chans| && IndexIn(u.chans, name) < |u.chans| then AddChan(c, i, channame) == c
      else AddChan(c, i, channame) == Cache(c.users[i := u.(chans := u.chans + [name])], AddRef(c.chans, name))
  {
  }

  lemma {:induction false} DeadConcat(a: seq<User>, b: seq<User>, net: NetId)
    ensures Dead(a + b, net) == Dead(a, net) + Dead(b, net)
  {
    if a == [] {
      assert a + b == b;
    } else {
      assert (a + b)[1..] == a[1..] + b;
      DeadConcat(a[1..], b, net);
    }
  }

  lemma DeadSplit(users: seq<User>, i: nat, net: NetId)
    requires i <= |users|
    ensures Dead(users, net) == Dead(users[..i], net) + Dead(users[i..], net)
  {
    assert users == users[..i] + users[i..];
    DeadConcat(users[..i], users[i..], net);
  }

  lemma DeadPush(users: seq<User>, i: nat, net: NetId)
    requires i < |users|
    ensures var u := users[i];
      Dead(users[..i + 1], net) == Dead(users[..i], net) + if u.uid.net == net && !u.alive then [u.uid] else []
  {
    assert users[..i + 1] == users[..i] + [users[i]] && [users[i]][1..] == [];
    DeadConcat(users[..i], [users[i]], net);
  }

  /** The argument lists of an enumeration callback, one per user. */
  function Calls(users: seq<User>): seq<(UserId, Umode, string, string)> {
    if users == [] then []
    else
      var u := users[|users| - 1];
      Calls(users[..|users| - 1]) + [(u.uid, u.umode, u.nick, Join(u.chans))]
  }

  /** The users after the first i rounds of tagging. */
  function TagPrefix(users: seq<User>, net: NetId, i: nat): seq<User>
    requires i <= |users|
  {
    TagUsers(users[..i], net) + users[i..]
  }

  lemma TagStart(users: seq<User>, net: NetId)
    ensures TagPrefix(users, net, 0) == users
    ensures TagPrefix(users, net, |users|) == TagUsers(users, net)
    ensures |TagUsers(users, net)| == |users|
    ensures forall i :: 0 <= i < |users| ==>
      TagUsers(users, net)[i] == users[i].(alive := TagUsers(users, net)[i].alive)
  {
    assert users[..|users|] == users;
  }

  lemma TagStep(users: seq<User>, net: NetId, i: nat)
    requires i < |users|
    ensures |TagPrefix(users, net, i)| == |users| && TagPrefix(users, net, i)[i] == users[i]
    ensures var u := users[i];
      TagPrefix(users, net, i + 1)
      == TagPrefix(users, net, i)[i := if u.uid.net == net then u.(alive := false) else u]
  {
    var a, b := TagUsers(users[..i], net), TagUsers(users[..i + 1], net);
    assert forall k :: 0 <= k < i ==> b[k] == a[k];
    assert users[..i + 1][i] == users[i];
  }

  lemma DeadNone(users: seq<User>, net: NetId)
    ensures Dead(users[..0], net) == []
  {
  }

  lemma CallsEmpty(users: seq<User>)
    ensures Calls(users[..0]) == []
  {
  }

  lemma CallsNone(users: seq<User>, net: NetId)
    ensures Calls(Outside(users[..0], {net})) == []
  {
  }

  lemma CallsPush(users: seq<User>, i: nat, net: NetId)
    requires i < |users|
    ensures var u, was := users[i], Calls(Outside(users[..i], {net}));
      Calls(Outside(users[..i + 1], {net}))
      == if u.uid.net != net then was + [(u.uid, u.umode, u.nick, Join(u.chans))] else was
  {
    assert users[..i + 1] == users[..i] + [users[i]];
    OutsideConcat(users[..i], [users[i]], {net});
    OutsideOne(users[i], {net});
    CallsSnoc(Outside(users[..i], {net}), users[i]);
    assert Outside(users[..i], {net}) + [] == Outside(users[..i], {net});
  }

  lemma CallsSnoc(users: seq<User>, u: User)
    ensures Calls(users + [u]) == Calls(users) + [(u.uid, u.umode, u.nick, Join(u.chans))]
  {
    assert (users + [u])[..|users|] == users;
  }

  lemma KnownEnd(chans: seq<Chan>, used: nat)
    ensures KnownNames(chans[|chans|..], used) == []
  {
  }

  lemma KnownStep(chans: seq<Chan>, k: nat, used: nat)
    requires k < |chans|
    ensures KnownNames(chans[k..], used)
         == if used + |chans[k].name| + 1 > CHANLIST_LEN_MAX then []
            else [chans[k].name] + KnownNames(chans[k + 1..], used + |chans[k].name| + 1)
  {
    assert chans[k..][1..] == chans[k + 1..];
  }

  class UserCache {
    const ues: List<UserRec>
    const chs: List<Chan>
    /** The linked users, and after them a new user's record while it already holds channel
      * references but is not linked yet. */
    ghost var all: seq<UserNode>

    /** Both lists are well linked and every array entry points at a listed channel. */
    ghost predicate Linked()
      reads this, ues, ues.nodes, ues.members, chs, chs.nodes, chs.members, all
    {
      && ues.Valid() && chs.Valid()
      && ues.nodes <= all && |all| <= |ues.nodes| + 1
      && (forall i, j :: 0 <= i < j < |all| ==> all[i] != all[j])
      && PointsInto(all, chs.members)
    }

    ghost function Abs(): Cache
      requires Linked()
      reads this, ues, ues.nodes, ues.members, chs, chs.nodes, chs.members, all
    {
      Cache(UsersOf(all, chs.members), DataOf(chs.nodes))
    }

    ghost predicate Valid()
      reads this, ues, ues.nodes, ues.members, chs, chs.nodes, chs.members, all
      ensures Valid() ==> Linked() && Inv(Abs())
    {
      Linked() && Inv(Abs())
    }

    constructor ()
      ensures Valid() && all == [] && Abs() == EMPTY
      ensures fresh(ues) && fresh(chs)
    {
      ues := new List();
      chs := new List();
      all := [];
    }

    lemma Parts()
      requires Linked()
      ensures ues.Valid() && chs.Valid() && PointsInto(all, chs.members)
      ensures forall i, j :: 0 <= i < j < |all| ==> all[i] != all[j]
      ensures |Abs().users| == |all| && |Abs().chans| == |chs.nodes|
      ensures Abs().chans == DataOf(chs.nodes)
    {
    }

    /** Positions in the lists and in one user's array are positions in the value. */
    lemma ArrayNames(i: nat)
      requires Linked() && i < |all|
      ensures |Abs().users| == |all| && |Abs().chans| == |chs.nodes|
      ensures Abs().users[i] == UserOf(all[i].data)
      ensures var chan, names := all[i].data.chan, Abs().users[i].chans;
        |names| == |chan| && forall k :: 0 <= k < |chan| ==> chan[k] in chs.members && chan[k].data.name == names[k]
    {
    }

    /** Work on the channel list that loses no node and renames none leaves the users alone. */
    twostate lemma OnlyChannels()
      requires old(Linked()) && chs.Valid()
      requires unchanged(this) && unchanged(ues) && unchanged(ues.nodes) && unchanged(all)
      requires old(chs.members) <= chs.members
      requires forall n :: n in old(chs.members) ==> n.data.name == old(n.data.name)
      ensures Linked()
      ensures Abs().users == old(Abs().users)
    {
      assert ues.Valid();
      forall j | 0 <= j < |all|
        ensures forall k :: 0 <= k < |all[j].data.chan| ==> all[j].data.chan[k] in chs.members
        ensures UserOf(all[j].data) == old(UserOf(all[j].data))
      {
        NamesKept(all[j].data.chan);
      }
    }

    /** Takes a reference on a channel while the users stay what they were. */
    method TakeRef(channame: string) returns (ce: ChanNode)
      requires Linked()
      modifies chs, chs.members
      ensures Linked()
      ensures ce in chs.members && ce.data.name == Clip(channame, CHANNAME_LEN_MAX)
      ensures Abs().users == old(Abs().users)
      ensures Abs().chans == AddRef(old(Abs().chans), Clip(channame, CHANNAME_LEN_MAX))
      ensures fresh(chs.members - old(chs.members))
    {
      ce := ChanAddRef(chs, channame);
      OnlyChannels();
    }

    /** Overwrites a user's record; the array may only hold listed channels. */
    method SetRec(ue: UserNode, rec: UserRec, ghost i: nat)
      requires Linked() && i < |all| && all[i] == ue
      requires forall k :: 0 <= k < |rec.chan| ==> rec.chan[k] in chs.members
      modifies ue
      ensures Linked() && ue.data == rec
      ensures Abs().users == old(Abs().users)[i := UserOf(rec)] && Abs().chans == old(Abs().chans)
      ensures UserOf(rec) == old(UserOf(rec))
    {
      ue.data := rec;
      assert ues.Valid();
      NamesKept(rec.chan);
      forall j | 0 <= j < |all| && j != i ensures Abs().users[j] == old(Abs().users[j]) {
        NamesKept(all[j].data.chan);
      }
    }

    // -------------------------------------------------------------- a user's array

    /** Whether the user's array holds the channel of that name, and where. */
    method Search(ue: UserNode, channame: string, ghost i: nat) returns (uc: Node?<Chan>, p: nat, ghost k: nat)
      requires Valid() && i < |all| && all[i] == ue
      ensures k == Find(Abs().chans, Clip(channame, CHANNAME_LEN_MAX))
      ensures if k < |chs.nodes| then uc == chs.nodes[k] && uc in chs.members else uc == null
      ensures uc != null ==> p == IndexIn(Abs().users[i].chans, Clip(channame, CHANNAME_LEN_MAX))
      ensures uc != null && p < |ue.data.chan| ==> ue.data.chan[p] == uc
    {
      uc, k := ChanFind(chs, channame);
      p := 0;
      if uc != null {
        p := PointerIndex(ue.data.chan, uc);
        PointerIsName(chs, ue.data.chan, uc, p);
      }
    }

    /** add_ue_channel. */
    method AddUeChannel(ue: UserNode, channame: string, ghost i: nat)
      requires Valid() && i < |all| && all[i] == ue
      modifies chs, chs.members, ue
      ensures Valid() && ue.data == old(ue.data).(chan := ue.data.chan)
      ensures Abs() == AddChan(old(Abs()), i, channame)
      ensures fresh(chs.members - old(chs.members))
    {
      hide Inv, AddChan, AddRef, UserCache.Linked, UserCache.Abs, List.Valid;
      ghost var was := Abs();
      ArrayNames(i);
      AddChanInv(was, i, channame);
      AddChanSteps(was, i, channame);
      var uc, p, k := Search(ue, channame, i);
      if uc == null || p == |ue.data.chan| {
        ghost var next := was.users[i].(chans := was.users[i].chans + [Clip(channame, CHANNAME_LEN_MAX)]);
        uc := TakeRef(channame);
        ArrayNames(i);
        var rec := ue.data.(chan := ue.data.chan + [uc]);
        NamesPush(ue.data.chan, uc);
        SetRec(ue, rec, i);
        assert Abs().users == was.users[i := next];
        assert Abs() == AddChan(was, i, channame);
      }
    }

    /** If one reference is left and this user holds it, nobody else points at the channel. */
    lemma SoleHolder(uc: ChanNode, p: nat, k: nat, i: nat)
      requires Valid() && i < |all| && p < |all[i].data.chan| && all[i].data.chan[p] == uc
      requires k < |chs.nodes| && chs.nodes[k] == uc && uc.data.refs == 1
      ensures forall j, q :: 0 <= j < |all| && j != i && 0 <= q < |all[j].data.chan| ==> all[j].data.chan[q] != uc
    {
      var c, name := Abs(), uc.data.name;
      assert c.chans[k].refs == On(c.users, name);
      assert c.users[i].chans[p] == name;
      forall j, q | 0 <= j < |all| && j != i && 0 <= q < |all[j].data.chan| ensures all[j].data.chan[q] != uc {
        if all[j].data.chan[q] == uc {
          assert c.users[j].chans[q] == name;
          OnTwo(c.users, i, j, name);
        }
      }
    }

    /** A user's own array holds each pointer once. */
    lemma HeldOnce(p: nat, i: nat)
      requires Valid() && i < |all| && p < |all[i].data.chan|
      ensures forall q :: 0 <= q < |all[i].data.chan| && q != p ==> all[i].data.chan[q] != all[i].data.chan[p]
    {
      var chan, names := all[i].data.chan, Abs().users[i].chans;
      assert Distinct(names);
      assert forall q :: 0 <= q < |chan| ==> names[q] == chan[q].data.name;
    }

    method PutArray(ue: UserNode, chan: seq<ChanNode>)
      requires ues.Valid()
      modifies ue
      ensures ues.Valid() && ue.data == old(ue.data).(chan := chan)
    {
      ue.data := ue.data.(chan := chan);
    }

    /** With at the positions of the user and of the entry: if the channel went, nobody points at it
      * any more, and the names seen through all other entries are kept. */
    twostate lemma Released(at: (nat, nat))
      requires old(Linked()) && ues.Valid() && chs.Valid() && unchanged(this) && unchanged(ues)
      requires at.0 < |all| && at.1 < |old(all[at.0].data.chan)|
      requires all[at.0].data == old(all[at.0].data).(chan := RemoveAt(old(all[at.0].data.chan), at.1))
      requires forall j :: 0 <= j < |all| && j != at.0 ==> all[j].data == old(all[j].data)
      requires forall n :: n in old(chs.members) ==> n.data.name == old(n.data.name)
      requires chs.members == old(chs.members) || chs.members == old(chs.members) - {old(all[at.0].data.chan[at.1])}
      requires chs.members == old(chs.members) ||
               forall j, q :: 0 <= j < |all| && j != at.0 && 0 <= q < |all[j].data.chan| ==>
                 old(all[j].data.chan)[q] != old(all[at.0].data.chan[at.1])
      requires chs.members == old(chs.members) ||
               forall q :: 0 <= q < |old(all[at.0].data.chan)| && q != at.1 ==>
                 old(all[at.0].data.chan)[q] != old(all[at.0].data.chan[at.1])
      ensures Linked()
      ensures var u := old(Abs().users[at.0]);
        Abs().users == old(Abs().users)[at.0 := u.(chans := RemoveAt(u.chans, at.1))]
    {
      var chan := old(all[at.0].data.chan);
      RemoveAtIndex(chan, at.1);
      NamesRemove(chan, at.1);
      hide RemoveAt;
      forall j, q | 0 <= j < |all| && 0 <= q < |all[j].data.chan|
        ensures all[j].data.chan[q] in chs.members
      {
        if j == at.0 { assert all[at.0].data.chan[q] == chan[if q < at.1 then q else q + 1]; }
      }
      NamesKept(chan);
      forall j | 0 <= j < |all| && j != at.0 ensures Abs().users[j] == old(Abs().users[j]) {
        NamesKept(all[j].data.chan);
      }
    }

    /** The last part of remove_ue_channel: the reference goes first, then the array entry. */
    method Release(ue: UserNode, uc: ChanNode, p: nat, ghost k: nat, ghost i: nat)
      requires Valid() && i < |all| && all[i] == ue
      requires k < |chs.nodes| && chs.nodes[k] == uc
      requires p < |ue.data.chan| && ue.data.chan[p] == uc
      modifies chs, chs.members, ue
      ensures Linked() && ue.data == old(ue.data).(chan := ue.data.chan)
      ensures var u := old(Abs().users[i]); Abs().users == old(Abs().users)[i := u.(chans := RemoveAt(u.chans, p))]
      ensures Abs().chans == DropRef(old(Abs().chans), k)
      ensures chs.members <= old(chs.members)
      ensures forall n :: n in old(chs.members) ==> n.data.name == old(n.data.name)
    {
      hide Inv, DropRef, UserCache.Linked, UserCache.Abs, List.Valid, PointsInto, RemoveAt;
      Parts();
      if uc.data.refs == 1 { SoleHolder(uc, p, k, i); }
      HeldOnce(p, i);
      ChanDeleteRef(chs, uc, k);
      PutArray(ue, RemoveAt(ue.data.chan, p));
      Released((i, p));
      Parts();
    }

    /** remove_ue_channel. A channel the user is not on is left alone, as the log text of the
      * source says; the unsigned guard that lets it through is the subject of
      * CacheRuns.PartAsWrittenExactly. */
    method RemoveUeChannel(ue: UserNode, channame: string, ghost i: nat)
      requires Valid() && i < |all| && all[i] == ue
      modifies chs, chs.members, ue
      ensures Valid() && ue.data == old(ue.data).(chan := ue.data.chan)
      ensures Abs() == DropChan(old(Abs()), i, channame)
      ensures chs.members <= old(chs.members)
      ensures forall n :: n in old(chs.members) ==> n.data.name == old(n.data.name)
    {
      hide Inv, DropChan, DropRef, UserCache.Linked, UserCache.Abs, List.Valid;
      ghost var was := Abs();
      ArrayNames(i);
      DropChanInv(was, i, channame);
      DropChanSteps(was, i, channame);
      var uc, p, k := Search(ue, channame, i);
      if uc != null && p < |ue.data.chan| {
        Release(ue, uc, p, k, i);
        assert Abs() == DropChan(was, i, channame);
      }
    }

    /** remove_ue_all_channels: every name of a copy of the array. */
    method RemoveUeAllChannels(ue: UserNode, ghost i: nat)
      requires Valid() && i < |all| && all[i] == ue
      modifies chs, chs.members, ue
      ensures Valid() && ue.data == old(ue.data).(chan := ue.data.chan)
      ensures Abs() == DropAll(old(Abs()), i)
      ensures chs.members <= old(chs.members)
    {
      hide Inv, DropChan, UserCache.Linked, UserCache.Abs, List.Valid;
      ghost var was := Abs();
      ArrayNames(i);
      ghost var names := was.users[i].chans;
      var list := ue.data.chan;
      var m := 0;
      while m < |list|
        invariant 0 <= m <= |list| == |names|
        invariant Valid() && ue.data == old(ue.data).(chan := ue.data.chan)
        invariant |Abs().users| == |was.users|
        invariant DropEach(Abs(), i, names[m..]) == DropEach(was, i, names)
        invariant chs.members <= old(chs.members)
        invariant forall q :: 0 <= q < |list| ==> list[q].data.name == names[q]
      {
        assert names[m..][0] == names[m] && names[m..][1..] == names[m + 1..];
        ArrayNames(i);
        RemoveUeChannel(ue, list[m].data.name, i);
        m := m + 1;
      }
    }

    /** set_ue_channels: from one '#' to the next. */
    method SetUeChannels(ue: UserNode, chanlist: string, ghost i: nat)
      requires Valid() && i < |all| && all[i] == ue && chanlist != ""
      modifies chs, chs.members, ue
      ensures Valid() && ue.data == old(ue.data).(chan := ue.data.chan)
      ensures Abs() == SetChans(old(Abs()), i, chanlist)
      ensures fresh(chs.members - old(chs.members))
    {
      hide Inv, AddChan, AddEach, DropAll, Split, UserCache.Linked, UserCache.Abs, List.Valid, IndexOf;
      ghost var was := Abs();
      ArrayNames(i);
      if chanlist[0] != '#' {
        return;
      }
      RemoveUeAllChannels(ue, i);
      ghost var bare := Abs();
      ghost var names := Split(chanlist[1..]);
      ghost var m: nat := 0;
      AddEachNone(bare, i);
      assert names[..0] == [];
      var rest, more := chanlist[1..], true;
      while more
        invariant Valid() && ue.data == old(ue.data).(chan := ue.data.chan)
        invariant fresh(chs.members - old(chs.members))
        invariant m <= |names| && |Abs().users| == |was.users|
        invariant Abs() == AddEach(bare, i, names[..m])
        invariant if more then Split(rest) == names[m..] else m == |names|
        decreases more, |rest|
      {
        var next := IndexOf(rest, '#');
        SplitParts(rest);
        AddEachStep(bare, i, names, m);
        AddUeChannel(ue, rest[..next], i);
        m := m + 1;
        more := next < |rest|;
        if more { rest := rest[next + 1..]; }
      }
      assert names[..m] == names;
    }

    /** generate_ue_chanlist. */
    method GenerateUeChanlist(ue: UserNode, ghost i: nat) returns (chanlist: string)
      requires Valid() && i < |all| && all[i] == ue
      ensures chanlist == Join(Abs().users[i].chans)
    {
      chanlist := "";
      var m := 0;
      ghost var names := Abs().users[i].chans;
      ArrayNames(i);
      while m < |ue.data.chan|
        invariant 0 <= m <= |ue.data.chan| == |names|
        invariant chanlist == Join(names[..m])
      {
        JoinPush(names[..m], names[m]);
        assert names[..m + 1] == names[..m] + [names[m]];
        chanlist := chanlist + ['#'] + ue.data.chan[m].data.name;
        m := m + 1;
      }
      assert names[..m] == names;
    }

    // -------------------------------------------------------------- exported operations

    /** Between operations every user's record is linked. */
    ghost predicate Whole()
      reads this, ues, ues.nodes, ues.members, chs, chs.nodes, chs.members, all
      ensures Whole() ==> Valid()
    {
      Valid() && all == ues.nodes
    }

    /** user_by_id. */
    method UserById(uid: UserId) returns (ue: Node?<UserRec>, ghost i: nat)
      requires Whole()
      ensures i == FindUser(Abs().users, uid)
      ensures if i < |all| then ue == all[i] && ue in ues.members && ue.data.uid == uid else ue == null
    {
      ue := ues.first;
      i := 0;
      while ue != null
        invariant i <= |all|
        invariant if i < |all| then ue == all[i] else ue == null
        invariant forall j :: 0 <= j < i ==> all[j].data.uid != uid
        decreases |all| - i
      {
        if ue.data.uid == uid {
          break;
        }
        ue := ue.next;
        i := i + 1;
      }
      assert forall j :: 0 <= j < |all| ==> Abs().users[j].uid == all[j].data.uid;
    }

    /** The search of usercache_known and usercache_uid_of. */
    method UserByNick(nick: string) returns (ue: Node?<UserRec>, ghost i: nat)
      requires Whole()
      ensures i == FindNick(Abs().users, nick)
      ensures if i < |all| then ue == all[i] else ue == null
    {
      ue := ues.first;
      i := 0;
      while ue != null
        invariant i <= |all|
        invariant if i < |all| then ue == all[i] else ue == null
        invariant forall j :: 0 <= j < i ==> all[j].data.nick != Clip(nick, NICKNAME_LEN_MAX)
        decreases |all| - i
      {
        if ue.data.nick == Clip(nick, NICKNAME_LEN_MAX) {
          break;
        }
        ue := ue.next;
        i := i + 1;
      }
      assert forall j :: 0 <= j < |all| ==> Abs().users[j].nick == all[j].data.nick;
    }

    method Known(nick: string) returns (known: bool)
      requires Whole()
      ensures known <==> KnownNick(Abs(), nick)
    {
      var ue, i := UserByNick(nick);
      ArrayCounts();
      known := ue != null;
    }

    method FindUid(nick: string) returns (uid: UserId)
      requires Whole()
      ensures uid == UidOf(Abs(), nick)
    {
      hide Inv, UserCache.Linked, UserCache.Abs, List.Valid;
      var ue, i := UserByNick(nick);
      ArrayCounts();
      if ue == null {
        uid := NULL_USER;
      } else {
        ArrayNames(i);
        uid := ue.data.uid;
      }
    }

    /** Walking the user list from its head visits the users of the value in order. */
    lemma Head()
      requires Linked() && all == ues.nodes
      ensures |Abs().users| == |all|
      ensures ues.first == if |all| > 0 then all[0] else null
    {
    }

    lemma Next(i: nat)
      requires Linked() && all == ues.nodes && i < |all|
      ensures all[i].next == if i + 1 < |all| then all[i + 1] else null
      ensures all[i] in ues.members
    {
    }

    lemma ArrayCounts()
      requires Linked()
      ensures |Abs().users| == |all| && |Abs().chans| == |chs.nodes|
    {
    }

    /** A new record, not linked yet, on no channel. */
    method NewRec(uid: UserId, umode: Umode, nick: string) returns (ue: UserNode)
      requires Whole() && !KnownUid(Abs(), uid) && uid != NULL_USER
      modifies this
      ensures Valid() && fresh(ue) && ues.nodes == old(ues.nodes) && all == ues.nodes + [ue]
      ensures var u := User(uid, umode, Clip(nick, NICKNAME_LEN_MAX), true, []);
        Abs() == old(Abs()).(users := old(Abs().users) + [u])
    {
      hide Inv, FindUser, List.Valid;
      ghost var was := Abs();
      ghost var u := User(uid, umode, Clip(nick, NICKNAME_LEN_MAX), true, []);
      NewUserInv(was, u);
      ue := new Node(UserRec(uid, umode, Clip(nick, NICKNAME_LEN_MAX), true, []));
      assert forall j :: 0 <= j < |all| ==> all[j] != ue;
      all := all + [ue];
      assert PointsInto(all, chs.members);
      assert NamesOf([]) == [];
      assert UserOf(ue.data) == u;
      assert Abs().users == was.users + [u];
    }

    method Link(ue: UserNode)
      requires Valid() && all == ues.nodes + [ue]
      modifies ues, ues.members, ue
      ensures Whole() && Abs() == old(Abs())
      ensures ues.members == old(ues.members) + {ue}
      ensures chs.members == old(chs.members)
    {
      hide Inv;
      ghost var was := Abs();
      assert ue !in ues.members by {
        assert all[|all| - 1] == ue;
        assert forall j :: 0 <= j < |ues.nodes| ==> all[j] == ues.nodes[j];
      }
      AppendUser(ue);
      assert Abs() == was;
    }

    method AppendUser(ue: UserNode)
      requires Linked() && all == ues.nodes + [ue] && ue !in ues.members
      modifies ues, ues.members, ue
      ensures Linked() && all == ues.nodes && Abs() == old(Abs())
      ensures ues.members == old(ues.members) + {ue}
      ensures chs.members == old(chs.members)
    {
      hide List.Valid;
      ues.Facts();
      assert forall j :: 0 <= j < |all| ==> all[j] in ues.members || all[j] == ue;
      ues.Append(ue);
      assert forall j :: 0 <= j < |all| ==> all[j].data == old(all[j].data);
      assert chs.Valid();
      assert forall j :: 0 <= j < |all| ==> Abs().users[j] == old(Abs().users)[j];
    }

    /** usercache_add: a new user takes its channel references before it is linked. */
    method UsercacheAdd(uid: UserId, umode: Option<Umode>, nick: Option<string>, chanlist: Option<string>)
      requires Whole() && AddOk(Abs(), uid, umode, nick, chanlist)
      modifies this, ues, ues.members, chs, chs.members
      ensures Whole() && Abs() == Add(old(Abs()), uid, umode, nick, chanlist)
      ensures fresh(chs.members - old(chs.members)) && fresh(ues.members - old(ues.members))
    {
      hide Inv, SetChans, UserCache.Linked, UserCache.Abs, List.Valid;
      ghost var was := Abs();
      ArrayCounts();
      var ue, i := UserById(uid);
      if ue != null {
        Modify(ue, umode, nick, chanlist, i);
      } else {
        ue := NewRec(uid, umode.value, nick.value);
        ghost var at := |was.users|;
        ArrayCounts();
        SetUeChannels(ue, chanlist.value, at);
        Link(ue);
      }
    }

    /** The part of usercache_add for a known user. */
    method Modify(ue: UserNode, umode: Option<Umode>, nick: Option<string>, chanlist: Option<string>, ghost i: nat)
      requires Whole() && i < |all| && all[i] == ue && i == FindUser(Abs().users, ue.data.uid)
      requires AddOk(Abs(), ue.data.uid, umode, nick, chanlist)
      modifies ue, chs, chs.members
      ensures Whole() && Abs() == Add(old(Abs()), old(ue.data.uid), umode, nick, chanlist)
      ensures fresh(chs.members - old(chs.members))
    {
      hide SetChans, UserCache.Linked, UserCache.Abs, List.Valid;
      ghost var was, uid := Abs(), ue.data.uid;
      ArrayNames(i);
      var rec := ue.data;
      if umode.Some? {
        rec := rec.(umode := umode.value);
      }
      if nick.Some? {
        rec := rec.(nick := Clip(nick.value, NICKNAME_LEN_MAX));
      }
      SetRec(ue, rec, i);
      assert Abs() == Add(was, uid, umode, nick, None);
      AddInv(was, uid, umode, nick, None);
      if chanlist.Some? {
        SetUeChannels(ue, chanlist.value, i);
      }
    }

    /** Takes a user on no channel out of the list. */
    method Unlink(ue: UserNode, ghost i: nat)
      requires Whole() && i < |all| && all[i] == ue
      requires Inv(Abs().(users := RemoveAt(Abs().users, i)))
      modifies this, ues, ues.members
      ensures Whole() && Abs() == old(Abs()).(users := RemoveAt(old(Abs().users), i))
      ensures ues.members <= old(ues.members)
      ensures forall n :: n in old(ues.members) ==> n.data == old(n.data)
      ensures all == RemoveAt(old(all), i)
    {
      hide Inv, List.Valid, UserCache.Linked, UserCache.Abs, RemoveAt;
      Parts();
      ues.Remove(ue, i);
      all := RemoveAt(all, i);
      Shifted(i);
    }

    twostate lemma Shifted(i: nat)
      requires old(Linked()) && ues.Valid() && i < |old(all)|
      requires all == ues.nodes == RemoveAt(old(all), i)
      requires unchanged(chs) && unchanged(chs.members)
      requires forall j :: 0 <= j < |old(all)| ==> old(all)[j].data == old(all[j].data)
      ensures Linked() && Abs() == old(Abs()).(users := RemoveAt(old(Abs().users), i))
    {
      RemoveAtIndex(old(all), i);
      RemoveAtIndex(old(Abs().users), i);
      hide RemoveAt;
      forall j | 0 <= j < |all|
        ensures var o := if j < i then j else j + 1;
          all[j] == old(all[o]) && all[j].data == old(all[o].data) && UserOf(all[j].data) == old(UserOf(all[o].data))
        ensures forall k :: 0 <= k < |all[j].data.chan| ==> all[j].data.chan[k] in chs.members
      {
        NamesKept(all[j].data.chan);
      }
      assert chs.Valid();
      assert forall j :: 0 <= j < |all| ==> Abs().users[j] == RemoveAt(old(Abs().users), i)[j];
    }

    /** usercache_remove. */
    method UsercacheRemove(uid: UserId)
      requires Whole()
      modifies this, ues, ues.members, chs, chs.members
      ensures Whole() && Abs() == Remove(old(Abs()), uid)
      ensures chs.members <= old(chs.members) && ues.members <= old(ues.members)
    {
      hide Inv, DropAll, UserCache.Linked, UserCache.Abs, List.Valid;
      ghost var was := Abs();
      ArrayCounts();
      var ue, i := UserById(uid);
      if ue != null {
        RemoveIdxEffect(was, i);
        RemoveUeAllChannels(ue, i);
        ArrayCounts();
        Unlink(ue, i);
      }
    }

    /** usercache_remove_net. */
    method UsercacheRemoveNet(net: NetId)
      requires Whole()
      modifies this, ues, ues.members, chs, chs.members
      ensures Whole() && Abs() == RemoveNet(old(Abs()), net)
      ensures chs.members <= old(chs.members) && ues.members <= old(ues.members)
    {
      hide Inv, Remove, UserCache.Linked, UserCache.Abs, List.Valid;
      ghost var was := Abs();
      while true
        invariant Whole() && RemoveNet(Abs(), net) == RemoveNet(was, net)
        invariant chs.members <= old(chs.members) && ues.members <= old(ues.members)
        decreases |Abs().users|
      {
        var ue, i := FirstOfNet(net);
        ArrayCounts();
        if ue == null {
          break;
        }
        ShrinksBy(Abs(), i);
        UsercacheRemove(ue.data.uid);
      }
    }

    lemma ShrinksBy(c: Cache, i: nat)
      requires Inv(c) && i < |c.users|
      ensures |Remove(c, c.users[i].uid).users| < |c.users|
    {
      FindUserAt(c.users, i);
      RemoveIdxEffect(c, i);
    }

    method FirstOfNet(net: NetId) returns (ue: Node?<UserRec>, ghost i: nat)
      requires Whole()
      ensures i == FindNet(Abs().users, net)
      ensures if i < |all| then ue == all[i] && ue.data.uid == Abs().users[i].uid else ue == null
    {
      ue := ues.first;
      i := 0;
      while ue != null
        invariant i <= |all|
        invariant if i < |all| then ue == all[i] else ue == null
        invariant forall j :: 0 <= j < i ==> all[j].data.uid.net != net
        decreases |all| - i
      {
        if ue.data.uid.net == net {
          break;
        }
        ue := ue.next;
        i := i + 1;
      }
      assert forall j :: 0 <= j < |all| ==> Abs().users[j].uid == all[j].data.uid;
    }

    /** usercache_join_chan. */
    method UsercacheJoinChan(uid: UserId, channame: string)
      requires Whole()
      modifies ues.members, chs, chs.members
      ensures Whole() && Abs() == JoinChan(old(Abs()), uid, channame)
      ensures fresh(chs.members - old(chs.members))
    {
      hide Inv, AddChan, UserCache.Linked, UserCache.Abs, List.Valid;
      ArrayCounts();
      var ue, i := UserById(uid);
      if ue != null {
        AddUeChannel(ue, channame, i);
      }
    }

    /** usercache_part_chan. */
    method UsercachePartChan(uid: UserId, channame: string)
      requires Whole()
      modifies ues.members, chs, chs.members
      ensures Whole() && Abs() == PartChan(old(Abs()), uid, channame)
      ensures chs.members <= old(chs.members)
    {
      hide Inv, DropChan, UserCache.Linked, UserCache.Abs, List.Valid;
      ArrayCounts();
      var ue, i := UserById(uid);
      if ue != null {
        RemoveUeChannel(ue, channame, i);
      }
    }

    /** usercache_set_topic. */
    method UsercacheSetTopic(channame: string, text: string)
      requires Whole()
      modifies chs.members
      ensures Whole() && Abs() == SetTopic(old(Abs()), channame, text)
    {
      hide Inv, List.Valid;
      ghost var was := Abs();
      SetTopicInv(was, channame, text);
      var uc, k := ChanFind(chs, channame);
      if uc != null {
        SetChan(chs, uc, uc.data.(topic := Clip(text, TOPIC_LEN_MAX)), k);
        OnlyChannels();
      }
    }

    /** usercache_same_topic. */
    method UsercacheSameTopic(channame: string, text: string) returns (same: int)
      requires Whole()
      ensures same == SameTopic(Abs(), channame, text)
    {
      var uc, k := ChanFind(chs, channame);
      same := if uc == null then -1 else if uc.data.topic == text then 1 else 0;
    }

    /** usercache_umode_of, for a cached user. */
    method UsercacheUmodeOf(uid: UserId) returns (umode: Umode)
      requires Whole() && KnownUid(Abs(), uid)
      ensures umode == Abs().users[FindUser(Abs().users, uid)].umode
    {
      hide Inv, UserCache.Linked, UserCache.Abs, List.Valid;
      ArrayCounts();
      var ue, i := UserById(uid);
      ArrayNames(i);
      umode := ue.data.umode;
    }

    /** usercache_nickname_of, for a cached user. */
    method UsercacheNicknameOf(uid: UserId) returns (nick: string)
      requires Whole() && KnownUid(Abs(), uid)
      ensures nick == NickOf(Abs(), uid)
    {
      hide Inv, UserCache.Linked, UserCache.Abs, List.Valid;
      ArrayCounts();
      var ue, i := UserById(uid);
      ArrayNames(i);
      nick := ue.data.nick;
    }

    /** usercache_chanlist_of, for a cached user. */
    method UsercacheChanlistOf(uid: UserId) returns (chanlist: string)
      requires Whole() && KnownUid(Abs(), uid)
      ensures chanlist == Join(Abs().users[FindUser(Abs().users, uid)].chans)
    {
      hide Inv, UserCache.Linked, UserCache.Abs, List.Valid, Join;
      ArrayCounts();
      var ue, i := UserById(uid);
      chanlist := GenerateUeChanlist(ue, i);
    }

    /** usercache_known_channels. */
    method UsercacheKnownChannels() returns (chlist: string)
      requires Whole()
      ensures chlist == Join(KnownNames(Abs().chans, 0))
    {
      hide Inv, Join, KnownNames;
      chlist := "";
      JoinNone();
      var size := 0;
      var chan := chs.first;
      ghost var k: nat, names: seq<string> := 0, [];
      ghost var chans := Abs().chans;
      assert chans[0..] == chans;
      while chan != null
        invariant k <= |chans| && 0 <= size
        invariant if k < |chans| then chan == chs.nodes[k] else chan == null
        invariant chlist == Join(names)
        invariant names + KnownNames(chans[k..], size) == KnownNames(chans, 0)
        decreases |chans| - k
      {
        var thisSize := |chan.data.name|;
        assert chan.data == chans[k];
        KnownStep(chans, k, size);
        if size + thisSize + 1 > CHANLIST_LEN_MAX {
          break;
        }
        JoinPush(names, chan.data.name);
        names := names + [chan.data.name];
        chlist := chlist + ['#'] + chan.data.name;
        size := size + thisSize + 1;
        chan := chan.next;
        k := k + 1;
      }
      assert names + [] == names;
      KnownEnd(chans, size);
    }

    /** usercache_tag_dead_from. */
    method UsercacheTagDead(net: NetId)
      requires Whole()
      modifies ues.members
      ensures Whole() && Abs() == TagDead(old(Abs()), net)
    {
      hide Inv, UserCache.Abs, UserCache.Linked, List.Valid, TagUsers, TagPrefix;
      ghost var was := Abs();
      var ue := ues.first;
      ghost var i: nat := 0;
      Head();
      TagStart(was.users, net);
      TagsInv(was, TagUsers(was.users, net));
      while ue != null
        invariant Linked() && all == ues.nodes && i <= |all| == |was.users|
        invariant if i < |all| then ue == all[i] else ue == null
        invariant Abs() == was.(users := TagPrefix(was.users, net, i))
        decreases |all| - i
      {
        TagStep(was.users, net, i);
        Next(i);
        TagOne(ue, net, i);
        Next(i);
        ue := ue.next;
        i := i + 1;
      }
    }

    /** One round of the loop. */
    method TagOne(ue: UserNode, net: NetId, ghost i: nat)
      requires Linked() && all == ues.nodes && i < |all| && all[i] == ue
      modifies ue
      ensures Linked() && |Abs().users| == |old(Abs().users)| == |all| && Abs().chans == old(Abs().chans)
      ensures var u := old(Abs().users[i]);
        Abs().users == old(Abs().users)[i := if u.uid.net == net then u.(alive := false) else u]
    {
      hide Inv, UserCache.Abs, UserCache.Linked, List.Valid;
      ArrayNames(i);
      ghost var users := Abs().users;
      if ue.data.uid.net == net {
        SetRec(ue, ue.data.(alive := false), i);
      } else {
        assert users[i := users[i]] == users;
      }
    }

    /** usercache_tag_alive. */
    method UsercacheTagAlive(uid: UserId)
      requires Whole()
      modifies ues.members
      ensures Whole() && Abs() == TagAlive(old(Abs()), uid)
    {
      hide Inv, UserCache.Abs, UserCache.Linked, List.Valid;
      ghost var was := Abs();
      TagsInv(was, TagAlive(was, uid).users);
      ArrayCounts();
      var ue, i := UserById(uid);
      if ue != null {
        ArrayNames(i);
        SetRec(ue, ue.data.(alive := true), i);
      }
    }

    /** usercache_dead_users_from: one pass counts, a second one fills a vector of that size. */
    method UsercacheDeadUsers(net: NetId) returns (ulist: array<UserId>)
      requires Whole()
      ensures fresh(ulist) && ulist[..] == Dead(Abs().users, net)
    {
      hide Inv, UserCache.Linked, UserCache.Abs, List.Valid, Dead;
      var count := CountDead(net);
      ulist := new UserId[count](_ => NULL_USER);
      FillDead(net, ulist);
    }

    method CountDead(net: NetId) returns (count: nat)
      requires Whole()
      ensures count == |Dead(Abs().users, net)|
    {
      hide Inv, UserCache.Abs, UserCache.Linked, List.Valid, Dead;
      ghost var users := Abs().users;
      Head();
      count := 0;
      var ue := ues.first;
      ghost var i: nat := 0;
      DeadNone(users, net);
      while ue != null
        invariant i <= |all|
        invariant if i < |all| then ue == all[i] else ue == null
        invariant count == |Dead(users[..i], net)|
        decreases |all| - i
      {
        DeadPush(users, i, net);
        ArrayNames(i);
        Next(i);
        if ue.data.uid.net == net && !ue.data.alive {
          count := count + 1;
        }
        ue := ue.next;
        i := i + 1;
      }
      assert users[..i] == users;
    }

    /** The second pass never runs past the vector the first pass asked for. */
    method FillDead(net: NetId, ulist: array<UserId>)
      requires Whole() && ulist.Length == |Dead(Abs().users, net)|
      modifies ulist
      ensures Whole() && Abs() == old(Abs()) && ulist[..] == Dead(Abs().users, net)
    {
      hide Inv, UserCache.Abs, UserCache.Linked, List.Valid, Dead;
      ghost var users := Abs().users;
      Head();
      var count := 0;
      var ue := ues.first;
      ghost var i: nat := 0;
      DeadNone(users, net);
      while ue != null
        invariant i <= |all|
        invariant if i < |all| then ue == all[i] else ue == null
        invariant count == |Dead(users[..i], net)| <= ulist.Length
        invariant ulist[..count] == Dead(users[..i], net)
        decreases |all| - i
      {
        DeadPush(users, i, net);
        DeadSplit(users, i + 1, net);
        ArrayNames(i);
        Next(i);
        if ue.data.uid.net == net && !ue.data.alive {
          ulist[count] := ue.data.uid;
          count := count + 1;
        }
        ue := ue.next;
        i := i + 1;
      }
      assert users[..i] == users;
    }

    /** usercache_enum_except_net: what the callback is handed, call by call. */
    method UsercacheEnumExceptNet(net: NetId) returns (calls: seq<(UserId, Umode, string, string)>)
      requires Whole()
      ensures calls == Calls(Outside(Abs().users, {net}))
    {
      hide Inv, UserCache.Abs, UserCache.Linked, List.Valid, Outside, Calls;
      ghost var users := Abs().users;
      Head();
      calls := [];
      var ue := ues.first;
      ghost var i: nat := 0;
      CallsNone(users, net);
      while ue != null
        invariant i <= |all|
        invariant if i < |all| then ue == all[i] else ue == null
        invariant calls == Calls(Outside(users[..i], {net}))
        decreases |all| - i
      {
        ArrayNames(i);
        Next(i);
        CallsPush(users, i, net);
        if ue.data.uid.net != net {
          var chanlist := GenerateUeChanlist(ue, i);
          calls := calls + [(ue.data.uid, ue.data.umode, ue.data.nick, chanlist)];
        }
        ue := ue.next;
        i := i + 1;
      }
      assert users[..i] == users;
    }

    /** usercache_enum. */
    method UsercacheEnum() returns (calls: seq<(UserId, Umode, string, string)>)
      requires Whole()
      ensures calls == Calls(Abs().users)
    {
      hide Inv, UserCache.Abs, UserCache.Linked, List.Valid, Calls;
      ghost var users := Abs().users;
      Head();
      calls := [];
      var ue := ues.first;
      ghost var i: nat := 0;
      CallsEmpty(users);
      while ue != null
        invariant i <= |all|
        invariant if i < |all| then ue == all[i] else ue == null
        invariant calls == Calls(users[..i])
        decreases |all| - i
      {
        ArrayNames(i);
        Next(i);
        CallsSnoc(users[..i], users[i]);
        assert users[..i + 1] == users[..i] + [users[i]];
        var chanlist := GenerateUeChanlist(ue, i);
        calls := calls + [(ue.data.uid, ue.data.umode, ue.data.nick, chanlist)];
        ue := ue.next;
        i := i + 1;
      }
      assert users[..i] == users;
    }
  }
}
