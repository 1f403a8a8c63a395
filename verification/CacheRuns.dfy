/** Whole runs of the user cache: users leaving, nets leaving, refresh rounds. */
module CacheRuns {
  import opened Basics
  import opened ChanList
  import opened CacheModel
  import opened CacheTheory

  // ---------------------------------------------------------------- removing users and nets

  lemma {:induction false} RecountSame(chans: seq<Chan>, a: seq<User>, b: seq<User>)
    requires forall n :: On(a, n) == On(b, n)
    ensures Recount(chans, a) == Recount(chans, b)
  {
    if chans != [] { RecountSame(chans[1..], a, b); }
  }

  /** Removing a user: the others keep their order and everything they have, the channels are recounted. */
  lemma RemoveIdxEffect(c: Cache, i: nat)
    requires Inv(c) && i < |c.users|
    ensures var users := RemoveAt(c.users, i);
      && RemoveIdx(c, i) == Cache(users, Recount(c.chans, users))
      && Inv(RemoveIdx(c, i))
  {
    var users, bare := RemoveAt(c.users, i), Bare(c.users, i);
    DropEachIsRecount(c, i);
    assert RemoveAt(bare, i) == users;
    forall n ensures On(bare, n) == On(users, n) {
      OnRemoveAt(bare, i, n);
    }
    RecountSame(c.chans, bare, users);
    forall j | 0 <= j < |users| ensures users[j] == c.users[if j < i then j else j + 1] {}
    RecountInv(c, users);
  }

  /** The users of none of the given nets, in order. */
  function Outside(users: seq<User>, nets: set<NetId>): (r: seq<User>)
    ensures forall u :: u in r <==> u in users && u.uid.net !in nets
  {
    if users == [] then [] else (if users[0].uid.net in nets then [] else [users[0]]) + Outside(users[1..], nets)
  }

  lemma {:induction false} OutsideConcat(a: seq<User>, b: seq<User>, nets: set<NetId>)
    ensures Outside(a + b, nets) == Outside(a, nets) + Outside(b, nets)
  {
    if a == [] {
      assert a + b == b;
    } else {
      assert (a + b)[1..] == a[1..] + b;
      OutsideConcat(a[1..], b, nets);
    }
  }

  lemma OutsideOne(u: User, nets: set<NetId>)
    ensures Outside([u], nets) == if u.uid.net in nets then [] else [u]
  {
    assert Outside([u][1..], nets) == [];
  }

  lemma OutsideRemoveAt(users: seq<User>, i: nat, nets: set<NetId>)
    requires i < |users| && users[i].uid.net in nets
    ensures Outside(RemoveAt(users, i), nets) == Outside(users, nets)
  {
    var a, m, b := users[..i], [users[i]], users[i + 1..];
    calc {
      Outside(users, nets);
      { assert users == a + (m + b); OutsideConcat(a, m + b, nets); OutsideConcat(m, b, nets); }
      Outside(a, nets) + (Outside(m, nets) + Outside(b, nets));
      { OutsideOne(users[i], nets); }
      Outside(a, nets) + Outside(b, nets);
      { OutsideConcat(a, b, nets); }
      Outside(a + b, nets);
    }
  }

  lemma {:induction false} OutsideNobody(users: seq<User>, nets: set<NetId>)
    requires forall i :: 0 <= i < |users| ==> users[i].uid.net !in nets
    ensures Outside(users, nets) == users
  {
    if users != [] { OutsideNobody(users[1..], nets); }
  }

  lemma {:induction false} OutsideTwice(users: seq<User>, a: set<NetId>, b: set<NetId>)
    ensures Outside(Outside(users, a), b) == Outside(users, a + b)
  {
    if users != [] {
      OutsideTwice(users[1..], a, b);
      var head := if users[0].uid.net in a then [] else [users[0]];
      OutsideConcat(head, Outside(users[1..], a), b);
      assert head != [] ==> head[1..] == [];
    }
  }

  lemma {:induction false} OutsideCounts(users: seq<User>, nets: set<NetId>, name: string)
    ensures On(Outside(users, nets), name) <= On(users, name)
  {
    if users != [] {
      OutsideCounts(users[1..], nets, name);
      var head := if users[0].uid.net in nets then [] else [users[0]];
      OnConcat(head, Outside(users[1..], nets), name);
      assert head != [] ==> head[1..] == [];
    }
  }

  /** The search loop of usercache_remove_net empties exactly that net. */
  lemma {:induction false} RemoveNetEffect(c: Cache, net: NetId)
    requires Inv(c)
    ensures var users := Outside(c.users, {net});
      && RemoveNet(c, net) == Cache(users, Recount(c.chans, users))
      && Inv(RemoveNet(c, net))
    decreases |c.users|
  {
    var i := FindNet(c.users, net);
    if i == |c.users| {
      OutsideNobody(c.users, {net});
      RecountFixed(c.chans, c.users);
    } else {
      FindUserAt(c.users, i);
      RemoveIdxEffect(c, i);
      var d := RemoveIdx(c, i);
      RemoveNetEffect(d, net);
      OutsideRemoveAt(c.users, i, {net});
      var users := Outside(c.users, {net});
      forall n ensures On(users, n) <= On(d.users, n) {
        OutsideCounts(d.users, {net}, n);
      }
      RecountTwice(c.chans, d.users, users);
    }
  }

  lemma FindUserAt(users: seq<User>, i: nat)
    requires DistinctUids(users) && i < |users|
    ensures FindUser(users, users[i].uid) == i
  {
  }

  function RemoveNets(c: Cache, nets: seq<NetId>): Cache
    decreases |nets|
  {
    if nets == [] then c else RemoveNet(RemoveNets(c, nets[..|nets| - 1]), nets[|nets| - 1])
  }

  function ToSet(nets: seq<NetId>): set<NetId> { set n | n in nets }

  lemma OneNetMore(c: Cache, nets: set<NetId>, last: NetId)
    requires Inv(c)
    requires var d := Outside(c.users, nets); Inv(Cache(d, Recount(c.chans, d)))
    ensures var d, users := Outside(c.users, nets), Outside(c.users, nets + {last});
      && RemoveNet(Cache(d, Recount(c.chans, d)), last) == Cache(users, Recount(c.chans, users))
      && Inv(Cache(users, Recount(c.chans, users)))
  {
    var d := Outside(c.users, nets);
    RemoveNetEffect(Cache(d, Recount(c.chans, d)), last);
    OutsideTwice(c.users, nets, {last});
    forall n ensures On(Outside(d, {last}), n) <= On(d, n) {
      OutsideCounts(d, {last}, n);
    }
    RecountTwice(c.chans, d, Outside(d, {last}));
  }

  /** One net after another: nobody of these nets is left, everybody else is as before. */
  lemma {:induction false} RemoveNetsEffect(c: Cache, nets: seq<NetId>)
    requires Inv(c)
    ensures var users := Outside(c.users, ToSet(nets));
      && RemoveNets(c, nets) == Cache(users, Recount(c.chans, users))
      && Inv(RemoveNets(c, nets))
    decreases |nets|
  {
    hide RemoveNet;
    if nets == [] {
      assert ToSet(nets) == {};
      OutsideNobody(c.users, {});
      RecountFixed(c.chans, c.users);
    } else {
      var init, last := nets[..|nets| - 1], nets[|nets| - 1];
      RemoveNetsEffect(c, init);
      OneNetMore(c, ToSet(init), last);
      assert ToSet(nets) == ToSet(init) + {last};
    }
  }

  // ---------------------------------------------------------------- runs

  datatype Op =
    | AddOp(uid: UserId, umode: Option<Umode>, nick: Option<string>, chanlist: Option<string>)
    | RemoveOp(uid: UserId)
    | RemoveNetOp(net: NetId)
    | JoinOp(uid: UserId, channame: string)
    | PartOp(uid: UserId, channame: string)
    | TopicOp(channame: string, text: string)
    | TagDeadOp(net: NetId)
    | TagAliveOp(uid: UserId)

  predicate OpOk(c: Cache, op: Op) {
    op.AddOp? ==> AddOk(c, op.uid, op.umode, op.nick, op.chanlist)
  }

  function Apply(c: Cache, op: Op): Cache
    requires OpOk(c, op)
  {
    match op
    case AddOp(uid, umode, nick, chanlist) => Add(c, uid, umode, nick, chanlist)
    case RemoveOp(uid) => Remove(c, uid)
    case RemoveNetOp(net) => RemoveNet(c, net)
    case JoinOp(uid, channame) => JoinChan(c, uid, channame)
    case PartOp(uid, channame) => PartChan(c, uid, channame)
    case TopicOp(channame, text) => SetTopic(c, channame, text)
    case TagDeadOp(net) => TagDead(c, net)
    case TagAliveOp(uid) => TagAlive(c, uid)
  }

  /** A user on no channel joins the list. */
  lemma NewUserInv(c: Cache, u: User)
    requires Inv(c) && !KnownUid(c, u.uid) && u.uid != NULL_USER && u.chans == [] && |u.nick| <= NICKNAME_LEN_MAX
    ensures Inv(c.(users := c.users + [u]))
  {
    forall n ensures On(c.users + [u], n) == On(c.users, n) {
      OnConcat(c.users, [u], n);
      assert [u][1..] == [];
    }
  }

  lemma AddInv(c: Cache, uid: UserId, umode: Option<Umode>, nick: Option<string>, chanlist: Option<string>)
    requires Inv(c) && AddOk(c, uid, umode, nick, chanlist)
    ensures Inv(Add(c, uid, umode, nick, chanlist))
  {
    var i := FindUser(c.users, uid);
    assert i < |c.users| ==> |c.users[i].nick| <= NICKNAME_LEN_MAX;
    hide Inv, SetChans;
    if i < |c.users| {
      var u := c.users[i];
      var u1 := if umode.Some? then u.(umode := umode.value) else u;
      var u2 := if nick.Some? then u1.(nick := Clip(nick.value, NICKNAME_LEN_MAX)) else u1;
      RenameInv(c, i, u2);
      if chanlist.Some? { SetChansInv(c.(users := c.users[i := u2]), i, chanlist.value); }
    } else {
      var u := User(uid, umode.value, Clip(nick.value, NICKNAME_LEN_MAX), true, []);
      NewUserInv(c, u);
      SetChansInv(c.(users := c.users + [u]), |c.users|, chanlist.value);
    }
  }

  /** A user who keeps id and channels may change in mode and nickname. */
  lemma RenameInv(c: Cache, i: nat, u: User)
    requires Inv(c) && i < |c.users|
    requires u.uid == c.users[i].uid && u.chans == c.users[i].chans && |u.nick| <= NICKNAME_LEN_MAX
    ensures Inv(c.(users := c.users[i := u]))
  {
    hide On;
    forall n ensures On(c.users[i := u], n) == On(c.users, n) {
      OnUpdate(c.users, i, u, n);
    }
  }

  lemma {:induction false} SameChansSameCounts(a: seq<User>, b: seq<User>, name: string)
    requires |a| == |b| && forall i :: 0 <= i < |a| ==> a[i].chans == b[i].chans
    ensures On(a, name) == On(b, name)
  {
    if a != [] { SameChansSameCounts(a[1..], b[1..], name); }
  }

  /** Tagging touches no channel. */
  lemma TagsInv(c: Cache, users: seq<User>)
    requires Inv(c) && |users| == |c.users|
    requires forall i :: 0 <= i < |users| ==> users[i] == c.users[i].(alive := users[i].alive)
    ensures Inv(c.(users := users))
  {
    forall n ensures On(users, n) == On(c.users, n) {
      SameChansSameCounts(users, c.users, n);
    }
  }

  lemma SetTopicInv(c: Cache, channame: string, text: string)
    requires Inv(c)
    ensures Inv(SetTopic(c, channame, text))
  {
    var r := SetTopic(c, channame, text);
    var k := Find(c.chans, Clip(channame, CHANNAME_LEN_MAX));
    if k < |c.chans| {
      forall n | Has(c.chans, n) ensures Has(r.chans, n) {
        FindUpdate(c.chans, k, r.chans[k], n);
      }
    }
  }

  /** Every single operation keeps the cache consistent. */
  lemma ApplyInv(c: Cache, op: Op)
    requires Inv(c) && OpOk(c, op)
    ensures Inv(Apply(c, op))
  {
    match op
    case AddOp(uid, umode, nick, chanlist) => AddInv(c, uid, umode, nick, chanlist);
    case RemoveOp(uid) => if KnownUid(c, uid) { RemoveIdxEffect(c, FindUser(c.users, uid)); }
    case RemoveNetOp(net) => RemoveNetEffect(c, net);
    case JoinOp(uid, channame) => if KnownUid(c, uid) { AddChanInv(c, FindUser(c.users, uid), channame); }
    case PartOp(uid, channame) => if KnownUid(c, uid) { DropChanInv(c, FindUser(c.users, uid), channame); }
    case TopicOp(channame, text) => SetTopicInv(c, channame, text);
    case TagDeadOp(net) => TagsInv(c, TagUsers(c.users, net));
    case TagAliveOp(uid) => TagsInv(c, TagAlive(c, uid).users);
  }

  predicate RunOk(c: Cache, ops: seq<Op>)
    decreases |ops|
  {
    ops == [] || (OpOk(c, ops[0]) && RunOk(Apply(c, ops[0]), ops[1..]))
  }

  function Run(c: Cache, ops: seq<Op>): Cache
    requires RunOk(c, ops)
    decreases |ops|
  {
    if ops == [] then c else Run(Apply(c, ops[0]), ops[1..])
  }

  lemma {:induction false} RunInv(c: Cache, ops: seq<Op>)
    requires Inv(c) && RunOk(c, ops)
    ensures Inv(Run(c, ops))
    decreases |ops|
  {
    if ops != [] {
      ApplyInv(c, ops[0]);
      RunInv(Apply(c, ops[0]), ops[1..]);
    }
  }

  /** After any run from the empty cache: counts are positive and equal the number of users whose
    * array holds the channel, arrays hold each listed channel once, names and ids are distinct. */
  lemma EveryRunIsConsistent(ops: seq<Op>)
    requires RunOk(EMPTY, ops)
    ensures Inv(Run(EMPTY, ops))
  {
    RunInv(EMPTY, ops);
  }

  // ---------------------------------------------------------------- refresh rounds

  /** The users heard of: created or acknowledged while the operations ran. */
  function Heard(c: Cache, ops: seq<Op>): set<UserId>
    requires RunOk(c, ops)
    decreases |ops|
  {
    if ops == [] then {}
    else
      (match ops[0]
       case AddOp(uid, _, _, _) => if KnownUid(c, uid) then {} else {uid}
       case TagAliveOp(uid) => {uid}
       case _ => {})
      + Heard(Apply(c, ops[0]), ops[1..])
  }

  /** The cached users of a net, in list order, that are not in the given set. */
  function Silent(users: seq<User>, net: NetId, heard: set<UserId>): seq<UserId> {
    if users == [] then []
    else (if users[0].uid.net == net && users[0].uid !in heard then [users[0].uid] else [])
         + Silent(users[1..], net, heard)
  }

  ghost predicate AliveIs(users: seq<User>, net: NetId, heard: set<UserId>) {
    forall i :: 0 <= i < |users| && users[i].uid.net == net ==> (users[i].alive <==> users[i].uid in heard)
  }

  /** Users of the new list either were there before with the same flag, or are new and alive. */
  lemma StepAlive(c: Cache, op: Op, net: NetId, heard: set<UserId>)
    requires Inv(c) && OpOk(c, op) && op != TagDeadOp(net)
    requires AliveIs(c.users, net, heard)
    ensures AliveIs(Apply(c, op).users, net, heard + Heard(c, [op]))
  {
    hide AddRef, DropRef, Find, Add;
    assert [op][1..] == [];
    match op
    case AddOp(uid, umode, nick, chanlist) => AddAlive(c, uid, umode, nick, chanlist, net, heard);
    case RemoveOp(uid) => if KnownUid(c, uid) { RemoveIdxEffect(c, FindUser(c.users, uid)); }
    case RemoveNetOp(n) => RemoveNetAlive(c, n, net, heard);
    case _ =>
  }

  lemma RemoveNetAlive(c: Cache, gone: NetId, net: NetId, heard: set<UserId>)
    requires Inv(c) && AliveIs(c.users, net, heard)
    ensures AliveIs(RemoveNet(c, gone).users, net, heard)
  {
    RemoveNetEffect(c, gone);
    var users := RemoveNet(c, gone).users;
    forall i | 0 <= i < |users| ensures users[i] in c.users {
      assert users[i] in users;
    }
  }

  lemma AddAlive(c: Cache, uid: UserId, umode: Option<Umode>, nick: Option<string>, chanlist: Option<string>,
                 net: NetId, heard: set<UserId>)
    requires Inv(c) && AddOk(c, uid, umode, nick, chanlist) && AliveIs(c.users, net, heard)
    ensures AliveIs(Add(c, uid, umode, nick, chanlist).users, net, heard + if KnownUid(c, uid) then {} else {uid})
  {
    var r := Add(c, uid, umode, nick, chanlist);
    var i := FindUser(c.users, uid);
    if i == |c.users| {
      var u := User(uid, umode.value, Clip(nick.value, NICKNAME_LEN_MAX), true, []);
      var c1 := c.(users := c.users + [u]);
      NewUserInv(c, u);
      SetChansInv(c1, i, chanlist.value);
    } else {
      AddInv(c, uid, umode, nick, None);
      if chanlist.Some? { SetChansInv(Add(c, uid, umode, nick, None), i, chanlist.value); }
    }
  }

  lemma {:induction false} RunAlive(c: Cache, ops: seq<Op>, net: NetId, heard: set<UserId>)
    requires Inv(c) && RunOk(c, ops) && TagDeadOp(net) !in ops
    requires AliveIs(c.users, net, heard)
    ensures AliveIs(Run(c, ops).users, net, heard + Heard(c, ops))
    decreases |ops|
  {
    if ops == [] {
      assert heard + {} == heard;
    } else {
      var op := ops[0];
      ApplyInv(c, op);
      StepAlive(c, op, net, heard);
      assert [op][1..] == [];
      RunAlive(Apply(c, op), ops[1..], net, heard + Heard(c, [op]));
      assert heard + Heard(c, ops) == heard + Heard(c, [op]) + Heard(Apply(c, op), ops[1..]);
    }
  }

  lemma {:induction false} DeadIsSilent(users: seq<User>, net: NetId, heard: set<UserId>)
    requires AliveIs(users, net, heard)
    ensures Dead(users, net) == Silent(users, net, heard)
  {
    if users != [] { DeadIsSilent(users[1..], net, heard); }
  }

  /** One refresh round, whatever happened in between: the dead list is exactly the cached users of
    * the net, in list order, neither created nor acknowledged since the tagging. */
  lemma RefreshRound(c: Cache, ops: seq<Op>, net: NetId)
    requires Inv(c) && RunOk(TagDead(c, net), ops) && TagDeadOp(net) !in ops
    ensures var start := TagDead(c, net);
      Dead(Run(start, ops).users, net) == Silent(Run(start, ops).users, net, Heard(start, ops))
  {
    var start := TagDead(c, net);
    ApplyInv(c, TagDeadOp(net));
    RunAlive(start, ops, net, {});
    assert {} + Heard(start, ops) == Heard(start, ops);
    DeadIsSilent(Run(start, ops).users, net, Heard(start, ops));
  }

  // ---------------------------------------------------------------- parting a channel one is not on

  datatype Outcome = Crash | Went(c: Cache)

  /** remove_ue_channel to the letter, memory sizes aside: its `left<0` guard tests an unsigned and never fires, so a
    * listed channel missing from the user's array loses a reference all the same, and the array is
    * freed if it had one entry; with any other size a copy of UINT_MAX pointers follows. */
  function DropChanAsWritten(c: Cache, i: nat, channame: string): Outcome
    requires i < |c.users|
  {
    var name := Clip(channame, CHANNAME_LEN_MAX);
    var u := c.users[i];
    var k := Find(c.chans, name);
    if k == |c.chans| || name in u.chans then Went(DropChan(c, i, channame))
    else if |u.chans| == 1 then Went(Cache(c.users[i := u.(chans := [])], DropRef(c.chans, k)))
    else Crash
  }

  /** As written, parting leaves a consistent cache exactly when the user is on the channel or nobody is. */
  lemma PartAsWrittenExactly(c: Cache, i: nat, channame: string)
    requires Inv(c) && i < |c.users|
    ensures var name := Clip(channame, CHANNAME_LEN_MAX);
      var r := DropChanAsWritten(c, i, channame);
      (r.Went? && Inv(r.c)) <==> (!Has(c.chans, name) || name in c.users[i].chans)
  {
    var name := Clip(channame, CHANNAME_LEN_MAX);
    var u := c.users[i];
    var k := Find(c.chans, name);
    if !Has(c.chans, name) || name in u.chans {
      DropChanInv(c, i, channame);
    } else if |u.chans| == 1 {
      var r := DropChanAsWritten(c, i, channame).c;
      OnUpdate(c.users, i, r.users[i], name);
      if Inv(r) {
        RefsAreCounts(r, name);
        RefsAreCounts(c, name);
        if c.chans[k].refs > 1 { FindUpdate(c.chans, k, r.chans[k], name); }
      }
    }
  }

  /** Two users, "x" on a and "y" on b: y parting a frees the channel x is on. */
  lemma PartAsWrittenExample()
    ensures var x := User(UserId(1, 1), ModeNormal, "x", true, ["a"]);
      var y := User(UserId(1, 2), ModeNormal, "y", true, ["b"]);
      var c := Cache([x, y], [Chan("a", "", 1), Chan("b", "", 1)]);
      DropChanAsWritten(c, 1, "a") == Went(Cache([x, y.(chans := [])], [Chan("b", "", 1)]))
  {
    var x := User(UserId(1, 1), ModeNormal, "x", true, ["a"]);
    var y := User(UserId(1, 2), ModeNormal, "y", true, ["b"]);
    var c := Cache([x, y], [Chan("a", "", 1), Chan("b", "", 1)]);
    assert Find(c.chans, "a") == 0;
    assert "a" !in y.chans;
  }
}
