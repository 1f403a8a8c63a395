/** The user cache as a value: the users in list order, each with the names of the channels
  * its array points at, and the shared channel list with topics and reference counts. */
module CacheModel {
  import opened Basics
  import opened ChanList

  datatype Chan = Chan(name: string, topic: string, refs: int)
  datatype User = User(uid: UserId, umode: Umode, nick: string, alive: bool, chans: seq<string>)
  datatype Cache = Cache(users: seq<User>, chans: seq<Chan>)

  const EMPTY := Cache([], [])

  // ---------------------------------------------------------------- lookups

  /** chan_find: the first entry of that name, or |chans|. */
  function Find(chans: seq<Chan>, name: string): (r: nat)
    ensures r <= |chans|
    ensures r < |chans| ==> chans[r].name == name
    ensures forall j :: 0 <= j < r ==> chans[j].name != name
  {
    if chans == [] || chans[0].name == name then 0 else 1 + Find(chans[1..], name)
  }

  predicate Has(chans: seq<Chan>, name: string) { Find(chans, name) < |chans| }

  /** user_by_id. */
  function FindUser(users: seq<User>, uid: UserId): (r: nat)
    ensures r <= |users|
    ensures r < |users| ==> users[r].uid == uid
    ensures forall j :: 0 <= j < r ==> users[j].uid != uid
  {
    if users == [] || users[0].uid == uid then 0 else 1 + FindUser(users[1..], uid)
  }

  /** The first user of a net. */
  function FindNet(users: seq<User>, net: NetId): (r: nat)
    ensures r <= |users|
    ensures r < |users| ==> users[r].uid.net == net
    ensures forall j :: 0 <= j < r ==> users[j].uid.net != net
  {
    if users == [] || users[0].uid.net == net then 0 else 1 + FindNet(users[1..], net)
  }

  /** The first user of a nickname; nicknames are compared on their first 31 characters. */
  function FindNick(users: seq<User>, nick: string): (r: nat)
    ensures r <= |users|
    ensures r < |users| ==> users[r].nick == Clip(nick, NICKNAME_LEN_MAX)
    ensures forall j :: 0 <= j < r ==> users[j].nick != Clip(nick, NICKNAME_LEN_MAX)
  {
    if users == [] || users[0].nick == Clip(nick, NICKNAME_LEN_MAX) then 0 else 1 + FindNick(users[1..], nick)
  }

  predicate KnownNick(c: Cache, nick: string) { FindNick(c.users, nick) < |c.users| }

  predicate KnownUid(c: Cache, uid: UserId) { FindUser(c.users, uid) < |c.users| }

  function NickOf(c: Cache, uid: UserId): string
    requires KnownUid(c, uid)
  {
    c.users[FindUser(c.users, uid)].nick
  }

  function UidOf(c: Cache, nick: string): UserId {
    if KnownNick(c, nick) then c.users[FindNick(c.users, nick)].uid else NULL_USER
  }

  // ---------------------------------------------------------------- reference counts

  /** How many users have the channel in their array. */
  function On(users: seq<User>, name: string): nat {
    if users == [] then 0 else (if name in users[0].chans then 1 else 0) + On(users[1..], name)
  }

  /** The channel list with exact counts for these users; unused channels drop out,
    * the others keep their order and topic. */
  function Recount(chans: seq<Chan>, users: seq<User>): seq<Chan> {
    if chans == [] then []
    else
      (if On(users, chans[0].name) > 0 then [chans[0].(refs := On(users, chans[0].name))] else [])
      + Recount(chans[1..], users)
  }

  ghost predicate RefsExact(c: Cache) {
    forall j :: 0 <= j < |c.chans| ==> c.chans[j].refs == On(c.users, c.chans[j].name) > 0
  }

  ghost predicate Covered(c: Cache) {
    forall i, n :: 0 <= i < |c.users| && n in c.users[i].chans ==> Has(c.chans, n)
  }

  ghost predicate DistinctNames(chans: seq<Chan>) {
    forall i, j :: 0 <= i < j < |chans| ==> chans[i].name != chans[j].name
  }

  ghost predicate DistinctUids(users: seq<User>) {
    forall i, j :: 0 <= i < j < |users| ==> users[i].uid != users[j].uid
  }

  /** The consistency of the cache. */
  ghost predicate Inv(c: Cache) {
    && DistinctNames(c.chans)
    && DistinctUids(c.users)
    && (forall i :: 0 <= i < |c.users| ==> Distinct(c.users[i].chans))
    && (forall i :: 0 <= i < |c.users| ==> c.users[i].uid != NULL_USER)
    && (forall i :: 0 <= i < |c.users| ==> |c.users[i].nick| <= NICKNAME_LEN_MAX)
    && (forall j :: 0 <= j < |c.chans| ==> |c.chans[j].name| <= CHANNAME_LEN_MAX)
    && Covered(c)
    && RefsExact(c)
  }

  // ---------------------------------------------------------------- operations

  /** chan_add_ref. */
  function AddRef(chans: seq<Chan>, name: string): seq<Chan> {
    var k := Find(chans, name);
    if k < |chans| then chans[k := chans[k].(refs := chans[k].refs + 1)]
    else chans + [Chan(name, "", 1)]
  }

  /** chan_delete_ref. */
  function DropRef(chans: seq<Chan>, k: nat): seq<Chan>
    requires k < |chans|
  {
    if chans[k].refs == 1 then RemoveAt(chans, k)
    else chans[k := chans[k].(refs := chans[k].refs - 1)]
  }

  function IndexIn(names: seq<string>, name: string): (r: nat)
    ensures r <= |names| && name !in names[..r]
    ensures r < |names| ==> names[r] == name
    ensures name !in names ==> r == |names|
  {
    if names == [] || names[0] == name then 0 else 1 + IndexIn(names[1..], name)
  }

  /** add_ue_channel, for the user at index i. */
  function AddChan(c: Cache, i: nat, channame: string): (r: Cache)
    requires i < |c.users|
    ensures |r.users| == |c.users|
  {
    var name := Clip(channame, CHANNAME_LEN_MAX);
    var u := c.users[i];
    if Has(c.chans, name) && name in u.chans then c
    else Cache(c.users[i := u.(chans := u.chans + [name])], AddRef(c.chans, name))
  }

  /** remove_ue_channel: a channel that is unknown, or not in the user's array, changes nothing. */
  function DropChan(c: Cache, i: nat, channame: string): (r: Cache)
    requires i < |c.users|
    ensures |r.users| == |c.users|
  {
    var name := Clip(channame, CHANNAME_LEN_MAX);
    var u := c.users[i];
    var k := Find(c.chans, name);
    if k == |c.chans| || name !in u.chans then c
    else Cache(c.users[i := u.(chans := RemoveAt(u.chans, IndexIn(u.chans, name)))], DropRef(c.chans, k))
  }

  function DropEach(c: Cache, i: nat, names: seq<string>): (r: Cache)
    requires i < |c.users|
    ensures |r.users| == |c.users|
    decreases |names|
  {
    if names == [] then c else DropEach(DropChan(c, i, names[0]), i, names[1..])
  }

  /** remove_ue_all_channels: a copy of the array is walked. */
  function DropAll(c: Cache, i: nat): (r: Cache)
    requires i < |c.users|
    ensures |r.users| == |c.users|
  {
    DropEach(c, i, c.users[i].chans)
  }

  function AddEach(c: Cache, i: nat, names: seq<string>): (r: Cache)
    requires i < |c.users|
    ensures |r.users| == |c.users|
    decreases |names|
  {
    if names == [] then c
    else AddChan(AddEach(c, i, names[..|names| - 1]), i, names[|names| - 1])
  }

  /** set_ue_channels. The source reads past an empty text, so its callers must not pass one. */
  function SetChans(c: Cache, i: nat, chanlist: string): (r: Cache)
    requires i < |c.users| && chanlist != ""
    ensures |r.users| == |c.users|
  {
    if chanlist[0] != '#' then c
    else AddEach(DropAll(c, i), i, Split(chanlist[1..]))
  }

  /** usercache_add: modifies the known user, appends an unknown one. */
  function Add(c: Cache, uid: UserId, umode: Option<Umode>, nick: Option<string>, chanlist: Option<string>): Cache
    requires AddOk(c, uid, umode, nick, chanlist)
  {
    var i := FindUser(c.users, uid);
    if i < |c.users| then
      var u := c.users[i];
      var u1 := if umode.Some? then u.(umode := umode.value) else u;
      var u2 := if nick.Some? then u1.(nick := Clip(nick.value, NICKNAME_LEN_MAX)) else u1;
      var c1 := c.(users := c.users[i := u2]);
      if chanlist.Some? then SetChans(c1, i, chanlist.value) else c1
    else
      var u := User(uid, umode.value, Clip(nick.value, NICKNAME_LEN_MAX), true, []);
      SetChans(c.(users := c.users + [u]), |c.users|, chanlist.value)
  }

  /** What usercache_add asserts, plus the non-empty channel list. */
  predicate AddOk(c: Cache, uid: UserId, umode: Option<Umode>, nick: Option<string>, chanlist: Option<string>) {
    && uid != NULL_USER
    && (chanlist.Some? ==> chanlist.value != "")
    && (KnownUid(c, uid) || (umode.Some? && nick.Some? && chanlist.Some?))
  }

  function RemoveIdx(c: Cache, i: nat): Cache
    requires i < |c.users|
  {
    var d := DropAll(c, i);
    d.(users := RemoveAt(d.users, i))
  }

  /** usercache_remove: an unknown user is reported and ignored. */
  function Remove(c: Cache, uid: UserId): Cache {
    if KnownUid(c, uid) then RemoveIdx(c, FindUser(c.users, uid)) else c
  }

  /** usercache_remove_net: the list is searched from its head again after every removal. */
  function RemoveNet(c: Cache, net: NetId): Cache
    decreases |c.users|
  {
    var i := FindNet(c.users, net);
    if i < |c.users| then RemoveNet(Remove(c, c.users[i].uid), net) else c
  }

  function JoinChan(c: Cache, uid: UserId, channame: string): Cache {
    if KnownUid(c, uid) then AddChan(c, FindUser(c.users, uid), channame) else c
  }

  function PartChan(c: Cache, uid: UserId, channame: string): Cache {
    if KnownUid(c, uid) then DropChan(c, FindUser(c.users, uid), channame) else c
  }

  function SetTopic(c: Cache, channame: string, text: string): Cache {
    var k := Find(c.chans, Clip(channame, CHANNAME_LEN_MAX));
    if k < |c.chans| then c.(chans := c.chans[k := c.chans[k].(topic := Clip(text, TOPIC_LEN_MAX))]) else c
  }

  function TagUsers(users: seq<User>, net: NetId): (r: seq<User>)
    ensures |r| == |users|
    ensures forall i :: 0 <= i < |r| ==>
      r[i] == if users[i].uid.net == net then users[i].(alive := false) else users[i]
  {
    if users == [] then []
    else [if users[0].uid.net == net then users[0].(alive := false) else users[0]] + TagUsers(users[1..], net)
  }

  function TagDead(c: Cache, net: NetId): Cache { c.(users := TagUsers(c.users, net)) }

  function TagAlive(c: Cache, uid: UserId): Cache {
    var i := FindUser(c.users, uid);
    if i < |c.users| then c.(users := c.users[i := c.users[i].(alive := true)]) else c
  }

  /** usercache_dead_users_from. */
  function Dead(users: seq<User>, net: NetId): seq<UserId> {
    if users == [] then []
    else (if users[0].uid.net == net && !users[0].alive then [users[0].uid] else []) + Dead(users[1..], net)
  }

  /** The names usercache_known_channels prints when `used` bytes of the buffer are taken: whole
    * names in list order, up to the first one that does not fit. */
  function KnownNames(chans: seq<Chan>, used: nat): seq<string> {
    if chans == [] || used + |chans[0].name| + 1 > CHANLIST_LEN_MAX then []
    else [chans[0].name] + KnownNames(chans[1..], used + |chans[0].name| + 1)
  }

  /** usercache_same_topic, with its -1 for an unknown channel. */
  function SameTopic(c: Cache, channame: string, text: string): int {
    var k := Find(c.chans, Clip(channame, CHANNAME_LEN_MAX));
    if k == |c.chans| then -1 else if c.chans[k].topic == text then 1 else 0
  }
}
