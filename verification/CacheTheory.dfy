/** What every operation on the user cache keeps, and what it does to users and topics. */
module CacheTheory {
  import opened Basics
  import opened ChanList
  import opened CacheModel

  // ---------------------------------------------------------------- counting

  lemma {:induction false} OnUpdate(users: seq<User>, i: nat, u: User, name: string)
    requires i < |users|
    ensures On(users[i := u], name)
         == On(users, name) - (if name in users[i].chans then 1 else 0) + (if name in u.chans then 1 else 0)
  {
    if i == 0 {
      assert users[i := u][1..] == users[1..];
    } else {
      assert users[i := u][1..] == users[1..][i - 1 := u];
      OnUpdate(users[1..], i - 1, u, name);
    }
  }

  lemma {:induction false} OnConcat(a: seq<User>, b: seq<User>, name: string)
    ensures On(a + b, name) == On(a, name) + On(b, name)
  {
    if a == [] {
      assert a + b == b;
    } else {
      assert (a + b)[1..] == a[1..] + b;
      OnConcat(a[1..], b, name);
    }
  }

  lemma OnRemoveAt(users: seq<User>, i: nat, name: string)
    requires i < |users|
    ensures On(RemoveAt(users, i), name) == On(users, name) - (if name in users[i].chans then 1 else 0)
  {
    OnConcat(users[..i], users[i + 1..], name);
    OnConcat(users[..i], [users[i]], name);
    OnConcat(users[..i] + [users[i]], users[i + 1..], name);
    assert users == users[..i] + [users[i]] + users[i + 1..];
  }

  lemma {:induction false} OnWitness(users: seq<User>, i: nat, name: string)
    requires i < |users| && name in users[i].chans
    ensures On(users, name) > 0
  {
    if i > 0 { OnWitness(users[1..], i - 1, name); }
  }

  lemma {:induction false} OnSome(users: seq<User>, name: string) returns (i: nat)
    requires On(users, name) > 0
    ensures i < |users| && name in users[i].chans
  {
    if name in users[0].chans {
      i := 0;
    } else {
      var k := OnSome(users[1..], name);
      i := k + 1;
    }
  }

  // ---------------------------------------------------------------- positions

  /** The positions of the users that are meant, in list order. */
  ghost predicate PositionsOf(users: seq<User>, meant: User -> bool, at: seq<nat>) {
    && (forall k, j :: 0 <= k < j < |at| ==> at[k] < at[j])
    && (forall i: nat :: i in at <==> i < |users| && meant(users[i]))
  }

  /** Those from position k on. */
  function PositionsFrom(users: seq<User>, meant: User -> bool, k: nat): (at: seq<nat>)
    requires k <= |users|
    ensures forall j :: 0 <= j < |at| ==> k <= at[j] < |users| && meant(users[at[j]])
    decreases |users| - k
  {
    if k == |users| then []
    else if meant(users[k]) then [k] + PositionsFrom(users, meant, k + 1)
    else PositionsFrom(users, meant, k + 1)
  }

  lemma {:induction false} PositionsOrdered(users: seq<User>, meant: User -> bool, k: nat, i: nat, j: nat)
    requires k <= |users| && i < j < |PositionsFrom(users, meant, k)|
    ensures PositionsFrom(users, meant, k)[i] < PositionsFrom(users, meant, k)[j]
    decreases |users| - k
  {
    var rest := PositionsFrom(users, meant, k + 1);
    if !meant(users[k]) {
      PositionsOrdered(users, meant, k + 1, i, j);
    } else {
      assert ([k] + rest)[j] == rest[j - 1];
      if i > 0 { PositionsOrdered(users, meant, k + 1, i - 1, j - 1); }
    }
  }

  lemma {:induction false} PositionsComplete(users: seq<User>, meant: User -> bool, k: nat, i: nat)
    requires k <= i < |users| && meant(users[i])
    ensures i in PositionsFrom(users, meant, k)
    decreases |users| - k
  {
    var rest := PositionsFrom(users, meant, k + 1);
    if k < i {
      PositionsComplete(users, meant, k + 1, i);
      assert i in [k] + rest;
    } else {
      assert ([k] + rest)[0] == i;
    }
  }

  lemma PositionsFound(users: seq<User>, meant: User -> bool)
    ensures PositionsOf(users, meant, PositionsFrom(users, meant, 0))
  {
    var at := PositionsFrom(users, meant, 0);
    forall i, j | 0 <= i < j < |at| ensures at[i] < at[j] { PositionsOrdered(users, meant, 0, i, j); }
    forall i: nat ensures i in at <==> i < |users| && meant(users[i]) {
      if i < |users| && meant(users[i]) { PositionsComplete(users, meant, 0, i); }
    }
  }

  // ---------------------------------------------------------------- recounting

  lemma {:induction false} RecountConcat(a: seq<Chan>, b: seq<Chan>, users: seq<User>)
    ensures Recount(a + b, users) == Recount(a, users) + Recount(b, users)
  {
    if a == [] {
      assert a + b == b;
    } else {
      assert (a + b)[1..] == a[1..] + b;
      RecountConcat(a[1..], b, users);
    }
  }

  lemma {:induction false} RecountFixed(chans: seq<Chan>, users: seq<User>)
    requires forall j :: 0 <= j < |chans| ==> chans[j].refs == On(users, chans[j].name) > 0
    ensures Recount(chans, users) == chans
  {
    if chans != [] {
      RecountFixed(chans[1..], users);
    }
  }

  /** A second count that can only be lower makes the first one superfluous. */
  lemma {:induction false} RecountTwice(chans: seq<Chan>, before: seq<User>, after: seq<User>)
    requires forall j :: 0 <= j < |chans| ==> On(after, chans[j].name) <= On(before, chans[j].name)
    ensures Recount(Recount(chans, before), after) == Recount(chans, after)
  {
    if chans != [] {
      RecountTwice(chans[1..], before, after);
      var head := if On(before, chans[0].name) > 0 then [chans[0].(refs := On(before, chans[0].name))] else [];
      RecountConcat(head, Recount(chans[1..], before), after);
      assert head != [] ==> head[1..] == [];
    }
  }

  /** Where an entry of the recounted list comes from. */
  lemma {:induction false} RecountFrom(chans: seq<Chan>, users: seq<User>, j: nat) returns (k: nat)
    requires j < |Recount(chans, users)|
    ensures k < |chans|
    ensures Recount(chans, users)[j] == chans[k].(refs := On(users, chans[k].name)) && On(users, chans[k].name) > 0
  {
    if On(users, chans[0].name) > 0 && j == 0 {
      k := 0;
    } else {
      var t := RecountFrom(chans[1..], users, if On(users, chans[0].name) > 0 then j - 1 else j);
      k := t + 1;
    }
  }

  lemma {:induction false} RecountNames(chans: seq<Chan>, users: seq<User>)
    requires DistinctNames(chans)
    ensures DistinctNames(Recount(chans, users))
  {
    if chans != [] {
      RecountNames(chans[1..], users);
      var rest := Recount(chans[1..], users);
      forall j | 0 <= j < |rest| ensures rest[j].name != chans[0].name {
        var k := RecountFrom(chans[1..], users, j);
      }
    }
  }

  function TopicOf(chans: seq<Chan>, name: string): Option<string> {
    var k := Find(chans, name);
    if k < |chans| then Some(chans[k].topic) else None
  }

  /** A channel is kept, with its topic, exactly when somebody is on it. */
  lemma {:induction false} RecountTopic(chans: seq<Chan>, users: seq<User>, name: string)
    ensures TopicOf(Recount(chans, users), name)
         == if On(users, name) > 0 then TopicOf(chans, name) else None
    ensures Has(Recount(chans, users), name) <==> Has(chans, name) && On(users, name) > 0
  {
    if chans != [] {
      var c, rest := chans[0], chans[1..];
      RecountTopic(rest, users, name);
      RecountCons(c, rest, users);
      assert chans == [c] + rest;
      hide Recount, On;
      FindCons(c, rest, name);
      if On(users, c.name) > 0 {
        FindCons(c.(refs := On(users, c.name)), Recount(rest, users), name);
      }
    }
  }

  lemma RecountCons(c: Chan, rest: seq<Chan>, users: seq<User>)
    ensures Recount([c] + rest, users)
         == if On(users, c.name) > 0 then [c.(refs := On(users, c.name))] + Recount(rest, users)
            else Recount(rest, users)
  {
    assert ([c] + rest)[1..] == rest;
    assert [] + Recount(rest, users) == Recount(rest, users);
  }

  lemma FindCons(c: Chan, rest: seq<Chan>, name: string)
    ensures TopicOf([c] + rest, name) == if c.name == name then Some(c.topic) else TopicOf(rest, name)
    ensures Has([c] + rest, name) <==> c.name == name || Has(rest, name)
  {
    assert ([c] + rest)[1..] == rest;
  }

  /** What is left to check when the channel list is recounted for other users. */
  ghost predicate UsersOk(users: seq<User>, chans: seq<Chan>) {
    && DistinctUids(users)
    && (forall i :: 0 <= i < |users| ==> Distinct(users[i].chans))
    && (forall i :: 0 <= i < |users| ==> users[i].uid != NULL_USER && |users[i].nick| <= NICKNAME_LEN_MAX)
    && (forall i, n :: 0 <= i < |users| && n in users[i].chans ==> Has(chans, n))
  }

  lemma RecountInv(c: Cache, users: seq<User>)
    requires Inv(c) && UsersOk(users, c.chans)
    ensures Inv(Cache(users, Recount(c.chans, users)))
  {
    var r := Recount(c.chans, users);
    RecountNames(c.chans, users);
    forall j | 0 <= j < |r| ensures r[j].refs == On(users, r[j].name) > 0 && |r[j].name| <= CHANNAME_LEN_MAX {
      var k := RecountFrom(c.chans, users, j);
    }
    forall i, n | 0 <= i < |users| && n in users[i].chans ensures Has(r, n) {
      RecountTopic(c.chans, users, n);
      OnWitness(users, i, n);
    }
  }

  // ---------------------------------------------------------------- one channel

  function Without(users: seq<User>, i: nat, name: string): (r: seq<User>)
    requires i < |users| && name in users[i].chans
    ensures |r| == |users|
  {
    users[i := users[i].(chans := RemoveAt(users[i].chans, IndexIn(users[i].chans, name)))]
  }

  lemma RemoveAtMembers(names: seq<string>, k: nat)
    requires Distinct(names) && k < |names|
    ensures Distinct(RemoveAt(names, k))
    ensures forall n :: n in RemoveAt(names, k) <==> n in names && n != names[k]
  {
    var r := RemoveAt(names, k);
    forall n | n in names && n != names[k] ensures n in r {
      var j :| 0 <= j < |names| && names[j] == n;
      assert r[if j < k then j else j - 1] == n;
    }
  }

  lemma WithoutCounts(users: seq<User>, i: nat, name: string)
    requires i < |users| && name in users[i].chans && Distinct(users[i].chans)
    ensures Distinct(Without(users, i, name)[i].chans)
    ensures forall n :: n in Without(users, i, name)[i].chans ==> n in users[i].chans
    ensures forall n :: On(Without(users, i, name), n) == On(users, n) - if n == name then 1 else 0
  {
    RemoveAtMembers(users[i].chans, IndexIn(users[i].chans, name));
    forall n ensures On(Without(users, i, name), n) == On(users, n) - if n == name then 1 else 0 {
      OnUpdate(users, i, Without(users, i, name)[i], n);
    }
  }

  lemma RecountSingle(ch: Chan, users: seq<User>)
    ensures Recount([ch], users)
         == if On(users, ch.name) > 0 then [ch.(refs := On(users, ch.name))] else []
  {
    assert Recount([ch][1..], users) == [];
  }

  lemma DropRefParts(chans: seq<Chan>, k: nat)
    requires k < |chans|
    ensures DropRef(chans, k)
         == chans[..k] + ((if chans[k].refs == 1 then [] else [chans[k].(refs := chans[k].refs - 1)]) + chans[k + 1..])
  {
  }

  lemma RecountParts(chans: seq<Chan>, k: nat, users: seq<User>)
    requires k < |chans|
    ensures Recount(chans, users)
         == Recount(chans[..k], users) + (Recount([chans[k]], users) + Recount(chans[k + 1..], users))
  {
    var a, m, b := chans[..k], [chans[k]], chans[k + 1..];
    assert chans == a + (m + b);
    RecountConcat(a, m + b, users);
    RecountConcat(m, b, users);
  }

  lemma RecountOne(chans: seq<Chan>, k: nat, users: seq<User>)
    requires k < |chans|
    requires forall j :: 0 <= j < |chans| && j != k ==> chans[j].refs == On(users, chans[j].name) > 0
    requires chans[k].refs == On(users, chans[k].name) + 1
    ensures DropRef(chans, k) == Recount(chans, users)
  {
    hide Recount, DropRef, On;
    DropRefParts(chans, k);
    RecountParts(chans, k, users);
    RecountFixed(chans[..k], users);
    RecountFixed(chans[k + 1..], users);
    RecountSingle(chans[k], users);
  }

  /** Dropping one reference is a recount of the whole list. */
  lemma DropIsRecount(c: Cache, i: nat, name: string)
    requires Inv(c) && i < |c.users| && name in c.users[i].chans
    ensures Has(c.chans, name)
    ensures var users := Without(c.users, i, name);
      && DropRef(c.chans, Find(c.chans, name)) == Recount(c.chans, users)
      && UsersOk(users, c.chans)
      && (forall n :: On(users, n) == On(c.users, n) - if n == name then 1 else 0)
  {
    assert Has(c.chans, name);
    WithoutCounts(c.users, i, name);
    RecountOne(c.chans, Find(c.chans, name), Without(c.users, i, name));
  }

  lemma DropChanInv(c: Cache, i: nat, channame: string)
    requires Inv(c) && i < |c.users|
    ensures Inv(DropChan(c, i, channame))
  {
    var name := Clip(channame, CHANNAME_LEN_MAX);
    if name in c.users[i].chans {
      DropIsRecount(c, i, name);
      RecountInv(c, Without(c.users, i, name));
    }
  }

  /** What a new reference does to one channel list. */
  lemma AddRefNames(chans: seq<Chan>, name: string)
    ensures forall n :: Has(AddRef(chans, name), n) <==> Has(chans, n) || n == name
    ensures DistinctNames(chans) ==> DistinctNames(AddRef(chans, name))
  {
    var r := AddRef(chans, name);
    forall n ensures Has(r, n) <==> Has(chans, n) || n == name {
      if Has(chans, n) || n == name {
        var k := Find(chans, n);
        assert r[if k < |chans| then k else |r| - 1].name == n;
      }
    }
  }

  lemma AddChanCounts(c: Cache, i: nat, channame: string)
    requires Inv(c) && i < |c.users|
    ensures RefsExact(AddChan(c, i, channame))
  {
    var name := Clip(channame, CHANNAME_LEN_MAX);
    var r := AddChan(c, i, channame);
    hide On, Find;
    if name !in c.users[i].chans {
      forall n ensures On(r.users, n) == On(c.users, n) + if n == name then 1 else 0 {
        OnUpdate(c.users, i, r.users[i], n);
      }
      if !Has(c.chans, name) && On(c.users, name) > 0 {
        var j := OnSome(c.users, name);
      }
    }
  }

  lemma AddChanInv(c: Cache, i: nat, channame: string)
    requires Inv(c) && i < |c.users|
    ensures Inv(AddChan(c, i, channame))
  {
    var name := Clip(channame, CHANNAME_LEN_MAX);
    var r := AddChan(c, i, channame);
    AddChanCounts(c, i, channame);
    AddRefNames(c.chans, name);
    hide On, Find, Has, RefsExact;
    if name !in c.users[i].chans {
      assert forall j :: 0 <= j < |c.users| ==> r.users[j].uid == c.users[j].uid && r.users[j].nick == c.users[j].nick;
      assert r.chans == AddRef(c.chans, name);
    }
  }

  // ---------------------------------------------------------------- all channels of a user

  function Bare(users: seq<User>, i: nat): (r: seq<User>)
    requires i < |users|
    ensures |r| == |users|
  {
    users[i := users[i].(chans := [])]
  }

  /** Walking a copy of the array empties the user's list and recounts the channels once. */
  lemma {:induction false} DropEachIsRecount(c: Cache, i: nat)
    requires Inv(c) && i < |c.users|
    ensures Inv(DropAll(c, i))
    ensures DropAll(c, i) == Cache(Bare(c.users, i), Recount(c.chans, Bare(c.users, i)))
    decreases |c.users[i].chans|
  {
    var names := c.users[i].chans;
    var bare := Bare(c.users, i);
    if names == [] {
      assert bare == c.users;
      RecountFixed(c.chans, bare);
    } else {
      DropIsRecount(c, i, names[0]);
      DropChanInv(c, i, names[0]);
      NameClip(c, i, 0);
      var d := DropChan(c, i, names[0]);
      assert d.users == Without(c.users, i, names[0]);
      assert d.users[i].chans == names[1..];
      DropEachIsRecount(d, i);
      BareAgain(c.users, d.users, i);
      RecountTwice(c.chans, d.users, bare);
    }
  }

  /** Emptying a list that was shortened before makes the same users, and nobody gains a channel by it. */
  lemma BareAgain(us: seq<User>, shortened: seq<User>, i: nat)
    requires i < |us| && SameBut(shortened, us, i)
    ensures Bare(shortened, i) == Bare(us, i)
    ensures forall n :: On(Bare(us, i), n) <= On(shortened, n)
  {
    assert shortened[i := Bare(us, i)[i]] == Bare(us, i);
    forall n ensures On(Bare(us, i), n) <= On(shortened, n) {
      OnUpdate(shortened, i, Bare(us, i)[i], n);
    }
  }

  lemma NameClip(c: Cache, i: nat, k: nat)
    requires Inv(c) && i < |c.users| && k < |c.users[i].chans|
    ensures Clip(c.users[i].chans[k], CHANNAME_LEN_MAX) == c.users[i].chans[k]
  {
    assert c.users[i].chans[k] in c.users[i].chans;
    assert Has(c.chans, c.users[i].chans[k]);
  }

  /** The other users are untouched, and so is everything but the array of this one. */
  ghost predicate SameBut(a: seq<User>, b: seq<User>, i: nat) {
    && |a| == |b|
    && (forall j :: 0 <= j < |a| && j != i ==> a[j] == b[j])
    && (i < |a| ==> a[i] == b[i].(chans := a[i].chans))
  }

  function ClipAll(names: seq<string>): (r: seq<string>)
    ensures |r| == |names|
    ensures forall k :: 0 <= k < |names| ==> r[k] == Clip(names[k], CHANNAME_LEN_MAX)
  {
    if names == [] then [] else ClipAll(names[..|names| - 1]) + [Clip(names[|names| - 1], CHANNAME_LEN_MAX)]
  }

  lemma HeldIsListed(c: Cache, i: nat, name: string)
    requires Inv(c) && i < |c.users|
    ensures name in c.users[i].chans ==> Has(c.chans, name)
  {
  }

  /** Adding names one by one to an empty array: the distinct names in first-occurrence order;
    * known channels keep their topic, new ones start without. */
  lemma {:induction false} AddEachEffect(c: Cache, i: nat, names: seq<string>)
    requires Inv(c) && i < |c.users| && c.users[i].chans == []
    ensures var r := AddEach(c, i, names);
      && Inv(r)
      && SameBut(r.users, c.users, i)
      && r.users[i].chans == Firsts(ClipAll(names))
      && (forall n :: TopicOf(r.chans, n)
                   == if Has(c.chans, n) then TopicOf(c.chans, n)
                      else if n in ClipAll(names) then Some("") else None)
    decreases |names|
  {
    hide Inv, On, Find;
    if names != [] {
      var init, last := names[..|names| - 1], names[|names| - 1];
      AddEachEffect(c, i, init);
      var m := AddEach(c, i, init);
      AddChanInv(m, i, last);
      var name := Clip(last, CHANNAME_LEN_MAX);
      assert ClipAll(names)[..|names| - 1] == ClipAll(init);
      HeldIsListed(m, i, name);
      AddRefTopics(m.chans, name);
      assert forall n :: n in ClipAll(names) <==> n in ClipAll(init) || n == name;
      forall n ensures Has(m.chans, n) <==> TopicOf(m.chans, n).Some? {}
    }
  }

  lemma AddRefTopics(chans: seq<Chan>, name: string)
    ensures forall n :: TopicOf(AddRef(chans, name), n)
                     == (if !Has(chans, name) && n == name then Some("") else TopicOf(chans, n))
  {
    var r := AddRef(chans, name);
    forall n ensures TopicOf(r, n) == if !Has(chans, name) && n == name then Some("") else TopicOf(chans, n) {
      if Has(chans, name) {
        FindUpdate(chans, Find(chans, name), r[Find(chans, name)], n);
      } else {
        FindAppend(chans, Chan(name, "", 1), n);
      }
    }
  }

  lemma {:induction false} FindUpdate(chans: seq<Chan>, k: nat, ch: Chan, n: string)
    requires k < |chans| && ch.name == chans[k].name
    ensures Find(chans[k := ch], n) == Find(chans, n)
  {
    if k == 0 {
      assert chans[k := ch][1..] == chans[1..];
    } else {
      assert chans[k := ch][1..] == chans[1..][k - 1 := ch];
      FindUpdate(chans[1..], k - 1, ch, n);
    }
  }

  lemma {:induction false} FindAppend(chans: seq<Chan>, ch: Chan, n: string)
    ensures Find(chans + [ch], n)
         == if Has(chans, n) then Find(chans, n) else if ch.name == n then |chans| else |chans| + 1
  {
    if chans != [] {
      assert (chans + [ch])[1..] == chans[1..] + [ch];
      FindAppend(chans[1..], ch, n);
    }
  }

  /** How many users other than the one at i are on a channel. */
  function OthersOn(users: seq<User>, i: nat, name: string): nat
    requires i < |users|
  {
    On(Bare(users, i), name)
  }

  /** Setting a user's channels from a valid text: exactly the distinct names, in order of first
    * occurrence; a topic survives exactly when somebody else is on the channel. */
  lemma SetChansEffect(c: Cache, i: nat, text: string)
    requires Inv(c) && i < |c.users|
    ensures var r := SetChans(c, i, ['#'] + text);
      && Inv(r)
      && SameBut(r.users, c.users, i)
      && r.users[i].chans == Firsts(ClipAll(Split(text)))
      && (forall n :: TopicOf(r.chans, n)
                   == if OthersOn(c.users, i, n) > 0 then TopicOf(c.chans, n)
                      else if n in r.users[i].chans then Some("") else None)
  {
    var d := DropAll(c, i);
    DropEachIsRecount(c, i);
    assert (['#'] + text)[1..] == text;
    AddEachEffect(d, i, Split(text));
    forall n
      ensures TopicOf(d.chans, n) == if OthersOn(c.users, i, n) > 0 then TopicOf(c.chans, n) else None
      ensures Has(d.chans, n) <==> OthersOn(c.users, i, n) > 0
    {
      TopicsLeft(c, i, n);
    }
    hide Inv, DropAll, AddEach, TopicOf, Has, Split, ClipAll, Recount, OthersOn;
  }

  /** Without the user at i, a channel is there exactly if one of the others is on it. */
  lemma TopicsLeft(c: Cache, i: nat, n: string)
    requires Inv(c) && i < |c.users|
    ensures TopicOf(Recount(c.chans, Bare(c.users, i)), n)
         == if OthersOn(c.users, i, n) > 0 then TopicOf(c.chans, n) else None
    ensures Has(Recount(c.chans, Bare(c.users, i)), n) <==> OthersOn(c.users, i, n) > 0
  {
    var bare := Bare(c.users, i);
    hide Recount, On;
    RecountTopic(c.chans, bare, n);
    if On(bare, n) > 0 {
      var j := OnSome(bare, n);
      assert n in c.users[j].chans;
    }
  }

  lemma SetChansInv(c: Cache, i: nat, chanlist: string)
    requires Inv(c) && i < |c.users| && chanlist != ""
    ensures Inv(SetChans(c, i, chanlist))
    ensures SameBut(SetChans(c, i, chanlist).users, c.users, i)
  {
    if chanlist[0] == '#' {
      assert chanlist == ['#'] + chanlist[1..];
      SetChansEffect(c, i, chanlist[1..]);
    }
  }

  lemma {:induction false} ClipAllShort(names: seq<string>)
    requires forall k :: 0 <= k < |names| ==> |names[k]| <= CHANNAME_LEN_MAX
    ensures ClipAll(names) == names
  {
  }

  function RefsOf(chans: seq<Chan>, name: string): int {
    var k := Find(chans, name);
    if k < |chans| then chans[k].refs else 0
  }

  lemma RefsAreCounts(c: Cache, name: string)
    requires Inv(c)
    ensures RefsOf(c.chans, name) == On(c.users, name)
  {
    if !Has(c.chans, name) && On(c.users, name) > 0 {
      var j := OnSome(c.users, name);
    }
  }

  lemma NamesShort(c: Cache, i: nat)
    requires Inv(c) && i < |c.users|
    ensures ClipAll(c.users[i].chans) == c.users[i].chans
    ensures Firsts(c.users[i].chans) == c.users[i].chans
  {
    var names := c.users[i].chans;
    forall k | 0 <= k < |names| ensures |names[k]| <= CHANNAME_LEN_MAX {
      NameClip(c, i, k);
    }
    ClipAllShort(names);
    FirstsOfDistinct(names);
  }

  /** What the user's own printed list comes to. */
  lemma OwnListSet(c: Cache, i: nat)
    requires Inv(c) && i < |c.users| && c.users[i].chans != []
    ensures var text := Join(c.users[i].chans)[1..];
      var users := SetChans(c, i, Join(c.users[i].chans)).users;
      SameBut(users, c.users, i) && users[i].chans == Firsts(ClipAll(Split(text)))
  {
    var text := Join(c.users[i].chans)[1..];
    assert Join(c.users[i].chans) == ['#'] + text;
    hide Inv, SetChans, Join, Split;
    SetChansEffect(c, i, text);
  }

  lemma UnchangedExactly(a: seq<User>, b: seq<User>, i: nat)
    requires i < |b| && SameBut(a, b, i)
    ensures a == b <==> a[i].chans == b[i].chans
  {
  }

  /** Names with a mark do not come back out of a text. */
  lemma NoMarksBack(text: string)
    ensures forall n :: n in Firsts(ClipAll(Split(text))) ==> '#' !in n
  {
    hide Split, ClipAll, Firsts;
    ClipAllPlain(Split(text));
  }

  /** Feeding a user's own printed list back leaves the user's names, and so every user, as they
    * were exactly when no name holds a '#'. (A user on no channel prints as the empty text.) */
  lemma SetOwnList(c: Cache, i: nat)
    requires Inv(c) && i < |c.users| && c.users[i].chans != []
    ensures SetChans(c, i, Join(c.users[i].chans)).users == c.users <==> Plain(c.users[i].chans)
  {
    hide Inv, SetChans, Join, Split, Firsts, ClipAll, SameBut;
    var names := c.users[i].chans;
    var text := Join(names)[1..];
    OwnListSet(c, i);
    NamesShort(c, i);
    UnchangedExactly(SetChans(c, i, Join(names)).users, c.users, i);
    if Plain(names) {
      SplitJoin(names);
    } else {
      var k :| 0 <= k < |names| && '#' in names[k];
      NoMarksBack(text);
      assert names[k] in names;
    }
  }

  /** .. and with the users every reference count by name stays what it was. */
  lemma SetOwnListRefs(c: Cache, i: nat, name: string)
    requires Inv(c) && i < |c.users| && c.users[i].chans != [] && Plain(c.users[i].chans)
    ensures RefsOf(SetChans(c, i, Join(c.users[i].chans)).chans, name) == RefsOf(c.chans, name)
  {
    SetOwnList(c, i);
    SetChansInv(c, i, Join(c.users[i].chans));
    RefsAreCounts(c, name);
    RefsAreCounts(SetChans(c, i, Join(c.users[i].chans)), name);
  }

  lemma {:induction false} ClipAllPlain(names: seq<string>)
    requires forall n :: n in names ==> '#' !in n
    ensures forall n :: n in ClipAll(names) ==> '#' !in n
  {
    forall n | n in ClipAll(names) ensures '#' !in n {
      var k :| 0 <= k < |names| && n == Clip(names[k], CHANNAME_LEN_MAX);
      assert names[k] in names;
    }
  }
}
