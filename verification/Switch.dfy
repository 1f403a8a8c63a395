/** switch_msg with the ids of messages. The window of ids is meant for the 64 seen last; since its head
  * never moves it remembers one. */
module Switch {
  import opened Basics
  import opened Messages
  import DList
  import CacheModel
  import RouteTable
  import RouteTheory
  import UserCache
  import Router
  import SwitchModel

  const IDCACHE_MAX_SIZE := 0x40

  /** idcache: `blank` is the id made of the bytes the window is filled with. */
  class IdCache {
    const blank: nat
    const ids: array<nat>
    var head: nat

    ghost predicate Valid()
      reads this, ids
    {
      ids.Length == IDCACHE_MAX_SIZE && head == 0 && forall k :: 1 <= k < ids.Length ==> ids[k] == blank
    }

    /** The one id that is remembered. */
    function Last(): nat
      reads this, ids
      requires Valid()
    {
      ids[0]
    }

    constructor (blank: nat)
      ensures Valid() && fresh(ids) && this.blank == blank && Last() == blank
    {
      this.blank := blank;
      head := 0;
      var window := new nat[IDCACHE_MAX_SIZE](_ => blank);
      ids := window;
    }

    /** idcache_is_known: the whole window is searched, though only one id in it can be a real one. */
    method IsKnown(id: nat) returns (known: bool)
      requires Valid()
      ensures known <==> id == Last() || id == blank
    {
      var nr := 0;
      while nr < IDCACHE_MAX_SIZE && ids[nr] != id
        invariant nr <= IDCACHE_MAX_SIZE
        invariant forall k :: 0 <= k < nr ==> ids[k] != id
      {
        nr := nr + 1;
      }
      known := nr != IDCACHE_MAX_SIZE;
      assert ids[IDCACHE_MAX_SIZE - 1] == blank;
    }

    /** idcache_register. */
    method Register(id: nat)
      requires Valid()
      modifies this, ids
      ensures Valid() && Last() == id
    {
      head := head % IDCACHE_MAX_SIZE;
      ids[head] := id;
    }
  }

  /** What the window makes of a run of messages: which of them are switched. */
  function Admitted(ids: seq<nat>, last: nat, blank: nat): (r: seq<bool>)
    ensures |r| == |ids|
  {
    if ids == [] then []
    else
      var isNew := ids[0] != last && ids[0] != blank;
      [isNew] + Admitted(ids[1..], if isNew then ids[0] else last, blank)
  }

  /** The last id switched before position i, or the one remembered from before the run. */
  function LastBefore(ids: seq<nat>, last: nat, blank: nat, i: nat): nat
    requires i <= |ids|
  {
    if i == 0 then last else if ids[i - 1] == blank then LastBefore(ids, last, blank, i - 1) else ids[i - 1]
  }

  /** A message is held back exactly if its id is the one before it in the run: a repeat of any earlier message,
    * with another one between, is switched again. */
  lemma {:induction false} OnlyRepeatsAreHeldBack(ids: seq<nat>, last: nat, blank: nat, i: nat)
    requires i < |ids|
    ensures Admitted(ids, last, blank)[i] <==> ids[i] != blank && ids[i] != LastBefore(ids, last, blank, i)
  {
    if i > 0 {
      var isNew := ids[0] != last && ids[0] != blank;
      var last' := if isNew then ids[0] else last;
      OnlyRepeatsAreHeldBack(ids[1..], last', blank, i - 1);
      LastAfterFirst(ids, last, blank, i);
    }
  }

  lemma {:induction false} LastAfterFirst(ids: seq<nat>, last: nat, blank: nat, i: nat)
    requires 0 < i <= |ids|
    ensures var last' := if ids[0] != last && ids[0] != blank then ids[0] else last;
      LastBefore(ids, last, blank, i) == LastBefore(ids[1..], last', blank, i - 1)
  {
    if i > 1 { LastAfterFirst(ids, last, blank, i - 1); }
  }

  /** The switch of a router, in front of it the window of ids. */
  class Switch {
    const router: Router.Router
    const window: IdCache

    constructor (router: Router.Router, window: IdCache)
      ensures this.router == router && this.window == window
    {
      this.router := router;
      this.window := window;
    }

    /** switch_msg: a message whose id is known is ignored; any other is registered and switched. */
    method SwitchMsg(conn: Qnet, m: NetMsg, id: nat)
      requires window.Valid() && router.cache.Whole() && router.table.Valid()
      requires SwitchModel.CacheOk(router.cache.Abs(), m) && SwitchModel.TableOk(router.table.Abs(), conn, m)
      requires m.kind == UserEnumRequest ==> conn.id != BROADCAST_NET
      requires IsBroadcast(m) ==> m.src.net != NULL_NET
      modifies window, window.ids
      modifies router.cache, router.cache.ues, router.cache.ues.members, router.cache.chs, router.cache.chs.members
      modifies router.table, router.table.list.members
      ensures window.Valid() && router.cache.Whole() && router.table.Valid()
      ensures var isNew := id != old(window.Last()) && id != window.blank;
        && window.Last() == (if isNew then id else old(window.Last()))
        && router.cache.Abs()
           == (if isNew then SwitchModel.ParseCache(old(router.cache.Abs()), m) else old(router.cache.Abs()))
        && var s := SwitchModel.SwitchTable(
             old(router.table.Abs()), router.localId, conn, old(router.cache.Abs().users), m);
        && router.table.Abs() == (if isNew then s.table else old(router.table.Abs()))
        && router.table.log == old(router.table.log) + if isNew then s.log else []
    {
      hide CacheModel.Inv, UserCache.UserCache.Linked, UserCache.UserCache.Abs;
      hide UserCache.UserCache.Whole, UserCache.UserCache.Valid, DList.List.Valid;
      hide RouteTable.RouteTable.Linked, RouteTable.RouteTable.Abs, RouteTable.RouteTable.Valid, RouteTheory.Inv;
      hide SwitchModel.ParseCache, SwitchModel.SwitchTable, SwitchModel.TableOk, SwitchModel.CacheOk, IsBroadcast;
      hide IdCache.Valid, IdCache.Last;
      var known := window.IsKnown(id);
      if known {
        return;
      }
      window.Register(id);
      router.SwitchMsg(conn, m);
    }
  }
}
