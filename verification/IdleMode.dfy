/** Going away and coming back: the state of the idle watcher, and the user mode that is put aside
  * while the user is idle. */
module IdleMode {

  datatype UserMode =
    | UmodeNormal | UmodeDnd | UmodeAway | UmodeOffline | UmodeInvisible | UmodeDead | UmodeNull

  datatype IdleState = IdleNot | IdleAway | IdleOffline

  /** What happens to a client: the timer of the watcher fires, with the idle time and the two limits
    * of that moment; the watcher is switched on or off; the user picks a mode. */
  datatype Step =
    | Check(idleTime: nat, autoAway: nat, autoOffline: nat)
    | SwitchOn
    | SwitchOff
    | Pick(mode: UserMode)

  /** The watcher's timer and state, the mode put aside, and the mode in force. */
  datatype Client = Client(timer: bool, idle: IdleState, preIdle: UserMode, mode: UserMode)

  function Fresh(mode: UserMode): Client { Client(false, IdleNot, UmodeNull, mode) }

  // ---------------------------------------------------------------- events

  /** EVENT_IDLE_AUTO_AWAY. */
  function AutoAway(c: Client): Client {
    if c.preIdle != UmodeNull then c
    else c.(preIdle := c.mode, mode := if c.mode != UmodeOffline then UmodeAway else c.mode)
  }

  /** EVENT_IDLE_AUTO_OFFLINE. */
  function AutoOffline(c: Client): Client {
    c.(preIdle := if c.preIdle == UmodeNull then c.mode else c.preIdle, mode := UmodeOffline)
  }

  /** EVENT_IDLE_NOT. */
  function Back(c: Client): Client { c.(mode := c.preIdle, preIdle := UmodeNull) }

  function Act(c: Client, s: Step): Client {
    match s
    case Check(time, away, offline) =>
      if !c.timer || c.mode == UmodeInvisible then c
      else
        (match c.idle
         case IdleNot =>
           if time >= offline then AutoOffline(c.(idle := IdleOffline))
           else if time >= away then AutoAway(c.(idle := IdleAway))
           else c
         case IdleAway =>
           if time < away then Back(c.(idle := IdleNot))
           else if time >= offline then AutoOffline(c.(idle := IdleOffline))
           else c
         case IdleOffline => if time < away then Back(c.(idle := IdleNot)) else c)
    case SwitchOn => c.(timer := true)
    case SwitchOff =>
      var off := c.(timer := false);
      if c.idle != IdleNot then Back(off.(idle := IdleNot)) else off
    case Pick(mode) => c.(mode := mode)
  }

  function Run(first: UserMode, steps: seq<Step>): Client {
    if steps == [] then Fresh(first) else Act(Run(first, steps[..|steps| - 1]), steps[|steps| - 1])
  }

  /** Nobody picks the mode that stands for no mode. */
  predicate Picks(steps: seq<Step>) { forall i :: 0 <= i < |steps| && steps[i].Pick? ==> steps[i].mode != UmodeNull }

  /** When a check finds what: offline from its limit on, and then until the user is back below the limit for away;
    * not idle below that limit, but for a limit for offline that is lower still. */
  lemma LimitsDecide(c: Client, time: nat, away: nat, offline: nat)
    requires c.timer && c.mode != UmodeInvisible
    ensures var d := Act(c, Check(time, away, offline));
      && (d.idle == IdleOffline <==>
            if c.idle == IdleNot then time >= offline
            else time >= away && (c.idle == IdleOffline || time >= offline))
      && (d.idle == IdleNot <==> time < away && (c.idle != IdleNot || time < offline))
      && (c.idle != IdleOffline && away <= offline ==>
            d.idle == if time < away then IdleNot else if time < offline then IdleAway else IdleOffline)
  {
  }

  /** Without the timer, or while the user is invisible, a check does nothing. */
  lemma NothingIsChecked(c: Client, time: nat, away: nat, offline: nat)
    ensures !c.timer || c.mode == UmodeInvisible <==> forall t, a, o :: Act(c, Check(t, a, o)) == c
  {
    var woken := Act(c, Check(0, 1, 1));
    var rested := Act(c, Check(1, 1, 1));
    assert c.timer && c.mode != UmodeInvisible ==> woken.idle == IdleNot && rested.idle != IdleNot;
  }

  // ---------------------------------------------------------------- the idle period

  /** The mode in force when the current idle period began, told from the run of states alone; the
    * null mode if the client is not idle. */
  function HeldAtStart(first: UserMode, steps: seq<Step>): UserMode {
    if steps == [] then UmodeNull
    else
      var earlier := steps[..|steps| - 1];
      var before, after := Run(first, earlier), Run(first, steps);
      if after.idle == IdleNot then UmodeNull
      else if before.idle == IdleNot then before.mode
      else HeldAtStart(first, earlier)
  }

  /** Over any run: the client is idle exactly if a mode is put aside, that mode is the one in force
    * when it became idle, and none of the modes is the null mode. */
  lemma {:induction false} EveryRunKeeps(first: UserMode, steps: seq<Step>)
    requires first != UmodeNull && Picks(steps)
    ensures var c := Run(first, steps);
      && (c.idle == IdleNot <==> c.preIdle == UmodeNull)
      && c.mode != UmodeNull
      && c.preIdle == HeldAtStart(first, steps)
  {
    if steps != [] {
      EveryRunKeeps(first, steps[..|steps| - 1]);
    }
  }

  /** The preference accepts the null mode too. Becoming idle in that mode, and only then, leaves a client
    * that is idle with nothing put aside. */
  lemma BecomingIdleExactly(c: Client, s: Step)
    requires c.idle == IdleNot && c.preIdle == UmodeNull && Act(c, s).idle != IdleNot
    ensures Act(c, s).preIdle != UmodeNull <==> c.mode != UmodeNull
    ensures c.mode != UmodeNull ==> Act(c, s).preIdle == c.mode
  {
    assert s.Check?;
  }

  /** Coming back, by waking up or by switching the watcher off, puts the mode back that was in force
    * when the idle period began, whatever was picked in between. */
  lemma ReturnRestores(first: UserMode, steps: seq<Step>, s: Step)
    requires first != UmodeNull && Picks(steps)
    requires Run(first, steps).idle != IdleNot && Act(Run(first, steps), s).idle == IdleNot
    ensures Act(Run(first, steps), s).mode == HeldAtStart(first, steps)
    ensures Act(Run(first, steps), s).preIdle == UmodeNull
  {
    EveryRunKeeps(first, steps);
  }

  /** The steps of the idle period so far, without the one that began it. */
  function Untouched(first: UserMode, steps: seq<Step>): bool {
    steps == [] || Run(first, steps).idle == IdleNot || (
      var earlier := steps[..|steps| - 1];
      Run(first, earlier).idle == IdleNot || (!steps[|steps| - 1].Pick? && Untouched(first, earlier)))
  }

  /** The mode an idle client shows as long as its user picks none. */
  function Shown(idle: IdleState, held: UserMode): UserMode {
    if idle == IdleAway && held != UmodeOffline then UmodeAway else UmodeOffline
  }

  lemma {:induction false} IdleShows(first: UserMode, steps: seq<Step>)
    requires first != UmodeNull && Picks(steps) && Untouched(first, steps)
    ensures var c := Run(first, steps);
      c.idle != IdleNot ==> c.mode == Shown(c.idle, HeldAtStart(first, steps))
  {
    if steps != [] {
      var earlier := steps[..|steps| - 1];
      EveryRunKeeps(first, earlier);
      EveryRunKeeps(first, steps);
      if Run(first, earlier).idle != IdleNot && Run(first, steps).idle != IdleNot {
        IdleShows(first, earlier);
      }
    }
  }

  /** While the user is invisible no run of checks changes anything: one who has been idle stays so, with the
    * mode put aside waiting, and comes back to it by the first check that is made in another mode. */
  lemma {:induction false} InvisibleIsLeftAlone(first: UserMode, steps: seq<Step>, checks: seq<Step>)
    requires forall i :: 0 <= i < |checks| ==> checks[i].Check?
    ensures var c := Run(first, steps + [Pick(UmodeInvisible)]);
      && Run(first, steps + [Pick(UmodeInvisible)] + checks) == c
      && c.idle == Run(first, steps).idle && c.preIdle == Run(first, steps).preIdle
    ensures var before := Run(first, steps);
      forall mode, away, offline :: mode != UmodeInvisible && before.timer && before.idle != IdleNot && away > 0 ==>
        Act(Act(Run(first, steps + [Pick(UmodeInvisible)] + checks), Pick(mode)), Check(0, away, offline)).mode
          == before.preIdle
  {
    var a := steps + [Pick(UmodeInvisible)];
    assert a[..|a| - 1] == steps;
    if checks == [] {
      assert a + checks == a;
    } else {
      var init := checks[..|checks| - 1];
      InvisibleIsLeftAlone(first, steps, init);
      assert (a + checks)[..|a + checks| - 1] == a + init && (a + checks)[|a + checks| - 1] == checks[|checks| - 1];
    }
  }

  // ---------------------------------------------------------------- as it runs

  datatype Event = IdleAutoAway | IdleAutoOffline | IdleOver

  /** The variables of the two files: idle_check_timeout and idle_mode, pre_idle_user_mode and the
    * preference that holds the user mode. */
  class VqccClient {
    var idleCheckTimeout: bool
    var idleMode: IdleState
    var preIdleUserMode: UserMode
    var prefsMainMode: UserMode

    ghost function Abs(): Client
      reads this
    {
      Client(idleCheckTimeout, idleMode, preIdleUserMode, prefsMainMode)
    }

    constructor (mode: UserMode)
      ensures Abs() == Fresh(mode)
    {
      idleCheckTimeout, idleMode, preIdleUserMode, prefsMainMode := false, IdleNot, UmodeNull, mode;
    }

    /** main_event_cb, as far as it is about idling. */
    method MainEventCb(event: Event)
      modifies `preIdleUserMode, `prefsMainMode
      ensures Abs() == match event {
        case IdleAutoAway => AutoAway(old(Abs()))
        case IdleAutoOffline => AutoOffline(old(Abs()))
        case IdleOver => Back(old(Abs()))
      }
    {
      match event {
        case IdleAutoAway =>
          if preIdleUserMode == UmodeNull {
            preIdleUserMode := prefsMainMode;
            if preIdleUserMode != UmodeOffline {
              prefsMainMode := UmodeAway;
            }
          }
        case IdleAutoOffline =>
          if preIdleUserMode == UmodeNull {
            preIdleUserMode := prefsMainMode;
          }
          prefsMainMode := UmodeOffline;
        case IdleOver =>
          prefsMainMode := preIdleUserMode;
          preIdleUserMode := UmodeNull;
      }
    }

    /** idle_check_cb, called by the timer. */
    method IdleCheckCb(idleTime: nat, autoAway: nat, autoOffline: nat)
      requires idleCheckTimeout
      modifies this
      ensures Abs() == Act(old(Abs()), Check(idleTime, autoAway, autoOffline))
    {
      if prefsMainMode == UmodeInvisible { return; }
      match idleMode {
        case IdleNot =>
          if idleTime >= autoOffline {
            idleMode := IdleOffline;
            MainEventCb(IdleAutoOffline);
          } else if idleTime >= autoAway {
            idleMode := IdleAway;
            MainEventCb(IdleAutoAway);
          }
        case IdleAway =>
          if idleTime < autoAway {
            idleMode := IdleNot;
            MainEventCb(IdleOver);
          } else if idleTime >= autoOffline {
            idleMode := IdleOffline;
            MainEventCb(IdleAutoOffline);
          }
        case IdleOffline =>
          if idleTime < autoAway {
            idleMode := IdleNot;
            MainEventCb(IdleOver);
          }
      }
    }

    /** idle_prefs_idle_enable_changed. */
    method IdlePrefsIdleEnableChanged(enable: bool)
      modifies this
      ensures Abs() == Act(old(Abs()), if enable then SwitchOn else SwitchOff)
    {
      if enable {
        idleCheckTimeout := true;
      } else {
        idleCheckTimeout := false;
        if idleMode != IdleNot {
          idleMode := IdleNot;
          MainEventCb(IdleOver);
        }
      }
    }

    /** Any run of steps. */
    method Live(steps: seq<Step>, ghost first: UserMode)
      requires Abs() == Fresh(first) && first != UmodeNull && Picks(steps)
      modifies this
      ensures Abs() == Run(first, steps)
      ensures idleMode == IdleNot <==> preIdleUserMode == UmodeNull
    {
      var i := 0;
      while i < |steps|
        invariant 0 <= i <= |steps|
        invariant Abs() == Run(first, steps[..i])
      {
        assert steps[..i + 1][..i] == steps[..i];
        match steps[i] {
          case Check(time, away, offline) =>
            if idleCheckTimeout { IdleCheckCb(time, away, offline); }
          case SwitchOn => IdlePrefsIdleEnableChanged(true);
          case SwitchOff => IdlePrefsIdleEnableChanged(false);
          case Pick(mode) => prefsMainMode := mode;
        }
        i := i + 1;
      }
      assert steps[..i] == steps;
      EveryRunKeeps(first, steps);
    }
  }
}
