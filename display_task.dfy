/**
 * The display task (ui/display_task.c).
 *
 * Other tasks post display commands into a queue of depth 4.  Each pass of
 * the `display_task` loop samples the front-panel button, handles at most
 * one command by calling the idle, info or access screen's setters or by
 * loading a screen, and refreshes the clock once a second.  The LVGL calls
 * are the actions a pass returns.
 */
module DisplayTask {
  import opened Base
  import opened Events

  const DisplayQueueDepth := 4
  const DisplayEvtBufSize := 32
  /** The duration `lv_scr_load_anim` is given, in milliseconds. */
  const LoadAnimMs := 500
  const TickModulus := 0x1_0000_0000

  type int16 = x: int | -0x8000 <= x < 0x8000

  /** `display_evt_t`: the command with the parameters it uses. */
  datatype DisplayEvt =
    | WifiStatusEvt(wifi: WifiStatus)
    | WifiRssiEvt(rssi: int16)
    | NetStatusEvt(net: NetStatus, buf: string)
    | AclStatusEvt(acl: AclStatus, progress: int)
    | MqttStatusEvt(mqtt: MqttStatus)
    | PowerStatusEvt(power: PowerStatus)
    | AllowedMsgEvt(msg: string, allowed: uint8)
    | DoorStateEvt(doorOpen: bool)
    | ShowScreenEvt(screen: Screen, anim: int)

  /** What a pass asks of the main task and of LVGL. */
  datatype DisplayAction =
    | ButtonPress                                 // main_task_event(MAIN_EVT_UI_BUTTON_PRESS)
    | SetWifiStatus(wifi: WifiStatus)             // ui_idle_set_wifi_status
    | SetRssi(rssi: int16)                        // ui_idle_set_rssi
    | SetNetStatus(net: NetStatus, buf: string)   // ui_info_set_status
    | SetAclStatus(acl: AclStatus)                // ui_idle_set_acl_status
    | SetAclProgress(progress: int)               // ui_idle_set_acl_download_progress
    | SetMqttStatus(mqtt: MqttStatus)             // ui_idle_set_mqtt_status
    | SetPowerStatus(power: PowerStatus)          // ui_idle_set_power_status
    | SetUser(msg: string, allowed: uint8)        // ui_access_set_user
    | SetDoorState(doorOpen: bool)                // ui_idle_set_door_state
    | LoadScreen(screen: Screen, anim: int, ms: nat)  // lv_scr_load_anim
    | ResetSplash                                 // ui_splash_reset
    | SetTime(clock: string)                      // ui_idle_set_time

  /**
   * The loop's state: the screen it last loaded (`s_scr`, NULL at first),
   * the button level of the previous pass and the tick of the last clock
   * refresh.
   */
  datatype DisplayState = DisplayState(scr: Option<Screen>, lastButton: Level, lastHeartbeat: uint32)

  datatype DisplayOutcome = DisplayOutcome(next: DisplayState, actions: seq<DisplayAction>)

  /** The bytes a message occupies in the 32-byte `buf` of an event. */
  function EvtBuf(msg: string): (r: string)
    ensures |r| == DisplayEvtBufSize
  {
    Strncpy(msg, DisplayEvtBufSize)
  }

  /**
   * A message shorter than 32 characters arrives whole and terminated; a
   * longer one arrives as its first 32 characters with no terminator.
   */
  lemma EvtBufContents(msg: string)
    requires '\0' !in msg
    ensures |msg| < DisplayEvtBufSize ==> CStr(EvtBuf(msg), '\0') == msg
    ensures |msg| >= DisplayEvtBufSize ==> '\0' !in EvtBuf(msg) && EvtBuf(msg) == msg[..DisplayEvtBufSize]
  {
    StrncpyTerminated(msg, DisplayEvtBufSize);
  }

  /** The button: a press is a change of level to 0. */
  function Button(last: Level, level: Level): seq<DisplayAction>
  {
    if level != last && level == 0 then [ButtonPress] else []
  }

  /**
   * SHOW_SCREEN: the blank, splash, idle and access screens are loaded when
   * they are not the one last loaded, the info screen when it is not the
   * active one (`lv_scr_act()`, given as `active`), and others are ignored.
   */
  function ShowScreen(scr: Option<Screen>, s: Screen, anim: int, active: Option<Screen>): DisplayOutcome
  {
    var st := DisplayState(scr, 0, 0);
    match s
    case ScrBlank | ScrIdle | ScrAccess =>
      if scr != Some(s) then DisplayOutcome(st.(scr := Some(s)), [LoadScreen(s, anim, LoadAnimMs)])
      else DisplayOutcome(st, [])
    case ScrSplash =>
      if scr != Some(s) then DisplayOutcome(st.(scr := Some(s)), [LoadScreen(s, anim, LoadAnimMs), ResetSplash])
      else DisplayOutcome(st, [])
    case ScrInfo =>
      if active != Some(s) then DisplayOutcome(st.(scr := Some(s)), [LoadScreen(s, anim, LoadAnimMs)])
      else DisplayOutcome(st, [])
    case ScrOta | ScrSleep => DisplayOutcome(st, [])
  }

  /** The handling of one command: the screen last loaded afterwards, and the calls made. */
  function Handle(scr: Option<Screen>, e: DisplayEvt, active: Option<Screen>): DisplayOutcome
  {
    var st := DisplayState(scr, 0, 0);
    match e
    case WifiStatusEvt(w) => DisplayOutcome(st, [SetWifiStatus(w)])
    case WifiRssiEvt(r) => DisplayOutcome(st, [SetRssi(r)])
    case NetStatusEvt(n, b) => DisplayOutcome(st, [SetNetStatus(n, b)])
    case AclStatusEvt(a, p) =>
      DisplayOutcome(st, [SetAclStatus(a)] + (if a == AclDownloading then [SetAclProgress(p)] else []))
    case MqttStatusEvt(m) => DisplayOutcome(st, [SetMqttStatus(m)])
    case PowerStatusEvt(p) => DisplayOutcome(st, [SetPowerStatus(p)])
    case AllowedMsgEvt(m, a) => DisplayOutcome(st, [SetUser(m, a)])
    case DoorStateEvt(d) => DisplayOutcome(st, [SetDoorState(d)])
    case ShowScreenEvt(s, anim) => ShowScreen(scr, s, anim, active)
  }

  /** `now - last_heartbeat_tick` on 32-bit ticks. */
  function TickDiff(now: uint32, last: uint32): nat
  {
    ((now as int - last as int) % TickModulus) as nat
  }

  /** Whether the clock is due: a second's worth of ticks since the last refresh. */
  predicate HeartbeatDue(now: uint32, last: uint32, tickPeriodMs: nat)
    requires tickPeriodMs > 0
  {
    TickDiff(now, last) >= 1000 / tickPeriodMs
  }

  /**
   * One pass of the `while(1)` loop of `display_task`: the button level, the
   * command received if any, the active screen, the tick count afterwards,
   * and the formatted clock.
   */
  function Step(st: DisplayState, level: Level, evt: Option<DisplayEvt>, active: Option<Screen>,
                now: uint32, clock: string, tickPeriodMs: nat): DisplayOutcome
    requires tickPeriodMs > 0
  {
    var h := if evt.Some? then Handle(st.scr, evt.value, active) else DisplayOutcome(DisplayState(st.scr, 0, 0), []);
    var due := HeartbeatDue(now, st.lastHeartbeat, tickPeriodMs);
    DisplayOutcome(DisplayState(h.next.scr, level, if due then now else st.lastHeartbeat),
                   Button(st.lastButton, level) + h.actions + (if due then [SetTime(clock)] else []))
  }

  /** The state before the first pass: no screen loaded, the button seen at 0, the clock refreshed at boot. */
  function Boot(initTick: uint32): DisplayState
  {
    DisplayState(None, 0, initTick)
  }

  // ---------------------------------------------------------------------
  // Properties
  // ---------------------------------------------------------------------

  /** A press is sent exactly when the level changes to 0. */
  lemma ButtonPressIff(st: DisplayState, level: Level, evt: Option<DisplayEvt>, active: Option<Screen>,
                       now: uint32, clock: string, tickPeriodMs: nat)
    requires tickPeriodMs > 0
    ensures var r := Step(st, level, evt, active, now, clock, tickPeriodMs);
      (ButtonPress in r.actions <==> st.lastButton == 1 && level == 0) && r.next.lastButton == level
  {
    var h := if evt.Some? then Handle(st.scr, evt.value, active) else DisplayOutcome(DisplayState(st.scr, 0, 0), []);
    assert ButtonPress !in h.actions;
  }

  /** The presses a run of passes sends, from the button level `last` and the levels sampled. */
  function Presses(last: Level, levels: seq<Level>): nat
  {
    if levels == [] then 0
    else Presses(last, levels[..|levels| - 1]) + |Button(LastLevel(last, levels[..|levels| - 1]), levels[|levels| - 1])|
  }

  /** The level seen last after a run. */
  function LastLevel(last: Level, levels: seq<Level>): Level
  {
    if levels == [] then last else levels[|levels| - 1]
  }

  /**
   * From boot, the presses a run of samples sends are the falls from 1 to 0:
   * a button held down at boot sends nothing until it is released and
   * pressed again.
   */
  lemma {:induction false} HeldAtBootSendsNothing(levels: seq<Level>)
    requires forall i :: 0 <= i < |levels| ==> levels[i] == 0
    ensures Presses(0, levels) == 0
  {
    if levels != [] {
      HeldAtBootSendsNothing(levels[..|levels| - 1]);
      assert LastLevel(0, levels[..|levels| - 1]) == 0;
    }
  }

  /**
   * The four tracked screens are loaded exactly when they were not the last
   * one loaded, and become the last one loaded; the splash is also reset.
   */
  lemma ShowTracked(scr: Option<Screen>, s: Screen, anim: int, active: Option<Screen>)
    requires s in {ScrBlank, ScrSplash, ScrIdle, ScrAccess}
    ensures var r := ShowScreen(scr, s, anim, active);
      && (LoadScreen(s, anim, LoadAnimMs) in r.actions <==> scr != Some(s))
      && (ResetSplash in r.actions <==> s == ScrSplash && scr != Some(s))
      && r.next.scr == Some(s)
  {
  }

  /** Asking for the same screen twice loads it at most once. */
  lemma ShowIdempotent(scr: Option<Screen>, s: Screen, anim: int, anim2: int, active: Option<Screen>)
    requires s in {ScrBlank, ScrSplash, ScrIdle, ScrAccess}
    ensures var r := ShowScreen(scr, s, anim, active);
      ShowScreen(r.next.scr, s, anim2, active) == DisplayOutcome(r.next, [])
  {
  }

  /**
   * The info screen is compared with the active screen instead: it is
   * loaded again when the last load was the info screen but another screen
   * became active, and not loaded when it is active whatever was loaded.
   */
  lemma ShowInfoUsesActive(scr: Option<Screen>, anim: int, active: Option<Screen>)
    ensures var r := ShowScreen(scr, ScrInfo, anim, active);
      && (r.actions != [] <==> active != Some(ScrInfo))
      && (r.actions == [] ==> r.next.scr == scr)
      && (r.actions != [] ==> r.next.scr == Some(ScrInfo))
  {
  }

  /** The OTA and sleep screens have no case: nothing is loaded and nothing changes. */
  lemma ShowUntracked(scr: Option<Screen>, s: Screen, anim: int, active: Option<Screen>)
    requires s in {ScrOta, ScrSleep}
    ensures ShowScreen(scr, s, anim, active) == DisplayOutcome(DisplayState(scr, 0, 0), [])
  {
  }

  /** ACL_STATUS always sets the status, and forwards the progress only while downloading. */
  lemma AclProgressOnlyWhenDownloading(scr: Option<Screen>, a: AclStatus, p: int, active: Option<Screen>)
    ensures var r := Handle(scr, AclStatusEvt(a, p), active);
      && SetAclStatus(a) in r.actions
      && (SetAclProgress(p) in r.actions <==> a == AclDownloading)
      && (forall q :: SetAclProgress(q) in r.actions ==> q == p)
      && r.next.scr == scr
  {
  }

  /** Only SHOW_SCREEN can change the tracked screen. */
  lemma OnlyShowChangesScreen(scr: Option<Screen>, e: DisplayEvt, active: Option<Screen>)
    requires !e.ShowScreenEvt?
    ensures Handle(scr, e, active).next.scr == scr && |Handle(scr, e, active).actions| >= 1
  {
  }

  /**
   * The clock is refreshed exactly when a second's worth of ticks has passed
   * since the last refresh, counted on the wrapping 32-bit tick counter;
   * the refresh becomes the reference.
   */
  lemma HeartbeatIff(st: DisplayState, level: Level, evt: Option<DisplayEvt>, active: Option<Screen>,
                     now: uint32, clock: string, tickPeriodMs: nat)
    requires tickPeriodMs > 0
    ensures var r := Step(st, level, evt, active, now, clock, tickPeriodMs);
      && (SetTime(clock) in r.actions <==> HeartbeatDue(now, st.lastHeartbeat, tickPeriodMs))
      && r.next.lastHeartbeat == (if HeartbeatDue(now, st.lastHeartbeat, tickPeriodMs) then now else st.lastHeartbeat)
  {
    var h := if evt.Some? then Handle(st.scr, evt.value, active) else DisplayOutcome(DisplayState(st.scr, 0, 0), []);
    assert forall a :: a in Button(st.lastButton, level) + h.actions ==> !a.SetTime?;
  }

  /** Two refreshes in a row are a second's worth of ticks apart. */
  lemma HeartbeatSpacing(st: DisplayState, level: Level, evt: Option<DisplayEvt>, active: Option<Screen>,
                         now: uint32, clock: string, tickPeriodMs: nat,
                         level2: Level, evt2: Option<DisplayEvt>, active2: Option<Screen>, now2: uint32, clock2: string)
    requires tickPeriodMs > 0
    requires SetTime(clock) in Step(st, level, evt, active, now, clock, tickPeriodMs).actions
    requires var r := Step(st, level, evt, active, now, clock, tickPeriodMs);
      SetTime(clock2) in Step(r.next, level2, evt2, active2, now2, clock2, tickPeriodMs).actions
    ensures TickDiff(now2, now) >= 1000 / tickPeriodMs
  {
    HeartbeatIff(st, level, evt, active, now, clock, tickPeriodMs);
    var r := Step(st, level, evt, active, now, clock, tickPeriodMs);
    HeartbeatIff(r.next, level2, evt2, active2, now2, clock2, tickPeriodMs);
  }

  // ---------------------------------------------------------------------
  // The task
  // ---------------------------------------------------------------------

  /**
   * The display task's queue and loop state.  `enabled` stands for the
   * `DISPLAY_ENABLED` build option: without it every sender returns -1 and
   * the task does nothing.
   */
  class Display {
    const enabled: bool
    const queue: Mailbox<DisplayEvt>
    var scr: Option<Screen>
    var lastButton: Level
    var lastHeartbeat: uint32

    function State(): DisplayState
      reads this
    {
      DisplayState(scr, lastButton, lastHeartbeat)
    }

    ghost predicate Valid()
      reads this, queue
    {
      queue.Valid() && queue.capacity == DisplayQueueDepth
    }

    /** `display_init` and the start of `display_task`. */
    constructor (enabled: bool, initTick: uint32)
      ensures Valid() && fresh(queue) && queue.items == []
      ensures this.enabled == enabled && State() == Boot(initTick)
    {
      this.enabled := enabled;
      queue := new Mailbox<DisplayEvt>(DisplayQueueDepth);
      scr, lastButton, lastHeartbeat := None, 0, initTick;
    }

    /** `xQueueSendToBack` of an event: pdTRUE (1) when queued, 0 when full, -1 when disabled. */
    method Post(e: DisplayEvt) returns (r: int)
      requires Valid()
      modifies queue
      ensures Valid()
      ensures !enabled ==> r == -1 && queue.items == old(queue.items)
      ensures enabled ==> queue.items == Offered(old(queue.items), DisplayQueueDepth, e)
                          && (r == 1 <==> |old(queue.items)| < DisplayQueueDepth) && r in {0, 1}
    {
      if !enabled {
        return -1;
      }
      var ok := queue.Send(e);
      r := if ok then 1 else 0;
    }

    method WifiStatusCmd(status: WifiStatus) returns (r: int)
      requires Valid()
      modifies queue
      ensures Valid()
      ensures !enabled ==> r == -1 && queue.items == old(queue.items)
      ensures enabled ==> queue.items == Offered(old(queue.items), DisplayQueueDepth, WifiStatusEvt(status))
    {
      r := Post(WifiStatusEvt(status));
    }

    /** `display_net_status`: the text goes through the 32-byte buffer. */
    method NetStatusCmd(status: NetStatus, buf: string) returns (r: int)
      requires Valid()
      modifies queue
      ensures Valid()
      ensures !enabled ==> r == -1 && queue.items == old(queue.items)
      ensures enabled ==> queue.items == Offered(old(queue.items), DisplayQueueDepth, NetStatusEvt(status, EvtBuf(buf)))
    {
      r := Post(NetStatusEvt(status, EvtBuf(buf)));
    }

    method WifiRssiCmd(rssi: int16) returns (r: int)
      requires Valid()
      modifies queue
      ensures Valid()
      ensures !enabled ==> r == -1 && queue.items == old(queue.items)
      ensures enabled ==> queue.items == Offered(old(queue.items), DisplayQueueDepth, WifiRssiEvt(rssi))
    {
      r := Post(WifiRssiEvt(rssi));
    }

    method PowerStatusCmd(status: PowerStatus) returns (r: int)
      requires Valid()
      modifies queue
      ensures Valid()
      ensures !enabled ==> r == -1 && queue.items == old(queue.items)
      ensures enabled ==> queue.items == Offered(old(queue.items), DisplayQueueDepth, PowerStatusEvt(status))
    {
      r := Post(PowerStatusEvt(status));
    }

    method AclStatusCmd(status: AclStatus, progress: int) returns (r: int)
      requires Valid()
      modifies queue
      ensures Valid()
      ensures !enabled ==> r == -1 && queue.items == old(queue.items)
      ensures enabled ==> queue.items == Offered(old(queue.items), DisplayQueueDepth, AclStatusEvt(status, progress))
    {
      r := Post(AclStatusEvt(status, progress));
    }

    method MqttStatusCmd(status: MqttStatus) returns (r: int)
      requires Valid()
      modifies queue
      ensures Valid()
      ensures !enabled ==> r == -1 && queue.items == old(queue.items)
      ensures enabled ==> queue.items == Offered(old(queue.items), DisplayQueueDepth, MqttStatusEvt(status))
    {
      r := Post(MqttStatusEvt(status));
    }

    /** `display_allowed_msg`: the member's text goes through the 32-byte buffer. */
    method AllowedMsgCmd(msg: string, allowed: uint8) returns (r: int)
      requires Valid()
      modifies queue
      ensures Valid()
      ensures !enabled ==> r == -1 && queue.items == old(queue.items)
      ensures enabled ==> queue.items == Offered(old(queue.items), DisplayQueueDepth, AllowedMsgEvt(EvtBuf(msg), allowed))
    {
      r := Post(AllowedMsgEvt(EvtBuf(msg), allowed));
    }

    method DoorStateCmd(doorOpen: bool) returns (r: int)
      requires Valid()
      modifies queue
      ensures Valid()
      ensures !enabled ==> r == -1 && queue.items == old(queue.items)
      ensures enabled ==> queue.items == Offered(old(queue.items), DisplayQueueDepth, DoorStateEvt(doorOpen))
    {
      r := Post(DoorStateEvt(doorOpen));
    }

    method ShowScreenCmd(screen: Screen, anim: int) returns (r: int)
      requires Valid()
      modifies queue
      ensures Valid()
      ensures !enabled ==> r == -1 && queue.items == old(queue.items)
      ensures enabled ==> queue.items == Offered(old(queue.items), DisplayQueueDepth, ShowScreenEvt(screen, anim))
    {
      r := Post(ShowScreenEvt(screen, anim));
    }

    /**
     * One pass of the loop: `level` is the sampled button, `active` what
     * `lv_scr_act()` returns, `now` the tick count after the command and
     * `clock` the formatted time.
     */
    method Iterate(level: Level, active: Option<Screen>, now: uint32, clock: string, tickPeriodMs: nat)
      returns (actions: seq<DisplayAction>)
      requires Valid() && enabled && tickPeriodMs > 0
      modifies this, queue
      ensures Valid()
      ensures queue.items == if old(queue.items) == [] then [] else old(queue.items)[1..]
      ensures DisplayOutcome(State(), actions)
              == Step(old(State()), level, if old(queue.items) == [] then None else Some(old(queue.items)[0]),
                      active, now, clock, tickPeriodMs)
    {
      actions := [];
      if level != lastButton && level == 0 {
        actions := [ButtonPress];
      }
      lastButton := level;
      var m := queue.Receive();
      if m.Some? {
        var handled := Dispatch(m.value, active);
        actions := actions + handled;
      }
      if (now as int - lastHeartbeat as int) % TickModulus >= 1000 / tickPeriodMs {
        actions := actions + [SetTime(clock)];
        lastHeartbeat := now;
      }
    }

    /** The `switch (evt.cmd)` of the loop. */
    method Dispatch(e: DisplayEvt, active: Option<Screen>) returns (actions: seq<DisplayAction>)
      modifies this`scr
      ensures scr == Handle(old(scr), e, active).next.scr && actions == Handle(old(scr), e, active).actions
    {
      match e {
        case WifiStatusEvt(w) => actions := [SetWifiStatus(w)];
        case WifiRssiEvt(r) => actions := [SetRssi(r)];
        case NetStatusEvt(n, b) => actions := [SetNetStatus(n, b)];
        case AclStatusEvt(a, p) =>
          actions := [SetAclStatus(a)];
          if a == AclDownloading {
            actions := actions + [SetAclProgress(p)];
          }
        case MqttStatusEvt(q) => actions := [SetMqttStatus(q)];
        case PowerStatusEvt(p) => actions := [SetPowerStatus(p)];
        case AllowedMsgEvt(msg, a) => actions := [SetUser(msg, a)];
        case DoorStateEvt(d) => actions := [SetDoorState(d)];
        case ShowScreenEvt(s, anim) =>
          actions := [];
          if s == ScrInfo {
            if active != Some(s) {
              actions := [LoadScreen(s, anim, LoadAnimMs)];
              scr := Some(s);
            }
          } else if s !in {ScrOta, ScrSleep} && scr != Some(s) {
            actions := [LoadScreen(s, anim, LoadAnimMs)];
            scr := Some(s);
            if s == ScrSplash {
              actions := actions + [ResetSplash];
            }
          }
      }
    }
  }
}
