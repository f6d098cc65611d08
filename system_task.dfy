/**
 * The power and battery supervisor (system/system_task.c).
 *
 * Each pass of the `system_task` loop samples the clock, the power-loss
 * pin and the low-battery pin.  Edges of the power-loss pin become main-task
 * events; a power loss counts down on the display and, after 30 s, puts the
 * board into light sleep; a low battery is logged every 10 s and, from 60 s
 * on, cuts the power.  One pass is the total function `Step`; the hardware
 * and the other tasks only see the actions it returns.
 */
module SystemTask {
  import opened Base
  import opened Events

  const SystemQueueDepth := 8
  /** Seconds of power loss before the board goes to sleep. */
  const SleepAfter := 30
  /** Seconds between two low-battery log lines. */
  const LowBattLogPeriod := 10
  /** Seconds of low battery before the shutdown pin is driven. */
  const ShutdownAfter := 60
  /** The `sdelay(5)` before the shutdown pin is driven, in milliseconds. */
  const ShutdownDelayMs := 5

  /** What one pass asks of the hardware and of the other tasks. */
  datatype SysAction =
    | LogCommand(cmd: int)      // a system-queue command, only logged
    | PostMain(evt: MainEvt)    // main_task_event
    | Countdown(seconds: int)   // display_sleep_countdown
    | PwrEnable(level: Level)   // gpio_set_level(GPIO_PIN_PWR_ENABLE, level)
    | SdioPowerKept             // esp_sleep_pd_config(ESP_PD_DOMAIN_VDDSDIO, ESP_PD_OPTION_ON)
    | WakeupPin(pin: int, level: Level)  // gpio_wakeup_enable(pin, level 0 low / 1 high)
    | GpioWakeup                // esp_sleep_enable_gpio_wakeup
    | LightSleep                // esp_light_sleep_start, returning on wake-up
    | LowBattLog(seconds: int)  // "low battery for %ld seconds"
    | Delay(ms: nat)            // sdelay
    | Shutdown                  // gpio_set_level(GPIO_PIN_SHUTDOWN, 0)

  /** The loop's locals that survive from one pass to the next. */
  datatype SysState = SysState(
    lastPwrLoss: Level, lastLowBatt: Level,
    timePwrLoss: int, timeLowBatt: int,
    lastTimePwrLoss: int, lastTimeLowBatt: int,
    lastLost: int)

  /** The locals as `system_task` initialises them: both pins last seen high. */
  const SysBoot := SysState(1, 1, 0, 0, 0, 0, 0)

  /** What one pass reads: `time(&now)`, the queue, and the two pins. */
  datatype Sample = Sample(now: int, cmd: Option<int>, pwrLoss: Level, lowBatt: Level)

  datatype SysOutcome = SysOutcome(next: SysState, actions: seq<SysAction>)

  /**
   * Going to sleep and waking up again, in order: the SD supply stays on,
   * pin 13 wakes on a low level and pin 35 on a high one.
   */
  const SleepSequence := [PostMain(EvtSleeping), SdioPowerKept, WakeupPin(13, 0), WakeupPin(35, 1), GpioWakeup,
    PwrEnable(0), LightSleep, PwrEnable(1), PostMain(EvtWaking)]

  /** A reference time still at 0 is taken to be the current time. */
  function Stamp(s: SysState, now: int): SysState
  {
    s.(lastTimePwrLoss := if s.lastTimePwrLoss == 0 then now else s.lastTimePwrLoss,
       lastTimeLowBatt := if s.lastTimeLowBatt == 0 then now else s.lastTimeLowBatt)
  }

  /** An edge of the power-loss pin: the event, and the references it resets. */
  function PowerEdge(s: SysState, now: int, level: Level): SysOutcome
  {
    if level == s.lastPwrLoss then SysOutcome(s, [])
    else if level == 0 then
      SysOutcome(s.(timePwrLoss := now, lastTimePwrLoss := now, lastPwrLoss := level, lastLost := now),
                 [PostMain(EvtPowerLoss)])
    else SysOutcome(s.(lastPwrLoss := level, lastLost := now), [PostMain(EvtPowerRestored)])
  }

  /** While the power is lost: the countdown when the elapsed time changed, or sleep. */
  function PowerLost(s: SysState, now: int, level: Level): SysOutcome
  {
    if level != 0 then SysOutcome(s, [])
    else
      var lost := now - s.lastTimePwrLoss;
      if lost == s.lastLost then SysOutcome(s, [])
      else if lost < SleepAfter then SysOutcome(s.(lastLost := lost), [Countdown(SleepAfter - lost)])
      else SysOutcome(s.(lastTimePwrLoss := now, lastLost := lost), SleepSequence)
  }

  /** The power-loss half of a pass. */
  function PowerPhase(s: SysState, now: int, level: Level): SysOutcome
  {
    var e := PowerEdge(s, now, level);
    var l := PowerLost(e.next, now, level);
    SysOutcome(l.next, e.actions + l.actions)
  }

  /** Whether this pass logs the low battery. */
  predicate BattLogDue(s: SysState, now: int, level: Level)
  {
    level == 0 && level == s.lastLowBatt && now - s.lastTimeLowBatt >= LowBattLogPeriod
  }

  /** Whether this pass drives the shutdown pin. */
  predicate ShutdownDue(s: SysState, now: int, level: Level)
  {
    level == 0 && level == s.lastLowBatt && now - s.timeLowBatt >= ShutdownAfter
  }

  /** The low-battery half of a pass. */
  function BatteryPhase(s: SysState, now: int, level: Level): SysOutcome
  {
    var s1 := if level != s.lastLowBatt && level == 0 then s.(timeLowBatt := now, lastTimeLowBatt := now) else s;
    if level != 0 then SysOutcome(s1.(lastLowBatt := level), [])
    else
      var log := now - s1.lastTimeLowBatt >= LowBattLogPeriod;
      var s2 := if log then s1.(lastTimeLowBatt := now) else s1;
      SysOutcome(s2.(lastLowBatt := level),
                 (if log then [LowBattLog(now - s1.timeLowBatt)] else [])
                 + (if now - s1.timeLowBatt >= ShutdownAfter then [Delay(ShutdownDelayMs), Shutdown] else []))
  }

  /** The actions a received command causes. */
  function CommandActions(cmd: Option<int>): seq<SysAction>
  {
    if cmd.Some? then [LogCommand(cmd.value)] else []
  }

  /** Whether the actions include a low-battery log line. */
  predicate LogsLowBatt(actions: seq<SysAction>)
  {
    exists a :: a in actions && a.LowBattLog?
  }

  /** The state one pass of the loop leaves. */
  function StepNext(s: SysState, x: Sample): SysState
  {
    BatteryPhase(PowerPhase(Stamp(s, x.now), x.now, x.pwrLoss).next, x.now, x.lowBatt).next
  }

  /** One pass of the `while(1)` loop of `system_task`. */
  function Step(s: SysState, x: Sample): SysOutcome
  {
    var s0 := Stamp(s, x.now);
    var p := PowerPhase(s0, x.now, x.pwrLoss);
    var b := BatteryPhase(p.next, x.now, x.lowBatt);
    SysOutcome(StepNext(s, x), CommandActions(x.cmd) + p.actions + b.actions)
  }

  // ---------------------------------------------------------------------
  // Properties of one pass
  // ---------------------------------------------------------------------

  /**
   * POWER_LOSS is sent exactly when the pin changes to 0 and POWER_RESTORED
   * exactly when it changes to 1: a level that stays the same sends nothing.
   */
  lemma PowerEdgeEvents(s: SysState, x: Sample)
    ensures var r := Step(s, x);
      && (PostMain(EvtPowerLoss) in r.actions <==> x.pwrLoss != s.lastPwrLoss && x.pwrLoss == 0)
      && (PostMain(EvtPowerRestored) in r.actions <==> x.pwrLoss != s.lastPwrLoss && x.pwrLoss == 1)
      && r.next.lastPwrLoss == x.pwrLoss
  {
    var s0 := Stamp(s, x.now);
    var p := PowerPhase(s0, x.now, x.pwrLoss);
    var c := CommandActions(x.cmd);
    var b := BatteryPhase(p.next, x.now, x.lowBatt).actions;
    StepPowerLocals(s, x);
    PowerPhaseEvents(s0, x.now, x.pwrLoss);
    OthersPostNothing(x.cmd, p.next, x.now, x.lowBatt);
    assert forall a :: a in Step(s, x).actions <==> a in c || a in p.actions || a in b;
  }

  /** The power half sends POWER_LOSS and POWER_RESTORED on the edges alone. */
  lemma PowerPhaseEvents(s: SysState, now: int, level: Level)
    ensures var p := PowerPhase(s, now, level);
      && (PostMain(EvtPowerLoss) in p.actions <==> level != s.lastPwrLoss && level == 0)
      && (PostMain(EvtPowerRestored) in p.actions <==> level != s.lastPwrLoss && level == 1)
      && p.next.lastPwrLoss == level
  {
    var e := PowerEdge(s, now, level);
    var l := PowerLost(e.next, now, level);
    assert PostMain(EvtPowerLoss) !in l.actions && PostMain(EvtPowerRestored) !in l.actions;
    assert PowerPhase(s, now, level).actions == e.actions + l.actions;
  }

  /** The battery half and a received command post nothing to the main task. */
  lemma OthersPostNothing(cmd: Option<int>, t: SysState, now: int, level: Level)
    ensures forall a :: a in CommandActions(cmd) ==> !a.PostMain?
    ensures forall a :: a in BatteryPhase(t, now, level).actions ==> !a.PostMain?
  {
  }

  /** The board sleeps only while the power is lost, and only after 30 s or more. */
  lemma SleepOnlyWhenLost(s: SysState, x: Sample)
    requires LightSleep in Step(s, x).actions
    ensures x.pwrLoss == 0
    ensures var p := PowerEdge(Stamp(s, x.now), x.now, x.pwrLoss).next;
      x.now - p.lastTimePwrLoss >= SleepAfter && Step(s, x).next.lastTimePwrLoss == x.now
  {
    var s0 := Stamp(s, x.now);
    var e := PowerEdge(s0, x.now, x.pwrLoss);
    var l := PowerLost(e.next, x.now, x.pwrLoss);
    var b := BatteryPhase(l.next, x.now, x.lowBatt);
    assert Step(s, x).actions == CommandActions(x.cmd) + e.actions + l.actions + b.actions;
    assert LightSleep !in CommandActions(x.cmd) && LightSleep !in e.actions && LightSleep !in b.actions;
  }

  /**
   * With the power still lost, a pass whose elapsed time reached 30 s and
   * differs from the previous pass's sends SLEEPING, drops PWR_ENABLE,
   * sleeps, raises PWR_ENABLE and sends WAKING, in that order, and then
   * counts the loss from the time before the sleep.
   */
  lemma SleepOrder(s: SysState, now: int)
    requires s.lastPwrLoss == 0 && s.lastTimePwrLoss != 0
    requires now - s.lastTimePwrLoss >= SleepAfter && now - s.lastTimePwrLoss != s.lastLost
    ensures PowerPhase(s, now, 0)
            == SysOutcome(s.(lastTimePwrLoss := now, lastLost := now - s.lastTimePwrLoss), SleepSequence)
  {
  }

  /**
   * With the power still lost and less than 30 s elapsed, the countdown
   * `30 - lost` is shown when the elapsed time changed and nothing is
   * shown otherwise.
   */
  lemma CountdownOnChange(s: SysState, now: int)
    requires s.lastPwrLoss == 0 && s.lastTimePwrLoss != 0
    requires now - s.lastTimePwrLoss < SleepAfter
    ensures var lost := now - s.lastTimePwrLoss;
      PowerPhase(s, now, 0).actions == if lost == s.lastLost then [] else [Countdown(SleepAfter - lost)]
    ensures PowerPhase(s, now, 0).next == s.(lastLost := now - s.lastTimePwrLoss)
  {
  }

  /** The battery half and a received command neither sleep nor show a countdown. */
  lemma OtherActionsQuiet(cmd: Option<int>, t: SysState, now: int, level: Level)
    ensures forall a :: a in CommandActions(cmd) + BatteryPhase(t, now, level).actions ==> !a.LightSleep? && !a.Countdown?
  {
  }

  /**
   * The power half of a pass repeated at the same time, on a state whose
   * power locals are those the first one left.
   */
  lemma PowerRepeat(s0: SysState, now: int, level: Level, t: SysState)
    requires s0.lastTimePwrLoss != 0 || now == 0
    requires var p := PowerPhase(s0, now, level).next;
      t.lastPwrLoss == p.lastPwrLoss && t.lastTimePwrLoss == p.lastTimePwrLoss && t.lastLost == p.lastLost
    ensures var q := PowerPhase(Stamp(t, now), now, level).actions;
      q == if LightSleep in PowerPhase(s0, now, level).actions then [Countdown(SleepAfter)] else []
  {
    var e := PowerEdge(s0, now, level);
    assert e.next.lastTimePwrLoss != 0 || now == 0;
    var l := PowerLost(e.next, now, level);
    assert LightSleep !in e.actions;
    assert PowerPhase(s0, now, level).actions == e.actions + l.actions;
    if level == 0 && LightSleep in l.actions {
      assert Stamp(t, now).lastTimePwrLoss == now;
    }
  }

  /** A pass leaves the power locals as its power half left them. */
  lemma StepPowerLocals(s: SysState, x: Sample)
    ensures var p := PowerPhase(Stamp(s, x.now), x.now, x.pwrLoss);
      var r := Step(s, x);
      && r.actions == CommandActions(x.cmd) + p.actions + BatteryPhase(p.next, x.now, x.lowBatt).actions
      && r.next.lastPwrLoss == p.next.lastPwrLoss && r.next.lastTimePwrLoss == p.next.lastTimePwrLoss
      && r.next.lastLost == p.next.lastLost
  {
  }

  /**
   * A second pass at the same time shows no countdown and does not sleep,
   * unless the first one slept: then it restarts the countdown at 30.
   */
  lemma CountdownOncePerSecond(s: SysState, x: Sample, cmd: Option<int>, lowBatt: Level)
    ensures var r := Step(s, x);
      var r2 := Step(r.next, Sample(x.now, cmd, x.pwrLoss, lowBatt));
      && LightSleep !in r2.actions
      && (LightSleep in r.actions ==> Countdown(SleepAfter) in r2.actions)
      && (LightSleep !in r.actions ==> forall k :: Countdown(k) !in r2.actions)
  {
    var r := Step(s, x);
    var s0 := Stamp(s, x.now);
    var p := PowerPhase(s0, x.now, x.pwrLoss);
    StepPowerLocals(s, x);
    OtherActionsQuiet(x.cmd, p.next, x.now, x.lowBatt);
    var x2 := Sample(x.now, cmd, x.pwrLoss, lowBatt);
    var r2 := Step(r.next, x2);
    var p2 := PowerPhase(Stamp(r.next, x.now), x.now, x.pwrLoss);
    StepPowerLocals(r.next, x2);
    OtherActionsQuiet(cmd, p2.next, x.now, lowBatt);
    PowerRepeat(s0, x.now, x.pwrLoss, r.next);
    RepeatCore(r.actions, r2.actions, CommandActions(x.cmd), p.actions, BatteryPhase(p.next, x.now, x.lowBatt).actions,
               CommandActions(cmd), p2.actions, BatteryPhase(p2.next, x.now, lowBatt).actions);
  }

  /** The bookkeeping of `CountdownOncePerSecond`, on the actions alone. */
  lemma RepeatCore(r: seq<SysAction>, r2: seq<SysAction>, c: seq<SysAction>, p: seq<SysAction>, b: seq<SysAction>,
                   c2: seq<SysAction>, p2: seq<SysAction>, b2: seq<SysAction>)
    requires r == c + p + b && r2 == c2 + p2 + b2
    requires forall a :: a in c + b ==> !a.LightSleep? && !a.Countdown?
    requires forall a :: a in c2 + b2 ==> !a.LightSleep? && !a.Countdown?
    requires p2 == if LightSleep in p then [Countdown(SleepAfter)] else []
    ensures LightSleep !in r2
    ensures LightSleep in r ==> Countdown(SleepAfter) in r2
    ensures LightSleep !in r ==> forall k :: Countdown(k) !in r2
  {
    assert forall a :: a in r <==> a in c + b || a in p;
    assert forall a :: a in r2 <==> a in c2 + b2 || a in p2;
    assert LightSleep !in c + b;
  }

  /**
   * The low battery is logged exactly when the pin stays low and 10 s have
   * passed since the last log (or since it went low); the log then becomes
   * the reference.
   */
  lemma LowBattLogIff(s: SysState, x: Sample)
    ensures var s1 := PowerPhase(Stamp(s, x.now), x.now, x.pwrLoss).next;
      var r := Step(s, x);
      && (LogsLowBatt(r.actions) <==> BattLogDue(s1, x.now, x.lowBatt))
      && (BattLogDue(s1, x.now, x.lowBatt) ==> r.next.lastTimeLowBatt == x.now)
  {
    var p := PowerPhase(Stamp(s, x.now), x.now, x.pwrLoss);
    var b := BatteryPhase(p.next, x.now, x.lowBatt);
    var r := Step(s, x);
    StepPowerLocals(s, x);
    assert forall a :: a in CommandActions(x.cmd) + p.actions ==> !a.LowBattLog?;
    if BattLogDue(p.next, x.now, x.lowBatt) {
      assert LowBattLog(x.now - p.next.timeLowBatt) in r.actions;
    }
  }

  /**
   * The shutdown pin is driven exactly when the battery has stayed low for
   * 60 s, and then as the last two actions: a 5 ms delay, then the pin.
   */
  lemma ShutdownIff(s: SysState, x: Sample)
    ensures var s1 := PowerPhase(Stamp(s, x.now), x.now, x.pwrLoss).next;
      var r := Step(s, x);
      && (Shutdown in r.actions <==> ShutdownDue(s1, x.now, x.lowBatt))
      && (Shutdown in r.actions ==> |r.actions| >= 2 && r.actions[|r.actions| - 2..] == [Delay(ShutdownDelayMs), Shutdown])
  {
    var p := PowerPhase(Stamp(s, x.now), x.now, x.pwrLoss);
    var b := BatteryPhase(p.next, x.now, x.lowBatt);
    var r := Step(s, x);
    assert r.actions == CommandActions(x.cmd) + p.actions + b.actions;
    assert Shutdown !in CommandActions(x.cmd) + p.actions;
  }

  /** Once the shutdown pin is driven, every later pass drives it again while the battery stays low. */
  lemma ShutdownRepeats(s: SysState, x: Sample, y: Sample)
    requires Shutdown in Step(s, x).actions
    requires y.lowBatt == 0 && y.now >= x.now
    ensures Shutdown in Step(Step(s, x).next, y).actions
  {
    ShutdownIff(s, x);
    var r := Step(s, x);
    ShutdownIff(r.next, y);
    var p := PowerPhase(Stamp(s, x.now), x.now, x.pwrLoss);
    assert r.next.timeLowBatt == p.next.timeLowBatt && r.next.lastLowBatt == 0;
  }

  /** A received command changes nothing but adding its log line in front. */
  lemma CommandsOnlyLogged(s: SysState, x: Sample)
    ensures Step(s, x).next == Step(s, x.(cmd := None)).next
    ensures Step(s, x).actions == CommandActions(x.cmd) + Step(s, x.(cmd := None)).actions
  {
    var y := x.(cmd := None);
    var p := PowerPhase(Stamp(s, x.now), x.now, x.pwrLoss);
    var b := BatteryPhase(p.next, x.now, x.lowBatt).actions;
    StepPowerLocals(s, x);
    StepPowerLocals(s, y);
    assert y.now == x.now && y.pwrLoss == x.pwrLoss && y.lowBatt == x.lowBatt;
    assert CommandActions(y.cmd) + p.actions + b == p.actions + b;
    assert CommandActions(x.cmd) + p.actions + b == CommandActions(x.cmd) + (p.actions + b);
  }

  // ---------------------------------------------------------------------
  // Runs of the loop
  // ---------------------------------------------------------------------

  /** The state after the first `k` passes over the samples `xs`. */
  function StateAt(s: SysState, xs: seq<Sample>, k: nat): SysState
    requires k <= |xs|
  {
    if k == 0 then s else StepNext(StateAt(s, xs, k - 1), xs[k - 1])
  }

  /** The clock never goes back. */
  predicate Monotone(xs: seq<Sample>)
  {
    forall i, j :: 0 <= i < j < |xs| ==> xs[i].now <= xs[j].now
  }

  /** Whether pass `i` of the run logs the low battery. */
  predicate LoggedAt(s: SysState, xs: seq<Sample>, i: nat)
    requires i < |xs|
  {
    LogsLowBatt(Step(StateAt(s, xs, i), xs[i]).actions)
  }

  /** A pass keeps the low-battery log reference at or after any time it has not yet reached. */
  lemma ReferenceKept(t: SysState, x: Sample, bound: int)
    requires t.lastTimeLowBatt >= bound && x.now >= bound
    ensures Step(t, x).next.lastTimeLowBatt >= bound
  {
  }

  /** A pass that logs the low battery makes its own time the reference. */
  lemma LogSetsReference(t: SysState, x: Sample)
    requires LogsLowBatt(Step(t, x).actions)
    ensures Step(t, x).next.lastTimeLowBatt == x.now
  {
    LowBattLogIff(t, x);
  }

  /** After a log at pass `i`, the reference stays at or after that pass's time. */
  lemma ReferenceAfterLog(s: SysState, xs: seq<Sample>, i: nat, k: nat)
    requires Monotone(xs) && i < k <= |xs|
    requires LoggedAt(s, xs, i)
    ensures StateAt(s, xs, k).lastTimeLowBatt >= xs[i].now
  {
    LogSetsReference(StateAt(s, xs, i), xs[i]);
    StateAtNext(s, xs, i + 1);
    MonotoneFrom(xs, i);
    ReferenceStays(s, xs, i, k, xs[i].now);
  }

  /** From any pass on, the clock reads at least that pass's time. */
  lemma MonotoneFrom(xs: seq<Sample>, i: nat)
    requires Monotone(xs) && i < |xs|
    ensures forall j :: i <= j < |xs| ==> xs[j].now >= xs[i].now
  {
    forall j | i <= j < |xs|
      ensures xs[j].now >= xs[i].now
    {
      if i < j {
        assert xs[i].now <= xs[j].now;
      }
    }
  }

  /** A reference reached at pass `i + 1` is kept while the clock stays at or after it. */
  lemma {:induction false} ReferenceStays(s: SysState, xs: seq<Sample>, i: nat, k: nat, bound: int)
    requires i < k <= |xs|
    requires forall j :: i <= j < |xs| ==> xs[j].now >= bound
    requires StateAt(s, xs, i + 1).lastTimeLowBatt >= bound
    ensures StateAt(s, xs, k).lastTimeLowBatt >= bound
    decreases k
  {
    if k > i + 1 {
      ReferenceStays(s, xs, i, k - 1, bound);
      KeptAt(s, xs, k, bound);
    }
  }

  /** Pass `k - 1` keeps a reference its clock has reached. */
  lemma KeptAt(s: SysState, xs: seq<Sample>, k: nat, bound: int)
    requires 0 < k <= |xs|
    requires StateAt(s, xs, k - 1).lastTimeLowBatt >= bound && xs[k - 1].now >= bound
    ensures StateAt(s, xs, k).lastTimeLowBatt >= bound
  {
    ReferenceKept(StateAt(s, xs, k - 1), xs[k - 1], bound);
    StateAtNext(s, xs, k);
  }

  /** The state after `k` passes is the one pass `k - 1` leaves. */
  lemma StateAtNext(s: SysState, xs: seq<Sample>, k: nat)
    requires 0 < k <= |xs|
    ensures StateAt(s, xs, k) == Step(StateAt(s, xs, k - 1), xs[k - 1]).next
  {
  }

  /** With a clock that never goes back, two low-battery logs are at least 10 s apart. */
  lemma LogsTenSecondsApart(s: SysState, xs: seq<Sample>, i: nat, j: nat)
    requires Monotone(xs) && i < j < |xs|
    requires LoggedAt(s, xs, i) && LoggedAt(s, xs, j)
    ensures xs[j].now - xs[i].now >= LowBattLogPeriod
  {
    var t := StateAt(s, xs, j);
    ReferenceAfterLog(s, xs, i, j);
    LowBattLogIff(t, xs[j]);
    var s1 := PowerPhase(Stamp(t, xs[j].now), xs[j].now, xs[j].pwrLoss).next;
    assert s1.lastTimeLowBatt >= xs[i].now;
  }

  // ---------------------------------------------------------------------
  // The task
  // ---------------------------------------------------------------------

  /** The command a pass receives when the system queue holds `items`. */
  function Head(items: seq<int>): Option<int>
  {
    if items == [] then None else Some(items[0])
  }

  /** `system_task` with its queue and the locals of its loop. */
  class SystemSupervisor {
    const queue: Mailbox<int>
    var lastPwrLoss: Level
    var lastLowBatt: Level
    var timePwrLoss: int
    var timeLowBatt: int
    var lastTimePwrLoss: int
    var lastTimeLowBatt: int
    var lastLost: int

    function State(): SysState
      reads this
    {
      SysState(lastPwrLoss, lastLowBatt, timePwrLoss, timeLowBatt, lastTimePwrLoss, lastTimeLowBatt, lastLost)
    }

    ghost predicate Valid()
      reads this, queue
    {
      queue.Valid() && queue.capacity == SystemQueueDepth
    }

    /** `system_init`'s queue and the loop's initial locals. */
    constructor ()
      ensures Valid() && fresh(queue) && queue.items == [] && State() == SysBoot
    {
      queue := new Mailbox<int>(SystemQueueDepth);
      lastPwrLoss, lastLowBatt := 1, 1;
      timePwrLoss, timeLowBatt := 0, 0;
      lastTimePwrLoss, lastTimeLowBatt := 0, 0;
      lastLost := 0;
    }

    /** One pass of the loop, given the time and the two pin levels it samples. */
    method Iterate(now: int, pwrLoss: Level, lowBatt: Level) returns (actions: seq<SysAction>)
      requires Valid()
      modifies this, queue
      ensures Valid()
      ensures queue.items == if old(queue.items) == [] then [] else old(queue.items)[1..]
      ensures SysOutcome(State(), actions) == Step(old(State()), Sample(now, Head(old(queue.items)), pwrLoss, lowBatt))
    {
      if lastTimePwrLoss == 0 {
        lastTimePwrLoss := now;
      }
      if lastTimeLowBatt == 0 {
        lastTimeLowBatt := now;
      }
      actions := [];
      var m := queue.Receive();
      if m.Some? {
        actions := [LogCommand(m.value)];
      }
      var a1 := PowerEdgeStep(now, pwrLoss);
      var a2 := PowerLostStep(now, pwrLoss);
      var a3 := BatteryStep(now, lowBatt);
      actions := actions + (a1 + a2) + a3;
    }

    /** The edge test on the power-loss pin. */
    method PowerEdgeStep(now: int, level: Level) returns (actions: seq<SysAction>)
      modifies this
      ensures SysOutcome(State(), actions) == PowerEdge(old(State()), now, level)
    {
      actions := [];
      if level != lastPwrLoss {
        if level == 0 {
          actions := [PostMain(EvtPowerLoss)];
          timePwrLoss, lastTimePwrLoss := now, now;
        } else {
          actions := [PostMain(EvtPowerRestored)];
        }
        lastPwrLoss := level;
        lastLost := now;
      }
    }

    /** The countdown, or the sleep, while the power is lost. */
    method PowerLostStep(now: int, level: Level) returns (actions: seq<SysAction>)
      modifies this
      ensures SysOutcome(State(), actions) == PowerLost(old(State()), now, level)
    {
      actions := [];
      if level == 0 {
        var lost := now - lastTimePwrLoss;
        if lost != lastLost {
          if lost < SleepAfter {
            actions := [Countdown(SleepAfter - lost)];
          } else {
            actions := [PostMain(EvtSleeping), SdioPowerKept, WakeupPin(13, 0), WakeupPin(35, 1), GpioWakeup,
              PwrEnable(0), LightSleep, PwrEnable(1), PostMain(EvtWaking)];
            lastTimePwrLoss := now;
          }
        }
        lastLost := lost;
      }
    }

    /** The low-battery edge, the periodic log line and the shutdown. */
    method BatteryStep(now: int, level: Level) returns (actions: seq<SysAction>)
      modifies this
      ensures SysOutcome(State(), actions) == BatteryPhase(old(State()), now, level)
    {
      actions := [];
      if level != lastLowBatt && level == 0 {
        timeLowBatt, lastTimeLowBatt := now, now;
      }
      if level == 0 {
        var since := now - timeLowBatt;
        if now - lastTimeLowBatt >= LowBattLogPeriod {
          actions := [LowBattLog(since)];
          lastTimeLowBatt := now;
        }
        if since >= ShutdownAfter {
          actions := actions + [Delay(ShutdownDelayMs), Shutdown];
        }
      }
      lastLowBatt := level;
    }
  }
}
