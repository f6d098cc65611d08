/**
 * The door controller's main state machine (main_task.c).
 *
 * One iteration of the main loop is a total transition function `Step`:
 * it first applies the "immediate" flag updates for power and sleep events,
 * records the previous state, and then runs the state switch, producing the
 * commands the iteration issues to its collaborators (display, beeper,
 * door latch, network queue, one-shot timer) as a list of actions.
 * `MainLoop` is the task itself: its event queue and the state it keeps
 * between iterations.
 */
module MainTask {
  import opened Base
  import opened Events

  /** `main_state_t`. */
  datatype State =
    | StInvalid | StInit | StInitialLock | StWaitRead | StStartRfidRead | StWaitRfid
    | StRfidValid | StRfidInvalid | StUnlocked | StLock | StPowerLost | StSleepReady | StSleeping

  /** The card record `rfid_get_member_record` copies out. */
  datatype Member = Member(tag: uint32, name: string, allowed: bool)

  /** A call the main task makes into another component. */
  datatype Action =
    | Show(screen: Screen)
    | Beep(hz: nat, msec: nat, attack: nat, decay: nat)
    | DoorLock
    | DoorUnlock
    | QueueNet(cmd: NetCmd)
    | QueueAccess(name: string, allowed: bool)
    | QueueAccessError(err: string, ext: string)
    | ArmTimer(ms: nat)
    | AllowedMsg(msg: string, allowed: bool)

  /** The state kept between loop iterations. */
  datatype Controller = Controller(state: State, lastState: State, powerOk: bool, sleeping: bool)

  /** `state = STATE_INIT, last_state = STATE_INVALID, power_ok = true, sleeping = false`. */
  const Boot := Controller(StInit, StInvalid, true, false)

  datatype Outcome = Outcome(next: Controller, actions: seq<Action>)

  const MainQueueDepth := 8

  const SplashChime := [Beep(1108, 35, 1, 1), Beep(1244, 35, 1, 1), Beep(1864, 35, 1, 1)]
  const PreScanChime := [Beep(1864, 45, 1, 1), Beep(1244, 45, 1, 1), Beep(1108, 45, 1, 1), Beep(0, 150, 1, 1)]
  const AllowedChime := [Beep(880, 250, 5, 5), Beep(1174, 250, 5, 5)]
  const DeniedChime := [Beep(220, 250, 5, 5), Beep(0, 100, 0, 0), Beep(220, 250, 5, 5)]
  const UnknownChime := [Beep(3000, 250, 5, 5), Beep(0, 100, 0, 0), Beep(3000, 250, 5, 5)]
  const LockChime := [Beep(1174, 250, 5, 5), Beep(880, 250, 5, 5)]

  const UnknownTagMsg := "Unknown RFID"
  const UnknownTagErr := "unknown rfid tag"

  /** `snprintf(tagstr, 12, "%10.10u", tag)`. */
  /** The digits `"%10.10u"` prints. */
  const TagDigits: nat := 10

  function TagStr(tag: uint32): string
  {
    assert Pow10(TagDigits) == 10000000000;
    Snprintf(ZeroPadDec(tag as nat, TagDigits), 12)
  }

  /** The tag is reported as ten zero-padded decimal digits whose value is the tag. */
  lemma TagStrDigits(tag: uint32)
    ensures var r := TagStr(tag);
      |r| == 10 && (forall i :: 0 <= i < |r| ==> IsDigit(r[i])) && DecValue(r) == tag as int
  {
    assert Pow10(10) == 10000000000;
  }

  /** Two tags are reported with the same string only if they are the same tag. */
  lemma TagStrInjective(a: uint32, b: uint32)
    requires TagStr(a) == TagStr(b)
    ensures a == b
  {
    TagStrDigits(a);
    TagStrDigits(b);
  }

  lemma TagStrExample()
    ensures TagStr(42) == "0000000042"
  {
    assert Pow10(10) == 10000000000;
    assert ZeroPadDec(42, 10) == "0000000042";
  }

  /** The flag updates applied to every received event, whatever the state. */
  function Flags(c: Controller, e: MainEvt): Controller
  {
    match e
    case EvtPowerLoss => c.(powerOk := false)
    case EvtPowerRestored => c.(powerOk := true)
    case EvtSleeping => c.(sleeping := true)
    case EvtWaking => c.(sleeping := false)
    case _ => c
  }

  /** The state switch, run on controller `c` whose flags are already up to date. */
  function Transition(c: Controller, e: MainEvt, rec: Member): Outcome
  {
    match c.state
    case StInit =>
      Outcome(c.(state := StInitialLock), [Show(ScrSplash)] + SplashChime)
    case StInitialLock =>
      Outcome(c.(state := StWaitRead), [DoorLock, QueueNet(CmdConnect), ArmTimer(3000)])
    case StWaitRead =>
      if e == EvtTimerExpired then Outcome(c.(state := StStartRfidRead), []) else Outcome(c, [])
    case StStartRfidRead =>
      Outcome(c.(state := StWaitRfid), [Show(ScrIdle)])
    case StWaitRfid =>
      if !c.powerOk then Outcome(c.(state := StPowerLost), [ArmTimer(5000)])
      else if e == EvtRfidPreScan then Outcome(c, PreScanChime)
      else if e == EvtValidRfidScan then Outcome(c.(state := StRfidValid), [Show(ScrAccess)])
      else if e == EvtInvalidRfidScan then Outcome(c.(state := StRfidInvalid), [Show(ScrAccess)])
      else Outcome(c, [])
    case StRfidValid =>
      if rec.allowed then
        Outcome(c.(state := StUnlocked),
                [AllowedMsg(rec.name, true)] + AllowedChime + [DoorUnlock, ArmTimer(3000), QueueAccess(rec.name, true)])
      else
        Outcome(c.(state := StWaitRead),
                [AllowedMsg(rec.name, false)] + DeniedChime + [ArmTimer(10000), QueueAccess(rec.name, false)])
    case StRfidInvalid =>
      Outcome(c.(state := StWaitRead),
              [AllowedMsg(UnknownTagMsg, false)] + UnknownChime
              + [QueueAccessError(UnknownTagErr, TagStr(rec.tag)), ArmTimer(8000)])
    case StUnlocked =>
      if e == EvtTimerExpired then Outcome(c.(state := StLock), []) else Outcome(c, [])
    case StLock =>
      Outcome(c.(state := StWaitRead), LockChime + [DoorLock, ArmTimer(10000)])
    case StPowerLost =>
      if e != EvtTimerExpired then Outcome(c, [])
      else if c.powerOk then Outcome(c.(state := StStartRfidRead), [])
      else Outcome(c.(state := StSleepReady), [Show(ScrSleep), QueueNet(CmdDisconnect)])
    case StSleepReady =>
      if c.powerOk then Outcome(c.(state := StStartRfidRead), [Show(ScrIdle), QueueNet(CmdConnect)])
      else if c.sleeping then Outcome(c.(state := StSleeping), [])
      else Outcome(c, [])
    case StSleeping =>
      if !c.sleeping then Outcome(c.(state := StSleepReady), []) else Outcome(c, [])
    case StInvalid =>
      Outcome(c, [])
  }

  /**
   * One iteration of the main loop on event `e` (`EvtNone` when the receive
   * timed out); `rec` is what the card reader would hand back if asked.
   */
  function Step(c: Controller, e: MainEvt, rec: Member): Outcome
  {
    Transition(Flags(c, e).(lastState := c.state), e, rec)
  }

  // ---------------------------------------------------------------------
  // Properties of one iteration
  // ---------------------------------------------------------------------

  /**
   * Power and sleep events update the flags in every state, the state switch
   * never touches them, and the previous state is always recorded.
   */
  lemma StepFlags(c: Controller, e: MainEvt, rec: Member)
    ensures Step(c, e, rec).next.powerOk ==
            (if e == EvtPowerLoss then false else if e == EvtPowerRestored then true else c.powerOk)
    ensures Step(c, e, rec).next.sleeping ==
            (if e == EvtSleeping then true else if e == EvtWaking then false else c.sleeping)
    ensures Step(c, e, rec).next.lastState == c.state
  {
    TransitionKeepsFlags(Flags(c, e).(lastState := c.state), e, rec);
  }

  lemma TransitionKeepsFlags(c: Controller, e: MainEvt, rec: Member)
    ensures var n := Transition(c, e, rec).next;
      n.powerOk == c.powerOk && n.sleeping == c.sleeping && n.lastState == c.lastState
  {
  }

  /** The successor of the states that advance whatever event arrived. */
  function Unconditional(s: State): State
  {
    match s
    case StInit => StInitialLock
    case StInitialLock => StWaitRead
    case StStartRfidRead => StWaitRfid
    case StLock => StWaitRead
    case _ => s
  }

  /** INIT, INITIAL_LOCK, START_RFID_READ and LOCK advance on every iteration, event or none. */
  lemma UnconditionalAdvance(c: Controller, e: MainEvt, e2: MainEvt, rec: Member, rec2: Member)
    requires c.state in {StInit, StInitialLock, StStartRfidRead, StLock}
    ensures Step(c, e, rec).next.state == Unconditional(c.state) != c.state
    ensures Step(c, e, rec).actions == Step(c, e2, rec2).actions
  {
  }

  /** WAIT_READ and UNLOCKED leave only on a timer expiry, and issue nothing. */
  lemma TimerGated(c: Controller, e: MainEvt, rec: Member)
    requires c.state in {StWaitRead, StUnlocked}
    ensures Step(c, e, rec).actions == []
    ensures Step(c, e, rec).next.state ==
            (if e != EvtTimerExpired then c.state
             else if c.state == StWaitRead then StStartRfidRead else StLock)
  {
  }

  /**
   * While waiting for a card, lost power wins over everything, a scan included:
   * the scan is dropped and the power-lost grace timer (5 s) is armed.
   */
  lemma WaitRfidPowerFirst(c: Controller, e: MainEvt, rec: Member)
    requires c.state == StWaitRfid
    requires !Flags(c, e).powerOk
    ensures Step(c, e, rec).next.state == StPowerLost
    ensures Step(c, e, rec).actions == [ArmTimer(5000)]
  {
  }

  /** While waiting for a card with power present, each reader event has its own effect. */
  lemma WaitRfidScans(c: Controller, e: MainEvt, rec: Member)
    requires c.state == StWaitRfid && c.powerOk
    ensures var o := Step(c, e, rec);
      match e
      case EvtPowerLoss => o.next.state == StPowerLost && o.actions == [ArmTimer(5000)]
      case EvtRfidPreScan => o.next.state == StWaitRfid && o.actions == PreScanChime
      case EvtValidRfidScan => o.next.state == StRfidValid && o.actions == [Show(ScrAccess)]
      case EvtInvalidRfidScan => o.next.state == StRfidInvalid && o.actions == [Show(ScrAccess)]
      case _ => o.next.state == StWaitRfid && o.actions == []
  {
  }

  /** The latch is released exactly when a granted member record is being served. */
  lemma UnlockOnlyOnGrant(c: Controller, e: MainEvt, rec: Member)
    ensures DoorUnlock in Step(c, e, rec).actions <==> (c.state == StRfidValid && rec.allowed)
  {
    var o := Step(c, e, rec);
    if c.state == StRfidValid && !rec.allowed {
      assert o.actions == [AllowedMsg(rec.name, false)] + DeniedChime + [ArmTimer(10000), QueueAccess(rec.name, false)];
    }
  }

  /**
   * A valid scan: both outcomes show the member's verdict and report the
   * access attempt, as the last command, with the member's name and verdict;
   * a grant unlocks and arms the 3 s relock timer, a denial arms the 10 s
   * lockout and returns to WAIT_READ.
   */
  lemma ValidScanOutcome(c: Controller, e: MainEvt, rec: Member)
    requires c.state == StRfidValid
    ensures var o := Step(c, e, rec);
      && o.actions[0] == AllowedMsg(rec.name, rec.allowed)
      && o.actions[|o.actions| - 1] == QueueAccess(rec.name, rec.allowed)
      && (rec.allowed ==> o.next.state == StUnlocked && ArmTimer(3000) in o.actions)
      && (!rec.allowed ==> o.next.state == StWaitRead && ArmTimer(10000) in o.actions)
  {
    var o := Step(c, e, rec);
    if rec.allowed {
      assert o.actions[|o.actions| - 2] == ArmTimer(3000);
    } else {
      assert o.actions[|o.actions| - 2] == ArmTimer(10000);
    }
  }

  /**
   * An unknown card: the display says so, the denial chime plays, the
   * network task is asked to report the tag as ten decimal digits, and the
   * 8 s lockout is armed.  Nothing is unlocked.
   */
  lemma InvalidScanOutcome(c: Controller, e: MainEvt, rec: Member)
    requires c.state == StRfidInvalid
    ensures var o := Step(c, e, rec);
      && o.next.state == StWaitRead
      && o.actions[0] == AllowedMsg(UnknownTagMsg, false)
      && QueueAccessError(UnknownTagErr, TagStr(rec.tag)) in o.actions
      && ArmTimer(8000) in o.actions
      && DoorUnlock !in o.actions
  {
    var o := Step(c, e, rec);
    assert o.actions[4] == QueueAccessError(UnknownTagErr, TagStr(rec.tag));
    assert o.actions[5] == ArmTimer(8000);
  }

  /** The power-loss path: grace period, sleep screen and disconnect, sleep, and resume. */
  lemma SleepPath(c: Controller, e: MainEvt, rec: Member)
    ensures var c1, o := Flags(c, e), Step(c, e, rec);
      && (c.state == StPowerLost && e == EvtTimerExpired && c1.powerOk ==>
            o.next.state == StStartRfidRead && o.actions == [])
      && (c.state == StPowerLost && e == EvtTimerExpired && !c1.powerOk ==>
            o.next.state == StSleepReady && o.actions == [Show(ScrSleep), QueueNet(CmdDisconnect)])
      && (c.state == StPowerLost && e != EvtTimerExpired ==> o.next.state == StPowerLost)
      && (c.state == StSleepReady && c1.powerOk ==>
            o.next.state == StStartRfidRead && o.actions == [Show(ScrIdle), QueueNet(CmdConnect)])
      && (c.state == StSleepReady && !c1.powerOk ==>
            o.next.state == (if c1.sleeping then StSleeping else StSleepReady) && o.actions == [])
      && (c.state == StSleeping ==>
            o.next.state == (if c1.sleeping then StSleeping else StSleepReady) && o.actions == [])
  {
  }

  // ---------------------------------------------------------------------
  // Door safety over whole runs
  // ---------------------------------------------------------------------

  /** One received event (or `EvtNone`) and the card record available then. */
  datatype Input = Input(evt: MainEvt, rec: Member)

  /** The loop run over a sequence of inputs, collecting every action issued. */
  function Run(c: Controller, xs: seq<Input>): Outcome
    decreases |xs|
  {
    if xs == [] then Outcome(c, [])
    else
      var o := Run(c, xs[..|xs| - 1]);
      var x := xs[|xs| - 1];
      var o2 := Step(o.next, x.evt, x.rec);
      Outcome(o2.next, o.actions + o2.actions)
  }

  /** The latch position as the door commands have left it. */
  datatype Latch = LatchUnknown | LatchLocked | LatchUnlocked

  function Apply(l: Latch, a: Action): Latch
  {
    match a
    case DoorLock => LatchLocked
    case DoorUnlock => LatchUnlocked
    case _ => l
  }

  function LatchAfter(l: Latch, acts: seq<Action>): Latch
    decreases |acts|
  {
    if acts == [] then l else Apply(LatchAfter(l, acts[..|acts| - 1]), acts[|acts| - 1])
  }

  lemma {:induction false} LatchAfterAppend(l: Latch, a: seq<Action>, b: seq<Action>)
    ensures LatchAfter(l, a + b) == LatchAfter(LatchAfter(l, a), b)
    decreases |b|
  {
    if b == [] {
      assert a + b == a;
    } else {
      assert (a + b)[..|a + b| - 1] == a + b[..|b| - 1];
      assert (a + b)[|a + b| - 1] == b[|b| - 1];
      LatchAfterAppend(l, a, b[..|b| - 1]);
    }
  }

  /**
   * Where the latch must be in each state: unknown before the initial lock,
   * unlocked in UNLOCKED and LOCK, locked otherwise; the invalid state has
   * no safe position.
   */
  function LatchFor(s: State): Option<Latch>
  {
    match s
    case StInvalid => None
    case StInit => Some(LatchUnknown)
    case StInitialLock => Some(LatchUnknown)
    case StUnlocked => Some(LatchUnlocked)
    case StLock => Some(LatchUnlocked)
    case _ => Some(LatchLocked)
  }

  /** The door-safety invariant: the latch is where the state needs it. */
  ghost predicate DoorSafe(c: Controller, l: Latch)
  {
    LatchFor(c.state) == Some(l)
  }

  /** A door command followed only by other commands decides the latch. */
  lemma LatchDecidedBy(l: Latch, pre: seq<Action>, d: Action, post: seq<Action>)
    requires DoorUnlock !in post && DoorLock !in post
    ensures LatchAfter(l, pre + [d] + post) == Apply(LatchAfter(l, pre), d)
  {
    LatchAfterAppend(l, pre + [d], post);
    LatchUntouched(LatchAfter(l, pre + [d]), post);
    assert (pre + [d])[..|pre + [d]| - 1] == pre;
  }

  /** How one iteration moves the latch: only INITIAL_LOCK, LOCK and a grant touch it. */
  lemma TransitionLatch(c: Controller, e: MainEvt, rec: Member, l: Latch)
    ensures LatchAfter(l, Transition(c, e, rec).actions) ==
            match c.state
            case StInitialLock => LatchLocked
            case StLock => LatchLocked
            case StRfidValid => if rec.allowed then LatchUnlocked else l
            case _ => l
  {
    var acts := Transition(c, e, rec).actions;
    if c.state == StInitialLock {
      assert acts == [] + [DoorLock] + [QueueNet(CmdConnect), ArmTimer(3000)];
      LatchDecidedBy(l, [], DoorLock, [QueueNet(CmdConnect), ArmTimer(3000)]);
    } else if c.state == StLock {
      assert acts == LockChime + [DoorLock] + [ArmTimer(10000)];
      LatchDecidedBy(l, LockChime, DoorLock, [ArmTimer(10000)]);
    } else if c.state == StRfidValid && rec.allowed {
      assert acts == [AllowedMsg(rec.name, true)] + AllowedChime + [DoorUnlock]
                     + [ArmTimer(3000), QueueAccess(rec.name, true)];
      LatchDecidedBy(l, [AllowedMsg(rec.name, true)] + AllowedChime, DoorUnlock,
                     [ArmTimer(3000), QueueAccess(rec.name, true)]);
    } else {
      NoDoorCommand(c, e, rec);
      LatchUntouched(l, acts);
    }
  }

  /** Every other iteration issues no door command. */
  lemma NoDoorCommand(c: Controller, e: MainEvt, rec: Member)
    requires c.state !in {StInitialLock, StLock} && !(c.state == StRfidValid && rec.allowed)
    ensures DoorUnlock !in Transition(c, e, rec).actions && DoorLock !in Transition(c, e, rec).actions
  {
  }

  lemma StepDoorSafe(c: Controller, l: Latch, e: MainEvt, rec: Member)
    requires DoorSafe(c, l)
    ensures DoorSafe(Step(c, e, rec).next, LatchAfter(l, Step(c, e, rec).actions))
  {
    var c1 := Flags(c, e).(lastState := c.state);
    TransitionLatch(c1, e, rec, l);
    TransitionLatchFor(c1, e, rec);
  }

  /**
   * How a transition moves the position its state needs: INITIAL_LOCK and
   * LOCK lead to locked states, a grant to an unlocked one, and every other
   * transition stays among the states needing the same position.
   */
  lemma TransitionLatchFor(c: Controller, e: MainEvt, rec: Member)
    ensures LatchFor(Transition(c, e, rec).next.state) ==
            match c.state
            case StInitialLock => Some(LatchLocked)
            case StLock => Some(LatchLocked)
            case StRfidValid => Some(if rec.allowed then LatchUnlocked else LatchLocked)
            case _ => LatchFor(c.state)
  {
  }

  lemma {:induction false} LatchUntouched(l: Latch, acts: seq<Action>)
    requires DoorUnlock !in acts && DoorLock !in acts
    ensures LatchAfter(l, acts) == l
    decreases |acts|
  {
    if acts != [] {
      LatchUntouched(l, acts[..|acts| - 1]);
    }
  }

  /** Every run from power-on keeps the door-safety invariant. */
  lemma {:induction false} RunDoorSafe(xs: seq<Input>)
    ensures DoorSafe(Run(Boot, xs).next, LatchAfter(LatchUnknown, Run(Boot, xs).actions))
    decreases |xs|
  {
    if xs != [] {
      var o := Run(Boot, xs[..|xs| - 1]);
      var x := xs[|xs| - 1];
      RunDoorSafe(xs[..|xs| - 1]);
      StepDoorSafe(o.next, LatchAfter(LatchUnknown, o.actions), x.evt, x.rec);
      LatchAfterAppend(LatchUnknown, o.actions, Step(o.next, x.evt, x.rec).actions);
    }
  }

  /**
   * After any sequence of events from power-on, the latch is open only in
   * UNLOCKED or LOCK: every unlock is followed by a relock before the task can
   * again wait for a card, and the invalid state is never reached.
   */
  lemma ReachedLatch(xs: seq<Input>)
    ensures var o := Run(Boot, xs);
      && o.next.state != StInvalid
      && (LatchAfter(LatchUnknown, o.actions) == LatchUnlocked <==> o.next.state in {StUnlocked, StLock})
  {
    RunDoorSafe(xs);
  }

  // ---------------------------------------------------------------------
  // The task: its queue and its loop
  // ---------------------------------------------------------------------

  /** The event the loop acts on when its queue holds `items`. */
  function Received(items: seq<MainEvt>): MainEvt
  {
    if items == [] then EvtNone else items[0]
  }

  class MainLoop {
    var ctl: Controller
    const queue: Mailbox<MainEvt>

    ghost predicate Valid()
      reads this, queue
    {
      queue.Valid() && queue.capacity == MainQueueDepth
    }

    /** `main_task_init` and the task's initial statics and locals. */
    constructor ()
      ensures Valid() && fresh(queue) && ctl == Boot && queue.items == []
    {
      ctl := Boot;
      queue := new Mailbox<MainEvt>(MainQueueDepth);
    }

    /** `main_task_event`: queue an event at the back; false when the queue is full. */
    method PostEvent(e: MainEvt) returns (ok: bool)
      requires Valid()
      modifies queue
      ensures Valid()
      ensures ok == (|old(queue.items)| < MainQueueDepth)
      ensures queue.items == Offered(old(queue.items), MainQueueDepth, e)
    {
      ok := queue.Send(e);
    }

    /** `main_task_timer_cb`: the one-shot timer posts a timer expiry. */
    method TimerCallback()
      requires Valid()
      modifies queue
      ensures Valid()
      ensures queue.items == Offered(old(queue.items), MainQueueDepth, EvtTimerExpired)
    {
      var _ := queue.Send(EvtTimerExpired);
    }

    /** One pass of the `while(1)` loop of `main_task`. */
    method Iterate(rec: Member) returns (actions: seq<Action>)
      requires Valid()
      modifies this, queue
      ensures Valid()
      ensures queue.items == if old(queue.items) == [] then [] else old(queue.items)[1..]
      ensures Step(old(ctl), Received(old(queue.items)), rec) == Outcome(ctl, actions)
    {
      var evt := EvtNone;
      var m := queue.Receive();
      var powerOk, sleeping := ctl.powerOk, ctl.sleeping;
      if m.Some? {
        evt := m.value;
        match evt {
          case EvtPowerLoss => powerOk := false;
          case EvtPowerRestored => powerOk := true;
          case EvtSleeping => sleeping := true;
          case EvtWaking => sleeping := false;
          case _ =>
        }
      }
      var c := Controller(ctl.state, ctl.state, powerOk, sleeping);
      assert evt == Received(old(queue.items));
      assert c == Flags(ctl, evt).(lastState := ctl.state);
      var o := Transition(c, evt, rec);
      ctl, actions := o.next, o.actions;
    }
  }
}
