/**
 * The beeper (ui/beep_task.c).
 *
 * A beep is a table of tones ending in an `HZ_END` entry.  `beep_queue`
 * posts a table to a queue of depth 16; the beep task takes one table at a
 * time and plays its tones in order up to the terminator, each as start
 * (with a fade-in above 100 Hz), wait, fade-out, wait.  The LEDC calls and
 * delays are the actions it returns.
 */
module BeepTask {
  import opened Base

  const BeepQueueDepth := 16
  /**
   * The terminator's frequency.  `beep_task.h`, which defines it, is not
   * part of this model; any value no table uses as a frequency behaves
   * the same.
   */
  const HzEnd := -1
  /** The LEDC timer's frequency before the first tone. */
  const InitialHz := 1000
  /** The duty a tone fades in to. */
  const FullDuty := 900
  /** Tones at or below this frequency start without a fade-in. */
  const FadeThresholdHz := 100

  /** One `beep_t` entry: frequency, duration, fade-in and fade-out times in milliseconds. */
  datatype Beep = Beep(hz: int, msec: nat, attack: nat, decay: nat)

  /** The LEDC and delay calls of playback. */
  datatype BeepAction =
    | SetFreq(hz: int)               // ledc_timer_config with freq_hz = hz
    | Fade(duty: nat, ms: nat)       // ledc_set_fade_with_time + ledc_fade_start
    | Wait(ms: nat)                  // beep_delay

  const EndEntry := Beep(HzEnd, 0, 0, 0)

  const DoorOpen := [Beep(2216, 75, 1, 1), Beep(0, 50, 1, 1), Beep(1108, 75, 1, 1), EndEntry]
  const DoorClosed := [Beep(1108, 75, 1, 1), Beep(0, 50, 1, 1), Beep(2216, 75, 1, 1), EndEntry]
  const ButtonPress := [Beep(2488, 75, 1, 1), EndEntry]
  const Init := [Beep(1108, 35, 1, 1), Beep(1244, 35, 1, 1), Beep(1864, 35, 1, 1), EndEntry]
  const PreScan := [Beep(1864, 45, 1, 1), Beep(1244, 45, 1, 1), Beep(1108, 35, 1, 1), Beep(0, 150, 1, 1), EndEntry]
  const Allowed := [Beep(880, 250, 1, 1), Beep(1174, 250, 1, 1), EndEntry]
  const Denied := [Beep(220, 250, 5, 5), Beep(0, 100, 0, 0), Beep(220, 250, 5, 5), EndEntry]
  const Invalid := [Beep(3000, 250, 5, 5), Beep(0, 100, 0, 0), Beep(3000, 250, 5, 5), EndEntry]
  const Lock := [Beep(1174, 250, 5, 5), Beep(880, 250, 5, 5), EndEntry]

  const Tables := [DoorOpen, DoorClosed, ButtonPress, Init, PreScan, Allowed, Denied, Invalid, Lock]

  /** A table the loop can walk: it holds a terminator. */
  predicate Terminated(bs: seq<Beep>)
  {
    exists i :: 0 <= i < |bs| && bs[i].hz == HzEnd
  }

  /** A table whose only terminator is its last entry. */
  predicate EndsOnce(bs: seq<Beep>)
  {
    bs != [] && bs[|bs| - 1].hz == HzEnd && forall i :: 0 <= i < |bs| - 1 ==> bs[i].hz != HzEnd
  }

  /** The entries before the first terminator: the ones that are played. */
  function Played(bs: seq<Beep>): (r: seq<Beep>)
    ensures r <= bs && forall i :: 0 <= i < |r| ==> r[i].hz != HzEnd
    ensures |r| < |bs| ==> bs[|r|].hz == HzEnd
  {
    if bs == [] || bs[0].hz == HzEnd then [] else [bs[0]] + Played(bs[1..])
  }

  /** `beep_start(hz, attack)`: the frequency is always set, the fade-in only above 100 Hz. */
  function Start(hz: int, attack: nat): seq<BeepAction>
  {
    [SetFreq(hz)] + if hz > FadeThresholdHz then [Fade(FullDuty, attack)] else []
  }

  /** The four steps of one tone. */
  function ToneActions(b: Beep): seq<BeepAction>
  {
    Start(b.hz, b.attack) + [Wait(b.msec + b.attack), Fade(0, b.decay), Wait(b.decay)]
  }

  /** The calls playing `bs` in order make. */
  function Playback(bs: seq<Beep>): seq<BeepAction>
  {
    if bs == [] then [] else Playback(bs[..|bs| - 1]) + ToneActions(bs[|bs| - 1])
  }

  /** The milliseconds the actions wait. */
  function TotalWait(acts: seq<BeepAction>): nat
  {
    if acts == [] then 0 else (if acts[0].Wait? then acts[0].ms else 0) + TotalWait(acts[1..])
  }

  /** The sum of each tone's duration, fade-in and fade-out. */
  function Duration(bs: seq<Beep>): nat
  {
    if bs == [] then 0 else Duration(bs[..|bs| - 1]) + bs[|bs| - 1].msec + bs[|bs| - 1].attack + bs[|bs| - 1].decay
  }

  // ---------------------------------------------------------------------
  // Properties
  // ---------------------------------------------------------------------

  /** Every predefined table ends with its only terminator. */
  lemma TablesEndOnce()
    ensures forall i :: 0 <= i < |Tables| ==> EndsOnce(Tables[i])
  {
  }

  /** A table that ends once is played whole but for its terminator. */
  lemma {:induction false} PlaysAllButEnd(bs: seq<Beep>)
    requires EndsOnce(bs)
    ensures Played(bs) == bs[..|bs| - 1]
  {
    var r := Played(bs);
    if |r| < |bs| - 1 {
      assert false;
    }
  }

  /** Playback stops at the first terminator, whatever follows it. */
  lemma {:induction false} StopsAtFirstEnd(xs: seq<Beep>, ys: seq<Beep>, e: Beep)
    requires forall i :: 0 <= i < |xs| ==> xs[i].hz != HzEnd
    requires e.hz == HzEnd
    ensures Played(xs + [e] + ys) == xs
  {
    if xs != [] {
      assert (xs + [e] + ys)[1..] == xs[1..] + [e] + ys;
      StopsAtFirstEnd(xs[1..], ys, e);
    } else {
      assert (xs + [e] + ys)[0] == e;
    }
  }

  lemma {:induction false} TotalWaitAppend(a: seq<BeepAction>, b: seq<BeepAction>)
    ensures TotalWait(a + b) == TotalWait(a) + TotalWait(b)
  {
    if a != [] {
      assert (a + b)[1..] == a[1..] + b;
      TotalWaitAppend(a[1..], b);
    } else {
      assert a + b == b;
    }
  }

  /** One tone waits its duration plus its fade-in, then its fade-out. */
  lemma ToneWait(b: Beep)
    ensures TotalWait(ToneActions(b)) == b.msec + b.attack + b.decay
  {
    var s := Start(b.hz, b.attack);
    var t := [Wait(b.msec + b.attack), Fade(0, b.decay), Wait(b.decay)];
    assert TotalWait(s) == 0 by {
      if b.hz > FadeThresholdHz {
        assert s == [SetFreq(b.hz), Fade(FullDuty, b.attack)];
        assert s[1..] == [Fade(FullDuty, b.attack)];
        assert TotalWait(s[1..]) == 0 by { assert s[1..][1..] == []; }
      } else {
        assert s == [SetFreq(b.hz)];
        assert s[1..] == [];
      }
    }
    assert TotalWait(t[1..]) == b.decay by {
      assert t[1..] == [Fade(0, b.decay), Wait(b.decay)];
      assert t[1..][1..] == [Wait(b.decay)];
      assert t[1..][1..][1..] == [];
    }
    TotalWaitAppend(s, t);
  }

  /** Playing a table takes the sum of its tones' durations, fade-ins and fade-outs. */
  lemma {:induction false} PlaybackWait(bs: seq<Beep>)
    ensures TotalWait(Playback(bs)) == Duration(bs)
    decreases |bs|
  {
    if bs != [] {
      PlaybackWait(bs[..|bs| - 1]);
      TotalWaitAppend(Playback(bs[..|bs| - 1]), ToneActions(bs[|bs| - 1]));
      ToneWait(bs[|bs| - 1]);
    }
  }

  /** The door-open chirp lasts 206 ms. */
  lemma DoorOpenDuration()
    ensures TotalWait(Playback(Played(DoorOpen))) == 206
  {
    PlaysAllButEnd(DoorOpen);
    var p := DoorOpen[..3];
    PlaybackWait(p);
    assert p[..2] == DoorOpen[..2];
    assert p[..2][..1] == DoorOpen[..1];
    assert DoorOpen[..1][..0] == [];
    assert Duration(DoorOpen[..1]) == 77;
    assert Duration(DoorOpen[..2]) == 129;
  }

  /** A fade-in is issued exactly for tones above 100 Hz; every tone fades out to 0. */
  lemma FadeInAbove100(b: Beep)
    ensures Fade(FullDuty, b.attack) in ToneActions(b) <==> b.hz > FadeThresholdHz
    ensures ToneActions(b)[0] == SetFreq(b.hz)
    ensures Fade(0, b.decay) in ToneActions(b)
  {
    var t := ToneActions(b);
    if b.hz <= FadeThresholdHz {
      assert t == [SetFreq(b.hz), Wait(b.msec + b.attack), Fade(0, b.decay), Wait(b.decay)];
    }
  }

  // ---------------------------------------------------------------------
  // The task
  // ---------------------------------------------------------------------

  /** The beeper's queue and the LEDC timer's frequency. */
  class Beeper {
    const queue: Mailbox<seq<Beep>>
    var freqHz: int

    ghost predicate Valid()
      reads this, queue
    {
      queue.Valid() && queue.capacity == BeepQueueDepth
    }

    /** `beep_init`. */
    constructor ()
      ensures Valid() && fresh(queue) && queue.items == [] && freqHz == InitialHz
    {
      queue := new Mailbox<seq<Beep>>(BeepQueueDepth);
      freqHz := InitialHz;
    }

    /** `beep_queue(beeps)`: true when the table was queued. */
    method Queue(beeps: seq<Beep>) returns (ok: bool)
      requires Valid()
      modifies queue
      ensures Valid()
      ensures ok == (|old(queue.items)| < BeepQueueDepth)
      ensures queue.items == Offered(old(queue.items), BeepQueueDepth, beeps)
    {
      ok := queue.Send(beeps);
    }

    /** The playback loop of `beep_task` over one table. */
    method Play(beeps: seq<Beep>) returns (actions: seq<BeepAction>)
      requires Terminated(beeps)
      modifies this`freqHz
      ensures actions == Playback(Played(beeps))
      ensures freqHz == if Played(beeps) == [] then old(freqHz) else Played(beeps)[|Played(beeps)| - 1].hz
    {
      assert |Played(beeps)| < |beeps|;
      var i := 0;
      actions := [];
      while beeps[i].hz != HzEnd
        invariant 0 <= i < |beeps| && i <= |Played(beeps)|
        invariant Played(beeps)[..i] == beeps[..i]
        invariant actions == Playback(beeps[..i])
        invariant freqHz == if i == 0 then old(freqHz) else beeps[i - 1].hz
        decreases |Played(beeps)| - i
      {
        var b := beeps[i];
        freqHz := b.hz;
        actions := actions + [SetFreq(b.hz)];
        if b.hz > FadeThresholdHz {
          actions := actions + [Fade(FullDuty, b.attack)];
        }
        actions := actions + [Wait(b.msec + b.attack), Fade(0, b.decay), Wait(b.decay)];
        assert beeps[..i + 1][..i] == beeps[..i];
        assert i < |Played(beeps)|;
        i := i + 1;
      }
      assert i == |Played(beeps)|;
      assert Played(beeps) == beeps[..i];
    }

    /** One pass of `beep_task`: the next queued table, if any, played. */
    method Iterate() returns (actions: seq<BeepAction>)
      requires Valid()
      requires forall k :: 0 <= k < |queue.items| ==> Terminated(queue.items[k])
      modifies this, queue
      ensures Valid()
      ensures queue.items == if old(queue.items) == [] then [] else old(queue.items)[1..]
      ensures actions == if old(queue.items) == [] then [] else Playback(Played(old(queue.items)[0]))
    {
      var m := queue.Receive();
      actions := [];
      if m.Some? {
        actions := Play(m.value);
      }
    }
  }
}
