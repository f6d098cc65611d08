/**
 * The idle screen's animation and status state (ui/ui_idle.c).
 *
 * A 100 ms LVGL timer runs `anim_timer_cb`, which sweeps a counter between
 * 0 and 15 and derives from it the opacity of the ACL, MQTT, Wi-Fi and power
 * labels; after MQTT traffic it blinks the MQTT label 16 ticks and then sets
 * the status back to "connected".  The setters record the latest status
 * of each subsystem, and the RSSI setter picks one of five signal icons.
 */
module UiIdle {
  import opened Base
  import opened Events

  /** The counter sweeps between these bounds. */
  const CountMax := 15
  /** Ticks the MQTT label blinks after traffic. */
  const BlinkTicks := 16

  /** The timer context and the recorded statuses the callback reads. */
  datatype Anim = Anim(count: int, countDir: bool, mqttBlink: int,
                       acl: AclStatus, mqtt: MqttStatus, wifi: WifiStatus, power: PowerStatus)

  /** `my_tim_ctx` and the statuses as the file initialises them. */
  const AnimBoot := Anim(0, true, 0, AclInit, MqttInit, WifiInit, PowerOnExt)

  /** The opacities one tick gives the ACL, MQTT, Wi-Fi and power labels. */
  datatype Opacities = Opacities(acl: int, mqtt: int, wifi: int, power: int)

  /** The counter stays in range and turns at its ends. */
  predicate Sweeping(a: Anim)
  {
    && 0 <= a.count <= CountMax
    && (a.count == CountMax ==> !a.countDir)
    && (a.count == 0 ==> a.countDir)
    && 0 <= a.mqttBlink <= BlinkTicks
  }

  function AclOpacity(count: int, acl: AclStatus): int
  {
    if acl == AclDownloading then count * 12 + 64 else 255
  }

  predicate Traffic(m: MqttStatus)
  {
    m == MqttDataSent || m == MqttDataReceived
  }

  function MqttOpacity(count: int, m: MqttStatus): int
  {
    if Traffic(m) then (if count % 2 == 0 then 255 else 64) else 255
  }

  function WifiOpacity(count: int, w: WifiStatus): int
  {
    if w == WifiError || w == WifiDisconnected then (if count < 7 then 255 else 0)
    else if w == WifiConnecting then (if count / 2 < 4 then 0 else 255)
    else 255
  }

  function PowerOpacity(count: int, p: PowerStatus): int
  {
    if p == PowerSleep then (if count % 2 == 0 then 255 else 64)
    else if p == PowerOnBattLow then (if count < 7 then 255 else 0)
    else 255
  }

  /** The counter one tick later. */
  function Sweep(count: int, dir: bool): (int, bool)
  {
    if dir then (count + 1, if count + 1 >= CountMax then !dir else dir)
    else (count - 1, if count - 1 <= 0 then !dir else dir)
  }

  /** The blink counter and the MQTT status one tick later. */
  function Blink(blink: int, m: MqttStatus): (int, MqttStatus)
  {
    if !Traffic(m) then (blink, m)
    else if blink == 0 then (BlinkTicks, m)
    else if blink - 1 == 0 then (0, MqttConnected)
    else (blink - 1, m)
  }

  /** One run of `anim_timer_cb`: the opacities it sets and the state it leaves. */
  function Tick(a: Anim): (Anim, Opacities)
  {
    var (c, d) := Sweep(a.count, a.countDir);
    var (b, m) := Blink(a.mqttBlink, a.mqtt);
    (a.(count := c, countDir := d, mqttBlink := b, mqtt := m),
     Opacities(AclOpacity(a.count, a.acl), MqttOpacity(a.count, a.mqtt),
               WifiOpacity(a.count, a.wifi), PowerOpacity(a.count, a.power)))
  }

  /** The state after `n` ticks. */
  function Ticks(a: Anim, n: nat): Anim
    decreases n
  {
    if n == 0 then a else Ticks(Tick(a).0, n - 1)
  }

  // ---------------------------------------------------------------------
  // Properties
  // ---------------------------------------------------------------------

  lemma BootSweeping()
    ensures Sweeping(AnimBoot)
  {
  }

  /**
   * A tick keeps the counter in 0..15: it climbs to 15, turns, falls to 0
   * and turns again; the blink counter stays in 0..16.
   */
  lemma TickSweeping(a: Anim)
    requires Sweeping(a)
    ensures Sweeping(Tick(a).0)
    ensures var c := Tick(a).0.count;
      (a.countDir ==> c == a.count + 1) && (!a.countDir ==> c == a.count - 1)
  {
  }

  /** While downloading the ACL its label fades between 64 and 244; otherwise it is opaque. */
  lemma AclFade(a: Anim)
    requires Sweeping(a)
    ensures var o := Tick(a).1.acl;
      (a.acl == AclDownloading ==> 64 <= o <= 244 && o == a.count * 12 + 64) && (a.acl != AclDownloading ==> o == 255)
  {
  }

  /**
   * The Wi-Fi label: after an error or a disconnection it shows while the
   * counter is below 7, while connecting only from 8 on, and otherwise always.
   */
  lemma WifiVisibility(a: Anim)
    requires Sweeping(a)
    ensures var o := Tick(a).1.wifi;
      && (a.wifi in {WifiError, WifiDisconnected} ==> (o == 255 <==> a.count < 7) && o in {0, 255})
      && (a.wifi == WifiConnecting ==> (o == 255 <==> a.count >= 8) && o in {0, 255})
      && (a.wifi in {WifiInit, WifiConnected} ==> o == 255)
  {
  }

  /**
   * Traffic starts a 16-tick blink on an idle blink counter, and a blink
   * counter at `b > 0` leaves the status alone for `b - 1` ticks and sets
   * it to "connected" on tick `b`.
   */
  lemma {:induction false} BlinkEndsConnected(a: Anim, k: nat)
    requires Traffic(a.mqtt) && 0 < a.mqttBlink && k <= a.mqttBlink
    ensures var t := Ticks(a, k);
      && (k < a.mqttBlink ==> t.mqtt == a.mqtt && t.mqttBlink == a.mqttBlink - k)
      && (k == a.mqttBlink ==> t.mqtt == MqttConnected && t.mqttBlink == 0)
    decreases k
  {
    if k > 0 {
      var n := Tick(a).0;
      if a.mqttBlink == 1 {
        assert n.mqtt == MqttConnected && n.mqttBlink == 0;
        assert Ticks(a, k) == Ticks(n, 0);
      } else {
        assert n.mqtt == a.mqtt && n.mqttBlink == a.mqttBlink - 1;
        BlinkEndsConnected(n, k - 1);
      }
    }
  }

  /** Traffic on an idle blink counter turns back into "connected" after exactly 17 ticks. */
  lemma TrafficBlinksSeventeenTicks(a: Anim)
    requires Traffic(a.mqtt) && a.mqttBlink == 0
    ensures Ticks(a, BlinkTicks).mqtt == a.mqtt
    ensures Ticks(a, BlinkTicks + 1).mqtt == MqttConnected
  {
    var n := Tick(a).0;
    assert n.mqttBlink == BlinkTicks && n.mqtt == a.mqtt;
    BlinkEndsConnected(n, BlinkTicks - 1);
    BlinkEndsConnected(n, BlinkTicks);
    assert Ticks(a, BlinkTicks) == Ticks(n, BlinkTicks - 1);
    assert Ticks(a, BlinkTicks + 1) == Ticks(n, BlinkTicks);
  }

  /** The signal icon for an RSSI, or none below -95 dBm. */
  function RssiIcon(rssi: int): (icon: Option<nat>)
    ensures icon.Some? <==> rssi >= -95
    ensures icon.Some? ==> icon.value <= 4
  {
    if rssi >= -55 then Some(4)
    else if rssi >= -65 then Some(3)
    else if rssi >= -75 then Some(2)
    else if rssi >= -85 then Some(1)
    else if rssi >= -95 then Some(0)
    else None
  }

  /**
   * The icons are 10 dB bands above -95 dBm: icon `k` for `k < 4` covers
   * -95 + 10k up to below -85 + 10k, and icon 4 everything from -55 up.
   */
  lemma RssiBands(rssi: int, k: nat)
    requires k <= 4
    ensures RssiIcon(rssi) == Some(k) <==> (-95 + 10 * k <= rssi && (k == 4 || rssi < -85 + 10 * k))
  {
  }

  /** A stronger signal never gets a weaker icon. */
  lemma RssiMonotone(r1: int, r2: int)
    requires -95 <= r1 <= r2
    ensures RssiIcon(r1).value <= RssiIcon(r2).value
  {
  }

  // ---------------------------------------------------------------------
  // The screen
  // ---------------------------------------------------------------------

  /** The statics of `ui_idle.c` that the timer and the setters keep. */
  class IdleScreen {
    var anim: Anim
    /** The signal icon last set; `None` before the first one. */
    var icon: Option<nat>

    ghost predicate Valid()
      reads this
    {
      Sweeping(anim)
    }

    constructor ()
      ensures Valid() && anim == AnimBoot && icon == None
    {
      anim := AnimBoot;
      icon := None;
    }

    /** `anim_timer_cb`. */
    method AnimTimer() returns (o: Opacities)
      requires Valid()
      modifies this
      ensures Valid()
      ensures (anim, o) == Tick(old(anim)) && icon == old(icon)
    {
      o := Opacities(AclOpacity(anim.count, anim.acl), MqttOpacity(anim.count, anim.mqtt),
                     WifiOpacity(anim.count, anim.wifi), PowerOpacity(anim.count, anim.power));
      var count, dir, blink := anim.count, anim.countDir, anim.mqttBlink;
      if Traffic(anim.mqtt) {
        if blink == 0 {
          blink := BlinkTicks;
        } else {
          blink := blink - 1;
          if blink == 0 {
            SetMqttStatus(MqttConnected);
          }
        }
      }
      if dir {
        count := count + 1;
        if count >= CountMax {
          dir := !dir;
        }
      } else {
        count := count - 1;
        if count <= 0 {
          dir := !dir;
        }
      }
      anim := anim.(count := count, countDir := dir, mqttBlink := blink);
      TickSweeping(old(anim));
    }

    /** `ui_idle_set_power_status`: the status is recorded whatever its value. */
    method SetPowerStatus(s: PowerStatus)
      modifies this
      ensures anim == old(anim).(power := s) && icon == old(icon)
    {
      anim := anim.(power := s);
    }

    /** `ui_idle_set_acl_status`. */
    method SetAclStatus(s: AclStatus)
      modifies this
      ensures anim == old(anim).(acl := s) && icon == old(icon)
    {
      anim := anim.(acl := s);
    }

    /** `ui_idle_set_mqtt_status`. */
    method SetMqttStatus(s: MqttStatus)
      modifies this
      ensures anim == old(anim).(mqtt := s) && icon == old(icon)
    {
      anim := anim.(mqtt := s);
    }

    /** `ui_idle_set_wifi_status`. */
    method SetWifiStatus(s: WifiStatus)
      modifies this
      ensures anim == old(anim).(wifi := s) && icon == old(icon)
    {
      anim := anim.(wifi := s);
    }

    /** `ui_idle_set_rssi`: the icon changes only while connected and above -95 dBm. */
    method SetRssi(rssi: int)
      modifies this
      ensures anim == old(anim)
      ensures icon == if anim.wifi == WifiConnected && RssiIcon(rssi).Some? then RssiIcon(rssi) else old(icon)
    {
      if anim.wifi == WifiConnected {
        if rssi >= -55 {
          icon := Some(4);
        } else if rssi >= -65 {
          icon := Some(3);
        } else if rssi >= -75 {
          icon := Some(2);
        } else if rssi >= -85 {
          icon := Some(1);
        } else if rssi >= -95 {
          icon := Some(0);
        }
      }
    }
  }
}
