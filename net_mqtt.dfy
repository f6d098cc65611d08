/**
 * MQTT topics, payloads and the client's event handler (net/net_mqtt.c).
 *
 * Every report is published on a topic targeted at this node, built from
 * its MAC address, with a JSON payload formatted into a fixed buffer.  The
 * builders are total functions; the handler is a method of `MqttClient`,
 * the only state being whether the broker connection is up.
 */
module NetMqtt {
  import opened Base
  import opened Events

  const BaseTopic := "ratt"
  const TopicTypeStatus := "status"
  const TopicTypeControl := "control"
  const AclSuccess := "downloaded"
  const AclFail := "failed"
  const AclUpdateTopic := "ratt/control/broadcast/acl/update"
  const FirmwareUpdateTopic := "ratt/control/broadcast/firmware/update"
  const TopicBufLen := 128
  const SmallPayloadLen := 128
  const PayloadLen := 256
  const ErrorPayloadLen := 512

  /** A 6-byte MAC address, as `g_mac_addr` holds it. */
  type Mac = m: Bytes | |m| == 6 witness [0, 0, 0, 0, 0, 0]

  /** The text `net_mqtt_topic_targeted` formats, before it is cut to the buffer. */
  function TargetedText(topicType: string, mac: Mac, subtopic: string): string
  {
    BaseTopic + "/" + topicType + "/node/" + HexOf(mac) + "/" + subtopic
  }

  /** `net_mqtt_topic_targeted(type, sub, obuf, 128)`: the topic as it lands in the buffer. */
  function Topic(topicType: string, mac: Mac, subtopic: string): (r: string)
    ensures |r| < TopicBufLen && r <= TargetedText(topicType, mac, subtopic)
  {
    Snprintf(TargetedText(topicType, mac, subtopic), TopicBufLen)
  }

  /**
   * A status topic that fits is "ratt/status/node/<mac>/<sub>"; the MAC
   * part is 12 lower-case hex digits that read back as the address.
   */
  lemma TopicLayout(mac: Mac, subtopic: string)
    requires |subtopic| < TopicBufLen - 31
    ensures var t := Topic(TopicTypeStatus, mac, subtopic);
      && t == "ratt/status/node/" + t[17..29] + "/" + subtopic
      && (forall i :: 17 <= i < 29 ==> IsLowerHex(t[i]))
      && UnHex(t[17..29]) == mac
  {
    var h := HexOf(mac);
    var t := Topic(TopicTypeStatus, mac, subtopic);
    assert t == "ratt/status/node/" + h + "/" + subtopic;
    assert t[17..29] == h;
    HexOfDigits(mac);
    UnHexHexOf(mac);
  }

  /** A field between a fixed prefix and a closing quote is recovered from the whole text. */
  lemma QuotedInjective(p: string, a: string, b: string, q1: string, q2: string)
    requires '"' !in a && '"' !in b
    requires q1 != [] && q2 != [] && q1[0] == '"' && q2[0] == '"'
    requires p + a + q1 == p + b + q2
    ensures a == b && q1 == q2
  {
    var s := p + a + q1;
    assert s == p + b + q2;
    assert forall i :: |p| <= i < |p| + |a| ==> s[i] == a[i - |p|];
    assert forall i :: |p| <= i < |p| + |b| ==> s[i] == (p + b + q2)[i] == b[i - |p|];
    assert s[|p| + |a|] == '"';
    assert (p + b + q2)[|p| + |b|] == '"';
    assert |a| == |b|;
    assert a == s[|p|..|p| + |a|];
    assert b == (p + b + q2)[|p|..|p| + |b|];
    assert q1 == s[|p| + |a|..];
    assert q2 == (p + b + q2)[|p| + |b|..];
  }

  // ---------------------------------------------------------------------
  // Payloads
  // ---------------------------------------------------------------------

  /** `net_mqtt_send_acl_updated(status)`: `{"status":"<status>"}`. */
  function AclUpdatedPayload(status: string): (r: string)
    ensures |r| < SmallPayloadLen
  {
    Snprintf("{\"status\":\"" + status + "\"}", SmallPayloadLen)
  }

  /** The network task's two ACL reports are told apart by their payloads. */
  lemma AclReportsDiffer()
    ensures AclUpdatedPayload(AclSuccess) == "{\"status\":\"" + AclSuccess + "\"}"
    ensures AclUpdatedPayload(AclFail) == "{\"status\":\"" + AclFail + "\"}"
    ensures AclUpdatedPayload(AclSuccess) != AclUpdatedPayload(AclFail)
  {
    var p := "{\"status\":\"";
    assert '"' !in AclSuccess && '"' !in AclFail;
    if AclUpdatedPayload(AclSuccess) == AclUpdatedPayload(AclFail) {
      QuotedInjective(p, AclSuccess, AclFail, "\"}", "\"}");
    }
  }

  function BoolText(allowed: int): string
  {
    if allowed != 0 then "true" else "false"
  }

  /** `net_mqtt_send_access(member, allowed)`: `{"member": "<name>", "allowed": true|false}`. */
  function AccessPayload(member: string, allowed: int): (r: string)
    ensures |r| < SmallPayloadLen
  {
    Snprintf("{\"member\": \"" + member + AccessTail(allowed), SmallPayloadLen)
  }

  /** The payload after the member name. */
  function AccessTail(allowed: int): string
  {
    "\", \"allowed\": " + BoolText(allowed) + "}"
  }

  lemma AccessTailShape(allowed: int)
    ensures var t := AccessTail(allowed);
      |t| <= 20 && t[0] == '"' && (t[14] == 't' <==> allowed != 0)
  {
  }

  /**
   * An access payload that fits names the member and says "true" exactly
   * when `allowed` is nonzero: two reports with the same payload are about
   * the same member and the same decision.
   */
  lemma AccessPayloadInjective(m1: string, a1: int, m2: string, a2: int)
    requires '"' !in m1 && '"' !in m2 && |m1| < 80 && |m2| < 80
    requires AccessPayload(m1, a1) == AccessPayload(m2, a2)
    ensures m1 == m2 && (a1 != 0 <==> a2 != 0)
  {
    AccessTailShape(a1);
    AccessTailShape(a2);
    QuotedInjective("{\"member\": \"", m1, m2, AccessTail(a1), AccessTail(a2));
  }

  /** `net_mqtt_send_access_error(text, ext)`: `{"error": true, "errorText": "...", "errorExt": "..."}`. */
  function AccessErrorPayload(text: string, ext: string): (r: string)
    ensures |r| < ErrorPayloadLen
  {
    Snprintf("{\"error\": true, \"errorText\": \"" + text + "\", \"errorExt\": \"" + ext + "\"}", ErrorPayloadLen)
  }

  /** An error payload that fits carries both texts recoverably. */
  lemma AccessErrorPayloadInjective(t1: string, e1: string, t2: string, e2: string)
    requires '"' !in t1 && '"' !in e1 && '"' !in t2 && '"' !in e2
    requires |t1| + |e1| < 400 && |t2| + |e2| < 400
    requires AccessErrorPayload(t1, e1) == AccessErrorPayload(t2, e2)
    ensures t1 == t2 && e1 == e2
  {
    var p := "{\"error\": true, \"errorText\": \"";
    var mid := "\", \"errorExt\": \"";
    var q1 := mid + e1 + "\"}";
    var q2 := mid + e2 + "\"}";
    assert p + t1 + q1 == "{\"error\": true, \"errorText\": \"" + t1 + "\", \"errorExt\": \"" + e1 + "\"}";
    assert p + t2 + q2 == "{\"error\": true, \"errorText\": \"" + t2 + "\", \"errorExt\": \"" + e2 + "\"}";
    QuotedInjective(p, t1, t2, q1, q2);
    assert mid + e1 + "\"}" == mid + e2 + "\"}";
    QuotedInjective(mid, e1, e2, "\"}", "\"}");
  }

  /** The numbering of `power_status_t`. */
  function PowerCode(s: PowerStatus): int
  {
    match s
    case PowerOnExt => 0
    case PowerOnBatt => 1
    case PowerOnBattLow => 2
    case PowerSleep => 3
    case PowerWake => 4
  }

  /** The state name `net_mqtt_send_power_status` reports for a status value. */
  function PowerStateName(code: int): string
  {
    if code == 0 then "on_external"
    else if code == 1 then "on_battery"
    else if code == 2 then "on_battery_low"
    else if code == 3 then "sleep"
    else if code == 4 then "wake"
    else "unknown"
  }

  /** `{"state": "<name>"}`. */
  function PowerPayload(code: int): (r: string)
    ensures |r| < SmallPayloadLen
  {
    Snprintf("{\"state\": \"" + PowerStateName(code) + "\"}", SmallPayloadLen)
  }

  /**
   * The five power states get five different names, none of them
   * "unknown"; any other value reports "unknown".
   */
  lemma PowerNames(s: PowerStatus, t: PowerStatus, code: int)
    ensures PowerStateName(PowerCode(s)) != "unknown"
    ensures s != t ==> PowerStateName(PowerCode(s)) != PowerStateName(PowerCode(t))
    ensures !(0 <= code <= 4) ==> PowerStateName(code) == "unknown"
  {
  }

  /** `net_mqtt_send_door_state(open)`: `{"state": "open"}` or `{"state": "closed"}`. */
  function DoorPayload(doorOpen: bool): (r: string)
    ensures |r| < SmallPayloadLen
  {
    Snprintf(if doorOpen then "{\"state\": \"open\"}" else "{\"state\": \"closed\"}", SmallPayloadLen)
  }

  lemma DoorPayloadsDiffer()
    ensures DoorPayload(true) != DoorPayload(false)
  {
    assert |DoorPayload(true)| != |DoorPayload(false)|;
  }

  /** The numbering of `ota_status_t`. */
  function OtaCode(s: OtaStatus): int
  {
    match s
    case OtaInit => 0
    case OtaError => 1
    case OtaDownloading => 2
    case OtaApplying => 3
    case OtaMax => 4
  }

  function OtaStatusName(s: OtaStatus): string
  {
    match s
    case OtaInit => "init"
    case OtaError => "error"
    case OtaDownloading => "downloading"
    case OtaApplying => "applying"
    case OtaMax => "unknown"
  }

  /** `net_mqtt_send_ota_status(status, progress)`: `{"status": "<name>", "progress": "<n>"}`. */
  function OtaPayload(s: OtaStatus, progress: int): (r: string)
    ensures |r| < SmallPayloadLen
  {
    Snprintf("{\"status\": \"" + OtaStatusName(s) + OtaTail(progress), SmallPayloadLen)
  }

  /** The payload after the status name. */
  function OtaTail(progress: int): string
  {
    "\", \"progress\": \"" + DecInt(progress) + "\"}"
  }

  lemma DecIntNoQuote(n: int)
    ensures '"' !in DecInt(n)
  {
    var d := DecDigits(if n < 0 then -n else n);
    assert forall i :: 0 <= i < |d| ==> IsDigit(d[i]);
    if n < 0 {
      assert DecInt(n) == ['-'] + d;
      assert forall i :: 0 <= i < |DecInt(n)| ==> DecInt(n)[i] != '"' by {
        forall i | 0 <= i < |DecInt(n)| ensures DecInt(n)[i] != '"' {
          if i > 0 { assert DecInt(n)[i] == d[i - 1]; }
        }
      }
    }
  }

  /** The first character of `"%d"` is a minus sign exactly for a negative number. */
  lemma DecIntSign(n: int)
    ensures (DecInt(n)[0] == '-') == (n < 0)
  {
    var d := DecDigits(if n < 0 then -n else n);
    assert IsDigit(d[0]);
  }

  lemma DecIntInjective(a: int, b: int)
    requires DecInt(a) == DecInt(b)
    ensures a == b
  {
    DecIntSign(a);
    DecIntSign(b);
    var da, db := DecDigits(if a < 0 then -a else a), DecDigits(if b < 0 then -b else b);
    if a < 0 {
      assert da == DecInt(a)[1..] == DecInt(b)[1..] == db;
    }
    assert DecValue(da) == DecValue(db);
  }

  /**
   * An OTA payload that fits names the status and the progress
   * recoverably: "unknown" only stands for the out-of-range value.
   */
  lemma OtaPayloadInjective(s1: OtaStatus, p1: int, s2: OtaStatus, p2: int)
    requires -1000 < p1 < 1000 && -1000 < p2 < 1000
    requires OtaPayload(s1, p1) == OtaPayload(s2, p2)
    ensures s1 == s2 && p1 == p2
  {
    var p := "{\"status\": \"";
    var n1, n2 := OtaStatusName(s1), OtaStatusName(s2);
    OtaTailShort(p1);
    OtaTailShort(p2);
    OtaNameShape(s1);
    OtaNameShape(s2);
    QuotedInjective(p, n1, n2, OtaTail(p1), OtaTail(p2));
    OtaNamesDistinct(s1, s2);
    var mid := "\", \"progress\": \"";
    DecIntNoQuote(p1);
    DecIntNoQuote(p2);
    QuotedInjective(mid, DecInt(p1), DecInt(p2), "\"}", "\"}");
    DecIntInjective(p1, p2);
  }

  lemma OtaTailShort(progress: int)
    requires -1000 < progress < 1000
    ensures |OtaTail(progress)| <= 22 && OtaTail(progress)[0] == '"'
  {
    SmallDigits(if progress < 0 then -progress else progress);
  }

  lemma OtaNamesDistinct(s1: OtaStatus, s2: OtaStatus)
    requires OtaStatusName(s1) == OtaStatusName(s2)
    ensures s1 == s2
  {
    assert |OtaStatusName(s1)| == |OtaStatusName(s2)|;
  }

  /** A status name is at most 11 letters and never holds a quote. */
  lemma OtaNameShape(s: OtaStatus)
    ensures |OtaStatusName(s)| <= 11 && '"' !in OtaStatusName(s)
  {
  }

  lemma SmallDigits(n: nat)
    requires n < 1000
    ensures |DecDigits(n)| <= 3
  {
    if n >= 10 {
      assert |DecDigits(n)| == |DecDigits(n / 10)| + 1;
      if n / 10 >= 10 {
        assert |DecDigits(n / 10)| == |DecDigits(n / 10 / 10)| + 1;
        assert n / 10 / 10 < 10;
      }
    }
  }

  /** `esp_reset_reason()`: the reasons the boot report names, and any other. */
  datatype ResetReason = RstPowerOn | RstExt | RstSw | RstPanic | RstIntWdt | RstTaskWdt
                       | RstDeepSleep | RstBrownout | RstSdio | RstUnknown | RstOther

  function ReasonName(r: ResetReason): string
  {
    match r
    case RstPowerOn => "power_on"
    case RstExt => "ext"
    case RstSw => "sw"
    case RstPanic => "panic"
    case RstIntWdt => "int_wdt"
    case RstTaskWdt => "task_wdt"
    case RstDeepSleep => "deep_sleep"
    case RstBrownout => "brownout"
    case RstSdio => "sdio"
    case RstUnknown => "unknown"
    case RstOther => "unknown"
  }

  /** `esp_app_desc_t`'s text fields, as C strings. */
  datatype AppDesc = AppDesc(projectName: string, version: string, date: string, time: string, idfVer: string)

  /** Whether every field fits its array in `esp_app_desc_t` (32, 32, 16, 16 and 32 bytes). */
  predicate DescFits(d: AppDesc)
  {
    |d.projectName| < 32 && |d.version| < 32 && |d.date| < 16 && |d.time| < 16 && |d.idfVer| < 32
  }

  /** The text of the boot report. */
  function BootText(reason: ResetReason, d: AppDesc, fwSha: string): string
  {
    "{\"reset_reason\": \"" + ReasonName(reason) + "\", \"fw_name\": \"" + d.projectName
    + "\", \"fw_version\": \"" + d.version + "\", \"fw_date\": \"" + d.date
    + "\", \"fw_time\": \"" + d.time + "\", \"fw_sha256\": \"" + fwSha
    + "\", \"idf_ver\": \"" + d.idfVer + "\"}"
  }

  /**
   * The bytes `net_mqtt_send_boot_status` stores into its 256-byte payload
   * buffer as written: `snprintf` is told the buffer holds 512.
   */
  function BootBytesAsWritten(reason: ResetReason, d: AppDesc, fwSha: string): string
  {
    Snprintf(BootText(reason, d, fwSha), ErrorPayloadLen) + "\0"
  }

  /** Long but legal descriptor fields make the as-written report overrun the buffer. */
  lemma BootOverrunsBuffer(fwSha: string)
    requires |fwSha| == 64
    ensures var d := AppDesc("uratt-door-controller-frontdoor", "v1.2.3-45-g0123456789abcdef-dev",
                             "Jan 10 2021", "12:34:56", "v4.2-dev-2243-gcf056a7d0-dirty");
      DescFits(d) && |BootBytesAsWritten(RstBrownout, d, fwSha)| > PayloadLen
  {
  }

  /** The boot report as the buffer allows it: `snprintf(payload, 256, ...)`. */
  function BootPayload(reason: ResetReason, d: AppDesc, fwSha: string): string
  {
    Snprintf(BootText(reason, d, fwSha), PayloadLen)
  }

  /** Corrected: the report and its terminator always fit the buffer, and a short report is whole. */
  lemma BootPayloadFits(reason: ResetReason, d: AppDesc, fwSha: string)
    ensures |BootPayload(reason, d, fwSha) + "\0"| <= PayloadLen
    ensures |BootText(reason, d, fwSha)| < PayloadLen ==> BootPayload(reason, d, fwSha) == BootText(reason, d, fwSha)
  {
  }

  lemma HexOfSnoc(bs: Bytes, b: uint8)
    ensures HexOf(bs + [b]) == HexOf(bs) + Hex2(b, false)
    decreases |bs|
  {
    if bs != [] {
      assert (bs + [b])[1..] == bs[1..] + [b];
      HexOfSnoc(bs[1..], b);
    } else {
      assert HexOf([b]) == Hex2(b, false) + HexOf([]);
    }
  }

  /**
   * The `fw_sha` buffer: each of the 32 image-hash bytes appended with
   * `snprintf(s, 3, "%02x")` and `strcat`.
   */
  method FwSha(sha: Bytes) returns (s: string)
    requires |sha| == 32
    ensures s == HexOf(sha)
    ensures |s| == 64
  {
    s := "";
    for i := 0 to 32
      invariant s == HexOf(sha[..i])
    {
      var pair := Snprintf(Hex2(sha[i], false), 3);
      assert sha[..i + 1] == sha[..i] + [sha[i]];
      HexOfSnoc(sha[..i], sha[i]);
      s := s + pair;
    }
    assert sha[..32] == sha;
  }

  /** The channel centre frequencies in MHz, channels 1 to 14. */
  const ChanFreq: seq<int> := [2412, 2417, 2422, 2427, 2432, 2437, 2442, 2447, 2452, 2457, 2462, 2467, 2472, 2484]

  /** `"%3d"`: right-aligned in three columns. */
  function Width3(s: string): string
  {
    if |s| < 3 then seq(3 - |s|, _ => ' ') + s else s
  }

  /**
   * `"%1d.%3d"` of the GHz and MHz parts of the channel's frequency, 0 and
   * 0 above channel 16.  Channels 0, 15 and 16 index outside the table.
   */
  function FreqText(primary: uint8): string
    requires 1 <= primary <= 14 || primary > 16
  {
    var mhz := if primary <= 16 then ChanFreq[primary - 1] else 0;
    DecInt(mhz / 1000) + "." + Width3(DecInt(mhz % 1000))
  }

  lemma FreqChannel1()
    ensures FreqText(1) == "2.412"
  {
    assert ChanFreq[0] == 2412;
    assert DecDigits(4) == "4";
    assert DecDigits(41) == "41";
    assert DecDigits(412) == "412";
    assert DecInt(2) == "2";
  }

  lemma FreqChannel14()
    ensures FreqText(14) == "2.484"
  {
    assert ChanFreq[13] == 2484;
    assert DecDigits(4) == "4";
    assert DecDigits(48) == "48";
    assert DecDigits(484) == "484";
    assert DecInt(2) == "2";
  }

  lemma FreqAboveTable()
    ensures FreqText(17) == "0.  0"
  {
    assert DecInt(0) == "0";
    assert Width3("0") == "  0";
  }

  /** `net_mqtt_send_wifi_strength`'s payload for the access point record. */
  function WifiPayload(bssid: Mac, primary: uint8, ssid: string, rssi: int): (r: string)
    requires 1 <= primary <= 14 || primary > 16
    ensures |r| < PayloadLen
  {
    Snprintf("{\"ap\": \"" + ApText(bssid) + WifiTail(primary, ssid, rssi), PayloadLen)
  }

  /** The payload after the BSSID: frequency, network name and signal level. */
  function WifiTail(primary: uint8, ssid: string, rssi: int): string
    requires 1 <= primary <= 14 || primary > 16
  {
    "\", \"freq\": \"" + FreqText(primary) + "\", \"essid\": \"" + CStr(ssid, '\0') + "\", \"level\": " + DecInt(rssi) + "}"
  }

  /** `"%02X:%02X:%02X:%02X:%02X:%02X"` of the access point's BSSID. */
  function ApText(bssid: Mac): string
  {
    Hex2(bssid[0], true) + ":" + Hex2(bssid[1], true) + ":" + Hex2(bssid[2], true) + ":"
    + Hex2(bssid[3], true) + ":" + Hex2(bssid[4], true) + ":" + Hex2(bssid[5], true)
  }

  /** The BSSID text is 17 characters whose hex pairs read back as the six bytes. */
  lemma ApTextReadsBack(bssid: Mac)
    ensures |ApText(bssid)| == 17
    ensures forall k :: 0 <= k < 6 ==>
      HexValue(ApText(bssid)[3 * k]) * 16 + HexValue(ApText(bssid)[3 * k + 1]) == bssid[k] as int
  {
    var ap := ApText(bssid);
    forall k | 0 <= k < 6
      ensures HexValue(ap[3 * k]) * 16 + HexValue(ap[3 * k + 1]) == bssid[k] as int
    {
      var h := Hex2(bssid[k], true);
      assert ap[3 * k] == h[0] && ap[3 * k + 1] == h[1];
    }
  }

  /** The payload starts with the BSSID, whose pairs read back as the access point's address. */
  lemma WifiPayloadAp(bssid: Mac, primary: uint8, ssid: string, rssi: int)
    requires 1 <= primary <= 14 || primary > 16
    ensures WifiPayload(bssid, primary, ssid, rssi)[..25] == "{\"ap\": \"" + ApText(bssid)
  {
    ApTextReadsBack(bssid);
    var pre := "{\"ap\": \"" + ApText(bssid);
    var full := pre + WifiTail(primary, ssid, rssi);
    assert |pre| == 25;
    assert full[..25] == pre;
  }

  // ---------------------------------------------------------------------
  // Publishing and the client's events
  // ---------------------------------------------------------------------

  /** What the MQTT code does outside this module. */
  datatype MqttAction =
    | Publish(topic: string, payload: string, qos: nat)
    | ShowMqttStatus(status: MqttStatus)
    | Subscribe(filter: string)
    | QueueNet(cmd: NetCmd)
    | PostMain(evt: MainEvt)
    | ClientStop

  /**
   * Publishing a status report: the report always goes to the client, and
   * the display shows "data sent" only when the client accepted it.
   */
  function Send(mac: Mac, subtopic: string, payload: string, qos: nat, accepted: bool): (r: seq<MqttAction>)
    ensures |r| >= 1 && r[0] == Publish(Topic(TopicTypeStatus, mac, subtopic), payload, qos)
    ensures (ShowMqttStatus(MqttDataSent) in r) == accepted
  {
    [Publish(Topic(TopicTypeStatus, mac, subtopic), payload, qos)] + (if accepted then [ShowMqttStatus(MqttDataSent)] else [])
  }

  /** The events `net_mqtt_event_handler` receives; a data event carries its topic bytes. */
  datatype MqttEvent = EvConnected | EvDisconnected | EvSubscribed | EvUnsubscribed | EvPublished
                     | EvData(topic: string) | EvError | EvOther

  /**
   * The effect of a data event: `strncmp` over the received topic's
   * length against each control topic.
   */
  function DataActions(topic: string): seq<MqttAction>
  {
    Route(StrnEq(topic, AclUpdateTopic, |topic|), StrnEq(topic, FirmwareUpdateTopic, |topic|))
  }

  /** The actions for the outcomes of the two comparisons, the ACL topic's first. */
  function Route(isAcl: bool, isFirmware: bool): seq<MqttAction>
  {
    (if isAcl then [QueueNet(CmdDownloadAcl)]
     else if isFirmware then [PostMain(EvtOtaUpdate)]
     else [])
    + [ShowMqttStatus(MqttDataReceived)]
  }

  /** Comparing over the received length makes every prefix of a control topic match it. */
  lemma DataMatchesPrefix(topic: string)
    requires '\0' !in topic
    ensures QueueNet(CmdDownloadAcl) in DataActions(topic) <==> topic <= AclUpdateTopic
    ensures PostMain(EvtOtaUpdate) in DataActions(topic) <==> !(topic <= AclUpdateTopic) && topic <= FirmwareUpdateTopic
  {
    ControlTopicsHaveNoNul();
    StrnPrefix(topic, AclUpdateTopic);
    StrnPrefix(topic, FirmwareUpdateTopic);
    RouteCases(StrnEq(topic, AclUpdateTopic, |topic|), StrnEq(topic, FirmwareUpdateTopic, |topic|));
  }

  /** A data event queues the ACL download only for the ACL topic, and the OTA event only for the firmware topic. */
  lemma RouteCases(isAcl: bool, isFirmware: bool)
    ensures QueueNet(CmdDownloadAcl) in Route(isAcl, isFirmware) <==> isAcl
    ensures PostMain(EvtOtaUpdate) in Route(isAcl, isFirmware) <==> !isAcl && isFirmware
  {
    var d := Route(isAcl, isFirmware);
    if isAcl {
      assert d == [QueueNet(CmdDownloadAcl), ShowMqttStatus(MqttDataReceived)];
    } else if isFirmware {
      assert d == [PostMain(EvtOtaUpdate), ShowMqttStatus(MqttDataReceived)];
    }
  }

  lemma ControlTopicsHaveNoNul()
    ensures '\0' !in AclUpdateTopic && '\0' !in FirmwareUpdateTopic
  {
  }

  /** `strncmp(t, c, strlen(t)) == 0` says that `t` is a prefix of `c`. */
  lemma StrnPrefix(t: string, c: string)
    requires '\0' !in t && '\0' !in c
    ensures StrnEq(t, c, |t|) <==> t <= c
  {
    StrnEqIff(t, c, |t|);
  }

  /** A truncated topic such as "ratt/control/broadcast" starts an ACL download. */
  lemma ShortTopicDownloads()
    ensures DataActions("ratt/control/broadcast") == [QueueNet(CmdDownloadAcl), ShowMqttStatus(MqttDataReceived)]
  {
    var t := "ratt/control/broadcast";
    assert t <= AclUpdateTopic by {
      assert AclUpdateTopic == t + "/acl/update";
    }
    ControlTopicsHaveNoNul();
    StrnPrefix(t, AclUpdateTopic);
    assert DataActions(t) == Route(true, StrnEq(t, FirmwareUpdateTopic, |t|));
  }

  /** The two control topics part at their 24th character. */
  lemma FirmwareTopicIsNotAclPrefix()
    ensures !(FirmwareUpdateTopic <= AclUpdateTopic)
  {
    assert FirmwareUpdateTopic[23] == 'f' && AclUpdateTopic[23] == 'a';
  }

  /** The exact firmware topic posts the OTA event to the main task. */
  lemma FirmwareTopicUpdates()
    ensures DataActions(FirmwareUpdateTopic) == [PostMain(EvtOtaUpdate), ShowMqttStatus(MqttDataReceived)]
  {
    ControlTopicsHaveNoNul();
    FirmwareTopicIsNotAclPrefix();
    StrnPrefix(FirmwareUpdateTopic, AclUpdateTopic);
    StrnPrefix(FirmwareUpdateTopic, FirmwareUpdateTopic);
    assert DataActions(FirmwareUpdateTopic) == Route(false, true);
  }

  /** The actions `net_mqtt_event_handler` takes for an event. */
  function HandlerActions(ev: MqttEvent): seq<MqttAction>
  {
    match ev
    case EvConnected => [Subscribe(AclUpdateTopic), Subscribe(FirmwareUpdateTopic), ShowMqttStatus(MqttConnected)]
    case EvDisconnected => [ShowMqttStatus(MqttDisconnected)]
    case EvPublished => [ShowMqttStatus(MqttDataSent)]
    case EvData(topic) => DataActions(topic)
    case EvError => [ShowMqttStatus(MqttError)]
    case _ => []
  }

  /**
   * Connecting subscribes to both control topics before showing
   * "connected"; every event but the subscription notices and unknown ones
   * ends by showing a status, and only a data event queues or posts work.
   */
  lemma HandlerShowsStatus(ev: MqttEvent)
    ensures ev.EvConnected? ==> HandlerActions(ev)[..2] == [Subscribe(AclUpdateTopic), Subscribe(FirmwareUpdateTopic)]
    ensures (HandlerActions(ev) == []) <==> (ev.EvSubscribed? || ev.EvUnsubscribed? || ev.EvOther?)
    ensures HandlerActions(ev) != [] ==> HandlerActions(ev)[|HandlerActions(ev)| - 1].ShowMqttStatus?
    ensures !ev.EvData? ==> forall a :: a in HandlerActions(ev) ==> !a.QueueNet? && !a.PostMain?
  {
  }

  /** The MQTT client's connection flag, `s_mqtt_connected`. */
  class MqttClient {
    var connected: bool

    constructor ()
      ensures !connected
    {
      connected := false;
    }

    /**
     * `net_mqtt_event_handler`: connecting sets the flag, disconnecting
     * clears it, nothing else touches it; the handler always returns OK.
     */
    method Handle(ev: MqttEvent) returns (actions: seq<MqttAction>, r: EspErr)
      modifies this
      ensures r == Ok
      ensures actions == HandlerActions(ev)
      ensures connected == if ev.EvConnected? then true else if ev.EvDisconnected? then false else old(connected)
    {
      actions := HandlerActions(ev);
      match ev {
        case EvConnected => connected := true;
        case EvDisconnected => connected := false;
        case _ =>
      }
      r := Ok;
    }

    /** `net_mqtt_stop`: clear the flag, show "disconnected", stop the client and return its result. */
    method Stop(stopResult: int) returns (actions: seq<MqttAction>, r: int)
      modifies this
      ensures !connected
      ensures actions == [ShowMqttStatus(MqttDisconnected), ClientStop] && r == stopResult
    {
      connected := false;
      actions := [ShowMqttStatus(MqttDisconnected), ClientStop];
      r := stopResult;
    }
  }
}
