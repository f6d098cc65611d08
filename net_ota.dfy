/**
 * Firmware-update progress and outcome (net/net_ota.c).
 *
 * While `esp_https_ota` downloads the image, the HTTP client's events go to
 * `net_ota_http_event_handler`, which keeps the announced content length
 * and the bytes received so far in two statics and reports the percentage
 * whenever it changes.  `net_ota_update` reports the start and the outcome
 * to the display, to MQTT and to the main task.
 */
module NetOta {
  import opened Base
  import opened Events

  /** `size_t` and `int` on the ESP32 are 32 bits wide. */
  const SizeModulus := 0x1_0000_0000
  const IntMax := 0x7FFF_FFFF
  const ContentLengthKey := "Content-Length"
  const OtaUrlDefault := "https://my-server.org/ota.bin"
  /** The pause between reporting success and telling the main task, in milliseconds. */
  const ApplyDelayMs := 500

  /** The `esp_http_client` events the handler distinguishes. */
  datatype HttpEvent =
    | HttpError | OnConnected | HeaderSent
    | OnHeader(key: string, value: string)
    | OnData(len: nat)
    | OnFinish | Disconnected

  /** What the OTA code asks of the other tasks. */
  datatype OtaAction =
    | DisplayOta(status: OtaStatus, progress: int)   // display_ota_status
    | MqttOta(status: OtaStatus, progress: int)      // net_mqtt_send_ota_status
    | Delay(ms: nat)                                 // vTaskDelay
    | PostMain(evt: MainEvt)                         // main_task_event

  /** The statics `content_length`, `received_length` and `last_percent`. */
  datatype Progress = Progress(contentLength: nat, receivedLength: nat, lastPercent: int)

  const ProgressBoot := Progress(0, 0, -1)

  /** The statics after one handler call, and what it reported. */
  datatype Handled = Handled(next: Progress, actions: seq<OtaAction>)

  // ---------------------------------------------------------------------
  // atoi
  // ---------------------------------------------------------------------

  predicate IsSpace(c: char)
  {
    c == ' ' || c == '\t' || c == '\n' || c == 11 as char || c == 12 as char || c == '\r'
  }

  function SkipSpace(s: string): (r: string)
    ensures r <= s || (|r| <= |s| && r == s[|s| - |r|..])
    ensures r != [] ==> !IsSpace(r[0])
  {
    if s != [] && IsSpace(s[0]) then SkipSpace(s[1..]) else s
  }

  /** The longest prefix made of decimal digits. */
  function DigitPrefix(s: string): (r: string)
    ensures r <= s
    ensures forall i :: 0 <= i < |r| ==> IsDigit(r[i])
  {
    if s != [] && IsDigit(s[0]) then [s[0]] + DigitPrefix(s[1..]) else []
  }

  /**
   * `atoi(s)`: leading white space, an optional sign, then as many digits as
   * follow.  Values beyond `int` are left unbounded here.
   */
  function Atoi(s: string): int
  {
    var t := SkipSpace(s);
    if t != [] && t[0] == '-' then -(DecValue(DigitPrefix(t[1..]) ) as int)
    else if t != [] && t[0] == '+' then DecValue(DigitPrefix(t[1..]))
    else DecValue(DigitPrefix(t))
  }

  lemma {:induction false} DigitPrefixAll(s: string)
    requires forall i :: 0 <= i < |s| ==> IsDigit(s[i])
    ensures DigitPrefix(s) == s
  {
    if s != [] {
      DigitPrefixAll(s[1..]);
    }
  }

  /** `atoi` reads back what `"%u"` printed. */
  lemma AtoiReadsDecimal(n: nat)
    ensures Atoi(DecDigits(n)) == n
  {
    var d := DecDigits(n);
    assert IsDigit(d[0]);
    DigitPrefixAll(d);
  }

  /** White space before the number and anything after its digits are ignored. */
  lemma AtoiIgnoresSurroundings(n: nat, suffix: string)
    requires suffix == [] || !IsDigit(suffix[0])
    ensures Atoi(" " + DecDigits(n) + suffix) == n
  {
    var d := DecDigits(n);
    assert (" " + d + suffix)[1..] == d + suffix;
    assert IsDigit(d[0]) && (d + suffix)[0] == d[0];
    assert SkipSpace(" " + d + suffix) == d + suffix;
    DigitPrefixAppend(d, suffix);
  }

  lemma {:induction false} DigitPrefixAppend(d: string, suffix: string)
    requires forall i :: 0 <= i < |d| ==> IsDigit(d[i])
    requires suffix == [] || !IsDigit(suffix[0])
    ensures DigitPrefix(d + suffix) == d
  {
    if d != [] {
      assert (d + suffix)[1..] == d[1..] + suffix;
      DigitPrefixAppend(d[1..], suffix);
    }
  }

  /** `content_length = atoi(value)`: the `int` stored into a `size_t`. */
  function ContentLength(value: string): (n: nat)
    ensures n < SizeModulus
  {
    Atoi(value) % SizeModulus
  }

  // ---------------------------------------------------------------------
  // Progress
  // ---------------------------------------------------------------------

  /** A `size_t` converted to `int`. */
  function ToInt(x: nat): int
    requires x < SizeModulus
  {
    if x <= IntMax then x else x - SizeModulus
  }

  /**
   * `received * 100 / total` on `size_t`, as the source computes it:
   * `None` for a total of 0, where the division traps.
   */
  function PercentAsWritten(received: nat, total: nat): Option<int>
    requires received < SizeModulus
  {
    if total == 0 then None else Some(ToInt(((received * 100) % SizeModulus) / total))
  }

  /** Without wrap-around the percentage is the exact quotient, 0 to 100 for a partial download. */
  lemma PercentExact(received: nat, total: nat)
    requires 0 < total < SizeModulus && received * 100 <= IntMax
    ensures PercentAsWritten(received, total) == Some(received * 100 / total)
    ensures received <= total ==> 0 <= received * 100 / total <= 100
  {
    var p := received * 100;
    ModSmall(p, SizeModulus);
    DivAtMost(p, total);
    if received <= total {
      DivBound(p, total, 100);
    }
  }

  lemma ModSmall(a: nat, m: nat)
    requires a < m
    ensures a % m == a
  {
  }

  lemma DivAtMost(a: nat, b: nat)
    requires b > 0
    ensures a / b <= a
  {
    var q := a / b;
    assert a == b * q + a % b;
    assert 0 <= q && 0 <= a % b;
    MulNonNegative(b - 1, q);
    assert b * q == q + (b - 1) * q;
  }

  lemma MulNonNegative(x: nat, y: nat)
    ensures x * y >= 0
  {
  }

  lemma DivBound(a: nat, b: nat, k: nat)
    requires b > 0 && a <= b * k
    ensures a / b <= k
  {
  }

  /** `net_ota_progress(received, total)` as written, trapping on a total of 0. */
  function ReportAsWritten(p: Progress, received: nat, total: nat): Option<Handled>
    requires received < SizeModulus
  {
    var pct := PercentAsWritten(received, total);
    if pct.None? then None
    else Some(Handled(p.(lastPercent := pct.value),
                      if pct.value != p.lastPercent then [DisplayOta(OtaDownloading, pct.value), MqttOta(OtaDownloading, pct.value)] else []))
  }

  /** `net_ota_http_event_handler` as written. */
  function HandleAsWritten(p: Progress, e: HttpEvent): Option<Handled>
    requires p.receivedLength < SizeModulus
  {
    match e
    case OnConnected => Some(Handled(p.(contentLength := 0, receivedLength := 0), []))
    case OnHeader(k, v) =>
      Some(Handled(if k == ContentLengthKey then p.(contentLength := ContentLength(v)) else p, []))
    case OnData(len) =>
      var r := (p.receivedLength + len) % SizeModulus;
      ReportAsWritten(p.(receivedLength := r), r, p.contentLength)
    case _ => Some(Handled(p, []))
  }

  /**
   * A server that sends no Content-Length (a chunked image) leaves the
   * total at 0, and the first data event divides by it.
   */
  lemma ChunkedImageTraps(p: Progress)
    requires p.receivedLength < SizeModulus
    ensures var c := HandleAsWritten(p, OnConnected).value.next;
      HandleAsWritten(c, OnData(512)) == None
  {
  }

  /** `net_ota_progress` with an unknown total skipped: the percentage is reported only once it can be computed. */
  function Report(p: Progress, received: nat, total: nat): (h: Handled)
    requires received < SizeModulus
    ensures total == 0 ==> h == Handled(p, [])
    ensures total > 0 ==> Some(h) == ReportAsWritten(p, received, total)
  {
    if total == 0 then Handled(p, [])
    else
      var pct := ToInt(((received * 100) % SizeModulus) / total);
      Handled(p.(lastPercent := pct),
              if pct != p.lastPercent then [DisplayOta(OtaDownloading, pct), MqttOta(OtaDownloading, pct)] else [])
  }

  /** `net_ota_http_event_handler` with the unknown total handled. */
  function Handle(p: Progress, e: HttpEvent): Handled
    requires p.receivedLength < SizeModulus
  {
    match e
    case OnConnected => Handled(p.(contentLength := 0, receivedLength := 0), [])
    case OnHeader(k, v) => Handled(if k == ContentLengthKey then p.(contentLength := ContentLength(v)) else p, [])
    case OnData(len) =>
      var r := (p.receivedLength + len) % SizeModulus;
      Report(p.(receivedLength := r), r, p.contentLength)
    case _ => Handled(p, [])
  }

  /** The corrected handler agrees with the source on every call that does not trap. */
  lemma HandleAgrees(p: Progress, e: HttpEvent)
    requires p.receivedLength < SizeModulus
    requires HandleAsWritten(p, e).Some?
    ensures HandleAsWritten(p, e) == Some(Handle(p, e))
  {
  }

  /** A well-formed state: the counters hold `size_t` values. */
  predicate Sized(p: Progress)
  {
    p.contentLength < SizeModulus && p.receivedLength < SizeModulus
  }

  /**
   * ON_CONNECTED zeroes both lengths but keeps the last percentage; a
   * header named exactly "Content-Length" sets the total; a data event adds
   * its length to the bytes received.
   */
  lemma HandleEffects(p: Progress, e: HttpEvent)
    requires Sized(p)
    ensures Sized(Handle(p, e).next)
    ensures e.OnConnected? ==> Handle(p, e) == Handled(Progress(0, 0, p.lastPercent), [])
    ensures e.OnHeader? && e.key == ContentLengthKey ==> Handle(p, e).next == p.(contentLength := ContentLength(e.value))
    ensures e.OnHeader? && e.key != ContentLengthKey ==> Handle(p, e) == Handled(p, [])
    ensures e.OnData? ==> Handle(p, e).next.receivedLength == (p.receivedLength + e.len) % SizeModulus
                          && Handle(p, e).next.contentLength == p.contentLength
    ensures !e.OnConnected? && !e.OnHeader? && !e.OnData? ==> Handle(p, e) == Handled(p, [])
  {
  }

  /**
   * A percentage is reported, to the display and over MQTT, exactly when
   * it differs from the one computed by the previous call.
   */
  lemma ReportOnChange(p: Progress, received: nat, total: nat)
    requires received < SizeModulus && total > 0
    ensures var h := Report(p, received, total);
      && (h.actions != [] <==> h.next.lastPercent != p.lastPercent)
      && (h.actions != [] ==> h.actions == [DisplayOta(OtaDownloading, h.next.lastPercent), MqttOta(OtaDownloading, h.next.lastPercent)])
  {
  }

  /** The handler over a run of events: the state after and the percentages reported, in order. */
  function Run(p: Progress, es: seq<HttpEvent>): (Progress, seq<int>)
    requires Sized(p)
    decreases |es|
  {
    if es == [] then (p, [])
    else
      HandleEffects(p, es[0]);
      var h := Handle(p, es[0]);
      var (q, rest) := Run(h.next, es[1..]);
      (q, (if h.actions != [] then [h.actions[1].progress] else []) + rest)
  }

  /**
   * Reports never repeat: each percentage reported differs from the one
   * before it, and from the percentage last computed before the run.
   */
  lemma {:induction false} RunDeduplicates(p: Progress, es: seq<HttpEvent>)
    requires Sized(p)
    ensures var (q, reported) := Run(p, es);
      && (reported != [] ==> reported[0] != p.lastPercent && q.lastPercent == reported[|reported| - 1])
      && (reported == [] ==> q.lastPercent == p.lastPercent)
      && (forall i :: 0 <= i < |reported| - 1 ==> reported[i] != reported[i + 1])
    decreases |es|
  {
    if es != [] {
      HandleEffects(p, es[0]);
      var h := Handle(p, es[0]);
      RunDeduplicates(h.next, es[1..]);
      var (q, rest) := Run(h.next, es[1..]);
      var head := if h.actions != [] then [h.actions[1].progress] else [];
      assert Run(p, es) == (q, head + rest);
      if es[0].OnData? && p.contentLength > 0 {
        ReportOnChange(p.(receivedLength := (p.receivedLength + es[0].len) % SizeModulus),
                       (p.receivedLength + es[0].len) % SizeModulus, p.contentLength);
      }
      if h.actions != [] {
        assert h.actions[1].progress == h.next.lastPercent;
      } else {
        assert h.next.lastPercent == p.lastPercent;
      }
    }
  }

  /**
   * The last percentage survives a new connection: a second download whose
   * first percentage equals the last one of the previous download does not
   * report it.
   */
  lemma LastPercentSurvivesConnect(p: Progress, total: nat, received: nat)
    requires Sized(p) && 0 < total < SizeModulus && received < SizeModulus
    requires ToInt((received * 100) % SizeModulus / total) == p.lastPercent
    ensures var c := Handle(p, OnConnected).next;
      var t := c.(contentLength := total);
      Handle(t, OnData(received)).actions == []
  {
  }

  // ---------------------------------------------------------------------
  // The update
  // ---------------------------------------------------------------------

  /** What `net_ota_update` reports around `esp_https_ota`, given its result. */
  function UpdateReports(ret: EspErr): (r: seq<OtaAction>)
    ensures ret == Ok ==> PostMain(EvtOtaUpdateSuccess) in r && PostMain(EvtOtaUpdateFailed) !in r
    ensures ret != Ok ==> PostMain(EvtOtaUpdateFailed) in r && PostMain(EvtOtaUpdateSuccess) !in r
  {
    [DisplayOta(OtaDownloading, 0), MqttOta(OtaDownloading, 0)]
    + if ret == Ok then [MqttOta(OtaApplying, 100), Delay(ApplyDelayMs), PostMain(EvtOtaUpdateSuccess)]
      else [MqttOta(OtaError, 0), DisplayOta(OtaError, 100), PostMain(EvtOtaUpdateFailed)]
  }

  /**
   * Success is published as "applying" at 100 before the main task hears of
   * it; a failure is published as an error and shown before the main task
   * hears of it.  Either way the start was reported first, at 0.
   */
  lemma UpdateOrder(ret: EspErr)
    ensures var r := UpdateReports(ret);
      && r[..2] == [DisplayOta(OtaDownloading, 0), MqttOta(OtaDownloading, 0)]
      && |r| == 5
      && (ret == Ok ==> r[2] == MqttOta(OtaApplying, 100) && r[4] == PostMain(EvtOtaUpdateSuccess))
      && (ret != Ok ==> r[2] == MqttOta(OtaError, 0) && r[4] == PostMain(EvtOtaUpdateFailed))
  {
  }

  /** `net_ota_update`, given the result of `esp_https_ota`. */
  method Update(ret: EspErr) returns (actions: seq<OtaAction>)
    ensures actions == UpdateReports(ret)
  {
    actions := [DisplayOta(OtaDownloading, 0), MqttOta(OtaDownloading, 0)];
    if ret == Ok {
      actions := actions + [MqttOta(OtaApplying, 100), Delay(ApplyDelayMs), PostMain(EvtOtaUpdateSuccess)];
    } else {
      actions := actions + [MqttOta(OtaError, 0), DisplayOta(OtaError, 100), PostMain(EvtOtaUpdateFailed)];
    }
  }

  /** The statics of `net_ota.c`. */
  class OtaProgress {
    var contentLength: nat
    var receivedLength: nat
    var lastPercent: int

    function State(): Progress
      reads this
    {
      Progress(contentLength, receivedLength, lastPercent)
    }

    ghost predicate Valid()
      reads this
    {
      Sized(State())
    }

    constructor ()
      ensures Valid() && State() == ProgressBoot
    {
      contentLength, receivedLength, lastPercent := 0, 0, -1;
    }

    /** `net_ota_progress`, skipping an unknown total. */
    method ReportProgress(received: nat, total: nat) returns (actions: seq<OtaAction>)
      requires received < SizeModulus
      modifies this`lastPercent
      ensures Handled(State(), actions) == Report(old(State()), received, total)
    {
      actions := [];
      if total == 0 {
        return;
      }
      var percent := ToInt(((received * 100) % SizeModulus) / total);
      if percent != lastPercent {
        actions := [DisplayOta(OtaDownloading, percent), MqttOta(OtaDownloading, percent)];
      }
      lastPercent := percent;
    }

    /** `net_ota_http_event_handler`. */
    method HandleEvent(e: HttpEvent) returns (actions: seq<OtaAction>)
      requires Valid()
      modifies this
      ensures Valid()
      ensures Handled(State(), actions) == Handle(old(State()), e)
    {
      HandleEffects(State(), e);
      actions := [];
      match e {
        case OnConnected =>
          contentLength, receivedLength := 0, 0;
        case OnHeader(k, v) =>
          if k == ContentLengthKey {
            contentLength := ContentLength(v);
          }
        case OnData(len) =>
          receivedLength := (receivedLength + len) % SizeModulus;
          actions := ReportProgress(receivedLength, contentLength);
        case _ =>
      }
    }
  }
}
