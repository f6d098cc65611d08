/**
 * The network task's command bus (net/net_task.c).
 *
 * Other tasks post `net_evt_t` commands into a FreeRTOS queue of depth 8;
 * commands with text carry it in buffers the sender allocates and the
 * network task frees once the command is handled.  `NetBus` holds the
 * queue, the "started" state that `net_connect`/`net_disconnect` guard,
 * and `net_timer`'s counter; `Dispatch` describes one iteration of the
 * `net_task` loop.
 */
module NetTask {
  import opened Base
  import opened Events
  import opened Fs
  import Https
  import NetHttps

  const NetQueueDepth := 8
  /** `net_timer` runs once a second and reports the signal strength once a minute. */
  const WifiReportPeriod := 60
  /** The module tag every netif description of this task starts with. */
  const NetifPrefix := "net_task"
  /** `SIZE_MAX` for the 32-bit `size_t` of the target. */
  const SizeMax := 0xFFFF_FFFF

  /**
   * `net_evt_t`.  `buf2` and `allowed` share a union: an event carrying
   * the allowed byte has no second buffer.
   */
  datatype NetEvt = NetEvt(cmd: NetCmd, buf1: Option<string>, buf2: Option<string>, allowed: uint8)

  /** The event `net_cmd_queue(cmd)` sends: no buffers. */
  function Plain(cmd: NetCmd): NetEvt
  {
    NetEvt(cmd, None, None, 0)
  }

  /** The heap buffers an event points to. */
  function Buffers(e: NetEvt): nat
  {
    (if e.buf1.Some? then 1 else 0) + (if e.buf2.Some? then 1 else 0)
  }

  /** The heap buffers the queued events point to. */
  function Held(q: seq<NetEvt>): nat
  {
    if q == [] then 0 else Held(q[..|q| - 1]) + Buffers(q[|q| - 1])
  }

  lemma HeldAppend(q: seq<NetEvt>, e: NetEvt)
    ensures Held(q + [e]) == Held(q) + Buffers(e)
  {
    assert (q + [e])[..|q|] == q;
  }

  lemma {:induction false} HeldFront(q: seq<NetEvt>)
    requires q != []
    ensures Held(q) == Buffers(q[0]) + Held(q[1..])
    decreases |q|
  {
    if |q| > 1 {
      var init := q[..|q| - 1];
      HeldFront(init);
      assert init[1..] == q[1..][..|q[1..]| - 1];
      assert init[0] == q[0];
    }
  }

  lemma HeldOffered(q: seq<NetEvt>, e: NetEvt)
    ensures Held(Offered(q, NetQueueDepth, e)) == Held(q) + (if |q| < NetQueueDepth then Buffers(e) else 0)
  {
    if |q| < NetQueueDepth {
      HeldAppend(q, e);
    }
  }

  /**
   * Which buffers the senders attach to each command: the access report
   * has one, the access error and the file fetch two, every other
   * command none.
   */
  predicate Shape(e: NetEvt)
  {
    match e.cmd
    case CmdSendAccess => e.buf2.None?
    case CmdSendAccessError => true
    case CmdWget => true
    case _ => e.buf1.None? && e.buf2.None?
  }

  predicate Shaped(q: seq<NetEvt>)
  {
    forall i :: 0 <= i < |q| ==> Shape(q[i])
  }

  /** `malloc(strlen(s) + 1)` filled by `strncpy(buf, s, strlen(s) + 1)`. */
  function CopyBuf(s: string): string
  {
    Strncpy(s, |s| + 1)
  }

  /** A copied buffer is the string and its terminator, so it reads back as the string. */
  lemma CopyBufText(s: string)
    requires '\0' !in s
    ensures CopyBuf(s) == s + "\0"
    ensures CStr(CopyBuf(s), '\0') == s
  {
    assert seq(1, _ => '\0') == "\0";
    StrncpyTerminated(s, |s| + 1);
  }

  /** The C string a buffer holds; a NULL pointer reads as the empty string. */
  function Text(b: Option<string>): string
  {
    if b.Some? then CStr(b.value, '\0') else ""
  }

  /**
   * The second buffer of `net_cmd_queue_access_error(err, err_ext)` as the
   * source fills it: sized for `err_ext`, but copied from `err`.
   */
  function AccessErrorBuf2AsWritten(err: string, ext: string): string
  {
    Strncpy(err, |ext| + 1)
  }

  /**
   * The unknown-tag report of the main task loses the tag and leaves the
   * buffer without a terminator.
   */
  lemma AccessErrorAsWrittenLosesTag()
    ensures AccessErrorBuf2AsWritten("unknown rfid tag", "0000000042") == "unknown rfi"
    ensures '\0' !in AccessErrorBuf2AsWritten("unknown rfid tag", "0000000042")
  {
    var s := AccessErrorBuf2AsWritten("unknown rfid tag", "0000000042");
    assert |s| == 11;
    assert s == "unknown rfid tag"[..11];
    assert "unknown rfid tag" == "unknown rfi" + "d tag";
    assert ("unknown rfi" + "d tag")[..11] == "unknown rfi";
  }

  /** The second buffer copied from `err_ext`, as its allocation intends. */
  function AccessErrorBuf2(err: string, ext: string): string
  {
    CopyBuf(ext)
  }

  /** Corrected: the access error command carries both texts unchanged. */
  lemma AccessErrorCarriesBoth(err: string, ext: string)
    requires '\0' !in err && '\0' !in ext
    ensures Text(Some(CopyBuf(err))) == err
    ensures Text(Some(AccessErrorBuf2(err, ext))) == ext
  {
    CopyBufText(err);
    CopyBufText(ext);
  }

  /**
   * `is_our_netif(prefix, netif)`: `strncmp` over `strlen(prefix) - 1`
   * characters, which wraps to `SIZE_MAX` for an empty prefix.
   */
  predicate IsOurNetif(prefix: string, desc: string)
  {
    StrnEq(prefix, desc, if |prefix| == 0 then SizeMax else |prefix| - 1)
  }

  /** The last character of the prefix is not compared: "net_tas" is enough. */
  lemma IsOurNetifIgnoresLast(desc: string)
    requires '\0' !in desc
    ensures IsOurNetif(NetifPrefix, desc) <==> |desc| >= 7 && desc[..7] == "net_tas"
  {
    StrnEqIff(NetifPrefix, desc, 7);
    assert NetifPrefix[..7] == "net_tas";
  }

  /** What the network task does for one command, in order. */
  datatype Effect =
    | SntpInit
    | SntpStop
    | WifiStart
    | WifiStop
    | MqttStart
    | MqttStop
    | ShowAclStatus(status: AclStatus)
    | FetchAcl(url: string)
    | PublishAclUpdated(success: bool)
    | PublishWifiStrength
    | PublishAccess(member: string, granted: uint8)
    | PublishAccessError(err: string, ext: string)
    | OtaUpdate
    | FetchFile(url: string, filename: string, result: EspErr)

  /**
   * The configuration strings the ACL download reads, and the basic-auth
   * credentials `net_https_get_file` is built with.
   */
  datatype NetConfig = NetConfig(aclUrlFmt: string, aclResource: string, apiUser: string, apiPassword: string,
                                 webUser: string, webPassword: string)

  /** The queue, the started state, the files, what was done, and how many buffers were freed. */
  datatype Turn = Turn(items: seq<NetEvt>, started: bool, files: map<string, Bytes>, effects: seq<Effect>, freed: nat)

  /**
   * One iteration of the `net_task` loop: the oldest command, if any, is
   * taken from the queue and handled.  `x` and `f` describe the HTTP
   * exchange and the filesystem faults of a download or fetch.
   */
  function Dispatch(items: seq<NetEvt>, started: bool, files: map<string, Bytes>, cfg: NetConfig,
                    x: Https.Exchange, f: NetHttps.InstallFaults): Turn
  {
    if items == [] then Turn(items, started, files, [], 0)
    else Handle(items[0], items[1..], started, files, cfg, x, f)
  }

  /**
   * The DOWNLOAD_ACL case around a download that ended as `d`: the status
   * shown after it is "updated" only when the download returned `ESP_OK`.
   */
  function DownloadTurn(d: NetHttps.Download, rest: seq<NetEvt>, started: bool, cfg: NetConfig): Turn
  {
    var q := if d.queued == [] then rest else Offered(rest, NetQueueDepth, Plain(d.queued[0]));
    Turn(q, started, d.files,
         [ShowAclStatus(AclDownloading), MqttStop, FetchAcl(NetHttps.AclUrl(cfg.aclUrlFmt, cfg.aclResource)),
          ShowAclStatus(if d.err == Ok then AclDownloadedUpdated else AclError), MqttStart], 0)
  }

  /** The `switch (evt.cmd)` of the `net_task` loop, with `rest` the commands still queued. */
  function Handle(e: NetEvt, rest: seq<NetEvt>, started: bool, files: map<string, Bytes>, cfg: NetConfig,
                  x: Https.Exchange, f: NetHttps.InstallFaults): Turn
  {
      match e.cmd
      case CmdInit => Turn(Offered(rest, NetQueueDepth, Plain(CmdDownloadAcl)), started, files, [SntpInit], 0)
      case CmdDisconnect => Turn(rest, false, files, [SntpStop, MqttStop] + (if started then [WifiStop] else []), 0)
      case CmdConnect => Turn(rest, true, files, if started then [] else [WifiStart], 0)
      case CmdDownloadAcl => DownloadTurn(NetHttps.DownloadOutcome(files, x, f), rest, started, cfg)
      case CmdSendAclUpdated => Turn(rest, started, files, [PublishAclUpdated(true)], 0)
      case CmdSendAclFailed => Turn(rest, started, files, [PublishAclUpdated(false)], 0)
      case CmdSendWifiStr => Turn(rest, started, files, [PublishWifiStrength], 0)
      case CmdSendAccess =>
        Turn(rest, started, files, [PublishAccess(Text(e.buf1), e.allowed)], if e.buf1.Some? then 1 else 0)
      case CmdSendAccessError =>
        Turn(rest, started, files, [PublishAccessError(Text(e.buf1), Text(e.buf2))], Buffers(e))
      case CmdOtaUpdate => Turn(rest, started, files, [OtaUpdate], 0)
      case CmdWget =>
        var name := Text(e.buf2);
        var files' := if x.openFails then files else files[name := Https.Sink(x)];
        Turn(rest, started, files', [FetchFile(Text(e.buf1), name, NetHttps.FetchErr(x))], Buffers(e))
      case CmdSendPowerStatus => Turn(rest, started, files, [], 0)
      case CmdSendDoorState => Turn(rest, started, files, [], 0)
  }

  /**
   * Commands are handled oldest first and one at a time: the commands
   * still waiting stay queued in order, and at most one new command is
   * added behind them.  An empty queue does nothing.
   */
  lemma DispatchInOrder(items: seq<NetEvt>, started: bool, files: map<string, Bytes>, cfg: NetConfig,
                        x: Https.Exchange, f: NetHttps.InstallFaults)
    ensures var t := Dispatch(items, started, files, cfg, x, f);
      && (items == [] ==> t == Turn(items, started, files, [], 0))
      && (items != [] ==> items[1..] <= t.items && |t.items| <= |items|)
  {
  }

  /** `NET_CMD_INIT` always finds room to queue the ACL download behind the waiting commands. */
  lemma InitQueuesDownload(items: seq<NetEvt>, started: bool, files: map<string, Bytes>, cfg: NetConfig,
                           x: Https.Exchange, f: NetHttps.InstallFaults)
    requires items != [] && items[0].cmd == CmdInit && |items| <= NetQueueDepth
    ensures Dispatch(items, started, files, cfg, x, f)
            == Turn(items[1..] + [Plain(CmdDownloadAcl)], started, files, [SntpInit], 0)
  {
  }

  /**
   * `NET_CMD_DOWNLOAD_ACL` stops MQTT before the download and restarts it
   * afterwards whatever the result; the ACL status shows "updated" exactly
   * when the download succeeded, and the download's report is queued.
   */
  lemma DownloadRestartsMqtt(items: seq<NetEvt>, started: bool, files: map<string, Bytes>, cfg: NetConfig,
                             x: Https.Exchange, f: NetHttps.InstallFaults)
    requires items != [] && items[0].cmd == CmdDownloadAcl && |items| <= NetQueueDepth
    ensures var t := Dispatch(items, started, files, cfg, x, f);
      var d := NetHttps.DownloadOutcome(files, x, f);
      && |t.effects| == 5 && t.effects[1] == MqttStop && t.effects[4] == MqttStart
      && (t.effects[3] == ShowAclStatus(AclDownloadedUpdated) <==> d.err == Ok)
      && t.files == d.files
      && t.items == items[1..] + seq(|d.queued|, i requires 0 <= i < |d.queued| => Plain(d.queued[i]))
  {
    var d := NetHttps.DownloadOutcome(files, x, f);
    assert |d.queued| <= 1;
  }

  /**
   * What the loop would do around the download as written: a 200 reply whose
   * rename fails shows "updated" where the corrected download shows the
   * error, and a 404 reply leaves the SD-card mutex held where the corrected
   * download gives it back.
   */
  lemma AsWrittenDownloadDiffers(items: seq<NetEvt>, started: bool, files: map<string, Bytes>, cfg: NetConfig)
    requires items != [] && items[0].cmd == CmdDownloadAcl
    ensures var x := Https.Exchange(false, Ok, 200, false, []);
      var f := NetHttps.InstallFaults(false, true);
      && DownloadTurn(NetHttps.DownloadAsWritten(files, x, f), items[1..], started, cfg).effects[3]
         == ShowAclStatus(AclDownloadedUpdated)
      && Dispatch(items, started, files, cfg, x, f).effects[3] == ShowAclStatus(AclError)
    ensures var x := Https.Exchange(false, Ok, 404, false, []);
      forall f: NetHttps.InstallFaults ::
        NetHttps.DownloadAsWritten(files, x, f).sdcardHeld && !NetHttps.DownloadOutcome(files, x, f).sdcardHeld
  {
  }

  /** The power and door reports have no handler: nothing happens but the dequeue. */
  lemma UnhandledDoNothing(items: seq<NetEvt>, started: bool, files: map<string, Bytes>, cfg: NetConfig,
                           x: Https.Exchange, f: NetHttps.InstallFaults)
    requires items != [] && items[0].cmd in {CmdSendPowerStatus, CmdSendDoorState}
    ensures Dispatch(items, started, files, cfg, x, f) == Turn(items[1..], started, files, [], 0)
  {
  }

  /** Connecting brings the interface up only when stopped; disconnecting takes it down only when started. */
  lemma ConnectGuards(items: seq<NetEvt>, started: bool, files: map<string, Bytes>, cfg: NetConfig,
                      x: Https.Exchange, f: NetHttps.InstallFaults)
    requires items != [] && items[0].cmd in {CmdConnect, CmdDisconnect}
    ensures var t := Dispatch(items, started, files, cfg, x, f);
      && t.started == (items[0].cmd == CmdConnect)
      && (WifiStart in t.effects <==> items[0].cmd == CmdConnect && !started)
      && (WifiStop in t.effects <==> items[0].cmd == CmdDisconnect && started)
  {
  }

  /** Only the ACL download and the file fetch touch the SD card. */
  lemma OnlyFetchesWrite(items: seq<NetEvt>, started: bool, files: map<string, Bytes>, cfg: NetConfig,
                         x: Https.Exchange, f: NetHttps.InstallFaults)
    requires items == [] || items[0].cmd !in {CmdDownloadAcl, CmdWget}
    ensures Dispatch(items, started, files, cfg, x, f).files == files
  {
  }

  /**
   * Handling a command frees exactly the buffers it carried, and the events
   * left in the queue keep their shape.
   */
  lemma DispatchReleases(items: seq<NetEvt>, started: bool, files: map<string, Bytes>, cfg: NetConfig,
                         x: Https.Exchange, f: NetHttps.InstallFaults)
    requires Shaped(items)
    ensures var t := Dispatch(items, started, files, cfg, x, f);
      Held(t.items) + t.freed == Held(items) && Shaped(t.items)
  {
    if items != [] {
      var rest := items[1..];
      HeldFront(items);
      assert Shape(items[0]);
      assert Shaped(rest) by {
        forall i | 0 <= i < |rest| ensures Shape(rest[i]) {
          assert rest[i] == items[i + 1];
        }
      }
      HandleReleases(items[0], rest, started, files, cfg, x, f);
    }
  }

  /** One handled command frees its own buffers and leaves the rest of the queue's buffers held. */
  lemma HandleReleases(e: NetEvt, rest: seq<NetEvt>, started: bool, files: map<string, Bytes>, cfg: NetConfig,
                       x: Https.Exchange, f: NetHttps.InstallFaults)
    requires Shape(e) && Shaped(rest)
    ensures var t := Handle(e, rest, started, files, cfg, x, f);
      Held(t.items) + t.freed == Held(rest) + Buffers(e) && Shaped(t.items)
  {
    if e.cmd == CmdInit {
      OfferedPlain(rest, CmdDownloadAcl);
    } else if e.cmd == CmdDownloadAcl {
      var d := NetHttps.DownloadOutcome(files, x, f);
      if d.queued != [] {
        OfferedPlain(rest, d.queued[0]);
      }
    }
  }

  /** Queueing a command without buffers adds none and keeps the queue's shape. */
  lemma OfferedPlain(rest: seq<NetEvt>, c: NetCmd)
    requires Shaped(rest)
    ensures Held(Offered(rest, NetQueueDepth, Plain(c))) == Held(rest)
    ensures Shaped(Offered(rest, NetQueueDepth, Plain(c)))
  {
    HeldOffered(rest, Plain(c));
    var q := Offered(rest, NetQueueDepth, Plain(c));
    forall i | 0 <= i < |q| ensures Shape(q[i]) {
      if i < |rest| { assert q[i] == rest[i]; }
    }
  }

  /** `net_timer` reports the signal strength on the tick counted as 0, 60, 120, ... */
  predicate WifiReportDue(interval: nat)
  {
    interval % WifiReportPeriod == 0
  }

  /** Of any 60 consecutive counted ticks, exactly the one at a multiple of 60 reports. */
  lemma OneReportPerMinute(k: nat, j: nat)
    requires WifiReportDue(k) && k < j < k + WifiReportPeriod
    ensures !WifiReportDue(j) && WifiReportDue(k + WifiReportPeriod)
  {
  }

  /**
   * The network task's state: the command queue, whether the interface
   * was started, `net_timer`'s counter, and the heap buffers the senders
   * allocated and nobody has freed.
   */
  class NetBus {
    const mbox: Mailbox<NetEvt>
    var started: bool
    var interval: nat
    ghost var live: nat
    ghost var leaked: nat

    ghost predicate Valid()
      reads this, mbox
    {
      mbox.capacity == NetQueueDepth && mbox.Valid() && Shaped(mbox.items) && live == Held(mbox.items) + leaked
    }

    /** `net_init`: the empty queue, the interface stopped. */
    constructor ()
      ensures Valid() && fresh(mbox)
      ensures mbox.items == [] && !started && interval == 0 && live == 0 && leaked == 0
    {
      mbox := new Mailbox<NetEvt>(NetQueueDepth);
      started := false;
      interval := 0;
      live := 0;
      leaked := 0;
    }

    /** Offer an event to the queue; a full queue refuses it and its buffers are lost. */
    method Post(e: NetEvt) returns (err: EspErr)
      requires Valid() && Shape(e)
      modifies this, mbox
      ensures Valid()
      ensures mbox.items == Offered(old(mbox.items), NetQueueDepth, e)
      ensures err == if |old(mbox.items)| < NetQueueDepth then Ok else Fail
      ensures started == old(started) && interval == old(interval)
      ensures live == old(live) + Buffers(e)
      ensures leaked == old(leaked) + if err == Ok then 0 else Buffers(e)
    {
      var before := mbox.items;
      var ok := mbox.Send(e);
      HeldOffered(before, e);
      live := live + Buffers(e);
      if ok {
        err := Ok;
        assert mbox.items == before + [e];
        assert forall i :: 0 <= i < |before| ==> mbox.items[i] == before[i];
      } else {
        err := Fail;
        leaked := leaked + Buffers(e);
      }
    }

    /** `net_cmd_queue(cmd)`. */
    method Queue(cmd: NetCmd) returns (err: EspErr)
      requires Valid()
      modifies this, mbox
      ensures Valid()
      ensures mbox.items == Offered(old(mbox.items), NetQueueDepth, Plain(cmd))
      ensures err == if |old(mbox.items)| < NetQueueDepth then Ok else Fail
      ensures started == old(started) && interval == old(interval)
      ensures live == old(live) && leaked == old(leaked)
    {
      err := Post(Plain(cmd));
    }

    /**
     * `net_cmd_queue_access(member, allowed)`: the member name goes in a new
     * buffer and `allowed` is stored as a byte.  A refused send leaks it.
     */
    method QueueAccess(member: string, allowed: int, allocOk: bool) returns (err: EspErr)
      requires Valid()
      modifies this, mbox
      ensures Valid()
      ensures started == old(started) && interval == old(interval)
      ensures !allocOk ==> err == NoMem && mbox.items == old(mbox.items) && live == old(live) && leaked == old(leaked)
      ensures allocOk ==>
        var e := NetEvt(CmdSendAccess, Some(CopyBuf(member)), None, (allowed % 256) as uint8);
        && mbox.items == Offered(old(mbox.items), NetQueueDepth, e)
        && err == (if |old(mbox.items)| < NetQueueDepth then Ok else Fail)
        && live == old(live) + 1
        && leaked == old(leaked) + (if err == Ok then 0 else 1)
    {
      if !allocOk {
        return NoMem;
      }
      err := Post(NetEvt(CmdSendAccess, Some(CopyBuf(member)), None, (allowed % 256) as uint8));
    }

    /**
     * `net_cmd_queue_access_error(err, err_ext)` with the second buffer
     * copied from `err_ext`.  If either allocation fails, both are freed
     * and nothing is queued.
     */
    method QueueAccessError(err: string, ext: string, alloc1Ok: bool, alloc2Ok: bool) returns (r: EspErr)
      requires Valid()
      modifies this, mbox
      ensures Valid()
      ensures started == old(started) && interval == old(interval)
      ensures !(alloc1Ok && alloc2Ok) ==>
        r == NoMem && mbox.items == old(mbox.items) && live == old(live) && leaked == old(leaked)
      ensures alloc1Ok && alloc2Ok ==>
        var e := NetEvt(CmdSendAccessError, Some(CopyBuf(err)), Some(AccessErrorBuf2(err, ext)), 0);
        && mbox.items == Offered(old(mbox.items), NetQueueDepth, e)
        && r == (if |old(mbox.items)| < NetQueueDepth then Ok else Fail)
        && live == old(live) + 2
        && leaked == old(leaked) + (if r == Ok then 0 else 2)
    {
      if !(alloc1Ok && alloc2Ok) {
        return NoMem;
      }
      r := Post(NetEvt(CmdSendAccessError, Some(CopyBuf(err)), Some(AccessErrorBuf2(err, ext)), 0));
    }

    /** `net_cmd_queue_wget(url, filename)`: two buffers, freed together if either allocation fails. */
    method QueueWget(url: string, filename: string, alloc1Ok: bool, alloc2Ok: bool) returns (r: EspErr)
      requires Valid()
      modifies this, mbox
      ensures Valid()
      ensures started == old(started) && interval == old(interval)
      ensures !(alloc1Ok && alloc2Ok) ==>
        r == NoMem && mbox.items == old(mbox.items) && live == old(live) && leaked == old(leaked)
      ensures alloc1Ok && alloc2Ok ==>
        var e := NetEvt(CmdWget, Some(CopyBuf(url)), Some(CopyBuf(filename)), 0);
        && mbox.items == Offered(old(mbox.items), NetQueueDepth, e)
        && r == (if |old(mbox.items)| < NetQueueDepth then Ok else Fail)
        && live == old(live) + 2
        && leaked == old(leaked) + (if r == Ok then 0 else 2)
    {
      if !(alloc1Ok && alloc2Ok) {
        return NoMem;
      }
      r := Post(NetEvt(CmdWget, Some(CopyBuf(url)), Some(CopyBuf(filename)), 0));
    }

    /** `net_connect()`: refused while already started. */
    method Connect() returns (r: EspErr)
      modifies this
      ensures r == if old(started) then InvalidState else Ok
      ensures started
      ensures interval == old(interval) && live == old(live) && leaked == old(leaked)
    {
      if started {
        return InvalidState;
      }
      started := true;
      r := Ok;
    }

    /** `net_disconnect()`: refused while not started. */
    method Disconnect() returns (r: EspErr)
      modifies this
      ensures r == if old(started) then Ok else InvalidState
      ensures !started
      ensures interval == old(interval) && live == old(live) && leaked == old(leaked)
    {
      if !started {
        return InvalidState;
      }
      started := false;
      r := Ok;
    }

    /**
     * `net_timer`: with the access point's record available, show its
     * RSSI, queue a signal report on every 60th counted tick, and count
     * the tick.  Without it, nothing happens.
     */
    method Timer(rssi: Option<int>) returns (shown: Option<int>)
      requires Valid()
      modifies this, mbox
      ensures Valid()
      ensures shown == rssi
      ensures started == old(started) && live == old(live) && leaked == old(leaked)
      ensures rssi.None? ==> interval == old(interval) && mbox.items == old(mbox.items)
      ensures rssi.Some? ==> interval == old(interval) + 1
      ensures rssi.Some? && WifiReportDue(old(interval)) ==>
        mbox.items == Offered(old(mbox.items), NetQueueDepth, Plain(CmdSendWifiStr))
      ensures rssi.Some? && !WifiReportDue(old(interval)) ==> mbox.items == old(mbox.items)
    {
      shown := rssi;
      if rssi.Some? {
        if interval % WifiReportPeriod == 0 {
          var _ := Queue(CmdSendWifiStr);
        }
        interval := interval + 1;
      }
    }

    /**
     * One iteration of the `net_task` loop, as `Dispatch` describes it;
     * the buffers of the handled command are freed.
     */
    method Iterate(fs: FileSystem, locks: Locks, cfg: NetConfig, x: Https.Exchange, f: NetHttps.InstallFaults)
      returns (effects: seq<Effect>)
      requires Valid() && !locks.sdcardHeld && !locks.aclHeld && !locks.fdHeld
      modifies this, mbox, fs, locks
      ensures Valid() && !locks.sdcardHeld && !locks.aclHeld && !locks.fdHeld
      ensures interval == old(interval) && leaked == old(leaked)
      ensures var t := Dispatch(old(mbox.items), old(started), old(fs.files), cfg, x, f);
        && mbox.items == t.items && started == t.started && fs.files == t.files
        && effects == t.effects && live + t.freed == old(live)
    {
      ghost var items0, started0, files0 := mbox.items, started, fs.files;
      ghost var t := Dispatch(items0, started0, files0, cfg, x, f);
      DispatchReleases(items0, started0, files0, cfg, x, f);
      var m := mbox.Receive();
      if m.None? {
        return [];
      }
      var e := m.value;
      assert t == Handle(e, mbox.items, started0, files0, cfg, x, f);
      effects := Serve(e, fs, locks, cfg, x, f);
      live := live - t.freed;
    }

    /** The `switch (evt.cmd)` for a command already taken from the queue. */
    method Serve(e: NetEvt, fs: FileSystem, locks: Locks, cfg: NetConfig, x: Https.Exchange, f: NetHttps.InstallFaults)
      returns (effects: seq<Effect>)
      requires mbox.Valid() && mbox.capacity == NetQueueDepth
      requires !locks.sdcardHeld && !locks.aclHeld && !locks.fdHeld
      modifies this, mbox, fs, locks
      ensures mbox.Valid() && !locks.sdcardHeld && !locks.aclHeld && !locks.fdHeld
      ensures interval == old(interval) && live == old(live) && leaked == old(leaked)
      ensures var t := Handle(e, old(mbox.items), old(started), old(fs.files), cfg, x, f);
        && mbox.items == t.items && started == t.started && fs.files == t.files && effects == t.effects
    {
      if e.cmd == CmdDownloadAcl {
        effects := DownloadCmd(fs, locks, cfg, x, f);
      } else if e.cmd == CmdWget {
        effects := WgetCmd(e, fs, locks, cfg, x, f);
      } else {
        effects := LocalCmd(e, fs, cfg, x, f);
      }
    }

    /** `NET_CMD_DOWNLOAD_ACL`: the download, its report queued, MQTT restarted. */
    method DownloadCmd(fs: FileSystem, locks: Locks, cfg: NetConfig, x: Https.Exchange, f: NetHttps.InstallFaults)
      returns (effects: seq<Effect>)
      requires mbox.Valid() && mbox.capacity == NetQueueDepth
      requires !locks.sdcardHeld && !locks.aclHeld && !locks.fdHeld
      modifies mbox, fs, locks
      ensures mbox.Valid() && !locks.sdcardHeld && !locks.aclHeld && !locks.fdHeld
      ensures var t := Handle(Plain(CmdDownloadAcl), old(mbox.items), started, old(fs.files), cfg, x, f);
        mbox.items == t.items && fs.files == t.files && effects == t.effects
    {
      var r, queued, url := NetHttps.DownloadAcl(fs, locks, cfg.aclUrlFmt, cfg.aclResource,
                                                cfg.apiUser, cfg.apiPassword, x, f);
      if queued != [] {
        var _ := mbox.Send(Plain(queued[0]));
      }
      effects := [ShowAclStatus(AclDownloading), MqttStop, FetchAcl(url),
                  ShowAclStatus(if r == Ok then AclDownloadedUpdated else AclError), MqttStart];
    }

    /** `NET_CMD_WGET`: fetch the URL of the first buffer into the file named by the second. */
    method WgetCmd(e: NetEvt, fs: FileSystem, locks: Locks, cfg: NetConfig, x: Https.Exchange, f: NetHttps.InstallFaults)
      returns (effects: seq<Effect>)
      requires e.cmd == CmdWget && !locks.fdHeld
      modifies fs, locks`fdHeld
      ensures !locks.fdHeld
      ensures var t := Handle(e, mbox.items, started, old(fs.files), cfg, x, f);
        fs.files == t.files && effects == t.effects
    {
      var r := NetHttps.GetFile(fs, locks, Text(e.buf1), Text(e.buf2), cfg.webUser, cfg.webPassword, x);
      effects := [FetchFile(Text(e.buf1), Text(e.buf2), r)];
    }

    /** The commands that touch no file. */
    method LocalCmd(e: NetEvt, fs: FileSystem, cfg: NetConfig, x: Https.Exchange, f: NetHttps.InstallFaults)
      returns (effects: seq<Effect>)
      requires e.cmd != CmdDownloadAcl && e.cmd != CmdWget
      requires mbox.Valid() && mbox.capacity == NetQueueDepth
      modifies this, mbox
      ensures mbox.Valid()
      ensures interval == old(interval) && live == old(live) && leaked == old(leaked)
      ensures var t := Handle(e, old(mbox.items), old(started), fs.files, cfg, x, f);
        mbox.items == t.items && started == t.started && effects == t.effects
    {
      match e.cmd {
        case CmdInit =>
          var _ := mbox.Send(Plain(CmdDownloadAcl));
          effects := [SntpInit];
        case CmdDisconnect =>
          effects := [SntpStop, MqttStop];
          if started {
            started := false;
            effects := effects + [WifiStop];
          }
        case CmdConnect =>
          if !started {
            started := true;
            effects := [WifiStart];
          } else {
            effects := [];
          }
        case CmdSendAclUpdated =>
          effects := [PublishAclUpdated(true)];
        case CmdSendAclFailed =>
          effects := [PublishAclUpdated(false)];
        case CmdSendWifiStr =>
          effects := [PublishWifiStrength];
        case CmdSendAccess =>
          effects := [PublishAccess(Text(e.buf1), e.allowed)];
        case CmdSendAccessError =>
          effects := [PublishAccessError(Text(e.buf1), Text(e.buf2))];
        case CmdOtaUpdate =>
          effects := [OtaUpdate];
        case CmdSendPowerStatus =>
          effects := [];
        case CmdSendDoorState =>
          effects := [];
      }
    }
  }
}
