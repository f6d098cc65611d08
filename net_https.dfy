/**
 * ACL download and install over HTTPS (net/net_https.c).
 *
 * The ACL is fetched into a temporary file on the SD card and, on HTTP 200,
 * moved over the installed copy.  Outcomes are described by total functions
 * over the file map; `DownloadAcl` is the task-side procedure with its
 * mutexes.
 */
module NetHttps {
  import opened Base
  import opened Events
  import opened Fs
  import Https

  /** The default URL format, "https://my-server.org:443/auth/api/v0/resources/%s/acl". */
  const AclUrlPrefix := "https://" + "my-server.org:443" + "/auth/api/" + "v0/resources/"
  const AclUrlFmtDefault := AclUrlPrefix + "%s" + "/acl"
  const AclResourceDefault := "frontdoor"
  const ApiUserDefault := "username"
  const ApiPasswordDefault := "password"
  const TempFile := "/sdcard/acl-temp.txt"
  const AclFile := "/sdcard/acl.txt"
  const UrlBufLen := 256

  /** `printf(fmt, arg)` for a format whose conversions are `%s` and `%%`. */
  function FormatS(fmt: string, arg: string): string
    decreases |fmt|
  {
    if fmt == [] then []
    else if fmt[0] == '%' && |fmt| >= 2 && fmt[1] == 's' then arg + FormatS(fmt[2..], arg)
    else if fmt[0] == '%' && |fmt| >= 2 && fmt[1] == '%' then "%" + FormatS(fmt[2..], arg)
    else [fmt[0]] + FormatS(fmt[1..], arg)
  }

  lemma {:induction false} FormatPlain(s: string, arg: string)
    requires '%' !in s
    ensures FormatS(s, arg) == s
    decreases |s|
  {
    if s != [] {
      FormatPlain(s[1..], arg);
    }
  }

  /** An ordinary character is copied. */
  lemma FormatChar(c: char, rest: string, arg: string)
    requires c != '%'
    ensures FormatS([c] + rest, arg) == [c] + FormatS(rest, arg)
  {
    assert ([c] + rest)[1..] == rest;
  }

  /** `%s` prints the argument. */
  lemma FormatHole(post: string, arg: string)
    requires '%' !in post
    ensures FormatS("%s" + post, arg) == arg + post
  {
    assert ("%s" + post)[2..] == post;
    FormatPlain(post, arg);
  }

  /** A format with one `%s` and no other `%` prints the argument in its place. */
  lemma {:induction false} FormatSingle(pre: string, post: string, arg: string)
    requires '%' !in pre && '%' !in post
    ensures FormatS(pre + "%s" + post, arg) == pre + arg + post
    decreases |pre|
  {
    if |pre| == 0 {
      assert pre + "%s" + post == "%s" + post;
      FormatHole(post, arg);
    } else {
      var c, tail := pre[0], pre[1..];
      var rest := tail + "%s" + post;
      assert pre + "%s" + post == [c] + rest;
      FormatChar(c, rest, arg);
      FormatSingle(tail, post, arg);
      assert pre + arg + post == [c] + (tail + arg + post);
    }
  }

  /** `snprintf(web_url, 256, fmt, resource)`. */
  function AclUrl(fmt: string, resource: string): (url: string)
    ensures |url| < UrlBufLen
    ensures url <= FormatS(fmt, resource)
  {
    Snprintf(FormatS(fmt, resource), UrlBufLen)
  }

  /** With the default configuration, the ACL comes from the frontdoor resource. */
  lemma DefaultAclUrl()
    ensures AclUrl(AclUrlFmtDefault, AclResourceDefault)
            == AclUrlPrefix + "frontdoor" + "/acl"
  {
    assert '%' !in "https://" && '%' !in "my-server.org:443" && '%' !in "/auth/api/" && '%' !in "v0/resources/";
    FormatSingle(AclUrlPrefix, "/acl", AclResourceDefault);
    assert |AclUrlPrefix + AclResourceDefault + "/acl"| == 61;
  }

  /** Whether deleting the old ACL or moving the new one into place fails. */
  datatype InstallFaults = InstallFaults(unlinkFails: bool, renameFails: bool)

  /** The return code, the files, the commands queued, and whether the SD-card mutex is still held. */
  datatype Download = Download(err: EspErr, files: map<string, Bytes>, queued: seq<NetCmd>, sdcardHeld: bool)

  /** The files after `http_get_file` into the temporary file. */
  function Fetched(files: map<string, Bytes>, x: Https.Exchange): map<string, Bytes>
  {
    if x.openFails then files else files[TempFile := Https.Sink(x)]
  }

  function FetchErr(x: Https.Exchange): EspErr
  {
    if x.openFails then Fail else x.performErr
  }

  /**
   * `net_https_download_acl()` as the source is written.  A reply other than
   * 200 returns without giving back `g_sdcard_mutex`; a failed delete or
   * rename reports the failure but returns the fetch's `ESP_OK`.
   */
  function DownloadAsWritten(files: map<string, Bytes>, x: Https.Exchange, f: InstallFaults): Download
  {
    var t := Fetched(files, x);
    var r := FetchErr(x);
    if r != Ok then Download(r, t, [CmdSendAclFailed], false)
    else if x.status != 200 then Download(Fail, t, [], true)
    else if AclFile in t && f.unlinkFails then Download(r, t, [CmdSendAclFailed], false)
    else
      var t2 := t - {AclFile};
      if f.renameFails then Download(r, t2, [CmdSendAclFailed], false)
      else Download(Ok, (t2 - {TempFile})[AclFile := t2[TempFile]], [CmdSendAclUpdated], false)
  }

  /** A 404 reply leaves the SD-card mutex held, so the next taker blocks forever. */
  lemma Non200KeepsSdcardLock(files: map<string, Bytes>, f: InstallFaults)
    ensures DownloadAsWritten(files, Https.Exchange(false, Ok, 404, false, []), f).sdcardHeld
  {
  }

  /** A rename that fails after the old ACL was deleted is returned as success. */
  lemma FailedInstallReturnsOk(files: map<string, Bytes>)
    requires AclFile in files
    ensures var d := DownloadAsWritten(files, Https.Exchange(false, Ok, 200, false, []), InstallFaults(false, true));
      d.err == Ok && AclFile !in d.files && d.queued == [CmdSendAclFailed]
  {
  }

  /** `net_https_download_acl()` with the mutex released and install failures returned as `ESP_FAIL`. */
  function DownloadOutcome(files: map<string, Bytes>, x: Https.Exchange, f: InstallFaults): Download
  {
    var t := Fetched(files, x);
    var r := FetchErr(x);
    if r != Ok then Download(r, t, [CmdSendAclFailed], false)
    else if x.status != 200 then Download(Fail, t, [], false)
    else if AclFile in t && f.unlinkFails then Download(Fail, t, [CmdSendAclFailed], false)
    else
      var t2 := t - {AclFile};
      if f.renameFails then Download(Fail, t2, [CmdSendAclFailed], false)
      else Download(Ok, (t2 - {TempFile})[AclFile := t2[TempFile]], [CmdSendAclUpdated], false)
  }

  /** The sequence of a successful exchange. */
  predicate Delivered(x: Https.Exchange, f: InstallFaults, files: map<string, Bytes>)
  {
    !x.openFails && x.performErr == Ok && x.status == 200
    && !(AclFile in files && f.unlinkFails) && !f.renameFails
  }

  /** The download never leaves the SD-card mutex held. */
  lemma DownloadReleasesSdcard(files: map<string, Bytes>, x: Https.Exchange, f: InstallFaults)
    ensures !DownloadOutcome(files, x, f).sdcardHeld
  {
  }

  /**
   * Success exactly when the fetch, the delete and the rename all succeed;
   * then the body is installed as the ACL, the temporary file is gone, and
   * the update is reported.
   */
  lemma DownloadSuccess(files: map<string, Bytes>, x: Https.Exchange, f: InstallFaults)
    ensures var d := DownloadOutcome(files, x, f);
      && (d.err == Ok <==> Delivered(x, f, files))
      && (d.err == Ok ==> d.files == (files - {TempFile})[AclFile := Https.Sink(x)] && d.queued == [CmdSendAclUpdated])
  {
  }

  /**
   * A transport or install failure is reported as a failed ACL update;
   * a reply other than 200 reports nothing; success reports the update.
   */
  lemma DownloadReports(files: map<string, Bytes>, x: Https.Exchange, f: InstallFaults)
    ensures var d := DownloadOutcome(files, x, f);
      && (d.queued == [CmdSendAclUpdated] <==> d.err == Ok)
      && (d.queued == [] <==> (FetchErr(x) == Ok && x.status != 200))
      && (d.queued == [CmdSendAclFailed] <==> (d.err != Ok && !(FetchErr(x) == Ok && x.status != 200)))
  {
  }

  /** Only the temporary file and the installed ACL can change; no hash file is written. */
  lemma DownloadTouchesOnlyAcl(files: map<string, Bytes>, x: Https.Exchange, f: InstallFaults, p: string)
    requires p != TempFile && p != AclFile
    ensures var d := DownloadOutcome(files, x, f);
      (p in d.files <==> p in files) && (p in files ==> d.files[p] == files[p])
  {
  }

  /** An install that fails keeps the previous ACL unless it was already deleted. */
  lemma FailedInstallKeepsOldAcl(files: map<string, Bytes>, x: Https.Exchange, f: InstallFaults)
    requires AclFile in files && DownloadOutcome(files, x, f).err != Ok
    requires !(FetchErr(x) == Ok && x.status == 200 && !f.unlinkFails && f.renameFails)
    ensures var d := DownloadOutcome(files, x, f);
      AclFile in d.files && d.files[AclFile] == files[AclFile]
  {
  }

  /**
   * `net_https_download_acl()`: fetch with the configured URL and
   * credentials under `g_sdcard_mutex`, then install under `g_acl_mutex`.
   */
  method DownloadAcl(fs: FileSystem, locks: Locks, fmt: string, resource: string,
                     user: string, pass: string, x: Https.Exchange, f: InstallFaults)
    returns (err: EspErr, queued: seq<NetCmd>, url: string)
    requires !locks.sdcardHeld && !locks.aclHeld && !locks.fdHeld
    modifies fs, locks
    ensures url == AclUrl(fmt, resource)
    ensures Download(err, fs.files, queued, locks.sdcardHeld) == DownloadOutcome(old(fs.files), x, f)
    ensures !locks.aclHeld && !locks.fdHeld
  {
    url := AclUrl(fmt, resource);
    locks.sdcardHeld := true;
    var r, result := Https.GetFile(fs, locks, url, user, pass, TempFile, x, 0);
    if r != Ok {
      locks.sdcardHeld := false;
      return r, [CmdSendAclFailed], url;
    }
    TempIsNotAcl();
    assert fs.files == old(fs.files)[TempFile := Https.Sink(x)];
    if result == 200 {
      locks.aclHeld := true;
      if AclFile in fs.files {
        var deleted := fs.Unlink(AclFile, f.unlinkFails);
        if !deleted {
          locks.sdcardHeld, locks.aclHeld := false, false;
          return Fail, [CmdSendAclFailed], url;
        }
      }
      var moved := fs.Rename(TempFile, AclFile, f.renameFails);
      if !moved {
        locks.sdcardHeld, locks.aclHeld := false, false;
        return Fail, [CmdSendAclFailed], url;
      }
      locks.aclHeld := false;
      queued := [CmdSendAclUpdated];
      locks.sdcardHeld := false;
      err := Ok;
    } else {
      locks.sdcardHeld := false;
      err, queued := Fail, [];
    }
  }

  /** The download and the installed list are different files. */
  lemma TempIsNotAcl()
    ensures TempFile != AclFile
  {
    assert TempFile[8] == 'a' && AclFile[8] == 'a' && TempFile[11] != AclFile[11];
  }

  /**
   * `net_https_get_file(url, filename)`: the result is `http_get_file`'s
   * code on every path, so a completed request with any HTTP status is
   * reported as success.
   */
  method GetFile(fs: FileSystem, locks: Locks, url: string, filename: string,
                 user: string, pass: string, x: Https.Exchange)
    returns (r: EspErr)
    requires !locks.fdHeld
    modifies fs, locks`fdHeld
    ensures !locks.fdHeld
    ensures r == FetchErr(x)
    ensures fs.files == if x.openFails then old(fs.files) else old(fs.files)[filename := Https.Sink(x)]
  {
    var result;
    r, result := Https.GetFile(fs, locks, url, user, pass, filename, x, 0);
  }
}
