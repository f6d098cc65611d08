/**
 * The serial console's `log` command and its poll step (console.c).
 *
 * `log <tag> <level>` sets a tag's log level from the level's first
 * letter, ignoring case; `console_poll` reads one line, keeps non-empty
 * lines in the history and runs the line as a command.  Line editing and
 * command dispatch belong to linenoise and `esp_console` and are
 * parameters here.
 */
module Console {
  import opened Base

  datatype LogLevel = LogNone | LogError | LogWarn | LogInfo | LogDebug | LogVerbose

  /** What one `set_log` call does: its return value, the level it sets, and what it prints. */
  datatype SetLogResult = SetLogResult(ret: EspErr, applied: Option<(string, LogLevel)>, printed: seq<string>)

  const InvalidLevelMsg := "\nInvalid log level\n"
  const UsageMsg := "\nMust specify <tag> <level>\n"

  function SetMsg(tag: string, level: string): string
  {
    "\nSet log level " + tag + " to " + level + "\n\n"
  }

  /** `toupper` in the C locale. */
  function ToUpper(c: char): (u: char)
    ensures 'a' <= c <= 'z' ==> u as int == c as int - 32
    ensures !('a' <= c <= 'z') ==> u == c
  {
    if 'a' <= c <= 'z' then (c as int - 32) as char else c
  }

  /** The level a letter names, in either case. */
  function LevelOf(c: char): Option<LogLevel>
  {
    match ToUpper(c)
    case 'N' => Some(LogNone)
    case 'E' => Some(LogError)
    case 'W' => Some(LogWarn)
    case 'I' => Some(LogInfo)
    case 'D' => Some(LogDebug)
    case 'V' => Some(LogVerbose)
    case _ => None
  }

  /** The upper-case letter that names a level. */
  function Letter(l: LogLevel): char
  {
    match l
    case LogNone => 'N'
    case LogError => 'E'
    case LogWarn => 'W'
    case LogInfo => 'I'
    case LogDebug => 'D'
    case LogVerbose => 'V'
  }

  /**
   * `set_log`.  `parseErrors` is what `arg_parse` returns; `tag` and
   * `level` are the two parsed strings.
   */
  function SetLog(parseErrors: nat, tag: string, level: string): SetLogResult
  {
    if parseErrors != 0 then SetLogResult(Code(1), None, [])
    else if |tag| >= 1 && |level| >= 1 then
      var l := LevelOf(level[0]);
      SetLogResult(Ok, Some((tag, if l.Some? then l.value else LogError)),
                   (if l.None? then [InvalidLevelMsg] else []) + [SetMsg(tag, level)])
    else SetLogResult(NotFound, None, [UsageMsg])
  }

  // ---------------------------------------------------------------------
  // Properties of `set_log`
  // ---------------------------------------------------------------------

  /** Each level's letter names it in upper and in lower case, and no other letter names it. */
  lemma LettersRoundTrip(l: LogLevel, c: char)
    ensures LevelOf(Letter(l)) == Some(l)
    ensures LevelOf((Letter(l) as int + 32) as char) == Some(l)
    ensures LevelOf(c) == Some(l) <==> ToUpper(c) == Letter(l)
  {
  }

  /** Only the first letter of the level counts, whatever its case. */
  lemma FirstLetterOnly(tag: string, c: char, rest1: string, rest2: string)
    requires |tag| >= 1
    ensures SetLog(0, tag, [c] + rest1).applied == SetLog(0, tag, [ToUpper(c)] + rest2).applied
    ensures SetLog(0, tag, [c] + rest1).ret == Ok
  {
    assert ToUpper(ToUpper(c)) == ToUpper(c);
  }

  /**
   * With a tag and a level the call succeeds and sets the tag; an
   * unknown letter prints the warning and sets ERROR.
   */
  lemma SetLogSets(tag: string, level: string)
    requires |tag| >= 1 && |level| >= 1
    ensures var r := SetLog(0, tag, level);
      && r.ret == Ok && r.applied.Some? && r.applied.value.0 == tag
      && (InvalidLevelMsg in r.printed <==> LevelOf(level[0]).None?)
      && (LevelOf(level[0]).None? ==> r.applied.value.1 == LogError)
      && (LevelOf(level[0]).Some? ==> r.applied.value.1 == LevelOf(level[0]).value)
  {
    var r := SetLog(0, tag, level);
    if LevelOf(level[0]).Some? {
      assert r.printed == [SetMsg(tag, level)];
      assert SetMsg(tag, level)[1] == 'S' && InvalidLevelMsg[1] == 'I';
    }
  }

  /** A missing tag or level sets nothing and returns NOT_FOUND; a parse error returns 1. */
  lemma SetLogRefuses(parseErrors: nat, tag: string, level: string)
    ensures parseErrors != 0 ==> SetLog(parseErrors, tag, level) == SetLogResult(Code(1), None, [])
    ensures parseErrors == 0 && (tag == [] || level == []) ==>
      SetLog(parseErrors, tag, level).ret == NotFound && SetLog(parseErrors, tag, level).applied == None
    ensures SetLog(parseErrors, tag, level).applied.Some? <==> parseErrors == 0 && tag != [] && level != []
  {
  }

  // ---------------------------------------------------------------------
  // `console_poll`
  // ---------------------------------------------------------------------

  /** The message a finished command line leaves. */
  datatype PollMsg = NoMsg | Unrecognized | NonZero(ret: int) | Internal(err: EspErr)

  /**
   * The report for `esp_console_run`'s result `err` and the command's own
   * return value `ret`: an unknown command, a failing command or an
   * internal error each get a message; an empty line and a succeeding
   * command get none.
   */
  function PollMessage(err: EspErr, ret: int): (m: PollMsg)
    ensures m == NoMsg <==> err == InvalidArg || (err == Ok && ret == 0)
    ensures m.NonZero? ==> err == Ok && m.ret == ret != 0
    ensures m.Internal? ==> m.err == err && err !in {Ok, NotFound, InvalidArg}
  {
    if err == NotFound then Unrecognized
    else if err == InvalidArg then NoMsg
    else if err == Ok && ret != 0 then NonZero(ret)
    else if err != Ok then Internal(err)
    else NoMsg
  }

  /** The line history linenoise keeps. */
  class LineConsole {
    var history: seq<string>

    constructor ()
      ensures history == []
    {
      history := [];
    }

    /**
     * `console_poll`: `line` is what linenoise returns (`None` on end of
     * input or an error), `err` and `ret` what running it gives.
     */
    method Poll(line: Option<string>, err: EspErr, ret: int) returns (r: int, msg: PollMsg)
      modifies this
      ensures r == if line.None? then 1 else 0
      ensures history == if line.Some? && line.value != [] then old(history) + [line.value] else old(history)
      ensures msg == if line.None? then NoMsg else PollMessage(err, ret)
    {
      if line.None? {
        return 1, NoMsg;
      }
      if |line.value| > 0 {
        history := history + [line.value];
      }
      msg := PollMessage(err, ret);
      r := 0;
    }
  }
}
