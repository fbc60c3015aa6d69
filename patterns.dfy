/**
 * The fixed recognisers of pidcat.py (lines 213-222) over one log line:
 * the brief logcat line LOG_LINE, the three process-start dialects, the
 * three process-end dialects, the noise marker BUG_LINE and the native
 * backtrace frame BACKTRACE_LINE.  Each regex is written as a pattern of
 * module Regex; a lazy or greedy `.` prefix is `Lazy`/`Greedy` in front of it.
 */
module Patterns {
  import opened Wrappers
  import opened Regex
  import opened Text

  // ---------------------------------------------------------------- LOG_LINE

  /** One brief-format logcat line `<level>/<tag>(<owner>): <message>`. */
  datatype LogLine = LogLine(level: char, tag: string, owner: string, message: string)

  predicate IsUpper(c: char) {
    'A' <= c <= 'Z'
  }

  /** `\( *(\d+)\): (.*?)$`, the part of LOG_LINE after the lazy tag. */
  const OwnerTail: seq<Elem> := [Lit("("), Star(Blank), Plus(Digit), Lit("): "), Rest]

  lemma OwnerTailWellFormed()
    ensures WellFormed(OwnerTail)
  {
    assert ElemOk(OwnerTail, 1);
  }

  /** What `^([A-Z])/(.+?)\( *(\d+)\): (.*?)$` accepts, cut into its groups and the padding. */
  predicate LogLineShape(s: string, level: char, tag: string, pad: string, owner: string, message: string) {
    && NoNewline(s)
    && IsUpper(level) && |tag| > 0 && AllIn(Blank, pad) && |owner| > 0 && AllIn(Digit, owner)
    && s == [level] + "/" + tag + "(" + pad + owner + "): " + message
  }

  /**
   * LOG_LINE.  No part of the regex can match a line break (`.` does not, and
   * `$` only before a final one, which a stripped line never has), so a line
   * with a line break in it is not a log line.
   */
  function ParseLogLine(s: string): (r: Option<LogLine>)
  {
    if '\n' in s || |s| < 2 || !IsUpper(s[0]) || s[1] != '/' then None
    else
      match Lazy(OwnerTail, s, 3)
      case None => None
      case Some((p, ps)) => Some(LogLine(s[0], s[2..p], ps[2], ps[4]))
  }

  lemma OwnerTailPieces(t: string, ps: seq<string>)
    requires Splits(OwnerTail, t, ps)
    ensures t == "(" + ps[1] + ps[2] + "): " + ps[4]
    ensures AllIn(Blank, ps[1]) && |ps[2]| > 0 && AllIn(Digit, ps[2])
  {
    assert Fits(OwnerTail[0], ps[0]) && Fits(OwnerTail[1], ps[1]) && Fits(OwnerTail[2], ps[2]) && Fits(OwnerTail[3], ps[3]);
    Concat5(ps);
  }

  lemma LogLineJoin(s: string, level: char, tag: string, pad: string, owner: string, message: string)
    requires |s| >= 2 && s[0] == level && s[1] == '/' && 2 + |tag| <= |s| && s[2..2 + |tag|] == tag
    requires s[2 + |tag|..] == "(" + pad + owner + "): " + message
    ensures s == [level] + "/" + tag + "(" + pad + owner + "): " + message
  {
    assert s == s[..2] + s[2..2 + |tag|] + s[2 + |tag|..];
    assert s[..2] == [level] + "/";
  }

  lemma LogLineCut(s: string, level: char, tag: string, pad: string, owner: string, message: string)
    requires s == [level] + "/" + tag + "(" + pad + owner + "): " + message
    ensures |s| >= 2 + |tag| && s[0] == level && s[1] == '/' && s[2..2 + |tag|] == tag
    ensures s[2 + |tag|..] == "(" + pad + owner + "): " + message
  {
    var t := "(" + pad + owner + "): " + message;
    assert s == [level] + "/" + tag + t;
  }

  /** Every parsed log line is the line cut at its groups, with the groups LOG_LINE allows. */
  lemma LogLineSound(s: string)
    requires ParseLogLine(s).Some?
    ensures var r := ParseLogLine(s).value;
      exists pad :: LogLineShape(s, r.level, r.tag, pad, r.owner, r.message)
  {
    var r := ParseLogLine(s).value;
    var (p, ps) := Lazy(OwnerTail, s, 3).value;
    OwnerTailPieces(s[p..], ps);
    LogLineJoin(s, r.level, r.tag, ps[1], r.owner, r.message);
    assert LogLineShape(s, r.level, r.tag, ps[1], r.owner, r.message);
  }

  /**
   * LOG_LINE's tag is lazy: whenever a line has the shape, it is parsed, the
   * parsed tag is no longer than any tag the shape allows, and a cut with a
   * tag of the parsed length is the parsed one.
   */
  lemma {:induction false} LogLineLazy(s: string, level: char, tag: string, pad: string, owner: string, message: string)
    requires LogLineShape(s, level, tag, pad, owner, message)
    ensures ParseLogLine(s).Some?
    ensures |ParseLogLine(s).value.tag| <= |tag|
    ensures |ParseLogLine(s).value.tag| == |tag| ==> ParseLogLine(s).value == LogLine(level, tag, owner, message)
  {
    var k := 2 + |tag|;
    var ps := ["(", pad, owner, "): ", message];
    LogLineCut(s, level, tag, pad, owner, message);
    assert Splits(OwnerTail, s[k..], ps) by {
      Concat5(ps);
    }
    OwnerTailWellFormed();
    LazyComplete(OwnerTail, s, 3, k, ps);
  }

  // ------------------------------------------------------ process start lines

  /** `(package, target, pid, uid, gids)` as parse_start_proc returns it. */
  datatype StartProc = StartProc(package: string, target: string, pid: string, uid: string, gids: string)

  /** PID_START_5_1 after its greedy `^.*`: `: Start proc (\d+):([a-zA-Z0-9._:]+)/[a-z0-9]+ for (.*)$`. */
  const Start51Tail: seq<Elem> :=
    [Lit(": Start proc "), Plus(Digit), Lit(":"), Plus(PackageChar), Lit("/"), Plus(LowerOrDigit), Lit(" for "), Rest]

  /** PID_START after its greedy `^.*`: `: Start proc ([a-zA-Z0-9._:]+) for ([a-z]+ [^:]+): pid=(\d+) uid=(\d+) gids=(.*)$`. */
  const StartTail: seq<Elem> :=
    [Lit(": Start proc "), Plus(PackageChar), Lit(" for "), Plus(Lower), Lit(" "), Plus(NotColon),
     Lit(": pid="), Plus(Digit), Lit(" uid="), Plus(Digit), Lit(" gids="), Rest]

  /** PID_START_DALVIK: `^E/dalvikvm\(\s*(\d+)\): >>>>> ([a-zA-Z0-9._:]+) \[ userId:0 \| appId:(\d+) \]$`. */
  const DalvikStart: seq<Elem> :=
    [Lit("E/dalvikvm("), Star(WhiteSpace), Plus(Digit), Lit("): >>>>> "), Plus(PackageChar),
     Lit(" [ userId:0 | appId:"), Plus(Digit), Lit(" ]")]

  lemma StartPatternsWellFormed()
    ensures WellFormed(Start51Tail) && WellFormed(StartTail) && WellFormed(DalvikStart)
  {
    assert ElemOk(Start51Tail, 1) && ElemOk(Start51Tail, 3) && ElemOk(Start51Tail, 5);
    assert ElemOk(StartTail, 1) && ElemOk(StartTail, 3) && ElemOk(StartTail, 5);
    assert ElemOk(StartTail, 7) && ElemOk(StartTail, 9);
    assert ElemOk(DalvikStart, 1) && ElemOk(DalvikStart, 2) && ElemOk(DalvikStart, 4) && ElemOk(DalvikStart, 6);
  }

  /** The 5-tuple each dialect's groups give (lines 269-271). */
  function From51(ps: seq<string>): StartProc
    requires |ps| == |Start51Tail|
  {
    StartProc(ps[3], ps[7], ps[1], "", "")
  }

  function FromStart(ps: seq<string>): StartProc
    requires |ps| == |StartTail|
  {
    StartProc(ps[1], ps[3] + " " + ps[5], ps[7], ps[9], ps[11])
  }

  function FromDalvik(ps: seq<string>): StartProc
    requires |ps| == |DalvikStart|
  {
    StartProc(ps[4], "", ps[2], ps[6], "")
  }

  /**
   * parse_start_proc: PID_START_5_1, then PID_START, then PID_START_DALVIK
   * against the whole line; the first that matches gives the 5-tuple.
   */
  function ParseStartProc(line: string): (r: Option<StartProc>)
    requires NoNewline(line)
    ensures Greedy(Start51Tail, line).Some? ==> r == Some(From51(Greedy(Start51Tail, line).value.1))
    ensures Greedy(Start51Tail, line).None? && Greedy(StartTail, line).Some? ==>
              r == Some(FromStart(Greedy(StartTail, line).value.1))
    ensures Greedy(Start51Tail, line).None? && Greedy(StartTail, line).None? ==>
              r == if Match(DalvikStart, line).Some? then Some(FromDalvik(Match(DalvikStart, line).value)) else None
    ensures r.Some? ==> |r.value.pid| > 0 && AllIn(Digit, r.value.pid)
    ensures r.Some? ==> |r.value.package| > 0 && AllIn(PackageChar, r.value.package)
  {
    match Greedy(Start51Tail, line)
    case Some((_, ps)) =>
      assert Fits(Start51Tail[1], ps[1]) && Fits(Start51Tail[3], ps[3]);
      Some(From51(ps))
    case None =>
      match Greedy(StartTail, line)
      case Some((_, ps)) =>
        assert Fits(StartTail[1], ps[1]) && Fits(StartTail[7], ps[7]);
        Some(FromStart(ps))
      case None =>
        match Match(DalvikStart, line)
        case Some(ps) =>
          assert Fits(DalvikStart[2], ps[2]) && Fits(DalvikStart[4], ps[4]);
          Some(FromDalvik(ps))
        case None => None
  }

  /**
   * parse_start_proc misses no start line: a line whose tail after some
   * prefix fits PID_START_5_1 or PID_START, or that fits PID_START_DALVIK
   * as a whole, is recognised.
   */
  lemma StartLineRecognised(line: string, k: nat, ps: seq<string>)
    requires NoNewline(line) && k <= |line|
    requires Splits(Start51Tail, line[k..], ps) || Splits(StartTail, line[k..], ps) || Splits(DalvikStart, line, ps)
    ensures ParseStartProc(line).Some?
  {
    StartPatternsWellFormed();
    if Splits(Start51Tail, line[k..], ps) {
      GreedyComplete(Start51Tail, line, k, ps);
    } else if Splits(StartTail, line[k..], ps) {
      GreedyComplete(StartTail, line, k, ps);
    } else {
      MatchComplete(DalvikStart, line, ps);
    }
  }

  // -------------------------------------------------------- process end lines

  /** A process that ended: `(pid, name)`, whatever order its dialect writes them in. */
  datatype Death = Death(pid: string, pname: string)

  /** The three dialects, in the order parse_death tries them. */
  datatype DeathDialect = Kill | Leave | Died

  /** PID_KILL: `^Killing (\d+):([a-zA-Z0-9._:]+)/[^:]+: (.*)$`. */
  const KillMessage: seq<Elem> :=
    [Lit("Killing "), Plus(Digit), Lit(":"), Plus(PackageChar), Lit("/"), Plus(NotColon), Lit(": "), Rest]

  /** PID_LEAVE: `^No longer want ([a-zA-Z0-9._:]+) \(pid (\d+)\): .*$`. */
  const LeaveMessage: seq<Elem> :=
    [Lit("No longer want "), Plus(PackageChar), Lit(" (pid "), Plus(Digit), Lit("): "), Rest]

  /** PID_DEATH: `^Process ([a-zA-Z0-9._:]+) \(pid (\d+)\) has died.?$`. */
  const DiedMessage: seq<Elem> :=
    [Lit("Process "), Plus(PackageChar), Lit(" (pid "), Plus(Digit), Lit(") has died"), AnyOpt]

  function DialectPattern(d: DeathDialect): seq<Elem> {
    match d
    case Kill => KillMessage
    case Leave => LeaveMessage
    case Died => DiedMessage
  }

  lemma DeathPatternsWellFormed(d: DeathDialect)
    ensures WellFormed(DialectPattern(d))
  {
    assert ElemOk(KillMessage, 1) && ElemOk(KillMessage, 3) && ElemOk(KillMessage, 5);
    assert ElemOk(LeaveMessage, 1) && ElemOk(LeaveMessage, 3);
    assert ElemOk(DiedMessage, 1) && ElemOk(DiedMessage, 3);
  }

  /** The `(pid, name)` of a matched message, from the group positions of its dialect. */
  function PidAndName(pat: seq<Elem>, message: string, pidAt: nat, nameAt: nat): (r: Option<Death>)
    requires pidAt < |pat| && nameAt < |pat|
    requires pat[pidAt] == Plus(Digit) && pat[nameAt] == Plus(PackageChar)
    ensures r.Some? <==> Match(pat, message).Some?
    ensures r.Some? ==> r.value == Death(Match(pat, message).value[pidAt], Match(pat, message).value[nameAt])
    ensures r.Some? ==> |r.value.pid| > 0 && AllIn(Digit, r.value.pid)
    ensures r.Some? ==> |r.value.pname| > 0 && AllIn(PackageChar, r.value.pname)
  {
    match Match(pat, message)
    case None => None
    case Some(ps) =>
      assert Fits(pat[pidAt], ps[pidAt]) && Fits(pat[nameAt], ps[nameAt]);
      Some(Death(ps[pidAt], ps[nameAt]))
  }

  /**
   * One dialect against a message, normalised to `(pid, name)`: the digits
   * after `pid ` or before the first `:` are the pid, the package-like group
   * is the name.  PID_LEAVE and PID_DEATH both name the process first.
   */
  function RecogniseDeath(d: DeathDialect, message: string): (r: Option<Death>)
    requires NoNewline(message)
    ensures r.Some? <==> Match(DialectPattern(d), message).Some?
    ensures r.Some? ==> var ps := Match(DialectPattern(d), message).value;
      r.value == if d == Kill then Death(ps[1], ps[3]) else Death(ps[3], ps[1])
    ensures r.Some? ==> |r.value.pid| > 0 && AllIn(Digit, r.value.pid)
    ensures r.Some? ==> |r.value.pname| > 0 && AllIn(PackageChar, r.value.pname)
  {
    match d
    case Kill => PidAndName(KillMessage, message, 1, 3)
    case Leave => PidAndName(LeaveMessage, message, 3, 1)
    case Died => PidAndName(DiedMessage, message, 3, 1)
  }

  /**
   * The groups as pidcat.py:259-260 reads them: swapped for PID_LEAVE only,
   * so that a PID_DEATH line yields its process name as the pid and its pid
   * as the name.
   */
  function RecogniseDeathAsWritten(d: DeathDialect, message: string): (r: Option<Death>)
    requires NoNewline(message)
    ensures r.Some? <==> Match(DialectPattern(d), message).Some?
    ensures d != Died ==> r == RecogniseDeath(d, message)
    ensures d == Died && r.Some? ==> r.value == Death(RecogniseDeath(d, message).value.pname, RecogniseDeath(d, message).value.pid)
  {
    match d
    case Kill => PidAndName(KillMessage, message, 1, 3)
    case Leave => PidAndName(LeaveMessage, message, 3, 1)
    case Died =>
      match PidAndName(DiedMessage, message, 3, 1)
      case None => None
      case Some(Death(pid, name)) => Some(Death(name, pid))
  }

  // ----------------------------------------------------- noise and backtraces

  const NoiseMarker: string := "nativeGetEnabledTags"

  /** BUG_LINE `.*nativeGetEnabledTags.*` at the start of a line: the marker before any line break. */
  predicate IsNoise(s: string) {
    exists i | 0 <= i <= |s| - |NoiseMarker| :: s[i..i + |NoiseMarker|] == NoiseMarker && '\n' !in s[..i]
  }

  /** BACKTRACE_LINE `^#(.*?)pc\s(.*?)$`: a `#`, later `pc` and a whitespace character. */
  predicate IsBacktrace(m: string)
    requires NoNewline(m)
  {
    |m| > 0 && m[0] == '#' && exists i | 1 <= i <= |m| - 3 :: m[i] == 'p' && m[i + 1] == 'c' && IsSpace(m[i + 2])
  }
}
