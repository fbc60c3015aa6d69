/**
 * The per-line work of pidcat.py's main loop (lines 320-383) as functions
 * of the tracker's state: the lifecycle lines that add and remove tracked
 * pids, the attribution of native backtraces, the filter chain and the
 * rendering of a kept record.  Session (session.dfy) runs the same steps
 * in place.
 */
module Tracker {
  import opened Wrappers
  import opened Text
  import opened Regex
  import opened Patterns
  import opened Packages
  import opened Colors
  import opened Layout

  // ---------------------------------------------------------------- settings

  /** LOG_LEVELS: the levels in rising order. */
  const LogLevels: string := "VDIWEF"

  /** LOG_LEVELS_MAP: the rank of a level, for the six levels only. */
  function LevelRank(level: char): (r: Option<nat>)
    ensures r.Some? <==> level in LogLevels
    ensures r.Some? ==> r.value < |LogLevels| && LogLevels[r.value] == level
  {
    match level
    case 'V' => Some(0)
    case 'D' => Some(1)
    case 'I' => Some(2)
    case 'W' => Some(3)
    case 'E' => Some(4)
    case 'F' => Some(5)
    case _ => None
  }

  /**
   * The command-line settings the loop reads.  `minRank` is
   * LOG_LEVELS_MAP[min_level.upper()].  `tagRule(rule, tag)` stands for
   * `re.match('^' + rule + '$', tag, re.IGNORECASE)`, and `highlight` for
   * the RULES substitutions; `width` is the terminal width, or -1.
   * `asWritten` says how the loop's parse_death reads the groups of the
   * end dialects: as lines 258-260 read them (true: the program as it
   * is) or as (pid, name) throughout (false: the corrected reading).
   */
  datatype Config = Config(
    packages: seq<string>,
    allFlag: bool,
    minRank: nat,
    tagWidth: int,
    alwaysTags: bool,
    tags: seq<string>,
    ignoredTags: seq<string>,
    tagRule: (string, string) -> bool,
    highlight: string -> string,
    width: int,
    asWritten: bool)

  /** Lines 148-149: without packages, every message is shown. */
  predicate AllMode(cfg: Config) {
    cfg.allFlag || |cfg.packages| == 0
  }

  function Filter(cfg: Config): PackageFilter {
    Split(cfg.packages)
  }

  /** Line 158: the tag column, a space, the badge and a space. */
  function HeaderSize(cfg: Config): int {
    cfg.tagWidth + 1 + 3 + 1
  }

  /** tag_in_tags_regex: some rule, stripped, matches the whole tag. */
  predicate TagInRules(cfg: Config, rules: seq<string>, tag: string) {
    exists t :: t in rules && cfg.tagRule(Strip(t), tag)
  }

  // ---------------------------------------------------------------- records

  /** A log line that survived lines 325-334: the stripped line and its LOG_LINE groups, tag stripped. */
  datatype Record = Record(line: string, level: char, tag: string, owner: string, message: string)

  /**
   * Lines 325-334: strip the line; skip it when it is empty, carries the
   * noise marker or is not a brief log line; strip the tag.
   */
  function Classify(raw: string): (r: Option<Record>)
    ensures r.None? <==> Strip(raw) == [] || IsNoise(Strip(raw)) || ParseLogLine(Strip(raw)).None?
    ensures r.Some? ==> r.value.line == Strip(raw) && NoNewline(r.value.line) && NoNewline(r.value.message)
  {
    var line := Strip(raw);
    if line == [] || IsNoise(line) then None
    else
      match ParseLogLine(line)
      case None => None
      case Some(LogLine(level, tag, owner, message)) =>
        MessageOnOneLine(line);
        Some(Record(line, level, Strip(tag), owner, message))
  }

  lemma MessageOnOneLine(line: string)
    requires ParseLogLine(line).Some?
    ensures NoNewline(line) && NoNewline(ParseLogLine(line).value.message)
  {
    var r := ParseLogLine(line).value;
    LogLineSound(line);
    var pad :| LogLineShape(line, r.level, r.tag, pad, r.owner, r.message);
    assert line == ([r.level] + "/" + r.tag + "(" + pad + r.owner + "): ") + r.message;
  }

  /** A classified line is a brief log line cut at its groups, with the tag stripped. */
  lemma ClassifySound(raw: string)
    requires Classify(raw).Some?
    ensures var rec := Classify(raw).value;
      exists tag, pad :: LogLineShape(rec.line, rec.level, tag, pad, rec.owner, rec.message) && rec.tag == Strip(tag)
  {
    var line := Strip(raw);
    var r := ParseLogLine(line).value;
    LogLineSound(line);
    var pad :| LogLineShape(line, r.level, r.tag, pad, r.owner, r.message);
    assert LogLineShape(line, r.level, r.tag, pad, r.owner, r.message) && Classify(raw).value.tag == Strip(r.tag);
  }

  // ---------------------------------------------------------------- parse_death

  /** One dialect's `(pid, name)`, with the groups read as corrected or as line 259-260 reads them. */
  function Recognised(d: DeathDialect, message: string, asWritten: bool): Option<Death>
    requires NoNewline(message)
  {
    if asWritten then RecogniseDeathAsWritten(d, message) else RecogniseDeath(d, message)
  }

  /** A recognised end of a process parse_death keeps: a tracked pid of a wanted package. */
  predicate Accepted(f: PackageFilter, pids: set<string>, r: Option<Death>) {
    r.Some? && MatchPackages(f, r.value.pname) && r.value.pid in pids
  }

  const DeathOrder: seq<DeathDialect> := [Kill, Leave, Died]

  /** Dialect `i` of the loop recognises an end of a process that parse_death keeps. */
  function AcceptedAt(f: PackageFilter, pids: set<string>, message: string, asWritten: bool): nat -> bool
    requires NoNewline(message)
  {
    (i: nat) => i < |DeathOrder| && Accepted(f, pids, Recognised(DeathOrder[i], message, asWritten))
  }

  /** The loop of parse_death: the result of the first dialect that is accepted. */
  function FirstDeath(f: PackageFilter, pids: set<string>, message: string, asWritten: bool): Option<Death>
    requires NoNewline(message)
  {
    match FirstWhere(AcceptedAt(f, pids, message, asWritten), 0, |DeathOrder| - 1)
    case None => None
    case Some(i) => Recognised(DeathOrder[i], message, asWritten)
  }

  /**
   * The loop returns the result of the first dialect that is accepted, and
   * nothing when none is.
   */
  lemma FirstAccepted(f: PackageFilter, pids: set<string>, message: string, asWritten: bool)
    requires NoNewline(message)
    ensures var r := FirstDeath(f, pids, message, asWritten);
      r.Some? ==> (exists i :: 0 <= i < 3 && r == Recognised(DeathOrder[i], message, asWritten) && Accepted(f, pids, r)
                     && forall j :: 0 <= j < i ==> !Accepted(f, pids, Recognised(DeathOrder[j], message, asWritten)))
    ensures FirstDeath(f, pids, message, asWritten).None? ==>
      forall i :: 0 <= i < 3 ==> !Accepted(f, pids, Recognised(DeathOrder[i], message, asWritten))
  {
    var ok := AcceptedAt(f, pids, message, asWritten);
    match FirstWhere(ok, 0, 2)
    case Some(i) =>
      assert ok(i);
      forall j | 0 <= j < i ensures !Accepted(f, pids, Recognised(DeathOrder[j], message, asWritten)) {
        assert !ok(j);
      }
    case None =>
      forall i | 0 <= i < 3 ensures !Accepted(f, pids, Recognised(DeathOrder[i], message, asWritten)) {
        assert !ok(i);
      }
  }

  lemma ParseDeathFacts(f: PackageFilter, pids: set<string>, message: string)
    requires NoNewline(message)
    ensures var r := FirstDeath(f, pids, message, false);
      (r.Some? ==> (exists i :: 0 <= i < 3 && r == RecogniseDeath(DeathOrder[i], message) && Accepted(f, pids, r)
                      && forall j :: 0 <= j < i ==> !Accepted(f, pids, RecogniseDeath(DeathOrder[j], message))))
      && (r.None? ==> forall d :: !Accepted(f, pids, RecogniseDeath(d, message)))
  {
    var r := FirstDeath(f, pids, message, false);
    FirstAccepted(f, pids, message, false);
    if r.None? {
      forall d ensures !Accepted(f, pids, RecogniseDeath(d, message)) {
        var i := if d == Kill then 0 else if d == Leave then 1 else 2;
        assert d == DeathOrder[i];
        assert !Accepted(f, pids, Recognised(DeathOrder[i], message, false));
      }
    } else {
      var i :| 0 <= i < 3 && r == Recognised(DeathOrder[i], message, false) && Accepted(f, pids, r)
               && forall j :: 0 <= j < i ==> !Accepted(f, pids, Recognised(DeathOrder[j], message, false));
      assert r == RecogniseDeath(DeathOrder[i], message);
      forall j | 0 <= j < i ensures !Accepted(f, pids, RecogniseDeath(DeathOrder[j], message)) {
        assert !Accepted(f, pids, Recognised(DeathOrder[j], message, false));
      }
    }
  }

  /**
   * parse_death with the groups of every dialect read as `(pid, name)`:
   * nothing unless the tag is ActivityManager; otherwise the first of
   * PID_KILL, PID_LEAVE, PID_DEATH whose pid is tracked and whose process
   * name is wanted.
   */
  function ParseDeath(f: PackageFilter, pids: set<string>, tag: string, message: string): (r: Option<Death>)
    requires NoNewline(message)
    ensures tag != "ActivityManager" ==> r.None?
    ensures r.Some? ==> r.value.pid in pids && MatchPackages(f, r.value.pname)
    ensures r.Some? ==> |r.value.pid| > 0 && AllIn(Digit, r.value.pid) && |r.value.pname| > 0 && AllIn(PackageChar, r.value.pname)
    ensures r.Some? ==> (exists i :: 0 <= i < 3 && r == RecogniseDeath(DeathOrder[i], message)
                           && forall j :: 0 <= j < i ==> !Accepted(f, pids, RecogniseDeath(DeathOrder[j], message)))
    ensures tag == "ActivityManager" && r.None? ==> forall d :: !Accepted(f, pids, RecogniseDeath(d, message))
  {
    if tag != "ActivityManager" then None
    else
      ParseDeathFacts(f, pids, message);
      FirstDeath(f, pids, message, false)
  }

  /** parse_death exactly as lines 254-262 read the groups. */
  function ParseDeathAsWritten(f: PackageFilter, pids: set<string>, tag: string, message: string): (r: Option<Death>)
    requires NoNewline(message)
    ensures tag != "ActivityManager" ==> r.None?
    ensures r.Some? ==> r.value.pid in pids && MatchPackages(f, r.value.pname)
    ensures r.Some? ==> exists i :: 0 <= i < 3 && r == RecogniseDeathAsWritten(DeathOrder[i], message)
  {
    if tag != "ActivityManager" then None
    else
      FirstAccepted(f, pids, message, true);
      FirstDeath(f, pids, message, true)
  }

  /**
   * The parse_death of the loop (line 349): as lines 254-262 are written
   * when `cfg.asWritten`, corrected otherwise.  Nothing unless the tag is
   * ActivityManager; a result is one dialect's reading, with a tracked pid
   * and a wanted name; no result means no dialect's reading is accepted.
   */
  function LoopDeath(cfg: Config, pids: set<string>, tag: string, message: string): (r: Option<Death>)
    requires NoNewline(message)
    ensures tag != "ActivityManager" ==> r.None?
    ensures r.Some? ==> r.value.pid in pids && MatchPackages(Filter(cfg), r.value.pname)
    ensures r.Some? ==> exists d :: r == Recognised(d, message, cfg.asWritten)
    ensures tag == "ActivityManager" && r.None? ==>
      forall d :: !Accepted(Filter(cfg), pids, Recognised(d, message, cfg.asWritten))
  {
    LoopDeathFacts(cfg, pids, message);
    if cfg.asWritten then ParseDeathAsWritten(Filter(cfg), pids, tag, message)
    else ParseDeath(Filter(cfg), pids, tag, message)
  }

  /** The loop's first accepted dialect, read as `cfg` says; and no dialect is accepted when there is none. */
  lemma LoopDeathFacts(cfg: Config, pids: set<string>, message: string)
    requires NoNewline(message)
    ensures var r := FirstDeath(Filter(cfg), pids, message, cfg.asWritten);
      (r.Some? ==> exists d :: r == Recognised(d, message, cfg.asWritten))
      && (r.None? ==> forall d :: !Accepted(Filter(cfg), pids, Recognised(d, message, cfg.asWritten)))
  {
    var f := Filter(cfg);
    var r := FirstDeath(f, pids, message, cfg.asWritten);
    FirstAccepted(f, pids, message, cfg.asWritten);
    if r.None? {
      forall d ensures !Accepted(f, pids, Recognised(d, message, cfg.asWritten)) {
        var i := if d == Kill then 0 else if d == Leave then 1 else 2;
        assert d == DeathOrder[i];
      }
    } else {
      var i :| 0 <= i < 3 && r == Recognised(DeathOrder[i], message, cfg.asWritten);
    }
  }

  /** The PID_DEATH message for a process name and a pid. */
  function DiedLine(name: string, pid: string): string {
    "Process " + name + " (pid " + pid + ") has died"
  }

  /** The six pieces of a PID_DEATH message, one per element of its pattern. */
  lemma DiedLineSplits(name: string, pid: string)
    requires |name| > 0 && AllIn(PackageChar, name) && |pid| > 0 && AllIn(Digit, pid)
    ensures Splits(DiedMessage, DiedLine(name, pid), ["Process ", name, " (pid ", pid, ") has died", ""])
  {
    var ps := ["Process ", name, " (pid ", pid, ") has died", ""];
    Concat6(ps);
  }

  /** A PID_DEATH message for a package-like name and a digit pid has no line break and starts with `P`. */
  lemma DiedLineShape(name: string, pid: string)
    requires AllIn(PackageChar, name) && AllIn(Digit, pid)
    ensures NoNewline(DiedLine(name, pid)) && DiedLine(name, pid)[0] == 'P'
  {
    var m := DiedLine(name, pid);
    assert m == "Process " + name + " (pid " + pid + ") has died";
    forall k | 0 <= k < |m| ensures m[k] != '\n' {
      if 8 <= k < 8 + |name| {
        assert m[k] == name[k - 8];
      } else if 8 + |name| + 6 <= k < 8 + |name| + 6 + |pid| {
        assert m[k] == pid[k - 8 - |name| - 6];
      }
    }
  }

  /** Only the PID_DEATH dialect recognises a PID_DEATH message; it reads the pid and the name back. */
  lemma DiedLineMatches(name: string, pid: string)
    requires |name| > 0 && AllIn(PackageChar, name) && |pid| > 0 && AllIn(Digit, pid)
    ensures NoNewline(DiedLine(name, pid))
    ensures RecogniseDeath(Kill, DiedLine(name, pid)).None?
    ensures RecogniseDeath(Leave, DiedLine(name, pid)).None?
    ensures RecogniseDeath(Died, DiedLine(name, pid)) == Some(Death(pid, name))
  {
    var m := DiedLine(name, pid);
    DiedLineShape(name, pid);
    LitMismatch(KillMessage, m);
    LitMismatch(LeaveMessage, m);
    DiedLineSplits(name, pid);
    DeathPatternsWellFormed(Died);
    MatchComplete(DiedMessage, m, ["Process ", name, " (pid ", pid, ") has died", ""]);
  }

  /**
   * Lines 254-262 as written: a PID_DEATH line for a tracked process is
   * never accepted (its "pid" is the process name, which is not a tracked
   * pid), while the corrected reading removes it.
   */
  lemma DiedLineIgnoredAsWritten(f: PackageFilter, pids: set<string>, name: string, pid: string)
    requires |name| > 0 && AllIn(PackageChar, name) && |pid| > 0 && AllIn(Digit, pid)
    requires pid in pids && MatchPackages(f, name)
    requires forall p :: p in pids ==> AllIn(Digit, p)
    requires !AllIn(Digit, name)
    ensures ParseDeath(f, pids, "ActivityManager", DiedLine(name, pid)) == Some(Death(pid, name))
    ensures ParseDeathAsWritten(f, pids, "ActivityManager", DiedLine(name, pid)).None?
  {
    var m := DiedLine(name, pid);
    DiedLineMatches(name, pid);
    assert name !in pids;
    assert Accepted(f, pids, RecogniseDeath(DeathOrder[2], m));
    assert forall i :: 0 <= i < 2 ==> RecogniseDeath(DeathOrder[i], m).None?;
    assert forall i :: 0 <= i < 2 ==> RecogniseDeathAsWritten(DeathOrder[i], m).None?;
    assert RecogniseDeathAsWritten(DeathOrder[2], m) == Some(Death(name, pid));
  }

  // ---------------------------------------------------------------- lifecycle

  /** The tracker's state: the tracked pids, the last started app, the tag shown last and the colour table. */
  datatype State = State(pids: set<string>, appPid: Option<string>, lastTag: Option<string>, palette: Palette)

  /** Line 337: a start line is taken when its package is wanted and its pid is new. */
  predicate AcceptsStart(cfg: Config, pids: set<string>, s: Option<StartProc>) {
    s.Some? && MatchPackages(Filter(cfg), s.value.package) && s.value.pid !in pids
  }

  /**
   * Lines 335-347: an accepted start adds exactly its pid, makes it the app
   * pid, forgets the last tag and prints the start banner; anything else
   * changes nothing.
   */
  function StartPhase(cfg: Config, st: State, line: string): (r: (State, seq<seq<Segment>>))
    requires NoNewline(line)
    ensures var s := ParseStartProc(line);
      AcceptsStart(cfg, st.pids, s) ==>
        r.0 == st.(pids := st.pids + {s.value.pid}, appPid := Some(s.value.pid), lastTag := None)
        && r.0.pids - st.pids == {s.value.pid}
        && r.1 == [StartBanner(cfg.width, HeaderSize(cfg), s.value.package, s.value.target, s.value.pid, s.value.uid, s.value.gids)]
    ensures !AcceptsStart(cfg, st.pids, ParseStartProc(line)) ==> r == (st, [])
  {
    var s := ParseStartProc(line);
    if AcceptsStart(cfg, st.pids, s) then
      var p := s.value;
      (st.(pids := st.pids + {p.pid}, appPid := Some(p.pid), lastTag := None),
       [StartBanner(cfg.width, HeaderSize(cfg), p.package, p.target, p.pid, p.uid, p.gids)])
    else (st, [])
  }

  /**
   * Lines 349-356: a process end the loop's parse_death returns removes
   * exactly its pid, forgets the last tag and prints the end banner;
   * otherwise nothing changes.
   */
  function DeathPhase(cfg: Config, st: State, tag: string, message: string): (r: (State, seq<seq<Segment>>))
    requires NoNewline(message)
    ensures var d := LoopDeath(cfg, st.pids, tag, message);
      d.Some? ==>
        d.value.pid in st.pids
        && r.0 == st.(pids := st.pids - {d.value.pid}, lastTag := None)
        && r.1 == [DeathBanner(HeaderSize(cfg), d.value.pname, d.value.pid)]
    ensures LoopDeath(cfg, st.pids, tag, message).None? ==> r == (st, [])
  {
    match LoopDeath(cfg, st.pids, tag, message)
    case Some(Death(pid, pname)) =>
      if |pid| > 0 && pid in st.pids then
        (st.(pids := st.pids - {pid}, lastTag := None), [DeathBanner(HeaderSize(cfg), pname, pid)])
      else (st, [])
    case None => (st, [])
  }

  /**
   * The end phase on a PID_DEATH line of a tracked process: the program
   * (groups as written) keeps the pid and prints nothing, while the
   * corrected reading removes it and prints the end banner.
   */
  lemma DiedLineInLoop(cfg: Config, st: State, name: string, pid: string)
    requires |name| > 0 && AllIn(PackageChar, name) && |pid| > 0 && AllIn(Digit, pid)
    requires pid in st.pids && MatchPackages(Filter(cfg), name)
    requires forall p :: p in st.pids ==> AllIn(Digit, p)
    requires !AllIn(Digit, name)
    ensures NoNewline(DiedLine(name, pid))
    ensures cfg.asWritten ==> DeathPhase(cfg, st, "ActivityManager", DiedLine(name, pid)) == (st, [])
    ensures !cfg.asWritten ==>
              DeathPhase(cfg, st, "ActivityManager", DiedLine(name, pid))
              == (st.(pids := st.pids - {pid}, lastTag := None), [DeathBanner(HeaderSize(cfg), name, pid)])
  {
    DiedLineMatches(name, pid);
    DiedLineIgnoredAsWritten(Filter(cfg), st.pids, name, pid);
  }

  /**
   * Lines 358-360: a DEBUG message that, left-trimmed, is a native
   * backtrace frame belongs to the last started app; it is printed
   * trimmed.  Any other record keeps its own owner and message.
   */
  function Attribute(appPid: Option<string>, rec: Record): (r: (Option<string>, string))
    requires NoNewline(rec.message)
    ensures rec.tag == "DEBUG" && IsBacktrace(LStrip(rec.message)) ==> r == (appPid, LStrip(rec.message))
    ensures !(rec.tag == "DEBUG" && IsBacktrace(LStrip(rec.message))) ==> r == (Some(rec.owner), rec.message)
    ensures NoNewline(r.1)
  {
    var m := LStrip(rec.message);
    if rec.tag == "DEBUG" && IsBacktrace(m) then (appPid, m) else (Some(rec.owner), rec.message)
  }

  // ---------------------------------------------------------------- filters

  /**
   * Lines 362-365: a record is kept when it is in scope (all-mode, or its
   * owner is a tracked pid), its level is not ranked below the minimum,
   * its tag is not ignored, and its tag is wanted when tags were given.
   */
  function Admit(cfg: Config, pids: set<string>, owner: Option<string>, level: char, tag: string): (r: bool)
    ensures !AllMode(cfg) && (owner.None? || owner.value !in pids) ==> !r
    ensures LevelRank(level).Some? && LevelRank(level).value < cfg.minRank ==> !r
    ensures |cfg.ignoredTags| > 0 && TagInRules(cfg, cfg.ignoredTags, tag) ==> !r
    ensures |cfg.tags| > 0 && !TagInRules(cfg, cfg.tags, tag) ==> !r
    ensures !r ==>
      || (!AllMode(cfg) && (owner.None? || owner.value !in pids))
      || (LevelRank(level).Some? && LevelRank(level).value < cfg.minRank)
      || (|cfg.ignoredTags| > 0 && TagInRules(cfg, cfg.ignoredTags, tag))
      || (|cfg.tags| > 0 && !TagInRules(cfg, cfg.tags, tag))
  {
    if !AllMode(cfg) && (owner.None? || owner.value !in pids) then false
    else if level in LogLevels && LevelRank(level).value < cfg.minRank then false
    else if |cfg.ignoredTags| > 0 && TagInRules(cfg, cfg.ignoredTags, tag) then false
    else if |cfg.tags| > 0 && !TagInRules(cfg, cfg.tags, tag) then false
    else true
  }

  /** Lowering the minimum level never drops a record that was kept. */
  lemma LevelFilterMonotone(cfg: Config, pids: set<string>, owner: Option<string>, level: char, tag: string, lower: nat)
    requires lower <= cfg.minRank
    ensures Admit(cfg, pids, owner, level, tag) ==> Admit(cfg.(minRank := lower), pids, owner, level, tag)
  {
    var low := cfg.(minRank := lower);
    assert AllMode(low) == AllMode(cfg);
    assert TagInRules(low, low.ignoredTags, tag) == TagInRules(cfg, cfg.ignoredTags, tag);
    assert TagInRules(low, low.tags, tag) == TagInRules(cfg, cfg.tags, tag);
  }

  // ---------------------------------------------------------------- rendering

  /** The segment in the tag column: the tag in its colour, or blanks for a repeated tag. */
  function TagSegment(cfg: Config, palette: Palette, lastTag: Option<string>, tag: string): (r: (Palette, Option<string>, Segment))
    requires cfg.tagWidth > 0 && palette.pool != []
    ensures |r.2.text| == cfg.tagWidth
    ensures lastTag != Some(tag) || cfg.alwaysTags ==>
      var a := Allocated(palette, tag);
      r == (a.0, Some(tag), Painted(TagColumn(tag, cfg.tagWidth), Some(a.1), None))
    ensures lastTag == Some(tag) && !cfg.alwaysTags ==>
      r.0 == palette && r.1 == lastTag && r.2 == Plain(Spaces(cfg.tagWidth))
    ensures |r.0.pool| == |palette.pool|
    ensures forall t :: t in palette.known ==> t in r.0.known && r.0.known[t] == palette.known[t]
  {
    if lastTag != Some(tag) || cfg.alwaysTags then
      var a := Allocated(palette, tag);
      (a.0, Some(tag), Painted(TagColumn(tag, cfg.tagWidth), Some(a.1), None))
    else (palette, lastTag, Plain(Spaces(cfg.tagWidth)))
  }

  /**
   * Lines 367-383: the printed record is the tag column (when the width is
   * positive) and a space, the level badge and a space, and the message,
   * highlighted and wrapped.
   */
  function Render(cfg: Config, palette: Palette, lastTag: Option<string>, level: char, tag: string, message: string)
    : (r: (Palette, Option<string>, seq<Segment>))
    requires palette.pool != []
    ensures |r.0.pool| == |palette.pool|
    ensures forall t :: t in palette.known ==> t in r.0.known && r.0.known[t] == palette.known[t]
    ensures cfg.tagWidth > 0 ==> |r.2| == 5 && |r.2[0].text| == cfg.tagWidth && r.2[1] == Plain(" ")
    ensures cfg.tagWidth <= 0 ==> |r.2| == 3 && r.0 == palette && r.1 == lastTag
    ensures r.2[|r.2| - 3] == Badge(level) && r.2[|r.2| - 2] == Plain(" ")
    ensures r.2[|r.2| - 1] == Plain(IndentWrap(cfg.width, HeaderSize(cfg), cfg.highlight(message)))
  {
    var body := [Badge(level), Plain(" "), Plain(IndentWrap(cfg.width, HeaderSize(cfg), cfg.highlight(message)))];
    if cfg.tagWidth > 0 then
      var (p, last, seg) := TagSegment(cfg, palette, lastTag, tag);
      (p, last, [seg, Plain(" ")] + body)
    else (palette, lastTag, body)
  }

  // ---------------------------------------------------------------- one line

  /**
   * One pass of the loop body for a line read: classify it; on a log
   * line, the start phase, then the end phase on the updated pids, then
   * attribution, the filters and, for a kept record, its rendering.  The
   * output is the banners followed by the record's line.
   */
  function Step(cfg: Config, st: State, raw: string): (r: (State, seq<seq<Segment>>))
    requires st.palette.pool != []
    ensures |r.0.palette.pool| == |st.palette.pool|
    ensures forall t :: t in st.palette.known ==> t in r.0.palette.known && r.0.palette.known[t] == st.palette.known[t]
    ensures Classify(raw).None? ==> r == (st, [])
  {
    match Classify(raw)
    case None => (st, [])
    case Some(rec) => Handle(cfg, st, rec)
  }

  /**
   * Lines 335-356: the start phase, then the end phase on the pids it
   * left.  Both only touch the pids, the app pid and the last tag, and any
   * banner makes the tag column forget the last tag.
   */
  function Lifecycle(cfg: Config, st: State, rec: Record): (r: (State, seq<seq<Segment>>))
    requires NoNewline(rec.line) && NoNewline(rec.message)
    ensures r.0.palette == st.palette && |r.1| <= 2
    ensures r.1 == [] ==> r.0 == st
    ensures r.1 != [] ==> r.0.lastTag == None
  {
    var (s1, out1) := StartPhase(cfg, st, rec.line);
    var (s2, out2) := DeathPhase(cfg, s1, rec.tag, rec.message);
    (s2, out1 + out2)
  }

  /**
   * A pid joins the tracked set only through an accepted start line, and
   * leaves it only through an end line of the ActivityManager that names
   * it in one of the three dialects.
   */
  lemma LifecyclePids(cfg: Config, st: State, rec: Record, p: string)
    requires NoNewline(rec.line) && NoNewline(rec.message)
    ensures var r := Lifecycle(cfg, st, rec).0;
      (p in r.pids && p !in st.pids ==>
        AcceptsStart(cfg, st.pids, ParseStartProc(rec.line)) && ParseStartProc(rec.line).value.pid == p)
      && (p in st.pids && p !in r.pids ==>
        rec.tag == "ActivityManager"
        && exists d :: Recognised(d, rec.message, cfg.asWritten).Some?
                       && Recognised(d, rec.message, cfg.asWritten).value.pid == p)
  {
    var s1 := StartPhase(cfg, st, rec.line).0;
    var r := LoopDeath(cfg, s1.pids, rec.tag, rec.message);
    if r.Some? {
      var d :| r == Recognised(d, rec.message, cfg.asWritten);
      assert Recognised(d, rec.message, cfg.asWritten).value.pid == r.value.pid;
    }
  }

  /**
   * Lines 357-383, after the lifecycle phases: attribute the record, and
   * when the filters admit it render it.  Neither the pids nor the app pid
   * change, and at most one line is printed, exactly when it is admitted.
   */
  function Kept(cfg: Config, st: State, rec: Record): (r: (State, seq<seq<Segment>>))
    requires st.palette.pool != [] && NoNewline(rec.message)
    ensures r.0.pids == st.pids && r.0.appPid == st.appPid && |r.1| <= 1
    ensures var (owner, _) := Attribute(st.appPid, rec);
      r.1 != [] <==> Admit(cfg, st.pids, owner, rec.level, rec.tag)
    ensures r.1 == [] ==> r.0 == st
    ensures |r.0.palette.pool| == |st.palette.pool|
    ensures forall t :: t in st.palette.known ==> t in r.0.palette.known && r.0.palette.known[t] == st.palette.known[t]
  {
    var (owner, message) := Attribute(st.appPid, rec);
    if !Admit(cfg, st.pids, owner, rec.level, rec.tag) then (st, [])
    else
      var (p, last, line) := Render(cfg, st.palette, st.lastTag, rec.level, rec.tag, message);
      (st.(palette := p, lastTag := last), [line])
  }

  /**
   * The loop body for a log line: lifecycle phases, then the filters and
   * rendering.  The pids and the app pid are the lifecycle's; the output is
   * its banners, then at most the record's line.
   */
  function Handle(cfg: Config, st: State, rec: Record): (r: (State, seq<seq<Segment>>))
    requires st.palette.pool != [] && NoNewline(rec.line) && NoNewline(rec.message)
    ensures var (s2, banners) := Lifecycle(cfg, st, rec);
      r.0.pids == s2.pids && r.0.appPid == s2.appPid
      && |banners| <= |r.1| <= |banners| + 1 && r.1[..|banners|] == banners
    ensures |r.0.palette.pool| == |st.palette.pool|
    ensures forall t :: t in st.palette.known ==> t in r.0.palette.known && r.0.palette.known[t] == st.palette.known[t]
  {
    var (s2, banners) := Lifecycle(cfg, st, rec);
    var (s3, shown) := Kept(cfg, s2, rec);
    PrefixOfAppend(banners, shown);
    (s3, banners + shown)
  }

  /** The pid a line would start, as a set: empty unless it is a start line. */
  function StartSet(raw: string): set<string> {
    match Classify(raw)
    case None => {}
    case Some(rec) => if ParseStartProc(rec.line).Some? then {ParseStartProc(rec.line).value.pid} else {}
  }

  /**
   * Over a whole line read: the only pid that can join is the one of a
   * start line, and pids leave only on an ActivityManager log line.
   */
  lemma StepPids(cfg: Config, st: State, raw: string)
    requires st.palette.pool != []
    ensures Step(cfg, st, raw).0.pids <= st.pids + StartSet(raw)
    ensures !(st.pids <= Step(cfg, st, raw).0.pids) ==> Classify(raw).Some? && Classify(raw).value.tag == "ActivityManager"
  {
    if Classify(raw).Some? {
      var rec := Classify(raw).value;
      forall p | p in Step(cfg, st, raw).0.pids ensures p in st.pids + StartSet(raw) {
        LifecyclePids(cfg, st, rec, p);
      }
      if !(st.pids <= Step(cfg, st, raw).0.pids) {
        var p :| p in st.pids && p !in Step(cfg, st, raw).0.pids;
        LifecyclePids(cfg, st, rec, p);
      }
    }
  }

  /**
   * A native backtrace frame on the DEBUG tag is judged by the last
   * started app, not by the pid on its own line: outside all-mode it is
   * kept only while that app is tracked.
   */
  lemma BacktraceFollowsApp(cfg: Config, st: State, rec: Record)
    requires NoNewline(rec.message) && !AllMode(cfg)
    requires rec.tag == "DEBUG" && IsBacktrace(LStrip(rec.message))
    ensures var a := Attribute(st.appPid, rec);
      Admit(cfg, st.pids, a.0, rec.level, rec.tag) ==> st.appPid.Some? && st.appPid.value in st.pids
    ensures forall owner :: Attribute(st.appPid, rec) == Attribute(st.appPid, rec.(owner := owner))
  {
  }

  /**
   * Right after a start or end banner the record's own line, when it is
   * printed, shows its tag in full: the banner made the tag column forget
   * the last tag.
   */
  lemma BannerResetsTag(cfg: Config, st: State, rec: Record)
    requires st.palette.pool != [] && cfg.tagWidth > 0 && NoNewline(rec.line) && NoNewline(rec.message)
    ensures var r := Handle(cfg, st, rec);
      var banners := Lifecycle(cfg, st, rec).1;
      |banners| > 0 && |r.1| > |banners| ==> r.1[|r.1| - 1][0].text == TagColumn(rec.tag, cfg.tagWidth)
  {
  }

  // ---------------------------------------------------------------- the loop

  /** The loop over the lines read, up to the first empty read (end of input). */
  function Steps(cfg: Config, st: State, lines: seq<string>): (r: (State, seq<seq<Segment>>))
    requires st.palette.pool != []
    ensures |r.0.palette.pool| == |st.palette.pool|
    decreases |lines|
  {
    if lines == [] || lines[0] == "" then (st, [])
    else
      var (s1, out1) := Step(cfg, st, lines[0]);
      var (s2, out2) := Steps(cfg, s1, lines[1..]);
      (s2, out1 + out2)
  }

  /** `f` applied to every line of `lines` in turn, last line last, the outputs collected. */
  function Fold<S, O>(f: (S, string) -> (S, seq<O>), st: S, lines: seq<string>): (S, seq<O>)
    decreases |lines|
  {
    if lines == [] then (st, [])
    else
      var (s1, out1) := Fold(f, st, lines[..|lines| - 1]);
      var (s2, out2) := f(s1, lines[|lines| - 1]);
      (s2, out1 + out2)
  }

  /** Folding one more line is one more application of `f` where the fold stood. */
  lemma FoldNext<S, O>(f: (S, string) -> (S, seq<O>), st: S, lines: seq<string>, line: string)
    ensures var (now, out) := Fold(f, st, lines);
      Fold(f, st, lines + [line]) == (f(now, line).0, out + f(now, line).1)
  {
    assert (lines + [line])[..|lines|] == lines;
  }

  /** Folding a first line and then the rest is folding them all. */
  lemma {:induction false} FoldFirst<S, O>(f: (S, string) -> (S, seq<O>), st: S, lines: seq<string>)
    requires lines != []
    ensures var (s1, out1) := f(st, lines[0]);
      var (s2, out2) := Fold(f, s1, lines[1..]);
      Fold(f, st, lines) == (s2, out1 + out2)
    decreases |lines|
  {
    var (s1, out1) := f(st, lines[0]);
    if |lines| > 1 {
      var n := |lines| - 1;
      var front := lines[..n];
      var rest := lines[1..];
      FoldFirst(f, st, front);
      assert front[0] == lines[0];
      assert front[1..] == rest[..|rest| - 1];
      assert rest[|rest| - 1] == lines[n];
      var (a, outA) := Fold(f, s1, front[1..]);
      var (b, outB) := f(a, lines[n]);
      assert Fold(f, st, lines) == (b, (out1 + outA) + outB);
      assert (out1 + outA) + outB == out1 + (outA + outB);
    } else {
      assert lines[..0] == [] && lines[1..] == [];
      assert Fold(f, st, lines) == (s1, [] + out1);
      assert [] + out1 == out1 + [] == out1;
    }
  }

  /** `Step` as a value; a palette with an empty pool (never reached) steps to itself. */
  function StepWith(cfg: Config): (State, string) -> (State, seq<seq<Segment>>) {
    (st: State, raw: string) => if st.palette.pool == [] then (st, []) else Step(cfg, st, raw)
  }

  /** Every line of `lines` in turn, last line last: the loop as it has run so far. */
  function Replay(cfg: Config, st: State, lines: seq<string>): (State, seq<seq<Segment>>) {
    Fold(StepWith(cfg), st, lines)
  }

  /** Replaying one more line is one more step from where the replay stood. */
  lemma ReplayNext(cfg: Config, st: State, lines: seq<string>, line: string,
                   now: State, out: seq<seq<Segment>>, next: State, printed: seq<seq<Segment>>)
    requires now.palette.pool != []
    requires Replay(cfg, st, lines) == (now, out) && Step(cfg, now, line) == (next, printed)
    ensures Replay(cfg, st, lines + [line]) == (next, out + printed)
  {
    FoldNext(StepWith(cfg), st, lines, line);
    assert StepWith(cfg)(now, line) == (next, printed);
  }

  /**
   * The loop stops at the first empty read: when the lines before `i` are
   * not empty and line `i` is (or there is none), the run is the replay of
   * the lines before `i`.
   */
  lemma {:induction false} StepsIsReplay(cfg: Config, st: State, lines: seq<string>, i: nat)
    requires st.palette.pool != [] && i <= |lines|
    requires "" !in lines[..i]
    requires i == |lines| || lines[i] == ""
    ensures Steps(cfg, st, lines) == Replay(cfg, st, lines[..i])
    decreases i
  {
    if i == 0 {
      assert lines[..i] == [];
    } else {
      var s1 := Step(cfg, st, lines[0]).0;
      TakeTail(lines, i);
      StepsIsReplay(cfg, s1, lines[1..], i - 1);
      FoldFirst(StepWith(cfg), st, lines[..i]);
      assert StepWith(cfg)(st, lines[0]) == Step(cfg, st, lines[0]);
    }
  }

  /** The pids the start lines among `lines` name, up to the first empty read. */
  function StartedPids(lines: seq<string>): set<string> {
    if lines == [] || lines[0] == "" then {} else StartSet(lines[0]) + StartedPids(lines[1..])
  }

  /** Every pid tracked after a run was tracked before or came from a start line of the run. */
  lemma {:induction false} StepsPids(cfg: Config, st: State, lines: seq<string>)
    requires st.palette.pool != []
    ensures Steps(cfg, st, lines).0.pids <= st.pids + StartedPids(lines)
    decreases |lines|
  {
    if lines != [] && lines[0] != "" {
      var s1 := Step(cfg, st, lines[0]).0;
      StepPids(cfg, st, lines[0]);
      StepsPids(cfg, s1, lines[1..]);
    }
  }

  // ---------------------------------------------------------------- seeding

  /**
   * Lines 288-293 over the `(pid, name)` pairs of the `ps` listing: the
   * pids whose process name is wanted.
   */
  function Seeded(f: PackageFilter, procs: seq<(string, string)>): (r: set<string>)
    ensures forall p :: p in r <==> exists i :: 0 <= i < |procs| && procs[i].0 == p && MatchPackages(f, procs[i].1)
  {
    if procs == [] then {}
    else
      var last := procs[|procs| - 1];
      var rest := Seeded(f, procs[..|procs| - 1]);
      assert forall i :: 0 <= i < |procs| - 1 ==> procs[..|procs| - 1][i] == procs[i];
      rest + (if MatchPackages(f, last.1) then {last.0} else {})
  }
}
