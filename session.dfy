/**
 * pidcat.py's main loop as it runs: the tracked pids, the app pid and the
 * last tag shown are variables updated line by line (lines 283-383), and
 * the colour table is the allocator's own state.  Each method is proved to
 * do what the functions of module Tracker say.
 */
module Session {
  import opened Wrappers
  import opened Text
  import opened Patterns
  import opened Packages
  import opened Colors
  import opened Layout
  import opened Tracker

  class Session {
    const cfg: Config
    const colors: ColorAllocator
    var pids: set<string>
    var appPid: Option<string>
    var lastTag: Option<string>

    ghost predicate Valid()
      reads this, colors
    {
      colors.Valid()
    }

    /** The session's state as a value of module Tracker. */
    ghost function Snapshot(): State
      reads this, colors
    {
      State(pids, appPid, lastTag, colors.Snapshot())
    }

    /** Before the loop: nothing tracked, no app, no tag shown, the initial colour table. */
    constructor (cfg: Config)
      ensures Valid() && fresh(colors) && this.cfg == cfg
      ensures Snapshot() == State({}, None, None, InitialPalette)
    {
      this.cfg := cfg;
      colors := new ColorAllocator();
      pids := {};
      appPid := None;
      lastTag := None;
    }

    /**
     * Lines 283-293 over the `(pid, name)` pairs of the `ps` listing:
     * outside all-mode, every pid whose process name is wanted joins.
     */
    method Seed(procs: seq<(string, string)>)
      modifies this
      ensures !AllMode(cfg) ==> pids == old(pids) + Seeded(Filter(cfg), procs)
      ensures AllMode(cfg) ==> pids == old(pids)
      ensures appPid == old(appPid) && lastTag == old(lastTag)
    {
      if !AllMode(cfg) {
        var i := 0;
        while i < |procs|
          invariant 0 <= i <= |procs|
          invariant pids == old(pids) + Seeded(Filter(cfg), procs[..i])
          invariant appPid == old(appPid) && lastTag == old(lastTag)
        {
          var (pid, name) := procs[i];
          assert procs[..i + 1][..i] == procs[..i];
          if MatchPackages(Filter(cfg), name) {
            pids := pids + {pid};
          }
          i := i + 1;
        }
        assert procs[..i] == procs;
      }
    }

    /**
     * Lines 335-347: an accepted start line adds its pid, makes it the app
     * pid, forgets the last tag and yields the start banner.
     */
    method Start(line: string) returns (banners: seq<seq<Segment>>)
      requires NoNewline(line)
      modifies this
      ensures (Snapshot(), banners) == StartPhase(cfg, old(Snapshot()), line)
    {
      banners := [];
      var start := ParseStartProc(line);
      if start.Some? {
        var s := start.value;
        if MatchPackages(Filter(cfg), s.package) && s.pid !in pids {
          pids := pids + {s.pid};
          appPid := Some(s.pid);
          banners := [StartBanner(cfg.width, HeaderSize(cfg), s.package, s.target, s.pid, s.uid, s.gids)];
          lastTag := None;
        }
      }
    }

    /**
     * Lines 349-356: the end of a tracked process removes its pid, forgets
     * the last tag and yields the end banner.
     */
    method End(tag: string, message: string) returns (banners: seq<seq<Segment>>)
      requires NoNewline(message)
      modifies this
      ensures (Snapshot(), banners) == DeathPhase(cfg, old(Snapshot()), tag, message)
    {
      banners := [];
      var dead := LoopDeath(cfg, pids, tag, message);
      if dead.Some? && |dead.value.pid| > 0 && dead.value.pid in pids {
        pids := pids - {dead.value.pid};
        banners := [DeathBanner(HeaderSize(cfg), dead.value.pname, dead.value.pid)];
        lastTag := None;
      }
    }

    /**
     * Lines 368-376: the tag column.  A tag that differs from the last one
     * shown (or every tag, with always-tags) is shown in its colour and
     * becomes the last tag; a repeated tag leaves blanks.
     */
    method ShowTag(tag: string) returns (last: Option<string>, seg: Segment)
      requires colors.Valid() && cfg.tagWidth > 0
      modifies colors
      ensures colors.Valid()
      ensures (colors.Snapshot(), last, seg) == TagSegment(cfg, old(colors.Snapshot()), lastTag, tag)
    {
      ghost var before := colors.Snapshot();
      assert before.pool != [];
      if lastTag != Some(tag) || cfg.alwaysTags {
        last := Some(tag);
        var color := colors.Allocate(tag);
        seg := Painted(TagColumn(tag, cfg.tagWidth), Some(color), None);
        assert (colors.Snapshot(), color) == Allocated(before, tag);
      } else {
        last := lastTag;
        seg := Plain(Spaces(cfg.tagWidth));
      }
    }

    /**
     * Lines 367-383: the printed line of a kept record: the tag column and
     * a space, the level badge and a space, and the highlighted message,
     * wrapped.
     */
    method Show(level: char, tag: string, message: string) returns (segs: seq<Segment>)
      requires Valid()
      modifies this, colors
      ensures Valid() && pids == old(pids) && appPid == old(appPid)
      ensures (colors.Snapshot(), lastTag, segs) == Render(cfg, old(colors.Snapshot()), old(lastTag), level, tag, message)
    {
      var highlighted := cfg.highlight(message);
      segs := [Badge(level), Plain(" "), Plain(IndentWrap(cfg.width, HeaderSize(cfg), highlighted))];
      if cfg.tagWidth > 0 {
        var last, seg := ShowTag(tag);
        lastTag := last;
        segs := [seg, Plain(" ")] + segs;
      }
    }

    /**
     * Lines 357-383: the backtrace attribution, the four filters, and the
     * printed line when they all let the record through.
     */
    method Keep(rec: Record) returns (shown: seq<seq<Segment>>)
      requires Valid() && NoNewline(rec.message)
      modifies this, colors
      ensures Valid()
      ensures (Snapshot(), shown) == Kept(cfg, old(Snapshot()), rec)
    {
      shown := [];
      var owner := Some(rec.owner);
      var message := rec.message;
      if rec.tag == "DEBUG" && IsBacktrace(LStrip(message)) {
        message := LStrip(message);
        owner := appPid;
      }

      if !AllMode(cfg) && (owner.None? || owner.value !in pids) {
        return;
      }
      if rec.level in LogLevels && LevelRank(rec.level).value < cfg.minRank {
        return;
      }
      if |cfg.ignoredTags| > 0 && TagInRules(cfg, cfg.ignoredTags, rec.tag) {
        return;
      }
      if |cfg.tags| > 0 && !TagInRules(cfg, cfg.tags, rec.tag) {
        return;
      }
      var printed := Show(rec.level, rec.tag, message);
      shown := [printed];
    }

    /**
     * Lines 335-383 for a log line cut into its groups: the start and end
     * phases, then the filters and the printed line.
     */
    method ProcessRecord(rec: Record) returns (out: seq<seq<Segment>>)
      requires Valid() && NoNewline(rec.line) && NoNewline(rec.message)
      modifies this, colors
      ensures Valid()
      ensures (Snapshot(), out) == Handle(cfg, old(Snapshot()), rec)
    {
      var started := Start(rec.line);
      var ended := End(rec.tag, rec.message);
      var shown := Keep(rec);
      out := started + ended + shown;
    }

    /**
     * The body of the loop for one line read (lines 320-383), updating the
     * state in place and returning what it prints: the start and end
     * banners, then the record's line when the filters keep it.
     */
    method ProcessLine(raw: string) returns (out: seq<seq<Segment>>)
      requires Valid()
      modifies this, colors
      ensures Valid()
      ensures (Snapshot(), out) == Step(cfg, old(Snapshot()), raw)
    {
      out := [];
      var line := Strip(raw);
      if line == [] || IsNoise(line) {
        return;
      }
      var parsed := ParseLogLine(line);
      if parsed.None? {
        return;
      }
      var LogLine(level, rawTag, lineOwner, lineMessage) := parsed.value;
      var tag := Strip(rawTag);
      MessageOnOneLine(line);
      var rec := Record(line, level, tag, lineOwner, lineMessage);
      assert Classify(raw) == Some(rec);
      out := ProcessRecord(rec);
    }

    /**
     * The loop over the lines read (lines 307-383): each line in turn
     * until the first empty read, which is the end of the input.
     */
    method Run(lines: seq<string>) returns (out: seq<seq<Segment>>)
      requires Valid()
      modifies this, colors
      ensures Valid()
      ensures (Snapshot(), out) == Steps(cfg, old(Snapshot()), lines)
    {
      ghost var start := Snapshot();
      out := [];
      var i := 0;
      while i < |lines| && lines[i] != ""
        invariant 0 <= i <= |lines| && Valid()
        invariant "" !in lines[..i]
        invariant Replay(cfg, start, lines[..i]) == (Snapshot(), out)
      {
        ghost var now := Snapshot();
        var printed := ProcessLine(lines[i]);
        ReplayNext(cfg, start, lines[..i], lines[i], now, out, Snapshot(), printed);
        PrefixExtend(lines, i);
        out := out + printed;
        i := i + 1;
      }
      StepsIsReplay(cfg, start, lines, i);
    }
  }
}
